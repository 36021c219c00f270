/** The billing panel: checkout and portal requests retried under an idempotency key, beside
    account loads numbered so that a late one is dropped. Keys are numbered in the order the panel
    draws them; the server creates at most one redirect per key. */
module CheckoutRetries {
  import opened Common

  datatype Kind = Subscription | Portal

  datatype Busy = Idle | Loading | Opening(kind: Kind)

  /** One mounted panel. */
  datatype Panel = Panel(
    subscriptionKey: Option<nat>,
    portalKey: Option<nat>,
    busy: Busy,
    refreshSeq: nat,
    overview: Option<nat>,
    failed: bool,
    left: bool)

  function KeyOf(p: Panel, kind: Kind): Option<nat> {
    if kind.Subscription? then p.subscriptionKey else p.portalKey
  }

  function WithKey(p: Panel, kind: Kind, key: Option<nat>): Panel {
    if kind.Subscription? then p.(subscriptionKey := key) else p.(portalKey := key)
  }

  /** What the world knows of one kind of request: how many keys the panel drew, the key of every
      attempt, the attempts still open, the keys the server acted on, the good replies received. */
  datatype Ledger = Ledger(drawn: nat, sends: seq<nat>, open: set<nat>, created: set<nat>, replies: nat)

  datatype World = World(panel: Panel, subscription: Ledger, portal: Ledger, loads: set<nat>)

  function LedgerOf(w: World, kind: Kind): Ledger {
    if kind.Subscription? then w.subscription else w.portal
  }

  function WithLedger(w: World, kind: Kind, l: Ledger): World {
    if kind.Subscription? then w.(subscription := l) else w.(portal := l)
  }

  /** `Served` is a request, sent once or more, reaching the server, however late; a reply may never
      come, and a failure may hide a request that was served. */
  datatype Event =
    | StartLoad
    | LoadEnd(seqNo: nat, account: Option<nat>)
    | Attempt(kind: Kind)
    | Served(kind: Kind, attempt: nat)
    | Reply(kind: Kind, attempt: nat, redirects: bool)
    | Failed(kind: Kind, attempt: nat)

  const EMPTY := Ledger(0, [], {}, {}, 0)
  const START := World(Panel(None, None, Loading, 0, None, false, false), EMPTY, EMPTY, {})

  predicate Enabled(w: World, e: Event) {
    match e
    case LoadEnd(n, _) => n in w.loads
    case Served(kind, a) => a < |LedgerOf(w, kind).sends|
    case Reply(kind, a, _) =>
      var l := LedgerOf(w, kind);
      a in l.open && a < |l.sends| && l.sends[a] in l.created
    case Failed(kind, a) => a in LedgerOf(w, kind).open
    case _ => true
  }

  // ----- what the handlers do to the panel -----

  function Loads(p: Panel): Panel {
    p.(refreshSeq := p.refreshSeq + 1, busy := Loading, failed := false)
  }

  function Loaded(p: Panel, seqNo: nat, account: Option<nat>): Panel {
    if p.refreshSeq != seqNo then p
    else if account.Some? then p.(overview := account, busy := Idle)
    else p.(failed := true, busy := Idle)
  }

  function Tries(p: Panel, kind: Kind, unused: nat): Panel {
    var q := p.(busy := Opening(kind), failed := false);
    if KeyOf(p, kind).None? then WithKey(q, kind, Some(unused)) else q
  }

  function Redirected(p: Panel, kind: Kind, redirects: bool): Panel {
    var q := WithKey(p, kind, None);
    if redirects then q.(left := true) else q.(failed := true, busy := Idle)
  }

  function GaveUp(p: Panel): Panel {
    p.(failed := true, busy := Idle)
  }

  // ----- one step of panel, network and server -----

  function Sends(l: Ledger, p: Panel, kind: Kind): Ledger {
    var key := if KeyOf(p, kind).None? then l.drawn else KeyOf(p, kind).value;
    l.(drawn := if KeyOf(p, kind).None? then l.drawn + 1 else l.drawn,
       sends := l.sends + [key], open := l.open + {|l.sends|})
  }

  function Next(w: World, e: Event): World
    requires Enabled(w, e)
  {
    match e
    case StartLoad => w.(panel := Loads(w.panel), loads := w.loads + {w.panel.refreshSeq + 1})
    case LoadEnd(n, account) => w.(panel := Loaded(w.panel, n, account), loads := w.loads - {n})
    case Attempt(kind) =>
      var l := LedgerOf(w, kind);
      WithLedger(w, kind, Sends(l, w.panel, kind)).(panel := Tries(w.panel, kind, l.drawn))
    case Served(kind, a) =>
      var l := LedgerOf(w, kind);
      WithLedger(w, kind, l.(created := l.created + {l.sends[a]}))
    case Reply(kind, a, redirects) =>
      var l := LedgerOf(w, kind);
      WithLedger(w, kind, l.(open := l.open - {a}, replies := l.replies + 1))
        .(panel := Redirected(w.panel, kind, redirects))
    case Failed(kind, a) =>
      var l := LedgerOf(w, kind);
      WithLedger(w, kind, l.(open := l.open - {a})).(panel := GaveUp(w.panel))
  }

  ghost predicate Runs(w: World, events: seq<Event>, v: World)
    decreases |events|
  {
    if events == [] then v == w
    else Enabled(w, events[0]) && Runs(Next(w, events[0]), events[1..], v)
  }

  // ----- what every run keeps -----

  /** A held key is the newest one, every key but a held one was paid for by a reply, and the server
      has only seen keys the panel drew. */
  ghost predicate Paid(l: Ledger, key: Option<nat>) {
    && l.drawn <= l.replies + (if key.Some? then 1 else 0)
    && (key.Some? ==> key.value + 1 == l.drawn)
    && (forall a | 0 <= a < |l.sends| :: l.sends[a] < l.drawn)
    && (forall k | k in l.created :: k < l.drawn)
  }

  /** A busy panel is waiting for something that will release it, unless it has navigated away or has
      not yet made its first load. */
  ghost predicate Waiting(w: World) {
    match w.panel.busy
    case Idle => true
    case Loading => w.panel.refreshSeq == 0 || w.panel.refreshSeq in w.loads
    case Opening(kind) => w.panel.left || |LedgerOf(w, kind).sends| - 1 in LedgerOf(w, kind).open
  }

  ghost predicate Inv(w: World) {
    && Paid(w.subscription, w.panel.subscriptionKey)
    && Paid(w.portal, w.panel.portalKey)
    && Waiting(w)
    && (forall n | n in w.loads :: n <= w.panel.refreshSeq)
  }

  lemma NextKeepsPaid(w: World, e: Event, kind: Kind)
    requires Paid(LedgerOf(w, kind), KeyOf(w.panel, kind)) && Enabled(w, e)
    ensures Paid(LedgerOf(Next(w, e), kind), KeyOf(Next(w, e).panel, kind))
  {
    if (e.Attempt? || e.Served? || e.Reply? || e.Failed?) && e.kind != kind {
      assert LedgerOf(Next(w, e), kind) == LedgerOf(w, kind);
      assert KeyOf(Next(w, e).panel, kind) == KeyOf(w.panel, kind);
    }
  }

  lemma NextKeepsWaiting(w: World, e: Event)
    requires Waiting(w) && Enabled(w, e)
    requires forall n | n in w.loads :: n <= w.panel.refreshSeq
    ensures Waiting(Next(w, e))
    ensures forall n | n in Next(w, e).loads :: n <= Next(w, e).panel.refreshSeq
  {}

  lemma NextKeepsInv(w: World, e: Event)
    requires Inv(w) && Enabled(w, e)
    ensures Inv(Next(w, e))
  {
    NextKeepsPaid(w, e, Subscription);
    NextKeepsPaid(w, e, Portal);
    NextKeepsWaiting(w, e);
  }

  lemma {:induction false} RunsKeepInv(w: World, events: seq<Event>, v: World)
    requires Inv(w) && Runs(w, events, v)
    ensures Inv(v)
    decreases |events|
  {
    if events != [] {
      NextKeepsInv(w, events[0]);
      RunsKeepInv(Next(w, events[0]), events[1..], v);
    }
  }

  lemma {:induction false} BoundedSet(s: set<nat>, n: nat)
    requires forall k | k in s :: k < n
    ensures |s| <= n
    decreases n
  {
    if n == 0 {
      assert s == {};
    } else {
      BoundedSet(s - {n - 1}, n - 1);
    }
  }

  /** However attempts, lost replies and failures interleave, the server never creates more than one
      redirect beyond those the panel was told of, and none beyond them while no key is held. */
  lemma CreatedIsBounded(events: seq<Event>, v: World, kind: Kind)
    requires Runs(START, events, v)
    ensures |LedgerOf(v, kind).created| <= LedgerOf(v, kind).replies + 1
    ensures KeyOf(v.panel, kind).None? ==> |LedgerOf(v, kind).created| <= LedgerOf(v, kind).replies
  {
    RunsKeepInv(START, events, v);
    BoundedSet(LedgerOf(v, kind).created, LedgerOf(v, kind).drawn);
  }

  /** A busy panel always has an open request that will release it. */
  lemma BusyIsReleased(events: seq<Event>, v: World)
    requires Runs(START, events, v)
    ensures Waiting(v)
  {
    RunsKeepInv(START, events, v);
  }

  /** The attempts of one kind that `m` has beyond `l` were all sent under the key held last. */
  ghost predicate ShareKey(l: Ledger, m: Ledger, before: Option<nat>, after: Option<nat>) {
    && l.sends <= m.sends
    && (before.Some? ==> after == before)
    && (forall a | |l.sends| <= a < |m.sends| :: after == Some(m.sends[a]))
  }

  lemma StepSharesKey(w: World, e: Event, kind: Kind)
    requires Enabled(w, e)
    requires !(e.Reply? && e.kind == kind)
    ensures ShareKey(LedgerOf(w, kind), LedgerOf(Next(w, e), kind), KeyOf(w.panel, kind), KeyOf(Next(w, e).panel, kind))
  {
    if (e.Attempt? || e.Served? || e.Reply? || e.Failed?) && e.kind != kind {
      assert LedgerOf(Next(w, e), kind) == LedgerOf(w, kind);
      assert KeyOf(Next(w, e).panel, kind) == KeyOf(w.panel, kind);
    }
  }

  lemma ShareKeyChains(l: Ledger, m: Ledger, n: Ledger, a: Option<nat>, b: Option<nat>, c: Option<nat>)
    requires ShareKey(l, m, a, b) && ShareKey(m, n, b, c)
    ensures ShareKey(l, n, a, c)
  {
    forall i | |l.sends| <= i < |n.sends| ensures c == Some(n.sends[i]) {
      if i < |m.sends| {
        assert n.sends[i] == m.sends[i];
      }
    }
  }

  /** All attempts between two good replies, retries after failures included, share one key. */
  lemma {:induction false} RetriesShareKey(w: World, events: seq<Event>, v: World, kind: Kind)
    requires Runs(w, events, v)
    requires LedgerOf(v, kind).replies == LedgerOf(w, kind).replies
    ensures ShareKey(LedgerOf(w, kind), LedgerOf(v, kind), KeyOf(w.panel, kind), KeyOf(v.panel, kind))
    decreases |events|
  {
    if events != [] {
      var u := Next(w, events[0]);
      RepliesOnlyGrow(u, events[1..], v, kind);
      StepSharesKey(w, events[0], kind);
      RetriesShareKey(u, events[1..], v, kind);
      ShareKeyChains(LedgerOf(w, kind), LedgerOf(u, kind), LedgerOf(v, kind),
                     KeyOf(w.panel, kind), KeyOf(u.panel, kind), KeyOf(v.panel, kind));
    }
  }

  lemma {:induction false} RepliesOnlyGrow(w: World, events: seq<Event>, v: World, kind: Kind)
    requires Runs(w, events, v)
    ensures LedgerOf(w, kind).replies <= LedgerOf(v, kind).replies
    decreases |events|
  {
    if events != [] {
      RepliesOnlyGrow(Next(w, events[0]), events[1..], v, kind);
    }
  }

  // ----- the bound is met -----

  lemma {:induction false} RunsOn(w: World, events: seq<Event>, v: World, e: Event)
    requires Runs(w, events, v) && Enabled(v, e)
    ensures Runs(w, events + [e], Next(v, e))
    decreases |events|
  {
    if events == [] {
      assert Runs(Next(w, e), [], Next(v, e));
      assert ([e])[1..] == [];
    } else {
      RunsOn(Next(w, events[0]), events[1..], v, e);
      assert (events + [e])[1..] == events[1..] + [e];
    }
  }

  /** The newest key was served and its reply has not come. */
  ghost predicate Unheard(w: World, kind: Kind, n: nat) {
    var l := LedgerOf(w, kind);
    && l.replies == n && l.drawn == n + 1 && |l.created| == n + 1
    && |l.sends| > 0 && |l.sends| - 1 in l.open && l.sends[|l.sends| - 1] == n && n in l.created
    && (forall k | k in l.created :: k <= n)
  }

  lemma {:induction false} AttemptIsServed(w: World, kind: Kind, events: seq<Event>) returns (more: seq<Event>, v: World)
    requires Runs(START, events, w)
    requires KeyOf(w.panel, kind).None? && LedgerOf(w, kind).drawn == LedgerOf(w, kind).replies
    requires |LedgerOf(w, kind).created| == LedgerOf(w, kind).drawn
    requires forall k | k in LedgerOf(w, kind).created :: k < LedgerOf(w, kind).drawn
    ensures Runs(START, more, v) && Unheard(v, kind, LedgerOf(w, kind).drawn)
  {
    var a := |LedgerOf(w, kind).sends|;
    RunsOn(START, events, w, Attempt(kind));
    var u := Next(w, Attempt(kind));
    RunsOn(START, events + [Attempt(kind)], u, Served(kind, a));
    more, v := events + [Attempt(kind)] + [Served(kind, a)], Next(u, Served(kind, a));
  }

  /** For every number of good replies some run has created one redirect more. */
  lemma {:induction false} BoundIsMet(kind: Kind, n: nat) returns (events: seq<Event>, v: World)
    ensures Runs(START, events, v)
    ensures Unheard(v, kind, n)
    ensures |LedgerOf(v, kind).created| == LedgerOf(v, kind).replies + 1
    decreases n
  {
    if n == 0 {
      events, v := AttemptIsServed(START, kind, []);
    } else {
      events, v := BoundIsMet(kind, n - 1);
      var e := Reply(kind, |LedgerOf(v, kind).sends| - 1, false);
      RunsOn(START, events, v, e);
      events, v := AttemptIsServed(Next(v, e), kind, events + [e]);
    }
  }

  // ----- the panel as the code keeps it -----

  class BillingPanel {
    var subscriptionKey: Option<nat>
    var portalKey: Option<nat>
    var busy: Busy
    var refreshSeq: nat
    var overview: Option<nat>
    var failed: bool
    var left: bool

    ghost function State(): Panel
      reads this
    {
      Panel(subscriptionKey, portalKey, busy, refreshSeq, overview, failed, left)
    }

    constructor ()
      ensures State() == START.panel
    {
      subscriptionKey, portalKey, busy := None, None, Loading;
      refreshSeq, overview, failed, left := 0, None, false, false;
    }

    /** Starts an account load; the result is the number it will come back with. */
    method Refresh() returns (seqNo: nat)
      modifies this
      ensures State() == Loads(old(State())) && seqNo == refreshSeq
    {
      refreshSeq := refreshSeq + 1;
      seqNo := refreshSeq;
      busy := Loading;
      failed := false;
    }

    method OnLoaded(seqNo: nat, account: Option<nat>)
      modifies this
      ensures State() == Loaded(old(State()), seqNo, account)
      ensures seqNo != old(refreshSeq) ==> State() == old(State())
    {
      if account.Some? {
        if refreshSeq == seqNo {
          overview := account;
        }
      } else {
        if refreshSeq == seqNo {
          failed := true;
        }
      }
      if refreshSeq == seqNo {
        busy := Idle;
      }
    }

    /** Starts a checkout or portal request; the result is the key it is sent under. */
    method Request(kind: Kind, unused: nat) returns (key: nat)
      modifies this
      ensures State() == Tries(old(State()), kind, unused)
      ensures KeyOf(State(), kind) == Some(key)
      ensures old(KeyOf(State(), kind)).Some? ==> Some(key) == old(KeyOf(State(), kind))
    {
      busy := Opening(kind);
      failed := false;
      match kind
      case Subscription =>
        if subscriptionKey.None? {
          subscriptionKey := Some(unused);
        }
        key := subscriptionKey.value;
      case Portal =>
        if portalKey.None? {
          portalKey := Some(unused);
        }
        key := portalKey.value;
    }

    /** A good reply; its address is followed only if it passes the redirect check. */
    method OnReply(kind: Kind, redirects: bool)
      modifies this
      ensures State() == Redirected(old(State()), kind, redirects)
    {
      match kind {
        case Subscription => subscriptionKey := None;
        case Portal => portalKey := None;
      }
      if redirects {
        left := true;
      } else {
        failed := true;
        busy := Idle;
      }
    }

    method OnFailure()
      modifies this
      ensures State() == GaveUp(old(State()))
      ensures subscriptionKey == old(subscriptionKey) && portalKey == old(portalKey)
    {
      failed := true;
      busy := Idle;
    }
  }
}
