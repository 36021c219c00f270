/** All tabs together: the storage they share, the control panel each of them shows, and the storage
    events that the browser delivers to every tab but the one that wrote. */
module TabAgreement {
  import opened Common
  import Auth = SessionProtocol
  import Shown = PanelIdentity

  /** A session that a sign-in, or with `raised` a step-up, returned and the panel has not shown yet. */
  datatype Handover = Handover(session: Auth.Session, raised: bool)

  /** A caller of `getValidSession` and what it waits for. */
  datatype Wait = Wait(frame: Shown.Frame, started: Auth.Started)

  /** One tab: its panel, the number of storage events still on their way to it, and what its session
      code has handed over or will hand over to the panel. */
  datatype View = View(panel: Shown.Panel, undelivered: nat, handed: multiset<Handover>, waits: set<Wait>)

  datatype Browser = Browser(world: Auth.World, views: map<nat, View>)

  /** Signing out, being refused and asking for a valid session run session code and panel code in one
      turn; otherwise a tab runs them in separate turns. */
  datatype Event =
    | Open(tab: nat)
    | Session(tab: nat, turn: Auth.Event)
    | Panel(tab: nat, handler: Shown.Event)
    | Valid(tab: nat, force: bool, now: int, id: nat)
    | SignOut(tab: nat)
    | Refused(tab: nat, frame: Shown.Frame, id: nat, now: int)
    | Deliver(tab: nat, api: bool)

  const START := Browser(Auth.EMPTY, map[])

  function UserOf(s: Option<Auth.Session>): Option<string> {
    if s.Some? then Some(s.value.user) else None
  }

  predicate Whole(b: Browser) {
    b.views.Keys == b.world.tabs.Keys
  }

  // ----- steps -----

  /** Which turns of the session code run on their own, and in which tab. A step-up starts from a
      session that the panel once had. */
  predicate RunsIn(b: Browser, tab: nat, e: Auth.Event)
    requires tab in b.views
  {
    match e
    case Reply(id, _) => id in b.world.requests && b.world.requests[id].tab == tab
    case Settle(id) => id in b.world.requests && b.world.requests[id].tab == tab
    case SignIn(_) => true
    case StepUp(_, _, _, _) => b.views[tab].panel.seqNo > 0
    case Clear => false
    case OpenTab(_) => false
    case _ => e.tab == tab
  }

  /** The caller's wait is over with this outcome. */
  predicate Ended(b: Browser, tab: nat, frame: Shown.Frame, outcome: Auth.Outcome)
    requires tab in b.views
  {
    exists wait | wait in b.views[tab].waits ::
      wait.frame == frame &&
      match wait.started
      case Ready(s) => outcome == Auth.Refreshed(s)
      case WaitFor(id) => EndedAs(b, id, outcome)
  }

  predicate EndedAs(b: Browser, id: nat, outcome: Auth.Outcome) {
    id in b.world.requests && b.world.requests[id].phase == Auth.Phase.Settled(outcome)
  }

  /** What the panel shows comes from the session code of its tab. A start-up that fails is one whose
      restore returns nothing. */
  predicate Supplied(b: Browser, tab: nat, e: Shown.Event)
    requires Whole(b) && tab in b.views
  {
    match e
    case StartupDone(found, _) => b.world.tabs[tab].restore == Auth.Returned(found)
    case StartupFailed => b.world.tabs[tab].restore == Auth.Returned(None)
    case ValidDone(frame, next, _) => Ended(b, tab, frame, Auth.Refreshed(next))
    case ValidFailed(frame, error, _) => !Auth.IsDefinitive(error) && Ended(b, tab, frame, Auth.Failed(error))
    case Authenticated(s, _, _) => Handover(s, false) in b.views[tab].handed
    case Elevated(s) => Handover(s, true) in b.views[tab].handed
    case StorageChanged(_, _) => false
    case BeginValid => false
    case Disconnect => false
    case _ => true
  }

  predicate Enabled(b: Browser, e: Event) {
    && Whole(b)
    && (if e.Open? then e.tab !in b.views else e.tab in b.views)
    && match e
       case Session(tab, turn) => RunsIn(b, tab, turn) && Auth.Enabled(b.world, turn)
       case Panel(tab, turn) => Shown.Enabled(b.views[tab].panel, turn) && Supplied(b, tab, turn)
       case Valid(tab, _, _, id) => id !in b.world.requests
       case Refused(tab, frame, id, _) =>
         && Wait(frame, Auth.WaitFor(id)) in b.views[tab].waits && frame in b.views[tab].panel.frames
         && id in b.world.requests && b.world.requests[id].phase.Settled?
         && b.world.requests[id].phase.outcome.Failed? && Auth.IsDefinitive(b.world.requests[id].phase.outcome.error)
       case Deliver(tab, _) => b.views[tab].undelivered > 0
       case _ => true
  }

  /** The session code of one tab moves the world on; a change of the storage is announced to the others. */
  function Written(b: Browser, tab: nat, world: Auth.World): Browser {
    Browser(world, map u | u in b.views :: if u != tab && world.stored != b.world.stored then Announced(b.views[u]) else b.views[u])
  }

  function Announced(v: View): View {
    v.(undelivered := v.undelivered + 1)
  }

  /** What the turn hands over to the panel later on. */
  function HandedBy(e: Auth.Event): multiset<Handover> {
    match e
    case SignIn(s) => multiset{Handover(s, false)}
    case StepUp(base, access, refresh, expiresAt) => multiset{Handover(Auth.Elevated(base, access, refresh, expiresAt), true)}
    case _ => multiset{}
  }

  /** What the panel's turn takes over. */
  function TakenBy(e: Shown.Event): multiset<Handover> {
    match e
    case Authenticated(s, _, _) => multiset{Handover(s, false)}
    case Elevated(s) => multiset{Handover(s, true)}
    case _ => multiset{}
  }

  function SetView(b: Browser, tab: nat, v: View): Browser {
    b.(views := b.views[tab := v])
  }

  function Next(b: Browser, e: Event): Browser
    requires Enabled(b, e)
  {
    match e
    case Open(tab) =>
      Browser(Auth.Next(b.world, Auth.OpenTab(tab)), b.views[tab := View(Shown.START, 0, multiset{}, {})])
    case Session(tab, turn) =>
      var v := b.views[tab];
      SetView(Written(b, tab, Auth.Next(b.world, turn)), tab, v.(handed := v.handed + HandedBy(turn)))
    case Panel(tab, turn) =>
      var v := b.views[tab];
      SetView(b, tab, v.(panel := Shown.Next(v.panel, turn), handed := v.handed - TakenBy(turn)))
    case Valid(tab, force, now, id) =>
      var v := b.views[tab];
      if v.panel.session.None? then b
      else
        var s := v.panel.session.value;
        var wait := Wait(Shown.Frame(s, v.panel.seqNo), Auth.Begun(b.world, tab, s, force, now, id));
        SetView(Written(b, tab, Auth.Next(b.world, Auth.Refresh(tab, s, force, now, id))), tab,
                v.(panel := Shown.Next(v.panel, Shown.BeginValid), waits := v.waits + {wait}))
    case SignOut(tab) =>
      var v := b.views[tab];
      var out := v.(panel := Shown.Next(v.panel, Shown.Disconnect));
      SetView(if v.panel.session.Some? then Written(b, tab, Auth.Next(b.world, Auth.Clear)) else b, tab, out)
    case Refused(tab, frame, id, now) =>
      var v := b.views[tab];
      var failed := Shown.ValidFailed(frame, b.world.requests[id].phase.outcome.error, now);
      SetView(if Shown.Current(v.panel, frame) then Written(b, tab, Auth.Next(b.world, Auth.Clear)) else b, tab,
              v.(panel := Shown.Next(v.panel, failed)))
    case Deliver(tab, api) =>
      var v := b.views[tab];
      SetView(b, tab, v.(panel := Shown.Next(v.panel, Shown.StorageChanged(b.world.stored, api)), undelivered := v.undelivered - 1))
  }

  // ----- runs -----

  predicate IsRun(b: Browser, events: seq<Event>)
    decreases |events|
  {
    events == [] || (Enabled(b, events[0]) && IsRun(Next(b, events[0]), events[1..]))
  }

  function After(b: Browser, events: seq<Event>): Browser
    requires IsRun(b, events)
    decreases |events|
  {
    if events == [] then b else After(Next(b, events[0]), events[1..])
  }

  /** The server is honest, as the session protocol has it. */
  ghost predicate Honest(owner: string -> string, b: Browser, e: Event)
    requires Enabled(b, e)
  {
    e.Session? ==> Auth.Honest(owner, b.world, e.turn)
  }

  ghost predicate HonestRun(owner: string -> string, b: Browser, events: seq<Event>)
    requires IsRun(b, events)
    decreases |events|
  {
    events == [] || (Honest(owner, b, events[0]) && HonestRun(owner, Next(b, events[0]), events[1..]))
  }

  // ----- whose sessions -----

  ghost predicate WaitInv(owner: string -> string, w: Auth.World, wait: Wait) {
    match wait.started
    case Ready(s) => Auth.Owned(owner, s) && s.user == wait.frame.current.user
    case WaitFor(id) => id in w.requests && owner(w.requests[id].token) == wait.frame.current.user
  }

  ghost predicate PanelInv(owner: string -> string, p: Shown.Panel) {
    (p.session.Some? ==> Auth.Owned(owner, p.session.value)) && (p.seqNo == 0 ==> p.session.None?)
  }

  ghost predicate ViewInv(owner: string -> string, w: Auth.World, v: View) {
    && PanelInv(owner, v.panel)
    && (forall h | h in v.handed :: Auth.Owned(owner, h.session))
    && (forall wait | wait in v.waits :: WaitInv(owner, w, wait))
  }

  /** Every session in the browser belongs to the owner of its refresh token, and a caller waits for a
      session of the user it asked for. */
  ghost predicate Inv(owner: string -> string, b: Browser) {
    && Whole(b) && Auth.Inv(owner, b.world)
    && forall tab | tab in b.views :: ViewInv(owner, b.world, b.views[tab])
  }

  /** Requests keep their tokens. */
  predicate Extends(w: Auth.World, v: Auth.World) {
    forall id | id in w.requests :: id in v.requests && v.requests[id].token == w.requests[id].token
  }

  lemma NextExtends(w: Auth.World, e: Auth.Event)
    requires Auth.Enabled(w, e)
    ensures Extends(w, Auth.Next(w, e))
    ensures Auth.Next(w, e).tabs.Keys == w.tabs.Keys + if e.OpenTab? then {e.tab} else {}
  {
  }

  lemma WorldKeepsInv(owner: string -> string, w: Auth.World, e: Auth.Event)
    requires Auth.Inv(owner, w) && Auth.Enabled(w, e) && Auth.Honest(owner, w, e)
    ensures Auth.Inv(owner, Auth.Next(w, e))
  {
    Auth.NextKeepsSingleFlight(w, e);
    Auth.NextKeepsAttribution(owner, w, e);
  }

  lemma ViewStays(owner: string -> string, w: Auth.World, v: Auth.World, view: View)
    requires ViewInv(owner, w, view) && Extends(w, v)
    ensures ViewInv(owner, v, view) && ViewInv(owner, v, Announced(view))
  {
    forall wait | wait in view.waits ensures WaitInv(owner, v, wait) {
      assert WaitInv(owner, w, wait);
    }
  }

  /** A turn of one tab keeps the invariant when it keeps the world's and the tab's own. */
  lemma TurnKeepsInv(owner: string -> string, b: Browser, tab: nat, world: Auth.World, view: View)
    requires Inv(owner, b) && tab in b.views && Auth.Inv(owner, world) && Extends(b.world, world)
    requires world.tabs.Keys == b.world.tabs.Keys && ViewInv(owner, world, view)
    ensures Inv(owner, SetView(Written(b, tab, world), tab, view))
  {
    var c := SetView(Written(b, tab, world), tab, view);
    forall u | u in c.views ensures ViewInv(owner, world, c.views[u]) {
      if u != tab {
        ViewStays(owner, b.world, world, b.views[u]);
      }
    }
  }

  lemma SameWorld(b: Browser, tab: nat)
    ensures Written(b, tab, b.world) == b
  {
  }

  lemma WaitedIsForUser(owner: string -> string, b: Browser, tab: nat, frame: Shown.Frame, next: Auth.Session)
    requires Inv(owner, b) && tab in b.views && Ended(b, tab, frame, Auth.Refreshed(next))
    ensures Auth.Owned(owner, next) && next.user == frame.current.user
  {
    assert ViewInv(owner, b.world, b.views[tab]);
    var wait :| wait in b.views[tab].waits && wait.frame == frame &&
      match wait.started
      case Ready(s) => Auth.Refreshed(next) == Auth.Refreshed(s)
      case WaitFor(id) => EndedAs(b, id, Auth.Refreshed(next));
    assert WaitInv(owner, b.world, wait);
    if wait.started.WaitFor? {
      assert Auth.RequestAttributed(owner, b.world.requests[wait.started.id]);
    }
  }

  lemma RestoredIsOwned(owner: string -> string, b: Browser, tab: nat)
    requires Inv(owner, b) && tab in b.views
    ensures var r := b.world.tabs[tab].restore;
      && (r.Returned? && r.result.Some? ==> Auth.Owned(owner, r.result.value))
      && (r.Redirected? ==> Auth.Owned(owner, r.session))
  {
    assert Auth.RestoreAttributed(owner, b.world, b.world.tabs[tab].restore);
  }

  /** The session the turn brings along is its user's. */
  ghost predicate Brought(owner: string -> string, e: Shown.Event) {
    match e
    case StartupDone(found, _) => found.Some? ==> Auth.Owned(owner, found.value)
    case ValidDone(_, next, _) => Auth.Owned(owner, next)
    case Authenticated(s, _, _) => Auth.Owned(owner, s)
    case Elevated(s) => Auth.Owned(owner, s)
    case StorageChanged(found, _) => found.Some? ==> Auth.Owned(owner, found.value)
    case _ => true
  }

  lemma PanelStaysOwned(owner: string -> string, p: Shown.Panel, e: Shown.Event)
    requires Shown.Enabled(p, e) && Brought(owner, e) && PanelInv(owner, p)
    ensures PanelInv(owner, Shown.Next(p, e))
  {
  }

  lemma SuppliedIsOwned(owner: string -> string, b: Browser, tab: nat, e: Shown.Event)
    requires Inv(owner, b) && Enabled(b, Panel(tab, e))
    ensures Brought(owner, e)
  {
    assert ViewInv(owner, b.world, b.views[tab]);
    if e.StartupDone? {
      RestoredIsOwned(owner, b, tab);
    } else if e.ValidDone? {
      WaitedIsForUser(owner, b, tab, e.frame, e.next);
    }
  }

  lemma TakingKeepsInv(owner: string -> string, w: Auth.World, v: View, p: Shown.Panel, taken: multiset<Handover>)
    requires ViewInv(owner, w, v) && PanelInv(owner, p)
    ensures ViewInv(owner, w, v.(panel := p, handed := v.handed - taken))
  {
  }

  lemma PanelKeepsInv(owner: string -> string, b: Browser, tab: nat, e: Shown.Event)
    requires Inv(owner, b) && Enabled(b, Panel(tab, e))
    ensures Inv(owner, Next(b, Panel(tab, e)))
  {
    var v := b.views[tab];
    assert ViewInv(owner, b.world, v);
    SuppliedIsOwned(owner, b, tab, e);
    PanelStaysOwned(owner, v.panel, e);
    TakingKeepsInv(owner, b.world, v, Shown.Next(v.panel, e), TakenBy(e));
    SameWorld(b, tab);
    TurnKeepsInv(owner, b, tab, b.world, v.(panel := Shown.Next(v.panel, e), handed := v.handed - TakenBy(e)));
  }

  lemma SessionKeepsInv(owner: string -> string, b: Browser, tab: nat, e: Auth.Event)
    requires Inv(owner, b) && Enabled(b, Session(tab, e)) && Auth.Honest(owner, b.world, e)
    ensures Inv(owner, Next(b, Session(tab, e)))
  {
    var v := b.views[tab];
    NextExtends(b.world, e);
    WorldKeepsInv(owner, b.world, e);
    ViewStays(owner, b.world, Auth.Next(b.world, e), v);
    TurnKeepsInv(owner, b, tab, Auth.Next(b.world, e), v.(handed := v.handed + HandedBy(e)));
  }

  lemma AskingKeepsInv(owner: string -> string, w: Auth.World, v: View, wait: Wait)
    requires ViewInv(owner, w, v) && WaitInv(owner, w, wait)
    ensures ViewInv(owner, w, v.(panel := Shown.Next(v.panel, Shown.BeginValid), waits := v.waits + {wait}))
  {
  }

  lemma ValidKeepsInv(owner: string -> string, b: Browser, tab: nat, force: bool, now: int, id: nat)
    requires Inv(owner, b) && Enabled(b, Valid(tab, force, now, id))
    ensures Inv(owner, Next(b, Valid(tab, force, now, id)))
  {
    var v := b.views[tab];
    assert ViewInv(owner, b.world, v);
    if v.panel.session.Some? {
      var s := v.panel.session.value;
      var turn := Auth.Refresh(tab, s, force, now, id);
      var w := Auth.Next(b.world, turn);
      var wait := Wait(Shown.Frame(s, v.panel.seqNo), Auth.Begun(b.world, tab, s, force, now, id));
      NextExtends(b.world, turn);
      WorldKeepsInv(owner, b.world, turn);
      Auth.BegunIsForUser(owner, b.world, tab, s, force, now, id);
      ViewStays(owner, b.world, w, v);
      AskingKeepsInv(owner, w, v, wait);
      TurnKeepsInv(owner, b, tab, w, v.(panel := Shown.Next(v.panel, Shown.BeginValid), waits := v.waits + {wait}));
    }
  }

  /** A panel turn that goes with a sign-out or a refusal, whether the storage is cleared or not. */
  lemma ClearKeepsInv(owner: string -> string, b: Browser, tab: nat, e: Shown.Event, clears: bool)
    requires Inv(owner, b) && tab in b.views && Shown.Enabled(b.views[tab].panel, e) && (e.Disconnect? || e.ValidFailed?)
    ensures var v, world := b.views[tab], if clears then Auth.Next(b.world, Auth.Clear) else b.world;
      Inv(owner, SetView(Written(b, tab, world), tab, v.(panel := Shown.Next(v.panel, e))))
  {
    var v, world := b.views[tab], if clears then Auth.Next(b.world, Auth.Clear) else b.world;
    assert ViewInv(owner, b.world, v);
    if clears {
      NextExtends(b.world, Auth.Clear);
      WorldKeepsInv(owner, b.world, Auth.Clear);
    }
    PanelStaysOwned(owner, v.panel, e);
    ViewStays(owner, b.world, world, v.(panel := Shown.Next(v.panel, e)));
    TurnKeepsInv(owner, b, tab, world, v.(panel := Shown.Next(v.panel, e)));
  }

  lemma OpenKeepsInv(owner: string -> string, b: Browser, tab: nat)
    requires Inv(owner, b) && Enabled(b, Open(tab))
    ensures Inv(owner, Next(b, Open(tab)))
  {
    NextExtends(b.world, Auth.OpenTab(tab));
    WorldKeepsInv(owner, b.world, Auth.OpenTab(tab));
    var c := Next(b, Open(tab));
    forall u | u in c.views ensures ViewInv(owner, c.world, c.views[u]) {
      if u != tab {
        ViewStays(owner, b.world, c.world, b.views[u]);
      }
    }
  }

  lemma DeliverKeepsInv(owner: string -> string, b: Browser, tab: nat, api: bool)
    requires Inv(owner, b) && Enabled(b, Deliver(tab, api))
    ensures Inv(owner, Next(b, Deliver(tab, api)))
  {
    var v := b.views[tab];
    assert ViewInv(owner, b.world, v);
    var e := Shown.StorageChanged(b.world.stored, api);
    PanelStaysOwned(owner, v.panel, e);
    SameWorld(b, tab);
    TurnKeepsInv(owner, b, tab, b.world, v.(panel := Shown.Next(v.panel, e), undelivered := v.undelivered - 1));
  }

  lemma NextKeepsInv(owner: string -> string, b: Browser, e: Event)
    requires Inv(owner, b) && Enabled(b, e) && Honest(owner, b, e)
    ensures Inv(owner, Next(b, e))
  {
    match e
    case Open(tab) => OpenKeepsInv(owner, b, tab);
    case Session(tab, turn) => SessionKeepsInv(owner, b, tab, turn);
    case Panel(tab, turn) => PanelKeepsInv(owner, b, tab, turn);
    case Valid(tab, force, now, id) => ValidKeepsInv(owner, b, tab, force, now, id);
    case Deliver(tab, api) => DeliverKeepsInv(owner, b, tab, api);
    case SignOut(tab) =>
      SameWorld(b, tab);
      ClearKeepsInv(owner, b, tab, Shown.Disconnect, b.views[tab].panel.session.Some?);
    case Refused(tab, frame, id, now) =>
      SameWorld(b, tab);
      ClearKeepsInv(owner, b, tab, Shown.ValidFailed(frame, b.world.requests[id].phase.outcome.error, now),
                    Shown.Current(b.views[tab].panel, frame));
  }

  // ----- agreement -----

  /** Storage events are on their way to the tab, or it has not shown everything it was handed. */
  predicate Busy(v: View) {
    v.undelivered > 0 || v.handed != multiset{}
  }

  /** The start-up of the tab still decides what it shows. */
  predicate Undecided(p: Shown.Panel, r: Auth.Restore) {
    p.seqNo == 0 && (r.NotRestoring? || r.Awaiting?)
  }

  /** Whom the tab shows, or will show as soon as its start-up goes on. */
  function Promised(p: Shown.Panel, r: Auth.Restore): Option<string> {
    if p.seqNo == 0 && r.Redirected? then Some(r.session.user)
    else if p.seqNo == 0 && r.Returned? then UserOf(r.result)
    else UserOf(p.session)
  }

  predicate Fits(v: View, r: Auth.Restore, stored: Option<Auth.Session>) {
    Busy(v) || Undecided(v.panel, r) || Promised(v.panel, r) == UserOf(stored)
  }

  predicate Agrees(b: Browser, tab: nat)
    requires Whole(b) && tab in b.views
  {
    Fits(b.views[tab], b.world.tabs[tab].restore, b.world.stored)
  }

  predicate AllAgree(b: Browser)
    requires Whole(b)
  {
    forall tab | tab in b.views :: Agrees(b, tab)
  }

  /** The turns that can leave a tab showing somebody else than the stored user, and when they do not:
      a handed-over session is shown while its user is stored; a sign-out finds a session to sign out; a
      restore that returns nothing leaves nothing stored, and one that clears the storage or brings a
      redirect's session decides what the panel shows; the reply to a refresh of the empty token is for
      the stored user. A tab that is busy is corrected later. */
  predicate InTime(b: Browser, e: Event)
    requires Enabled(b, e)
  {
    match e
    case Session(tab, turn) => Busy(b.views[tab]) || TurnInTime(b, tab, turn)
    case Panel(tab, turn) => TakenInTime(b.views[tab], b.world.stored, turn)
    case SignOut(tab) => Busy(b.views[tab]) || b.views[tab].panel.session.Some? || b.world.stored.None?
    case _ => true
  }

  predicate TakenInTime(v: View, stored: Option<Auth.Session>, e: Shown.Event) {
    match e
    case Authenticated(s, _, _) => Busy(v.(handed := v.handed - TakenBy(e))) || UserOf(stored) == Some(s.user)
    case Elevated(s) => Busy(v.(handed := v.handed - TakenBy(e))) || UserOf(stored) == Some(s.user)
    case _ => true
  }

  predicate TurnInTime(b: Browser, tab: nat, e: Auth.Event)
    requires Enabled(b, Session(tab, e))
  {
    var w, p := Auth.Next(b.world, e), b.views[tab].panel;
    if Auth.Blank(b.world, e) then
      Undecided(p, b.world.tabs[tab].restore) || UserOf(b.world.stored) == Some(e.outcome.session.user)
    else if Auth.Restores(e) then
      if p.seqNo == 0 then w.tabs[tab].restore == Auth.Returned(None) ==> w.stored.None? else w.stored == b.world.stored
    else if e.RedirectRestore? then p.seqNo == 0 || UserOf(b.world.stored) == Some(e.session.user)
    else true
  }

  /** A turn of one tab leaves the others in agreement, or with an event on its way. */
  lemma OthersAgree(b: Browser, tab: nat, world: Auth.World, view: View, u: nat)
    requires Whole(b) && tab in b.views && u in b.views && u != tab && Agrees(b, u)
    requires world.tabs.Keys == b.world.tabs.Keys && world.tabs[u].restore == b.world.tabs[u].restore
    ensures Agrees(SetView(Written(b, tab, world), tab, view), u)
  {
  }

  /** So only the tab itself has to be looked at. */
  lemma TurnAgreesIff(b: Browser, tab: nat, world: Auth.World, view: View)
    requires Whole(b) && tab in b.views && AllAgree(b) && world.tabs.Keys == b.world.tabs.Keys
    requires forall u | u in b.views && u != tab :: world.tabs[u].restore == b.world.tabs[u].restore
    ensures var c := SetView(Written(b, tab, world), tab, view);
      Whole(c) && (AllAgree(c) <==> Fits(view, world.tabs[tab].restore, world.stored))
  {
    var c := SetView(Written(b, tab, world), tab, view);
    assert Agrees(c, tab) <==> Fits(view, world.tabs[tab].restore, world.stored);
    if Agrees(c, tab) {
      forall u | u in c.views ensures Agrees(c, u) {
        if u != tab {
          OthersAgree(b, tab, world, view, u);
        }
      }
    }
  }

  // ----- the panel's turns -----

  /** What a panel turn gets from the session code. */
  predicate Sound(r: Auth.Restore, e: Shown.Event) {
    && !e.StorageChanged? && !e.Disconnect?
    && (e.StartupDone? ==> r == Auth.Returned(e.found)) && (e.StartupFailed? ==> r == Auth.Returned(None))
    && (e.ValidDone? ==> e.next.user == e.frame.current.user) && (e.ValidFailed? ==> !Auth.IsDefinitive(e.error))
  }

  predicate Takes(e: Shown.Event) {
    e.Authenticated? || e.Elevated?
  }

  /** Only taking over a session changes whom the tab shows or will show. */
  lemma PromiseStays(p: Shown.Panel, r: Auth.Restore, e: Shown.Event)
    requires Shown.Enabled(p, e) && Sound(r, e) && !Takes(e) && (p.seqNo == 0 ==> p.session.None?)
    ensures var q := Shown.Next(p, e);
      Promised(q, r) == Promised(p, r) && Undecided(q, r) == Undecided(p, r)
  {
  }

  lemma TakenIsPromised(p: Shown.Panel, r: Auth.Restore, e: Shown.Event)
    requires Shown.Enabled(p, e) && Takes(e)
    ensures var q := Shown.Next(p, e);
      !Undecided(q, r) && Promised(q, r) == Some(if e.Elevated? then e.raised.user else e.session.user)
  {
  }

  lemma PanelFitsIff(v: View, r: Auth.Restore, stored: Option<Auth.Session>, e: Shown.Event)
    requires Fits(v, r, stored) && (v.panel.seqNo == 0 ==> v.panel.session.None?) && Shown.Enabled(v.panel, e) && Sound(r, e)
    ensures Fits(v.(panel := Shown.Next(v.panel, e), handed := v.handed - TakenBy(e)), r, stored) <==> TakenInTime(v, stored, e)
  {
    if Takes(e) {
      TakenIsPromised(v.panel, r, e);
    } else {
      assert v.handed - TakenBy(e) == v.handed;
      PromiseStays(v.panel, r, e);
    }
  }

  lemma PanelAgreesIff(owner: string -> string, b: Browser, tab: nat, e: Shown.Event)
    requires Inv(owner, b) && AllAgree(b) && Enabled(b, Panel(tab, e))
    ensures var c := Next(b, Panel(tab, e)); Whole(c) && (AllAgree(c) <==> InTime(b, Panel(tab, e)))
  {
    var v := b.views[tab];
    assert ViewInv(owner, b.world, v) && Agrees(b, tab);
    SameWorld(b, tab);
    TurnAgreesIff(b, tab, b.world, v.(panel := Shown.Next(v.panel, e), handed := v.handed - TakenBy(e)));
    if e.ValidDone? {
      WaitedIsForUser(owner, b, tab, e.frame, e.next);
    }
    PanelFitsIff(v, b.world.tabs[tab].restore, b.world.stored, e);
  }

  // ----- the session code's turns -----

  lemma OnlyOwnRestore(b: Browser, tab: nat, e: Auth.Event, u: nat)
    requires Enabled(b, Session(tab, e)) && u in b.views && u != tab
    ensures u in Auth.Next(b.world, e).tabs && Auth.Next(b.world, e).tabs[u].restore == b.world.tabs[u].restore
  {
  }

  /** A session that a restore returns is the stored user's. */
  lemma RestoredIsStored(owner: string -> string, w: Auth.World, e: Auth.Event)
    requires Auth.Inv(owner, w) && Auth.Enabled(w, e) && Auth.Restores(e)
    ensures var v := Auth.Next(w, e); var r := v.tabs[e.tab].restore;
      && (r.Returned? && r.result.Some? ==> UserOf(r.result) == UserOf(v.stored))
      && (v.stored == w.stored || v.stored.None?) && (r.Returned? || (r.Awaiting? && v.stored == w.stored))
  {
    var v := Auth.Next(w, e);
    Auth.RestoreHoldsToken(w, e);
    Auth.NextKeepsAttribution(owner, w, e);
    assert Auth.RestoreAttributed(owner, v, v.tabs[e.tab].restore);
    if e.ResumeRestore? {
      Auth.RestoreClearsIff(w, e.tab, e.now);
    }
  }

  lemma RestoreFitsIff(owner: string -> string, b: Browser, tab: nat, e: Auth.Event)
    requires Inv(owner, b) && tab in b.views && Agrees(b, tab) && Enabled(b, Session(tab, e)) && Auth.Restores(e)
    ensures var w := Auth.Next(b.world, e);
      tab in w.tabs && (Fits(b.views[tab], w.tabs[tab].restore, w.stored) <==> Busy(b.views[tab]) || TurnInTime(b, tab, e))
  {
    assert ViewInv(owner, b.world, b.views[tab]);
    RestoredIsStored(owner, b.world, e);
  }

  /** Turns that neither restore nor hand over: only the reply to a refresh of the empty token and the
      arrival of a redirect can change whose session is stored. */
  lemma OtherFitsIff(owner: string -> string, b: Browser, tab: nat, e: Auth.Event)
    requires Inv(owner, b) && tab in b.views && Agrees(b, tab) && Enabled(b, Session(tab, e)) && Auth.Honest(owner, b.world, e)
    requires !Auth.Restores(e) && !e.SignIn? && !e.StepUp? && !e.RedirectRestore?
    ensures var w := Auth.Next(b.world, e);
      tab in w.tabs && (Fits(b.views[tab], w.tabs[tab].restore, w.stored) <==> Busy(b.views[tab]) || TurnInTime(b, tab, e))
  {
    var w := Auth.Next(b.world, e);
    var r, s := b.world.tabs[tab].restore, w.tabs[tab].restore;
    assert Promised(b.views[tab].panel, r) == Promised(b.views[tab].panel, s)
        && Undecided(b.views[tab].panel, r) == Undecided(b.views[tab].panel, s);
    Auth.StepKeepsUserIff(owner, b.world, e);
    if !Auth.Blank(b.world, e) {
      assert UserOf(w.stored) == UserOf(b.world.stored);
    } else {
      assert UserOf(w.stored) == Some(e.outcome.session.user);
    }
  }

  lemma RedirectFitsIff(owner: string -> string, b: Browser, tab: nat, e: Auth.Event)
    requires Inv(owner, b) && tab in b.views && Agrees(b, tab) && Enabled(b, Session(tab, e)) && e.RedirectRestore?
    ensures var w := Auth.Next(b.world, e);
      tab in w.tabs && (Fits(b.views[tab], w.tabs[tab].restore, w.stored) <==> Busy(b.views[tab]) || TurnInTime(b, tab, e))
  {
    assert ViewInv(owner, b.world, b.views[tab]);
  }

  lemma HandedFits(v: View, e: Auth.Event, r: Auth.Restore, stored: Option<Auth.Session>)
    requires e.SignIn? || e.StepUp?
    ensures Fits(v.(handed := v.handed + HandedBy(e)), r, stored)
  {
    assert HandedBy(e) != multiset{};
  }

  lemma SessionFitsIff(owner: string -> string, b: Browser, tab: nat, e: Auth.Event)
    requires Inv(owner, b) && tab in b.views && Agrees(b, tab) && Enabled(b, Session(tab, e)) && Auth.Honest(owner, b.world, e)
    ensures var w, v := Auth.Next(b.world, e), b.views[tab];
      tab in w.tabs
      && (Fits(v.(handed := v.handed + HandedBy(e)), w.tabs[tab].restore, w.stored) <==> InTime(b, Session(tab, e)))
  {
    var w, v := Auth.Next(b.world, e), b.views[tab];
    if e.SignIn? || e.StepUp? {
      HandedFits(v, e, w.tabs[tab].restore, w.stored);
    } else {
      assert v.(handed := v.handed + HandedBy(e)) == v;
      if Auth.Restores(e) {
        RestoreFitsIff(owner, b, tab, e);
      } else if e.RedirectRestore? {
        RedirectFitsIff(owner, b, tab, e);
      } else {
        OtherFitsIff(owner, b, tab, e);
      }
    }
  }

  lemma SessionAgreesIff(owner: string -> string, b: Browser, tab: nat, e: Auth.Event)
    requires Inv(owner, b) && AllAgree(b) && Enabled(b, Session(tab, e)) && Auth.Honest(owner, b.world, e)
    ensures var c := Next(b, Session(tab, e)); Whole(c) && (AllAgree(c) <==> InTime(b, Session(tab, e)))
  {
    var v, w := b.views[tab], Auth.Next(b.world, e);
    NextExtends(b.world, e);
    forall u | u in b.views && u != tab ensures w.tabs[u].restore == b.world.tabs[u].restore {
      OnlyOwnRestore(b, tab, e, u);
    }
    TurnAgreesIff(b, tab, w, v.(handed := v.handed + HandedBy(e)));
    assert Agrees(b, tab);
    SessionFitsIff(owner, b, tab, e);
  }

  // ----- turns of both -----

  lemma SignOutAgreesIff(owner: string -> string, b: Browser, tab: nat)
    requires Inv(owner, b) && AllAgree(b) && Enabled(b, SignOut(tab))
    ensures var c := Next(b, SignOut(tab)); Whole(c) && (AllAgree(c) <==> InTime(b, SignOut(tab)))
  {
    var v := b.views[tab];
    var out := v.(panel := Shown.Next(v.panel, Shown.Disconnect));
    SameWorld(b, tab);
    TurnAgreesIff(b, tab, if v.panel.session.Some? then Auth.Next(b.world, Auth.Clear) else b.world, out);
  }

  lemma RefusedPanel(p: Shown.Panel, frame: Shown.Frame, error: Auth.AuthError, now: int)
    requires frame in p.frames && Auth.IsDefinitive(error)
    ensures var q := Shown.Next(p, Shown.ValidFailed(frame, error, now));
      if Shown.Current(p, frame) then q.session.None? && q.seqNo > 0 else q == p
  {
  }

  lemma RefusedAgrees(owner: string -> string, b: Browser, e: Event)
    requires Inv(owner, b) && AllAgree(b) && Enabled(b, e) && e.Refused?
    ensures Whole(Next(b, e)) && AllAgree(Next(b, e))
  {
    var v := b.views[e.tab];
    var error := b.world.requests[e.id].phase.outcome.error;
    var failed := v.(panel := Shown.Next(v.panel, Shown.ValidFailed(e.frame, error, e.now)));
    RefusedPanel(v.panel, e.frame, error, e.now);
    if Shown.Current(v.panel, e.frame) {
      TurnAgreesIff(b, e.tab, Auth.Next(b.world, Auth.Clear), failed);
    } else {
      assert failed == v && Next(b, e) == b;
    }
  }

  lemma DeliverAgrees(owner: string -> string, b: Browser, tab: nat, api: bool)
    requires Inv(owner, b) && AllAgree(b) && Enabled(b, Deliver(tab, api))
    ensures Whole(Next(b, Deliver(tab, api))) && AllAgree(Next(b, Deliver(tab, api)))
  {
    SameWorld(b, tab);
    TurnAgreesIff(b, tab, b.world, Next(b, Deliver(tab, api)).views[tab]);
  }

  lemma AskingFits(v: View, wait: Wait, r: Auth.Restore, stored: Option<Auth.Session>)
    ensures Fits(v.(panel := Shown.Next(v.panel, Shown.BeginValid), waits := v.waits + {wait}), r, stored) <==> Fits(v, r, stored)
  {
  }

  lemma RefreshKeepsRestores(w: Auth.World, e: Auth.Event, u: nat)
    requires Auth.Enabled(w, e) && e.Refresh? && u in w.tabs
    ensures var v := Auth.Next(w, e); v.stored == w.stored && u in v.tabs && v.tabs[u].restore == w.tabs[u].restore
  {
  }

  lemma ValidAgrees(b: Browser, tab: nat, force: bool, now: int, id: nat)
    requires Enabled(b, Valid(tab, force, now, id)) && AllAgree(b)
    ensures var c := Next(b, Valid(tab, force, now, id)); Whole(c) && AllAgree(c)
  {
    var v := b.views[tab];
    if v.panel.session.Some? {
      var s := v.panel.session.value;
      var turn := Auth.Refresh(tab, s, force, now, id);
      var w := Auth.Next(b.world, turn);
      var wait := Wait(Shown.Frame(s, v.panel.seqNo), Auth.Begun(b.world, tab, s, force, now, id));
      NextExtends(b.world, turn);
      forall u | u in b.views ensures w.tabs[u].restore == b.world.tabs[u].restore && w.stored == b.world.stored {
        RefreshKeepsRestores(b.world, turn, u);
      }
      assert Agrees(b, tab);
      AskingFits(v, wait, w.tabs[tab].restore, w.stored);
      TurnAgreesIff(b, tab, w, v.(panel := Shown.Next(v.panel, Shown.BeginValid), waits := v.waits + {wait}));
    }
  }

  lemma OpenAgrees(owner: string -> string, b: Browser, tab: nat)
    requires Inv(owner, b) && AllAgree(b) && Enabled(b, Open(tab))
    ensures Whole(Next(b, Open(tab))) && AllAgree(Next(b, Open(tab)))
  {
    var c := Next(b, Open(tab));
    forall u | u in c.views ensures Agrees(c, u) {
      if u != tab {
        assert Agrees(b, u);
      }
    }
  }

  // ----- main results -----

  /** A turn of any tab keeps all tabs in agreement if and only if it is in time. */
  lemma StepAgreesIff(owner: string -> string, b: Browser, e: Event)
    requires Inv(owner, b) && AllAgree(b) && Enabled(b, e) && Honest(owner, b, e)
    ensures Whole(Next(b, e)) && (AllAgree(Next(b, e)) <==> InTime(b, e))
  {
    match e
    case Open(tab) => OpenAgrees(owner, b, tab);
    case Session(tab, turn) => SessionAgreesIff(owner, b, tab, turn);
    case Panel(tab, turn) => PanelAgreesIff(owner, b, tab, turn);
    case Valid(tab, force, now, id) => ValidAgrees(b, tab, force, now, id);
    case SignOut(tab) => SignOutAgreesIff(owner, b, tab);
    case Refused(_, _, _, _) => RefusedAgrees(owner, b, e);
    case Deliver(tab, api) => DeliverAgrees(owner, b, tab, api);
  }

  /** All tabs agree with the storage at every moment of the run. */
  predicate AgreeThroughout(b: Browser, events: seq<Event>)
    requires IsRun(b, events)
    decreases |events|
  {
    Whole(b) && AllAgree(b) && (events != [] ==> AgreeThroughout(Next(b, events[0]), events[1..]))
  }

  predicate InTimeThroughout(b: Browser, events: seq<Event>)
    requires IsRun(b, events)
    decreases |events|
  {
    events == [] || (InTime(b, events[0]) && InTimeThroughout(Next(b, events[0]), events[1..]))
  }

  /** All tabs agree with the storage throughout a run if and only if all its turns are in time. */
  lemma {:induction false} TabsAgreeIff(owner: string -> string, b: Browser, events: seq<Event>)
    requires Inv(owner, b) && AllAgree(b) && IsRun(b, events) && HonestRun(owner, b, events)
    ensures AgreeThroughout(b, events) <==> InTimeThroughout(b, events)
    decreases |events|
  {
    if events != [] {
      StepAgreesIff(owner, b, events[0]);
      NextKeepsInv(owner, b, events[0]);
      if InTime(b, events[0]) {
        TabsAgreeIff(owner, Next(b, events[0]), events[1..]);
      }
    }
  }

  /** The tab has been told everything, has shown everything it was handed, and its start-up is over. */
  predicate Settled(b: Browser, tab: nat)
    requires Whole(b) && tab in b.views
  {
    !Busy(b.views[tab]) && (b.views[tab].panel.seqNo == 0 ==> b.world.tabs[tab].restore == Auth.Returned(None))
  }

  lemma {:induction false} RunsKeepAgreement(owner: string -> string, b: Browser, events: seq<Event>)
    requires Inv(owner, b) && AllAgree(b) && IsRun(b, events) && HonestRun(owner, b, events) && InTimeThroughout(b, events)
    ensures Inv(owner, After(b, events)) && AllAgree(After(b, events))
    decreases |events|
  {
    if events != [] {
      StepAgreesIff(owner, b, events[0]);
      NextKeepsInv(owner, b, events[0]);
      RunsKeepAgreement(owner, Next(b, events[0]), events[1..]);
    }
  }

  /** In every run of any number of tabs whose turns are in time, a settled tab shows exactly the stored
      user, or nobody if none is stored. So any two such tabs show the same user. */
  lemma SettledTabsShowStoredUser(owner: string -> string, events: seq<Event>, tab: nat, other: nat)
    requires IsRun(START, events) && HonestRun(owner, START, events) && InTimeThroughout(START, events)
    requires var b := After(START, events);
      Whole(b) && tab in b.views && other in b.views && Settled(b, tab) && Settled(b, other)
    ensures var b := After(START, events);
      && UserOf(b.views[tab].panel.session) == UserOf(b.world.stored)
      && UserOf(b.views[tab].panel.session) == UserOf(b.views[other].panel.session)
  {
    RunsKeepAgreement(owner, START, events);
    var b := After(START, events);
    assert Agrees(b, tab) && Agrees(b, other) && ViewInv(owner, b.world, b.views[tab]) && ViewInv(owner, b.world, b.views[other]);
  }

  // ----- turns that come too late -----

  lemma RunFrom(b: Browser, e: Event, more: seq<Event>)
    requires Enabled(b, e) && IsRun(Next(b, e), more)
    ensures IsRun(b, [e] + more) && After(b, [e] + more) == After(Next(b, e), more)
  {
    assert ([e] + more)[1..] == more;
  }

  lemma RunOfThree(b: Browser, x: Event, y: Event, z: Event, more: seq<Event>)
    requires Enabled(b, x) && Enabled(Next(b, x), y) && Enabled(Next(Next(b, x), y), z)
    requires IsRun(Next(Next(Next(b, x), y), z), more)
    ensures IsRun(b, [x, y, z] + more) && After(b, [x, y, z] + more) == After(Next(Next(Next(b, x), y), z), more)
  {
    RunFrom(Next(Next(b, x), y), z, more);
    RunFrom(Next(b, x), y, [z] + more);
    RunFrom(b, x, [y] + ([z] + more));
    assert [x, y, z] + more == [x] + ([y] + ([z] + more));
  }

  const FRESH := View(Shown.START, 0, multiset{}, {})

  /** Two tabs without requests. */
  predicate TwoTabs(b: Browser, stored: Option<Auth.Session>, first: View, second: View) {
    && Whole(b) && b.views == map[0 := first, 1 := second] && b.world.requests == map[] && b.world.stored == stored
    && b.world.tabs[0].inFlight == map[] && b.world.tabs[1].inFlight == map[]
  }

  lemma TwoTabsOpened()
    ensures Enabled(START, Open(0)) && Enabled(Next(START, Open(0)), Open(1))
    ensures TwoTabs(Next(Next(START, Open(0)), Open(1)), None, FRESH, FRESH)
  {
    var one := Next(START, Open(0));
    assert one.views == map[0 := FRESH] && one.world.tabs.Keys == {0};
  }

  /** The first tab signs in and the second is told of it later. */
  lemma FirstSignsIn(b: Browser, s: Auth.Session)
    requires TwoTabs(b, None, FRESH, FRESH)
    ensures Enabled(b, Session(0, Auth.SignIn(s)))
    ensures TwoTabs(Next(b, Session(0, Auth.SignIn(s))), Some(s), FRESH.(handed := multiset{Handover(s, false)}), FRESH.(undelivered := 1))
  {
    var c := Next(b, Session(0, Auth.SignIn(s)));
    assert multiset{} + multiset{Handover(s, false)} == multiset{Handover(s, false)};
    assert c.views == map[0 := FRESH.(handed := multiset{Handover(s, false)}), 1 := FRESH.(undelivered := 1)];
  }

  /** The first tab signs in and the second is told. */
  function SigningIn(s: Auth.Session, more: seq<Event>): seq<Event> {
    [Open(0), Open(1), Session(0, Auth.SignIn(s))] + ([Deliver(1, false)] + more)
  }

  /** The first tab has not shown it yet. */
  lemma TwoTabsSignedIn(s: Auth.Session, more: seq<Event>) returns (b: Browser)
    ensures TwoTabs(b, Some(s), FRESH.(handed := multiset{Handover(s, false)}), FRESH.(panel := Shown.Switch(Shown.START, s, false)))
    ensures IsRun(b, more) ==> IsRun(START, SigningIn(s, more)) && After(START, SigningIn(s, more)) == After(b, more)
  {
    TwoTabsOpened();
    var two := Next(Next(START, Open(0)), Open(1));
    FirstSignsIn(two, s);
    var told := Next(two, Session(0, Auth.SignIn(s)));
    SecondIsTold(told, s);
    b := Next(told, Deliver(1, false));
    if IsRun(b, more) {
      RunFrom(told, Deliver(1, false), more);
      RunOfThree(START, Open(0), Open(1), Session(0, Auth.SignIn(s)), [Deliver(1, false)] + more);
    }
  }

  lemma SecondIsTold(b: Browser, s: Auth.Session)
    requires TwoTabs(b, Some(s), FRESH.(handed := multiset{Handover(s, false)}), FRESH.(undelivered := 1))
    ensures Enabled(b, Deliver(1, false))
    ensures TwoTabs(Next(b, Deliver(1, false)), Some(s), FRESH.(handed := multiset{Handover(s, false)}),
                    FRESH.(panel := Shown.Switch(Shown.START, s, false)))
  {
  }

  lemma SecondSignsOut(b: Browser, s: Auth.Session)
    requires TwoTabs(b, Some(s), FRESH.(handed := multiset{Handover(s, false)}), FRESH.(panel := Shown.Switch(Shown.START, s, false)))
    ensures Enabled(b, SignOut(1))
    ensures var c := Next(b, SignOut(1));
      && Whole(c) && c.world.stored == None && 0 in c.views && c.views[0] == FRESH.(handed := multiset{Handover(s, false)}, undelivered := 1)
  {
  }

  /** The tab is settled and shows a user although nobody is stored. */
  predicate Outdated(b: Browser, tab: nat, user: string) {
    && Whole(b) && tab in b.views && Settled(b, tab)
    && UserOf(b.views[tab].panel.session) == Some(user) && b.world.stored.None?
  }

  /** Told of the sign-out, the first tab shows the session it was handed before. */
  lemma FirstShowsLate(b: Browser, s: Auth.Session)
    requires Whole(b) && b.world.stored == None && 0 in b.views
    requires b.views[0] == FRESH.(handed := multiset{Handover(s, false)}, undelivered := 1)
    ensures Enabled(b, Deliver(0, false))
    ensures var told, show := Next(b, Deliver(0, false)), Panel(0, Shown.Authenticated(s, None, false));
      Enabled(told, show) && Outdated(Next(told, show), 0, s.user)
  {
    var told := Next(b, Deliver(0, false));
    assert told.views[0] == View(Shown.SignedOut(Shown.START), 0, multiset{Handover(s, false)}, {});
    assert multiset{Handover(s, false)} - multiset{Handover(s, false)} == multiset{};
  }

  /** A sign-in whose panel turn comes only after another tab's sign-out was delivered: the tab is settled
      and shows the user although nobody is stored. */
  lemma LateSignInStaysOnShow(s: Auth.Session)
    ensures var late := [SignOut(1), Deliver(0, false), Panel(0, Shown.Authenticated(s, None, false))];
      IsRun(START, SigningIn(s, late + [])) && Outdated(After(START, SigningIn(s, late + [])), 0, s.user)
  {
    var late := [SignOut(1), Deliver(0, false), Panel(0, Shown.Authenticated(s, None, false))];
    var b := TwoTabsSignedIn(s, late + []);
    SecondSignsOut(b, s);
    FirstShowsLate(Next(b, SignOut(1)), s);
    RunOfThree(b, SignOut(1), Deliver(0, false), Panel(0, Shown.Authenticated(s, None, false)), []);
  }

  // ----- refusals -----

  /** The server has refused the refresh token for good, in a request other than `but`. */
  predicate RefusedIn(w: Auth.World, token: string, but: set<nat>) {
    exists id | id in w.requests :: id !in but && Refuses(w.requests[id], token)
  }

  predicate Refuses(r: Auth.Request, token: string) {
    r.token == token && !r.phase.Waiting? && r.phase.outcome.Failed? && Auth.IsDefinitive(r.phase.outcome.error)
  }

  /** A caller still current whose refresh is refused clears the storage without comparing tokens, unlike a
      restore. It clears a session that nobody refused if and only if the stored token is not the one it
      asked for and no other request for it was refused. */
  lemma RefusalClearsUnrefusedIff(b: Browser, e: Event)
    requires Enabled(b, e) && e.Refused? && Shown.Current(b.views[e.tab].panel, e.frame) && b.world.stored.Some?
    ensures var token := b.world.stored.value.refresh;
      && Next(b, e).world.stored.None?
      && (!RefusedIn(b.world, token, {}) <==> token != b.world.requests[e.id].token && !RefusedIn(b.world, token, {e.id}))
  {
    var token := b.world.stored.value.refresh;
    assert Refuses(b.world.requests[e.id], b.world.requests[e.id].token);
    if id :| id in b.world.requests && Refuses(b.world.requests[id], token) {
      assert id == e.id || RefusedIn(b.world, token, {e.id});
    }
  }

  /** Both tabs refresh the session that the second one shows; how far their requests have come. */
  predicate BothRefresh(b: Browser, s: Auth.Session, stored: Auth.Session, first: Auth.Phase, second: Auth.Phase) {
    && Whole(b) && b.views.Keys == {0, 1} && b.world.stored == Some(stored)
    && b.world.requests == map[0 := Auth.Request(0, s.refresh, first), 1 := Auth.Request(1, s.refresh, second)]
    && Asking(b.views[1], s)
  }

  predicate Asking(v: View, s: Auth.Session) {
    && Wait(Shown.Frame(s, 1), Auth.WaitFor(1)) in v.waits && Shown.Frame(s, 1) in v.panel.frames
    && Shown.Current(v.panel, Shown.Frame(s, 1))
  }

  lemma FirstShows(b: Browser, s: Auth.Session)
    requires TwoTabs(b, Some(s), FRESH.(handed := multiset{Handover(s, false)}), FRESH.(panel := Shown.Switch(Shown.START, s, false)))
    ensures var show := Panel(0, Shown.Authenticated(s, None, false));
      && Enabled(b, show)
      && TwoTabs(Next(b, show), Some(s), FRESH.(panel := Shown.Next(Shown.START, show.handler)), FRESH.(panel := Shown.Switch(Shown.START, s, false)))
  {
    assert multiset{Handover(s, false)} - multiset{Handover(s, false)} == multiset{};
  }

  /** The tab has sent a request for the session it shows, and nothing else has changed. */
  predicate Asked(b: Browser, c: Browser, tab: nat, s: Auth.Session, id: nat)
    requires tab in b.views
  {
    var f := Shown.Frame(s, b.views[tab].panel.seqNo);
    && Whole(c) && c.views.Keys == b.views.Keys && c.world.stored == b.world.stored
    && c.world.requests == b.world.requests[id := Auth.Request(tab, s.refresh, Auth.Waiting)]
    && (forall u | u in b.views && u != tab :: c.views[u] == b.views[u])
    && (forall u | u in b.world.tabs && u != tab :: u in c.world.tabs && c.world.tabs[u] == b.world.tabs[u])
    && Wait(f, Auth.WaitFor(id)) in c.views[tab].waits && f in c.views[tab].panel.frames && Shown.Current(c.views[tab].panel, f)
  }

  /** A tab that shows the stored session and has no request for it sends one. */
  lemma TabAsks(b: Browser, tab: nat, s: Auth.Session, id: nat)
    requires Whole(b) && tab in b.views && b.views[tab].panel.session == Some(s) && b.world.stored == Some(s)
    requires s.refresh !in b.world.tabs[tab].inFlight && id !in b.world.requests
    ensures Enabled(b, Valid(tab, true, 0, id)) && Asked(b, Next(b, Valid(tab, true, 0, id)), tab, s, id)
  {
    assert Auth.Freshest(Some(s), s) == s;
  }

  lemma BothAsk(b: Browser, s: Auth.Session, first: View, second: View)
    requires TwoTabs(b, Some(s), first, second) && first.panel.session == Some(s) && second.panel.session == Some(s)
    requires second.panel.seqNo == 1
    ensures Enabled(b, Valid(0, true, 0, 0)) && Enabled(Next(b, Valid(0, true, 0, 0)), Valid(1, true, 0, 1))
    ensures BothRefresh(Next(Next(b, Valid(0, true, 0, 0)), Valid(1, true, 0, 1)), s, s, Auth.Waiting, Auth.Waiting)
  {
    TabAsks(b, 0, s, 0);
    var c := Next(b, Valid(0, true, 0, 0));
    assert c.views[1] == second && c.world.tabs[1].inFlight == map[];
    TabAsks(c, 1, s, 1);
  }

  function BothAsking(s: Auth.Session): seq<Event> {
    [Panel(0, Shown.Authenticated(s, None, false)), Valid(0, true, 0, 0), Valid(1, true, 0, 1)]
  }

  lemma BothTabsRefresh(b: Browser, s: Auth.Session, more: seq<Event>) returns (c: Browser)
    requires TwoTabs(b, Some(s), FRESH.(handed := multiset{Handover(s, false)}), FRESH.(panel := Shown.Switch(Shown.START, s, false)))
    ensures BothRefresh(c, s, s, Auth.Waiting, Auth.Waiting)
    ensures IsRun(c, more) ==> IsRun(b, BothAsking(s) + more) && After(b, BothAsking(s) + more) == After(c, more)
  {
    var show := Panel(0, Shown.Authenticated(s, None, false));
    FirstShows(b, s);
    BothAsk(Next(b, show), s, FRESH.(panel := Shown.Next(Shown.START, show.handler)), FRESH.(panel := Shown.Switch(Shown.START, s, false)));
    c := Next(Next(Next(b, show), Valid(0, true, 0, 0)), Valid(1, true, 0, 1));
    if IsRun(c, more) {
      RunOfThree(b, show, Valid(0, true, 0, 0), Valid(1, true, 0, 1), more);
    }
  }

  lemma FirstIsRefreshed(b: Browser, s: Auth.Session, t: Auth.Session)
    requires BothRefresh(b, s, s, Auth.Waiting, Auth.Waiting)
    ensures var e := Session(0, Auth.Reply(0, Auth.Refreshed(t)));
      Enabled(b, e) && BothRefresh(Next(b, e), s, t, Auth.Answered(Auth.Refreshed(t)), Auth.Waiting)
  {
    var c := Next(b, Session(0, Auth.Reply(0, Auth.Refreshed(t))));
    assert c.views[1] == b.views[1] || c.views[1] == Announced(b.views[1]);
  }

  lemma SecondIsRefused(b: Browser, s: Auth.Session, t: Auth.Session, first: Auth.Phase, error: Auth.AuthError)
    requires BothRefresh(b, s, t, first, Auth.Waiting)
    ensures var e := Session(1, Auth.Reply(1, Auth.Failed(error)));
      Enabled(b, e) && BothRefresh(Next(b, e), s, t, first, Auth.Answered(Auth.Failed(error)))
  {
  }

  lemma SecondIsSettled(b: Browser, s: Auth.Session, t: Auth.Session, first: Auth.Phase, outcome: Auth.Outcome)
    requires BothRefresh(b, s, t, first, Auth.Answered(outcome))
    ensures var e := Session(1, Auth.Settle(1));
      Enabled(b, e) && BothRefresh(Next(b, e), s, t, first, Auth.Phase.Settled(outcome))
  {
  }

  /** The first tab's reply brings a fresh session, the second tab's refresh is refused. */
  function Replies(t: Auth.Session, error: Auth.AuthError): seq<Event> {
    [Session(0, Auth.Reply(0, Auth.Refreshed(t))), Session(1, Auth.Reply(1, Auth.Failed(error))), Session(1, Auth.Settle(1))]
  }

  lemma OneIsRefused(b: Browser, s: Auth.Session, t: Auth.Session, error: Auth.AuthError)
    requires BothRefresh(b, s, s, Auth.Waiting, Auth.Waiting)
    ensures IsRun(b, Replies(t, error) + [])
    ensures BothRefresh(After(b, Replies(t, error) + []), s, t, Auth.Answered(Auth.Refreshed(t)), Auth.Phase.Settled(Auth.Failed(error)))
  {
    var good, bad := Session(0, Auth.Reply(0, Auth.Refreshed(t))), Session(1, Auth.Reply(1, Auth.Failed(error)));
    FirstIsRefreshed(b, s, t);
    SecondIsRefused(Next(b, good), s, t, Auth.Answered(Auth.Refreshed(t)), error);
    SecondIsSettled(Next(Next(b, good), bad), s, t, Auth.Answered(Auth.Refreshed(t)), Auth.Failed(error));
    RunOfThree(b, good, bad, Session(1, Auth.Settle(1)), []);
  }

  /** The refusal clears a session that nobody refused. */
  predicate Undeserved(b: Browser, e: Event, t: Auth.Session) {
    b.world.stored == Some(t) && !RefusedIn(b.world, t.refresh, {}) && Enabled(b, e) && Next(b, e).world.stored.None?
  }

  /** The second tab, refused before it is told of the fresh session, clears it. */
  lemma FreshIsCleared(b: Browser, s: Auth.Session, t: Auth.Session, first: Auth.Session, error: Auth.AuthError)
    requires BothRefresh(b, s, t, Auth.Answered(Auth.Refreshed(first)), Auth.Phase.Settled(Auth.Failed(error)))
    requires Auth.IsDefinitive(error) && t.refresh != s.refresh
    ensures Undeserved(b, Refused(1, Shown.Frame(s, 1), 1, 0), t)
  {
    assert forall id | id in b.world.requests :: b.world.requests[id].token == s.refresh;
  }

  /** Two tabs refresh one token. The first one's fresh session is stored; the second tab, refused before it
      is told, clears it although nobody refused it. */
  lemma RefusalClearsFreshSession(s: Auth.Session, t: Auth.Session, error: Auth.AuthError)
    requires Auth.IsDefinitive(error) && t.refresh != s.refresh
    ensures var events := SigningIn(s, BothAsking(s) + (Replies(t, error) + []));
      IsRun(START, events) && Undeserved(After(START, events), Refused(1, Shown.Frame(s, 1), 1, 0), t)
  {
    var replies := Replies(t, error) + [];
    var a := TwoTabsSignedIn(s, BothAsking(s) + replies);
    var b := BothTabsRefresh(a, s, replies);
    OneIsRefused(b, s, t, error);
    FreshIsCleared(After(b, replies), s, t, t, error);
  }
}
