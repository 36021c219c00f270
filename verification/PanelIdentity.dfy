/** The control panel's view of who is signed in: the session it shows, the network identity and
    API account it loaded, and the sequence number that drops late replies. */
module PanelIdentity {
  import opened Common
  import Auth = SessionProtocol

  /** A loaded identity or account, with the user it belongs to. */
  datatype Profile = Profile(user: string, detail: string)

  /** A reply the panel still waits for, with what the code captured when it sent the request. */
  datatype Load =
    | IdentityLoad(seqNo: nat, token: string)
    | AccountLoad(seqNo: nat, token: string)
    | StartupIdentityLoad(seqNo: nat, token: string, api: bool)
    | StartupAccountLoad(seqNo: nat, token: string)
    | PromptAccountLoad(token: string)
    | RoleLoad(seqNo: nat, token: string)

  /** A caller inside `getValidSession`, with the session and number it started from. */
  datatype Frame = Frame(current: Auth.Session, seqNo: nat)

  datatype Panel = Panel(
    session: Option<Auth.Session>,
    seqNo: nat,
    identity: Option<Profile>,
    account: Option<Profile>,
    loads: set<Load>,
    frames: set<Frame>)

  datatype Event =
    | StorageChanged(found: Option<Auth.Session>, api: bool)
    | BeginValid
    | ValidDone(frame: Frame, next: Auth.Session, api: bool)
    | ValidFailed(frame: Frame, error: Auth.AuthError, now: int)
    | StartupDone(found: Option<Auth.Session>, api: bool)
    | StartupFailed
    | Disconnect
    | Authenticated(session: Auth.Session, identity: Option<Profile>, api: bool)
    | PromptSent(session: Auth.Session)
    | RetryRole(session: Auth.Session)
    | Loaded(load: Load, result: Option<Profile>)
    | Elevated(raised: Auth.Session)

  predicate Enabled(p: Panel, e: Event) {
    match e
    case ValidDone(frame, _, _) => frame in p.frames
    case ValidFailed(frame, _, _) => frame in p.frames
    case Loaded(load, _) => load in p.loads
    case Elevated(_) => p.seqNo > 0  // a step-up starts from a session the panel once had
    case _ => true
  }

  const START := Panel(None, 0, None, None, {}, {})

  /** A new session under a new number: what was loaded for the old one is dropped. */
  function Switch(p: Panel, session: Auth.Session, api: bool): Panel {
    var n := p.seqNo + 1;
    p.(session := Some(session), seqNo := n, identity := None, account := None,
       loads := p.loads + {IdentityLoad(n, session.access)} + AccountLoads(n, session, api))
  }

  function AccountLoads(n: nat, session: Auth.Session, api: bool): set<Load> {
    if api then {AccountLoad(n, session.access)} else {}
  }

  function SignedOut(p: Panel): Panel {
    p.(session := None, seqNo := p.seqNo + 1, identity := None, account := None)
  }

  predicate Current(p: Panel, frame: Frame) {
    p.seqNo == frame.seqNo && p.session == Some(frame.current)
  }

  /** What a reply changes: failed loads (`None`) change nothing, except that the start-up loads
      store the absence; the identity is followed by the account there. */
  function Deliver(p: Panel, load: Load, result: Option<Profile>): Panel {
    match load
    case IdentityLoad(n, _) => if p.seqNo == n && result.Some? then p.(identity := result) else p
    case AccountLoad(n, _) => if p.seqNo == n && result.Some? then p.(account := result) else p
    case StartupIdentityLoad(n, token, api) =>
      if p.seqNo == n
      then p.(identity := result, loads := p.loads + if api then {StartupAccountLoad(n, token)} else {})
      else p
    case StartupAccountLoad(n, _) => if p.seqNo == n then p.(account := result) else p
    case PromptAccountLoad(token) =>
      if p.session.Some? && p.session.value.access == token && result.Some? then p.(account := result) else p
    case RoleLoad(n, token) =>
      if p.seqNo == n && p.session.Some? && p.session.value.access == token && result.Some? then p.(identity := result) else p
  }

  function Next(p: Panel, e: Event): Panel
    requires Enabled(p, e)
  {
    match e
    case StorageChanged(session, api) => if session.Some? then Switch(p, session.value, api) else SignedOut(p)
    case BeginValid => if p.session.Some? then p.(frames := p.frames + {Frame(p.session.value, p.seqNo)}) else p
    case ValidDone(frame, next, api) =>
      if Current(p, frame) && next != frame.current then Switch(p, next, api) else p
    case ValidFailed(frame, error, now) =>
      if !Current(p, frame) then p
      else if Auth.IsDefinitive(error) then SignedOut(p)
      else if Auth.SurvivesFailure(frame.current, error, now) then p
      else p.(identity := None, account := None)
    case StartupDone(session, api) =>
      if p.seqNo != 0 || session.None? then p
      else p.(session := session, seqNo := 1, loads := p.loads + {StartupIdentityLoad(1, session.value.access, api)})
    case StartupFailed =>
      if p.seqNo != 0 then p else p.(session := None, identity := None, account := None)
    case Disconnect => SignedOut(p)
    case Authenticated(session, identity, api) =>
      p.(session := Some(session), seqNo := p.seqNo + 1, identity := identity, account := None,
         loads := p.loads + AccountLoads(p.seqNo + 1, session, api))
    case PromptSent(session) => p.(loads := p.loads + {PromptAccountLoad(session.access)})
    case RetryRole(session) => p.(loads := p.loads + {RoleLoad(p.seqNo, session.access)})
    case Loaded(load, result) => Deliver(p.(loads := p.loads - {load}), load, result)
    case Elevated(session) => p.(session := Some(session))
  }

  // ----- what the server promises -----

  /** An access token belongs to one user, and the server answers for that user. */
  ghost predicate Owned(user: string -> string, s: Auth.Session) {
    user(s.access) == s.user
  }

  ghost predicate Honest(user: string -> string, e: Event) {
    match e
    case StorageChanged(session, _) => session.Some? ==> Owned(user, session.value)
    case ValidDone(_, next, _) => Owned(user, next)
    case StartupDone(session, _) => session.Some? ==> Owned(user, session.value)
    case Authenticated(session, identity, _) => Owned(user, session) && (identity.Some? ==> identity.value.user == session.user)
    case Loaded(load, result) => result.Some? ==> result.value.user == user(load.token)
    case Elevated(session) => Owned(user, session)
    case _ => true
  }

  /** Everything on show, and everything that will be shown when its reply comes, is the user's. */
  ghost predicate ForUser(user: string -> string, p: Panel, who: string) {
    && (p.identity.Some? ==> p.identity.value.user == who)
    && (p.account.Some? ==> p.account.value.user == who)
    && (forall load | load in p.loads && Numbered(load) && load.seqNo == p.seqNo :: user(load.token) == who)
  }

  // ----- runs -----

  predicate IsRun(p: Panel, events: seq<Event>)
    decreases |events|
  {
    events == [] || (Enabled(p, events[0]) && IsRun(Next(p, events[0]), events[1..]))
  }

  /** The server is honest, and step-ups return while the panel is their user's. */
  ghost predicate FairRun(user: string -> string, p: Panel, events: seq<Event>)
    requires IsRun(p, events)
    decreases |events|
  {
    events == [] || (Honest(user, events[0]) && Timely(user, p, events[0]) && FairRun(user, Next(p, events[0]), events[1..]))
  }

  ghost predicate Timely(user: string -> string, p: Panel, e: Event) {
    e.Elevated? ==> ForUser(user, p, e.raised.user)
  }

  /** The server is honest, and no step-up returns. */
  ghost predicate QuietRun(user: string -> string, p: Panel, events: seq<Event>)
    requires IsRun(p, events)
    decreases |events|
  {
    events == [] || (Honest(user, events[0]) && !events[0].Elevated? && QuietRun(user, Next(p, events[0]), events[1..]))
  }

  function After(p: Panel, events: seq<Event>): Panel
    requires IsRun(p, events)
    decreases |events|
  {
    if events == [] then p else After(Next(p, events[0]), events[1..])
  }

  ghost predicate Belongs(p: Panel, profile: Option<Profile>) {
    profile.Some? ==> p.session.Some? && profile.value.user == p.session.value.user
  }

  /** What the panel shows is the signed-in user's. */
  ghost predicate Matches(p: Panel) {
    Belongs(p, p.identity) && Belongs(p, p.account)
  }

  predicate Numbered(load: Load) {
    !load.PromptAccountLoad? && !load.RoleLoad?
  }

  /** A reply that would pass its number check was asked for with a token of the session's user;
      before the first session nothing is shown and nothing is awaited under the first number. */
  ghost predicate Inv(user: string -> string, p: Panel) {
    && Matches(p)
    && (p.session.Some? ==> Owned(user, p.session.value))
    && (forall load | load in p.loads && Numbered(load) :: LoadInv(user, p, load))
    && (p.seqNo == 0 ==> p.session.None?)
  }

  ghost predicate LoadInv(user: string -> string, p: Panel, load: Load)
    requires Numbered(load)
  {
    && 0 < load.seqNo <= p.seqNo
    && (load.seqNo == p.seqNo ==> p.session.Some? && user(load.token) == p.session.value.user)
  }

  lemma LoadedKeepsInv(user: string -> string, p: Panel, load: Load, result: Option<Profile>)
    requires Inv(user, p) && load in p.loads && Honest(user, Loaded(load, result))
    ensures Inv(user, Next(p, Loaded(load, result)))
  {
    var q := Next(p, Loaded(load, result));
    assert Numbered(load) ==> LoadInv(user, p, load);
    forall other | other in q.loads && Numbered(other) ensures LoadInv(user, q, other) {
      if other in p.loads {
        assert LoadInv(user, p, other);
      }
    }
  }

  lemma NextKeepsInv(user: string -> string, p: Panel, e: Event)
    requires Inv(user, p) && Enabled(p, e) && Honest(user, e) && Timely(user, p, e)
    ensures Inv(user, Next(p, e))
  {
    if e.Loaded? {
      LoadedKeepsInv(user, p, e.load, e.result);
    } else {
      var q := Next(p, e);
      forall load | load in q.loads && Numbered(load) ensures LoadInv(user, q, load) {
        if load in p.loads {
          assert LoadInv(user, p, load);
        }
      }
    }
  }

  lemma {:induction false} RunsKeepInv(user: string -> string, p: Panel, events: seq<Event>)
    requires Inv(user, p) && IsRun(p, events) && FairRun(user, p, events)
    ensures Inv(user, After(p, events))
    decreases |events|
  {
    if events != [] {
      NextKeepsInv(user, p, events[0]);
      RunsKeepInv(user, Next(p, events[0]), events[1..]);
    }
  }

  /** In every interleaving of session changes, refreshes, sign-outs and late replies, an identity
      or account on show belongs to the user of the session on show, as long as step-ups return while
      the panel is their user's. */
  lemma ShownProfileIsCurrentUsers(user: string -> string, events: seq<Event>)
    requires IsRun(START, events) && FairRun(user, START, events)
    ensures Matches(After(START, events))
  {
    RunsKeepInv(user, START, events);
  }

  /** However it goes on without further step-ups, what is on show is the signed-in user's. */
  ghost predicate StaysMatched(user: string -> string, p: Panel) {
    forall events | IsRun(p, events) && QuietRun(user, p, events) :: Matches(After(p, events))
  }

  lemma {:induction false} QuietIsFair(user: string -> string, p: Panel, events: seq<Event>)
    requires IsRun(p, events) && QuietRun(user, p, events)
    ensures FairRun(user, p, events)
    decreases |events|
  {
    if events != [] {
      QuietIsFair(user, Next(p, events[0]), events[1..]);
    }
  }

  /** A step-up result does not go through the sequence number. After installing it, what is on show
      stays the signed-in user's in every continuation if and only if, at that moment, everything on
      show and everything awaited under the current number was its user's. This is the exact form of
      the condition that `ShownProfileIsCurrentUsers` asks of step-ups. */
  lemma ElevationIsSafeIff(user: string -> string, p: Panel, s: Auth.Session)
    requires Inv(user, p) && Enabled(p, Elevated(s)) && Owned(user, s)
    ensures StaysMatched(user, Next(p, Elevated(s))) <==> ForUser(user, p, s.user)
  {
    var q := Next(p, Elevated(s));
    if ForUser(user, p, s.user) {
      NextKeepsInv(user, p, Elevated(s));
      forall events | IsRun(q, events) && QuietRun(user, q, events) ensures Matches(After(q, events)) {
        QuietIsFair(user, q, events);
        RunsKeepInv(user, q, events);
      }
    } else if load :| load in p.loads && Numbered(load) && load.seqNo == p.seqNo && user(load.token) != s.user {
      AwaitedMismatches(user, p, s, load);
    } else {
      assert IsRun(q, []) && QuietRun(user, q, []) && !Matches(After(q, []));
    }
  }

  /** The awaited reply puts another user's profile on show. */
  lemma AwaitedMismatches(user: string -> string, p: Panel, s: Auth.Session, load: Load)
    requires Enabled(p, Elevated(s)) && load in p.loads && Numbered(load) && load.seqNo == p.seqNo && user(load.token) != s.user
    ensures !StaysMatched(user, Next(p, Elevated(s)))
  {
    var q := Next(p, Elevated(s));
    var profile := Profile(user(load.token), "");
    var e := Loaded(load, Some(profile));
    OneEvent(q, e);
    assert Honest(user, e) && QuietRun(user, Next(q, e), []) && [e][1..] == [] && QuietRun(user, q, [e]);
    ShownReply(q, load, profile);
    assert !Matches(After(q, [e]));
  }

  /** A numbered reply under the current number is shown. */
  lemma ShownReply(q: Panel, load: Load, profile: Profile)
    requires load in q.loads && Numbered(load) && load.seqNo == q.seqNo && q.session.Some? && profile.user != q.session.value.user
    ensures !Matches(Next(q, Loaded(load, Some(profile))))
  {
    var r := Next(q, Loaded(load, Some(profile)));
    assert r.session == q.session;
    assert r.identity == Some(profile) || r.account == Some(profile);
  }

  /** What is on show and what will be shown is the signed-in user's at every moment of the run. */
  ghost predicate SafeThroughout(user: string -> string, p: Panel, events: seq<Event>)
    requires IsRun(p, events)
    decreases |events|
  {
    Inv(user, p) && (events != [] ==> SafeThroughout(user, Next(p, events[0]), events[1..]))
  }

  ghost predicate HonestRun(user: string -> string, p: Panel, events: seq<Event>)
    requires IsRun(p, events)
    decreases |events|
  {
    events == [] || (Honest(user, events[0]) && HonestRun(user, Next(p, events[0]), events[1..]))
  }

  ghost predicate TimelyRun(user: string -> string, p: Panel, events: seq<Event>)
    requires IsRun(p, events)
    decreases |events|
  {
    events == [] || (Timely(user, p, events[0]) && TimelyRun(user, Next(p, events[0]), events[1..]))
  }

  lemma UntimelyElevationBreaks(user: string -> string, p: Panel, s: Auth.Session)
    requires Enabled(p, Elevated(s)) && Inv(user, Next(p, Elevated(s)))
    ensures ForUser(user, p, s.user)
  {
    var q := Next(p, Elevated(s));
    forall load | load in p.loads && Numbered(load) && load.seqNo == p.seqNo ensures user(load.token) == s.user {
      assert LoadInv(user, q, load);
    }
  }

  /** With an honest server, everything on show or awaited is the signed-in user's throughout a run if
      and only if step-ups return while the panel is their user's. */
  lemma {:induction false} SafeThroughoutIff(user: string -> string, p: Panel, events: seq<Event>)
    requires Inv(user, p) && IsRun(p, events) && HonestRun(user, p, events)
    ensures SafeThroughout(user, p, events) <==> TimelyRun(user, p, events)
    decreases |events|
  {
    if events != [] {
      var e := events[0];
      if Timely(user, p, e) {
        NextKeepsInv(user, p, e);
        SafeThroughoutIff(user, Next(p, e), events[1..]);
      } else if Inv(user, Next(p, e)) {
        UntimelyElevationBreaks(user, p, e.raised);
      }
    }
  }

  lemma OneEvent(p: Panel, e: Event)
    requires Enabled(p, e)
    ensures IsRun(p, [e]) && After(p, [e]) == Next(p, e)
  {
    assert [e][1..] == [];
    assert After(Next(p, e), []) == Next(p, e);
  }

  /** Two users sign in one after the other while the first one's step-up is under way: its late
      result puts the first session back beside the second user's identity. */
  lemma LateElevationMismatches(a: Auth.Session, b: Auth.Session, profile: Profile)
    requires a.user != b.user && profile.user == b.user
    ensures var p := Next(Next(Next(Next(START, Authenticated(a, None, false)), Disconnect), Authenticated(b, Some(profile), false)), Elevated(a));
      p.session == Some(a) && p.identity == Some(profile) && !Matches(p)
  {
  }

  /** The same with nothing on show yet: the first session comes back while the second user's account
      is still awaited, and the account is then shown beside it. */
  lemma LateReplyMismatches(a: Auth.Session, b: Auth.Session, profile: Profile)
    requires a.user != b.user && profile.user == b.user
    ensures var p := Next(Next(Next(Next(START, Authenticated(a, None, true)), Disconnect), Authenticated(b, None, true)), Elevated(a));
      && Matches(p) && AccountLoad(3, b.access) in p.loads
      && !Matches(Next(p, Loaded(AccountLoad(3, b.access), Some(profile))))
  {
  }

  /** The handlers, as they update the panel's refs and state. Setting React state and the effect
      that copies the session into its ref are taken as one action. */
  class ControlPanel {
    var session: Option<Auth.Session>
    var seqNo: nat
    var identity: Option<Profile>
    var account: Option<Profile>
    var loads: set<Load>
    var frames: set<Frame>

    ghost function State(): Panel
      reads this
    {
      Panel(session, seqNo, identity, account, loads, frames)
    }

    constructor ()
      ensures State() == START
    {
      session, seqNo, identity, account, loads, frames := None, 0, None, None, {}, {};
    }

    /** The storage listener. */
    method OnStorage(found: Option<Auth.Session>, api: bool)
      modifies this
      ensures State() == Next(old(State()), StorageChanged(found, api))
    {
      seqNo := seqNo + 1;
      session := found;
      identity := None;
      account := None;
      if found.None? {
        return;
      }
      RequestProfiles(found.value, api);
    }

    method RequestProfiles(s: Auth.Session, api: bool)
      modifies this`loads
      ensures loads == old(loads) + {IdentityLoad(seqNo, s.access)} + AccountLoads(seqNo, s, api)
    {
      loads := loads + {IdentityLoad(seqNo, s.access)};
      if api {
        loads := loads + {AccountLoad(seqNo, s.access)};
      }
    }

    method GetValidSession()
      modifies this`frames
      ensures State() == Next(old(State()), BeginValid)
    {
      if session.Some? {
        frames := frames + {Frame(session.value, seqNo)};
      }
    }

    /** After the wait for a valid session; the result is what the caller gets. */
    method OnValidSession(frame: Frame, next: Auth.Session, api: bool) returns (r: Option<Auth.Session>)
      requires frame in frames
      modifies this
      ensures State() == Next(old(State()), ValidDone(frame, next, api))
      ensures r == if Current(old(State()), frame) then Some(next) else None
      ensures r.Some? ==> session == r
    {
      if seqNo != frame.seqNo || session != Some(frame.current) {
        return None;
      }
      if next != frame.current {
        seqNo := seqNo + 1;
        session := Some(next);
        identity := None;
        account := None;
        RequestProfiles(next, api);
      }
      return Some(next);
    }

    /** The second result says that the stored session is cleared as well. */
    method OnInvalidSession(frame: Frame, error: Auth.AuthError, now: int) returns (r: Option<Auth.Session>, clears: bool)
      requires frame in frames
      modifies this
      ensures State() == Next(old(State()), ValidFailed(frame, error, now))
      ensures clears <==> Current(old(State()), frame) && Auth.IsDefinitive(error)
      ensures r.Some? ==> session == r && r.value.expiresAt > now
    {
      if seqNo != frame.seqNo || session != Some(frame.current) {
        return None, false;
      }
      if Auth.IsDefinitive(error) {
        seqNo := seqNo + 1;
        session := None;
        account := None;
        identity := None;
        return None, true;
      }
      if Auth.SurvivesFailure(frame.current, error, now) {
        return Some(frame.current), false;
      }
      identity := None;
      account := None;
      return None, false;
    }

    method OnRestored(found: Option<Auth.Session>, api: bool)
      modifies this
      ensures State() == Next(old(State()), StartupDone(found, api))
    {
      if seqNo != 0 || found.None? {
        return;
      }
      seqNo := seqNo + 1;
      session := found;
      loads := loads + {StartupIdentityLoad(seqNo, found.value.access, api)};
    }

    method OnAuthenticated(s: Auth.Session, found: Option<Profile>, api: bool)
      modifies this
      ensures State() == Next(old(State()), Authenticated(s, found, api))
    {
      seqNo := seqNo + 1;
      session := Some(s);
      identity := found;
      account := None;
      if api {
        loads := loads + {AccountLoad(seqNo, s.access)};
      }
    }

    method DisconnectAccount()
      modifies this
      ensures State() == Next(old(State()), Disconnect)
    {
      seqNo := seqNo + 1;
      session := None;
      identity := None;
      account := None;
    }

    method OnLoaded(load: Load, result: Option<Profile>)
      requires load in loads
      modifies this
      ensures State() == Next(old(State()), Loaded(load, result))
    {
      loads := loads - {load};
      match load
      case IdentityLoad(n, _) =>
        if result.Some? && seqNo == n { identity := result; }
      case AccountLoad(n, _) =>
        if result.Some? && seqNo == n { account := result; }
      case StartupIdentityLoad(n, token, api) =>
        if seqNo == n {
          identity := result;
          if api { loads := loads + {StartupAccountLoad(n, token)}; }
        }
      case StartupAccountLoad(n, _) =>
        if seqNo == n { account := result; }
      case PromptAccountLoad(token) =>
        if result.Some? && session.Some? && session.value.access == token { account := result; }
      case RoleLoad(n, token) =>
        if result.Some? && seqNo == n && session.Some? && session.value.access == token { identity := result; }
    }
  }
}
