/** The browser's session storage, shared by any number of tabs, and the refresh protocol that
    each tab runs against it (the refresh grant of section 6 of RFC 6749).

    One event is one uninterrupted turn of a tab. Network requests are split at the points where
    the code awaits, so replies arrive in any order and arbitrarily late, or never. */
module SessionProtocol {
  import opened Common

  const SESSION_REFRESH_MARGIN_MS := 90_000

  datatype Session = Session(access: string, refresh: string, expiresAt: int, user: string)

  /** An HTTP error status of the account service, or any other failure of a request. */
  datatype AuthError = Service(status: int) | OtherFailure

  predicate IsDefinitive(e: AuthError) {
    e.Service? && 400 <= e.status < 500 && e.status != 408 && e.status != 429
  }

  predicate NeedsRefresh(s: Session, now: int) {
    s.expiresAt <= now + SESSION_REFRESH_MARGIN_MS
  }

  predicate SurvivesFailure(s: Session, e: AuthError, now: int) {
    s.expiresAt > now && !IsDefinitive(e)
  }

  /** The stored session if it is the same user's and lives longer. */
  function Freshest(stored: Option<Session>, s: Session): Session {
    if stored.Some? && stored.value.user == s.user && stored.value.expiresAt > s.expiresAt then stored.value else s
  }

  // ----- state -----

  datatype Outcome = Refreshed(session: Session) | Failed(error: AuthError)

  /** Waiting for the server; answered, with the clean-up still queued; or done. */
  datatype Phase = Waiting | Answered(outcome: Outcome) | Settled(outcome: Outcome)

  /** A refresh request, with the refresh token it was sent for. */
  datatype Request = Request(tab: nat, token: string, phase: Phase)

  /** Where the tab's start-up restore stands. */
  datatype Restore =
    | NotRestoring
    | Redirected(session: Session)
    | Awaiting(current: Session, id: nat)
    | Returned(result: Option<Session>)

  /** `inFlight` maps refresh tokens to the pending request. */
  datatype Tab = Tab(inFlight: map<string, nat>, restore: Restore)

  datatype World = World(stored: Option<Session>, tabs: map<nat, Tab>, requests: map<nat, Request>)

  datatype Event =
    | OpenTab(tab: nat)
    | Refresh(tab: nat, session: Session, force: bool, now: int, id: nat)
    | Reply(id: nat, outcome: Outcome)
    | Settle(id: nat)
    | SignIn(session: Session)
    | StepUp(base: Session, access: string, refresh: Option<string>, expiresAt: int)
    | Clear
    | BeginRestore(tab: nat, enabled: bool, now: int, id: nat)
    | RedirectRestore(tab: nat, session: Session)
    | FinishRedirect(tab: nat)
    | ResumeRestore(tab: nat, now: int)

  predicate Enabled(w: World, e: Event) {
    match e
    case OpenTab(tab) => tab !in w.tabs
    case Refresh(tab, _, _, _, id) => tab in w.tabs && id !in w.requests
    case Reply(id, _) => id in w.requests && w.requests[id].phase.Waiting?
    case Settle(id) => id in w.requests && w.requests[id].phase.Answered? && w.requests[id].tab in w.tabs
    case SignIn(_) => true
    case StepUp(_, _, _, _) => true
    case Clear => true
    case BeginRestore(tab, _, _, id) => tab in w.tabs && w.tabs[tab].restore.NotRestoring? && id !in w.requests
    case RedirectRestore(tab, session) =>  // a redirect without tokens is refused
      tab in w.tabs && w.tabs[tab].restore.NotRestoring? && session.access != "" && session.refresh != ""
    case FinishRedirect(tab) => tab in w.tabs && w.tabs[tab].restore.Redirected?
    case ResumeRestore(tab, _) =>
      && tab in w.tabs && w.tabs[tab].restore.Awaiting?
      && w.tabs[tab].restore.id in w.requests && w.requests[w.tabs[tab].restore.id].phase.Settled?
  }

  // ----- steps -----

  /** Joins the pending request for the token, or sends one. Returns the request waited for. */
  function Join(w: World, tab: nat, token: string, id: nat): (World, nat)
    requires tab in w.tabs && id !in w.requests
  {
    var t := w.tabs[tab];
    if token in t.inFlight then (w, t.inFlight[token])
    else (w.(tabs := w.tabs[tab := t.(inFlight := t.inFlight[token := id])],
             requests := w.requests[id := Request(tab, token, Waiting)]), id)
  }

  /** The write at the end of a refresh happens only if the storage still holds the token that was
      exchanged. The empty token counts as none given, and then the write always happens. */
  function Commit(stored: Option<Session>, token: string, outcome: Outcome): Option<Session> {
    if outcome.Refreshed? && (token == "" || Holds(stored, token)) then Some(outcome.session) else stored
  }

  /** What a refresh gives its caller at once: a session, or the request to wait for. */
  datatype Started = Ready(session: Session) | WaitFor(id: nat)

  function Begun(w: World, tab: nat, session: Session, force: bool, now: int, id: nat): Started
    requires Enabled(w, Refresh(tab, session, force, now, id))
  {
    var freshest := Freshest(w.stored, session);
    if !force && !NeedsRefresh(freshest, now) then Ready(freshest) else WaitFor(Join(w, tab, freshest.refresh, id).1)
  }

  function Elevated(base: Session, access: string, refresh: Option<string>, expiresAt: int): Session {
    Session(access, if refresh.Some? then refresh.value else base.refresh, expiresAt, base.user)
  }

  function Unexpired(stored: Option<Session>, now: int): Option<Session> {
    if stored.Some? && stored.value.expiresAt > now then stored else None
  }

  predicate Holds(stored: Option<Session>, token: string) {
    stored.Some? && stored.value.refresh == token
  }

  /** What a restore returns once its refresh is over, and whether it clears the storage. */
  function Restored(stored: Option<Session>, current: Session, outcome: Outcome, now: int): (Option<Session>, bool) {
    match outcome
    case Refreshed(session) =>
      (if Holds(stored, session.refresh) then Some(session) else Unexpired(stored, now), false)
    case Failed(error) =>
      if !Holds(stored, current.refresh) then (Unexpired(stored, now), false)
      else if IsDefinitive(error) then (None, true)
      else (if SurvivesFailure(current, error, now) then Some(current) else None, false)
  }

  function SetRestore(w: World, tab: nat, r: Restore): World
    requires tab in w.tabs
  {
    w.(tabs := w.tabs[tab := w.tabs[tab].(restore := r)])
  }

  function Next(w: World, e: Event): World
    requires Enabled(w, e)
  {
    match e
    case OpenTab(tab) => w.(tabs := w.tabs[tab := Tab(map[], NotRestoring)])
    case Refresh(tab, session, force, now, id) =>
      var freshest := Freshest(w.stored, session);
      if !force && !NeedsRefresh(freshest, now) then w else Join(w, tab, freshest.refresh, id).0
    case Reply(id, outcome) =>
      w.(stored := Commit(w.stored, w.requests[id].token, outcome),
         requests := w.requests[id := w.requests[id].(phase := Answered(outcome))])
    case Settle(id) =>
      var r := w.requests[id];
      var t := w.tabs[r.tab];
      var inFlight := if r.token in t.inFlight && t.inFlight[r.token] == id then t.inFlight - {r.token} else t.inFlight;
      w.(tabs := w.tabs[r.tab := t.(inFlight := inFlight)],
         requests := w.requests[id := r.(phase := Settled(r.phase.outcome))])
    case SignIn(session) => w.(stored := Some(session))
    case StepUp(base, access, refresh, expiresAt) => w.(stored := Some(Elevated(base, access, refresh, expiresAt)))
    case Clear => w.(stored := None)
    case BeginRestore(tab, enabled, now, id) =>
      if w.stored.None? || !enabled then SetRestore(w, tab, Returned(None))
      else if !NeedsRefresh(w.stored.value, now) then SetRestore(w, tab, Returned(w.stored))
      else
        var (joined, request) := Join(w, tab, w.stored.value.refresh, id);
        SetRestore(joined, tab, Awaiting(w.stored.value, request))
    case RedirectRestore(tab, session) => SetRestore(w.(stored := Some(session)), tab, Redirected(session))
    case FinishRedirect(tab) => SetRestore(w, tab, Returned(Some(w.tabs[tab].restore.session)))
    case ResumeRestore(tab, now) =>
      var r := w.tabs[tab].restore;
      var (result, clears) := Restored(w.stored, r.current, w.requests[r.id].phase.outcome, now);
      SetRestore(if clears then w.(stored := None) else w, tab, Returned(result))
  }

  // ----- runs -----

  predicate IsRun(w: World, events: seq<Event>)
    decreases |events|
  {
    events == [] || (Enabled(w, events[0]) && IsRun(Next(w, events[0]), events[1..]))
  }

  function After(w: World, events: seq<Event>): World
    requires IsRun(w, events)
    decreases |events|
  {
    if events == [] then w else After(Next(w, events[0]), events[1..])
  }

  const EMPTY := World(None, map[], map[])

  /** A refresh token belongs to one user; the server never hands it to another. */
  ghost predicate Owned(owner: string -> string, s: Session) {
    owner(s.refresh) == s.user
  }

  /** The server answers for the owner of the token it was given, and the sessions that tabs pass
      around are sessions it issued. */
  ghost predicate Honest(owner: string -> string, w: World, e: Event)
    requires Enabled(w, e)
  {
    match e
    case Refresh(_, session, _, _, _) => Owned(owner, session)
    case Reply(id, Refreshed(session)) => Owned(owner, session) && session.user == owner(w.requests[id].token)
    case SignIn(session) => Owned(owner, session)
    case StepUp(base, access, refresh, expiresAt) => Owned(owner, base) && Owned(owner, Elevated(base, access, refresh, expiresAt))
    case RedirectRestore(_, session) => Owned(owner, session)
    case _ => true
  }

  ghost predicate HonestRun(owner: string -> string, w: World, events: seq<Event>)
    requires IsRun(w, events)
    decreases |events|
  {
    events == [] || (Honest(owner, w, events[0]) && HonestRun(owner, Next(w, events[0]), events[1..]))
  }

  // ----- invariant -----

  /** In each tab, the pending requests are exactly those the tab has registered. */
  ghost predicate SingleFlight(w: World) {
    && (forall id | id in w.requests && !w.requests[id].phase.Settled? ::
          Registered(w, w.requests[id].tab, w.requests[id].token, id))
    && (forall tab, token | tab in w.tabs && token in w.tabs[tab].inFlight ::
          Pending(w, tab, token, w.tabs[tab].inFlight[token]))
  }

  ghost predicate Registered(w: World, tab: nat, token: string, id: nat) {
    tab in w.tabs && token in w.tabs[tab].inFlight && w.tabs[tab].inFlight[token] == id
  }

  ghost predicate Pending(w: World, tab: nat, token: string, id: nat) {
    id in w.requests && w.requests[id].tab == tab && w.requests[id].token == token && !w.requests[id].phase.Settled?
  }

  /** All sessions in the system belong to the owner of their token, and answers belong to the
      owner of the token that was exchanged. */
  ghost predicate Attributed(owner: string -> string, w: World) {
    && (w.stored.Some? ==> Owned(owner, w.stored.value))
    && (forall id | id in w.requests :: RequestAttributed(owner, w.requests[id]))
    && (forall tab | tab in w.tabs :: RestoreAttributed(owner, w, w.tabs[tab].restore))
  }

  ghost predicate RequestAttributed(owner: string -> string, r: Request) {
    !r.phase.Waiting? && r.phase.outcome.Refreshed? ==>
      Owned(owner, r.phase.outcome.session) && r.phase.outcome.session.user == owner(r.token)
  }

  ghost predicate RestoreAttributed(owner: string -> string, w: World, r: Restore) {
    match r
    case NotRestoring => true
    case Redirected(session) => Owned(owner, session)
    case Awaiting(current, id) => Owned(owner, current) && id in w.requests && w.requests[id].token == current.refresh
    case Returned(result) => result.Some? ==> Owned(owner, result.value)
  }

  ghost predicate Inv(owner: string -> string, w: World) {
    SingleFlight(w) && Attributed(owner, w)
  }

  lemma JoinKeepsSingleFlight(w: World, tab: nat, token: string, id: nat)
    requires SingleFlight(w) && tab in w.tabs && id !in w.requests
    ensures SingleFlight(Join(w, tab, token, id).0)
    ensures Registered(Join(w, tab, token, id).0, tab, token, Join(w, tab, token, id).1)
  {
  }

  /** The invariant looks at the requests and the tabs' registers only. */
  lemma SameRegisters(w: World, v: World)
    requires SingleFlight(w) && v.requests == w.requests && v.tabs.Keys == w.tabs.Keys
    requires forall tab | tab in w.tabs :: v.tabs[tab].inFlight == w.tabs[tab].inFlight
    ensures SingleFlight(v)
  {
    forall id | id in v.requests && !v.requests[id].phase.Settled?
      ensures Registered(v, v.requests[id].tab, v.requests[id].token, id)
    {
      assert Registered(w, w.requests[id].tab, w.requests[id].token, id);
    }
    forall tab, token | tab in v.tabs && token in v.tabs[tab].inFlight
      ensures Pending(v, tab, token, v.tabs[tab].inFlight[token])
    {
      assert Pending(w, tab, token, w.tabs[tab].inFlight[token]);
    }
  }

  lemma ReplyKeepsSingleFlight(w: World, id: nat, outcome: Outcome)
    requires SingleFlight(w) && Enabled(w, Reply(id, outcome))
    ensures SingleFlight(Next(w, Reply(id, outcome)))
  {
    var v := Next(w, Reply(id, outcome));
    forall k | k in v.requests && !v.requests[k].phase.Settled?
      ensures Registered(v, v.requests[k].tab, v.requests[k].token, k)
    {
      assert Registered(w, w.requests[k].tab, w.requests[k].token, k);
    }
    forall tab, token | tab in v.tabs && token in v.tabs[tab].inFlight
      ensures Pending(v, tab, token, v.tabs[tab].inFlight[token])
    {
      assert Pending(w, tab, token, w.tabs[tab].inFlight[token]);
    }
  }

  lemma SettleKeepsSingleFlight(w: World, id: nat)
    requires SingleFlight(w) && Enabled(w, Settle(id))
    ensures SingleFlight(Next(w, Settle(id)))
  {
    var v := Next(w, Settle(id));
    var r := w.requests[id];
    assert Registered(w, r.tab, r.token, id);
    forall k | k in v.requests && !v.requests[k].phase.Settled?
      ensures Registered(v, v.requests[k].tab, v.requests[k].token, k)
    {
      assert Registered(w, w.requests[k].tab, w.requests[k].token, k);
    }
    forall tab, token | tab in v.tabs && token in v.tabs[tab].inFlight
      ensures Pending(v, tab, token, v.tabs[tab].inFlight[token])
    {
      assert Pending(w, tab, token, w.tabs[tab].inFlight[token]);
    }
  }

  lemma NextKeepsSingleFlight(w: World, e: Event)
    requires SingleFlight(w) && Enabled(w, e)
    ensures SingleFlight(Next(w, e))
  {
    match e
    case Refresh(tab, session, force, now, id) =>
      JoinKeepsSingleFlight(w, tab, Freshest(w.stored, session).refresh, id);
    case BeginRestore(tab, enabled, now, id) => BeginKeepsSingleFlight(w, tab, enabled, now, id);
    case Reply(id, outcome) => ReplyKeepsSingleFlight(w, id, outcome);
    case Settle(id) => SettleKeepsSingleFlight(w, id);
    case OpenTab(tab) => OpenKeepsSingleFlight(w, tab);
    case _ => SameRegisters(w, Next(w, e));
  }

  lemma BeginKeepsSingleFlight(w: World, tab: nat, enabled: bool, now: int, id: nat)
    requires SingleFlight(w) && Enabled(w, BeginRestore(tab, enabled, now, id))
    ensures SingleFlight(Next(w, BeginRestore(tab, enabled, now, id)))
  {
    var v := Next(w, BeginRestore(tab, enabled, now, id));
    if w.stored.Some? && enabled && NeedsRefresh(w.stored.value, now) {
      JoinKeepsSingleFlight(w, tab, w.stored.value.refresh, id);
      SameRegisters(Join(w, tab, w.stored.value.refresh, id).0, v);
    } else {
      SameRegisters(w, v);
    }
  }

  lemma OpenKeepsSingleFlight(w: World, tab: nat)
    requires SingleFlight(w) && tab !in w.tabs
    ensures SingleFlight(Next(w, OpenTab(tab)))
  {
    var v := Next(w, OpenTab(tab));
    forall k | k in v.requests && !v.requests[k].phase.Settled?
      ensures Registered(v, v.requests[k].tab, v.requests[k].token, k)
    {
      assert Registered(w, w.requests[k].tab, w.requests[k].token, k);
    }
  }

  /** Requests keep their tokens; answers and the storage are checked on their own. */
  lemma AttributedAfter(owner: string -> string, w: World, v: World)
    requires Attributed(owner, w)
    requires v.stored.Some? ==> Owned(owner, v.stored.value)
    requires forall id | id in w.requests :: id in v.requests && v.requests[id].token == w.requests[id].token
    requires forall id | id in v.requests :: RequestAttributed(owner, v.requests[id])
    requires forall tab | tab in v.tabs ::
      (tab in w.tabs && v.tabs[tab].restore == w.tabs[tab].restore) || RestoreAttributed(owner, v, v.tabs[tab].restore)
    ensures Attributed(owner, v)
  {
    forall tab | tab in v.tabs ensures RestoreAttributed(owner, v, v.tabs[tab].restore) {
      if tab in w.tabs && v.tabs[tab].restore == w.tabs[tab].restore {
        assert RestoreAttributed(owner, w, w.tabs[tab].restore);
      }
    }
  }

  lemma JoinKeepsAttribution(owner: string -> string, w: World, tab: nat, token: string, id: nat)
    requires Attributed(owner, w) && tab in w.tabs && id !in w.requests
    ensures Attributed(owner, Join(w, tab, token, id).0)
  {
    AttributedAfter(owner, w, Join(w, tab, token, id).0);
  }

  lemma RestoreKeepsAttribution(owner: string -> string, w: World, tab: nat, r: Restore)
    requires Attributed(owner, w) && tab in w.tabs && RestoreAttributed(owner, w, r)
    ensures Attributed(owner, SetRestore(w, tab, r))
  {
    var v := SetRestore(w, tab, r);
    assert RestoreAttributed(owner, v, r);
    AttributedAfter(owner, w, v);
  }

  lemma BeginKeepsAttribution(owner: string -> string, w: World, tab: nat, enabled: bool, now: int, id: nat)
    requires Inv(owner, w) && Enabled(w, BeginRestore(tab, enabled, now, id))
    ensures Attributed(owner, Next(w, BeginRestore(tab, enabled, now, id)))
  {
    if w.stored.None? || !enabled {
      RestoreKeepsAttribution(owner, w, tab, Returned(None));
    } else if !NeedsRefresh(w.stored.value, now) {
      RestoreKeepsAttribution(owner, w, tab, Returned(w.stored));
    } else {
      var token := w.stored.value.refresh;
      var (joined, request) := Join(w, tab, token, id);
      JoinKeepsSingleFlight(w, tab, token, id);
      JoinKeepsAttribution(owner, w, tab, token, id);
      assert Pending(joined, tab, token, request);
      RestoreKeepsAttribution(owner, joined, tab, Awaiting(w.stored.value, request));
    }
  }

  lemma ResumeKeepsAttribution(owner: string -> string, w: World, tab: nat, now: int)
    requires Inv(owner, w) && Enabled(w, ResumeRestore(tab, now))
    ensures Attributed(owner, Next(w, ResumeRestore(tab, now)))
  {
    var r := w.tabs[tab].restore;
    assert RestoreAttributed(owner, w, r) && RequestAttributed(owner, w.requests[r.id]);
    var (result, clears) := Restored(w.stored, r.current, w.requests[r.id].phase.outcome, now);
    var v := if clears then w.(stored := None) else w;
    AttributedAfter(owner, w, v);
    RestoreKeepsAttribution(owner, v, tab, Returned(result));
  }

  lemma NextKeepsAttribution(owner: string -> string, w: World, e: Event)
    requires Inv(owner, w) && Enabled(w, e) && Honest(owner, w, e)
    ensures Attributed(owner, Next(w, e))
  {
    match e
    case Refresh(tab, session, _, _, id) =>
      JoinKeepsAttribution(owner, w, tab, Freshest(w.stored, session).refresh, id);
    case BeginRestore(tab, enabled, now, id) => BeginKeepsAttribution(owner, w, tab, enabled, now, id);
    case ResumeRestore(tab, now) => ResumeKeepsAttribution(owner, w, tab, now);
    case RedirectRestore(tab, session) =>
      AttributedAfter(owner, w, w.(stored := Some(session)));
      RestoreKeepsAttribution(owner, w.(stored := Some(session)), tab, Redirected(session));
    case FinishRedirect(tab) =>
      RestoreKeepsAttribution(owner, w, tab, Returned(Some(w.tabs[tab].restore.session)));
    case _ => AttributedAfter(owner, w, Next(w, e));
  }

  lemma {:induction false} RunsKeepInv(owner: string -> string, w: World, events: seq<Event>)
    requires Inv(owner, w) && IsRun(w, events) && HonestRun(owner, w, events)
    ensures Inv(owner, After(w, events))
    decreases |events|
  {
    if events != [] {
      NextKeepsSingleFlight(w, events[0]);
      NextKeepsAttribution(owner, w, events[0]);
      RunsKeepInv(owner, Next(w, events[0]), events[1..]);
    }
  }

  lemma {:induction false} RunsKeepSingleFlight(w: World, events: seq<Event>)
    requires SingleFlight(w) && IsRun(w, events)
    ensures SingleFlight(After(w, events))
    decreases |events|
  {
    if events != [] {
      NextKeepsSingleFlight(w, events[0]);
      RunsKeepSingleFlight(Next(w, events[0]), events[1..]);
    }
  }

  // ----- main results -----

  /** At every moment of every run, whatever the server answers, a tab has at most one outstanding
      refresh per refresh token. */
  lemma OneRefreshPerToken(events: seq<Event>, a: nat, b: nat)
    requires IsRun(EMPTY, events)
    requires var w := After(EMPTY, events);
      && a in w.requests && b in w.requests
      && !w.requests[a].phase.Settled? && !w.requests[b].phase.Settled?
      && w.requests[a].tab == w.requests[b].tab && w.requests[a].token == w.requests[b].token
    ensures a == b
  {
    RunsKeepSingleFlight(EMPTY, events);
    var w := After(EMPTY, events);
    assert Registered(w, w.requests[a].tab, w.requests[a].token, a);
    assert Registered(w, w.requests[b].tab, w.requests[b].token, b);
  }

  // ----- who is signed in -----

  predicate Installs(e: Event) {
    e.SignIn? || e.StepUp? || e.RedirectRestore?
  }

  /** The good reply to a refresh that was sent with the empty token. */
  predicate Blank(w: World, e: Event)
    requires Enabled(w, e)
  {
    e.Reply? && e.outcome.Refreshed? && w.requests[e.id].token == ""
  }

  /** No such reply in the run. */
  predicate Guarded(w: World, events: seq<Event>)
    requires IsRun(w, events)
    decreases |events|
  {
    events == [] || (!Blank(w, events[0]) && Guarded(Next(w, events[0]), events[1..]))
  }

  /** Who the event log says is signed in: the user of the last sign-in, step-up, redirect or reply to
      a refresh of the empty token since the last sign-out. Other replies and restores play no part. */
  function Account(w: World, user: Option<string>, events: seq<Event>): Option<string>
    requires IsRun(w, events)
    decreases |events|
  {
    if events == [] then user
    else Account(Next(w, events[0]), if Blank(w, events[0]) then Some(events[0].outcome.session.user) else SignedIn(user, events[0]), events[1..])
  }

  function SignedIn(user: Option<string>, e: Event): Option<string> {
    match e
    case SignIn(session) => Some(session.user)
    case StepUp(base, _, _, _) => Some(base.user)
    case RedirectRestore(_, session) => Some(session.user)
    case Clear => None
    case _ => user
  }

  /** A step that installs nothing re-creates the stored session or swaps its user if and only if it is
      the reply to a refresh of the empty token and somebody else, or nobody, is stored. */
  lemma StepKeepsUserIff(owner: string -> string, w: World, e: Event)
    requires Inv(owner, w) && Enabled(w, e) && Honest(owner, w, e) && !Installs(e)
    ensures (Next(w, e).stored.Some? ==> w.stored.Some? && Next(w, e).stored.value.user == w.stored.value.user)
       <==> (Blank(w, e) ==> w.stored.Some? && w.stored.value.user == owner(""))
  {
  }

  /** The stored session, if there is one, is always that of the user the log names: no other reply,
      however late and in whatever tab, re-creates a session after a sign-out or swaps the user. */
  lemma {:induction false} StoredUserIsAccount(owner: string -> string, w: World, user: Option<string>, events: seq<Event>)
    requires Inv(owner, w) && IsRun(w, events) && HonestRun(owner, w, events)
    requires w.stored.Some? ==> user == Some(w.stored.value.user)
    ensures var v := After(w, events);
      v.stored.Some? ==> Account(w, user, events) == Some(v.stored.value.user)
    decreases |events|
  {
    if events != [] {
      var e := events[0];
      NextKeepsSingleFlight(w, e);
      NextKeepsAttribution(owner, w, e);
      if Blank(w, e) {
        StoredUserIsAccount(owner, Next(w, e), Some(e.outcome.session.user), events[1..]);
      } else {
        if !Installs(e) {
          StepKeepsUserIff(owner, w, e);
        }
        StoredUserIsAccount(owner, Next(w, e), SignedIn(user, e), events[1..]);
      }
    }
  }

  /** At every moment of the run, the stored user is the one that sign-ins and sign-outs alone name. */
  predicate Kept(w: World, user: Option<string>, events: seq<Event>)
    requires IsRun(w, events)
    decreases |events|
  {
    && (w.stored.Some? ==> user == Some(w.stored.value.user))
    && (events != [] ==> Kept(Next(w, events[0]), SignedIn(user, events[0]), events[1..]))
  }

  /** Replies to refreshes of the empty token come only while its owner is signed in. */
  ghost predicate Welcome(owner: string -> string, w: World, user: Option<string>, events: seq<Event>)
    requires IsRun(w, events)
    decreases |events|
  {
    events == [] || ((Blank(w, events[0]) ==> user == Some(owner("")))
                     && Welcome(owner, Next(w, events[0]), SignedIn(user, events[0]), events[1..]))
  }

  /** Throughout a run sign-ins and sign-outs alone decide who is stored, if and only if replies to
      refreshes of the empty token come only while its owner is signed in. */
  lemma {:induction false} SignInsDecideIff(owner: string -> string, w: World, user: Option<string>, events: seq<Event>)
    requires Inv(owner, w) && IsRun(w, events) && HonestRun(owner, w, events)
    requires w.stored.Some? ==> user == Some(w.stored.value.user)
    ensures Kept(w, user, events) <==> Welcome(owner, w, user, events)
    decreases |events|
  {
    if events != [] {
      var e := events[0];
      NextKeepsSingleFlight(w, e);
      NextKeepsAttribution(owner, w, e);
      if !Installs(e) {
        StepKeepsUserIff(owner, w, e);
      }
      if Blank(w, e) && user != Some(owner("")) {
        assert !Kept(Next(w, e), SignedIn(user, e), events[1..]);
      } else {
        SignInsDecideIff(owner, Next(w, e), SignedIn(user, e), events[1..]);
      }
    }
  }

  /** Nothing is stored at any moment of the run. */
  predicate StaysEmpty(w: World, events: seq<Event>)
    requires IsRun(w, events)
    decreases |events|
  {
    w.stored.None? && (events != [] ==> StaysEmpty(Next(w, events[0]), events[1..]))
  }

  /** After a sign-out the storage stays empty until somebody signs in again, if and only if no reply to a
      refresh of the empty token comes. */
  lemma {:induction false} ClearedStaysClearedIff(w: World, events: seq<Event>)
    requires w.stored.None? && IsRun(w, events)
    requires forall i | 0 <= i < |events| :: !Installs(events[i])
    ensures StaysEmpty(w, events) <==> Guarded(w, events)
    decreases |events|
  {
    if events != [] {
      assert !Installs(events[0]);
      if Blank(w, events[0]) {
        assert !StaysEmpty(Next(w, events[0]), events[1..]);
      } else {
        ClearedStaysClearedIff(Next(w, events[0]), events[1..]);
      }
    }
  }

  /** The event brings in this refresh token. */
  predicate Brings(e: Event, token: string) {
    match e
    case Refresh(_, session, _, _, _) => session.refresh == token
    case SignIn(session) => session.refresh == token
    case StepUp(base, access, refresh, expiresAt) => Elevated(base, access, refresh, expiresAt).refresh == token
    case RedirectRestore(_, session) => session.refresh == token
    case Reply(_, Refreshed(session)) => session.refresh == token
    case _ => false
  }

  /** The token is neither stored nor being exchanged. */
  ghost predicate Unknown(w: World, token: string) {
    !Holds(w.stored, token) && forall id | id in w.requests :: w.requests[id].token != token
  }

  lemma StaysUnknown(w: World, e: Event, token: string)
    requires Enabled(w, e) && Unknown(w, token) && !Brings(e, token)
    ensures Unknown(Next(w, e), token)
  {
  }

  /** Where the empty string is never issued as a refresh token, no such reply comes. */
  lemma {:induction false} IssuedTokensGuard(w: World, events: seq<Event>)
    requires IsRun(w, events) && Unknown(w, "") && forall e | e in events :: !Brings(e, "")
    ensures Guarded(w, events)
    decreases |events|
  {
    if events != [] {
      assert events[0] in events;
      StaysUnknown(w, events[0], "");
      IssuedTokensGuard(Next(w, events[0]), events[1..]);
    }
  }

  /** A refresh of the empty token, answered after whatever happened in between: its session is stored,
      and so comes back after a sign-out or replaces another user's. */
  lemma BlankReplyStores(s: Session, t: Session, between: Event)
    requires s.refresh == "" && (between.Clear? || between.SignIn?)
    ensures var events := [OpenTab(0), SignIn(s), Refresh(0, s, true, 0, 0), between, Reply(0, Refreshed(t))];
      IsRun(EMPTY, events) && After(EMPTY, events).stored == Some(t)
  {
    var first := Next(EMPTY, OpenTab(0));
    var begun := Next(first, SignIn(s));
    var sent := Next(begun, Refresh(0, s, true, 0, 0));
    assert Freshest(begun.stored, s) == s;
    assert sent.requests == map[0 := Request(0, "", Waiting)];
    var late := Reply(0, Refreshed(t));
    RunFrom(Next(sent, between), late, []);
    RunFrom(sent, between, [late] + []);
    RunFrom(begun, Refresh(0, s, true, 0, 0), [between] + ([late] + []));
    RunFrom(first, SignIn(s), [Refresh(0, s, true, 0, 0)] + ([between] + ([late] + [])));
    RunFrom(EMPTY, OpenTab(0), [SignIn(s)] + ([Refresh(0, s, true, 0, 0)] + ([between] + ([late] + []))));
    assert [OpenTab(0), SignIn(s), Refresh(0, s, true, 0, 0), between, late]
      == [OpenTab(0)] + ([SignIn(s)] + ([Refresh(0, s, true, 0, 0)] + ([between] + ([late] + []))));
  }

  /** What a refresh gives its caller, at once or with the reply it waits for, is a session of the
      caller's user. */
  lemma BegunIsForUser(owner: string -> string, w: World, tab: nat, session: Session, force: bool, now: int, id: nat)
    requires Inv(owner, w) && Enabled(w, Refresh(tab, session, force, now, id)) && Owned(owner, session)
    ensures var v := Next(w, Refresh(tab, session, force, now, id));
      match Begun(w, tab, session, force, now, id)
      case Ready(s) => Owned(owner, s) && s.user == session.user
      case WaitFor(k) => k in v.requests && owner(v.requests[k].token) == session.user
  {
    var token := Freshest(w.stored, session).refresh;
    if token in w.tabs[tab].inFlight {
      assert Pending(w, tab, token, w.tabs[tab].inFlight[token]);
    }
  }

  // ----- restore -----

  predicate Restores(e: Event) {
    e.BeginRestore? || e.ResumeRestore?
  }

  /** Whatever the server answered and in whatever state, a session that a restore returns carries
      the refresh token that the storage holds at that moment. */
  lemma RestoreHoldsToken(w: World, e: Event)
    requires Enabled(w, e) && Restores(e)
    ensures var v := Next(w, e);
      v.tabs[e.tab].restore.Returned? && v.tabs[e.tab].restore.result.Some? ==>
        Holds(v.stored, v.tabs[e.tab].restore.result.value.refresh)
  {
  }

  /** In every run, a session that a restore returns carries the refresh token that the storage
      holds at that moment, and is that of the user the log names. */
  lemma RestoreReturnsStored(owner: string -> string, events: seq<Event>, e: Event)
    requires IsRun(EMPTY, events) && HonestRun(owner, EMPTY, events)
    requires Enabled(After(EMPTY, events), e) && Restores(e)
    ensures var v := Next(After(EMPTY, events), e);
      v.tabs[e.tab].restore.Returned? && v.tabs[e.tab].restore.result.Some? ==>
        var s := v.tabs[e.tab].restore.result.value;
        && Holds(v.stored, s.refresh) && s.user == v.stored.value.user
        && Account(EMPTY, None, events) == Some(s.user)
  {
    RunsKeepInv(owner, EMPTY, events);
    StoredUserIsAccount(owner, EMPTY, None, events);
    var w := After(EMPTY, events);
    NextKeepsAttribution(owner, w, e);
  }

  /** A restore whose refresh is over signs out exactly when the server refused the very token that
      is still stored; losing a race against another tab's refresh or sign-in never does. */
  lemma RestoreClearsIff(w: World, tab: nat, now: int)
    requires Enabled(w, ResumeRestore(tab, now))
    ensures var r := w.tabs[tab].restore; var outcome := w.requests[r.id].phase.outcome;
      Next(w, ResumeRestore(tab, now)).stored !=  w.stored
      <==> Holds(w.stored, r.current.refresh) && outcome.Failed? && IsDefinitive(outcome.error)
    ensures var v := Next(w, ResumeRestore(tab, now)); v.stored == w.stored || v.stored.None?
  {
  }

  // ----- the return from an OAuth redirect -----

  /** The refresh token in the storage after an event, told from the token before it. Only sign-ins,
      step-ups, redirects, sign-outs, the reply to a refresh of that very token or of the empty one, and
      a restore that learns it is refused write the storage. */
  function Left(w: World, token: Option<string>, e: Event): Option<string>
    requires Enabled(w, e)
  {
    match e
    case SignIn(session) => Some(session.refresh)
    case StepUp(base, access, refresh, expiresAt) => Some(Elevated(base, access, refresh, expiresAt).refresh)
    case RedirectRestore(_, session) => Some(session.refresh)
    case Clear => None
    case Reply(id, Refreshed(session)) =>
      if w.requests[id].token == "" || token == Some(w.requests[id].token) then Some(session.refresh) else token
    case ResumeRestore(tab, _) =>
      var r := w.tabs[tab].restore;
      var outcome := w.requests[r.id].phase.outcome;
      if outcome.Failed? && IsDefinitive(outcome.error) && token == Some(r.current.refresh) then None else token
    case _ => token
  }

  /** The token that the last writer of a run left. */
  function LastLeft(w: World, token: Option<string>, events: seq<Event>): Option<string>
    requires IsRun(w, events)
    decreases |events|
  {
    if events == [] then token else LastLeft(Next(w, events[0]), Left(w, token, events[0]), events[1..])
  }

  function Token(stored: Option<Session>): Option<string> {
    if stored.Some? then Some(stored.value.refresh) else None
  }

  lemma {:induction false} StorageHoldsLastLeft(w: World, events: seq<Event>)
    requires IsRun(w, events)
    ensures Token(After(w, events).stored) == LastLeft(w, Token(w.stored), events)
    decreases |events|
  {
    if events != [] {
      assert Token(Next(w, events[0]).stored) == Left(w, Token(w.stored), events[0]);
      StorageHoldsLastLeft(Next(w, events[0]), events[1..]);
    }
  }

  /** A restore that waits for its redirect keeps waiting with the same session until it returns. */
  lemma {:induction false} RedirectStays(w: World, tab: nat, s: Session, events: seq<Event>)
    requires IsRun(w, events) && tab in w.tabs && (w.tabs[tab].restore == Redirected(s) || w.tabs[tab].restore.Returned?)
    ensures var v := After(w, events);
      tab in v.tabs && (v.tabs[tab].restore == Redirected(s) || v.tabs[tab].restore.Returned?)
    decreases |events|
  {
    if events != [] {
      RedirectStays(Next(w, events[0]), tab, s, events[1..]);
    }
  }

  /** A restore that comes back from a redirect returns the session it stored on arrival without looking
      again. The storage still holds that session's token if and only if the last writer in between, in
      whatever tab, left it there. */
  lemma RedirectReturnsStoredIff(w: World, tab: nat, s: Session, events: seq<Event>)
    requires Enabled(w, RedirectRestore(tab, s)) && IsRun(Next(w, RedirectRestore(tab, s)), events)
    requires Enabled(After(Next(w, RedirectRestore(tab, s)), events), FinishRedirect(tab))
    ensures var arrived := Next(w, RedirectRestore(tab, s));
      var v := Next(After(arrived, events), FinishRedirect(tab));
      && v.tabs[tab].restore == Returned(Some(s))
      && (Holds(v.stored, s.refresh) <==> LastLeft(arrived, Some(s.refresh), events) == Some(s.refresh))
  {
    var arrived := Next(w, RedirectRestore(tab, s));
    StorageHoldsLastLeft(arrived, events);
    RedirectStays(arrived, tab, s, events);
  }

  /** The event writes the storage when it holds this token. */
  predicate Touches(w: World, token: string, e: Event)
    requires Enabled(w, e)
  {
    match e
    case SignIn(_) => true
    case StepUp(_, _, _, _) => true
    case RedirectRestore(_, _) => true
    case Clear => true
    case Reply(id, outcome) => outcome.Refreshed? && (w.requests[id].token == "" || w.requests[id].token == token)
    case ResumeRestore(tab, _) =>
      var outcome := w.requests[w.tabs[tab].restore.id].phase.outcome;
      outcome.Failed? && IsDefinitive(outcome.error) && w.tabs[tab].restore.current.refresh == token
    case _ => false
  }

  predicate Untouched(w: World, token: string, events: seq<Event>)
    requires IsRun(w, events)
    decreases |events|
  {
    events == [] || (!Touches(w, token, events[0]) && Untouched(Next(w, events[0]), token, events[1..]))
  }

  lemma {:induction false} LeftIffUntouched(w: World, token: string, events: seq<Event>)
    requires IsRun(w, events) && forall e | e in events :: !Brings(e, token)
    ensures LastLeft(w, Some(token), events) == Some(token) <==> Untouched(w, token, events)
    decreases |events|
  {
    if events != [] {
      var left := Left(w, Some(token), events[0]);
      if Touches(w, token, events[0]) {
        assert events[0] in events && left != Some(token);
        NeverBack(Next(w, events[0]), left, token, events[1..]);
      } else {
        LeftIffUntouched(Next(w, events[0]), token, events[1..]);
      }
    }
  }

  lemma {:induction false} NeverBack(w: World, now: Option<string>, token: string, events: seq<Event>)
    requires IsRun(w, events) && now != Some(token) && forall e | e in events :: !Brings(e, token)
    ensures LastLeft(w, now, events) != Some(token)
    decreases |events|
  {
    if events != [] {
      assert events[0] in events;
      NeverBack(Next(w, events[0]), Left(w, now, events[0]), token, events[1..]);
    }
  }

  /** When refresh tokens are issued once, the session that comes back from a redirect is still the
      stored one if and only if nobody touched the storage in between. */
  lemma RedirectSurvivesIff(w: World, tab: nat, s: Session, events: seq<Event>)
    requires Enabled(w, RedirectRestore(tab, s)) && IsRun(Next(w, RedirectRestore(tab, s)), events)
    requires Enabled(After(Next(w, RedirectRestore(tab, s)), events), FinishRedirect(tab))
    requires forall e | e in events :: !Brings(e, s.refresh)
    ensures var arrived := Next(w, RedirectRestore(tab, s));
      Holds(Next(After(arrived, events), FinishRedirect(tab)).stored, s.refresh) <==> Untouched(arrived, s.refresh, events)
  {
    RedirectReturnsStoredIff(w, tab, s, events);
    LeftIffUntouched(Next(w, RedirectRestore(tab, s)), s.refresh, events);
  }

  /** A sign-out in another tab between the two halves: the restore returns a session although
      the storage is empty. */
  lemma RedirectRaceReturnsCleared(s: Session)
    requires s.access != "" && s.refresh != ""
    ensures var events := [OpenTab(0), RedirectRestore(0, s), Clear, FinishRedirect(0)];
      && IsRun(EMPTY, events)
      && After(EMPTY, events).stored.None?
      && 0 in After(EMPTY, events).tabs && After(EMPTY, events).tabs[0].restore == Returned(Some(s))
  {
    var began := Next(EMPTY, OpenTab(0));
    var arrived := Next(began, RedirectRestore(0, s));
    var cleared := Next(arrived, Clear);
    RunFrom(cleared, FinishRedirect(0), []);
    RunFrom(arrived, Clear, [FinishRedirect(0)] + []);
    RunFrom(began, RedirectRestore(0, s), [Clear] + ([FinishRedirect(0)] + []));
    RunFrom(EMPTY, OpenTab(0), [RedirectRestore(0, s)] + ([Clear] + ([FinishRedirect(0)] + [])));
    assert [OpenTab(0), RedirectRestore(0, s), Clear, FinishRedirect(0)]
      == [OpenTab(0)] + ([RedirectRestore(0, s)] + ([Clear] + ([FinishRedirect(0)] + [])));
  }

  lemma RunFrom(w: World, e: Event, events: seq<Event>)
    requires Enabled(w, e) && IsRun(Next(w, e), events)
    ensures IsRun(w, [e] + events) && After(w, [e] + events) == After(Next(w, e), events)
  {
    assert ([e] + events)[1..] == events;
  }

  /** A step-up writes without looking, so unlike a refresh it re-creates a session that was
      signed out while the code was being checked, and replaces another user's. After any run it
      leaves the stored user in place if and only if a session is stored and the log says it is the
      step-up's user who is signed in. */
  lemma StepUpKeepsAccountIff(owner: string -> string, events: seq<Event>, base: Session, access: string,
                              refresh: Option<string>, expiresAt: int)
    requires IsRun(EMPTY, events) && HonestRun(owner, EMPTY, events)
    ensures var w := After(EMPTY, events); var v := Next(w, StepUp(base, access, refresh, expiresAt));
      && v.stored.Some?
      && (w.stored.Some? && v.stored.value.user == w.stored.value.user
          <==> w.stored.Some? && Account(EMPTY, None, events) == Some(base.user))
  {
    RunsKeepInv(owner, EMPTY, events);
    StoredUserIsAccount(owner, EMPTY, None, events);
  }

  /** A sign-out while the code is being checked: the user is signed in again. */
  lemma LateStepUpStoresAgain(s: Session, access: string, refresh: Option<string>, expiresAt: int)
    ensures var events := [SignIn(s), Clear]; var late := StepUp(s, access, refresh, expiresAt);
      && IsRun(EMPTY, events + [late]) && After(EMPTY, events).stored.None?
      && After(EMPTY, events + [late]).stored.Some? && After(EMPTY, events + [late]).stored.value.user == s.user
  {
    var late := StepUp(s, access, refresh, expiresAt);
    var begun := Next(EMPTY, SignIn(s));
    var cleared := Next(begun, Clear);
    RunFrom(cleared, late, []);
    RunFrom(begun, Clear, []);
    RunFrom(begun, Clear, [late] + []);
    RunFrom(EMPTY, SignIn(s), [Clear] + []);
    RunFrom(EMPTY, SignIn(s), [Clear] + ([late] + []));
    assert [SignIn(s), Clear] == [SignIn(s)] + ([Clear] + []);
    assert [SignIn(s), Clear] + [late] == [SignIn(s)] + ([Clear] + ([late] + []));
  }

  // ----- the caller's side -----

  /** `validAuthSession` picks the freshest session and then lets the refresh pick again; the
      second choice changes nothing, and neither ever changes the user. */
  lemma FreshestIsIdempotent(stored: Option<Session>, s: Session)
    ensures Freshest(stored, Freshest(stored, s)) == Freshest(stored, s)
    ensures Freshest(stored, s).user == s.user && Freshest(stored, s).expiresAt >= s.expiresAt
  {
  }

  /** The code, turn by turn: every method is one uninterrupted turn of some tab. */
  class Browser {
    var stored: Option<Session>
    var tabs: map<nat, Tab>
    var requests: map<nat, Request>

    ghost function State(): World
      reads this
    {
      World(stored, tabs, requests)
    }

    constructor ()
      ensures State() == EMPTY
    {
      stored, tabs, requests := None, map[], map[];
    }

    method Open(tab: nat)
      requires Enabled(State(), OpenTab(tab))
      modifies this
      ensures State() == Next(old(State()), OpenTab(tab))
    {
      tabs := tabs[tab := Tab(map[], NotRestoring)];
    }

    /** The synchronous part of a refresh: a session to use at once, or the request to wait for. */
    method RefreshAuthSession(tab: nat, session: Session, force: bool, now: int, newId: nat)
      returns (r: Started)
      requires Enabled(State(), Refresh(tab, session, force, now, newId))
      modifies this
      ensures State() == Next(old(State()), Refresh(tab, session, force, now, newId))
      ensures r == Begun(old(State()), tab, session, force, now, newId)
      ensures r.Ready? ==> r.session == Freshest(old(stored), session) && !force && !NeedsRefresh(r.session, now)
      ensures r.WaitFor? ==> Registered(State(), tab, Freshest(old(stored), session).refresh, r.id)
    {
      var freshest := session;
      if stored.Some? && stored.value.user == session.user && stored.value.expiresAt > session.expiresAt {
        freshest := stored.value;
      }
      if !force && !NeedsRefresh(freshest, now) {
        return Ready(freshest);
      }
      var inFlight := tabs[tab].inFlight;
      if freshest.refresh in inFlight {
        return WaitFor(inFlight[freshest.refresh]);
      }
      requests := requests[newId := Request(tab, freshest.refresh, Waiting)];
      tabs := tabs[tab := tabs[tab].(inFlight := inFlight[freshest.refresh := newId])];
      return WaitFor(newId);
    }

    method ValidAuthSession(tab: nat, session: Session, force: bool, now: int, newId: nat)
      returns (r: Started)
      requires Enabled(State(), Refresh(tab, session, force, now, newId))
      modifies this
      ensures State() == Next(old(State()), Refresh(tab, session, force, now, newId))
      ensures r == Begun(old(State()), tab, session, force, now, newId)
      ensures r.Ready? ==> r.session == Freshest(old(stored), session)
      ensures r.WaitFor? ==> Registered(State(), tab, Freshest(old(stored), session).refresh, r.id)
    {
      var freshest := session;
      if stored.Some? && stored.value.user == session.user && stored.value.expiresAt > session.expiresAt {
        freshest := stored.value;
      }
      FreshestIsIdempotent(stored, session);
      if force || NeedsRefresh(freshest, now) {
        r := RefreshAuthSession(tab, freshest, force, now, newId);
      } else {
        r := Ready(freshest);
      }
    }

    /** The end of `authRequest` for a refresh. */
    method ReceiveReply(id: nat, outcome: Outcome)
      requires Enabled(State(), Reply(id, outcome))
      modifies this
      ensures State() == Next(old(State()), Reply(id, outcome))
    {
      if outcome.Refreshed? {
        var expected := requests[id].token;
        if expected == "" || (stored.Some? && stored.value.refresh == expected) {
          stored := Some(outcome.session);
        }
      }
      requests := requests[id := requests[id].(phase := Answered(outcome))];
    }

    /** The `finally` of a refresh. */
    method FinishRequest(id: nat)
      requires Enabled(State(), Settle(id))
      modifies this
      ensures State() == Next(old(State()), Settle(id))
    {
      var r := requests[id];
      var t := tabs[r.tab];
      if r.token in t.inFlight && t.inFlight[r.token] == id {
        t := t.(inFlight := t.inFlight - {r.token});
      }
      tabs := tabs[r.tab := t];
      requests := requests[id := r.(phase := Settled(r.phase.outcome))];
    }

    method FinishStepUp(base: Session, access: string, refresh: Option<string>, expiresAt: int)
      modifies this`stored
      ensures State() == Next(old(State()), StepUp(base, access, refresh, expiresAt))
    {
      var token := if refresh.Some? then refresh.value else base.refresh;
      stored := Some(base.(access := access, refresh := token, expiresAt := expiresAt));
    }

    method ClearAuthSession()
      modifies this`stored
      ensures State() == Next(old(State()), Clear)
    {
      stored := None;
    }

    /** A restore without a pending redirect, up to its first wait. */
    method RestoreAuthSession(tab: nat, enabled: bool, now: int, newId: nat)
      requires Enabled(State(), BeginRestore(tab, enabled, now, newId))
      modifies this
      ensures State() == Next(old(State()), BeginRestore(tab, enabled, now, newId))
    {
      if stored.None? || !enabled {
        tabs := tabs[tab := tabs[tab].(restore := Returned(None))];
        return;
      }
      var current := stored.value;
      if current.expiresAt > now + SESSION_REFRESH_MARGIN_MS {
        tabs := tabs[tab := tabs[tab].(restore := Returned(Some(current)))];
        return;
      }
      var waiting := RefreshAuthSession(tab, current, false, now, newId);
      tabs := tabs[tab := tabs[tab].(restore := Awaiting(current, waiting.id))];
    }

    /** The rest of a restore, after the refresh it waited for. */
    method ResumeRestoreSession(tab: nat, now: int)
      requires Enabled(State(), ResumeRestore(tab, now))
      modifies this
      ensures State() == Next(old(State()), ResumeRestore(tab, now))
    {
      var current := tabs[tab].restore.current;
      var outcome := requests[tabs[tab].restore.id].phase.outcome;
      var result: Option<Session> := None;
      if outcome.Refreshed? {
        if stored.Some? && stored.value.refresh == outcome.session.refresh {
          result := Some(outcome.session);
        } else if stored.Some? && stored.value.expiresAt > now {
          result := stored;
        }
      } else if stored.None? || stored.value.refresh != current.refresh {
        if stored.Some? && stored.value.expiresAt > now {
          result := stored;
        }
      } else if IsDefinitive(outcome.error) {
        ClearAuthSession();
      } else if SurvivesFailure(current, outcome.error, now) {
        result := Some(current);
      }
      tabs := tabs[tab := tabs[tab].(restore := Returned(result))];
    }
  }
}
