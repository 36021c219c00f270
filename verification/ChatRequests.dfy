/** The chat page: one request at a time, streamed updates, stop, reset, and replies that may come
    after the conversation they belong to has been dropped. Requests are numbered as they start. */
module ChatRequests {
  import opened Common

  datatype File = File(name: string, text: string)

  /** A user message: the displayed prompt and the documents folded into it. */
  datatype Content = Content(prompt: string, files: seq<File>)

  datatype Role = Developer | User | Assistant

  datatype Message = FromDeveloper(text: string) | FromUser(content: Content) | FromAssistant(text: string)

  datatype Turn = Turn(request: nat, content: Content, reply: string)

  datatype Pending = Pending(content: Content, text: string)

  datatype Problem = Problem(message: string, stopped: bool)

  /** A request under way, with what `send` captured and the latest update it saw. */
  datatype Frame = Frame(clean: string, content: Content, latest: Option<string>, aborted: bool)

  /** What a request carried: the instructions in force and the whole message list. */
  datatype Sent = Sent(instructions: string, messages: seq<Message>)

  datatype Chat = Chat(
    prompt: string,
    files: seq<File>,
    instructions: string,
    turns: seq<Turn>,
    session: nat,
    error: Option<Problem>,
    pending: Option<Pending>,
    interrupted: Option<Pending>,
    active: Option<nat>,
    frames: map<nat, Frame>,
    started: nat,
    sent: seq<Sent>)

  datatype Event =
    | Edit(prompt: string, files: seq<File>)
    | Instruct(instructions: string)
    | Send(available: bool, filesBusy: bool)
    | Update(request: nat, text: string)
    | Stop
    | Reset(keepDraft: bool)
    | Reply(request: nat, text: string)
    | Break(request: nat, message: string)

  const NO_TEXT := "The model finished without returning text."
  const STOPPED := "aborted"
  const FILES_ONLY := "Analyze the attached files."

  const START := Chat("", [], "", [], 0, None, None, None, None, map[], 0, [])

  // ----- messages -----

  /** White space and line ends, as `trim` in ECMAScript removes them. */
  predicate IsSpace(c: char) {
    || '\t' <= c <= '\r' || c == ' ' || c == '\U{00A0}' || c == '\U{1680}'
    || '\U{2000}' <= c <= '\U{200A}' || c == '\U{2028}' || c == '\U{2029}'
    || c == '\U{202F}' || c == '\U{205F}' || c == '\U{3000}' || c == '\U{FEFF}'
  }

  function TrimStart(s: string): string {
    if s != [] && IsSpace(s[0]) then TrimStart(s[1..]) else s
  }

  function TrimEnd(s: string): string {
    if s != [] && IsSpace(s[|s| - 1]) then TrimEnd(s[..|s| - 1]) else s
  }

  function Trim(s: string): string {
    TrimEnd(TrimStart(s))
  }

  function RoleOf(m: Message): Role {
    match m
    case FromDeveloper(_) => Developer
    case FromUser(_) => User
    case FromAssistant(_) => Assistant
  }

  function History(turns: seq<Turn>): seq<Message> {
    if turns == [] then []
    else
      var t := turns[|turns| - 1];
      History(turns[..|turns| - 1]) + [FromUser(t.content), FromAssistant(t.reply)]
  }

  function Preface(instructions: string): seq<Message> {
    if Trim(instructions) == "" then [] else [FromDeveloper(Trim(instructions))]
  }

  function Messages(instructions: string, turns: seq<Turn>, content: Content): seq<Message> {
    Preface(instructions) + History(turns) + [FromUser(content)]
  }

  lemma {:induction false} HistoryAt(turns: seq<Turn>, i: nat)
    requires i < |turns|
    ensures |History(turns)| == 2 * |turns|
    ensures History(turns)[2 * i] == FromUser(turns[i].content)
    ensures History(turns)[2 * i + 1] == FromAssistant(turns[i].reply)
    decreases |turns|
  {
    var k := |turns| - 1;
    if k == 0 {
      assert turns[..k] == [];
    } else {
      HistoryAt(turns[..k], if i < k then i else 0);
    }
  }

  lemma {:induction false} HistorySize(turns: seq<Turn>)
    ensures |History(turns)| == 2 * |turns|
  {
    if turns != [] {
      HistoryAt(turns, 0);
    }
  }

  /** The list is the optional instructions, one user and assistant pair for each turn with that
      turn's own contents, and last the new user message. */
  lemma {:induction false} MessagesFollowTurns(instructions: string, turns: seq<Turn>, content: Content)
    ensures var ms, p := Messages(instructions, turns, content), |Preface(instructions)|;
            && p <= 1 && |ms| == p + 2 * |turns| + 1
            && (p == 1 <==> Trim(instructions) != "") && (p == 1 ==> ms[0] == FromDeveloper(Trim(instructions)))
            && (forall i | 0 <= i < |turns| :: ms[p + 2 * i] == FromUser(turns[i].content)
                                            && ms[p + 2 * i + 1] == FromAssistant(turns[i].reply))
            && ms[|ms| - 1] == FromUser(content)
  {
    var ms, p := Messages(instructions, turns, content), |Preface(instructions)|;
    HistorySize(turns);
    forall i | 0 <= i < |turns|
      ensures ms[p + 2 * i] == FromUser(turns[i].content) && ms[p + 2 * i + 1] == FromAssistant(turns[i].reply)
    {
      HistoryAt(turns, i);
    }
  }

  /** After the optional instructions, user and assistant alternate strictly, user first and last. */
  lemma {:induction false} MessagesAlternate(instructions: string, turns: seq<Turn>, content: Content, i: nat)
    requires |Preface(instructions)| <= i < |Messages(instructions, turns, content)|
    ensures var ms, p := Messages(instructions, turns, content), |Preface(instructions)|;
            && |ms| == p + 2 * |turns| + 1
            && RoleOf(ms[i]) == if (i - p) % 2 == 0 then User else Assistant
  {
    HistorySize(turns);
    var k := i - |Preface(instructions)|;
    if k < 2 * |turns| {
      assert Messages(instructions, turns, content)[i] == History(turns)[k];
      HistoryAt(turns, k / 2);
      assert k == 2 * (k / 2) || k == 2 * (k / 2) + 1;
    }
  }

  // ----- one step -----

  predicate Enabled(c: Chat, e: Event) {
    match e
    case Update(n, _) => n in c.frames
    case Reply(n, _) => n in c.frames
    case Break(n, _) => n in c.frames
    case _ => true
  }

  predicate MaySend(c: Chat, available: bool, filesBusy: bool) {
    available && (Trim(c.prompt) != "" || c.files != []) && c.active.None? && !filesBusy
  }

  function Draft(c: Chat): Content {
    Content(if Trim(c.prompt) != "" then Trim(c.prompt) else FILES_ONLY, c.files)
  }

  function Sends(c: Chat): Chat {
    var content := Draft(c);
    c.(active := Some(c.started), started := c.started + 1,
       frames := c.frames[c.started := Frame(Trim(c.prompt), content, None, false)],
       sent := c.sent + [Sent(c.instructions, Messages(c.instructions, c.turns, content))],
       pending := Some(Pending(content, "")), prompt := "", files := [], error := None, interrupted := None)
  }

  function Updates(c: Chat, n: nat, text: string): Chat
    requires n in c.frames
  {
    if c.active != Some(n) || c.frames[n].aborted then c
    else
      c.(frames := c.frames[n := c.frames[n].(latest := Some(text))],
         pending := if c.pending.Some? then Some(c.pending.value.(text := text)) else None)
  }

  /** The request ends badly: the draft comes back, with any partial answer beside it. */
  function Fails(c: Chat, n: nat, message: string): Chat
    requires n in c.frames
  {
    if c.active != Some(n) then c
    else
      var f := c.frames[n];
      c.(prompt := f.clean, files := f.content.files,
         interrupted := if f.latest.Some? && f.latest.value != "" then Some(Pending(f.content, f.latest.value)) else c.interrupted,
         error := Some(Problem(message, f.aborted)), active := None, pending := None)
  }

  function Replies(c: Chat, n: nat, text: string): Chat
    requires n in c.frames
  {
    if c.active != Some(n) then c
    else if c.frames[n].aborted then Fails(c, n, STOPPED)
    else if Trim(text) == "" then Fails(c, n, NO_TEXT)
    else c.(turns := c.turns + [Turn(n, c.frames[n].content, text)], active := None, pending := None)
  }

  function Aborts(c: Chat): Chat {
    if c.active.Some? && c.active.value in c.frames
    then c.(frames := c.frames[c.active.value := c.frames[c.active.value].(aborted := true)])
    else c
  }

  function Resets(c: Chat, keepDraft: bool): Chat {
    Aborts(c).(active := None, turns := [], error := None, pending := None, interrupted := None, session := c.session + 1,
               prompt := if keepDraft then c.prompt else "", files := if keepDraft then c.files else [])
  }

  /** A request that has ended leaves the set of open ones. */
  function Next(c: Chat, e: Event): Chat
    requires Enabled(c, e)
  {
    match e
    case Edit(prompt, files) => c.(prompt := prompt, files := files)
    case Instruct(instructions) => c.(instructions := instructions)
    case Send(available, filesBusy) => if MaySend(c, available, filesBusy) then Sends(c) else c
    case Update(n, text) => Updates(c, n, text)
    case Stop => Aborts(c)
    case Reset(keepDraft) => Resets(c, keepDraft)
    case Reply(n, text) => var d := Replies(c, n, text); d.(frames := d.frames - {n})
    case Break(n, message) => var d := Fails(c, n, message); d.(frames := d.frames - {n})
  }

  ghost predicate Runs(c: Chat, events: seq<Event>, d: Chat)
    decreases |events|
  {
    if events == [] then d == c
    else Enabled(c, events[0]) && Runs(Next(c, events[0]), events[1..], d)
  }

  // ----- what every run keeps -----

  /** A pending turn is shown exactly while a request is active, and it shows that request. */
  ghost predicate Shown(c: Chat) {
    match c.active
    case None => c.pending.None?
    case Some(n) =>
      && n in c.frames
      && c.pending == Some(Pending(c.frames[n].content, if c.frames[n].latest.Some? then c.frames[n].latest.value else ""))
  }

  /** Requests are numbered in the order they were sent, and turns in the order of their requests. */
  ghost predicate Numbered(c: Chat) {
    && c.started == |c.sent|
    && (forall n | n in c.frames :: n < c.started)
    && (forall i | 0 <= i < |c.turns| :: c.turns[i].request < c.started)
    && (forall i, j | 0 <= i < j < |c.turns| :: c.turns[i].request < c.turns[j].request)
    && (c.active.Some? ==> forall i | 0 <= i < |c.turns| :: c.turns[i].request < c.active.value)
  }

  /** Request `n` was asked with exactly these turns before it. */
  ghost predicate Asked(sent: seq<Sent>, n: nat, before: seq<Turn>, content: Content) {
    n < |sent| && sent[n].messages == Messages(sent[n].instructions, before, content)
  }

  /** Each answer was given to the conversation above it. */
  ghost predicate Answers(sent: seq<Sent>, turns: seq<Turn>) {
    forall i | 0 <= i < |turns| :: Asked(sent, turns[i].request, turns[..i], turns[i].content)
  }

  /** The page shows only such answers, and the active request was asked in the conversation shown. */
  ghost predicate Coherent(c: Chat) {
    && Answers(c.sent, c.turns)
    && (c.active.Some? && c.active.value in c.frames ==> Asked(c.sent, c.active.value, c.turns, c.frames[c.active.value].content))
  }

  ghost predicate Inv(c: Chat) {
    Shown(c) && Numbered(c) && Coherent(c)
  }

  lemma NextKeepsShown(c: Chat, e: Event)
    requires Shown(c) && Numbered(c) && Enabled(c, e)
    ensures Shown(Next(c, e))
  {}

  lemma NextKeepsNumbered(c: Chat, e: Event)
    requires Shown(c) && Numbered(c) && Enabled(c, e)
    ensures Numbered(Next(c, e))
  {
    if e.Reply? {
      ReplyKeepsNumbered(c, e.request, e.text);
    }
  }

  lemma ReplyKeepsNumbered(c: Chat, n: nat, text: string)
    requires Shown(c) && Numbered(c) && n in c.frames
    ensures Numbered(Next(c, Reply(n, text)))
  {
    var d := Next(c, Reply(n, text));
    if d.turns != c.turns {
      assert d.turns == c.turns + [Turn(n, c.frames[n].content, text)];
    }
  }

  lemma AnswersMore(sent: seq<Sent>, turns: seq<Turn>, t: Turn)
    requires Answers(sent, turns) && Asked(sent, t.request, turns, t.content)
    ensures Answers(sent, turns + [t])
  {
    var more := turns + [t];
    forall i | 0 <= i < |more| ensures Asked(sent, more[i].request, more[..i], more[i].content) {
      if i < |turns| {
        assert more[..i] == turns[..i];
      } else {
        assert more[..i] == turns;
      }
    }
  }

  lemma SendKeepsAnswers(sent: seq<Sent>, turns: seq<Turn>, x: Sent)
    requires Answers(sent, turns)
    ensures Answers(sent + [x], turns)
  {
    forall i | 0 <= i < |turns| ensures Asked(sent + [x], turns[i].request, turns[..i], turns[i].content) {
      assert Asked(sent, turns[i].request, turns[..i], turns[i].content);
    }
  }

  lemma SendKeepsCoherent(c: Chat)
    requires Answers(c.sent, c.turns) && c.started == |c.sent|
    ensures Coherent(Sends(c))
  {
    SendKeepsAnswers(c.sent, c.turns, Sent(c.instructions, Messages(c.instructions, c.turns, Draft(c))));
  }

  lemma ReplyKeepsCoherent(c: Chat, n: nat, text: string)
    requires Coherent(c) && n in c.frames
    ensures Coherent(Next(c, Reply(n, text)))
  {
    var d := Next(c, Reply(n, text));
    if c.active != Some(n) {
      assert d == c.(frames := c.frames - {n});
    } else {
      assert d.active.None? && d.sent == c.sent;
      AnswersMore(c.sent, c.turns, Turn(n, c.frames[n].content, text));
    }
  }

  lemma NextKeepsCoherent(c: Chat, e: Event)
    requires Inv(c) && Enabled(c, e)
    ensures Coherent(Next(c, e))
  {
    match e
    case Send(available, filesBusy) => SendKeepsCoherent(c);
    case Reply(n, text) => ReplyKeepsCoherent(c, n, text);
    case _ =>
  }

  lemma NextKeepsInv(c: Chat, e: Event)
    requires Inv(c) && Enabled(c, e)
    ensures Inv(Next(c, e))
  {
    NextKeepsShown(c, e);
    NextKeepsNumbered(c, e);
    NextKeepsCoherent(c, e);
  }

  lemma {:induction false} RunsKeepInv(c: Chat, events: seq<Event>, d: Chat)
    requires Inv(c) && Runs(c, events, d)
    ensures Inv(d)
    decreases |events|
  {
    if events != [] {
      NextKeepsInv(c, events[0]);
      RunsKeepInv(Next(c, events[0]), events[1..], d);
    }
  }

  /** In every reachable state: a turn is pending exactly when a request is active, and every answer
      on the page was given to exactly the conversation above it. */
  lemma PageIsCoherent(events: seq<Event>, d: Chat)
    requires Runs(START, events, d)
    ensures d.pending.Some? <==> d.active.Some?
    ensures Answers(d.sent, d.turns)
  {
    RunsKeepInv(START, events, d);
  }

  // ----- late replies -----

  /** Only requests from number `from` on can show on the page. */
  ghost predicate Since(c: Chat, from: nat) {
    && from <= c.started
    && (c.active.Some? ==> from <= c.active.value)
    && (forall i | 0 <= i < |c.turns| :: from <= c.turns[i].request)
  }

  lemma {:induction false} RunsStaySince(c: Chat, events: seq<Event>, d: Chat, from: nat)
    requires Since(c, from) && Runs(c, events, d)
    ensures Since(d, from)
    decreases |events|
  {
    if events != [] {
      assert Since(Next(c, events[0]), from);
      RunsStaySince(Next(c, events[0]), events[1..], d, from);
    }
  }

  /** After a reset no reply to an earlier request ever adds a turn, however late it comes. */
  lemma ResetDropsLateReplies(c: Chat, keepDraft: bool, events: seq<Event>, d: Chat)
    requires Runs(Next(c, Reset(keepDraft)), events, d)
    ensures forall i | 0 <= i < |d.turns| :: d.turns[i].request >= c.started
  {
    RunsStaySince(Next(c, Reset(keepDraft)), events, d, c.started);
  }

  // ----- the draft -----

  /** Request `n`, while it is active, still holds this draft. */
  ghost predicate Holds(c: Chat, n: nat, clean: string, files: seq<File>) {
    && n < c.started
    && (c.active == Some(n) ==> n in c.frames && c.frames[n].clean == clean && c.frames[n].content.files == files)
  }

  lemma {:induction false} RunsHold(c: Chat, events: seq<Event>, d: Chat, n: nat, clean: string, files: seq<File>)
    requires Holds(c, n, clean, files) && Runs(c, events, d)
    ensures Holds(d, n, clean, files)
    decreases |events|
  {
    if events != [] {
      assert Holds(Next(c, events[0]), n, clean, files);
      RunsHold(Next(c, events[0]), events[1..], d, n, clean, files);
    }
  }

  /** Whatever happens between sending and a failure, the failure gives the sent draft back. */
  lemma FailureRestoresDraft(c: Chat, available: bool, filesBusy: bool, events: seq<Event>, d: Chat, message: string)
    requires MaySend(c, available, filesBusy)
    requires Runs(Next(c, Send(available, filesBusy)), events, d) && d.active == Some(c.started)
    ensures c.started in d.frames
    ensures var e := Next(d, Break(c.started, message));
            e.prompt == Trim(c.prompt) && e.files == c.files && e.active.None? && e.turns == d.turns
  {
    RunsHold(Next(c, Send(available, filesBusy)), events, d, c.started, Trim(c.prompt), c.files);
  }

  // ----- the page as the code keeps it -----

  class ChatPage {
    var prompt: string
    var files: seq<File>
    var instructions: string
    var turns: seq<Turn>
    var session: nat
    var error: Option<Problem>
    var pending: Option<Pending>
    var interrupted: Option<Pending>
    var active: Option<nat>
    var frames: map<nat, Frame>
    var started: nat
    ghost var sent: seq<Sent>

    ghost function State(): Chat
      reads this
    {
      Chat(prompt, files, instructions, turns, session, error, pending, interrupted, active, frames, started, sent)
    }

    constructor ()
      ensures State() == START
    {
      prompt, files, instructions, turns, session := "", [], "", [], 0;
      error, pending, interrupted, active, frames := None, None, None, None, map[];
      started, sent := 0, [];
    }

    /** Sends the draft; the result is the list of messages to post, if a request started. */
    method Submit(available: bool, filesBusy: bool) returns (posted: Option<seq<Message>>)
      modifies this
      ensures State() == Next(old(State()), Send(available, filesBusy))
      ensures posted.Some? <==> MaySend(old(State()), available, filesBusy)
      ensures posted.Some? ==> |sent| > 0 && posted.value == sent[|sent| - 1].messages
    {
      var clean := Trim(prompt);
      if !available || (clean == "" && files == []) || active.Some? || filesBusy {
        return None;
      }
      var content := Content(if clean != "" then clean else FILES_ONLY, files);
      var messages := Messages(instructions, turns, content);
      Begin(clean, content, messages);
      posted := Some(messages);
    }

    method SetDraft(text: string, attached: seq<File>)
      modifies `prompt, `files
      ensures prompt == text && files == attached
    {
      prompt, files := text, attached;
    }

    method ClearNotices()
      modifies `error, `interrupted
      ensures error.None? && interrupted.None?
    {
      error, interrupted := None, None;
    }

    /** The active request is over. */
    method Release()
      modifies `active, `pending
      ensures active.None? && pending.None?
    {
      active, pending := None, None;
    }

    /** Marks the request active, shows it and clears the draft. */
    method Begin(clean: string, content: Content, messages: seq<Message>)
      modifies this
      ensures State() == old(State()).(
        active := Some(old(started)), started := old(started) + 1,
        frames := old(frames)[old(started) := Frame(clean, content, None, false)],
        sent := old(sent) + [Sent(instructions, messages)],
        pending := Some(Pending(content, "")), prompt := "", files := [], error := None, interrupted := None)
    {
      frames := frames[started := Frame(clean, content, None, false)];
      active, started := Some(started), started + 1;
      pending := Some(Pending(content, ""));
      SetDraft("", []);
      ClearNotices();
      sent := sent + [Sent(instructions, messages)];
    }

    method OnUpdate(n: nat, text: string)
      requires n in frames
      modifies this
      ensures State() == Next(old(State()), Update(n, text))
    {
      if active != Some(n) || frames[n].aborted {
        return;
      }
      frames := frames[n := frames[n].(latest := Some(text))];
      if pending.Some? {
        pending := Some(pending.value.(text := text));
      }
    }

    method StopRequest()
      modifies this
      ensures State() == Next(old(State()), Stop)
    {
      if active.Some? && active.value in frames {
        frames := frames[active.value := frames[active.value].(aborted := true)];
      }
    }

    /** What the code does with an error: nothing unless the request is still the active one. */
    method OnError(n: nat, message: string)
      requires n in frames
      modifies this
      ensures State() == Next(old(State()), Break(n, message))
    {
      if active == Some(n) {
        Recover(frames[n], message);
      }
      frames := frames - {n};
    }

    /** Gives the draft back and shows the partial answer and the error. */
    method Recover(f: Frame, message: string)
      modifies `prompt, `files, `interrupted, `error, `active, `pending
      ensures prompt == f.clean && files == f.content.files
      ensures interrupted == if f.latest.Some? && f.latest.value != "" then Some(Pending(f.content, f.latest.value)) else old(interrupted)
      ensures error == Some(Problem(message, f.aborted)) && active.None? && pending.None?
    {
      SetDraft(f.clean, f.content.files);
      if f.latest.Some? && f.latest.value != "" {
        interrupted := Some(Pending(f.content, f.latest.value));
      }
      error := Some(Problem(message, f.aborted));
      Release();
    }

    method OnReply(n: nat, text: string)
      requires n in frames
      modifies this
      ensures State() == Next(old(State()), Reply(n, text))
    {
      var f := frames[n];
      if active != Some(n) {
        frames := frames - {n};
        return;
      }
      if f.aborted {
        OnError(n, STOPPED);
        return;
      }
      if Trim(text) == "" {
        OnError(n, NO_TEXT);
        return;
      }
      turns := turns + [Turn(n, f.content, text)];
      Release();
      frames := frames - {n};
    }

    method ResetConversation(keepDraft: bool)
      modifies this
      ensures State() == Next(old(State()), Reset(keepDraft))
    {
      StopRequest();
      Release();
      turns := [];
      if !keepDraft {
        SetDraft("", []);
      }
      ClearNotices();
      session := session + 1;
    }
  }
}
