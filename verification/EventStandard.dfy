/** The event-stream format of section 9.2.6 of the WHATWG HTML standard, and exactly which streams
    the benchmark's reader reads as the standard says. */
module EventStandard {
  import opened Common
  import opened EventStream

  // ----- the standard -----

  const FIELD: seq<byte> := [100, 97, 116, 97]  // "data"
  const COLON: byte := 58
  const SPACE: byte := 32

  /** The value of a `data` field: what follows the colon, without one leading space; a bare field name
      has an empty value. */
  function Data(line: seq<byte>): Option<seq<byte>> {
    if FIELD + [COLON] <= line then
      var v := line[5..];
      Some(if v != [] && v[0] == SPACE then v[1..] else v)
    else if line == FIELD then Some([])
    else None
  }

  /** The data of the events dispatched so far, and the data buffer of the current event. */
  datatype State = State(dispatched: seq<seq<byte>>, buffer: Option<seq<byte>>)

  /** A blank line dispatches the buffer; a data field adds a line to it. */
  function Feed(st: State, line: seq<byte>): State {
    if line == [] then
      State(if st.buffer.Some? then st.dispatched + [st.buffer.value] else st.dispatched, None)
    else if Data(line).Some? then
      st.(buffer := Some(if st.buffer.Some? then st.buffer.value + [LF] + Data(line).value else Data(line).value))
    else st
  }

  function Interpret(lines: seq<seq<byte>>): State {
    if lines == [] then State([], None) else Feed(Interpret(lines[..|lines| - 1]), lines[|lines| - 1])
  }

  /** The data of all events of a stream; an event that no blank line ends is dropped. */
  function Standard(s: seq<byte>): seq<seq<byte>> {
    Interpret(Lines(s)).dispatched
  }

  /** All but the closing mark of the chat protocol. */
  function Open(payloads: seq<seq<byte>>): seq<seq<byte>> {
    if payloads == [] then []
    else
      var last := payloads[|payloads| - 1];
      Open(payloads[..|payloads| - 1]) + if last == DONE then [] else [last]
  }

  lemma OpenMore(a: seq<seq<byte>>, x: seq<byte>)
    ensures Open(a + [x]) == Open(a) + if x == DONE then [] else [x]
  {
    assert (a + [x])[..|a|] == a;
  }

  lemma {:induction false} OpenConcat(a: seq<seq<byte>>, b: seq<seq<byte>>)
    ensures Open(a + b) == Open(a) + Open(b)
    decreases |b|
  {
    if b == [] {
      assert a + b == a;
    } else {
      var k := |b| - 1;
      OpenConcat(a, b[..k]);
      assert a + b == (a + b[..k]) + [b[k]] && b == b[..k] + [b[k]];
      OpenMore(a + b[..k], b[k]);
      OpenMore(b[..k], b[k]);
    }
  }

  lemma {:induction false} OpenIsEmptyIff(a: seq<seq<byte>>)
    ensures Open(a) == [] <==> forall x | x in a :: x == DONE
    decreases |a|
  {
    if a != [] {
      var k := |a| - 1;
      OpenIsEmptyIff(a[..k]);
      assert a[k] in a && forall x | x in a[..k] :: x in a;
      assert forall x | x in a :: x in a[..k] || x == a[k];
    }
  }

  // ----- lines after a line feed are on their own -----

  predicate EndsInFeed(a: seq<byte>) {
    a == [] || a[|a| - 1] == LF
  }

  lemma {:induction false} LinesConcat(a: seq<byte>, b: seq<byte>)
    requires EndsInFeed(a)
    ensures Lines(a + b) == Lines(a) + Lines(b)
    decreases |a|
  {
    if a == [] {
      assert a + b == b;
    } else {
      FeedIsFound(a);
      HeadStays(a, b);
      LineSplits(a);
      LineSplits(a + b);
      LinesConcat(Later(a), b);
      Associative([Head(a)], Lines(Later(a)), Lines(b));
    }
  }

  lemma FeedIsFound(a: seq<byte>)
    requires a != [] && EndsInFeed(a)
    ensures LineEnd(a) < |a| && !EndsInReturn(a) && EndsInFeed(Later(a))
  {
    if LineEnd(a) == |a| {
      BeforeEnd(a, 0, |a| - 1);
    }
  }

  lemma TerminatedLines(s: seq<byte>)
    ensures Lines(s) == Lines(Terminated(s)) + Lines(Tail(s))
  {
    var a, b := Terminated(s), Tail(s);
    TerminatedJoins(s, a, b);
    TerminatedEnds(s);
    LinesConcat(a, b);
  }

  lemma TerminatedJoins(s: seq<byte>, a: seq<byte>, b: seq<byte>)
    requires a == Terminated(s) && b == Tail(s)
    ensures a + b == s
  {
    TailIsSuffix(s);
  }

  /** The terminated part is empty or ends in a blank line. */
  lemma {:induction false} TerminatedEnds(s: seq<byte>)
    ensures var t := Terminated(s); EndsInFeed(t) && (t != [] ==> |t| >= 2 && EndsInFeed(t[..|t| - 1]))
    decreases |s|
  {
    if FirstBreak(s) == |s| {
      NoEvents(s);
    } else {
      TerminatedSplits(s);
      TerminatedEnds(Rest(s));
      BreakEnds(First(s), Terminated(Rest(s)));
    }
  }

  lemma BreakEnds(a: seq<byte>, t: seq<byte>)
    requires EndsInFeed(t) && (t != [] ==> |t| >= 2 && EndsInFeed(t[..|t| - 1]))
    ensures var u := a + BREAK + t; |u| >= 2 && EndsInFeed(u) && EndsInFeed(u[..|u| - 1])
  {
    var u := a + BREAK + t;
    if |t| >= 2 {
      assert u[|u| - 2] == t[|t| - 2] && t[..|t| - 1][|t| - 2] == t[|t| - 2];
    }
  }

  predicate EndsBlank(lines: seq<seq<byte>>) {
    lines == [] || lines[|lines| - 1] == []
  }

  lemma TerminatedIsClosed(s: seq<byte>)
    ensures EndsBlank(Lines(Terminated(s)))
  {
    var t := Terminated(s);
    TerminatedEnds(s);
    if t != [] {
      var k := |t| - 1;
      assert t == t[..k] + [LF];
      LinesConcat(t[..k], [LF]);
      assert [LF] + [] == [LF];
      BlankLine([]);
    }
  }

  // ----- interpreting in two parts -----

  lemma InterpretMore(lines: seq<seq<byte>>, x: seq<byte>)
    ensures Interpret(lines + [x]) == Feed(Interpret(lines), x)
  {
    assert (lines + [x])[..|lines|] == lines;
  }

  lemma BlankClosesBuffer(lines: seq<seq<byte>>)
    requires EndsBlank(lines)
    ensures Interpret(lines).buffer == None
  {
  }

  lemma {:induction false} InterpretConcat(a: seq<seq<byte>>, b: seq<seq<byte>>)
    requires Interpret(a).buffer == None
    ensures Interpret(a + b) == State(Interpret(a).dispatched + Interpret(b).dispatched, Interpret(b).buffer)
    decreases |b|
  {
    if b == [] {
      assert a + b == a && Interpret(a).dispatched + [] == Interpret(a).dispatched;
    } else {
      var k := |b| - 1;
      InterpretConcat(a, b[..k]);
      assert a + b == (a + b[..k]) + [b[k]] && b == b[..k] + [b[k]];
      InterpretMore(a + b[..k], b[k]);
      InterpretMore(b[..k], b[k]);
      FeedConcat(Interpret(a).dispatched, Interpret(b[..k]), b[k]);
    }
  }

  lemma FeedConcat(out: seq<seq<byte>>, st: State, x: seq<byte>)
    ensures Feed(State(out + st.dispatched, st.buffer), x) == State(out + Feed(st, x).dispatched, Feed(st, x).buffer)
  {
    if x == [] && st.buffer.Some? {
      Associative(out, st.dispatched, [st.buffer.value]);
    }
  }

  // ----- lines that the reader and the standard take alike -----

  /** The current event already has a data line. */
  predicate HasData(lines: seq<seq<byte>>) {
    if lines == [] then false
    else
      var last := lines[|lines| - 1];
      last != [] && (Data(last).Some? || HasData(lines[..|lines| - 1]))
  }

  /** No event has two data lines. */
  predicate Single(lines: seq<seq<byte>>) {
    if lines == [] then true
    else
      var k := |lines| - 1;
      Single(lines[..k]) && (Data(lines[k]).Some? ==> !HasData(lines[..k]))
  }

  /** The line is a data line that the reader does not take for one, and not the closing mark. */
  predicate Hidden(line: seq<byte>) {
    Data(line).Some? && !(DATA <= line) && Data(line).value != DONE
  }

  function HiddenLines(lines: seq<seq<byte>>): nat {
    if lines == [] then 0
    else HiddenLines(lines[..|lines| - 1]) + if Hidden(lines[|lines| - 1]) then 1 else 0
  }

  /** One data line per event at most, each written `data: ` unless it is the closing mark. */
  predicate Tidy(lines: seq<seq<byte>>) {
    Single(lines) && HiddenLines(lines) == 0
  }

  /** The values of all data lines but the closing mark. */
  function Values(lines: seq<seq<byte>>): seq<seq<byte>> {
    if lines == [] then []
    else
      var last := lines[|lines| - 1];
      Values(lines[..|lines| - 1]) + if Data(last).Some? && Data(last).value != DONE then [Data(last).value] else []
  }

  lemma DataIsValue(line: seq<byte>)
    requires DATA <= line
    ensures Data(line) == Some(line[6..])
  {
    assert line[..6] == DATA;
    assert line[..5] == DATA[..5] == FIELD + [COLON];
    assert line[5] == SPACE && line[5..][1..] == line[6..];
  }

  lemma PayloadsMore(lines: seq<seq<byte>>, x: seq<byte>)
    ensures Payloads(lines + [x]) == Payloads(lines) + if DATA <= x && x[6..] != DONE then [x[6..]] else []
  {
    PayloadsConcat(lines, [x]);
    assert [x][1..] == [];
  }

  /** The reader sees all values but the hidden ones. */
  lemma {:induction false} PayloadsAreValues(lines: seq<seq<byte>>)
    ensures |Values(lines)| == |Payloads(lines)| + HiddenLines(lines)
    ensures HiddenLines(lines) == 0 ==> Values(lines) == Payloads(lines)
    decreases |lines|
  {
    if lines != [] {
      var k := |lines| - 1;
      PayloadsAreValues(lines[..k]);
      assert lines == lines[..k] + [lines[k]];
      PayloadsMore(lines[..k], lines[k]);
      if DATA <= lines[k] {
        DataIsValue(lines[k]);
      }
    }
  }

  /** What the standard has dispatched and what it would dispatch next. */
  function Pending(st: State): seq<seq<byte>> {
    Open(st.dispatched) + if st.buffer.Some? then Open([st.buffer.value]) else []
  }

  lemma OpenOne(x: seq<byte>)
    ensures Open([x]) == if x == DONE then [] else [x]
  {
    assert [x][..0] == [];
    assert Open([]) == [] && Open([x][..0]) == [];
  }

  lemma BufferIsData(lines: seq<seq<byte>>)
    ensures Interpret(lines).buffer.Some? <==> HasData(lines)
    decreases |lines|
  {
    if lines != [] {
      BufferIsData(lines[..|lines| - 1]);
    }
  }

  lemma {:induction false} SingleGivesValues(lines: seq<seq<byte>>)
    requires Single(lines)
    ensures Pending(Interpret(lines)) == Values(lines)
    decreases |lines|
  {
    if lines != [] {
      var k := |lines| - 1;
      SingleGivesValues(lines[..k]);
      BufferIsData(lines[..k]);
      FeedsOne(Interpret(lines[..k]), lines[k]);
    }
  }

  lemma FeedsOne(st: State, x: seq<byte>)
    requires Data(x).Some? ==> st.buffer.None?
    ensures Pending(Feed(st, x)) == Pending(st) + if Data(x).Some? && Data(x).value != DONE then [Data(x).value] else []
  {
    if x == [] {
      if st.buffer.Some? {
        OpenMore(st.dispatched, st.buffer.value);
        OpenOne(st.buffer.value);
      }
    } else if Data(x).Some? {
      OpenOne(Data(x).value);
    }
  }

  // ----- joined data lines show -----

  predicate HasFeed(x: seq<byte>) {
    LF in x
  }

  ghost predicate Shows(st: State) {
    || (exists i | 0 <= i < |st.dispatched| :: HasFeed(st.dispatched[i]))
    || (st.buffer.Some? && HasFeed(st.buffer.value))
  }

  lemma FeedKeepsShowing(st: State, x: seq<byte>)
    requires Shows(st)
    ensures Shows(Feed(st, x))
  {
    var next := Feed(st, x);
    if i :| 0 <= i < |st.dispatched| && HasFeed(st.dispatched[i]) {
      assert next.dispatched[i] == st.dispatched[i];
    } else if x == [] {
      assert next.dispatched[|st.dispatched|] == st.buffer.value;
    }
  }

  lemma {:induction false} JoinedLinesShow(lines: seq<seq<byte>>)
    requires !Single(lines)
    ensures Shows(Interpret(lines))
    decreases |lines|
  {
    var k := |lines| - 1;
    BufferIsData(lines[..k]);
    if Single(lines[..k]) {
      JoinShows(Interpret(lines[..k]), lines[k]);
    } else {
      JoinedLinesShow(lines[..k]);
      FeedKeepsShowing(Interpret(lines[..k]), lines[k]);
    }
  }

  lemma JoinShows(st: State, x: seq<byte>)
    requires Data(x).Some? && st.buffer.Some?
    ensures Shows(Feed(st, x))
  {
    DataIsNotBlank(x);
    var joined := st.buffer.value + [LF] + Data(x).value;
    assert joined[|st.buffer.value|] == LF;
  }

  lemma DataIsNotBlank(x: seq<byte>)
    requires Data(x).Some?
    ensures x != []
  {
  }

  lemma {:induction false} OpenKeepsFeed(a: seq<seq<byte>>, i: nat)
    requires i < |a| && HasFeed(a[i])
    ensures exists x :: x in Open(a) && HasFeed(x)
    decreases |a|
  {
    var k := |a| - 1;
    if i == k {
      assert a[k] in Open(a);
    } else {
      OpenKeepsFeed(a[..k], i);
      var x :| x in Open(a[..k]) && HasFeed(x);
      assert x in Open(a);
    }
  }

  lemma {:induction false} LinesHaveNoFeed(s: seq<byte>, x: seq<byte>)
    requires x in Lines(s)
    ensures !HasFeed(x)
    decreases |s|
  {
    LineSplits(s);
    if x == Head(s) {
      forall j | 0 <= j < LineEnd(s) ensures x[j] != LF {
        BeforeEnd(s, 0, j);
      }
    } else {
      LinesHaveNoFeed(Later(s), x);
    }
  }

  lemma {:induction false} PayloadsHaveNoFeed(lines: seq<seq<byte>>, x: seq<byte>)
    requires x in Payloads(lines) && forall l | l in lines :: !HasFeed(l)
    ensures !HasFeed(x)
    decreases |lines|
  {
    if DATA <= lines[0] && x == lines[0][6..] {
      assert lines[0] in lines;
    } else {
      PayloadsHaveNoFeed(lines[1..], x);
    }
  }

  // ----- the exact condition -----

  /** The reader's part of the stream is tidy, and after it the standard sees nothing but the closing
      mark. */
  predicate ReadAlike(s: seq<byte>) {
    Tidy(Lines(Terminated(s))) && forall x | x in Standard(Tail(s)) :: x == DONE
  }

  /** The reader's part and the rest, as the standard sees them. */
  lemma StandardSplits(s: seq<byte>)
    ensures Open(Standard(s)) == Open(Standard(Terminated(s))) + Open(Standard(Tail(s)))
    ensures Pending(Interpret(Lines(Terminated(s)))) == Open(Standard(Terminated(s)))
  {
    TerminatedLines(s);
    TerminatedIsClosed(s);
    BlankClosesBuffer(Lines(Terminated(s)));
    InterpretConcat(Lines(Terminated(s)), Lines(Tail(s)));
    OpenConcat(Standard(Terminated(s)), Standard(Tail(s)));
  }

  /** The payloads the reader takes from a stream are the event data of the standard, the closing mark
      aside, if and only if up to the last pair of line feeds every event has at most one data line,
      written `data: ` or the closing mark, and after it the standard dispatches nothing else. */
  lemma ReadsStandardIff(s: seq<byte>)
    ensures AllPayloads(Events(s)) == Open(Standard(s)) <==> ReadAlike(s)
  {
    EventsCarryDataLines(s);
    StandardSplits(s);
    OpenIsEmptyIff(Standard(Tail(s)));
    var lines := Lines(Terminated(s));
    PayloadsAreValues(lines);
    if Single(lines) {
      SingleGivesValues(lines);
      SameOrLonger(Payloads(lines), Values(lines), Open(Standard(Tail(s))), HiddenLines(lines));
    } else {
      JoinedDiffers(s, Payloads(lines));
    }
  }

  lemma SameOrLonger<T>(p: seq<T>, v: seq<T>, e: seq<T>, hidden: nat)
    requires |v| == |p| + hidden && (hidden == 0 ==> v == p)
    ensures p == v + e <==> hidden == 0 && e == []
  {
    assert |v + e| == |v| + |e|;
    if hidden == 0 && e == [] {
      assert v + e == p;
    }
  }

  lemma JoinedDiffers(s: seq<byte>, payloads: seq<seq<byte>>)
    requires !Single(Lines(Terminated(s))) && payloads == Payloads(Lines(Terminated(s)))
    ensures payloads != Open(Standard(s))
  {
    var lines := Lines(Terminated(s));
    StandardSplits(s);
    JoinedLinesShow(lines);
    TerminatedIsClosed(s);
    BlankClosesBuffer(lines);
    var out := Interpret(lines).dispatched;
    var i :| 0 <= i < |out| && HasFeed(out[i]);
    OpenKeepsFeed(out, i);
    var x :| x in Open(out) && HasFeed(x);
    assert x in Open(Standard(s));
    if x in payloads {
      forall l | l in lines ensures !HasFeed(l) {
        LinesHaveNoFeed(Terminated(s), l);
      }
      PayloadsHaveNoFeed(lines, x);
    }
  }

  /** So on such a stream, however it is cut into chunks, the reader's result is that of reading the
      standard's events. */
  lemma AlikeIsRead(s: seq<byte>, read: seq<byte> -> Reading)
    requires ReadAlike(s)
    ensures ReadStream(s, read) == Finish(Read(NOTHING, Open(Standard(s)), read))
  {
    ReadsStandardIff(s);
  }

  // ----- a stream the reader cannot read -----

  /** `data:x` without the space, which the standard allows: the standard dispatches `x`, the reader
      takes nothing and ends in the missing-evidence error. */
  lemma UnspacedDataIsNotRead(x: seq<byte>, read: seq<byte> -> Reading)
    requires x != [] && x[0] != SPACE && IsLine(FIELD + [COLON] + x)
    ensures var s := FIELD + [COLON] + x + BREAK;
      Standard(s) == [x] && AllPayloads(Events(s)) == [] && ReadStream(s, read) == Failure(NO_EVIDENCE)
  {
    var line := FIELD + [COLON] + x;
    var s := line + BREAK;
    assert line[5..] == x && Data(line) == Some(x) && !(DATA <= line) by {
      assert line[5] == x[0];
    }
    OneEvent(line);
    assert Interpret([line]) == State([], Some(x)) by {
      InterpretMore([], line);
      assert [] + [line] == [line];
    }
    InterpretMore([line], []);
    assert [line] + [[]] == [line, []];
    assert Payloads([line]) == [];
  }

  predicate IsLine(x: seq<byte>) {
    LineEnd(x) == |x|
  }

  lemma OneEvent(line: seq<byte>)
    requires line != [] && IsLine(line)
    ensures Lines(line + BREAK) == [line, []]
    ensures AllPayloads(Events(line + BREAK)) == Payloads([line])
  {
    OneEventLines(line);
    OneEventPayloads(line);
  }

  lemma OneEventLines(line: seq<byte>)
    requires IsLine(line)
    ensures Lines(line + BREAK) == [line, []]
  {
    assert line + BREAK == line + [LF] + [LF];
    ClosedLine(line, [LF]);
    OneFeed();
    assert [line] + [[]] == [line, []];
  }

  lemma OneEventPayloads(line: seq<byte>)
    requires line != [] && IsLine(line)
    ensures AllPayloads(Events(line + BREAK)) == Payloads([line])
  {
    OneEventBreak(line);
    OpenLine(line);
    AllPayloadsSplit(line + BREAK);
    NoEvents([]);
    assert AllPayloads([]) == [] && Payloads([line]) + [] == Payloads([line]);
  }

  lemma OneFeed()
    ensures Lines([LF]) == [[]]
  {
    assert [LF] + [] == [LF] && Lines([]) == [];
    BlankLine([]);
  }

  lemma {:induction false} NoBreakInLine(line: seq<byte>, from: nat)
    requires from <= |line| && FindEnd(line, from) == |line|
    ensures FindBreak(line + BREAK, from) == |line|
    decreases |line| - from
  {
    if from < |line| {
      NoBreakInLine(line, from + 1);
    }
  }

  lemma OneEventBreak(line: seq<byte>)
    requires IsLine(line)
    ensures var s := line + BREAK; FirstBreak(s) == |line| && First(s) == line && Rest(s) == []
  {
    NoBreakInLine(line, 0);
    assert (line + BREAK)[..|line|] == line;
  }
}
