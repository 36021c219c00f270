/** The benchmark's reader of a chat-completion event stream: bytes arrive in arbitrary chunks, are
    buffered, cut into events at blank lines and read line by line. */
module EventStream {
  import opened Common

  const LF: byte := 10
  const CR: byte := 13
  const BREAK: seq<byte> := [LF, LF]
  const DATA: seq<byte> := [100, 97, 116, 97, 58, 32]  // "data: "
  const DONE: seq<byte> := [91, 68, 79, 78, 69, 93]  // "[DONE]"

  // ----- splitting -----

  predicate BreakAt(s: seq<byte>, i: nat) {
    i + 1 < |s| && s[i] == LF && s[i + 1] == LF
  }

  /** The first blank line at or after a position, or the length if there is none. */
  function FindBreak(s: seq<byte>, from: nat): (i: nat)
    requires from <= |s|
    ensures from <= i <= |s| && (i < |s| ==> BreakAt(s, i))
    decreases |s| - from
  {
    if from == |s| || BreakAt(s, from) then from else FindBreak(s, from + 1)
  }

  function FirstBreak(s: seq<byte>): (i: nat)
    ensures i <= |s| && (i < |s| ==> BreakAt(s, i))
  {
    FindBreak(s, 0)
  }

  /** The first event, and what follows its blank line. */
  function First(s: seq<byte>): seq<byte> {
    s[..FirstBreak(s)]
  }

  function Rest(s: seq<byte>): seq<byte>
    requires FirstBreak(s) < |s|
  {
    s[FirstBreak(s) + 2..]
  }

  /** The events of a whole stream: what stands before each blank line. */
  function Events(s: seq<byte>): seq<seq<byte>> {
    if FirstBreak(s) == |s| then [] else [First(s)] + Events(Rest(s))
  }

  /** What follows the last event; the reader drops it. */
  function Tail(s: seq<byte>): seq<byte> {
    if FirstBreak(s) == |s| then s else Tail(Rest(s))
  }

  lemma {:induction false} FindBreakStays(a: seq<byte>, b: seq<byte>, from: nat)
    requires from <= |a| && FindBreak(a, from) < |a|
    ensures FindBreak(a + b, from) == FindBreak(a, from)
    decreases |a| - from
  {
    if !BreakAt(a, from) {
      FindBreakStays(a, b, from + 1);
    }
  }

  lemma FirstBreakStays(a: seq<byte>, b: seq<byte>)
    requires FirstBreak(a) < |a|
    ensures FirstBreak(a + b) == FirstBreak(a)
  {
    FindBreakStays(a, b, 0);
  }

  lemma NoEvents(s: seq<byte>)
    requires FirstBreak(s) == |s|
    ensures Events(s) == [] && Tail(s) == s
  {
  }

  lemma FirstEvent(s: seq<byte>)
    requires FirstBreak(s) < |s|
    ensures Events(s) == [First(s)] + Events(Rest(s))
  {
  }

  lemma FirstTail(s: seq<byte>)
    requires FirstBreak(s) < |s|
    ensures Tail(s) == Tail(Rest(s))
  {
  }

  lemma Associative<T>(a: seq<T>, b: seq<T>, c: seq<T>)
    ensures a + (b + c) == a + b + c
  {
  }

  lemma SplitConcat<T>(a: seq<T>, b: seq<T>, i: nat)
    requires i + 2 <= |a|
    ensures (a + b)[..i] == a[..i] && (a + b)[i + 2..] == a[i + 2..] + b
  {
  }

  lemma ConcatParts(a: seq<byte>, b: seq<byte>)
    requires FirstBreak(a) < |a|
    ensures FirstBreak(a + b) < |a + b| && First(a + b) == First(a) && Rest(a + b) == Rest(a) + b
  {
    FirstBreakStays(a, b);
    SplitConcat(a, b, FirstBreak(a));
  }

  /** Bytes that arrive later do not move the breaks that are already there. */
  lemma {:induction false} EventsOfConcat(a: seq<byte>, b: seq<byte>)
    ensures Events(a + b) == Events(a) + Events(Tail(a) + b)
    ensures Tail(a + b) == Tail(Tail(a) + b)
    decreases |a|
  {
    if FirstBreak(a) == |a| {
      NoEvents(a);
      assert [] + Events(a + b) == Events(a + b);
    } else {
      ConcatParts(a, b);
      FirstEvent(a);
      FirstEvent(a + b);
      FirstTail(a);
      FirstTail(a + b);
      EventsOfConcat(Rest(a), b);
      Associative([First(a)], Events(Rest(a)), Events(Tail(Rest(a)) + b));
    }
  }

  // ----- lines -----

  predicate Terminator(b: byte) {
    b == LF || b == CR
  }

  function FindEnd(s: seq<byte>, from: nat): (i: nat)
    requires from <= |s|
    ensures from <= i <= |s| && (i < |s| ==> Terminator(s[i]))
    decreases |s| - from
  {
    if from == |s| || Terminator(s[from]) then from else FindEnd(s, from + 1)
  }

  /** Where the first line ends. */
  function LineEnd(s: seq<byte>): (i: nat)
    ensures i <= |s| && (i < |s| ==> Terminator(s[i]))
  {
    FindEnd(s, 0)
  }

  lemma {:induction false} BeforeEnd(s: seq<byte>, from: nat, j: nat)
    requires from <= j < |s| && j < FindEnd(s, from)
    ensures !Terminator(s[j])
    decreases |s| - from
  {
    if from < j {
      BeforeEnd(s, from + 1, j);
    }
  }

  lemma {:induction false} FindEndStays(a: seq<byte>, b: seq<byte>, from: nat)
    requires from <= |a|
    ensures FindEnd(a, from) < |a| ==> FindEnd(a + b, from) == FindEnd(a, from)
    ensures FindEnd(a, from) == |a| ==> FindEnd(a + b, from) == FindEnd(a + b, |a|)
    decreases |a| - from
  {
    if from < |a| && !Terminator(a[from]) {
      FindEndStays(a, b, from + 1);
    }
  }

  /** Where the next line starts, given where this one ends: after LF, CR or CR LF. */
  function NextLine(s: seq<byte>, end: nat): (i: nat)
    requires end <= |s|
    ensures end <= i <= |s| && (end < |s| ==> end < i)
  {
    if end == |s| then end
    else if s[end] == CR && end + 1 < |s| && s[end + 1] == LF then end + 2
    else end + 1
  }

  /** The first line, and what follows its end. */
  function Head(s: seq<byte>): seq<byte> {
    s[..LineEnd(s)]
  }

  function Later(s: seq<byte>): (r: seq<byte>)
    ensures s != [] ==> |r| < |s|
  {
    if LineEnd(s) == |s| then [] else s[NextLine(s, LineEnd(s))..]
  }

  function Lines(s: seq<byte>): seq<seq<byte>>
    decreases |s|
  {
    if s == [] then [] else [Head(s)] + Lines(Later(s))
  }

  /** The payloads among lines: those after `data: `, except the closing mark. */
  function Payloads(lines: seq<seq<byte>>): seq<seq<byte>> {
    if lines == [] then []
    else (if DATA <= lines[0] && lines[0][6..] != DONE then [lines[0][6..]] else []) + Payloads(lines[1..])
  }

  function AllPayloads(events: seq<seq<byte>>): seq<seq<byte>> {
    if events == [] then [] else Payloads(Lines(events[0])) + AllPayloads(events[1..])
  }

  // ----- meaning of the payloads -----

  /** What decoding one payload gives: an error, or a text delta with an optional finish reason. */
  datatype Reading = Broken(error: string) | Delta(text: string, finish: Option<string>)

  datatype Progress = Progress(parts: seq<string>, finish: Option<string>, evidence: Option<seq<byte>>)

  const NOTHING := Progress([], None, None)

  function Apply(p: Progress, payload: seq<byte>, read: seq<byte> -> Reading): Result<Progress, string> {
    match read(payload)
    case Broken(error) => Failure(error)
    case Delta(text, finish) =>
      var q := if text != "" then p.(parts := p.parts + [text]) else p;
      Success(if finish.Some? then q.(finish := finish, evidence := Some(payload)) else q)
  }

  /** All payloads in order, up to the first error. */
  function Read(p: Progress, payloads: seq<seq<byte>>, read: seq<byte> -> Reading): Result<Progress, string>
    decreases |payloads|
  {
    if payloads == [] then Success(p)
    else
      var q := Apply(p, payloads[0], read);
      if q.Failure? then q else Read(q.value, payloads[1..], read)
  }

  const NO_EVIDENCE := "stream ended without a final evidence chunk"

  function Finish(r: Result<Progress, string>): Result<Progress, string> {
    if r.Success? && r.value.evidence.None? then Failure(NO_EVIDENCE) else r
  }

  /** Reference: the whole stream at once. */
  function ReadStream(stream: seq<byte>, read: seq<byte> -> Reading): Result<Progress, string> {
    Finish(Read(NOTHING, AllPayloads(Events(stream)), read))
  }

  lemma {:induction false} ReadConcat(p: Progress, a: seq<seq<byte>>, b: seq<seq<byte>>, read: seq<byte> -> Reading)
    ensures var first := Read(p, a, read);
      Read(p, a + b, read) == if first.Failure? then first else Read(first.value, b, read)
    decreases |a|
  {
    if a == [] {
      assert a + b == b;
    } else {
      assert (a + b)[1..] == a[1..] + b;
      var q := Apply(p, a[0], read);
      if q.Success? {
        ReadConcat(q.value, a[1..], b, read);
      }
    }
  }

  lemma {:induction false} AllPayloadsConcat(a: seq<seq<byte>>, b: seq<seq<byte>>)
    ensures AllPayloads(a + b) == AllPayloads(a) + AllPayloads(b)
    decreases |a|
  {
    if a == [] {
      assert a + b == b;
    } else {
      assert (a + b)[1..] == a[1..] + b;
      AllPayloadsConcat(a[1..], b);
    }
  }

  function Joined(chunks: seq<seq<byte>>): seq<byte> {
    if chunks == [] then [] else Joined(chunks[..|chunks| - 1]) + chunks[|chunks| - 1]
  }

  // ----- the reader -----

  /** Reads the lines of one event into the progress so far. */
  method ReadEvent(event: seq<byte>, before: Progress, read: seq<byte> -> Reading) returns (r: Result<Progress, string>)
    ensures r == Read(before, Payloads(Lines(event)), read)
  {
    var p := before;
    var lines := Lines(event);
    for i := 0 to |lines|
      invariant Read(before, Payloads(lines), read) == Read(p, Payloads(lines[i..]), read)
    {
      var line := lines[i];
      ghost var rest := Payloads(lines[i + 1..]);
      assert lines[i..][1..] == lines[i + 1..];
      if !(DATA <= line) {
        assert Payloads(lines[i..]) == rest;
        continue;
      }
      var raw := line[6..];
      if raw == DONE {
        assert Payloads(lines[i..]) == rest;
        continue;
      }
      assert Payloads(lines[i..]) == [raw] + rest && ([raw] + rest)[1..] == rest;
      var q := Apply(p, raw, read);
      if q.Failure? {
        return q;
      }
      p := q.value;
    }
    return Success(p);
  }

  /** Cutting the stream into chunks differently changes nothing: the buffered reader gives what
      splitting the whole stream gives, the first error included. */
  method StreamRequest(chunks: seq<seq<byte>>, read: seq<byte> -> Reading) returns (r: Result<Progress, string>)
    ensures r == ReadStream(Joined(chunks), read)
  {
    var p := NOTHING;
    var buffer: seq<byte> := [];
    ghost var whole := Joined(chunks);
    for i := 0 to |chunks|
      invariant buffer == Tail(Joined(chunks[..i]))
      invariant Read(NOTHING, AllPayloads(Events(Joined(chunks[..i]))), read) == Success(p)
    {
      ghost var start := p;
      NextChunk(chunks, i, p, read);
      ErrorIsFinal(chunks, i + 1, read);
      buffer := buffer + chunks[i];
      ghost var grown := buffer;
      ghost var payloads := AllPayloads(Events(grown));
      while FirstBreak(buffer) < |buffer|
        invariant Read(start, payloads, read) == Read(p, AllPayloads(Events(buffer)), read)
        invariant Tail(buffer) == Tail(grown)
        decreases |buffer|
      {
        var event := First(buffer);
        AllPayloadsSplit(buffer);
        FirstTail(buffer);
        ReadConcat(p, Payloads(Lines(event)), AllPayloads(Events(Rest(buffer))), read);
        buffer := Rest(buffer);
        var q := ReadEvent(event, p, read);
        if q.Failure? {
          return q;
        }
        p := q.value;
      }
    }
    assert chunks[..|chunks|] == chunks;
    if p.evidence.None? {
      return Failure(NO_EVIDENCE);
    }
    return Success(p);
  }

  lemma NextChunk(chunks: seq<seq<byte>>, i: nat, p: Progress, read: seq<byte> -> Reading)
    requires i < |chunks| && Read(NOTHING, AllPayloads(Events(Joined(chunks[..i]))), read) == Success(p)
    ensures var grown := Tail(Joined(chunks[..i])) + chunks[i];
      && Tail(Joined(chunks[..i + 1])) == Tail(grown)
      && Read(NOTHING, AllPayloads(Events(Joined(chunks[..i + 1]))), read) == Read(p, AllPayloads(Events(grown)), read)
  {
    assert chunks[..i + 1][..i] == chunks[..i];
    var seen := Joined(chunks[..i]);
    var grown := Tail(seen) + chunks[i];
    EventsOfConcat(seen, chunks[i]);
    AllPayloadsConcat(Events(seen), Events(grown));
    ReadConcat(NOTHING, AllPayloads(Events(seen)), AllPayloads(Events(grown)), read);
  }

  /** An error met in the first chunks is the error of the whole stream. */
  lemma {:induction false} ErrorIsFinal(chunks: seq<seq<byte>>, n: nat, read: seq<byte> -> Reading)
    requires n <= |chunks|
    ensures var r := Read(NOTHING, AllPayloads(Events(Joined(chunks[..n]))), read);
      r.Failure? ==> Read(NOTHING, AllPayloads(Events(Joined(chunks))), read) == r
    decreases |chunks|
  {
    if n == |chunks| {
      assert chunks[..n] == chunks;
    } else {
      var k := |chunks| - 1;
      assert chunks[..k][..n] == chunks[..n];
      ErrorIsFinal(chunks[..k], n, read);
      var a, b := Joined(chunks[..k]), chunks[k];
      EventsOfConcat(a, b);
      AllPayloadsConcat(Events(a), Events(Tail(a) + b));
      ReadConcat(NOTHING, AllPayloads(Events(a)), AllPayloads(Events(Tail(a) + b)), read);
    }
  }

  // ----- events do not matter, only lines do -----

  /** The part of the stream that the reader uses: up to and including the last blank line. */
  function Terminated(s: seq<byte>): seq<byte> {
    TailIsSuffix(s);
    s[..|s| - |Tail(s)|]
  }

  lemma {:induction false} TailIsSuffix(s: seq<byte>)
    ensures |Tail(s)| <= |s| && s[|s| - |Tail(s)|..] == Tail(s)
    decreases |s|
  {
    if FirstBreak(s) < |s| {
      TailIsSuffix(Rest(s));
    }
  }

  lemma {:induction false} PayloadsConcat(a: seq<seq<byte>>, b: seq<seq<byte>>)
    ensures Payloads(a + b) == Payloads(a) + Payloads(b)
    decreases |a|
  {
    if a == [] {
      assert a + b == b;
    } else {
      assert (a + b)[1..] == a[1..] + b;
      PayloadsConcat(a[1..], b);
    }
  }

  lemma LineSplits(s: seq<byte>)
    requires s != []
    ensures Lines(s) == [Head(s)] + Lines(Later(s))
  {
  }

  lemma Prefixes<T>(a: seq<T>, b: seq<T>, i: nat, j: nat)
    requires i <= j <= |a|
    ensures (a + b)[..i] == a[..i] && (a + b)[j..] == a[j..] + b
  {
  }

  lemma OpenLine(a: seq<byte>)
    requires a != [] && LineEnd(a) == |a|
    ensures Lines(a) == [a]
  {
    LineSplits(a);
    assert Head(a) == a && Later(a) == [] && Lines([]) == [];
  }

  lemma PayloadsOfBlank()
    ensures Payloads([[]]) == [] && Payloads(Lines([])) == []
  {
  }

  lemma BlankLine(b: seq<byte>)
    ensures Lines([LF] + b) == [[]] + Lines(b)
  {
    var s := [LF] + b;
    assert LineEnd(s) == 0 && NextLine(s, 0) == 1;
    assert Head(s) == [] && Later(s) == b;
    LineSplits(s);
  }

  lemma BlankPayloads(b: seq<byte>)
    ensures Payloads(Lines([LF] + b)) == Payloads(Lines(b))
  {
    BlankLine(b);
    PayloadsConcat([[]], Lines(b));
    PayloadsOfBlank();
    assert [] + Payloads(Lines(b)) == Payloads(Lines(b));
  }

  /** A line that is still open, closed by a line feed. */
  lemma ClosedLine(a: seq<byte>, c: seq<byte>)
    requires LineEnd(a) == |a|
    ensures Lines(a + [LF] + c) == [a] + Lines(c)
  {
    var s := a + [LF] + c;
    FindEndStays(a, [LF] + c, 0);
    assert s == a + ([LF] + c);
    assert s[|a|] == LF;
    assert LineEnd(s) == |a| && NextLine(s, |a|) == |a| + 1;
    assert Head(s) == a && Later(s) == c;
    LineSplits(s);
  }

  lemma BreakAfterOpenLine(a: seq<byte>, b: seq<byte>)
    requires LineEnd(a) == |a|
    ensures Payloads(Lines(a + BREAK + b)) == Payloads(Lines(a)) + Payloads(Lines(b))
  {
    var c := [LF] + b;
    assert a + BREAK + b == a + [LF] + c;
    ClosedLine(a, c);
    BlankPayloads(b);
    PayloadsConcat([a], Lines(c));
    if a == [] {
      PayloadsOfBlank();
    } else {
      OpenLine(a);
    }
  }

  lemma BreakAfterReturn(a: seq<byte>, b: seq<byte>)
    requires EndsInReturn(a)
    ensures Payloads(Lines(a + BREAK + b)) == Payloads(Lines(a)) + Payloads(Lines(b))
  {
    ReturnAndFeed(a, b);
    BlankPayloads(b);
    PayloadsConcat([Head(a)], Lines([LF] + b));
    LineSplits(a);
    assert Later(a) == [] && Lines([]) == [];
  }

  lemma ReturnAndFeed(a: seq<byte>, b: seq<byte>)
    requires EndsInReturn(a)
    ensures Lines(a + BREAK + b) == [Head(a)] + Lines([LF] + b)
  {
    ReturnCuts(a, b);
    LineSplits(a + BREAK + b);
  }

  /** The line feed after a carriage return belongs to the same line end. */
  lemma ReturnCuts(a: seq<byte>, b: seq<byte>)
    requires EndsInReturn(a)
    ensures var s := a + BREAK + b; s != [] && Head(s) == Head(a) && Later(s) == [LF] + b
  {
    var s, end := a + BREAK + b, LineEnd(a);
    assert s == a + (BREAK + b);
    FindEndStays(a, BREAK + b, 0);
    assert s[end] == CR && s[end + 1] == LF;
  }

  /** Two line feeds end a line wherever they stand, also after a carriage return. */
  lemma {:induction false} PayloadsAcrossBreak(a: seq<byte>, b: seq<byte>)
    ensures Payloads(Lines(a + BREAK + b)) == Payloads(Lines(a)) + Payloads(Lines(b))
    decreases |a|
  {
    if LineEnd(a) == |a| {
      BreakAfterOpenLine(a, b);
    } else if EndsInReturn(a) {
      BreakAfterReturn(a, b);
    } else {
      BreakInRest(a, b);
      PayloadsAcrossBreak(Later(a), b);
      PayloadsConcat([Head(a)], Lines(Later(a)));
      LineSplits(a);
      Associative(Payloads([Head(a)]), Payloads(Lines(Later(a))), Payloads(Lines(b)));
    }
  }

  /** The first line ends in a carriage return with nothing behind it, which a line feed could follow. */
  predicate EndsInReturn(a: seq<byte>) {
    LineEnd(a) + 1 == |a| && a[LineEnd(a)] == CR
  }

  lemma BreakInRest(a: seq<byte>, b: seq<byte>)
    requires LineEnd(a) < |a| && !EndsInReturn(a)
    ensures Payloads(Lines(a + BREAK + b)) == Payloads([Head(a)]) + Payloads(Lines(Later(a) + BREAK + b))
  {
    var c := BREAK + b;
    assert a + BREAK + b == a + c && Later(a) + BREAK + b == Later(a) + c;
    HeadStays(a, c);
    LineSplits(a + c);
    PayloadsConcat([Head(a)], Lines(Later(a) + c));
  }

  /** What is added later leaves the first line alone, unless it could complete its line end. */
  lemma HeadStays(a: seq<byte>, b: seq<byte>)
    requires LineEnd(a) < |a| && !EndsInReturn(a)
    ensures Head(a + b) == Head(a) && Later(a + b) == Later(a) + b
  {
    FindEndStays(a, b, 0);
    Prefixes(a, b, LineEnd(a), NextLine(a, LineEnd(a)));
  }

  /** The reader's events carry exactly the data lines of the terminated part of the stream. */
  lemma {:induction false} EventsCarryDataLines(s: seq<byte>)
    ensures AllPayloads(Events(s)) == Payloads(Lines(Terminated(s)))
    decreases |s|
  {
    if FirstBreak(s) == |s| {
      NothingTerminated(s);
    } else {
      TerminatedSplits(s);
      PayloadsAcrossBreak(First(s), Terminated(Rest(s)));
      EventsCarryDataLines(Rest(s));
      AllPayloadsSplit(s);
    }
  }

  lemma NothingTerminated(s: seq<byte>)
    requires FirstBreak(s) == |s|
    ensures AllPayloads(Events(s)) == [] && Payloads(Lines(Terminated(s))) == []
  {
    assert Terminated(s) == [];
  }

  lemma TerminatedSplits(s: seq<byte>)
    requires FirstBreak(s) < |s|
    ensures Terminated(s) == First(s) + BREAK + Terminated(Rest(s))
  {
    TailIsSuffix(Rest(s));
    FirstTail(s);
    CutAtBreak(s, FirstBreak(s), |Tail(s)|);
  }

  lemma CutAtBreak(s: seq<byte>, i: nat, n: nat)
    requires BreakAt(s, i) && i + 2 + n <= |s|
    ensures s[..|s| - n] == s[..i] + BREAK + s[i + 2..][..|s| - (i + 2) - n]
  {
    assert s[i..i + 2] == BREAK;
    PrefixSplits(s, i, |s| - n);
  }

  lemma PrefixSplits<T>(s: seq<T>, i: nat, m: nat)
    requires i + 2 <= m <= |s|
    ensures s[..m] == s[..i] + s[i..i + 2] + s[i + 2..][..m - (i + 2)]
  {
  }

  lemma AllPayloadsSplit(s: seq<byte>)
    requires FirstBreak(s) < |s|
    ensures AllPayloads(Events(s)) == Payloads(Lines(First(s))) + AllPayloads(Events(Rest(s)))
  {
    FirstEvent(s);
    assert Events(s)[1..] == Events(Rest(s));
  }

  /** Line ends written as CR LF, which the event-stream format of section 9.2.6 of the WHATWG HTML
      standard allows, never form two adjacent line feeds: such a stream always ends in the
      missing-evidence error, whatever it says. */
  lemma CrLfStreamsAreNotRead(s: seq<byte>, read: seq<byte> -> Reading)
    requires forall i | 0 <= i < |s| && s[i] == LF :: 0 < i && s[i - 1] == CR
    ensures ReadStream(s, read) == Failure(NO_EVIDENCE)
  {
    assert !BreakAt(s, FirstBreak(s));
    assert Events(s) == [];
  }
}
