/** The compiler launcher's rewriting of generated shader sources: array literals move into binary
    files that the output pulls in, every other line stays. */
module ShaderEmbed {
  import opened Common
  import opened ShaderText

  const MAX_SHADER_BYTES := 16 * 1024 * 1024

  // ----- reference: the source as a list of items -----

  /** A line that is kept, or an array with its header and its lines up to the closing one. */
  datatype Item = Plain(line: string) | Array(header: string, name: string, expected: nat, body: seq<string>)

  /** The first line opens an array, and a later one closes it. */
  predicate Opens(lines: seq<string>) {
    lines != [] && ParseArray(lines[0]).Some?
  }

  function End(lines: seq<string>): (k: nat)
    requires Opens(lines)
    ensures k < |lines|
  {
    ClosingLine(lines[1..])
  }

  predicate Closed(lines: seq<string>)
    requires Opens(lines)
  {
    End(lines) < |lines| - 1
  }

  function FirstArray(lines: seq<string>): Item
    requires Opens(lines) && Closed(lines)
  {
    var declared := ParseArray(lines[0]).value;
    Array(lines[0], declared.0, declared.1, lines[1..][..End(lines) + 1])
  }

  function AfterArray(lines: seq<string>): (rest: seq<string>)
    requires Opens(lines) && Closed(lines)
    ensures |rest| < |lines|
  {
    lines[1..][End(lines) + 1..]
  }

  /** Cuts the source into items; an array that is never closed has no reading. */
  function Parse(lines: seq<string>): Option<seq<Item>>
    decreases |lines|
  {
    if lines == [] then Some([])
    else if !Opens(lines) then Prepend(Plain(lines[0]), Parse(lines[1..]))
    else if !Closed(lines) then None
    else Prepend(FirstArray(lines), Parse(AfterArray(lines)))
  }

  function Prepend(item: Item, items: Option<seq<Item>>): Option<seq<Item>> {
    if items.Some? then Some([item] + items.value) else None
  }

  /** The lines the items were cut from. */
  function Source(items: seq<Item>): seq<string> {
    if items == [] then [] else ItemLines(items[0]) + Source(items[1..])
  }

  function ItemLines(item: Item): seq<string> {
    if item.Plain? then [item.line] else [item.header] + item.body
  }

  type Lengths = map<string, nat>

  function Learn(lengths: Lengths, line: string): Lengths {
    var length := ParseLength(line);
    if length.Some? then lengths[length.value.0 := length.value.1] else lengths
  }

  /** The array is as long as its header and an earlier length line say, and its body holds that
      many bytes and nothing else. */
  predicate Fits(item: Item, lengths: Lengths)
    requires item.Array?
  {
    Declared(lengths, item.name, item.expected) && Holds(item.body, item.expected)
  }

  predicate Valid(items: seq<Item>, lengths: Lengths)
    decreases |items|
  {
    if items == [] then true
    else if items[0].Plain? then Valid(items[1..], Learn(lengths, items[0].line))
    else Fits(items[0], lengths) && Valid(items[1..], lengths)
  }

  predicate AcceptedFrom(lines: seq<string>, lengths: Lengths) {
    Parse(lines).Some? && Valid(Parse(lines).value, lengths)
  }

  /** The source is accepted: it has a reading, all its arrays fit, and there is one. */
  predicate Accepted(lines: seq<string>) {
    AcceptedFrom(lines, map[]) && exists item | item in Parse(lines).value :: item.Array?
  }

  lemma SourceOfPrepend(item: Item, items: seq<Item>)
    ensures Source([item] + items) == ItemLines(item) + Source(items)
  {
    assert ([item] + items)[1..] == items;
  }

  /** Cutting the source into items loses no line. */
  lemma {:induction false} NothingIsLost(lines: seq<string>)
    requires Parse(lines).Some?
    ensures Source(Parse(lines).value) == lines
    decreases |lines|
  {
    if lines == [] {
    } else if !Opens(lines) {
      NothingIsLost(lines[1..]);
      SourceOfPrepend(Plain(lines[0]), Parse(lines[1..]).value);
      assert [lines[0]] + lines[1..] == lines;
    } else {
      NothingIsLost(AfterArray(lines));
      SourceOfPrepend(FirstArray(lines), Parse(AfterArray(lines)).value);
      LinesSplit(lines, End(lines) + 1);
    }
  }

  lemma LinesSplit(lines: seq<string>, k: nat)
    requires 0 < |lines| && k < |lines|
    ensures [lines[0]] + lines[1..][..k] + lines[1..][k..] == lines
  {
    var rest := lines[1..];
    assert rest[..k] + rest[k..] == rest && [lines[0]] + rest == lines;
  }

  // ----- output -----

  /** A line as it was, or the assembler block that defines a symbol as the bytes of a file. */
  datatype OutLine = Verbatim(line: string) | Embed(symbol: string, blob: string)

  type Blobs = map<string, seq<nat>>

  datatype Output = Output(lines: seq<OutLine>, blobs: Blobs, manifest: seq<(string, nat)>)

  const NO_OUTPUT := Output([], map[], [])

  function Bytes(item: Item): seq<nat>
    requires item.Array?
  {
    if BodyBytes(item.body).Some? then BodyBytes(item.body).value else []
  }

  function Symbol(name: string): string {
    name + "_data"
  }

  function BlobFile(name: string): string {
    name + ".spv"
  }

  function EmitArray(out: Output, name: string, bytes: seq<nat>): Output {
    Output(out.lines + [Embed(Symbol(name), BlobFile(name))],
           out.blobs[BlobFile(name) := bytes],
           out.manifest + [(Symbol(name), |bytes|)])
  }

  function Emit(out: Output, item: Item): Output {
    if item.Plain? then out.(lines := out.lines + [Verbatim(item.line)])
    else EmitArray(out, item.name, Bytes(item))
  }

  function EmitAll(items: seq<Item>): Output {
    if items == [] then NO_OUTPUT else Emit(EmitAll(items[..|items| - 1]), items[|items| - 1])
  }

  // ----- the converter -----

  /** The conversion as one recursion: what the remaining lines make of the output so far. */
  function Outcome(lines: seq<string>, lengths: Lengths, out: Output): Option<Output>
    decreases |lines|, 1
  {
    if lines == [] then Some(out)
    else
      var declared := ParseArray(lines[0]);
      if declared.None? then Outcome(lines[1..], Learn(lengths, lines[0]), Emit(out, Plain(lines[0])))
      else ArrayOutcome(lines[0], declared.value.0, declared.value.1, lines[1..], lengths, out)
  }

  /** The same from the line after an array header. */
  function ArrayOutcome(header: string, name: string, expected: nat, rest: seq<string>, lengths: Lengths, out: Output): Option<Output>
    decreases |rest| + 1, 0
  {
    var k := ClosingLine(rest);
    if k == |rest| then None
    else
      var item := Array(header, name, expected, rest[..k + 1]);
      if Fits(item, lengths) then Outcome(rest[k + 1..], lengths, Emit(out, item)) else None
  }

  /** What first reading the lines and then emitting their items gives. */
  function Emitted(lines: seq<string>, lengths: Lengths, done: seq<Item>): Option<Output> {
    if AcceptedFrom(lines, lengths) then Some(EmitAll(done + Parse(lines).value)) else None
  }

  lemma {:induction false} OutcomeIsEmitted(lines: seq<string>, lengths: Lengths, done: seq<Item>)
    ensures Outcome(lines, lengths, EmitAll(done)) == Emitted(lines, lengths, done)
    decreases |lines|, 1
  {
    if lines == [] {
      assert done + [] == done;
    } else if !Opens(lines) {
      var item := Plain(lines[0]);
      EmitMore(done, item);
      OutcomeIsEmitted(lines[1..], Learn(lengths, lines[0]), done + [item]);
      if Parse(lines[1..]).Some? {
        PrependItem(done, item, Parse(lines[1..]), lengths);
      }
    } else {
      ArrayOutcomeIsEmitted(lines, lengths, done);
    }
  }

  lemma {:induction false} ArrayOutcomeIsEmitted(lines: seq<string>, lengths: Lengths, done: seq<Item>)
    requires Opens(lines)
    ensures Outcome(lines, lengths, EmitAll(done)) == Emitted(lines, lengths, done)
    decreases |lines|, 0
  {
    OutcomeOfArray(lines, lengths, EmitAll(done));
    if Closed(lines) {
      var item, tail := FirstArray(lines), AfterArray(lines);
      ArrayReads(lines, lengths);
      EmitMore(done, item);
      OutcomeIsEmitted(tail, lengths, done + [item]);
      if AcceptedFrom(tail, lengths) {
        Grouped(done, item, Parse(tail).value);
      }
    }
  }

  lemma OutcomeOfArray(lines: seq<string>, lengths: Lengths, out: Output)
    requires Opens(lines)
    ensures Outcome(lines, lengths, out)
         == if Closed(lines) && Fits(FirstArray(lines), lengths) then Outcome(AfterArray(lines), lengths, Emit(out, FirstArray(lines))) else None
  {
    var declared, rest := ParseArray(lines[0]).value, lines[1..];
    assert Outcome(lines, lengths, out) == ArrayOutcome(lines[0], declared.0, declared.1, rest, lengths, out);
  }

  lemma Grouped(done: seq<Item>, item: Item, items: seq<Item>)
    ensures done + [item] + items == done + ([item] + items)
  {
  }

  /** A source that starts with an array is accepted if the array fits and the rest is accepted. */
  lemma ArrayReads(lines: seq<string>, lengths: Lengths)
    requires Opens(lines) && Closed(lines)
    ensures var item, tail := FirstArray(lines), AfterArray(lines);
      && (AcceptedFrom(lines, lengths) <==> Fits(item, lengths) && AcceptedFrom(tail, lengths))
      && (AcceptedFrom(tail, lengths) ==> Parse(lines) == Some([item] + Parse(tail).value))
  {
    var item, tail := FirstArray(lines), AfterArray(lines);
    if Parse(tail).Some? {
      PrependItem([], item, Parse(tail), lengths);
    }
  }

  lemma PrependItem(done: seq<Item>, item: Item, items: Option<seq<Item>>, lengths: Lengths)
    requires items.Some?
    ensures var all := Prepend(item, items).value;
      && done + [item] + items.value == done + all
      && (Valid(all, lengths) <==> if item.Plain? then Valid(items.value, Learn(lengths, item.line))
                                   else Fits(item, lengths) && Valid(items.value, lengths))
  {
    var all := Prepend(item, items).value;
    assert all[1..] == items.value;
  }

  lemma EmitMore(done: seq<Item>, item: Item)
    ensures EmitAll(done + [item]) == Emit(EmitAll(done), item)
  {
    assert (done + [item])[..|done|] == done;
  }

  lemma {:induction false} ManifestListsArrays(items: seq<Item>)
    ensures EmitAll(items).manifest == [] <==> forall item | item in items :: item.Plain?
  {
    if items != [] {
      var k := |items| - 1;
      ManifestListsArrays(items[..k]);
      assert forall item | item in items :: item in items[..k] || item == items[k];
      assert forall item | item in items[..k] :: item in items;
    }
  }

  lemma OutcomeIsAcceptance(lines: seq<string>)
    ensures var r := Outcome(lines, map[], NO_OUTPUT);
      && (r.Some? ==> Parse(lines).Some? && r.value == EmitAll(Parse(lines).value))
      && (Accepted(lines) <==> r.Some? && r.value.manifest != [])
  {
    OutcomeIsEmitted(lines, map[], []);
    assert EmitAll([]) == NO_OUTPUT;
    if AcceptedFrom(lines, map[]) {
      NothingBefore(Parse(lines).value);
      ManifestListsArrays(Parse(lines).value);
    }
  }

  lemma NothingBefore(items: seq<Item>)
    ensures [] + items == items
  {
  }

  predicate Declared(lengths: Lengths, name: string, expected: nat) {
    name in lengths && lengths[name] == expected && 0 < expected <= MAX_SHADER_BYTES
  }

  lemma RestOfFile(lines: seq<string>, k: nat)
    requires FileLines(lines) && k <= |lines|
    ensures FileLines(lines[k..])
  {
    forall i | 0 <= i < |lines[k..]| - 1 ensures EndsLine(lines[k..][i]) {
      assert EndsLine(lines[k + i]);
    }
  }

  /** The loop over the lines. */
  method ConvertLines(source: seq<string>) returns (r: Result<Output, ConvertError>)
    requires FileLines(source)
    ensures r.Success? <==> Outcome(source, map[], NO_OUTPUT).Some?
    ensures r.Success? ==> r.value == Outcome(source, map[], NO_OUTPUT).value
  {
    var lengths: Lengths := map[];
    var out := NO_OUTPUT;
    ghost var goal := Outcome(source, map[], NO_OUTPUT);
    var lines := source;
    while lines != []
      invariant FileLines(lines) && Outcome(lines, lengths, out) == goal
      decreases |lines|
    {
      var line := lines[0];
      RestOfFile(lines, 1);
      lines := lines[1..];
      var declared := ParseArray(line);
      if declared.None? {
        lengths := Learn(lengths, line);
        out := Emit(out, Plain(line));
        continue;
      }
      NoLineIsBoth(line);  // nothing is learnt from a header
      var (name, expected) := declared.value;
      var data, used := EmbedArray(line, name, expected, lines, lengths, out);
      if data.Failure? {
        return data;
      }
      out := data.value;
      RestOfFile(lines, used);
      lines := lines[used..];
    }
    return Success(out);
  }

  /** One array: checks its geometry, reads its body from the lines after the header and writes
      its file. */
  method EmbedArray(header: string, name: string, expected: nat, rest: seq<string>, lengths: Lengths, out: Output)
    returns (r: Result<Output, ConvertError>, used: nat)
    requires FileLines(rest)
    ensures r.Failure? ==> ArrayOutcome(header, name, expected, rest, lengths, out).None?
    ensures r.Success? ==>
      && used <= |rest|
      && ArrayOutcome(header, name, expected, rest, lengths, out) == Outcome(rest[used..], lengths, r.value)
  {
    if !(name in lengths && lengths[name] == expected) || !(0 < expected <= MAX_SHADER_BYTES) {
      return Failure(GeometryMismatch), 0;
    }
    var data;
    data, used := ReadBody(rest, expected);
    if data.Failure? {
      return Failure(data.error), 0;
    }
    ghost var item := Array(header, name, expected, rest[..used]);
    assert Fits(item, lengths);
    r := Success(EmitArray(out, name, data.value));
    assert r.value == Emit(out, item);
  }

  /** Accepts exactly the sources that have a reading whose arrays all fit, and writes for each the
      output of its items. */
  method Convert(source: seq<string>) returns (r: Result<Output, ConvertError>)
    requires FileLines(source)
    ensures r.Success? <==> Accepted(source)
    ensures r.Success? ==> r.value == EmitAll(Parse(source).value)
  {
    r := ConvertLines(source);
    OutcomeIsAcceptance(source);
    if r.Success? && r.value.manifest == [] {
      return Failure(NotRecognized);
    }
  }

  // ----- what the conversion preserves -----

  /** The bytes that the source gives to each array item. */
  predicate Keeps(items: seq<Item>, i: nat, out: Output)
    requires i < |items| && items[i].Array?
  {
    BlobFile(items[i].name) in out.blobs && out.blobs[BlobFile(items[i].name)] == Bytes(items[i])
  }

  predicate SameName(items: seq<Item>, i: nat, j: nat)
    requires i < |items| && j < |items|
  {
    items[i].Array? && items[j].Array? && items[i].name == items[j].name
  }

  lemma BlobFileIsInjective(a: string, b: string)
    ensures BlobFile(a) == BlobFile(b) <==> a == b
  {
    if BlobFile(a) == BlobFile(b) {
      assert |BlobFile(a)| == |a| + 4 && |BlobFile(b)| == |b| + 4;
      assert a == BlobFile(a)[..|a|] && b == BlobFile(b)[..|b|];
    }
  }

  /** The output has one line per item, in order: kept lines are unchanged, and each array became
      a reference to its own file under its own symbol. */
  lemma {:induction false} OutputFollowsItems(items: seq<Item>)
    ensures |EmitAll(items).lines| == |items|
    ensures forall i | 0 <= i < |items| ::
      EmitAll(items).lines[i] == if items[i].Plain? then Verbatim(items[i].line)
                                 else Embed(Symbol(items[i].name), BlobFile(items[i].name))
  {
    if items != [] {
      OutputFollowsItems(items[..|items| - 1]);
    }
  }

  /** The file of a symbol holds the bytes of its last definition. */
  lemma {:induction false} BlobIsLastDefinition(items: seq<Item>, i: nat)
    requires i < |items| && items[i].Array?
    requires forall j | i < j < |items| :: !SameName(items, i, j)
    ensures Keeps(items, i, EmitAll(items))
  {
    var k := |items| - 1;
    if i < k {
      var before := items[..k];
      forall j | i < j < |before| ensures !SameName(before, i, j) {
        assert !SameName(items, i, j);
      }
      BlobIsLastDefinition(before, i);
      assert Keeps(before, i, EmitAll(before));
      assert !SameName(items, i, k);
      if items[k].Array? {
        BlobFileIsInjective(items[i].name, items[k].name);
      }
    }
  }

  lemma {:induction false} LastDefinition(items: seq<Item>, i: nat) returns (last: nat)
    requires i < |items| && items[i].Array?
    ensures i <= last < |items| && SameName(items, i, last)
    ensures forall j | last < j < |items| :: !SameName(items, last, j)
    decreases |items| - i
  {
    if j :| i < j < |items| && SameName(items, i, j) {
      last := LastDefinition(items, j);
    } else {
      last := i;
    }
  }

  /** Every symbol keeps the bytes the source gave it, if and only if no symbol is defined twice
      with different bytes. In particular a source that defines each symbol once is preserved. */
  lemma SymbolsKeepTheirBytesIff(items: seq<Item>)
    ensures (forall i | 0 <= i < |items| && items[i].Array? :: Keeps(items, i, EmitAll(items)))
       <==> (forall i, j | 0 <= i < |items| && 0 <= j < |items| && SameName(items, i, j) ::
               BytesAt(items, i) == BytesAt(items, j))
  {
    var out := EmitAll(items);
    if forall i, j | 0 <= i < |items| && 0 <= j < |items| && SameName(items, i, j) :: BytesAt(items, i) == BytesAt(items, j) {
      forall i | 0 <= i < |items| && items[i].Array? ensures Keeps(items, i, out) {
        var last := LastDefinition(items, i);
        BlobIsLastDefinition(items, last);
        assert BytesAt(items, i) == BytesAt(items, last);
      }
    }
    if forall i | 0 <= i < |items| && items[i].Array? :: Keeps(items, i, out) {
      forall i, j | 0 <= i < |items| && 0 <= j < |items| && SameName(items, i, j)
        ensures BytesAt(items, i) == BytesAt(items, j)
      {
        assert Keeps(items, i, out) && Keeps(items, j, out);
      }
    }
  }

  /** Two definitions of one symbol with different bytes: the earlier one's bytes are lost. */
  lemma RepeatedSymbolLosesBytes(items: seq<Item>, i: nat, j: nat)
    requires i < j < |items| && SameName(items, i, j) && BytesAt(items, i) != BytesAt(items, j)
    requires forall k | j < k < |items| :: !SameName(items, j, k)
    ensures Keeps(items, j, EmitAll(items)) && !Keeps(items, i, EmitAll(items))
  {
    BlobIsLastDefinition(items, j);
  }

  function BytesAt(items: seq<Item>, i: nat): seq<nat>
    requires i < |items| && items[i].Array?
  {
    Bytes(items[i])
  }

  // ----- such a source -----

  lemma {:induction false} SpanIs(s: string, p: char -> bool, from: nat, n: nat)
    requires from <= n <= |s| && (n < |s| ==> !p(s[n])) && forall i | from <= i < n :: p(s[i])
    ensures SpanFrom(s, p, from) == n
    decreases n - from
  {
    if from < n {
      SpanIs(s, p, from + 1, n);
    }
  }

  lemma SpanOfPrefix(a: string, b: string, p: char -> bool)
    requires b != "" && !p(b[0]) && forall c | c in a :: p(c)
    ensures Span(a + b, p) == |a|
  {
    SpanIs(a + b, p, 0, |a|);
  }

  lemma Behind(prefix: string, rest: string)
    ensures prefix <= prefix + rest && (prefix + rest)[..|prefix|] == prefix && (prefix + rest)[|prefix|..] == rest
  {
  }

  lemma NumberReads(digits: string, close: string, tail: string)
    requires close != "" && !IsDigit(close[0]) && digits != "" && Blank(tail) && forall c | c in digits :: IsDigit(c)
    ensures NumberThen(digits + (close + tail), close) == Some(Decimal(digits))
  {
    SpanOfPrefix(digits, close + tail, IsDigit);
    Behind(digits, close + tail);
    Behind(close, tail);
  }

  /** A declaration is read back from its parts. */
  lemma DeclarationReads(head: string, open: string, number: string, value: nat, close: string, suffix: string)
    requires open != "" && !IsWord(open[0]) && NumberThen(number, close) == Some(value)
    requires EndsWith(head, suffix) && |suffix| < |head| && forall c | c in head :: IsWord(c)
    ensures NameAndNumber(head + (open + number), suffix, open, close) == Some((head[..|head| - |suffix|], value))
  {
    SpanOfPrefix(head, open + number, IsWord);
    Behind(head, open + number);
    Behind(open, number);
  }

  lemma BlankFeed()
    ensures Blank("\n")
  {
    assert "\n"[1..] == "";
  }

  lemma DecimalOne()
    ensures Decimal("1") == 1
  {
    assert "1"[..0] == "";
  }

  const LENGTH_REST := "a_len" + (" = " + ("1" + (";" + "\n")))
  const LENGTH_LINE := LENGTH_PREFIX + LENGTH_REST
  const ARRAY_REST := "a_data" + ("[" + ("1" + ("] = {" + "\n")))
  const ARRAY_LINE := ARRAY_PREFIX + ARRAY_REST

  lemma ArrayRestReads()
    ensures NameAndNumber(ARRAY_REST, "_data", "[", "] = {") == Some(("a", 1))
  {
    BlankFeed();
    DecimalOne();
    assert "a_data"[1..] == "_data" && "a_data"[..1] == "a";
    NumberReads("1", "] = {", "\n");
    DeclarationReads("a_data", "[", "1" + ("] = {" + "\n"), 1, "] = {", "_data");
  }

  lemma LengthRestReads()
    ensures NameAndNumber(LENGTH_REST, "_len", " = ", ";") == Some(("a", 1))
  {
    BlankFeed();
    DecimalOne();
    assert "a_len"[1..] == "_len" && "a_len"[..1] == "a";
    NumberReads("1", ";", "\n");
    DeclarationReads("a_len", " = ", "1" + (";" + "\n"), 1, ";", "_len");
  }

  lemma ArrayLineParses(line: string)
    requires line == ARRAY_LINE
    ensures ParseArray(line) == Some(("a", 1))
  {
    Behind(ARRAY_PREFIX, ARRAY_REST);
    ArrayRestReads();
  }

  lemma LengthLineParses(line: string)
    requires line == LENGTH_LINE
    ensures ParseLength(line) == Some(("a", 1)) && ParseArray(line) == None
  {
    Behind(LENGTH_PREFIX, LENGTH_REST);
    PrefixesDiffer(line);
    LengthRestReads();
  }

  /** A body line with one literal of one digit. */
  function ByteLine(digit: char): string {
    "0x" + [digit] + "};\n"
  }

  lemma ByteLineHolds(digit: char, line: string)
    requires IsHex(digit) && line == ByteLine(digit)
    ensures Closes(line) && BodyBytes([line]) == Some([DigitValue(digit)])
  {
    assert line == ['0', 'x', digit, '}', ';', '\n'];
    assert CloseFrom(line, 3) == 3 && CloseFrom(line, 2) == 3 && CloseFrom(line, 1) == 3 && CloseFrom(line, 0) == 3;
    var text := ['0', 'x', digit];
    var none: seq<string> := [];
    assert [line][..0] == none && Joined(none) == "" && "" + line[..3] == text && line[5..] == "\n";
    BlankFeed();
    var digits := [digit];
    assert text[2..] == digits;
    SpanIs(digits, IsHex, 0, 1);
    assert text[2..3] == digits && text[3..] == "" && digits[..0] == "";
    assert Hexadecimal(digits) == 16 * 0 + DigitValue(digit);
    assert StartsLiteral(text) && LiteralValue(text) == DigitValue(digit) && AfterLiteral(text) == "";
    ScanOfLiteral(text);
    assert Scan("") == Some([]) && [DigitValue(digit)] + [] == [DigitValue(digit)];
  }

  /** An array whose body is one line. */
  lemma OneLineArray(header: string, name: string, n: nat, line: string, rest: seq<string>)
    requires ParseArray(header) == Some((name, n)) && Closes(line)
    ensures Parse([header, line] + rest) == Prepend(Array(header, name, n, [line]), Parse(rest))
  {
    var lines := [header, line] + rest;
    var body := [line] + rest;
    assert lines[1..] == body && ClosingLine(body) == 0;
    assert body[..1] == [line] && body[1..] == rest;
  }

  /** A length line and two arrays of that name. */
  function Twice(length: string, header: string, first: string, second: string): seq<string> {
    [length] + ([header, first] + ([header, second] + []))
  }

  function TwiceItems(length: string, header: string, name: string, first: string, second: string): seq<Item> {
    [Plain(length)] + ([Array(header, name, 1, [first])] + ([Array(header, name, 1, [second])] + []))
  }

  lemma TwiceReads(length: string, header: string, name: string, first: string, second: string)
    requires ParseArray(length).None? && ParseArray(header) == Some((name, 1)) && Closes(first) && Closes(second)
    ensures Parse(Twice(length, header, first, second)) == Some(TwiceItems(length, header, name, first, second))
  {
    OneLineArray(header, name, 1, second, []);
    OneLineArray(header, name, 1, first, [header, second] + []);
    var lines := Twice(length, header, first, second);
    assert lines[0] == length && lines[1..] == [header, first] + ([header, second] + []);
  }

  lemma TwiceFits(length: string, header: string, name: string, first: string, second: string)
    requires ParseLength(length) == Some((name, 1)) && Holds([first], 1) && Holds([second], 1)
    ensures Valid(TwiceItems(length, header, name, first, second), map[])
  {
    var lengths := map[name := 1];
    var a, b := Array(header, name, 1, [first]), Array(header, name, 1, [second]);
    var last: seq<Item> := [b] + [];
    assert last[1..] == [] && Valid(last, lengths);
    assert ([a] + last)[1..] == last && Valid([a] + last, lengths);
    var items := TwiceItems(length, header, name, first, second);
    assert items[0] == Plain(length) && items[1..] == [a] + last && Learn(map[], length) == lengths;
  }

  lemma LastStays(items: seq<Item>, item: Item)
    requires |items| == 3 && items[2] == item && item.Array?
    ensures var out := EmitAll(items); BlobFile(item.name) in out.blobs && out.blobs[BlobFile(item.name)] == Bytes(item)
  {
    BlobIsLastDefinition(items, 2);
  }

  /** Such a source is accepted, and its one file holds the second array's byte: the first one's is lost. */
  lemma TwiceLosesBytes(length: string, header: string, name: string, first: string, second: string)
    requires ParseLength(length) == Some((name, 1)) && ParseArray(length).None? && ParseArray(header) == Some((name, 1))
    requires Holds([first], 1) && Holds([second], 1) && Closes(first) && Closes(second)
    ensures var source := Twice(length, header, first, second);
      && Accepted(source)
      && var out := EmitAll(Parse(source).value);
         BlobFile(name) in out.blobs && Some(out.blobs[BlobFile(name)]) == BodyBytes([second])
  {
    var items := TwiceItems(length, header, name, first, second);
    TwiceReads(length, header, name, first, second);
    TwiceFits(length, header, name, first, second);
    assert items[2] in items;
    LastStays(items, Array(header, name, 1, [second]));
  }

  /** For example. */
  lemma RepeatedSymbolInSource() returns (length: string, header: string, first: string, second: string)
    ensures length == LENGTH_LINE && header == ARRAY_LINE && first == ByteLine('1') && second == ByteLine('2')
    ensures var source := Twice(length, header, first, second);
      && Accepted(source) && BodyBytes([first]) == Some([1])
      && var out := EmitAll(Parse(source).value);
         BlobFile("a") in out.blobs && out.blobs[BlobFile("a")] == [2]
  {
    length, header := ExampleDeclarations();
    first, second := ExampleBodies();
    TwiceLosesBytes(length, header, "a", first, second);
  }

  lemma ExampleDeclarations() returns (length: string, header: string)
    ensures length == LENGTH_LINE && header == ARRAY_LINE
    ensures ParseLength(length) == Some(("a", 1)) && ParseArray(length).None? && ParseArray(header) == Some(("a", 1))
  {
    length, header := LENGTH_LINE, ARRAY_LINE;
    LengthLineParses(length);
    ArrayLineParses(header);
  }

  lemma ExampleBodies() returns (first: string, second: string)
    ensures first == ByteLine('1') && second == ByteLine('2')
    ensures Closes(first) && BodyBytes([first]) == Some([1]) && Closes(second) && BodyBytes([second]) == Some([2])
  {
    first, second := ByteLine('1'), ByteLine('2');
    ByteLineHolds('1', first);
    ByteLineHolds('2', second);
  }
}
