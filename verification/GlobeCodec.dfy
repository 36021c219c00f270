/** The country borders behind the network globe: polylines packed as zig-zag delta varints.
    Coordinates stay in the integer grid units of the table. Words are the unsigned values of the
    decoder's 32-bit integers, and its bit operators are written out on them. */
module GlobeCodec {
  import opened Common

  const WORD := 0x1_0000_0000

  type word = w: nat | w < WORD

  // ----- bit operators -----

  /** `x` with `k` zero bits appended, without any limit on its length. */
  function Scaled(x: nat, k: nat): nat {
    if k == 0 then x else 2 * Scaled(x, k - 1)
  }

  function Pow2(k: nat): nat {
    Scaled(1, k)
  }

  /** Bitwise or. */
  function Or(a: nat, b: nat): (r: nat)
    decreases a + b
  {
    if a == 0 then b
    else if b == 0 then a
    else 2 * Or(a / 2, b / 2) + (if a % 2 == 1 || b % 2 == 1 then 1 else 0)
  }

  lemma {:induction false} OrIsBounded(a: nat, b: nat, k: nat)
    requires a < Pow2(k) && b < Pow2(k)
    ensures Or(a, b) < Pow2(k)
  {
    if a != 0 && b != 0 {
      OrIsBounded(a / 2, b / 2, k - 1);
    }
  }

  lemma PowerOfWord()
    ensures Pow2(32) == WORD
  {
    assert Pow2(4) == 16 && Pow2(8) == 256;
    assert Pow2(12) == 4096 && Pow2(16) == 65536;
    assert Pow2(20) == 0x10_0000 && Pow2(24) == 0x100_0000;
    assert Pow2(28) == 0x1000_0000;
  }

  function OrWord(a: word, b: word): word {
    PowerOfWord();
    OrIsBounded(a, b, 32);
    Or(a, b)
  }

  /** The left shift takes its count modulo 32 and drops the bits that leave the word. */
  function ShiftLeft(w: word, count: nat): word {
    Scaled(w, count % 32) % WORD
  }

  lemma {:induction false} OrOfDisjoint(a: nat, x: nat, s: nat)
    requires a < Pow2(s)
    ensures Or(a, Scaled(x, s)) == a + Scaled(x, s)
    decreases s
  {
    if a != 0 && Scaled(x, s) != 0 {
      OrOfDisjoint(a / 2, x, s - 1);
    }
  }

  lemma {:induction false} ScaledSum(x: nat, y: nat, s: nat)
    ensures Scaled(x + y, s) == Scaled(x, s) + Scaled(y, s)
  {
    if s > 0 {
      ScaledSum(x, y, s - 1);
    }
  }

  lemma {:induction false} ScaledTwice(x: nat, s: nat)
    ensures Scaled(2 * x, s) == Scaled(x, s + 1)
  {
    ScaledSum(x, x, s);
  }

  lemma ScaledSeven(x: nat, s: nat)
    ensures Scaled(128 * x, s) == Scaled(x, s + 7)
  {
    ScaledTwice(64 * x, s);
    ScaledTwice(32 * x, s + 1);
    ScaledTwice(16 * x, s + 2);
    ScaledTwice(8 * x, s + 3);
    ScaledTwice(4 * x, s + 4);
    ScaledTwice(2 * x, s + 5);
    ScaledTwice(x, s + 6);
  }

  // ----- zig-zag -----

  /** Small magnitudes to small words: 0, -1, 1, -2, 2, ... */
  function Zig(d: int): (w: nat) {
    if d >= 0 then 2 * d else -2 * d - 1
  }

  predicate IsInt32(d: int) {
    -0x8000_0000 <= d <= 0x7fff_ffff
  }

  /** Half of the word, complemented if the word is odd. */
  function Unzig(w: word): (d: int)
    ensures IsInt32(d)
  {
    if w % 2 == 0 then w / 2 else -(w / 2) - 1
  }

  lemma ZigIsExact(d: int)
    ensures Zig(d) < WORD <==> IsInt32(d)
    ensures IsInt32(d) ==> Unzig(Zig(d)) == d
  {
  }

  // ----- varints: unsigned LEB128, section 7.6 of DWARF version 5 -----

  function Leb(w: nat): seq<byte> {
    if w < 128 then [w as byte] else [(w % 128 + 128) as byte] + Leb(w / 128)
  }

  /** Past the end of the table every byte reads as zero. */
  function Head(bytes: seq<byte>): nat {
    if bytes == [] then 0 else bytes[0] as nat
  }

  function Rest(bytes: seq<byte>): seq<byte> {
    if bytes == [] then [] else bytes[1..]
  }

  /** The bits read so far, with the low seven bits of a byte put above them. */
  function WithBits(result: word, b: nat, shift: nat): word {
    OrWord(result, ShiftLeft(b % 128, shift))
  }

  /** The word at the front of the bytes, given what has been read of it, and what follows it. */
  function ReadWord(bytes: seq<byte>, shift: nat, result: word): (r: (word, seq<byte>))
    ensures |r.1| <= |Rest(bytes)|
    decreases |bytes|
  {
    var next := WithBits(result, Head(bytes), shift);
    if Head(bytes) >= 128 then ReadWord(Rest(bytes), shift + 7, next) else (next, Rest(bytes))
  }

  lemma LowBits(x: nat, s: nat, result: word)
    requires Scaled(x, s) < WORD && s < 32 && result < Pow2(s) && x < WORD
    ensures OrWord(result, ShiftLeft(x, s)) == result + Scaled(x, s)
  {
    assert s % 32 == s;
    assert ShiftLeft(x, s) == Scaled(x, s);
    OrOfDisjoint(result, x, s);
  }

  lemma LowBitsOf(b: nat, v: nat, s: nat, result: word)
    requires b % 128 == v && Scaled(v, s) < WORD && s < 32 && result < Pow2(s)
    ensures result + Scaled(v, s) < WORD
    ensures WithBits(result, b, s) == result + Scaled(v, s)
  {
    LowBits(v, s, result);
  }

  lemma ReadLast(v: nat, rest: seq<byte>, s: nat, result: word)
    requires v < 128 && s < 32 && result < Pow2(s) && Scaled(v, s) < WORD
    ensures result + Scaled(v, s) < WORD
    ensures ReadWord([v as byte] + rest, s, result) == (result + Scaled(v, s), rest)
  {
    var bytes := [v as byte] + rest;
    assert Rest(bytes) == rest && Head(bytes) == v;
    LowBitsOf(v, v, s, result);
  }

  lemma ReadMore(v: nat, rest: seq<byte>, s: nat, result: word)
    requires v < 128 && s < 32 && result < Pow2(s) && Scaled(v, s) < WORD
    ensures result + Scaled(v, s) < WORD
    ensures ReadWord([(v + 128) as byte] + rest, s, result) == ReadWord(rest, s + 7, result + Scaled(v, s))
  {
    var bytes := [(v + 128) as byte] + rest;
    assert Rest(bytes) == rest && Head(bytes) == v + 128;
    LowBitsOf(v + 128, v, s, result);
  }

  lemma ScaledSplit(v: nat, s: nat)
    ensures Scaled(v % 128, s) + Scaled(v / 128, s + 7) == Scaled(v, s)
  {
    ScaledSum(v % 128, 128 * (v / 128), s);
    ScaledSeven(v / 128, s);
  }

  lemma LowFits(low: nat, s: nat, result: nat)
    requires low < 128 && result < Pow2(s)
    ensures result + Scaled(low, s) < Pow2(s + 7)
  {
    ScaledSum(1 + low, 127 - low, s);
    ScaledSum(1, low, s);
    ScaledSeven(1, s);
  }

  /** The bookkeeping of one more byte. */
  lemma Carry(v: nat, s: nat, result: nat)
    requires v >= 128 && s % 7 == 0 && s <= 28 && result < Pow2(s) && Scaled(v, s) < WORD
    ensures s + 7 <= 28
    ensures Scaled(v % 128, s) < WORD && Scaled(v / 128, s + 7) < WORD
    ensures result + Scaled(v % 128, s) < Pow2(s + 7)
    ensures result + Scaled(v % 128, s) + Scaled(v / 128, s + 7) == result + Scaled(v, s)
  {
    ScaledSplit(v, s);
    LowFits(v % 128, s, result);
    if s == 28 {
      ScaledSum(128, v - 128, 28);
      BigScale();
    }
  }

  lemma BigScale()
    ensures Scaled(128, 28) >= WORD
  {
    assert Scaled(128, 4) == 2048 && Scaled(128, 8) == 0x8000;
    assert Scaled(128, 12) == 0x8_0000 && Scaled(128, 16) == 0x80_0000;
    assert Scaled(128, 20) == 0x800_0000 && Scaled(128, 24) == 0x8000_0000;
  }

  /** Reading back a value of which the low `s` bits are already known. */
  lemma {:induction false} LebRoundTrip(v: nat, rest: seq<byte>, s: nat, result: word)
    requires s % 7 == 0 && s <= 28 && result < Pow2(s) && Scaled(v, s) < WORD
    ensures result + Scaled(v, s) < WORD
    ensures ReadWord(Leb(v) + rest, s, result) == (result + Scaled(v, s), rest)
    decreases v
  {
    if v < 128 {
      ReadLast(v, rest, s, result);
    } else {
      Carry(v, s, result);
      FirstOfLeb(v, rest);
      ReadMore(v % 128, Leb(v / 128) + rest, s, result);
      LebRoundTrip(v / 128, rest, s + 7, result + Scaled(v % 128, s));
    }
  }

  lemma FirstOfLeb(v: nat, rest: seq<byte>)
    requires v >= 128
    ensures Leb(v) + rest == [(v % 128 + 128) as byte] + (Leb(v / 128) + rest)
  {
    Regroup([(v % 128 + 128) as byte], Leb(v / 128), rest);
  }

  lemma Regroup<T>(a: seq<T>, b: seq<T>, c: seq<T>)
    ensures a + b + c == a + (b + c)
  {
  }

  lemma Uncons<T>(s: seq<T>)
    requires s != []
    ensures [s[0]] + s[1..] == s
  {
  }

  /** A number as the table holds it: zig-zag, then varint. */
  function Code(d: int): seq<byte> {
    Leb(Zig(d))
  }

  function Varint(bytes: seq<byte>): (r: (int, seq<byte>))
    ensures |r.1| <= |Rest(bytes)|
  {
    var (w, rest) := ReadWord(bytes, 0, 0);
    (Unzig(w), rest)
  }

  lemma CodeRoundTrip(d: int, rest: seq<byte>)
    requires IsInt32(d)
    ensures Varint(Code(d) + rest) == (d, rest)
  {
    ZigIsExact(d);
    LebRoundTrip(Zig(d), rest, 0, 0);
  }

  // ----- borders -----

  type Vertex = (int, int)
  type Line = seq<Vertex>

  const MAX_VERTICES := 100_000

  function EncodeFrom(line: Line, lon: int, lat: int): seq<byte> {
    if line == [] then []
    else Code(line[0].0 - lon) + (Code(line[0].1 - lat) + EncodeFrom(line[1..], line[0].0, line[0].1))
  }

  /** The vertex count, then each vertex as the step from the one before; the first from (0, 0). */
  function EncodeLine(line: Line): seq<byte> {
    Code(|line|) + EncodeFrom(line, 0, 0)
  }

  function Encode(lines: seq<Line>): seq<byte> {
    if lines == [] then [] else EncodeLine(lines[0]) + Encode(lines[1..])
  }

  /** Every step fits 32 bits. */
  predicate StepsFit(line: Line, lon: int, lat: int) {
    line == [] || (IsInt32(line[0].0 - lon) && IsInt32(line[0].1 - lat) && StepsFit(line[1..], line[0].0, line[0].1))
  }

  predicate Encodable(line: Line) {
    0 < |line| <= MAX_VERTICES && StepsFit(line, 0, 0)
  }

  function DecodeFrom(bytes: seq<byte>, count: nat, lon: int, lat: int): (r: (Line, seq<byte>))
    ensures |r.1| <= |bytes|
    decreases count
  {
    if count == 0 then ([], bytes)
    else
      var (dx, b) := Varint(bytes);
      var (dy, b') := Varint(b);
      var (line, rest) := DecodeFrom(b', count - 1, lon + dx, lat + dy);
      ([(lon + dx, lat + dy)] + line, rest)
  }

  function Decode(bytes: seq<byte>): seq<Line>
    decreases |bytes|
  {
    if bytes == [] then []
    else
      var (count, b) := Varint(bytes);
      if count <= 0 || count > MAX_VERTICES then []
      else
        var (line, rest) := DecodeFrom(b, count, 0, 0);
        [line] + Decode(rest)
  }

  lemma DecodeVertex(bytes: seq<byte>, b: seq<byte>, b': seq<byte>, count: nat, lon: int, lat: int, x: int, y: int,
                     line: Line, rest: seq<byte>)
    requires Varint(bytes) == (x - lon, b) && Varint(b) == (y - lat, b')
    requires DecodeFrom(b', count, x, y) == (line, rest)
    ensures DecodeFrom(bytes, count + 1, lon, lat) == ([(x, y)] + line, rest)
  {
  }

  lemma EncodeVertex(x: int, y: int, line: Line, lon: int, lat: int)
    ensures EncodeFrom([(x, y)] + line, lon, lat) == Code(x - lon) + (Code(y - lat) + EncodeFrom(line, x, y))
  {
    assert ([(x, y)] + line)[1..] == line;
  }

  lemma VertexRoundTrip(x: int, y: int, lon: int, lat: int, steps: seq<byte>, count: nat, line: Line, rest: seq<byte>)
    requires IsInt32(x - lon) && IsInt32(y - lat) && DecodeFrom(steps, count, x, y) == (line, rest)
    ensures DecodeFrom(Code(x - lon) + (Code(y - lat) + steps), count + 1, lon, lat) == ([(x, y)] + line, rest)
  {
    CodeRoundTrip(x - lon, Code(y - lat) + steps);
    CodeRoundTrip(y - lat, steps);
    DecodeVertex(Code(x - lon) + (Code(y - lat) + steps), Code(y - lat) + steps, steps, count, lon, lat, x, y, line, rest);
  }

  ghost predicate RoundTrips(line: Line, rest: seq<byte>, lon: int, lat: int) {
    DecodeFrom(EncodeFrom(line, lon, lat) + rest, |line|, lon, lat) == (line, rest)
  }

  lemma EmptyRoundTrips(rest: seq<byte>, lon: int, lat: int)
    ensures RoundTrips([], rest, lon, lat)
  {
    assert [] + rest == rest;
  }

  /** The bytes of a vertex and what follows them, taken together differently. */
  lemma RegroupVertex(dx: seq<byte>, dy: seq<byte>, steps: seq<byte>, rest: seq<byte>)
    ensures dx + (dy + steps) + rest == dx + (dy + (steps + rest))
  {
    Regroup(dx, dy + steps, rest);
    Regroup(dy, steps, rest);
  }

  lemma OneMoreRoundTrips(x: int, y: int, line: Line, rest: seq<byte>, lon: int, lat: int)
    requires IsInt32(x - lon) && IsInt32(y - lat) && RoundTrips(line, rest, x, y)
    ensures RoundTrips([(x, y)] + line, rest, lon, lat)
  {
    var steps := EncodeFrom(line, x, y);
    VertexRoundTrip(x, y, lon, lat, steps + rest, |line|, line, rest);
    EncodeVertex(x, y, line, lon, lat);
    RegroupVertex(Code(x - lon), Code(y - lat), steps, rest);
  }

  lemma {:induction false} VerticesRoundTrip(line: Line, rest: seq<byte>, lon: int, lat: int)
    requires StepsFit(line, lon, lat)
    ensures RoundTrips(line, rest, lon, lat)
    decreases |line|
  {
    if line == [] {
      EmptyRoundTrips(rest, lon, lat);
    } else {
      VerticesRoundTrip(line[1..], rest, line[0].0, line[0].1);
      OneMoreRoundTrips(line[0].0, line[0].1, line[1..], rest, lon, lat);
      Uncons(line);
    }
  }

  lemma LineRoundTrip(line: Line, rest: seq<byte>)
    requires Encodable(line)
    ensures Decode(EncodeLine(line) + rest) == [line] + Decode(rest)
  {
    Regroup(Code(|line|), EncodeFrom(line, 0, 0), rest);
    CodeRoundTrip(|line|, EncodeFrom(line, 0, 0) + rest);
    VerticesRoundTrip(line, rest, 0, 0);
  }

  /** Encoded borders decode to themselves; the decoder then goes on with whatever follows them. */
  lemma {:induction false} BordersRoundTrip(lines: seq<Line>, rest: seq<byte>)
    requires forall line | line in lines :: Encodable(line)
    ensures Decode(Encode(lines) + rest) == lines + Decode(rest)
    decreases |lines|
  {
    if lines == [] {
      assert [] + rest == rest && [] + Decode(rest) == Decode(rest);
    } else {
      Regroup(EncodeLine(lines[0]), Encode(lines[1..]), rest);
      LineRoundTrip(lines[0], Encode(lines[1..]) + rest);
      BordersRoundTrip(lines[1..], rest);
      Uncons(lines);
      Regroup([lines[0]], lines[1..], Decode(rest));
    }
  }

  /** As many vertices as asked for, each step of 32 bits. */
  ghost predicate Stepped(line: Line, count: nat, lon: int, lat: int) {
    |line| == count && StepsFit(line, lon, lat)
  }

  lemma {:induction false} DecodedStepsFit(bytes: seq<byte>, count: nat, lon: int, lat: int)
    ensures Stepped(DecodeFrom(bytes, count, lon, lat).0, count, lon, lat)
    decreases count
  {
    if count == 0 {
      assert DecodeFrom(bytes, 0, lon, lat).0 == [];
    } else {
      var first := Varint(bytes);
      var second := Varint(first.1);
      DecodedStepsFit(second.1, count - 1, lon + first.0, lat + second.0);
      DecodedVertexFits(bytes, first.1, second.1, first.0, second.0, count - 1, lon, lat);
    }
  }

  lemma DecodedVertexFits(bytes: seq<byte>, b: seq<byte>, b': seq<byte>, dx: int, dy: int, count: nat, lon: int, lat: int)
    requires Varint(bytes) == (dx, b) && Varint(b) == (dy, b')
    requires Stepped(DecodeFrom(b', count, lon + dx, lat + dy).0, count, lon + dx, lat + dy)
    ensures Stepped(DecodeFrom(bytes, count + 1, lon, lat).0, count + 1, lon, lat)
  {
    var (line, rest) := DecodeFrom(b', count, lon + dx, lat + dy);
    VarintFits(bytes);
    VarintFits(b);
    DecodeVertex(bytes, b, b', count, lon, lat, lon + dx, lat + dy, line, rest);
    FirstStepFits(dx, dy, line, lon, lat);
  }

  lemma VarintFits(bytes: seq<byte>)
    ensures IsInt32(Varint(bytes).0)
  {
  }

  lemma FirstStepFits(dx: int, dy: int, line: Line, lon: int, lat: int)
    requires IsInt32(dx) && IsInt32(dy) && StepsFit(line, lon + dx, lat + dy)
    ensures StepsFit([(lon + dx, lat + dy)] + line, lon, lat)
  {
    assert ([(lon + dx, lat + dy)] + line)[1..] == line;
  }

  /** Whatever the bytes, only encodable lines come out. */
  lemma {:induction false} DecodedLinesAreEncodable(bytes: seq<byte>)
    ensures forall line | line in Decode(bytes) :: Encodable(line)
    decreases |bytes|
  {
    if bytes != [] {
      var (count, b) := Varint(bytes);
      if 0 < count <= MAX_VERTICES {
        DecodedStepsFit(b, count, 0, 0);
        DecodedLinesAreEncodable(DecodeFrom(b, count, 0, 0).1);
      }
    }
  }

  /** A table decodes to the lines it was encoded from if and only if each line has between one and
      MAX_VERTICES vertices and steps of 32 bits. */
  lemma EncodeRoundTripIff(lines: seq<Line>)
    ensures Decode(Encode(lines)) == lines <==> forall line | line in lines :: Encodable(line)
  {
    DecodedLinesAreEncodable(Encode(lines));
    if forall line | line in lines :: Encodable(line) {
      BordersRoundTrip(lines, []);
      assert Encode(lines) + [] == Encode(lines) && lines + [] == lines;
    }
  }

  // ----- the decoder -----

  /** The bytes from a cursor on; the cursor may have moved past the end. */
  function From(bytes: seq<byte>, cursor: nat): seq<byte> {
    if cursor <= |bytes| then bytes[cursor..] else []
  }

  /** Past the end every byte is zero. */
  function ByteAt(bytes: seq<byte>, cursor: nat): nat {
    if cursor < |bytes| then bytes[cursor] as nat else 0
  }

  lemma FromNext(bytes: seq<byte>, cursor: nat)
    ensures From(bytes, cursor + 1) == Rest(From(bytes, cursor))
    ensures Head(From(bytes, cursor)) == ByteAt(bytes, cursor)
  {
  }

  lemma ReadWordStep(rest: seq<byte>, shift: nat, result: word, next: word)
    requires next == WithBits(result, Head(rest), shift)
    ensures ReadWord(rest, shift, result) == if Head(rest) >= 128 then ReadWord(Rest(rest), shift + 7, next) else (next, Rest(rest))
  {
  }

  method ReadVarint(bytes: seq<byte>, start: nat) returns (value: int, cursor: nat)
    ensures cursor > start && (value, From(bytes, cursor)) == Varint(From(bytes, start))
  {
    var result;
    result, cursor := ReadBits(bytes, start);
    value := Unzig(result);
  }

  method ReadBits(bytes: seq<byte>, start: nat) returns (result: word, cursor: nat)
    ensures cursor > start && ReadWord(From(bytes, start), 0, 0) == (result, From(bytes, cursor))
  {
    var shift := 0;
    result, cursor := 0, start;
    var more := true;
    ghost var rest := From(bytes, start);
    ghost var goal := ReadWord(rest, 0, 0);
    while more
      invariant cursor >= start && (cursor == start ==> more) && rest == From(bytes, cursor)
      invariant more ==> ReadWord(rest, shift, result) == goal
      invariant !more ==> (result, rest) == goal
      decreases more, if cursor < |bytes| then |bytes| - cursor else 0
    {
      FromNext(bytes, cursor);
      var b := ByteAt(bytes, cursor);
      var next := WithBits(result, b, shift);
      ReadWordStep(rest, shift, result, next);
      rest := Rest(rest);
      cursor, result, shift, more := cursor + 1, next, shift + 7, b >= 128;
    }
  }

  /** The line read so far, and what is still to come, make up `goal`. */
  ghost predicate Reading(goal: (Line, seq<byte>), line: Line, bytes: seq<byte>, count: nat, lon: int, lat: int) {
    exists more, rest :: DecodeFrom(bytes, count, lon, lat) == (more, rest) && goal == (line + more, rest)
  }

  lemma ReadingStarts(bytes: seq<byte>, count: nat)
    ensures Reading(DecodeFrom(bytes, count, 0, 0), [], bytes, count, 0, 0)
  {
    var (more, rest) := DecodeFrom(bytes, count, 0, 0);
    assert [] + more == more;
  }

  lemma ReadingStep(goal: (Line, seq<byte>), line: Line, bytes: seq<byte>, b: seq<byte>, b': seq<byte>,
                    count: nat, lon: int, lat: int, x: int, y: int)
    requires Reading(goal, line, bytes, count + 1, lon, lat)
    requires Varint(bytes) == (x - lon, b) && Varint(b) == (y - lat, b')
    ensures Reading(goal, line + [(x, y)], b', count, x, y)
  {
    var (more, rest) := DecodeFrom(b', count, x, y);
    DecodeVertex(bytes, b, b', count, lon, lat, x, y, more, rest);
    Regroup(line, [(x, y)], more);
  }

  lemma ReadingEnds(goal: (Line, seq<byte>), line: Line, rest: seq<byte>, lon: int, lat: int)
    requires Reading(goal, line, rest, 0, lon, lat)
    ensures goal == (line, rest)
  {
    assert line + [] == line;
  }

  method ReadVertex(bytes: seq<byte>, start: nat, lon: int, lat: int, ghost goal: (Line, seq<byte>), ghost line: Line, ghost count: nat)
    returns (x: int, y: int, cursor: nat)
    requires Reading(goal, line, From(bytes, start), count + 1, lon, lat)
    ensures cursor >= start && Reading(goal, line + [(x, y)], From(bytes, cursor), count, x, y)
  {
    var dx, next := ReadVarint(bytes, start);
    var dy;
    dy, cursor := ReadVarint(bytes, next);
    x, y := lon + dx, lat + dy;
    ReadingStep(goal, line, From(bytes, start), From(bytes, next), From(bytes, cursor), count, lon, lat, x, y);
  }

  method ReadLine(bytes: seq<byte>, start: nat, count: nat) returns (line: Line, cursor: nat)
    ensures cursor >= start && (line, From(bytes, cursor)) == DecodeFrom(From(bytes, start), count, 0, 0)
  {
    line, cursor := [], start;
    var lon, lat := 0, 0;
    ghost var rest := From(bytes, start);
    ghost var goal := DecodeFrom(rest, count, 0, 0);
    ReadingStarts(rest, count);
    for i := 0 to count
      invariant cursor >= start && rest == From(bytes, cursor) && Reading(goal, line, rest, count - i, lon, lat)
    {
      lon, lat, cursor := ReadVertex(bytes, cursor, lon, lat, goal, line, count - i - 1);
      rest := From(bytes, cursor);
      line := line + [(lon, lat)];
    }
    ReadingEnds(goal, line, rest, lon, lat);
  }

  /** Ends on every byte string, also on truncated and malformed ones, and gives its meaning. */
  method DecodeBorders(bytes: seq<byte>) returns (lines: seq<Line>)
    ensures lines == Decode(bytes)
  {
    lines := [];
    var cursor := 0;
    while cursor < |bytes|
      invariant Decode(bytes) == lines + Decode(From(bytes, cursor))
      decreases if cursor < |bytes| then |bytes| - cursor else 0
    {
      var count, next := ReadVarint(bytes, cursor);
      if count <= 0 || count > MAX_VERTICES {
        return;
      }
      var line, end := ReadLine(bytes, next, count);
      Regroup(lines, [line], Decode(From(bytes, end)));
      lines := lines + [line];
      cursor := end;
    }
  }
}
