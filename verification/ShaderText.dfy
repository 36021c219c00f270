/** The text side of the shader launcher: which lines declare arrays and lengths, where an array
    ends, and which bytes its initializer spells. */
module ShaderText {
  import opened Common

  const ARRAY_PREFIX := "const unsigned char "
  const LENGTH_PREFIX := "const uint64_t "

  // ----- recognising lines -----

  predicate IsSpace(c: char) {
    c == ' ' || '\t' <= c <= '\r' || '\U{1C}' <= c <= '\U{1F}'
  }

  predicate IsDigit(c: char) {
    '0' <= c <= '9'
  }

  predicate IsWord(c: char) {
    IsDigit(c) || 'a' <= c <= 'z' || 'A' <= c <= 'Z' || c == '_'
  }

  predicate IsHex(c: char) {
    IsDigit(c) || 'a' <= c <= 'f' || 'A' <= c <= 'F'
  }

  predicate Blank(s: string) {
    s == "" || (IsSpace(s[0]) && Blank(s[1..]))
  }

  function SpanFrom(s: string, p: char -> bool, from: nat): (n: nat)
    requires from <= |s|
    ensures from <= n <= |s| && (n < |s| ==> !p(s[n]))
    decreases |s| - from
  {
    if from == |s| || !p(s[from]) then from else SpanFrom(s, p, from + 1)
  }

  /** The length of the longest prefix whose characters all satisfy `p`. */
  function Span(s: string, p: char -> bool): (n: nat)
    ensures n <= |s| && (n < |s| ==> !p(s[n]))
  {
    SpanFrom(s, p, 0)
  }

  lemma {:induction false} SpanHolds(s: string, p: char -> bool, from: nat, i: nat)
    requires from <= |s| && from <= i < SpanFrom(s, p, from)
    ensures i < |s| && p(s[i])
    decreases |s| - from
  {
    if from < i {
      SpanHolds(s, p, from + 1, i);
    }
  }

  /** The value of a digit in base ten or sixteen. */
  function DigitValue(c: char): nat {
    if IsDigit(c) then (c - '0') as nat
    else if 'a' <= c <= 'f' then 10 + (c - 'a') as nat
    else if 'A' <= c <= 'F' then 10 + (c - 'A') as nat
    else 0
  }

  function Decimal(digits: string): nat {
    if digits == "" then 0 else 10 * Decimal(digits[..|digits| - 1]) + DigitValue(digits[|digits| - 1])
  }

  function Hexadecimal(digits: string): nat {
    if digits == "" then 0 else 16 * Hexadecimal(digits[..|digits| - 1]) + DigitValue(digits[|digits| - 1])
  }

  predicate EndsWith(s: string, suffix: string) {
    |suffix| <= |s| && s[|s| - |suffix|..] == suffix
  }

  /** A number, and `close` followed by blanks only. */
  function NumberThen(s: string, close: string): Option<nat> {
    var d := Span(s, IsDigit);
    if d > 0 && close <= s[d..] && Blank(s[d..][|close|..]) then Some(Decimal(s[..d])) else None
  }

  /** A name with a suffix, then `open`, a number, and `close` followed by blanks only. */
  function NameAndNumber(s: string, suffix: string, open: string, close: string): Option<(string, nat)> {
    var w := Span(s, IsWord);
    var head, rest := s[..w], s[w..];
    if !(EndsWith(head, suffix) && |suffix| < |head| && open <= rest) then None
    else
      var number := NumberThen(rest[|open|..], close);
      if number.Some? then Some((head[..w - |suffix|], number.value)) else None
  }

  /** `const unsigned char NAME_data[N] = {` */
  function ParseArray(line: string): Option<(string, nat)> {
    if ARRAY_PREFIX <= line then NameAndNumber(line[|ARRAY_PREFIX|..], "_data", "[", "] = {") else None
  }

  /** `const uint64_t NAME_len = N;` */
  function ParseLength(line: string): Option<(string, nat)> {
    if LENGTH_PREFIX <= line then NameAndNumber(line[|LENGTH_PREFIX|..], "_len", " = ", ";") else None
  }

  lemma NoLineIsBoth(line: string)
    requires ParseArray(line).Some?
    ensures ParseLength(line).None?
  {
    PrefixesDiffer(line);
  }

  lemma PrefixesDiffer(line: string)
    ensures !(ARRAY_PREFIX <= line && LENGTH_PREFIX <= line)
  {
    assert ARRAY_PREFIX[7] == 'n' && LENGTH_PREFIX[7] == 'i';
    if ARRAY_PREFIX <= line {
      assert line[7] == 'n';
    }
  }

  function CloseFrom(line: string, from: nat): (k: nat)
    requires from <= |line|
    ensures from <= k <= |line| && (k < |line| ==> k + 2 <= |line|)
    decreases |line| - from
  {
    if |line| < from + 2 then |line|
    else if line[from] == '}' && line[from + 1] == ';' then from
    else CloseFrom(line, from + 1)
  }

  /** Where `};` first stands in a line, or the length of the line. */
  function CloseIn(line: string): (k: nat)
    ensures k <= |line| && (k < |line| ==> k + 2 <= |line|)
  {
    CloseFrom(line, 0)
  }

  predicate Closes(line: string) {
    CloseIn(line) < |line|
  }

  // ----- array literals -----

  predicate IsSeparator(c: char) {
    IsSpace(c) || c == ','
  }

  /** The numbers in a text made of hexadecimal literals, blanks and commas only. */
  function Scan(s: string): Option<seq<nat>> {
    if s == "" then Some([])
    else if IsSeparator(s[0]) then Scan(s[1..])
    else if "0x" <= s && Span(s[2..], IsHex) > 0 then
      var n := Span(s[2..], IsHex);
      Both(Some([Hexadecimal(s[2..2 + n])]), Scan(s[2 + n..]))
    else None
  }

  function Both(a: Option<seq<nat>>, b: Option<seq<nat>>): Option<seq<nat>> {
    if a.Some? && b.Some? then Some(a.value + b.value) else None
  }

  lemma BothAssociates(a: Option<seq<nat>>, b: Option<seq<nat>>, c: Option<seq<nat>>)
    ensures Both(a, Both(b, c)) == Both(Both(a, b), c)
  {
    if a.Some? && b.Some? && c.Some? {
      assert a.value + (b.value + c.value) == a.value + b.value + c.value;
    }
  }

  lemma {:induction false} SpanFromStops(s: string, t: string, p: char -> bool, from: nat)
    requires from <= |s| && SpanFrom(s, p, from) < |s|
    ensures SpanFrom(s + t, p, from) == SpanFrom(s, p, from)
    decreases |s| - from
  {
    assert (s + t)[from] == s[from];
    if p(s[from]) {
      SpanFromStops(s, t, p, from + 1);
    }
  }

  lemma SpanStops(s: string, t: string, p: char -> bool)
    requires Span(s, p) < |s|
    ensures Span(s + t, p) == Span(s, p)
  {
    SpanFromStops(s, t, p, 0);
  }

  /** A span ends before a character that it does not take. */
  lemma SpanEnds(s: string, p: char -> bool, i: nat)
    requires i < |s| && !p(s[i])
    ensures Span(s, p) <= i
  {
    if i < Span(s, p) {
      SpanHolds(s, p, 0, i);
    }
  }

  /** What follows a literal, and its value. */
  function AfterLiteral(s: string): string
    requires "0x" <= s
  {
    s[2 + Span(s[2..], IsHex)..]
  }

  function LiteralValue(s: string): nat
    requires "0x" <= s
  {
    Hexadecimal(s[2..2 + Span(s[2..], IsHex)])
  }

  predicate StartsLiteral(s: string) {
    s != "" && !IsSeparator(s[0]) && "0x" <= s && Span(s[2..], IsHex) > 0
  }

  lemma ScanOfLiteral(s: string)
    requires StartsLiteral(s)
    ensures Scan(s) == Both(Some([LiteralValue(s)]), Scan(AfterLiteral(s)))
  {
  }

  predicate EndsApart(a: string) {
    a == "" || IsSeparator(a[|a| - 1])
  }

  lemma LiteralStays(a: string, b: string)
    requires a != "" && EndsApart(a) && StartsLiteral(a)
    ensures StartsLiteral(a + b) && LiteralValue(a + b) == LiteralValue(a) && AfterLiteral(a + b) == AfterLiteral(a) + b
    ensures EndsApart(AfterLiteral(a)) && |AfterLiteral(a)| < |a|
  {
    var n := Span(a[2..], IsHex);
    SpanEnds(a[2..], IsHex, |a| - 3);
    assert (a + b)[2..] == a[2..] + b;
    SpanStops(a[2..], b, IsHex);
    assert (a + b)[2..2 + n] == a[2..2 + n] && (a + b)[2 + n..] == a[2 + n..] + b;
  }

  /** A literal never runs across a separator, so text may be scanned piece by piece. */
  lemma {:induction false} ScanConcat(a: string, b: string)
    requires EndsApart(a)
    ensures Scan(a + b) == Both(Scan(a), Scan(b))
    decreases |a|
  {
    if a == "" {
      assert a + b == b;
      BothOfNone(Scan(b));
    } else if IsSeparator(a[0]) {
      assert (a + b)[1..] == a[1..] + b;
      ScanConcat(a[1..], b);
    } else if StartsLiteral(a) {
      LiteralStays(a, b);
      ScanOfLiteral(a);
      ScanOfLiteral(a + b);
      ScanConcat(AfterLiteral(a), b);
      BothAssociates(Some([LiteralValue(a)]), Scan(AfterLiteral(a)), Scan(b));
    } else {
      LiteralNeedsDigits(a, b);
    }
  }

  lemma BothOfNone(a: Option<seq<nat>>)
    ensures Both(Some([]), a) == a
  {
    assert a.Some? ==> [] + a.value == a.value;
  }

  lemma LiteralNeedsDigits(a: string, b: string)
    requires a != "" && EndsApart(a) && !IsSeparator(a[0]) && !StartsLiteral(a)
    ensures Scan(a) == None && Scan(a + b) == None
  {
    if "0x" <= a + b {
      assert (a + b)[0] == a[0] && (a + b)[1] == 'x';
      assert |a| > 2;
      SpanEnds(a[2..], IsHex, |a| - 3);
      assert (a + b)[2..] == a[2..] + b;
      SpanStops(a[2..], b, IsHex);
    }
  }

  // ----- array bodies -----

  function LineFrom(lines: seq<string>, from: nat): (k: nat)
    requires from <= |lines|
    ensures from <= k <= |lines| && (k < |lines| ==> Closes(lines[k]))
    decreases |lines| - from
  {
    if from == |lines| || Closes(lines[from]) then from else LineFrom(lines, from + 1)
  }

  /** The first line that closes an array, or the number of lines. */
  function ClosingLine(lines: seq<string>): (k: nat)
    ensures k <= |lines| && (k < |lines| ==> Closes(lines[k]))
  {
    LineFrom(lines, 0)
  }

  lemma {:induction false} OpenBefore(lines: seq<string>, from: nat, j: nat)
    requires from <= |lines| && from <= j < LineFrom(lines, from)
    ensures j < |lines| && !Closes(lines[j])
    decreases |lines| - from
  {
    if from < j {
      OpenBefore(lines, from + 1, j);
    }
  }

  function Joined(lines: seq<string>): string {
    if lines == [] then "" else Joined(lines[..|lines| - 1]) + lines[|lines| - 1]
  }

  /** The initializer text of a body, whose last line closes it, as one string. */
  function Initializer(body: seq<string>): string
    requires body != []
  {
    var k := |body| - 1;
    Joined(body[..k]) + body[k][..CloseIn(body[k])]
  }

  /** The bytes of a whole body: nothing but literals up to the closing mark, nothing but blanks
      after it, and every literal a byte. */
  function BodyBytes(body: seq<string>): Option<seq<nat>> {
    if body == [] || !Closes(body[|body| - 1]) then None
    else
      var last := body[|body| - 1];
      var bytes := Scan(Initializer(body));
      if Blank(last[CloseIn(last) + 2..]) && bytes.Some? && AllBytes(bytes.value) then bytes else None
  }

  predicate AllBytes(s: seq<nat>) {
    forall b | b in s :: b < 256
  }

  /** Lines as a file yields them: all but the last end in a line feed. */
  predicate FileLines(lines: seq<string>) {
    forall i | 0 <= i < |lines| - 1 :: EndsLine(lines[i])
  }

  predicate EndsLine(line: string) {
    line != "" && line[|line| - 1] == '\n'
  }

  lemma {:induction false} JoinedEndsInSeparator(lines: seq<string>, k: nat)
    requires FileLines(lines) && k < |lines|
    ensures EndsApart(Joined(lines[..k]))
  {
    if k > 0 {
      assert lines[..k][..k - 1] == lines[..k - 1];
      assert EndsLine(lines[k - 1]);
      assert Joined(lines[..k]) == Joined(lines[..k - 1]) + lines[k - 1];
    }
  }

  /** The literals of the first `k` lines of a body. */
  function Part(lines: seq<string>, k: nat): Option<seq<nat>>
    requires k <= |lines|
  {
    Scan(Joined(lines[..k]))
  }

  lemma PartGrows(lines: seq<string>, k: nat)
    requires FileLines(lines) && k < |lines|
    ensures Part(lines, k + 1) == Both(Part(lines, k), Scan(lines[k]))
  {
    assert lines[..k + 1][..k] == lines[..k];
    JoinedEndsInSeparator(lines, k);
    ScanConcat(Joined(lines[..k]), lines[k]);
  }

  lemma LastPiece(lines: seq<string>, k: nat)
    requires FileLines(lines) && k < |lines|
    ensures Scan(Initializer(lines[..k + 1])) == Both(Part(lines, k), Scan(lines[k][..CloseIn(lines[k])]))
  {
    assert lines[..k + 1][..k] == lines[..k];
    JoinedEndsInSeparator(lines, k);
    ScanConcat(Joined(lines[..k]), lines[k][..CloseIn(lines[k])]);
  }

  /** What is wrong with a piece of a body is wrong with the whole initializer. */
  lemma {:induction false} PartIsPrefix(lines: seq<string>, k: nat, n: nat) returns (more: Option<seq<nat>>)
    requires FileLines(lines) && k <= n < |lines|
    ensures Scan(Initializer(lines[..n + 1])) == Both(Part(lines, k), more)
    decreases n - k
  {
    if k == n {
      LastPiece(lines, n);
      more := Scan(lines[n][..CloseIn(lines[n])]);
    } else {
      var rest := PartIsPrefix(lines, k + 1, n);
      PartWithMore(lines, k, rest);
      more := Both(Scan(lines[k]), rest);
    }
  }

  lemma PartWithMore(lines: seq<string>, k: nat, more: Option<seq<nat>>)
    requires FileLines(lines) && k < |lines|
    ensures Both(Part(lines, k + 1), more) == Both(Part(lines, k), Both(Scan(lines[k]), more))
  {
    PartGrows(lines, k);
    BothAssociates(Part(lines, k), Scan(lines[k]), more);
  }

  /** No initializer that starts like this can hold `expected` bytes and nothing else. */
  predicate Hopeless(literals: Option<seq<nat>>, expected: nat) {
    literals.None? || |literals.value| > expected || !AllBytes(literals.value)
  }

  /** The body holds exactly so many bytes. */
  predicate Holds(body: seq<string>, expected: nat) {
    BodyBytes(body).Some? && |BodyBytes(body).value| == expected
  }

  lemma HopelessPart(lines: seq<string>, k: nat, n: nat, expected: nat)
    requires FileLines(lines) && k <= n < |lines| && Hopeless(Part(lines, k), expected)
    ensures !Holds(lines[..n + 1], expected)
  {
    var more := PartIsPrefix(lines, k, n);
    var whole := Scan(Initializer(lines[..n + 1]));
    if whole.Some? && !AllBytes(Part(lines, k).value) {
      var b :| b in Part(lines, k).value && b >= 256;
      assert b in whole.value;
    }
  }

  lemma HopelessMore(data: seq<nat>, more: Option<seq<nat>>, expected: nat)
    requires !Hopeless(Some(data), expected)
    ensures Hopeless(Both(Some(data), more), expected) <==>
      more.None? || !AllBytes(more.value) || |data| + |more.value| > expected
  {
    if more.Some? {
      assert forall b | b in data + more.value :: b in data || b in more.value;
      assert forall b | b in more.value :: b in data + more.value;
    }
  }

  datatype ConvertError =
    | GeometryMismatch
    | UnexpectedTrailer
    | NonliteralData
    | SizeExceeded
    | Incomplete
    | NotRecognized

  /** The part of a line that belongs to the initializer, and what stands behind the closing mark. */
  function Piece(line: string): string {
    line[..CloseIn(line)]
  }

  function Trailer(line: string): string {
    if Closes(line) then line[CloseIn(line) + 2..] else ""
  }

  /** What reading one line of a body makes of the bytes before it. */
  predicate Taken(line: string, data: seq<nat>, expected: nat, r: Result<seq<nat>, ConvertError>) {
    var whole := Both(Some(data), Scan(Piece(line)));
    && (r.Success? <==> Blank(Trailer(line)) && !Hopeless(whole, expected))
    && (r.Success? ==> Some(r.value) == whole)
  }

  /** One line of a body. */
  method TakeLine(line: string, data: seq<nat>, expected: nat) returns (r: Result<seq<nat>, ConvertError>)
    requires !Hopeless(Some(data), expected)
    ensures Taken(line, data, expected, r)
  {
    if !Blank(Trailer(line)) {
      return Failure(UnexpectedTrailer);
    }
    var literals := Scan(Piece(line));
    HopelessMore(data, literals, expected);
    if literals.None? {
      return Failure(NonliteralData);
    }
    if !AllBytes(literals.value) {
      return Failure(NonliteralData);
    }
    if |data| + |literals.value| > expected {
      return Failure(SizeExceeded);
    }
    return Success(data + literals.value);
  }

  /** The closing line settles whether the body holds the bytes. */
  lemma BodyCloses(lines: seq<string>, k: nat, data: seq<nat>, expected: nat)
    requires FileLines(lines) && k < |lines| && Closes(lines[k]) && Part(lines, k) == Some(data)
    ensures var whole := Both(Some(data), Scan(Piece(lines[k])));
      && (Holds(lines[..k + 1], expected)
          <==> Blank(Trailer(lines[k])) && whole.Some? && AllBytes(whole.value) && |whole.value| == expected)
      && (Holds(lines[..k + 1], expected) ==> BodyBytes(lines[..k + 1]) == whole)
  {
    LastPiece(lines, k);
  }

  /** A line that does not close the body either keeps it readable or spoils it for good. */
  lemma BodyGoesOn(lines: seq<string>, k: nat, data: seq<nat>, expected: nat)
    requires FileLines(lines) && k < ClosingLine(lines) && Part(lines, k) == Some(data)
    ensures Part(lines, k + 1) == Both(Some(data), Scan(Piece(lines[k]))) && Trailer(lines[k]) == ""
    ensures var end := ClosingLine(lines);
      end < |lines| && Hopeless(Part(lines, k + 1), expected) ==> !Holds(lines[..end + 1], expected)
  {
    PartGrows(lines, k);
    var end := ClosingLine(lines);
    OpenBefore(lines, 0, k);
    assert !Closes(lines[k]) && Piece(lines[k]) == lines[k];
    if end < |lines| && Hopeless(Part(lines, k + 1), expected) {
      HopelessPart(lines, k + 1, end, expected);
    }
  }

  /** Some lines of a body are read and not yet hopeless. */
  predicate Reading(lines: seq<string>, used: nat, data: seq<nat>, expected: nat)
    requires used <= |lines|
  {
    used <= ClosingLine(lines) && Part(lines, used) == Some(data) && !Hopeless(Some(data), expected)
  }

  /** The lines start with a body of so many bytes. */
  predicate Wanted(lines: seq<string>, expected: nat) {
    var k := ClosingLine(lines);
    k < |lines| && Holds(lines[..k + 1], expected)
  }

  lemma LastLineTaken(lines: seq<string>, k: nat, data: seq<nat>, expected: nat, r: Result<seq<nat>, ConvertError>)
    requires FileLines(lines) && k < |lines| && Closes(lines[k]) && Reading(lines, k, data, expected)
    requires Taken(lines[k], data, expected, r)
    ensures k == ClosingLine(lines)
    ensures Wanted(lines, expected) <==> r.Success? && |r.value| == expected
    ensures Wanted(lines, expected) ==> BodyBytes(lines[..k + 1]) == Some(r.value)
  {
    if k < ClosingLine(lines) {
      OpenBefore(lines, 0, k);
    }
    BodyCloses(lines, k, data, expected);
  }

  lemma LineTaken(lines: seq<string>, k: nat, data: seq<nat>, expected: nat, r: Result<seq<nat>, ConvertError>)
    requires FileLines(lines) && k < |lines| && !Closes(lines[k]) && Reading(lines, k, data, expected)
    requires Taken(lines[k], data, expected, r)
    ensures r.Success? ==> Reading(lines, k + 1, r.value, expected)
    ensures r.Failure? ==> !Wanted(lines, expected)
  {
    BodyGoesOn(lines, k, data, expected);
  }

  /** Reads the body of an array from the lines after its header; `used` lines made it up. The size
      is checked after every line, which refuses exactly what one check at the end would refuse. */
  method ReadBody(lines: seq<string>, expected: nat) returns (r: Result<seq<nat>, ConvertError>, used: nat)
    requires FileLines(lines)
    ensures r.Success? <==> Wanted(lines, expected)
    ensures r.Success? ==> used == ClosingLine(lines) + 1 && used <= |lines| && BodyBytes(lines[..used]) == Some(r.value)
  {
    used := 0;
    var data: seq<nat> := [];
    while used < |lines|
      invariant used <= |lines| && Reading(lines, used, data, expected)
      decreases |lines| - used
    {
      var taken := TakeLine(lines[used], data, expected);
      if Closes(lines[used]) {
        LastLineTaken(lines, used, data, expected, taken);
        if taken.Failure? {
          return taken, 0;
        }
        if |taken.value| != expected {
          return Failure(Incomplete), 0;
        }
        return taken, used + 1;
      }
      LineTaken(lines, used, data, expected, taken);
      if taken.Failure? {
        return taken, 0;
      }
      data := taken.value;
      used := used + 1;
    }
    return Failure(Incomplete), 0;
  }
}
