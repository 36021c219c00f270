/** Activation sketches: which coordinates a seed selects, and the verdict on two sketches. Numbers
    are exact reals; the hash and the square root are parameters. */
module ActivationSketch {
  import opened Common
  import opened RealArithmetic

  const MAX_SAMPLE_COUNT := 1_024
  const MAX_ELEMENT_COUNT := 0x100_0000_0000

  // ----- projection indices -----

  /** The residue drawn at a counter. */
  function Draw(digest: nat -> nat, elements: nat, counter: nat): nat
    requires elements > 0
  {
    digest(counter) % elements
  }

  /** The distinct residues among the first `n` draws, in order of appearance. */
  function Drawn(digest: nat -> nat, elements: nat, n: nat): seq<nat>
    requires elements > 0
  {
    if n == 0 then []
    else
      var before := Drawn(digest, elements, n - 1);
      var x := Draw(digest, elements, n - 1);
      if x in before then before else before + [x]
  }

  predicate Distinct(s: seq<nat>) {
    forall i, j | 0 <= i < j < |s| :: s[i] != s[j]
  }

  lemma {:induction false} DrawnIsExact(digest: nat -> nat, elements: nat, n: nat)
    requires elements > 0
    ensures Distinct(Drawn(digest, elements, n))
    ensures forall x | x in Drawn(digest, elements, n) :: x < elements
    ensures forall x :: x in Drawn(digest, elements, n) <==> exists i: nat | i < n :: Draw(digest, elements, i) == x
  {
    if n > 0 {
      DrawnIsExact(digest, elements, n - 1);
      var before, x := Drawn(digest, elements, n - 1), Draw(digest, elements, n - 1);
      forall y ensures y in Drawn(digest, elements, n) <==> exists i: nat | i < n :: Draw(digest, elements, i) == y {
        assert y in Drawn(digest, elements, n) <==> y in before || y == x;
        if i: nat :| i < n && Draw(digest, elements, i) == y {
          assert i < n - 1 || y == x;
        }
      }
    }
  }

  lemma {:induction false} DrawnGrows(digest: nat -> nat, elements: nat, m: nat, n: nat)
    requires elements > 0 && m <= n
    ensures Drawn(digest, elements, m) <= Drawn(digest, elements, n)
    decreases n
  {
    if m < n {
      DrawnGrows(digest, elements, m, n - 1);
    }
  }

  datatype SketchError = BadSeed | BadElementCount | BadSampleCount | BadSchema | BadCommitment | BadProjection | BadNorm
    | BadThreshold | Mismatch | Diverged

  predicate CountsValid(elements: int, samples: int) {
    1 <= elements <= MAX_ELEMENT_COUNT && 1 <= samples <= MAX_SAMPLE_COUNT && samples <= elements
  }

  /** The stream shows `samples` different residues by the `enough`-th draw. */
  ghost predicate Reaches(digest: nat -> nat, elements: int, samples: int, enough: nat) {
    elements > 0 && |Drawn(digest, elements, enough)| >= samples
  }

  /** The first `samples` distinct residues of the stream. Ends whenever the stream reaches them;
      no other bound on the number of draws is needed. */
  method ProjectionIndices(digest: nat -> nat, elements: int, samples: int, ghost enough: nat)
    returns (r: Result<seq<nat>, SketchError>)
    requires CountsValid(elements, samples) ==> Reaches(digest, elements, samples, enough)
    ensures r.Success? <==> CountsValid(elements, samples)
    ensures r.Success? ==> |r.value| == samples && r.value == Drawn(digest, elements, enough)[..samples]
    ensures r.Failure? ==> r.error == if 1 <= elements <= MAX_ELEMENT_COUNT then BadSampleCount else BadElementCount
  {
    if elements < 1 || elements > MAX_ELEMENT_COUNT {
      return Failure(BadElementCount);
    }
    if samples < 1 || samples > MAX_SAMPLE_COUNT || samples > elements {
      return Failure(BadSampleCount);
    }
    var selected: seq<nat> := [];
    var seen: set<nat> := {};
    var counter := 0;
    while |selected| < samples
      invariant |selected| <= samples && counter <= enough
      invariant selected == Drawn(digest, elements, counter)
      invariant forall x :: x in seen <==> x in selected
      decreases enough - counter
    {
      assert counter < enough;
      var index := digest(counter) % elements;
      counter := counter + 1;
      if index !in seen {
        seen := seen + {index};
        selected := selected + [index];
      }
    }
    DrawnGrows(digest, elements, counter, enough);
    return Success(selected);
  }

  /** What the selection means: distinct, in range, and in order of first appearance, with nothing
      skipped. A smaller sample of the same stream is a prefix of a larger one. */
  lemma SelectionIsFirstDistinct(digest: nat -> nat, elements: nat, small: nat, large: nat, enough: nat, j: nat)
    requires elements > 0 && small <= large <= |Drawn(digest, elements, enough)| && j < large
    ensures var r := Drawn(digest, elements, enough)[..large];
      && Distinct(r) && r[j] < elements
      && Drawn(digest, elements, enough)[..small] == r[..small]
      && exists n: nat :: n < enough && Draw(digest, elements, n) == r[j]
           && forall i: nat | i < n :: Draw(digest, elements, i) in r[..j]
  {
    var all := Drawn(digest, elements, enough);
    DrawnIsExact(digest, elements, enough);
    assert all[j] in all;
    var n := FirstDraw(digest, elements, enough, j);
    assert all[..large][..j] == all[..j];
  }

  /** The draw that selected the `j`-th index. */
  lemma {:induction false} FirstDraw(digest: nat -> nat, elements: nat, enough: nat, j: nat) returns (n: nat)
    requires elements > 0 && j < |Drawn(digest, elements, enough)|
    ensures n < enough && Draw(digest, elements, n) == Drawn(digest, elements, enough)[j]
    ensures forall i: nat | i < n :: Draw(digest, elements, i) in Drawn(digest, elements, enough)[..j]
  {
    var before := Drawn(digest, elements, enough - 1);
    if j < |before| {
      n := FirstDraw(digest, elements, enough - 1, j);
      assert before[..j] == Drawn(digest, elements, enough)[..j];
    } else {
      n := enough - 1;
      DrawnIsExact(digest, elements, n);
      assert Drawn(digest, elements, enough)[..j] == before;
    }
  }

  // ----- vectors -----

  function Square(x: real): real {
    Times(x, x)
  }

  lemma SquareIsPositive(x: real)
    ensures Square(x) >= 0.0
    ensures x != 0.0 ==> Square(x) > 0.0
  {
    if x > 0.0 {
      TimesIsPositive(x, x);
    } else if x < 0.0 {
      TimesIsPositive(-x, -x);
      SquareOfOpposite(x);
    }
  }

  lemma SquareOfDifference(p: real, q: real, x: real, y: real)
    ensures Square(Times(p, x) - Times(q, y))
         == Times(Square(p), Square(x)) - 2.0 * Times(Times(p, q), Times(x, y)) + Times(Square(q), Square(y))
  {
  }

  lemma SquareOfTimes(x: real, y: real)
    ensures Square(Times(x, y)) == Times(Square(x), Square(y))
  {
  }

  function Dot(a: Vector, b: Vector): real
    requires |a| == |b|
  {
    if a == [] then 0.0 else Times(a[0], b[0]) + Dot(a[1..], b[1..])
  }

  type Vector = seq<real>

  /** The sum of squares of `p * a - q * b`. */
  function Spread(a: Vector, b: Vector, p: real, q: real): real
    requires |a| == |b|
  {
    if a == [] then 0.0 else Square(Times(p, a[0]) - Times(q, b[0])) + Spread(a[1..], b[1..], p, q)
  }

  /** The spread as a quadratic form in `p` and `q`. */
  lemma {:induction false} SpreadExpands(a: Vector, b: Vector, p: real, q: real)
    requires |a| == |b|
    ensures Spread(a, b, p, q)
         == Times(Square(p), Dot(a, a)) - 2.0 * Times(Times(p, q), Dot(a, b)) + Times(Square(q), Dot(b, b))
    decreases |a|
  {
    if a != [] {
      var x, y := a[0], b[0];
      SpreadExpands(a[1..], b[1..], p, q);
      SquareOfDifference(p, q, x, y);
      Distribute(Square(p), Square(x), Dot(a[1..], a[1..]));
      Distribute(Times(p, q), Times(x, y), Dot(a[1..], b[1..]));
      Distribute(Square(q), Square(y), Dot(b[1..], b[1..]));
    }
  }

  lemma {:induction false} SpreadIsPositive(a: Vector, b: Vector, p: real, q: real)
    requires |a| == |b|
    ensures Spread(a, b, p, q) >= 0.0
    ensures Spread(a, b, p, q) == 0.0 ==> forall i | 0 <= i < |a| :: Times(p, a[i]) == Times(q, b[i])
    decreases |a|
  {
    if a != [] {
      SpreadIsPositive(a[1..], b[1..], p, q);
      SquareIsPositive(Times(p, a[0]) - Times(q, b[0]));
      if Spread(a, b, p, q) == 0.0 {
        forall i | 0 <= i < |a| ensures Times(p, a[i]) == Times(q, b[i]) {
          if i > 0 {
            assert a[i] == a[1..][i - 1] && b[i] == b[1..][i - 1];
          }
        }
      }
    }
  }

  lemma {:induction false} DotIsSymmetric(a: Vector, b: Vector)
    requires |a| == |b|
    ensures Dot(a, b) == Dot(b, a)
    decreases |a|
  {
    if a != [] {
      TimesCommutes(a[0], b[0]);
      DotIsSymmetric(a[1..], b[1..]);
    }
  }

  lemma {:induction false} DotIsPositive(a: Vector)
    ensures Dot(a, a) >= 0.0
    ensures Dot(a, a) == 0.0 ==> forall i | 0 <= i < |a| :: a[i] == 0.0
    decreases |a|
  {
    if a != [] {
      SquareIsPositive(a[0]);
      DotIsPositive(a[1..]);
      if Dot(a, a) == 0.0 {
        forall i | 0 <= i < |a| ensures a[i] == 0.0 {
          if i > 0 {
            assert a[i] == a[1..][i - 1];
          }
        }
      }
    }
  }

  lemma {:induction false} DotWithZero(a: Vector, b: Vector)
    requires |a| == |b| && forall i | 0 <= i < |b| :: b[i] == 0.0
    ensures Dot(a, b) == 0.0
    decreases |a|
  {
    if a != [] {
      TimesZero(a[0], b[0]);
      DotWithZero(a[1..], b[1..]);
    }
  }

  lemma Gram(aa: real, ab: real, bb: real)
    requires bb > 0.0
    requires Times(Square(bb), aa) - 2.0 * Times(Times(bb, ab), ab) + Times(Square(ab), bb) >= 0.0
    ensures Square(ab) <= Times(aa, bb)
  {
    GramFactors(aa, ab, bb);
    CancelFactor(bb, Times(aa, bb) - Square(ab));
  }

  lemma GramFactors(aa: real, ab: real, bb: real)
    ensures Times(Square(bb), aa) - 2.0 * Times(Times(bb, ab), ab) + Times(Square(ab), bb)
         == Times(bb, Times(aa, bb) - Square(ab))
  {
  }

  lemma CancelFactor(b: real, gap: real)
    requires b > 0.0 && Times(b, gap) >= 0.0
    ensures gap >= 0.0
  {
  }

  /** The Cauchy-Schwarz inequality. */
  lemma DotIsBounded(a: Vector, b: Vector)
    requires |a| == |b|
    ensures Square(Dot(a, b)) <= Times(Dot(a, a), Dot(b, b))
  {
    var aa, ab, bb := Dot(a, a), Dot(a, b), Dot(b, b);
    DotIsPositive(b);
    if bb == 0.0 {
      DotWithZero(a, b);
      TimesZero(aa, bb);
      TimesZero(ab, ab);
    } else {
      SpreadExpands(a, b, bb, ab);
      SpreadIsPositive(a, b, bb, ab);
      Gram(aa, ab, bb);
    }
  }

  // ----- the verdict -----

  ghost predicate IsSquareRoot(sqrt: real -> real) {
    forall x | x >= 0.0 :: sqrt(x) >= 0.0 && Square(sqrt(x)) == x
  }

  function Magnitude(sqrt: real -> real, a: Vector): real {
    sqrt(Dot(a, a))
  }

  lemma MagnitudeIsRoot(sqrt: real -> real, a: Vector)
    requires IsSquareRoot(sqrt)
    ensures Magnitude(sqrt, a) >= 0.0 && Square(Magnitude(sqrt, a)) == Dot(a, a)
  {
    DotIsPositive(a);
  }

  function Ratio(sqrt: real -> real, a: Vector, b: Vector): real
    requires |a| == |b| && Magnitude(sqrt, a) != 0.0 && Magnitude(sqrt, b) != 0.0
  {
    TimesIsNotZero(Magnitude(sqrt, a), Magnitude(sqrt, b));
    Over(Dot(a, b), Times(Magnitude(sqrt, a), Magnitude(sqrt, b)))
  }

  function Clamp(x: real): real {
    if x > 1.0 then 1.0 else if x < -1.0 then -1.0 else x
  }

  function Cosine(sqrt: real -> real, a: Vector, b: Vector): real
    requires |a| == |b|
  {
    var ma, mb := Magnitude(sqrt, a), Magnitude(sqrt, b);
    if ma == 0.0 || mb == 0.0 then (if ma == mb then 1.0 else 0.0) else Clamp(Ratio(sqrt, a, b))
  }

  lemma SquaresOrder(x: real, y: real)
    requires y >= 0.0 && Square(x) <= Square(y)
    ensures -y <= x <= y
  {
    if x > y {
      SquareGrows(y, x);
    } else if -x > y {
      SquareGrows(y, -x);
      SquareOfOpposite(x);
    }
  }

  lemma SquareOfOpposite(x: real)
    ensures Square(-x) == Square(x)
  {
  }

  lemma SquareGrows(y: real, x: real)
    requires 0.0 <= y < x
    ensures Square(y) < Square(x)
  {
    TimesIsPositive(x - y, x + y);
    DifferenceOfSquares(x, y);
  }

  lemma DifferenceOfSquares(x: real, y: real)
    ensures Times(x - y, x + y) == Square(x) - Square(y)
  {
  }

  lemma OverBounds(d: real, m: real)
    requires m > 0.0 && -m <= d <= m
    ensures -1.0 <= Over(d, m) <= 1.0
  {
  }

  lemma OverSelf(d: real, m: real)
    requires m > 0.0
    ensures Over(d, m) == 1.0 <==> d == m
  {
  }

  /** The clamp never bites in exact arithmetic: the ratio is a cosine. */
  lemma RatioIsCosine(sqrt: real -> real, a: Vector, b: Vector)
    requires IsSquareRoot(sqrt) && |a| == |b| && Magnitude(sqrt, a) != 0.0 && Magnitude(sqrt, b) != 0.0
    ensures -1.0 <= Ratio(sqrt, a, b) <= 1.0
    ensures Cosine(sqrt, a, b) == Ratio(sqrt, a, b)
  {
    var ma, mb := Magnitude(sqrt, a), Magnitude(sqrt, b);
    MagnitudeIsRoot(sqrt, a);
    MagnitudeIsRoot(sqrt, b);
    DotIsBounded(a, b);
    TimesIsPositive(ma, mb);
    SquareOfTimes(ma, mb);
    SquaresOrder(Dot(a, b), Times(ma, mb));
    OverBounds(Dot(a, b), Times(ma, mb));
  }

  lemma CosineIsBounded(sqrt: real -> real, a: Vector, b: Vector)
    requires IsSquareRoot(sqrt) && |a| == |b|
    ensures -1.0 <= Cosine(sqrt, a, b) <= 1.0
    ensures Cosine(sqrt, a, b) == Cosine(sqrt, b, a)
  {
    DotIsSymmetric(a, b);
    TimesCommutes(Magnitude(sqrt, a), Magnitude(sqrt, b));
  }

  lemma CosineOfSelf(sqrt: real -> real, a: Vector)
    requires IsSquareRoot(sqrt)
    ensures Cosine(sqrt, a, a) == 1.0
  {
    MagnitudeIsRoot(sqrt, a);
    var m := Magnitude(sqrt, a);
    if m != 0.0 {
      TimesIsPositive(m, m);
      OverSelf(Dot(a, a), Times(m, m));
    }
  }

  /** A full cosine means the same direction: one vector is the other scaled. */
  lemma FullCosineIsProportional(sqrt: real -> real, a: Vector, b: Vector)
    requires IsSquareRoot(sqrt) && |a| == |b|
    requires Magnitude(sqrt, a) != 0.0 && Magnitude(sqrt, b) != 0.0 && Cosine(sqrt, a, b) == 1.0
    ensures forall i | 0 <= i < |a| :: Times(Magnitude(sqrt, b), a[i]) == Times(Magnitude(sqrt, a), b[i])
  {
    var ma, mb := Magnitude(sqrt, a), Magnitude(sqrt, b);
    MagnitudeIsRoot(sqrt, a);
    MagnitudeIsRoot(sqrt, b);
    TimesIsPositive(ma, mb);
    RatioIsCosine(sqrt, a, b);
    OverSelf(Dot(a, b), Times(ma, mb));
    SpreadExpands(a, b, mb, ma);
    PerfectSquare(ma, mb);
    SpreadIsPositive(a, b, mb, ma);
  }

  lemma PerfectSquare(x: real, y: real)
    ensures Times(Square(y), Square(x)) - 2.0 * Times(Times(y, x), Times(x, y)) + Times(Square(x), Square(y)) == 0.0
  {
  }

  // ----- sketches on the wire -----

  /** What a number on the wire turns out to be. */
  datatype Number = Finite(value: real) | NotFinite | NotANumber

  /** A received value; absent or ill-typed fields are `None`. */
  datatype Wire =
    | NotAMapping
    | Mapping(schema: Option<string>, seed: Option<string>, commitment: Option<string>,
              elements: Option<int>, samples: Option<int>, projection: Option<seq<Number>>, norm: Number)

  datatype Sketch = Sketch(seed: string, commitment: string, elements: int, samples: int, norm: real, projection: Vector)

  const SCHEMA := "mycellios-activation-sketch/1"
  const SEED_LENGTH := 32

  predicate IsLowerHex(c: char) {
    '0' <= c <= '9' || 'a' <= c <= 'f'
  }

  predicate ValidSeed(seed: string) {
    |seed| == SEED_LENGTH && forall i | 0 <= i < |seed| :: IsLowerHex(seed[i])
  }

  /** Binds a seed; stands for the hash of the seed. */
  type Commit = string -> string

  function Values(numbers: seq<Number>): (v: Vector)
    requires forall i | 0 <= i < |numbers| :: numbers[i].Finite?
    ensures |v| == |numbers| && forall i | 0 <= i < |v| :: v[i] == numbers[i].value
  {
    seq(|numbers|, i requires 0 <= i < |numbers| => numbers[i].value)
  }

  function ParseSketch(commit: Commit, w: Wire): Result<Sketch, SketchError> {
    if w.NotAMapping? || w.schema != Some(SCHEMA) then Failure(BadSchema)
    else if w.seed.None? || !ValidSeed(w.seed.value) || w.commitment != Some(commit(w.seed.value)) then Failure(BadCommitment)
    else if w.elements.None? || !(1 <= w.elements.value <= MAX_ELEMENT_COUNT) then Failure(BadElementCount)
    else if w.samples.None? || !CountsValid(w.elements.value, w.samples.value) then Failure(BadSampleCount)
    else if w.projection.None? || |w.projection.value| != w.samples.value then Failure(BadProjection)
    else if exists n | n in w.projection.value :: n.NotANumber? then Failure(BadProjection)
    else if !w.norm.Finite? || w.norm.value < 0.0 then Failure(BadNorm)
    else if exists n | n in w.projection.value :: !n.Finite? then Failure(BadProjection)
    else
      var numbers := w.projection.value;
      assert forall i | 0 <= i < |numbers| :: numbers[i] in numbers;
      Success(Sketch(w.seed.value, w.commitment.value, w.elements.value, w.samples.value, w.norm.value, Values(numbers)))
  }

  predicate ValidThreshold(t: Number) {
    t.Finite? && 0.0 < t.value <= 1.0
  }

  datatype Verdict = Verdict(passed: bool, cosine: real, relativeNorm: real, error: Option<SketchError>)

  /** The verdict of every malformed comparison. */
  function Refusal(error: SketchError): Verdict {
    Verdict(false, 0.0, 1.0, Some(error))
  }

  /** The smallest positive normal double, 2^-1022, enters only as a positive number. */
  type Tiny = t: real | t > 0.0 witness 1.0

  function Abs(x: real): real {
    if x >= 0.0 then x else -x
  }

  function RelativeNorm(x: real, y: real, tiny: Tiny): real {
    Abs(x - y) / Max(Max(x, y), tiny)
  }

  predicate SameShape(s: Sketch, t: Sketch) {
    s.seed == t.seed && s.commitment == t.commitment && s.elements == t.elements && s.samples == t.samples
    && |s.projection| == |t.projection|
  }

  function Compare(sqrt: real -> real, commit: Commit, tiny: Tiny, suspect: Wire, trusted: Wire,
                   cosineThreshold: Number, normThreshold: Number): Verdict {
    var left, right := ParseSketch(commit, suspect), ParseSketch(commit, trusted);
    if left.Failure? then Refusal(left.error)
    else if right.Failure? then Refusal(right.error)
    else if !ValidThreshold(cosineThreshold) || !ValidThreshold(normThreshold) then Refusal(BadThreshold)
    else if !SameShape(left.value, right.value) then Refusal(Mismatch)
    else
      var cosine := Cosine(sqrt, left.value.projection, right.value.projection);
      var relativeNorm := RelativeNorm(left.value.norm, right.value.norm, tiny);
      var passed := cosine >= cosineThreshold.value && relativeNorm < normThreshold.value;
      Verdict(passed, cosine, relativeNorm, if passed then None else Some(Diverged))
  }

  lemma QuotientOrder(d: real, m: real)
    requires m > 0.0 && 0.0 <= d <= m
    ensures 0.0 <= d / m <= 1.0
  {
  }

  lemma RelativeNormIsBounded(x: real, y: real, tiny: Tiny)
    requires x >= 0.0 && y >= 0.0
    ensures 0.0 <= RelativeNorm(x, y, tiny) <= 1.0
    ensures RelativeNorm(x, y, tiny) == RelativeNorm(y, x, tiny)
    ensures RelativeNorm(x, x, tiny) == 0.0
  {
    QuotientOrder(Abs(x - y), Max(Max(x, y), tiny));
  }

  predicate WellFormed(commit: Commit, w: Wire) {
    ParseSketch(commit, w).Success?
  }

  /** The verdict fails closed: it passes only on two well-formed sketches of one seed and shape,
      under valid thresholds, and then its figures lie in their natural ranges. */
  lemma VerdictFailsClosed(sqrt: real -> real, commit: Commit, tiny: Tiny, s: Wire, t: Wire, c: Number, n: Number)
    requires IsSquareRoot(sqrt)
    ensures var v := Compare(sqrt, commit, tiny, s, t, c, n);
      && -1.0 <= v.cosine <= 1.0 && 0.0 <= v.relativeNorm <= 1.0
      && (v.passed ==>
            && WellFormed(commit, s) && WellFormed(commit, t) && ValidThreshold(c) && ValidThreshold(n)
            && SameShape(ParseSketch(commit, s).value, ParseSketch(commit, t).value)
            && v.cosine >= c.value && v.relativeNorm < n.value)
  {
    var v := Compare(sqrt, commit, tiny, s, t, c, n);
    if v.error.None? || v.error.value.Diverged? {
      var left, right := ParseSketch(commit, s).value, ParseSketch(commit, t).value;
      CosineIsBounded(sqrt, left.projection, right.projection);
      RelativeNormIsBounded(left.norm, right.norm, tiny);
    }
  }

  /** Neither side is privileged: swapping the sketches swaps nothing but the reported error. */
  lemma VerdictIsSymmetric(sqrt: real -> real, commit: Commit, tiny: Tiny, s: Wire, t: Wire, c: Number, n: Number)
    requires IsSquareRoot(sqrt)
    ensures var v, w := Compare(sqrt, commit, tiny, s, t, c, n), Compare(sqrt, commit, tiny, t, s, c, n);
      v.passed == w.passed && v.cosine == w.cosine && v.relativeNorm == w.relativeNorm
  {
    var v := Compare(sqrt, commit, tiny, s, t, c, n);
    if v.error.None? || v.error.value.Diverged? {
      var left, right := ParseSketch(commit, s).value, ParseSketch(commit, t).value;
      CosineIsBounded(sqrt, left.projection, right.projection);
      RelativeNormIsBounded(left.norm, right.norm, tiny);
    }
  }

  /** A well-formed sketch passes against itself under every valid pair of thresholds. */
  lemma SketchPassesAgainstItself(sqrt: real -> real, commit: Commit, tiny: Tiny, s: Wire, c: Number, n: Number)
    requires IsSquareRoot(sqrt) && WellFormed(commit, s) && ValidThreshold(c) && ValidThreshold(n)
    ensures Compare(sqrt, commit, tiny, s, s, c, n) == Verdict(true, 1.0, 0.0, None)
  {
    var sketch := ParseSketch(commit, s).value;
    CosineOfSelf(sqrt, sketch.projection);
    RelativeNormIsBounded(sketch.norm, sketch.norm, tiny);
  }
}
