/** The benchmark's statistics over exact reals: interpolated percentiles and the mean number of
    requests in flight over a window. */
module LoadStatistics {
  import opened Common
  import opened RealArithmetic

  // ----- sorting -----

  predicate Ascending(s: seq<real>) {
    forall i, j | 0 <= i <= j < |s| :: s[i] <= s[j]
  }

  function Insert(s: seq<real>, x: real): seq<real> {
    if s == [] || x <= s[0] then [x] + s else [s[0]] + Insert(s[1..], x)
  }

  function Sort(s: seq<real>): seq<real> {
    if s == [] then [] else Insert(Sort(s[1..]), s[0])
  }

  lemma {:induction false} InsertKeeps(s: seq<real>, x: real)
    ensures multiset(Insert(s, x)) == multiset(s) + multiset{x}
    decreases |s|
  {
    if s != [] && x > s[0] {
      InsertKeeps(s[1..], x);
      assert s == [s[0]] + s[1..];
    }
  }

  lemma {:induction false} InsertSorts(s: seq<real>, x: real)
    requires Ascending(s)
    ensures |Insert(s, x)| == |s| + 1 && Ascending(Insert(s, x))
    ensures Insert(s, x)[0] == if s == [] || x <= s[0] then x else s[0]
    decreases |s|
  {
    if s != [] && x > s[0] {
      InsertSorts(s[1..], x);
      AscendingCons(s[0], Insert(s[1..], x));
    }
  }

  lemma AscendingCons(x: real, s: seq<real>)
    requires Ascending(s) && (s != [] ==> x <= s[0])
    ensures Ascending([x] + s)
  {
  }

  lemma {:induction false} SortSorts(s: seq<real>)
    ensures Ascending(Sort(s)) && multiset(Sort(s)) == multiset(s) && |Sort(s)| == |s|
    decreases |s|
  {
    if s != [] {
      SortSorts(s[1..]);
      InsertKeeps(Sort(s[1..]), s[0]);
      InsertSorts(Sort(s[1..]), s[0]);
      assert s == [s[0]] + s[1..];
    }
  }

  /** Position by position, nothing on the left is larger. */
  predicate Below(s: seq<real>, t: seq<real>) {
    |s| == |t| && forall i | 0 <= i < |s| :: s[i] <= t[i]
  }

  lemma BelowCons(x: real, s: seq<real>, y: real, t: seq<real>)
    requires x <= y && Below(s, t)
    ensures Below([x] + s, [y] + t)
  {
  }

  lemma InsertFirst(s: seq<real>)
    requires s != [] && Ascending(s)
    ensures Insert(s[1..], s[0]) == s
  {
    assert s == [s[0]] + s[1..];
  }

  lemma {:induction false} InsertKeepsBelow(s: seq<real>, t: seq<real>, x: real, y: real)
    requires Ascending(s) && Ascending(t) && Below(s, t) && x <= y
    ensures Below(Insert(s, x), Insert(t, y))
    decreases |s|
  {
    if s == [] {
    } else if x <= s[0] && y <= t[0] {
      BelowCons(x, s, y, t);
    } else if x <= s[0] {
      InsertFirst(s);
      InsertKeepsBelow(s[1..], t[1..], s[0], y);
      BelowCons(x, s, t[0], Insert(t[1..], y));
    } else if y <= t[0] {
      InsertFirst(t);
      InsertKeepsBelow(s[1..], t[1..], x, t[0]);
      BelowCons(s[0], Insert(s[1..], x), y, t);
    } else {
      InsertKeepsBelow(s[1..], t[1..], x, y);
      BelowCons(s[0], Insert(s[1..], x), t[0], Insert(t[1..], y));
    }
  }

  /** Sorting keeps a pointwise order, although it may pair the values differently. */
  lemma {:induction false} SortKeepsBelow(s: seq<real>, t: seq<real>)
    requires Below(s, t)
    ensures Below(Sort(s), Sort(t))
    decreases |s|
  {
    if s != [] {
      SortKeepsBelow(s[1..], t[1..]);
      SortSorts(s[1..]);
      SortSorts(t[1..]);
      InsertKeepsBelow(Sort(s[1..]), Sort(t[1..]), s[0], t[0]);
    }
  }

  // ----- percentiles -----

  /** The value at a fractional position of a sorted sample, linearly between its neighbours. */
  function At(ordered: seq<real>, position: real): real
    requires 0.0 <= position <= (|ordered| - 1) as real
  {
    var lower := position.Floor;
    if lower as real == position then ordered[lower]
    else Mix(ordered[lower], ordered[lower + 1], position - lower as real)
  }

  function Mix(x: real, y: real, weight: real): real {
    Times(x, 1.0 - weight) + Times(y, weight)
  }

  lemma MixBetween(x: real, y: real, weight: real)
    requires x <= y && 0.0 <= weight <= 1.0
    ensures x <= Mix(x, y, weight) <= y
  {
    TimesOrder(x, y, weight);
    TimesOrder(x, y, 1.0 - weight);
    WholeOf(x, weight);
    WholeOf(y, weight);
  }

  lemma WholeOf(x: real, weight: real)
    ensures Times(x, 1.0 - weight) + Times(x, weight) == x
  {
  }

  lemma MixMonotone(x: real, y: real, v: real, w: real)
    requires x <= y && v <= w
    ensures Mix(x, y, v) <= Mix(x, y, w)
  {
    MixDifference(x, y, v, w);
    TimesIsNotNegative(y - x, w - v);
  }

  lemma MixDifference(x: real, y: real, v: real, w: real)
    ensures Mix(x, y, w) - Mix(x, y, v) == Times(y - x, w - v)
  {
  }

  lemma MixPointwise(x: real, y: real, x': real, y': real, weight: real)
    requires x <= x' && y <= y' && 0.0 <= weight <= 1.0
    ensures Mix(x, y, weight) <= Mix(x', y', weight)
  {
    TimesOrder(x, x', 1.0 - weight);
    TimesOrder(y, y', weight);
  }

  /** Interpolation stays between the neighbours. */
  lemma AtBetween(s: seq<real>, p: real)
    requires Ascending(s) && 0.0 <= p <= (|s| - 1) as real
    ensures s[p.Floor] <= At(s, p)
    ensures p.Floor + 1 < |s| ==> At(s, p) <= s[p.Floor + 1]
    ensures p.Floor + 1 >= |s| ==> At(s, p) <= s[p.Floor]
  {
    if p.Floor as real != p {
      MixBetween(s[p.Floor], s[p.Floor + 1], p - p.Floor as real);
    }
  }

  lemma AtMonotone(s: seq<real>, p: real, q: real)
    requires Ascending(s) && 0.0 <= p <= q <= (|s| - 1) as real
    ensures At(s, p) <= At(s, q)
  {
    AtBetween(s, p);
    AtBetween(s, q);
    var i := p.Floor;
    if i == q.Floor && i as real != p {
      MixMonotone(s[i], s[i + 1], p - i as real, q - i as real);
    }
  }

  predicate IsFraction(f: real) {
    0.0 <= f <= 1.0
  }

  function Position(n: nat, fraction: real): real
    requires n > 0
  {
    Times((n - 1) as real, fraction)
  }

  lemma PositionInRange(n: nat, f: real, g: real)
    requires n > 0 && 0.0 <= f <= g <= 1.0
    ensures 0.0 <= Position(n, f) <= Position(n, g) <= (n - 1) as real
  {
    var k := (n - 1) as real;
    TimesIsNotNegative(k, f);
    PositionOrder(k, f, g);
    PositionOrder(k, g, 1.0);
  }

  lemma PositionOrder(k: real, f: real, g: real)
    requires k >= 0.0 && f <= g
    ensures Times(k, f) <= Times(k, g)
    ensures Times(k, 1.0) == k
  {
    TimesIsNotNegative(k, g - f);
    PositionGap(k, f, g);
  }

  lemma PositionGap(k: real, f: real, g: real)
    ensures Times(k, g - f) == Times(k, g) - Times(k, f)
  {
  }

  const NO_VALUES := "cannot calculate a percentile of no values"

  function Percentile(values: seq<real>, fraction: real): (r: Result<real, string>)
    requires IsFraction(fraction)
    ensures r.Success? <==> values != []
  {
    if values == [] then Failure(NO_VALUES)
    else
      SortSorts(values);
      PositionInRange(|values|, fraction, 1.0);
      Success(At(Sort(values), Position(|values|, fraction)))
  }

  /** A percentile lies within the sample. */
  lemma PercentileBetween(values: seq<real>, fraction: real)
    requires values != [] && IsFraction(fraction)
    ensures exists low | low in values :: low <= Percentile(values, fraction).value && forall v | v in values :: low <= v
    ensures exists high | high in values :: Percentile(values, fraction).value <= high && forall v | v in values :: v <= high
  {
    var s := Sort(values);
    SortSorts(values);
    PositionInRange(|values|, fraction, 1.0);
    var p := Position(|values|, fraction);
    AtBetween(s, p);
    assert s[0] in multiset(s) && s[|s| - 1] in multiset(s);
    assert s[0] in values && s[|s| - 1] in values;
    forall v | v in values ensures s[0] <= v <= s[|s| - 1] {
      assert v in multiset(s);
    }
  }

  /** A higher fraction never gives a lower percentile. */
  lemma PercentileMonotone(values: seq<real>, f: real, g: real)
    requires values != [] && IsFraction(f) && IsFraction(g) && f <= g
    ensures Percentile(values, f).value <= Percentile(values, g).value
  {
    SortSorts(values);
    PositionInRange(|values|, f, g);
    AtMonotone(Sort(values), Position(|values|, f), Position(|values|, g));
  }

  /** Raising samples never lowers a percentile. */
  lemma PercentilePointwise(values: seq<real>, larger: seq<real>, fraction: real)
    requires values != [] && Below(values, larger) && IsFraction(fraction)
    ensures Percentile(values, fraction).value <= Percentile(larger, fraction).value
  {
    var s, t := Sort(values), Sort(larger);
    SortSorts(values);
    SortSorts(larger);
    SortKeepsBelow(values, larger);
    PositionInRange(|values|, fraction, 1.0);
    var p := Position(|values|, fraction);
    var i := p.Floor;
    if i as real != p {
      MixPointwise(s[i], s[i + 1], t[i], t[i + 1], p - i as real);
    }
  }

  // ----- requests in flight -----

  datatype Sample = Sample(started: real, finished: real)

  /** How long a request was in flight inside a window. */
  function Overlap(s: Sample, start: real, end: real): real {
    Max(0.0, Min(s.finished, end) - Max(s.started, start))
  }

  function Overlaps(samples: seq<Sample>, start: real, end: real): real {
    if samples == [] then 0.0 else Overlap(samples[0], start, end) + Overlaps(samples[1..], start, end)
  }

  function MeanInflight(samples: seq<Sample>, start: real, end: real): real {
    if end - start <= 0.0 then 0.0 else Over(Overlaps(samples, start, end), end - start)
  }

  lemma {:induction false} OverlapsSplit(samples: seq<Sample>, a: real, b: real, c: real)
    requires a <= b <= c
    ensures Overlaps(samples, a, c) == Overlaps(samples, a, b) + Overlaps(samples, b, c)
    decreases |samples|
  {
    if samples != [] {
      OverlapsSplit(samples[1..], a, b, c);
    }
  }

  lemma {:induction false} OverlapsBounded(samples: seq<Sample>, a: real, b: real)
    requires a <= b
    ensures 0.0 <= Overlaps(samples, a, b) <= Times(|samples| as real, b - a)
    decreases |samples|
  {
    if samples != [] {
      OverlapsBounded(samples[1..], a, b);
      OneMore((|samples| - 1) as real, b - a);
    }
  }

  lemma OneMore(n: real, k: real)
    ensures Times(n + 1.0, k) == Times(n, k) + k
  {
  }

  /** The load of a window is the length-weighted mean of the loads of any two parts of it. */
  lemma MeanInflightSplits(samples: seq<Sample>, a: real, b: real, c: real)
    requires a <= b <= c
    ensures Times(MeanInflight(samples, a, c), c - a)
         == Times(MeanInflight(samples, a, b), b - a) + Times(MeanInflight(samples, b, c), c - b)
  {
    OverlapsSplit(samples, a, b, c);
    LoadTimesLength(samples, a, b);
    LoadTimesLength(samples, b, c);
    LoadTimesLength(samples, a, c);
  }

  lemma LoadTimesLength(samples: seq<Sample>, a: real, b: real)
    requires a <= b
    ensures Times(MeanInflight(samples, a, b), b - a) == Overlaps(samples, a, b)
  {
    if a < b {
      OverUndone(Overlaps(samples, a, b), b - a);
    } else {
      OverlapsBounded(samples, a, b);
      NoLength(|samples| as real, b - a);
      NoLength(MeanInflight(samples, a, b), b - a);
    }
  }

  lemma NoLength(x: real, k: real)
    requires k == 0.0
    ensures Times(x, k) == 0.0
  {
  }

  /** The two half-window figures of the summary average to the figure for the whole window. */
  lemma HalvesAverage(samples: seq<Sample>, start: real, end: real)
    requires start < end
    ensures var half := start + (end - start) / 2.0;
      2.0 * MeanInflight(samples, start, end) == MeanInflight(samples, start, half) + MeanInflight(samples, half, end)
  {
    var half := start + (end - start) / 2.0;
    var k := (end - start) / 2.0;
    MeanInflightSplits(samples, start, half, end);
    HalfLength(MeanInflight(samples, start, end), MeanInflight(samples, start, half), MeanInflight(samples, half, end), k);
  }

  lemma HalfLength(m: real, x: real, y: real, k: real)
    requires k > 0.0 && Times(m, 2.0 * k) == Times(x, k) + Times(y, k)
    ensures 2.0 * m == x + y
  {
    TimesOfTwice(m, x, y, k);
    CancelLength(2.0 * m - (x + y), k);
  }

  lemma TimesOfTwice(m: real, x: real, y: real, k: real)
    ensures Times(2.0 * m - (x + y), k) == Times(m, 2.0 * k) - (Times(x, k) + Times(y, k))
  {
  }

  lemma CancelLength(x: real, k: real)
    requires k > 0.0 && Times(x, k) == 0.0
    ensures x == 0.0
  {
  }

  /** At most every request is in flight all the time. */
  lemma MeanInflightBounded(samples: seq<Sample>, a: real, b: real)
    ensures 0.0 <= MeanInflight(samples, a, b) <= |samples| as real
  {
    if a < b {
      OverlapsBounded(samples, a, b);
      OverBounded(Overlaps(samples, a, b), |samples| as real, b - a);
    }
  }

  lemma OverBounded(x: real, n: real, k: real)
    requires k > 0.0 && 0.0 <= x <= Times(n, k)
    ensures 0.0 <= Over(x, k) <= n
  {
  }
}
