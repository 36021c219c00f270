/** Completed jobs per day, derived from samples of a cumulative counter. Days are numbered; a
    sample carries both its instant and the day its timestamp spells. */
module DailyJobs {
  import opened StableSort

  const DAY_MS := 86_400_000

  datatype Sample = Sample(parses: bool, time: int, day: int, jobs: int)

  datatype Bucket = Bucket(day: int, count: int)

  // ----- ordering -----

  function Parsed(samples: seq<Sample>): seq<Sample> {
    if samples == [] then []
    else
      var before := Parsed(samples[..|samples| - 1]);
      if samples[|samples| - 1].parses then before + [samples[|samples| - 1]] else before
  }

  function TimeOf(x: Sample): int {
    x.time
  }

  /** The samples by time; equal times keep their order. */
  function ByTime(s: seq<Sample>): seq<Sample> {
    Sorted(s, TimeOf)
  }

  predicate InOrder(s: seq<Sample>) {
    Ascending(s, TimeOf)
  }

  // ----- reference sums -----

  /** What the last sample of a list adds: the growth since the one before, a reset adds nothing. */
  function Growth(s: seq<Sample>): (g: nat)
    requires |s| > 1
  {
    var d := s[|s| - 1].jobs - s[|s| - 2].jobs;
    if d > 0 then d else 0
  }

  /** All growth dated to a day from `lo` up to but not including `hi`. */
  function GrowthWithin(s: seq<Sample>, lo: int, hi: int): nat {
    if |s| < 2 then 0
    else GrowthWithin(s[..|s| - 1], lo, hi) + if lo <= s[|s| - 1].day < hi then Growth(s) else 0
  }

  function AllGrowth(s: seq<Sample>): nat {
    if |s| < 2 then 0 else AllGrowth(s[..|s| - 1]) + Growth(s)
  }

  function Count(s: seq<Sample>, day: int): nat {
    GrowthWithin(s, day, day + 1)
  }

  lemma {:induction false} GrowthSplits(s: seq<Sample>, lo: int, mid: int, hi: int)
    requires lo <= mid <= hi
    ensures GrowthWithin(s, lo, hi) == GrowthWithin(s, lo, mid) + GrowthWithin(s, mid, hi)
    decreases |s|
  {
    if |s| > 1 {
      GrowthSplits(s[..|s| - 1], lo, mid, hi);
    }
  }

  function Total(buckets: seq<Bucket>): int {
    if buckets == [] then 0 else Total(buckets[..|buckets| - 1]) + buckets[|buckets| - 1].count
  }

  /** Every growth is dated inside the range of days that is shown. */
  predicate DatedWithin(s: seq<Sample>, lo: int, hi: int) {
    |s| < 2 || (DatedWithin(s[..|s| - 1], lo, hi) && (Growth(s) > 0 ==> lo <= s[|s| - 1].day < hi))
  }

  lemma {:induction false} AllGrowthIff(s: seq<Sample>, lo: int, hi: int)
    ensures GrowthWithin(s, lo, hi) <= AllGrowth(s)
    ensures GrowthWithin(s, lo, hi) == AllGrowth(s) <==> DatedWithin(s, lo, hi)
    decreases |s|
  {
    if |s| > 1 {
      AllGrowthIff(s[..|s| - 1], lo, hi);
    }
  }

  // ----- buckets -----

  /** One bucket per day from the first sample's day to the last one's. */
  function Buckets(ordered: seq<Sample>): seq<Bucket> {
    if ordered == [] then []
    else
      var lo, hi := ordered[0].day, ordered[|ordered| - 1].day;
      seq(if hi < lo then 0 else hi - lo + 1, k => Bucket(lo + k, Count(ordered, lo + k)))
  }

  lemma {:induction false} BucketsAddUp(ordered: seq<Sample>, buckets: seq<Bucket>, lo: int)
    requires Consecutive(ordered, buckets, lo)
    ensures Total(buckets) == GrowthWithin(ordered, lo, lo + |buckets|)
    decreases |buckets|
  {
    var n := |buckets|;
    if n == 0 {
      NoDays(ordered, lo);
    } else {
      BucketsAddUp(ordered, buckets[..n - 1], lo);
      GrowthSplits(ordered, lo, lo + n - 1, lo + n);
    }
  }

  lemma {:induction false} NoDays(s: seq<Sample>, lo: int)
    ensures GrowthWithin(s, lo, lo) == 0
    decreases |s|
  {
    if |s| > 1 {
      NoDays(s[..|s| - 1], lo);
    }
  }

  predicate Consecutive(ordered: seq<Sample>, buckets: seq<Bucket>, lo: int) {
    forall k | 0 <= k < |buckets| :: buckets[k] == Bucket(lo + k, Count(ordered, lo + k))
  }

  lemma BucketsAreConsecutive(ordered: seq<Sample>, buckets: seq<Bucket>)
    requires ordered != [] && buckets == Buckets(ordered)
    ensures var lo, hi := ordered[0].day, ordered[|ordered| - 1].day;
      Consecutive(ordered, buckets, lo) && |buckets| == if hi < lo then 0 else hi - lo + 1
  {
  }

  lemma BucketsTotal(ordered: seq<Sample>)
    requires ordered != []
    ensures Total(Buckets(ordered)) == GrowthWithin(ordered, ordered[0].day, ordered[|ordered| - 1].day + 1)
  {
    BucketsAreConsecutive(ordered, Buckets(ordered));
    RangeTotal(ordered, Buckets(ordered), ordered[0].day, ordered[|ordered| - 1].day);
  }

  lemma RangeTotal(ordered: seq<Sample>, buckets: seq<Bucket>, lo: int, hi: int)
    requires Consecutive(ordered, buckets, lo) && |buckets| == if hi < lo then 0 else hi - lo + 1
    ensures Total(buckets) == GrowthWithin(ordered, lo, hi + 1)
  {
    BucketsAddUp(ordered, buckets, lo);
    if hi < lo {
      EmptyRange(ordered, lo, hi + 1);
      NoDays(ordered, lo);
    }
  }

  /** Nothing is lost, if and only if every growth is dated between the first and the last sample's
      day. */
  lemma BucketsConserveIff(ordered: seq<Sample>)
    requires ordered != []
    ensures Total(Buckets(ordered)) <= AllGrowth(ordered)
    ensures Total(Buckets(ordered)) == AllGrowth(ordered)
       <==> DatedWithin(ordered, ordered[0].day, ordered[|ordered| - 1].day + 1)
  {
    BucketsTotal(ordered);
    AllGrowthIff(ordered, ordered[0].day, ordered[|ordered| - 1].day + 1);
  }

  /** Two samples whose timestamps are written with different offsets, so that the later one spells an
      earlier day: all growth between them is lost. */
  lemma MixedOffsetsLoseGrowth(a: Sample, b: Sample)
    requires a.time <= b.time && b.day < a.day && a.jobs < b.jobs
    ensures InOrder([a, b]) && Buckets([a, b]) == [] && AllGrowth([a, b]) == b.jobs - a.jobs
  {
    assert [a, b][..1] == [a];
    assert AllGrowth([a]) == 0;
  }

  lemma {:induction false} EmptyRange(s: seq<Sample>, lo: int, hi: int)
    requires hi <= lo
    ensures GrowthWithin(s, lo, hi) == 0
    decreases |s|
  {
    if |s| > 1 {
      EmptyRange(s[..|s| - 1], lo, hi);
    }
  }

  // ----- UTC timestamps -----

  function DayOf(time: int): int {
    time / DAY_MS
  }

  /** Timestamps written in UTC spell the day their instant lies in. */
  predicate Utc(s: seq<Sample>) {
    forall i | 0 <= i < |s| :: s[i].day == DayOf(s[i].time)
  }

  lemma DaysFollowTimes(a: int, b: int)
    requires a <= b
    ensures DayOf(a) <= DayOf(b)
  {
  }

  lemma {:induction false} UtcIsDatedWithin(s: seq<Sample>, first: int, last: int)
    requires Utc(s) && forall i | 0 <= i < |s| :: first <= s[i].time <= last
    ensures DatedWithin(s, DayOf(first), DayOf(last) + 1)
    decreases |s|
  {
    if |s| > 1 {
      UtcIsDatedWithin(s[..|s| - 1], first, last);
      DaysFollowTimes(first, s[|s| - 1].time);
      DaysFollowTimes(s[|s| - 1].time, last);
    }
  }

  predicate NeverResets(s: seq<Sample>) {
    forall i | 0 < i < |s| :: s[i - 1].jobs <= s[i].jobs
  }

  lemma {:induction false} GrowthTelescopes(s: seq<Sample>)
    requires s != [] && NeverResets(s)
    ensures AllGrowth(s) == s[|s| - 1].jobs - s[0].jobs
    decreases |s|
  {
    if |s| > 1 {
      GrowthTelescopes(s[..|s| - 1]);
    }
  }

  /** With UTC timestamps the buckets hold all growth of the counter; without resets that is what
      the counter gained from the first sample to the last. */
  lemma DailyJobsConserve(samples: seq<Sample>)
    requires Utc(Parsed(samples)) && Parsed(samples) != []
    ensures var ordered := ByTime(Parsed(samples));
      && ordered != []
      && Total(Buckets(ordered)) == AllGrowth(ordered)
      && (NeverResets(ordered) ==> Total(Buckets(ordered)) == ordered[|ordered| - 1].jobs - ordered[0].jobs)
  {
    var ordered := ByTime(Parsed(samples));
    OrderedIsUtc(samples);
    OrderedConserves(ordered);
    if NeverResets(ordered) {
      GrowthTelescopes(ordered);
    }
  }

  lemma OrderedConserves(ordered: seq<Sample>)
    requires ordered != [] && Utc(ordered) && InOrder(ordered)
    ensures Total(Buckets(ordered)) == AllGrowth(ordered)
  {
    UtcIsDatedWithin(ordered, ordered[0].time, ordered[|ordered| - 1].time);
    BucketsConserveIff(ordered);
  }

  lemma OrderedIsUtc(samples: seq<Sample>)
    requires Utc(Parsed(samples))
    ensures var ordered := ByTime(Parsed(samples));
      Utc(ordered) && InOrder(ordered) && |ordered| == |Parsed(samples)|
  {
    var ordered := ByTime(Parsed(samples));
    SortedOrders(Parsed(samples), TimeOf);
    SortedKeeps(Parsed(samples), TimeOf);
    forall i | 0 <= i < |ordered| ensures ordered[i].day == DayOf(ordered[i].time) {
      assert ordered[i] in ordered;
      assert ordered[i] in Parsed(samples);
    }
  }

  // ----- the code -----

  function Lookup(deltas: map<int, int>, day: int): int {
    if day in deltas then deltas[day] else 0
  }

  lemma CountStep(s: seq<Sample>, i: nat, day: int)
    requires 0 < i < |s|
    ensures Count(s[..i + 1], day) == Count(s[..i], day)
         + if s[i].day == day && s[i].jobs > s[i - 1].jobs then s[i].jobs - s[i - 1].jobs else 0
  {
    assert s[..i + 1][..i] == s[..i];
  }

  /** The growth of every day, collected in one pass. */
  method CollectDeltas(ordered: seq<Sample>) returns (deltas: map<int, int>)
    ensures forall day :: Lookup(deltas, day) == Count(ordered, day)
  {
    deltas := map[];
    if ordered == [] {
      return;
    }
    for i := 1 to |ordered|
      invariant forall day :: Lookup(deltas, day) == Count(ordered[..i], day)
    {
      ghost var before := deltas;
      var delta := ordered[i].jobs - ordered[i - 1].jobs;
      if delta > 0 {
        var day := ordered[i].day;
        deltas := deltas[day := Lookup(deltas, day) + delta];
      }
      forall day ensures Lookup(deltas, day) == Count(ordered[..i + 1], day) {
        CountStep(ordered, i, day);
        assert Lookup(before, day) == Count(ordered[..i], day);
      }
    }
    assert ordered[..|ordered|] == ordered;
  }

  method DeriveDailyJobs(samples: seq<Sample>) returns (buckets: seq<Bucket>)
    ensures buckets == Buckets(ByTime(Parsed(samples)))
  {
    var ordered := ByTime(Parsed(samples));
    if ordered == [] {
      return [];
    }
    var deltas := CollectDeltas(ordered);
    var lo, hi := ordered[0].day, ordered[|ordered| - 1].day;
    buckets := [];
    var day := lo;
    while day <= hi
      invariant lo <= day && (day <= hi + 1 || day == lo) && |buckets| == day - lo
      invariant forall k | 0 <= k < |buckets| :: buckets[k] == Bucket(lo + k, Count(ordered, lo + k))
    {
      buckets := buckets + [Bucket(day, Lookup(deltas, day))];
      day := day + 1;
    }
  }
}
