/** Comparing benchmark runs: how two runs relate, which is faster, and the run a new one is measured
    against. Names are taken after normalisation; finish times are whole milliseconds. */
module BenchmarkVerdict {
  import opened Common
  import opened StableSort

  datatype ModelName = ModelName(id: Option<string>, revision: Option<string>, digest: Option<string>, precision: Option<string>)

  datatype Snapshot = Snapshot(
    comparable: bool,
    model: ModelName,
    evidence: string,
    fingerprint: string,
    capacity: string,
    stable: Option<bool>,
    p5: Option<real>,
    p95: Option<real>)

  datatype Mode =
    | SameScenario | CapacityChange | ConfigurationChange | DifferentEvidence | DifferentModel | Unavailable

  datatype Verdict =
    | Faster | Slower | WithinVariation | InsufficientConfidence | ChangedCapacity | ChangedConfiguration | NotComparable

  function ModeOf(current: Option<Snapshot>, baseline: Option<Snapshot>): Mode {
    if current.None? || baseline.None? then Unavailable
    else
      var a, b := current.value, baseline.value;
      if !a.comparable || !b.comparable then Unavailable
      else if a.model != b.model then DifferentModel
      else if a.evidence != b.evidence then DifferentEvidence
      else if a.fingerprint == b.fingerprint then SameScenario
      else if a.capacity != b.capacity then CapacityChange
      else ConfigurationChange
  }

  function VerdictOf(current: Option<Snapshot>, baseline: Option<Snapshot>): Verdict {
    match ModeOf(current, baseline)
    case CapacityChange => ChangedCapacity
    case ConfigurationChange => ChangedConfiguration
    case SameScenario =>
      var a, b := current.value, baseline.value;
      if a.stable != Some(true) || b.stable != Some(true) then InsufficientConfidence
      else if a.p5.None? || a.p95.None? || b.p5.None? || b.p95.None? then InsufficientConfidence
      else if a.p5.value > b.p95.value then Faster
      else if a.p95.value < b.p5.value then Slower
      else WithinVariation
    case _ => NotComparable
  }

  /** The low percentile is not above the high one. */
  predicate Ordered(s: Option<Snapshot>) {
    s.Some? && s.value.p5.Some? && s.value.p95.Some? ==> s.value.p5.value <= s.value.p95.value
  }

  function Swapped(v: Verdict): Verdict {
    match v
    case Faster => Slower
    case Slower => Faster
    case _ => v
  }

  /** Each run's low percentile is above the other's high one, in a pair whose speeds are compared. */
  predicate Crossed(a: Option<Snapshot>, b: Option<Snapshot>) {
    && ModeOf(a, b) == SameScenario && a.value.stable == Some(true) && b.value.stable == Some(true)
    && a.value.p5.Some? && a.value.p95.Some? && b.value.p5.Some? && b.value.p95.Some?
    && a.value.p5.value > b.value.p95.value && b.value.p5.value > a.value.p95.value
  }

  /** Swapping two runs keeps the mode, and swaps the verdict exactly when their ranges do not cross. */
  lemma SwapMirrorsIff(a: Option<Snapshot>, b: Option<Snapshot>)
    ensures ModeOf(b, a) == ModeOf(a, b)
    ensures VerdictOf(b, a) == Swapped(VerdictOf(a, b)) <==> !Crossed(a, b)
    ensures Ordered(a) && Ordered(b) ==> VerdictOf(b, a) == Swapped(VerdictOf(a, b))
  {
    if ModeOf(a, b) == SameScenario {
      assert ModeOf(b, a) == SameScenario;
    }
  }

  /** "Faster" is a strict partial order on runs with ordered percentiles: it chains through an ordered
      middle run, and the only runs faster than themselves are comparable, stable ones out of order. */
  lemma FasterIsStrictOrder(a: Option<Snapshot>, b: Option<Snapshot>, c: Option<Snapshot>)
    ensures VerdictOf(a, b) == Faster && VerdictOf(b, c) == Faster && Ordered(b) ==> VerdictOf(a, c) == Faster
    ensures VerdictOf(a, a) == Faster <==> a.Some? && a.value.comparable && a.value.stable == Some(true) && !Ordered(a)
    ensures Ordered(a) && Ordered(b) && VerdictOf(a, b) == Faster ==> VerdictOf(b, a) != Faster
  {
    if VerdictOf(a, b) == Faster && VerdictOf(b, c) == Faster && Ordered(b) {
      assert ModeOf(a, c) == SameScenario;
    }
    SwapMirrorsIff(a, b);
  }

  // ----- the default baseline -----

  datatype Run = Run(id: string, finished: Option<int>, snapshot: Option<Snapshot>)

  predicate Matches(current: Run, run: Run)
    requires current.snapshot.Some?
  {
    run.snapshot.Some? && run.snapshot.value.comparable && run.snapshot.value.fingerprint == current.snapshot.value.fingerprint
  }

  /** The run ended before the current one, or one of the two times is unknown. */
  predicate Earlier(current: Run, run: Run) {
    current.finished.None? || run.finished.None? || run.finished.value < current.finished.value
  }

  function Others(current: Run, runs: seq<Run>): (r: seq<Run>)
    ensures forall x :: x in r <==> x in runs && x.id != current.id
  {
    if runs == [] then []
    else
      var before := Others(current, runs[..|runs| - 1]);
      if runs[|runs| - 1].id != current.id then before + [runs[|runs| - 1]] else before
  }

  predicate Timed(runs: seq<Run>) {
    forall x | x in runs :: x.finished.Some?
  }

  /** Later runs come first. */
  function Age(run: Run): int {
    if run.finished.Some? then -run.finished.value else 0
  }

  /** Latest first; equal times keep their order. */
  function Latest(s: seq<Run>): seq<Run> {
    Sorted(s, Age)
  }

  function EarlierOnes(current: Run, s: seq<Run>): seq<Run> {
    if s == [] then []
    else
      var before := EarlierOnes(current, s[..|s| - 1]);
      if Earlier(current, s[|s| - 1]) then before + [s[|s| - 1]] else before
  }

  /** The first matching run. */
  function Find(current: Run, s: seq<Run>): Option<Run>
    requires current.snapshot.Some?
  {
    if s == [] then None
    else
      var found := Find(current, s[..|s| - 1]);
      if found.Some? then found else if Matches(current, s[|s| - 1]) then Some(s[|s| - 1]) else None
  }

  function DefaultBaseline(current: Option<Run>, runs: seq<Run>): Option<Run>
    requires current.Some? ==> Timed(Others(current.value, runs))
  {
    if current.None? || current.value.snapshot.None? || !current.value.snapshot.value.comparable then None
    else
      var candidates := Latest(Others(current.value, runs));
      var earlier := EarlierOnes(current.value, candidates);
      Find(current.value, if earlier != [] then earlier else candidates)
  }

  // ----- the baseline without sorting -----

  /** The other run matches, and ended earlier where that is asked. */
  predicate Fits(current: Run, run: Run, earlierOnly: bool)
    requires current.snapshot.Some?
  {
    Matches(current, run) && (earlierOnly ==> Earlier(current, run))
  }

  /** What one more run does to a choice. */
  function Better(current: Run, b: Option<Run>, x: Run, earlierOnly: bool): Option<Run>
    requires current.snapshot.Some? && x.finished.Some?
  {
    if Fits(current, x, earlierOnly) && (b.None? || b.value.finished.None? || b.value.finished.value < x.finished.value)
    then Some(x) else b
  }

  /** The latest fitting run; of several at one time the first listed. */
  function Best(current: Run, s: seq<Run>, earlierOnly: bool): Option<Run>
    requires current.snapshot.Some? && Timed(s)
    decreases |s|
  {
    if s == [] then None
    else Better(current, Best(current, s[..|s| - 1], earlierOnly), s[|s| - 1], earlierOnly)
  }

  function FirstFit(current: Run, s: seq<Run>, earlierOnly: bool): Option<Run>
    requires current.snapshot.Some?
    decreases |s|
  {
    if s == [] then None
    else
      var b := FirstFit(current, s[..|s| - 1], earlierOnly);
      if b.Some? then b else if Fits(current, s[|s| - 1], earlierOnly) then Some(s[|s| - 1]) else None
  }

  lemma {:induction false} FindIsFirstFit(current: Run, s: seq<Run>)
    requires current.snapshot.Some?
    ensures Find(current, s) == FirstFit(current, s, false)
    ensures Find(current, EarlierOnes(current, s)) == FirstFit(current, s, true)
    decreases |s|
  {
    if s != [] {
      FindIsFirstFit(current, s[..|s| - 1]);
      var before := EarlierOnes(current, s[..|s| - 1]);
      assert (before + [s[|s| - 1]])[..|before|] == before;
    }
  }

  lemma FirstFitMore(current: Run, s: seq<Run>, x: Run, earlierOnly: bool)
    requires current.snapshot.Some?
    ensures FirstFit(current, s + [x], earlierOnly)
         == var b := FirstFit(current, s, earlierOnly);
            if b.Some? then b else if Fits(current, x, earlierOnly) then Some(x) else None
  {
    assert (s + [x])[..|s|] == s;
  }

  /** The choice ended no earlier than the last of the list. */
  lemma {:induction false} FirstFitIsLate(current: Run, s: seq<Run>, earlierOnly: bool)
    requires current.snapshot.Some? && Timed(s) && Ascending(s, Age) && s != []
    ensures var b := FirstFit(current, s, earlierOnly);
            b.Some? ==> b.value.finished.Some? && b.value.finished.value >= s[|s| - 1].finished.value
    decreases |s|
  {
    if |s| > 1 {
      assert Age(s[|s| - 2]) <= Age(s[|s| - 1]);
      FirstFitIsLate(current, s[..|s| - 1], earlierOnly);
    }
  }

  lemma {:induction false} PlaceChooses(current: Run, s: seq<Run>, x: Run, earlierOnly: bool)
    requires current.snapshot.Some? && Timed(s) && x.finished.Some? && Ascending(s, Age)
    ensures FirstFit(current, Place(s, x, Age), earlierOnly) == Better(current, FirstFit(current, s, earlierOnly), x, earlierOnly)
    decreases |s|
  {
    if s == [] {
      FirstFitMore(current, s, x, earlierOnly);
    } else if Age(s[|s| - 1]) <= Age(x) {
      FirstFitIsLate(current, s, earlierOnly);
      FirstFitMore(current, s, x, earlierOnly);
    } else {
      PlaceChooses(current, s[..|s| - 1], x, earlierOnly);
      FirstFitMore(current, Place(s[..|s| - 1], x, Age), s[|s| - 1], earlierOnly);
    }
  }

  lemma {:induction false} LatestChoosesBest(current: Run, s: seq<Run>, earlierOnly: bool)
    requires current.snapshot.Some? && Timed(s)
    ensures FirstFit(current, Latest(s), earlierOnly) == Best(current, s, earlierOnly)
    decreases |s|
  {
    if s != [] {
      var k := |s| - 1;
      LatestChoosesBest(current, s[..k], earlierOnly);
      SortedOrders(s[..k], Age);
      SortedKeeps(s[..k], Age);
      PlaceChooses(current, Sorted(s[..k], Age), s[k], earlierOnly);
    }
  }

  /** Nothing in `s` fits better than `s[i]`, and nothing before it fits as well. */
  ghost predicate IsBestAt(current: Run, s: seq<Run>, earlierOnly: bool, i: nat)
    requires current.snapshot.Some? && Timed(s)
  {
    && i < |s| && Fits(current, s[i], earlierOnly)
    && (forall j | 0 <= j < |s| && Fits(current, s[j], earlierOnly) ::
          s[j].finished.value <= s[i].finished.value && (j < i ==> s[j].finished.value < s[i].finished.value))
  }

  ghost predicate IsBest(current: Run, s: seq<Run>, earlierOnly: bool, b: Option<Run>)
    requires current.snapshot.Some? && Timed(s)
  {
    if b.None? then forall j | 0 <= j < |s| :: !Fits(current, s[j], earlierOnly)
    else exists i: nat :: IsBestAt(current, s, earlierOnly, i) && s[i] == b.value
  }

  lemma BestMore(current: Run, s: seq<Run>, x: Run, earlierOnly: bool, b: Option<Run>)
    requires current.snapshot.Some? && Timed(s) && x.finished.Some? && IsBest(current, s, earlierOnly, b)
    ensures Timed(s + [x]) && IsBest(current, s + [x], earlierOnly, Better(current, b, x, earlierOnly))
  {
    var more := s + [x];
    if b.None? {
      if Fits(current, x, earlierOnly) {
        assert IsBestAt(current, more, earlierOnly, |s|) && more[|s|] == x;
      }
    } else {
      var i: nat :| IsBestAt(current, s, earlierOnly, i) && s[i] == b.value;
      if Better(current, b, x, earlierOnly) == b {
        assert IsBestAt(current, more, earlierOnly, i) && more[i] == b.value;
      } else {
        assert IsBestAt(current, more, earlierOnly, |s|) && more[|s|] == x;
      }
    }
  }

  lemma {:induction false} BestIsBest(current: Run, s: seq<Run>, earlierOnly: bool)
    requires current.snapshot.Some? && Timed(s)
    ensures IsBest(current, s, earlierOnly, Best(current, s, earlierOnly))
    decreases |s|
  {
    if s != [] {
      var k := |s| - 1;
      BestIsBest(current, s[..k], earlierOnly);
      BestMore(current, s[..k], s[k], earlierOnly, Best(current, s[..k], earlierOnly));
      assert s == s[..k] + [s[k]];
    }
  }

  /** Some run of the list ended earlier than the current one. */
  predicate AnyEarlier(current: Run, s: seq<Run>) {
    if s == [] then false else AnyEarlier(current, s[..|s| - 1]) || Earlier(current, s[|s| - 1])
  }

  lemma {:induction false} AnyEarlierIff(current: Run, s: seq<Run>)
    ensures AnyEarlier(current, s) <==> exists x :: x in s && Earlier(current, x)
    decreases |s|
  {
    if s != [] {
      var k := |s| - 1;
      AnyEarlierIff(current, s[..k]);
      assert s == s[..k] + [s[k]];
    }
  }

  lemma LatestKeepsEarlier(current: Run, s: seq<Run>)
    ensures AnyEarlier(current, Latest(s)) <==> AnyEarlier(current, s)
  {
    AnyEarlierIff(current, s);
    AnyEarlierIff(current, Latest(s));
    SortedKeeps(s, Age);
  }

  lemma {:induction false} EarlierOnesIsEmptyIff(current: Run, s: seq<Run>)
    ensures EarlierOnes(current, s) != [] <==> AnyEarlier(current, s)
    decreases |s|
  {
    if s != [] {
      EarlierOnesIsEmptyIff(current, s[..|s| - 1]);
    }
  }

  /** The baseline is the latest matching run of its pool, the first listed of several at one time:
      the pool is the other runs that ended earlier if there is any, else all other runs. */
  lemma BaselineIsLatestMatch(current: Run, runs: seq<Run>)
    requires current.snapshot.Some? && current.snapshot.value.comparable && Timed(Others(current, runs))
    ensures var others := Others(current, runs);
            IsBest(current, others, AnyEarlier(current, others), DefaultBaseline(Some(current), runs))
  {
    var others := Others(current, runs);
    EarlierOnesIsEmptyIff(current, Latest(others));
    LatestKeepsEarlier(current, others);
    FindIsFirstFit(current, Latest(others));
    LatestChoosesBest(current, others, AnyEarlier(current, others));
    BestIsBest(current, others, AnyEarlier(current, others));
  }
}
