/** Two independent ways of thinning a history for display, one through a set of indices that is
    sorted afterwards and one through direct indices. */
module Downsampling {

  // ----- products and quotients under names -----

  function Times(x: nat, y: nat): nat {
    x * y
  }

  function Div(x: nat, y: nat): nat
    requires y > 0
  {
    x / y
  }

  lemma DivIs(x: nat, y: nat, q: nat)
    requires y > 0 && Times(q, y) <= x < Times(q, y) + y
    ensures Div(x, y) == q
  {
    DivBounds(x, y);
    if Div(x, y) < q {
      TimesOrder(Div(x, y) + 1, q, y);
      TimesNext(Div(x, y), y);
    } else if Div(x, y) > q {
      TimesOrder(q + 1, Div(x, y), y);
      TimesNext(q, y);
    }
  }

  lemma DivBounds(x: nat, y: nat)
    requires y > 0
    ensures Times(Div(x, y), y) <= x < Times(Div(x, y), y) + y
  {
  }

  lemma TimesNext(x: nat, y: nat)
    ensures Times(x + 1, y) == Times(x, y) + y
  {
  }

  lemma {:induction false} TimesOrder(x: nat, z: nat, y: nat)
    requires x <= z
    ensures Times(x, y) <= Times(z, y)
    decreases z - x
  {
    if x < z {
      TimesNext(x, y);
      TimesOrder(x + 1, z, y);
    }
  }

  lemma DivGrows(x: nat, y: nat, z: nat)
    requires z > 0 && y >= x + z
    ensures Div(y, z) > Div(x, z)
  {
    DivBounds(x, z);
    DivBounds(y, z);
    if Div(y, z) <= Div(x, z) {
      TimesOrder(Div(y, z), Div(x, z), z);
    }
  }

  // ----- indices -----

  /** `round(i * (n - 1) / (m - 1))`, halves rounded up, in exact arithmetic. */
  function Index(n: nat, m: nat, i: nat): nat
    requires n > 0 && m > 1
  {
    Div(2 * Times(i, n - 1) + (m - 1), 2 * (m - 1))
  }

  lemma IndexEnds(n: nat, m: nat)
    requires n > 0 && m > 1
    ensures Index(n, m, 0) == 0 && Index(n, m, m - 1) == n - 1
  {
    var k := 2 * (m - 1);
    DivIs(2 * Times(0, n - 1) + (m - 1), k, 0);
    TimesSwaps(m - 1, n - 1);
    DivIs(2 * Times(m - 1, n - 1) + (m - 1), k, n - 1);
  }

  lemma TimesSwaps(x: nat, y: nat)
    ensures 2 * Times(x, y) == Times(y, 2 * x)
  {
  }

  lemma IndexIncreases(n: nat, m: nat, i: nat)
    requires n > m > 1
    ensures Index(n, m, i) < Index(n, m, i + 1)
  {
    TimesNext(i, n - 1);
    DivGrows(2 * Times(i, n - 1) + (m - 1), 2 * Times(i + 1, n - 1) + (m - 1), 2 * (m - 1));
  }

  lemma {:induction false} IndexAscends(n: nat, m: nat, i: nat, j: nat)
    requires n > m > 1 && i < j
    ensures Index(n, m, i) < Index(n, m, j)
    decreases j
  {
    IndexIncreases(n, m, j - 1);
    if i < j - 1 {
      IndexAscends(n, m, i, j - 1);
    }
  }

  predicate StrictlyAscending(s: seq<nat>) {
    forall i, j | 0 <= i < j < |s| :: s[i] < s[j]
  }

  /** The indices of the direct form. */
  function Picks(n: nat, m: nat): seq<nat>
    requires n > m > 1
  {
    seq(m, i requires 0 <= i < m => Index(n, m, i))
  }

  lemma PicksAreOrdered(n: nat, m: nat)
    requires n > m > 1
    ensures var p := Picks(n, m);
      |p| == m && StrictlyAscending(p) && p[0] == 0 && p[m - 1] == n - 1 && forall i | 0 <= i < m :: p[i] < n
  {
    IndexEnds(n, m);
    forall i, j | 0 <= i < j < m ensures Index(n, m, i) < Index(n, m, j) {
      IndexAscends(n, m, i, j);
    }
  }

  /** `x` is the index closest to the `i`-th of `m` evenly spaced points from 0 to `n - 1`, the later one
      of two equally close. */
  predicate Nearest(n: nat, m: nat, i: nat, x: nat)
    requires n > 0 && m > 1
  {
    -(m - 1) < 2 * Times(x, m - 1) - 2 * Times(i, n - 1) <= m - 1
  }

  lemma IndexIsNearest(n: nat, m: nat, i: nat)
    requires n > 0 && m > 1
    ensures Nearest(n, m, i, Index(n, m, i))
  {
    DivBounds(2 * Times(i, n - 1) + (m - 1), 2 * (m - 1));
    TimesDoubles(Index(n, m, i), m - 1);
  }

  lemma TimesDoubles(x: nat, y: nat)
    ensures Times(x, 2 * y) == 2 * Times(x, y)
  {
  }

  /** Which positions of a history of `n` items are shown: all, or `m` from the first to the last, in order,
      each the closest to an evenly spaced point. */
  predicate EvenChoice(positions: seq<nat>, n: nat, m: nat)
    requires m > 1
  {
    && StrictlyAscending(positions) && |positions| == (if n <= m then n else m)
    && (forall i | 0 <= i < |positions| :: positions[i] < n)
    && (n > 0 ==> positions[0] == 0 && positions[|positions| - 1] == n - 1)
    && (n > m ==> forall i | 0 <= i < m :: Nearest(n, m, i, positions[i]))
  }

  function Positions(n: nat, m: nat): seq<nat>
    requires m > 1
  {
    if n <= m then seq(n, i requires 0 <= i < n => i) else Picks(n, m)
  }

  lemma PositionsAreEven(n: nat, m: nat)
    requires m > 1
    ensures EvenChoice(Positions(n, m), n, m)
  {
    if n > m {
      PicksAreOrdered(n, m);
      forall i | 0 <= i < m ensures Nearest(n, m, i, Positions(n, m)[i]) {
        IndexIsNearest(n, m, i);
      }
    }
  }

  /** A strictly ascending list is determined by its elements. */
  lemma {:induction false} AscendingIsUnique(s: seq<nat>, t: seq<nat>)
    requires StrictlyAscending(s) && StrictlyAscending(t) && forall x :: x in s <==> x in t
    ensures s == t
    decreases |s|
  {
    assert t != [] ==> t[0] in t;
    if s != [] {
      assert s[0] in t && t[0] in s;
      assert s[0] == t[0];
      forall x ensures x in s[1..] <==> x in t[1..] {
        assert x in s <==> x == s[0] || x in s[1..];
        assert x in t <==> x == t[0] || x in t[1..];
      }
      AscendingIsUnique(s[1..], t[1..]);
    }
  }

  // ----- the two forms -----

  function Select<T>(items: seq<T>, indices: seq<nat>): seq<T>
    requires forall i | 0 <= i < |indices| :: indices[i] < |items|
  {
    seq(|indices|, i requires 0 <= i < |indices| => items[indices[i]])
  }

  /** What both forms return: everything, or the picked items. */
  function Thinned<T>(items: seq<T>, limit: nat): seq<T>
    requires limit > 1
  {
    if |items| <= limit then items
    else
      PicksAreOrdered(|items|, limit);
      Select(items, Picks(|items|, limit))
  }

  method Least(s: set<nat>) returns (m: nat)
    requires s != {}
    ensures m in s && forall x | x in s :: m <= x
  {
    m :| m in s;
    var rest := s - {m};
    while rest != {}
      invariant rest <= s && m in s && forall y | y in s && y !in rest :: m <= y
      decreases |rest|
    {
      var y :| y in rest;
      if y < m {
        m := y;
      }
      rest := rest - {y};
    }
  }

  method SortIndices(indices: set<nat>) returns (r: seq<nat>)
    ensures StrictlyAscending(r) && forall x :: x in r <==> x in indices
  {
    r := [];
    var rest := indices;
    while rest != {}
      invariant rest <= indices && StrictlyAscending(r)
      invariant forall x :: x in indices <==> x in r || x in rest
      invariant forall i, y | 0 <= i < |r| && y in rest :: r[i] < y
      decreases |rest|
    {
      var least := Least(rest);
      r := r + [least];
      rest := rest - {least};
    }
  }

  method CollectIndices(n: nat, m: nat, ghost picks: seq<nat>) returns (indexes: set<nat>)
    requires n > m > 1 && picks == Picks(n, m) && picks[0] == 0 && picks[m - 1] == n - 1
    ensures forall x :: x in indexes <==> x in picks
  {
    indexes := {0, n - 1};
    for i := 1 to m - 1
      invariant forall x :: x in indexes <==> x == 0 || x == n - 1 || exists k | 1 <= k < i :: x == picks[k]
    {
      indexes := indexes + {Index(n, m, i)};
      assert picks[i] == Index(n, m, i);
    }
    forall x ensures x in indexes <==> x in picks {
      if x in picks {
        var k :| 0 <= k < m && x == picks[k];
        assert k == 0 || k == m - 1 || 1 <= k < m - 1;
      }
    }
  }

  /** The form through a set, sorted afterwards. */
  method DownsampleHistory<T>(samples: seq<T>, maximum: nat) returns (r: seq<T>)
    requires maximum > 1
    ensures r == Thinned(samples, maximum)
  {
    if |samples| <= maximum {
      return samples;
    }
    ghost var picks := Picks(|samples|, maximum);
    PicksAreOrdered(|samples|, maximum);
    var indexes := CollectIndices(|samples|, maximum, picks);
    var sorted := SortIndices(indexes);
    AscendingIsUnique(sorted, picks);
    r := Select(samples, sorted);
  }

  /** The direct form: the same samples, for every length and every limit above one. */
  method Downsample<T>(items: seq<T>, limit: nat) returns (r: seq<T>, ghost positions: seq<nat>)
    requires limit > 1
    ensures EvenChoice(positions, |items|, limit)
    ensures |r| == |positions| && forall i | 0 <= i < |r| :: r[i] == items[positions[i]]
    ensures r == Thinned(items, limit)
  {
    positions := Positions(|items|, limit);
    PositionsAreEven(|items|, limit);
    if |items| <= limit {
      return items, positions;
    }
    r := Select(items, Picks(|items|, limit));
  }
}
