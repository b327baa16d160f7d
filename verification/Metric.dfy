/**
 * The metric cell: streaming mean and deviation (Welford) and median (two heaps) against the
 * batch formulas, and the windowed mode that emits one snapshot per full window.
 */
module Metric {
  import opened Wrappers

  datatype Snapshot = Snapshot(
    count: nat, mean: real, median: real, std: real, min: real, max: real)

  // ---- batch formulas

  function Sum(xs: seq<real>): real {
    if xs == [] then 0.0 else Sum(xs[..|xs| - 1]) + xs[|xs| - 1]
  }

  /** Sum of squared deviations from m. */
  function Deviation(xs: seq<real>, m: real): real {
    if xs == [] then 0.0
    else Deviation(xs[..|xs| - 1], m) + (xs[|xs| - 1] - m) * (xs[|xs| - 1] - m)
  }

  function SmallestOf(xs: seq<real>): real
    requires xs != []
  {
    var last := xs[|xs| - 1];
    if |xs| == 1 then last
    else
      var before := SmallestOf(xs[..|xs| - 1]);
      if last < before then last else before
  }

  function LargestOf(xs: seq<real>): real
    requires xs != []
  {
    var last := xs[|xs| - 1];
    if |xs| == 1 then last
    else
      var before := LargestOf(xs[..|xs| - 1]);
      if last > before then last else before
  }

  ghost predicate IsSorted(s: seq<real>) {
    forall i, j :: 0 <= i <= j < |s| ==> s[i] <= s[j]
  }

  /** Adds a value to an ascending sequence; also `heapq.heappush`, whose heaps are kept ascending here. */
  function Insert(s: seq<real>, x: real): seq<real> {
    if s == [] then [x]
    else if x <= s[0] then [x] + s
    else [s[0]] + Insert(s[1..], x)
  }

  /** `sorted(xs)`. */
  function Sort(xs: seq<real>): seq<real> {
    if xs == [] then [] else Insert(Sort(xs[..|xs| - 1]), xs[|xs| - 1])
  }

  function MedianOfSorted(s: seq<real>): real {
    var n := |s|;
    if n == 0 then 0.0
    else if n % 2 == 1 then s[n / 2]
    else (s[n / 2 - 1] + s[n / 2]) / 2.0
  }

  function Mean(xs: seq<real>): real
    requires xs != []
  {
    Sum(xs) / |xs| as real
  }

  /** `math.sqrt`, of which nothing is needed but that it is a function. */
  type Root = real -> real

  /** The sample standard deviation of n values with this sum of squared deviations. */
  function Std(deviation: real, n: nat, root: Root): real {
    if n > 1 then root(deviation / (n - 1) as real) else 0.0
  }

  /** The snapshot of a batch of values. */
  function Batch(xs: seq<real>, root: Root): Snapshot {
    if xs == [] then Snapshot(0, 0.0, 0.0, 0.0, 0.0, 0.0)
    else
      Snapshot(|xs|, Mean(xs), MedianOfSorted(Sort(xs)), Std(Deviation(xs, Mean(xs)), |xs|, root),
               SmallestOf(xs), LargestOf(xs))
  }

  // ---- sorting is right: an ascending permutation

  lemma {:induction false} InsertAdds(s: seq<real>, x: real)
    ensures multiset(Insert(s, x)) == multiset(s) + multiset{x}
  {
    if s != [] && x > s[0] {
      InsertAdds(s[1..], x);
      assert s == [s[0]] + s[1..];
    }
  }

  lemma SortedCons(x: real, s: seq<real>)
    requires IsSorted(s) && forall i :: 0 <= i < |s| ==> x <= s[i]
    ensures IsSorted([x] + s)
  {
  }

  lemma {:induction false} InsertSorted(s: seq<real>, x: real)
    requires IsSorted(s)
    ensures IsSorted(Insert(s, x))
  {
    if s != [] && x > s[0] {
      InsertSorted(s[1..], x);
      var t := Insert(s[1..], x);
      InsertAdds(s[1..], x);
      forall i | 0 <= i < |t|
        ensures s[0] <= t[i]
      {
        assert t[i] in multiset(t);
      }
      hide Insert;
      SortedCons(s[0], t);
    } else if s != [] {
      SortedCons(x, s);
    }
  }

  lemma {:induction false} SortSorts(xs: seq<real>)
    ensures IsSorted(Sort(xs)) && multiset(Sort(xs)) == multiset(xs)
  {
    if xs != [] {
      SortSorts(xs[..|xs| - 1]);
      InsertSorted(Sort(xs[..|xs| - 1]), xs[|xs| - 1]);
      InsertAdds(Sort(xs[..|xs| - 1]), xs[|xs| - 1]);
      assert xs == xs[..|xs| - 1] + [xs[|xs| - 1]];
    }
  }

  // ---- Welford

  lemma {:induction false} DeviationExpanded(xs: seq<real>, m: real)
    ensures Deviation(xs, m) == Deviation(xs, 0.0) - 2.0 * m * Sum(xs) + |xs| as real * m * m
  {
    if xs != [] {
      var before, x := xs[..|xs| - 1], xs[|xs| - 1];
      DeviationExpanded(before, m);
      DeviationExpanded(before, 0.0);
      assert (x - m) * (x - m) == x * x - 2.0 * m * x + m * m;
      assert |xs| as real == |before| as real + 1.0;
      ExpandStep(Deviation(before, 0.0), Sum(before), |before| as real, x, m);
    }
  }

  lemma ExpandStep(q: real, s: real, n: real, x: real, m: real)
    ensures (q - 2.0 * m * s + n * m * m) + (x * x - 2.0 * m * x + m * m) ==
            (q + x * x) - 2.0 * m * (s + x) + (n + 1.0) * m * m
  {
    assert 2.0 * m * (s + x) == 2.0 * m * s + 2.0 * m * x;
    assert (n + 1.0) * m * m == n * m * m + m * m;
  }

  /** The algebra of one Welford update, over a sum s, a square sum q and n values before. */
  lemma WelfordAlgebra(n: real, s: real, q: real, m: real, x: real, m': real)
    requires n * m == s && (n + 1.0) * m' == s + x
    ensures (q - 2.0 * m * s + n * m * m) + (x - m) * (x - m') ==
            (q + x * x) - 2.0 * m' * (s + x) + (n + 1.0) * m' * m'
  {
    assert n * m * m == s * m;
    assert (n + 1.0) * m' * m' == (s + x) * m';
    assert (x - m) * (x - m') == x * x - x * m' - m * x + m * m';
    assert m' * (s + x) == s * m' + x * m';
    assert m * s == s * m && m * x == x * m;
    assert n * m * m' == s * m';
    assert ((n + 1.0) * m') * m == (s + x) * m;
    assert ((n + 1.0) * m') * m == n * m * m' + m * m';
    assert (s + x) * m == s * m + x * m;
  }

  ghost predicate Averages(xs: seq<real>, mean: real, m2: real) {
    |xs| as real * mean == Sum(xs) && m2 == Deviation(xs, mean)
  }

  function WelfordMean(count: nat, mean: real, x: real): real
    requires count > 0
  {
    mean + (x - mean) / count as real
  }

  function WelfordM2(count: nat, mean: real, m2: real, x: real): real
    requires count > 0
  {
    if count > 1 then m2 + (x - mean) * (x - WelfordMean(count, mean, x)) else m2
  }

  lemma MeanScaled(n: real, mean: real, x: real, s: real)
    requires n > 0.0 && (n - 1.0) * mean == s
    ensures n * (mean + (x - mean) / n) == s + x
  {
    var d := (x - mean) / n;
    assert n * d == x - mean;
    assert n * (mean + d) == n * mean + n * d;
    assert (n - 1.0) * mean == n * mean - mean;
  }

  lemma WelfordStep(xs: seq<real>, mean: real, m2: real, x: real)
    requires Averages(xs, mean, m2)
    ensures var n := |xs| + 1;
            Averages(xs + [x], WelfordMean(n, mean, x), WelfordM2(n, mean, m2, x))
  {
    hide Sum;
    hide Deviation;
    var n, ys := |xs| + 1, xs + [x];
    var mean' := WelfordMean(n, mean, x);
    MeanScaled(n as real, mean, x, Sum(xs));
    Snoc(xs, x, mean');
    Snoc(xs, x, 0.0);
    if xs == [] {
      NoValues(mean);
      NoValues(mean');
      assert mean' == x;
    } else {
      DeviationExpanded(xs, mean);
      DeviationExpanded(ys, mean');
      WelfordAlgebra(|xs| as real, Sum(xs), Deviation(xs, 0.0), mean, x, mean');
    }
  }

  lemma Snoc(xs: seq<real>, x: real, m: real)
    ensures Sum(xs + [x]) == Sum(xs) + x
    ensures Deviation(xs + [x], m) == Deviation(xs, m) + (x - m) * (x - m)
  {
    assert (xs + [x])[..|xs|] == xs;
  }

  lemma NoValues(m: real)
    ensures Sum([]) == 0.0 && Deviation([], m) == 0.0
  {
  }

  // ---- two heaps

  /** The values of the lower heap, which stores negatives, in ascending order. */
  function Lower(lo: seq<real>): (r: seq<real>)
    ensures |r| == |lo|
    ensures lo != [] ==> r[|r| - 1] == -lo[0]
  {
    if lo == [] then [] else Lower(lo[1..]) + [-lo[0]]
  }

  predicate NeedsLow(lo: seq<real>, x: real) {
    lo == [] || x <= -lo[0]
  }

  function HeapsPush(lo: seq<real>, hi: seq<real>, x: real): (seq<real>, seq<real>) {
    if NeedsLow(lo, x) then (Insert(lo, -x), hi) else (lo, Insert(hi, x))
  }

  function Rebalance(lo: seq<real>, hi: seq<real>): (seq<real>, seq<real>) {
    if |lo| > |hi| + 1 then (lo[1..], Insert(hi, -lo[0]))
    else if |hi| > |lo| then (Insert(lo, -hi[0]), hi[1..])
    else (lo, hi)
  }

  /** Both heaps after `_median_heaps_add`. */
  function HeapsAdd(lo: seq<real>, hi: seq<real>, x: real): (seq<real>, seq<real>) {
    var (lo1, hi1) := HeapsPush(lo, hi, x);
    Rebalance(lo1, hi1)
  }

  function HeapsMedian(lo: seq<real>, hi: seq<real>): real
    requires |hi| <= |lo|
  {
    if lo == [] && hi == [] then 0.0
    else if |lo| == |hi| then (-lo[0] + hi[0]) / 2.0
    else -lo[0]
  }

  /** The heaps split the sorted values in two halves, the lower one as long or one longer. */
  ghost predicate Halves(lo: seq<real>, hi: seq<real>, s: seq<real>) {
    IsSorted(s) && Lower(lo) + hi == s && |hi| <= |lo| <= |hi| + 1
  }

  lemma {:induction false} InsertLength(s: seq<real>, x: real)
    ensures |Insert(s, x)| == |s| + 1
  {
    if s != [] && x > s[0] {
      InsertLength(s[1..], x);
    }
  }

  lemma {:induction false} InsertFront(s: seq<real>, x: real)
    requires s == [] || x <= s[0]
    ensures Insert(s, x) == [x] + s
  {
    assert [x] + [] == [x];
  }

  lemma {:induction false} InsertRest(s: seq<real>, x: real)
    requires s != [] && x > s[0]
    ensures Insert(s, x) == [s[0]] + Insert(s[1..], x)
  {
  }

  /** Values at most the last of s go into s. */
  lemma {:induction false} InsertInto(s: seq<real>, t: seq<real>, x: real)
    requires s != [] && x <= s[|s| - 1]
    ensures Insert(s + t, x) == Insert(s, x) + t
    decreases |s|
  {
    hide Insert;
    if x > s[0] {
      InsertInto(s[1..], t, x);
      InsertRest(s, x);
      InsertRest(s + t, x);
      assert (s + t)[1..] == s[1..] + t;
      assert [s[0]] + (Insert(s[1..], x) + t) == ([s[0]] + Insert(s[1..], x)) + t;
    } else {
      InsertFront(s, x);
      InsertFront(s + t, x);
      assert [x] + (s + t) == ([x] + s) + t;
    }
  }

  /** Values above all of s go past it. */
  lemma {:induction false} InsertPast(s: seq<real>, t: seq<real>, x: real)
    requires forall i :: 0 <= i < |s| ==> x > s[i]
    ensures Insert(s + t, x) == s + Insert(t, x)
    decreases |s|
  {
    if s == [] {
      assert s + t == t;
    } else {
      assert (s + t)[1..] == s[1..] + t;
      InsertPast(s[1..], t, x);
      assert s == [s[0]] + s[1..];
    }
  }

  /** Pushing -x onto the lower heap inserts x among the lower values. */
  lemma {:induction false} LowerInsert(lo: seq<real>, x: real)
    requires IsSorted(Lower(lo))
    ensures Lower(Insert(lo, -x)) == Insert(Lower(lo), x)
    decreases |lo|
  {
    hide IsSorted;
    hide Insert;
    if lo == [] || -x <= lo[0] {
      InsertFront(lo, -x);
      LowerPush(-x, lo);
      if lo == [] {
        assert Lower(lo) == [];
        InsertFront([], x);
      } else {
        InsertAtEnd(Lower(lo), x);
      }
    } else {
      assert Lower(lo) == Lower(lo[1..]) + [-lo[0]];
      PrefixSorted(Lower(lo[1..]), [-lo[0]]);
      hide Lower;
      LowerInsert(lo[1..], x);
      InsertRest(lo, -x);
      LowerPush(lo[0], Insert(lo[1..], -x));
      InsertBeforeLast(Lower(lo[1..]), -lo[0], x);
    }
  }

  lemma {:induction false} LowerPush(y: real, lo: seq<real>)
    ensures Lower([y] + lo) == Lower(lo) + [-y]
  {
    assert ([y] + lo)[1..] == lo;
  }

  lemma {:induction false} InsertAtEnd(s: seq<real>, x: real)
    requires IsSorted(s) && s != [] && x >= s[|s| - 1]
    ensures Insert(s, x) == s + [x]
    decreases |s|
  {
    assert s[0] <= s[|s| - 1];
    if x <= s[0] {
      assert forall i :: 0 <= i < |s| ==> s[0] <= s[i] <= s[|s| - 1];
      assert forall i :: 0 <= i < |s| ==> s[i] == x;
    } else if |s| > 1 {
      InsertAtEnd(s[1..], x);
      assert s == [s[0]] + s[1..];
    } else {
      assert s[1..] == [];
    }
  }

  lemma {:induction false} InsertBeforeLast(s: seq<real>, last: real, x: real)
    requires x < last
    ensures Insert(s + [last], x) == Insert(s, x) + [last]
    decreases |s|
  {
    if s != [] {
      assert (s + [last])[1..] == s[1..] + [last];
      if x > s[0] {
        InsertBeforeLast(s[1..], last, x);
      }
    } else {
      assert s + [last] == [last];
    }
  }

  lemma PrefixSorted(a: seq<real>, b: seq<real>)
    requires IsSorted(a + b)
    ensures IsSorted(a)
  {
    assert forall i :: 0 <= i < |a| ==> a[i] == (a + b)[i];
  }

  lemma {:induction false} PushLow(lo: seq<real>, hi: seq<real>, x: real)
    requires lo != [] && x <= -lo[0] && IsSorted(Lower(lo))
    ensures Lower(Insert(lo, -x)) + hi == Insert(Lower(lo) + hi, x)
  {
    hide IsSorted;
    LowerInsert(lo, x);
    InsertInto(Lower(lo), hi, x);
    hide Insert;
    hide Lower;
  }

  lemma {:induction false} PushHigh(lo: seq<real>, hi: seq<real>, x: real)
    requires lo != [] && x > -lo[0] && IsSorted(Lower(lo))
    ensures Lower(lo) + Insert(hi, x) == Insert(Lower(lo) + hi, x)
  {
    var low := Lower(lo);
    assert low[|low| - 1] == -lo[0];
    hide Lower;
    assert forall i :: 0 <= i < |low| ==> low[i] <= low[|low| - 1];
    InsertPast(low, hi, x);
    hide Insert;
  }

  /** The push of `_median_heaps_add`, before rebalancing. */
  lemma {:induction false} PushInserts(lo: seq<real>, hi: seq<real>, s: seq<real>, x: real)
    requires Halves(lo, hi, s)
    ensures var (lo1, hi1) := HeapsPush(lo, hi, x);
            Lower(lo1) + hi1 == Insert(s, x) && |hi1| <= |lo1| + 1 && |lo1| <= |hi1| + 2
  {
    hide Insert;
    InsertLength(lo, -x);
    InsertLength(hi, x);
    if lo == [] {
      assert hi == [] && s == [];
      LowerPush(-x, []);
      assert Lower([]) == [];
      InsertFront([], -x);
      InsertFront([], x);
    } else {
      hide IsSorted;
      PrefixSorted(Lower(lo), hi);
      hide Lower;
      if NeedsLow(lo, x) {
        PushLow(lo, hi, x);
      } else {
        PushHigh(lo, hi, x);
      }
    }
  }

  lemma {:induction false} RebalanceDown(lo: seq<real>, hi: seq<real>, s: seq<real>)
    requires IsSorted(s) && Lower(lo) + hi == s && lo != []
    ensures Lower(lo[1..]) + Insert(hi, -lo[0]) == s
  {
    var v := -lo[0];
    assert Lower(lo) == Lower(lo[1..]) + [v];
    hide Lower;
    assert s[|lo| - 1] == v;
    if hi != [] {
      assert s[|lo|] == hi[0];
    }
    assert Insert(hi, v) == [v] + hi;
    hide Insert;
  }

  lemma {:induction false} RebalanceUp(lo: seq<real>, hi: seq<real>, s: seq<real>)
    requires IsSorted(s) && Lower(lo) + hi == s && hi != []
    ensures Lower(Insert(lo, -hi[0])) + hi[1..] == s
  {
    var v := hi[0];
    assert s[|lo|] == v;
    if lo != [] {
      assert s[|lo| - 1] == -lo[0];
    }
    assert Insert(lo, -v) == [-v] + lo;
    assert ([-v] + lo)[1..] == lo;
    assert hi == [v] + hi[1..];
  }

  lemma RebalancedHalves(lo: seq<real>, hi: seq<real>, s: seq<real>)
    requires IsSorted(s) && Lower(lo) + hi == s && |hi| <= |lo| + 1 && |lo| <= |hi| + 2
    ensures Halves(Rebalance(lo, hi).0, Rebalance(lo, hi).1, s)
  {
    hide Insert;
    hide IsSorted;
    hide Lower;
    if |lo| > |hi| + 1 {
      RebalanceDown(lo, hi, s);
      InsertLength(hi, -lo[0]);
    } else if |hi| > |lo| {
      RebalanceUp(lo, hi, s);
      InsertLength(lo, -hi[0]);
    }
  }

  lemma {:induction false} HeapsAddHalves(lo: seq<real>, hi: seq<real>, xs: seq<real>, x: real)
    requires Halves(lo, hi, Sort(xs))
    ensures var (lo', hi') := HeapsAdd(lo, hi, x); Halves(lo', hi', Sort(xs + [x]))
  {
    hide Insert;
    hide IsSorted;
    hide Lower;
    assert Sort(xs + [x]) == Insert(Sort(xs), x) by {
      assert (xs + [x])[..|xs|] == xs;
    }
    SortSorts(xs + [x]);
    hide Sort;
    hide Halves;
    hide HeapsPush;
    hide Rebalance;
    PushInserts(lo, hi, Sort(xs), x);
    var (lo1, hi1) := HeapsPush(lo, hi, x);
    RebalancedHalves(lo1, hi1, Sort(xs + [x]));
  }

  /** The heap tops give the median of the sorted values. */
  lemma HeapsMedianIsMedian(lo: seq<real>, hi: seq<real>, s: seq<real>)
    requires Halves(lo, hi, s)
    ensures HeapsMedian(lo, hi) == MedianOfSorted(s)
  {
    var n := |s|;
    if n > 0 {
      assert s[|lo| - 1] == -lo[0];
      if |lo| == |hi| {
        assert n / 2 == |lo| && s[|lo|] == hi[0];
      } else {
        assert n == 2 * |hi| + 1;
      }
    }
  }

  // ---- smallest and largest value

  function KeepMin(min: Option<real>, x: real): Option<real> {
    if min.None? || x < min.value then Some(x) else min
  }

  function KeepMax(max: Option<real>, x: real): Option<real> {
    if max.None? || x > max.value then Some(x) else max
  }

  /** The running extremes, which start out infinite. */
  ghost predicate Extremes(xs: seq<real>, min: Option<real>, max: Option<real>) {
    if xs == [] then min.None? && max.None?
    else min == Some(SmallestOf(xs)) && max == Some(LargestOf(xs))
  }

  lemma ExtremesStep(xs: seq<real>, min: Option<real>, max: Option<real>, x: real)
    requires Extremes(xs, min, max)
    ensures Extremes(xs + [x], KeepMin(min, x), KeepMax(max, x))
  {
    assert (xs + [x])[..|xs|] == xs;
  }

  // ---- the metric cell

  class Cell {
    const limit: int
    const root: Root
    var count: nat
    var min: Option<real>
    var max: Option<real>
    var mean: real
    var m2: real
    var lo: seq<real>
    var hi: seq<real>
    var buf: seq<real>
    var bufSum: real
    /** The values recorded since the last reset. */
    ghost var seen: seq<real>

    ghost predicate Valid()
      reads this
    {
      && (limit == -1 || limit > 0)
      && count == |seen| && Extremes(seen, min, max)
      && (limit == -1 ==> Averages(seen, mean, m2) && Halves(lo, hi, Sort(seen)))
      && (limit > 0 ==> buf == seen && bufSum == Sum(seen) && |seen| < limit)
    }

    constructor (limit: int, root: Root)
      requires limit == -1 || limit > 0
      ensures Valid() && seen == [] && this.limit == limit && this.root == root
    {
      this.limit, this.root := limit, root;
      count, min, max, mean, m2, lo, hi, buf, bufSum, seen := 0, None, None, 0.0, 0.0, [], [], [], 0.0, [];
    }

    method Reset()
      requires limit == -1 || limit > 0
      modifies this
      ensures Valid() && seen == []
    {
      count, min, max, mean, m2, lo, hi, buf, bufSum, seen := 0, None, None, 0.0, 0.0, [], [], [], 0.0, [];
    }

    method UpdateCommon(x: real)
      modifies this`count, this`min, this`max
      ensures count == old(count) + 1 && min == KeepMin(old(min), x) && max == KeepMax(old(max), x)
    {
      count := count + 1;
      if min.None? || x < min.value {
        min := Some(x);
      }
      if max.None? || x > max.value {
        max := Some(x);
      }
    }

    method WelfordUpdate(x: real)
      requires count > 0
      modifies this`mean, this`m2
      ensures mean == WelfordMean(count, old(mean), x) && m2 == WelfordM2(count, old(mean), old(m2), x)
    {
      var delta := x - mean;
      mean := mean + delta / count as real;
      var delta2 := x - mean;
      if count > 1 {
        m2 := m2 + delta * delta2;
      }
    }

    method MedianHeapsAdd(x: real)
      modifies this`lo, this`hi
      ensures (lo, hi) == HeapsAdd(old(lo), old(hi), x)
    {
      if lo == [] || x <= -lo[0] {
        lo := Insert(lo, -x);
      } else {
        hi := Insert(hi, x);
      }
      if |lo| > |hi| + 1 {
        hi, lo := Insert(hi, -lo[0]), lo[1..];
      } else if |hi| > |lo| {
        lo, hi := Insert(lo, -hi[0]), hi[1..];
      }
    }

    /** Records one value; in windowed mode a full window is reported and the cell starts afresh. */
    method Add(x: real) returns (rolled: Option<Snapshot>)
      requires Valid()
      modifies this
      ensures Valid()
      ensures limit == -1 ==> rolled == None && seen == old(seen) + [x]
      ensures limit > 0 ==>
                if |old(seen)| + 1 < limit then rolled == None && seen == old(seen) + [x]
                else rolled == Some(Batch(old(seen) + [x], root)) && seen == []
    {
      hide Extremes;
      hide Halves;
      hide Averages;
      ExtremesStep(seen, min, max, x);
      rolled := None;
      if limit == -1 {
        WelfordStep(seen, mean, m2, x);
        HeapsAddHalves(lo, hi, seen, x);
        UpdateCommon(x);
        WelfordUpdate(x);
        MedianHeapsAdd(x);
        seen := seen + [x];
      } else {
        Snoc(seen, x, 0.0);
        buf := buf + [x];
        bufSum := bufSum + x;
        UpdateCommon(x);
        seen := seen + [x];
        if |buf| >= limit {
          rolled := Some(WindowSnapshot(buf, bufSum, root));
          Reset();
        }
      }
    }

    /** The current statistics: always those of the batch of values seen. */
    method Current() returns (s: Snapshot)
      requires Valid()
      ensures s == Batch(seen, root)
    {
      if count == 0 {
        return Snapshot(0, 0.0, 0.0, 0.0, 0.0, 0.0);
      }
      assert min == Some(SmallestOf(seen)) && max == Some(LargestOf(seen));
      if limit == -1 {
        StreamingIsBatch(seen, mean, m2, lo, hi, root);
        hide Halves;
        hide Averages;
        s := Snapshot(count, mean, HeapsMedian(lo, hi), Std(m2, count, root), min.value, max.value);
      } else {
        s := WindowSnapshot(buf, bufSum, root).(min := min.value, max := max.value);
      }
      hide Extremes;
    }
  }

  /** Running mean, deviation and heaps give the batch statistics. */
  lemma StreamingIsBatch(xs: seq<real>, mean: real, m2: real, lo: seq<real>, hi: seq<real>, root: Root)
    requires xs != [] && Averages(xs, mean, m2) && Halves(lo, hi, Sort(xs))
    ensures |hi| <= |lo|
    ensures Batch(xs, root) ==
            Snapshot(|xs|, mean, HeapsMedian(lo, hi), Std(m2, |xs|, root), SmallestOf(xs), LargestOf(xs))
  {
    HeapsMedianIsMedian(lo, hi, Sort(xs));
    MeanDivides(xs, mean);
    hide HeapsMedian;
    hide MedianOfSorted;
    hide Sort;
    hide Sum;
    hide Deviation;
    hide SmallestOf;
    hide LargestOf;
    hide Std;
  }

  /** A new cell, refused (as the constructor does by raising) unless the limit is -1 or positive. */
  method MakeCell(limit: int, root: Root) returns (cell: Option<Cell>)
    ensures cell.None? <==> limit == 0 || limit < -1
    ensures cell.Some? ==> cell.value.Valid() && cell.value.seen == [] && cell.value.limit == limit
  {
    if limit == 0 || limit < -1 {
      return None;
    }
    var c := new Cell(limit, root);
    return Some(c);
  }

  lemma MeanDivides(xs: seq<real>, mean: real)
    requires xs != [] && |xs| as real * mean == Sum(xs)
    ensures mean == Mean(xs)
  {
    var n := |xs| as real;
    assert mean == (n * mean) / n;
  }

  /** `_compute_window_snapshot` over a non-empty buffer and its running sum. */
  function WindowSnapshot(buf: seq<real>, bufSum: real, root: Root): (s: Snapshot)
    requires buf != []
    ensures bufSum == Sum(buf) ==> s == Batch(buf, root)
  {
    var mean := bufSum / |buf| as real;
    Snapshot(|buf|, mean, MedianOfSorted(Sort(buf)), Std(Deviation(buf, mean), |buf|, root),
             SmallestOf(buf), LargestOf(buf))
  }

  // ---- runs

  /** Streaming equals batch: for every input the cell reports the batch statistics of that input. */
  method Stream(xs: seq<real>, root: Root) returns (s: Snapshot)
    ensures s == Batch(xs, root)
  {
    var cell := new Cell(-1, root);
    for i := 0 to |xs|
      invariant cell.Valid() && fresh(cell) && cell.limit == -1 && cell.root == root && cell.seen == xs[..i]
    {
      var rolled := cell.Add(xs[i]);
      assert xs[..i + 1] == xs[..i] + [xs[i]];
    }
    assert xs[..|xs|] == xs;
    s := cell.Current();
  }

  /** The snapshots are those of consecutive blocks of exactly `limit` values that make up `xs`. */
  ghost predicate Tiles(snapshots: seq<Snapshot>, xs: seq<real>, limit: nat, root: Root)
    decreases |snapshots|
  {
    if snapshots == [] then xs == []
    else
      var n := |snapshots| - 1;
      && |xs| >= limit
      && snapshots[n] == Batch(xs[|xs| - limit..], root)
      && Tiles(snapshots[..n], xs[..|xs| - limit], limit, root)
  }

  lemma {:induction false} TileOneMore(
      snapshots: seq<Snapshot>, xs: seq<real>, done: nat, limit: nat, next: Snapshot, root: Root)
    requires done + limit <= |xs| && Tiles(snapshots, xs[..done], limit, root)
    requires next == Batch(xs[done..done + limit], root)
    ensures Tiles(snapshots + [next], xs[..done + limit], limit, root)
  {
    hide Batch;
    var ys := xs[..done + limit];
    assert ys[|ys| - limit..] == xs[done..done + limit];
    assert ys[..|ys| - limit] == xs[..done];
    assert (snapshots + [next])[..|snapshots|] == snapshots;
  }

  /** So they cover that many values. */
  lemma {:induction false} TilesLength(snapshots: seq<Snapshot>, xs: seq<real>, limit: nat, root: Root)
    requires Tiles(snapshots, xs, limit, root)
    ensures |xs| == |snapshots| * limit
    decreases |snapshots|
  {
    hide Batch;
    if snapshots != [] {
      var n := |snapshots| - 1;
      TilesLength(snapshots[..n], xs[..|xs| - limit], limit, root);
      assert |snapshots| * limit == n * limit + limit;
    }
  }

  /** Windows tile the input: every value is reported in exactly one full window, or still pending. */
  method Windows(limit: nat, xs: seq<real>, root: Root) returns (emitted: seq<Snapshot>, pending: Snapshot)
    requires limit > 0
    ensures |emitted| * limit <= |xs| < (|emitted| + 1) * limit
    ensures Tiles(emitted, xs[..|emitted| * limit], limit, root)
    ensures pending == Batch(xs[|emitted| * limit..], root)
  {
    hide Batch;
    hide Extremes;
    hide Halves;
    hide Averages;
    assert Tiles([], xs[..0], limit, root);
    hide Tiles;
    var cell := new Cell(limit, root);
    emitted := [];
    ghost var done := 0;
    for i := 0 to |xs|
      invariant cell.Valid() && fresh(cell) && cell.limit == limit && cell.root == root
      invariant 0 <= done <= i < done + limit && cell.seen == xs[done..i]
      invariant Tiles(emitted, xs[..done], limit, root)
    {
      var rolled := cell.Add(xs[i]);
      assert xs[done..i + 1] == xs[done..i] + [xs[i]];
      if rolled.Some? {
        TileOneMore(emitted, xs, done, limit, rolled.value, root);
        emitted := emitted + [rolled.value];
        done := done + limit;
      }
    }
    TilesLength(emitted, xs[..done], limit, root);
    assert (|emitted| + 1) * limit == |emitted| * limit + limit;
    assert xs[done..|xs|] == xs[done..];
    pending := cell.Current();
  }

  // ---- what the statistics mean

  /** Over all pairs of values, the squares of their differences. */
  function PairSum(xs: seq<real>): real {
    if xs == [] then 0.0 else PairSum(xs[..|xs| - 1]) + Deviation(xs[..|xs| - 1], xs[|xs| - 1])
  }

  lemma PairSnoc(xs: seq<real>, x: real)
    ensures PairSum(xs + [x]) == PairSum(xs) + Deviation(xs, x)
  {
    assert (xs + [x])[..|xs|] == xs;
  }

  /** n times the sum of squares, less the square of the sum. */
  function Spread(n: real, q: real, s: real): real {
    n * q - s * s
  }

  lemma {:induction false} PairSumExpanded(xs: seq<real>)
    ensures PairSum(xs) == Spread(|xs| as real, Deviation(xs, 0.0), Sum(xs))
  {
    if xs != [] {
      var before, x := xs[..|xs| - 1], xs[|xs| - 1];
      assert xs == before + [x];
      PairSumExpanded(before);
      Snoc(before, x, 0.0);
      PairSnoc(before, x);
      SpreadStep(before, x);
    }
  }

  lemma SpreadStep(xs: seq<real>, x: real)
    ensures Spread(|xs| as real, Deviation(xs, 0.0), Sum(xs)) + Deviation(xs, x) ==
            Spread(|xs| as real + 1.0, Deviation(xs, 0.0) + x * x, Sum(xs) + x)
  {
    DeviationExpanded(xs, x);
    hide Sum;
    hide Deviation;
    var n, q, s := |xs| as real, Deviation(xs, 0.0), Sum(xs);
    assert (n + 1.0) * (q + x * x) == n * q + n * x * x + q + x * x;
    assert (s + x) * (s + x) == s * s + 2.0 * x * s + x * x;
  }

  lemma DeviationIsPairwise(xs: seq<real>)
    requires xs != []
    ensures Mean(xs) * |xs| as real == Sum(xs)
    ensures |xs| as real * Deviation(xs, Mean(xs)) == PairSum(xs)
  {
    hide Sum;
    hide Deviation;
    hide PairSum;
    var n, m, q, s := |xs| as real, Mean(xs), Deviation(xs, 0.0), Sum(xs);
    assert m * n == s;
    DeviationExpanded(xs, m);
    PairSumExpanded(xs);
    assert n * m * m == s * m;
    assert n * (q - 2.0 * m * s + s * m) == n * q - (m * n) * s;
  }

  /** Half the mean square of the difference of two distinct values: n values make n (n - 1) / 2 pairs. */
  function UnbiasedVariance(pairs: real, count: nat): real
    requires count > 1
  {
    pairs / count as real / (count as real - 1.0)
  }

  /** The reported deviation is the unbiased one over all pairs of values; a single value has none. */
  lemma StdIsPairwise(xs: seq<real>, root: Root)
    requires xs != []
    ensures Batch(xs, root).std == if |xs| == 1 then 0.0 else root(UnbiasedVariance(PairSum(xs), |xs|))
  {
    BatchStd(xs, root);
    hide Batch;
    PairwiseStd(xs, root);
  }

  lemma BatchStd(xs: seq<real>, root: Root)
    requires xs != []
    ensures Batch(xs, root).std == Std(Deviation(xs, Mean(xs)), |xs|, root)
  {
  }

  lemma PairwiseStd(xs: seq<real>, root: Root)
    requires xs != []
    ensures Std(Deviation(xs, Mean(xs)), |xs|, root) ==
            if |xs| == 1 then 0.0 else root(UnbiasedVariance(PairSum(xs), |xs|))
  {
    hide Deviation;
    hide PairSum;
    hide Mean;
    hide Std;
    hide UnbiasedVariance;
    DeviationIsPairwise(xs);
    StdOfPairs(Deviation(xs, Mean(xs)), |xs|, PairSum(xs), root);
  }

  lemma StdOfPairs(deviation: real, count: nat, pairs: real, root: Root)
    requires count > 0 && count as real * deviation == pairs
    ensures Std(deviation, count, root) == if count == 1 then 0.0 else root(UnbiasedVariance(pairs, count))
  {
    var n := count as real;
    assert deviation == (n * deviation) / n;
    if count > 1 {
      assert (count - 1) as real == n - 1.0;
      assert deviation == pairs / n;
      assert deviation / (count - 1) as real == pairs / n / (n - 1.0);
    }
  }

  /** The ends reported are values of the batch, and bound all of them. */
  lemma {:induction false} ExtremesBound(xs: seq<real>)
    requires xs != []
    ensures SmallestOf(xs) in xs && LargestOf(xs) in xs
    ensures forall x :: x in xs ==> SmallestOf(xs) <= x <= LargestOf(xs)
  {
    if |xs| > 1 {
      ExtremesBound(xs[..|xs| - 1]);
      assert xs == xs[..|xs| - 1] + [xs[|xs| - 1]];
    }
  }

  /** The median is the middle of the ascending values, halfway between the two middle ones of an even number. */
  lemma MedianIsMiddle(xs: seq<real>)
    requires xs != []
    ensures var s, n, median := Sort(xs), |xs|, MedianOfSorted(Sort(xs));
            && |s| == n && 2.0 * median == s[(n - 1) / 2] + s[n / 2]
            && (forall i :: 0 <= i < (n + 1) / 2 ==> s[i] <= median)
            && (forall i :: n / 2 <= i < n ==> median <= s[i])
  {
    SortSorts(xs);
    var s := Sort(xs);
    assert |multiset(s)| == |multiset(xs)|;
    hide Sort;
  }
}
