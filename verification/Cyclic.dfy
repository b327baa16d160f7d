/** How often a cursor that walks round a ring of n places visits each place. */
module Cyclic {
  import opened StringOrder

  lemma MultipleBound(d: int, n: int)
    requires n > 0
    ensures d >= 1 ==> d * n >= n
    ensures d <= -1 ==> d * n <= -n
    ensures d == 0 ==> d * n == 0
  {
  }

  lemma DivModUnique(x: int, n: int, q: int, k: int)
    requires n > 0 && x == q * n + k && 0 <= k < n
    ensures x / n == q && x % n == k
  {
    var d := x / n - q;
    assert x == (x / n) * n + x % n;
    assert d * n == (x / n) * n - q * n;
    MultipleBound(d, n);
  }

  /** Python's `//`, which rounds down for negative operands too. */
  function FloorDiv(a: int, b: int): int
    requires b != 0
  {
    if b > 0 then a / b else (-a) / (-b)
  }

  function CeilDiv(len: nat, n: nat): nat
    requires n > 0
  {
    (len + n - 1) / n
  }

  /** Visits to place r by the `len` consecutive positions from `start` on. */
  function Visits(start: nat, len: nat, n: nat, r: nat): nat
    requires n > 0
  {
    if len == 0 then 0
    else Visits(start, len - 1, n, r) + (if (start + len - 1) % n == r then 1 else 0)
  }

  /** Visits to place r by the positions 0..m. */
  function Before(m: nat, n: nat, r: nat): nat
    requires r < n
  {
    (m + n - 1 - r) / n
  }

  lemma BeforeStep(m: nat, n: nat, r: nat)
    requires r < n
    ensures Before(m + 1, n, r) == Before(m, n, r) + (if m % n == r then 1 else 0)
  {
    var q, k := m / n, m % n;
    assert m == q * n + k;
    assert (q + 1) * n == q * n + n;
    if k < r {
      DivModUnique(m + n - 1 - r, n, q, k + n - 1 - r);
      DivModUnique(m + n - r, n, q, k + n - r);
    } else if k == r {
      DivModUnique(m + n - 1 - r, n, q, n - 1);
      DivModUnique(m + n - r, n, q + 1, 0);
    } else {
      DivModUnique(m + n - 1 - r, n, q + 1, k - 1 - r);
      DivModUnique(m + n - r, n, q + 1, k - r);
    }
  }

  lemma {:induction false} VisitsBetween(start: nat, len: nat, n: nat, r: nat)
    requires r < n
    ensures Visits(start, len, n, r) == Before(start + len, n, r) - Before(start, n, r)
    decreases len
  {
    if len > 0 {
      VisitsBetween(start, len - 1, n, r);
      BeforeStep(start + len - 1, n, r);
    }
  }

  lemma CeilIsFloorOrNext(len: nat, n: nat)
    requires n > 0
    ensures CeilDiv(len, n) == FloorDiv(len, n) + (if len % n == 0 then 0 else 1)
  {
    var a, b := len / n, len % n;
    assert len == a * n + b;
    if b == 0 {
      DivModUnique(len + n - 1, n, a, n - 1);
    } else {
      assert (a + 1) * n == a * n + n;
      DivModUnique(len + n - 1, n, a + 1, b - 1);
    }
  }

  lemma DivAdd(x: nat, len: nat, n: nat)
    requires n > 0
    ensures FloorDiv(len, n) <= (x + len) / n - x / n <= CeilDiv(len, n)
  {
    var q, k := x / n, x % n;
    var a, b := len / n, len % n;
    assert x == q * n + k && len == a * n + b;
    assert (q + a) * n == q * n + a * n;
    CeilIsFloorOrNext(len, n);
    if k + b < n {
      DivModUnique(x + len, n, q + a, k + b);
    } else {
      assert (q + a + 1) * n == (q + a) * n + n;
      DivModUnique(x + len, n, q + a + 1, k + b - n);
    }
  }

  /** Round-robin is fair: every place gets the floor or the ceiling of its share. */
  lemma Fair(start: nat, len: nat, n: nat, r: nat)
    requires r < n
    ensures FloorDiv(len, n) <= Visits(start, len, n, r) <= CeilDiv(len, n)
  {
    VisitsBetween(start, len, n, r);
    DivAdd(start + n - 1 - r, len, n);
  }

  /** Going once round visits every place. */
  lemma FullRoundCovers(start: nat, len: nat, n: nat, r: nat)
    requires r < n <= len
    ensures Visits(start, len, n, r) >= 1
  {
    Fair(start, len, n, r);
    MultipleBound(len / n, n);
    assert len == (len / n) * n + len % n;
  }

  // ---- names met on the way round

  /** The place a position falls on in a ring of n. */
  function Spot(x: nat, n: nat): (r: nat)
    requires n > 0
    ensures r < n
  {
    x % n
  }

  lemma SpotAdd(x: nat, i: nat, n: nat)
    requires n > 0
    ensures Spot(Spot(x, n) + i, n) == Spot(x + i, n)
  {
    var q, k := x / n, x % n;
    var q2, k2 := (k + i) / n, (k + i) % n;
    assert x == q * n + k && k + i == q2 * n + k2;
    assert (q + q2) * n == q * n + q2 * n;
    DivModUnique(x + i, n, q + q2, k2);
  }

  /** The name at a position of the ring. */
  function Met(ids: seq<string>, x: nat): string
    requires ids != []
  {
    ids[Spot(x, |ids|)]
  }

  /** The names at consecutive places of the ring, from `start` on. */
  ghost predicate Walks(p: seq<string>, ids: seq<string>, start: nat)
    requires ids != []
  {
    forall i :: 0 <= i < |p| ==> p[i] == Met(ids, start + i)
  }

  /** Only where on the ring a walk starts matters. */
  lemma WalkFromSpot(p: seq<string>, ids: seq<string>, x: nat)
    requires ids != []
    ensures Walks(p, ids, Spot(x, |ids|)) <==> Walks(p, ids, x)
  {
    hide Spot;
    forall i | 0 <= i < |p|
      ensures p[i] == Met(ids, Spot(x, |ids|) + i) <==> p[i] == Met(ids, x + i)
    {
      SpotAdd(x, i, |ids|);
    }
    hide Met;
  }

  /** A walk continued where it stopped is one walk. */
  lemma WalkOn(p: seq<string>, q: seq<string>, ids: seq<string>, start: nat)
    requires ids != [] && Walks(p, ids, start) && Walks(q, ids, start + |p|)
    ensures Walks(p + q, ids, start)
  {
    hide Met;
    forall i | 0 <= i < |p + q|
      ensures (p + q)[i] == Met(ids, start + i)
    {
      if i >= |p| {
        assert (p + q)[i] == q[i - |p|];
        assert start + |p| + (i - |p|) == start + i;
      }
    }
  }

  function CountOf(s: seq<string>, x: string): nat {
    if s == [] then 0 else CountOf(s[..|s| - 1], x) + (if s[|s| - 1] == x then 1 else 0)
  }

  /** Walking round a list of distinct names: how often a name comes up is how often its place is visited. */
  lemma {:induction false} CountIsVisits(p: seq<string>, list: seq<string>, start: nat, r: nat)
    requires r < |list| && Distinct(list)
    requires Walks(p, list, start)
    ensures CountOf(p, list[r]) == Visits(start, |p|, |list|, r)
    decreases |p|
  {
    if p != [] {
      CountIsVisits(p[..|p| - 1], list, start, r);
      var last := (start + |p| - 1) % |list|;
      assert p[|p| - 1] == list[last];
    }
  }

  lemma {:induction false} CountedIsIn(s: seq<string>, x: string)
    requires CountOf(s, x) > 0
    ensures x in s
  {
    if s[|s| - 1] != x {
      CountedIsIn(s[..|s| - 1], x);
    }
  }
}
