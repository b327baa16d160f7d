/** Python's ordering of strings, with `sorted(set)` and `max(set)` over it. */
module StringOrder {

  predicate Leq(a: string, b: string) {
    a == [] || (b != [] && (a[0] < b[0] || (a[0] == b[0] && Leq(a[1..], b[1..]))))
  }

  lemma {:induction false} LeqReflexive(a: string)
    ensures Leq(a, a)
  {
    if a != [] {
      LeqReflexive(a[1..]);
    }
  }

  lemma {:induction false} LeqTotal(a: string, b: string)
    ensures Leq(a, b) || Leq(b, a)
  {
    if a != [] && b != [] && a[0] == b[0] {
      LeqTotal(a[1..], b[1..]);
    }
  }

  lemma {:induction false} LeqAntisymmetric(a: string, b: string)
    requires Leq(a, b) && Leq(b, a)
    ensures a == b
  {
    if a != [] {
      LeqAntisymmetric(a[1..], b[1..]);
      assert a == [a[0]] + a[1..] && b == [b[0]] + b[1..];
    }
  }

  lemma {:induction false} LeqTransitive(a: string, b: string, c: string)
    requires Leq(a, b) && Leq(b, c)
    ensures Leq(a, c)
  {
    if a != [] && a[0] == b[0] && b[0] == c[0] {
      LeqTransitive(a[1..], b[1..], c[1..]);
    }
  }

  ghost predicate IsLeast(m: string, s: set<string>) {
    m in s && forall x :: x in s ==> Leq(m, x)
  }

  ghost predicate IsGreatest(m: string, s: set<string>) {
    m in s && forall x :: x in s ==> Leq(x, m)
  }

  lemma {:induction false} LeastExists(s: set<string>)
    requires s != {}
    ensures exists m :: IsLeast(m, s)
    decreases s
  {
    var y :| y in s;
    if s == {y} {
      LeqReflexive(y);
      assert IsLeast(y, s);
      return;
    }
    LeastExists(s - {y});
    var n :| IsLeast(n, s - {y});
    LeqTotal(y, n);
    LeqReflexive(y);
    var m := if Leq(y, n) then y else n;
    forall x | x in s
      ensures Leq(m, x)
    {
      if x != y && m == y {
        LeqTransitive(y, n, x);
      }
    }
    assert IsLeast(m, s);
  }

  lemma {:induction false} GreatestExists(s: set<string>)
    requires s != {}
    ensures exists m :: IsGreatest(m, s)
    decreases s
  {
    var y :| y in s;
    if s == {y} {
      LeqReflexive(y);
      assert IsGreatest(y, s);
      return;
    }
    GreatestExists(s - {y});
    var n :| IsGreatest(n, s - {y});
    LeqTotal(y, n);
    LeqReflexive(y);
    var m := if Leq(n, y) then y else n;
    forall x | x in s
      ensures Leq(x, m)
    {
      if x != y && m == y {
        LeqTransitive(x, n, y);
      }
    }
    assert IsGreatest(m, s);
  }

  lemma LeastUnique(s: set<string>)
    ensures forall a, b :: IsLeast(a, s) && IsLeast(b, s) ==> a == b
  {
    forall a, b | IsLeast(a, s) && IsLeast(b, s)
      ensures a == b
    {
      LeqAntisymmetric(a, b);
    }
  }

  lemma GreatestUnique(s: set<string>)
    ensures forall a, b :: IsGreatest(a, s) && IsGreatest(b, s) ==> a == b
  {
    forall a, b | IsGreatest(a, s) && IsGreatest(b, s)
      ensures a == b
    {
      LeqAntisymmetric(a, b);
    }
  }

  function Least(s: set<string>): (m: string)
    requires s != {}
    ensures IsLeast(m, s)
  {
    LeastExists(s);
    LeastUnique(s);
    assert forall a :: IsLeast(a, s) <==> a in s && forall x :: x in s ==> Leq(a, x);
    var m :| m in s && forall x :: x in s ==> Leq(m, x);
    m
  }

  function Greatest(s: set<string>): (m: string)
    requires s != {}
    ensures IsGreatest(m, s)
  {
    GreatestExists(s);
    GreatestUnique(s);
    assert forall a :: IsGreatest(a, s) <==> a in s && forall x :: x in s ==> Leq(x, a);
    var m :| m in s && forall x :: x in s ==> Leq(x, m);
    m
  }

  predicate Distinct<T(==)>(s: seq<T>) {
    forall i, j :: 0 <= i < j < |s| ==> s[i] != s[j]
  }

  /** `sorted(s)`. */
  function Sorted(s: set<string>): (r: seq<string>)
    ensures forall x :: x in r <==> x in s
  {
    if s == {} then []
    else
      var m := Least(s);
      [m] + Sorted(s - {m})
  }

  /** Every element once, in increasing order. */
  lemma {:induction false} SortedOrder(s: set<string>)
    ensures Distinct(Sorted(s))
    ensures forall i, j :: 0 <= i < j < |Sorted(s)| ==> Leq(Sorted(s)[i], Sorted(s)[j])
  {
    if s != {} {
      SortedOrder(s - {Least(s)});
    }
  }

  lemma SortedSingle(x: string)
    ensures Sorted({x}) == [x]
  {
    var m := Least({x});
    assert m == x;
    assert {x} - {m} == {};
    assert Sorted({}) == [];
  }
}
