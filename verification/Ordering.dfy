/** Sorting the keys of a Go map. Map iteration order is arbitrary; the collected
    keys are sorted before use, and the sorted list does not depend on it. */
module Ordering {

  ghost predicate TotalOrder<T(!new)>(leq: (T, T) -> bool) {
    && (forall x, y :: leq(x, y) || leq(y, x))
    && (forall x, y :: leq(x, y) && leq(y, x) ==> x == y)
    && (forall x, y, z :: leq(x, y) && leq(y, z) ==> leq(x, z))
  }

  ghost predicate StrictlySorted<T>(q: seq<T>, leq: (T, T) -> bool) {
    forall i, j :: 0 <= i < j < |q| ==> leq(q[i], q[j]) && q[i] != q[j]
  }

  ghost function Elements<T>(q: seq<T>): set<T> {
    set x | x in q
  }

  lemma NoElements<T>(q: seq<T>)
    ensures Elements(q) == {} <==> q == []
  {
    if q != [] {
      assert q[0] in Elements(q);
    }
  }

  /** q lists exactly the elements of s, each once, in ascending order. */
  ghost predicate Sorts<T>(q: seq<T>, s: set<T>, leq: (T, T) -> bool) {
    StrictlySorted(q, leq) && Elements(q) == s
  }

  /** There is at most one ascending listing of a set. */
  lemma {:induction false} SortedListingIsUnique<T(!new)>(p: seq<T>, q: seq<T>, s: set<T>, leq: (T, T) -> bool)
    requires TotalOrder(leq) && Sorts(p, s, leq) && Sorts(q, s, leq)
    ensures p == q
    decreases |p|
  {
    assert p != [] ==> p[0] in Elements(p);
    assert q != [] ==> q[0] in Elements(q);
    if p == [] || q == [] {
    } else {
      assert p[0] in q && q[0] in p;
      var rest := s - {p[0]};
      TailSorts(p, s, leq);
      TailSorts(q, s, leq);
      SortedListingIsUnique(p[1..], q[1..], rest, leq);
      assert p == [p[0]] + p[1..] && q == [q[0]] + q[1..];
    }
  }

  lemma TailSorts<T(!new)>(q: seq<T>, s: set<T>, leq: (T, T) -> bool)
    requires Sorts(q, s, leq) && q != []
    ensures Sorts(q[1..], s - {q[0]}, leq)
  {
    assert q == [q[0]] + q[1..];
    assert forall x :: x in q[1..] ==> x in q && x != q[0];
    assert forall x :: x in s && x != q[0] ==> x in q[1..];
  }

  /** Puts x at its place in an ascending list. */
  function Insert<T(!new)>(q: seq<T>, x: T, leq: (T, T) -> bool): seq<T> {
    if q == [] || leq(x, q[0]) then [x] + q else [q[0]] + Insert(q[1..], x, leq)
  }

  lemma {:induction false} InsertElements<T(!new)>(q: seq<T>, x: T, leq: (T, T) -> bool)
    ensures forall y :: y in Insert(q, x, leq) <==> y == x || y in q
  {
    if q != [] && !leq(x, q[0]) {
      InsertElements(q[1..], x, leq);
      assert q == [q[0]] + q[1..];
    }
  }

  lemma ConsIsSorted<T>(x: T, q: seq<T>, leq: (T, T) -> bool)
    requires StrictlySorted(q, leq)
    requires forall y :: y in q ==> leq(x, y) && x != y
    ensures StrictlySorted([x] + q, leq)
  {
  }

  lemma {:induction false} InsertSorts<T(!new)>(q: seq<T>, x: T, leq: (T, T) -> bool)
    requires TotalOrder(leq) && StrictlySorted(q, leq) && x !in q
    ensures Sorts(Insert(q, x, leq), Elements(q) + {x}, leq)
  {
    InsertElements(q, x, leq);
    if q == [] || leq(x, q[0]) {
      assert forall j :: 0 < j < |q| ==> leq(q[0], q[j]);
      ConsIsSorted(x, q, leq);
    } else {
      InsertSorts(q[1..], x, leq);
      InsertElements(q[1..], x, leq);
      ConsIsSorted(q[0], Insert(q[1..], x, leq), leq);
    }
  }

  method Sort<T(!new, ==)>(xs: seq<T>, leq: (T, T) -> bool) returns (q: seq<T>)
    requires TotalOrder(leq)
    requires forall i, j :: 0 <= i < j < |xs| ==> xs[i] != xs[j]
    ensures Sorts(q, Elements(xs), leq)
  {
    q := [];
    for i := 0 to |xs|
      invariant Sorts(q, Elements(xs[..i]), leq)
    {
      assert xs[i] !in xs[..i];
      assert forall x :: x in q ==> x in Elements(q);
      InsertSorts(q, xs[i], leq);
      q := Insert(q, xs[i], leq);
      assert xs[..i + 1] == xs[..i] + [xs[i]];
    }
    assert xs[..|xs|] == xs;
  }

  /** Ranges over a set in an arbitrary order, then sorts what it collected. */
  method SortedKeys<T(!new, ==)>(s: set<T>, leq: (T, T) -> bool) returns (q: seq<T>)
    requires TotalOrder(leq)
    ensures Sorts(q, s, leq) && q == Ascending(s, leq)
  {
    var left, keys := s, [];
    while left != {}
      invariant left <= s && Elements(keys) == s - left
      invariant forall i, j :: 0 <= i < j < |keys| ==> keys[i] != keys[j]
    {
      var k :| k in left;
      assert forall i :: 0 <= i < |keys| ==> keys[i] in Elements(keys);
      assert Elements(keys + [k]) == Elements(keys) + {k};
      left, keys := left - {k}, keys + [k];
    }
    q := Sort(keys, leq);
    SortedListingIsUnique(q, Ascending(s, leq), s, leq);
  }

  lemma {:induction false} ListingExists<T(!new)>(s: set<T>, leq: (T, T) -> bool)
    requires TotalOrder(leq)
    ensures exists q :: Sorts(q, s, leq)
  {
    if s == {} {
      assert Sorts([], s, leq);
    } else {
      var x :| x in s;
      ListingExists(s - {x}, leq);
      var q :| Sorts(q, s - {x}, leq);
      assert x in q ==> x in Elements(q);
      InsertSorts(q, x, leq);
      assert Sorts(Insert(q, x, leq), s, leq);
    }
  }

  /** The ascending listing of a set. */
  ghost function Ascending<T(!new)>(s: set<T>, leq: (T, T) -> bool): (q: seq<T>)
    requires TotalOrder(leq)
    ensures Sorts(q, s, leq)
  {
    ListingExists(s, leq);
    var q :| Sorts(q, s, leq);
    q
  }

  // ---- the two orders in use

  predicate IntLeq(a: int, b: int) { a <= b }

  lemma IntLeqIsTotal()
    ensures TotalOrder(IntLeq)
  {
  }

  predicate StrLeq(a: string, b: string) {
    a == [] || (b != [] && (a[0] < b[0] || (a[0] == b[0] && StrLeq(a[1..], b[1..]))))
  }

  lemma StrLeqIsTotal()
    ensures TotalOrder(StrLeq)
  {
    forall x, y ensures StrLeq(x, y) || StrLeq(y, x) { StrLeqTotal(x, y); }
    forall x, y | StrLeq(x, y) && StrLeq(y, x) ensures x == y { StrLeqAntisymmetric(x, y); }
    forall x, y, z | StrLeq(x, y) && StrLeq(y, z) ensures StrLeq(x, z) { StrLeqTransitive(x, y, z); }
  }

  lemma {:induction false} StrLeqTotal(a: string, b: string)
    ensures StrLeq(a, b) || StrLeq(b, a)
  {
    if a != [] && b != [] && a[0] == b[0] {
      StrLeqTotal(a[1..], b[1..]);
    }
  }

  lemma {:induction false} StrLeqAntisymmetric(a: string, b: string)
    requires StrLeq(a, b) && StrLeq(b, a)
    ensures a == b
  {
    if a != [] && b != [] {
      StrLeqAntisymmetric(a[1..], b[1..]);
      assert a == [a[0]] + a[1..] && b == [b[0]] + b[1..];
    }
  }

  lemma {:induction false} StrLeqTransitive(a: string, b: string, c: string)
    requires StrLeq(a, b) && StrLeq(b, c)
    ensures StrLeq(a, c)
  {
    if a != [] && b[0] == a[0] == c[0] {
      StrLeqTransitive(a[1..], b[1..], c[1..]);
    }
  }
}
