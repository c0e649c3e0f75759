/** Shared vocabulary: optional values, results, and the two list operators
    (flat-map and filter) in which the collection pipeline is specified. */
module Prelude {

  datatype Option<+T> = None | Some(value: T)

  datatype Result<+T, +E> = Ok(value: T) | Err(error: E)

  /** An error as the collectors report it: its text, and whether it is the
      profiling rate-cap sentinel. */
  datatype Error = Error(msg: string, capped: bool)

  // ---- flat-map, recursing on the last element so that it follows an append loop

  function FlatMap<T, U>(s: seq<T>, f: T -> seq<U>): seq<U> {
    if s == [] then [] else FlatMap(s[..|s| - 1], f) + f(s[|s| - 1])
  }

  lemma FlatMapStep<T, U>(s: seq<T>, f: T -> seq<U>, i: nat)
    requires i < |s|
    ensures FlatMap(s[..i + 1], f) == FlatMap(s[..i], f) + f(s[i])
  {
    assert s[..i + 1][..i] == s[..i];
  }

  lemma FlatMapWhole<T, U>(s: seq<T>, f: T -> seq<U>)
    ensures FlatMap(s[..|s|], f) == FlatMap(s, f)
  {
    assert s[..|s|] == s;
  }

  lemma FlatMapOne<T, U>(x: T, f: T -> seq<U>)
    ensures FlatMap([x], f) == f(x)
  {
    assert [x][..0] == [];
  }

  lemma {:induction false} FlatMapConcat<T, U>(a: seq<T>, b: seq<T>, f: T -> seq<U>)
    ensures FlatMap(a + b, f) == FlatMap(a, f) + FlatMap(b, f)
  {
    if b == [] {
      assert a + b == a;
    } else {
      var n := |b| - 1;
      assert (a + b)[..|a + b| - 1] == a + b[..n];
      FlatMapConcat(a, b[..n], f);
    }
  }

  lemma {:induction false} FlatMapMember<T, U>(s: seq<T>, f: T -> seq<U>, y: U)
    ensures y in FlatMap(s, f) <==> exists i :: 0 <= i < |s| && y in f(s[i])
  {
    if s != [] {
      var n := |s| - 1;
      FlatMapMember(s[..n], f, y);
      if y in FlatMap(s[..n], f) {
        var i :| 0 <= i < n && y in f(s[..n][i]);
        assert y in f(s[i]);
      } else if i :| 0 <= i < |s| && y in f(s[i]) {
        assert i < n ==> y in f(s[..n][i]);
      }
    }
  }

  /** Two functions that agree on the elements of s give the same flat-map. */
  lemma {:induction false} FlatMapCongruence<T, U>(s: seq<T>, f: T -> seq<U>, g: T -> seq<U>)
    requires forall i :: 0 <= i < |s| ==> f(s[i]) == g(s[i])
    ensures FlatMap(s, f) == FlatMap(s, g)
  {
    if s != [] {
      FlatMapCongruence(s[..|s| - 1], f, g);
    }
  }

  // ---- left fold, likewise recursing on the last element

  function FoldLeft<A, T>(f: (A, T) -> A, a: A, s: seq<T>): A {
    if s == [] then a else f(FoldLeft(f, a, s[..|s| - 1]), s[|s| - 1])
  }

  lemma FoldLeftStep<A, T>(f: (A, T) -> A, a: A, s: seq<T>, i: nat)
    requires i < |s|
    ensures FoldLeft(f, a, s[..i + 1]) == f(FoldLeft(f, a, s[..i]), s[i])
  {
    assert s[..i + 1][..i] == s[..i];
  }

  lemma {:induction false} FoldLeftConcat<A, T>(f: (A, T) -> A, a: A, s: seq<T>, t: seq<T>)
    ensures FoldLeft(f, a, s + t) == FoldLeft(f, FoldLeft(f, a, s), t)
  {
    if t == [] {
      assert s + t == s;
    } else {
      assert (s + t)[..|s + t| - 1] == s + t[..|t| - 1];
      FoldLeftConcat(f, a, s, t[..|t| - 1]);
    }
  }

  /** Folding over a flat-map is folding each piece in turn. */
  lemma {:induction false} FoldLeftOfFlatMap<A, T, U>(f: (A, U) -> A, a: A, s: seq<T>, g: T -> seq<U>,
      step: (A, T) -> A)
    requires forall b, x :: step(b, x) == FoldLeft(f, b, g(x))
    ensures FoldLeft(f, a, FlatMap(s, g)) == FoldLeft(step, a, s)
  {
    if s != [] {
      var n := |s| - 1;
      FoldLeftOfFlatMap(f, a, s[..n], g, step);
      FoldLeftConcat(f, a, FlatMap(s[..n], g), g(s[n]));
    }
  }

  // ---- filter

  function Select<T>(s: seq<T>, p: T -> bool): seq<T> {
    if s == [] then []
    else Select(s[..|s| - 1], p) + if p(s[|s| - 1]) then [s[|s| - 1]] else []
  }

  lemma SelectStep<T>(s: seq<T>, p: T -> bool, i: nat)
    requires i < |s|
    ensures Select(s[..i + 1], p) == Select(s[..i], p) + if p(s[i]) then [s[i]] else []
  {
    assert s[..i + 1][..i] == s[..i];
  }

  lemma {:induction false} SelectConcat<T>(a: seq<T>, b: seq<T>, p: T -> bool)
    ensures Select(a + b, p) == Select(a, p) + Select(b, p)
  {
    if b == [] {
      assert a + b == a;
    } else {
      var n := |b| - 1;
      assert (a + b)[..|a + b| - 1] == a + b[..n];
      SelectConcat(a, b[..n], p);
    }
  }

  lemma {:induction false} SelectMember<T>(s: seq<T>, p: T -> bool, x: T)
    ensures x in Select(s, p) <==> x in s && p(x)
  {
    if s != [] {
      var n := |s| - 1;
      SelectMember(s[..n], p, x);
      assert s == s[..n] + [s[n]];
    }
  }

  lemma {:induction false} SelectNone<T>(s: seq<T>, p: T -> bool)
    requires forall x :: x in s ==> !p(x)
    ensures Select(s, p) == []
  {
    if s != [] {
      SelectNone(s[..|s| - 1], p);
    }
  }

  lemma {:induction false} SelectAll<T>(s: seq<T>, p: T -> bool)
    requires forall x :: x in s ==> p(x)
    ensures Select(s, p) == s
  {
    if s != [] {
      SelectAll(s[..|s| - 1], p);
      assert s == s[..|s| - 1] + [s[|s| - 1]];
    }
  }

  /** Dropping elements that contribute nothing does not change a flat-map. */
  lemma {:induction false} FlatMapOfSelect<T, U>(s: seq<T>, p: T -> bool, f: T -> seq<U>)
    requires forall i :: 0 <= i < |s| && !p(s[i]) ==> f(s[i]) == []
    ensures FlatMap(Select(s, p), f) == FlatMap(s, f)
  {
    if s != [] {
      var n := |s| - 1;
      var rest := if p(s[n]) then [s[n]] else [];
      FlatMapOfSelect(s[..n], p, f);
      FlatMapConcat(Select(s[..n], p), rest, f);
      assert rest != [] ==> rest[..0] == [];
      assert FlatMap(rest, f) == f(s[n]);
    }
  }

  /** Filtering the output equals flat-mapping the kept inputs, when an input
      contributes only wanted outputs if kept and only unwanted ones if not. */
  lemma {:induction false} SelectOfFlatMap<T, U>(s: seq<T>, p: T -> bool, f: T -> seq<U>, q: U -> bool)
    requires forall i, y :: 0 <= i < |s| && y in f(s[i]) ==> (q(y) <==> p(s[i]))
    ensures Select(FlatMap(s, f), q) == FlatMap(Select(s, p), f)
  {
    if s != [] {
      var n := |s| - 1;
      var rest := if p(s[n]) then [s[n]] else [];
      SelectOfFlatMap(s[..n], p, f, q);
      SelectConcat(FlatMap(s[..n], f), f(s[n]), q);
      FlatMapConcat(Select(s[..n], p), rest, f);
      if p(s[n]) {
        SelectAll(f(s[n]), q);
        assert rest[..0] == [];
      } else {
        SelectNone(f(s[n]), q);
      }
    }
  }
}
