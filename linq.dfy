/**
 * The sequence operators of LINQ that the tags endpoint composes:
 * `Select`, `SelectMany` and `Union`. `Union` enumerates its first argument
 * and then its second, yielding each element the first time it is met.
 */
module Linq {

  predicate NoDuplicates<T(==)>(s: seq<T>) {
    forall i, j :: 0 <= i < j < |s| ==> s[i] != s[j]
  }

  function Select<T, U>(s: seq<T>, f: T -> U): seq<U> {
    seq(|s|, i requires 0 <= i < |s| => f(s[i]))
  }

  function SelectMany<T, U>(s: seq<T>, f: T -> seq<U>): seq<U> {
    if s == [] then [] else f(s[0]) + SelectMany(s[1..], f)
  }

  /** The elements of `s` met for the first time, given that those in `seen` were met before. */
  function DistinctFrom<T(==)>(s: seq<T>, seen: set<T>): seq<T> {
    if s == [] then []
    else if s[0] in seen then DistinctFrom(s[1..], seen)
    else [s[0]] + DistinctFrom(s[1..], seen + {s[0]})
  }

  /** `a.Union(b)`. */
  function Union<T(==)>(a: seq<T>, b: seq<T>): seq<T> {
    DistinctFrom(a + b, {})
  }

  /** What `DistinctFrom` yields: each element of `s` not already seen, exactly once. */
  lemma {:induction false} DistinctFromSpec<T>(s: seq<T>, seen: set<T>)
    ensures NoDuplicates(DistinctFrom(s, seen))
    ensures forall x :: x in DistinctFrom(s, seen) <==> x in s && x !in seen
  {
    if s != [] {
      if s[0] in seen {
        DistinctFromSpec(s[1..], seen);
        assert forall x :: x in s <==> x == s[0] || x in s[1..];
      } else {
        DistinctFromSpec(s[1..], seen + {s[0]});
        assert forall x :: x in s <==> x == s[0] || x in s[1..];
      }
    }
  }

  /** Enumeration order: everything `a` contributes comes before what `b` adds. */
  lemma {:induction false} DistinctFromAppend<T>(a: seq<T>, b: seq<T>, seen: set<T>)
    ensures DistinctFrom(a + b, seen) == DistinctFrom(a, seen) + DistinctFrom(b, seen + set x | x in a)
  {
    if a == [] {
      assert a + b == b;
      assert (set x | x in a) == {};
      assert seen + {} == seen;
    } else {
      assert (a + b)[0] == a[0];
      assert (a + b)[1..] == a[1..] + b;
      var rest := set x | x in a[1..];
      assert (set x | x in a) == {a[0]} + rest;
      if a[0] in seen {
        DistinctFromAppend(a[1..], b, seen);
        assert seen + rest == seen + set x | x in a;
      } else {
        DistinctFromAppend(a[1..], b, seen + {a[0]});
        assert seen + {a[0]} + rest == seen + set x | x in a;
      }
    }
  }

  /** `Union` is set union without repetition, and keeps the first argument's contribution first. */
  lemma UnionSpec<T>(a: seq<T>, b: seq<T>)
    ensures NoDuplicates(Union(a, b))
    ensures forall x :: x in Union(a, b) <==> x in a || x in b
    ensures Union(a, b) == DistinctFrom(a, {}) + DistinctFrom(b, set x | x in a)
  {
    DistinctFromSpec(a + b, {});
    DistinctFromAppend(a, b, {});
    assert {} + (set x | x in a) == set x | x in a;
  }

  /** Every element of `SelectMany(s, f)` comes from `f` of some element of `s`, and all of those are there. */
  lemma {:induction false} SelectManySpec<T, U>(s: seq<T>, f: T -> seq<U>)
    ensures forall y :: y in SelectMany(s, f) ==> exists x :: x in s && y in f(x)
    ensures forall x, y :: x in s && y in f(x) ==> y in SelectMany(s, f)
  {
    if s != [] {
      SelectManySpec(s[1..], f);
      forall y | y in SelectMany(s, f)
        ensures exists x :: x in s && y in f(x)
      {
        if y !in f(s[0]) {
          assert y in SelectMany(s[1..], f);
          var x :| x in s[1..] && y in f(x);
          assert x in s;
        }
      }
      forall x, y | x in s && y in f(x)
        ensures y in SelectMany(s, f)
      {
        if x != s[0] {
          assert x in s[1..];
        }
      }
    }
  }
}
