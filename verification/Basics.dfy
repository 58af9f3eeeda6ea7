/** Small datatypes and sequence facts shared by the other modules. */
module Basics {

  datatype Option<+T> = None | Some(value: T) {
    function UnwrapOr(fallback: T): T {
      if Some? then value else fallback
    }
  }

  /** s names every element of ids exactly once, in some order: what an SQL
      SELECT over a primary key returns when it has no ORDER BY. */
  predicate Lists<T(==, !new)>(s: seq<T>, ids: set<T>) {
    NoDuplicates(s) && Elems(s) == ids
  }

  function Elems<T(==, !new)>(s: seq<T>): (r: set<T>)
    ensures forall x :: x in r <==> x in s
  {
    set x | x in s
  }

  predicate NoDuplicates<T(==, !new)>(s: seq<T>) {
    forall i, j :: 0 <= i < j < |s| ==> s[i] != s[j]
  }

  lemma ListsInsert<T(!new)>(s: seq<T>, ids: set<T>, k: nat, x: T)
    requires Lists(s, ids) && x !in ids && k <= |s|
    ensures Lists(s[..k] + [x] + s[k..], ids + {x})
  {
  }

  /** Reads a set out in an arbitrary order. */
  method Enumerate<T(==, !new)>(ids: set<T>) returns (s: seq<T>)
    ensures Lists(s, ids)
  {
    s := [];
    var rest := ids;
    while rest != {}
      invariant rest <= ids
      invariant Lists(s, ids - rest)
      decreases rest
    {
      var x :| x in rest;
      ListsInsert(s, ids - rest, |s|, x);
      assert s[..|s|] + [x] + s[|s|..] == s + [x];
      assert ids - (rest - {x}) == ids - rest + {x};
      s := s + [x];
      rest := rest - {x};
    }
    assert ids - {} == ids;
  }

  /** The last n elements, or everything when there are fewer. */
  function LastOf<T>(s: seq<T>, n: nat): seq<T> {
    if |s| <= n then s else s[|s| - n..]
  }

  /** Concatenates what f yields for each element. */
  function FlatMap<A, B>(s: seq<A>, f: A -> seq<B>): seq<B> {
    if |s| == 0 then [] else FlatMap(s[..|s| - 1], f) + f(s[|s| - 1])
  }

  lemma FlatMapAppend<A, B>(s: seq<A>, x: A, f: A -> seq<B>)
    ensures FlatMap(s + [x], f) == FlatMap(s, f) + f(x)
  {
  }

  lemma FlatMapOne<A, B>(x: A, f: A -> seq<B>)
    ensures FlatMap([x], f) == f(x)
  {
  }

  lemma {:induction false} FlatMapConcat<A, B>(a: seq<A>, b: seq<A>, f: A -> seq<B>)
    ensures FlatMap(a + b, f) == FlatMap(a, f) + FlatMap(b, f)
  {
    if |b| == 0 {
      assert a + b == a;
    } else {
      var front, last := b[..|b| - 1], b[|b| - 1];
      FlatMapConcat(a, front, f);
      assert (a + b)[..|a + b| - 1] == a + front;
    }
  }

  lemma FlatMapCons<A, B>(x: A, s: seq<A>, f: A -> seq<B>)
    ensures FlatMap([x] + s, f) == f(x) + FlatMap(s, f)
  {
    FlatMapConcat([x], s, f);
    FlatMapOne(x, f);
  }

  lemma TakeOneMore<T>(before: seq<T>, s: seq<T>, k: nat)
    requires k < |s|
    ensures before + s[..k + 1] == (before + s[..k]) + [s[k]]
  {
  }

  function Sum<T>(s: seq<T>, f: T -> nat): nat {
    if |s| == 0 then 0 else f(s[0]) + Sum(s[1..], f)
  }

  lemma SumCons<T>(x: T, s: seq<T>, f: T -> nat)
    ensures Sum([x] + s, f) == f(x) + Sum(s, f)
  {
  }

  lemma {:induction false} SumConcat<T>(a: seq<T>, b: seq<T>, f: T -> nat)
    ensures Sum(a + b, f) == Sum(a, f) + Sum(b, f)
  {
    if |a| == 0 {
      assert a + b == b;
    } else {
      SumConcat(a[1..], b, f);
      assert (a + b)[1..] == a[1..] + b;
    }
  }

  lemma SumOfFour<T>(a: T, b: T, c: T, d: T, f: T -> nat)
    ensures Sum([a, b, c, d], f) == f(a) + f(b) + f(c) + f(d)
  {
    SumCons(c, [d], f);
    SumCons(b, [c, d], f);
    SumCons(a, [b, c, d], f);
    assert [a] + [b, c, d] == [a, b, c, d] && [b] + [c, d] == [b, c, d] && [c] + [d] == [c, d];
  }

  lemma SumOfFive<T>(a: T, b: T, c: T, d: T, e: T, f: T -> nat)
    ensures Sum([a, b, c, d, e], f) == f(a) + f(b) + f(c) + f(d) + f(e)
  {
    SumOfFour(b, c, d, e, f);
    SumCons(a, [b, c, d, e], f);
    assert [a] + [b, c, d, e] == [a, b, c, d, e];
  }

  lemma ConsCount<T>(x: T, s: seq<T>, y: T)
    ensures multiset([x] + s)[y] == multiset(s)[y] + if x == y then 1 else 0
  {
  }
}
