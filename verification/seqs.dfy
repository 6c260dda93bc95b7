/** Generic facts about sequences used by several modules. */
module Seqs {

  /** The elements of `xs` that satisfy `keep`, in their original order. */
  function Filter<T(==)>(xs: seq<T>, keep: T -> bool): (r: seq<T>)
    ensures |r| <= |xs|
    ensures forall i :: 0 <= i < |r| ==> r[i] in xs && keep(r[i])
    ensures forall i :: 0 <= i < |xs| && keep(xs[i]) ==> xs[i] in r
    ensures multiset(r) <= multiset(xs)
  {
    if xs == [] then []
    else
      var rest := Filter(xs[1..], keep);
      assert xs == [xs[0]] + xs[1..];
      if keep(xs[0]) then
        FilterKeepsHead(xs[0], xs[1..], rest, keep);
        [xs[0]] + rest
      else
        FilterDropsHead(xs[0], xs[1..], rest, keep);
        rest
  }

  /** The step of `Filter` that keeps the head. */
  lemma FilterKeepsHead<T>(x: T, tail: seq<T>, rest: seq<T>, keep: T -> bool)
    requires keep(x)
    requires |rest| <= |tail|
    requires forall i :: 0 <= i < |rest| ==> rest[i] in tail && keep(rest[i])
    requires forall i :: 0 <= i < |tail| && keep(tail[i]) ==> tail[i] in rest
    requires multiset(rest) <= multiset(tail)
    ensures var xs, r := [x] + tail, [x] + rest;
      && |r| <= |xs|
      && (forall i :: 0 <= i < |r| ==> r[i] in xs && keep(r[i]))
      && (forall i :: 0 <= i < |xs| && keep(xs[i]) ==> xs[i] in r)
      && multiset(r) <= multiset(xs)
  {
    var xs, r := [x] + tail, [x] + rest;
    assert forall i :: 1 <= i < |xs| ==> xs[i] == tail[i - 1];
    assert forall i :: 1 <= i < |r| ==> r[i] == rest[i - 1];
  }

  /** The step of `Filter` that drops the head. */
  lemma FilterDropsHead<T>(x: T, tail: seq<T>, rest: seq<T>, keep: T -> bool)
    requires !keep(x)
    requires |rest| <= |tail|
    requires forall i :: 0 <= i < |rest| ==> rest[i] in tail && keep(rest[i])
    requires forall i :: 0 <= i < |tail| && keep(tail[i]) ==> tail[i] in rest
    requires multiset(rest) <= multiset(tail)
    ensures var xs := [x] + tail;
      && |rest| <= |xs|
      && (forall i :: 0 <= i < |rest| ==> rest[i] in xs && keep(rest[i]))
      && (forall i :: 0 <= i < |xs| && keep(xs[i]) ==> xs[i] in rest)
      && multiset(rest) <= multiset(xs)
  {
    var xs := [x] + tail;
    assert forall i :: 1 <= i < |xs| ==> xs[i] == tail[i - 1];
  }

  /** An element survives the filter exactly when it is in `xs` and kept. */
  lemma FilterMembers<T>(xs: seq<T>, keep: T -> bool)
    ensures forall x :: x in Filter(xs, keep) <==> x in xs && keep(x)
  {
  }

  /** Filtering by `p` and then by `q` keeps exactly what one filter by
      their conjunction `pq` keeps. */
  lemma {:induction false} FilterFilter<T>(xs: seq<T>, p: T -> bool, q: T -> bool, pq: T -> bool)
    requires forall x :: pq(x) == (p(x) && q(x))
    ensures Filter(Filter(xs, p), q) == Filter(xs, pq)
  {
    if xs != [] {
      FilterFilter(xs[1..], p, q, pq);
      var rest := Filter(xs[1..], p);
      if p(xs[0]) {
        assert Filter(xs, p) == [xs[0]] + rest;
        assert ([xs[0]] + rest)[1..] == rest;
      }
    }
  }

  /** Filtering with a predicate that holds of every element changes nothing. */
  lemma {:induction false} FilterAll<T>(xs: seq<T>, keep: T -> bool)
    requires forall x :: x in xs ==> keep(x)
    ensures Filter(xs, keep) == xs
  {
    if xs != [] {
      assert forall x :: x in xs[1..] ==> x in xs;
      FilterAll(xs[1..], keep);
    }
  }

  /** Two filters that agree on every element of `xs` give the same result. */
  lemma {:induction false} FilterCongruent<T>(xs: seq<T>, p: T -> bool, q: T -> bool)
    requires forall x :: x in xs ==> p(x) == q(x)
    ensures Filter(xs, p) == Filter(xs, q)
  {
    if xs != [] {
      assert forall x :: x in xs[1..] ==> x in xs;
      FilterCongruent(xs[1..], p, q);
    }
  }

  /** Sequences with the same elements counted with multiplicity have the
      same members. */
  lemma SameMembers<T>(a: seq<T>, b: seq<T>)
    requires multiset(a) == multiset(b)
    ensures forall x :: x in a <==> x in b
  {
    forall x
      ensures x in a <==> x in b
    {
      assert x in a <==> x in multiset(a);
      assert x in b <==> x in multiset(b);
    }
  }

  /** No element occurs twice in `xs`. */
  predicate Distinct<T(==)>(xs: seq<T>) {
    forall i, j :: 0 <= i < j < |xs| ==> xs[i] != xs[j]
  }

  /** A duplicate-free sequence drawn from `s` is no longer than `s` is large. */
  lemma {:induction false} DistinctWithin<T>(xs: seq<T>, s: set<T>)
    requires Distinct(xs)
    requires forall i :: 0 <= i < |xs| ==> xs[i] in s
    ensures |xs| <= |s|
  {
    if xs != [] {
      var rest := xs[1..];
      assert forall i :: 0 <= i < |rest| ==> rest[i] == xs[i + 1];
      DistinctWithin(rest, s - {xs[0]});
    }
  }

  /** A duplicate-free sequence has as many elements as the set of its elements. */
  lemma {:induction false} DistinctCard<T>(xs: seq<T>)
    requires Distinct(xs)
    ensures |set x | x in xs| == |xs|
  {
    if xs != [] {
      var rest := xs[1..];
      assert forall i :: 0 <= i < |rest| ==> rest[i] == xs[i + 1];
      DistinctCard(rest);
      assert (set x | x in xs) == {xs[0]} + (set x | x in rest);
      assert xs[0] !in rest;
    }
  }

  /** Filtering a duplicate-free sequence leaves it duplicate-free. */
  lemma {:induction false} FilterDistinct<T>(xs: seq<T>, keep: T -> bool)
    requires Distinct(xs)
    ensures Distinct(Filter(xs, keep))
  {
    if xs != [] {
      var rest := xs[1..];
      assert forall i :: 0 <= i < |rest| ==> rest[i] == xs[i + 1];
      FilterDistinct(rest, keep);
      var f := Filter(rest, keep);
      if keep(xs[0]) {
        assert xs[0] !in f by {
          assert xs[0] !in rest;
        }
        ConsDistinct(xs[0], f);
      }
    }
  }

  lemma ConsDistinct<T>(x: T, xs: seq<T>)
    requires Distinct(xs) && x !in xs
    ensures Distinct([x] + xs)
  {
    var r := [x] + xs;
    forall i, j | 0 <= i < j < |r|
      ensures r[i] != r[j]
    {
      assert r[j] == xs[j - 1];
      if i > 0 {
        assert r[i] == xs[i - 1];
      }
    }
  }
}
