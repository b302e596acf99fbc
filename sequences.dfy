/**
 * Sequence helpers that stand for the Kotlin collection operations the library relies on:
 * `filter`, `distinct` and `MutableSet.addAll` on an insertion-ordered set.
 */
module Sequences {

  predicate NoDuplicates<T(==)>(s: seq<T>) {
    forall i, j :: 0 <= i < j < |s| ==> s[i] != s[j]
  }

  /** The elements of `s` that satisfy `keep`, in their original order (Kotlin `filter`). */
  function Filter<T>(s: seq<T>, keep: T -> bool): (r: seq<T>)
    ensures |r| <= |s|
  {
    if s == [] then []
    else Filter(s[..|s| - 1], keep) + (if keep(s[|s| - 1]) then [s[|s| - 1]] else [])
  }

  lemma {:induction false} FilterMembership<T>(s: seq<T>, keep: T -> bool, x: T)
    ensures x in Filter(s, keep) <==> x in s && keep(x)
  {
    if s != [] {
      FilterMembership(s[..|s| - 1], keep, x);
      assert s == s[..|s| - 1] + [s[|s| - 1]];
    }
  }

  lemma {:induction false} FilterAppend<T>(s: seq<T>, x: T, keep: T -> bool)
    ensures Filter(s + [x], keep) == Filter(s, keep) + (if keep(x) then [x] else [])
  {
    assert (s + [x])[..|s + [x]| - 1] == s;
  }

  /** Nothing is dropped when every element passes. */
  lemma {:induction false} FilterKeepsAll<T>(s: seq<T>, keep: T -> bool)
    requires forall x :: x in s ==> keep(x)
    ensures Filter(s, keep) == s
  {
    if s != [] {
      var init := s[..|s| - 1];
      FilterKeepsAll(init, keep);
      assert s == init + [s[|s| - 1]];
    }
  }

  /** Everything is dropped when no element passes. */
  lemma {:induction false} FilterKeepsNone<T>(s: seq<T>, keep: T -> bool)
    requires forall x :: x in s ==> !keep(x)
    ensures Filter(s, keep) == []
  {
    if s != [] {
      FilterKeepsNone(s[..|s| - 1], keep);
    }
  }

  /** The first occurrence of every element, in order (Kotlin `distinct`). */
  function Distinct<T(==)>(s: seq<T>): (r: seq<T>)
  {
    if s == [] then []
    else if s[|s| - 1] in s[..|s| - 1] then Distinct(s[..|s| - 1])
    else Distinct(s[..|s| - 1]) + [s[|s| - 1]]
  }

  lemma {:induction false} DistinctProperties<T>(s: seq<T>)
    ensures NoDuplicates(Distinct(s))
    ensures forall x :: x in Distinct(s) <==> x in s
  {
    if s != [] {
      var init := s[..|s| - 1];
      DistinctProperties(init);
      assert s == init + [s[|s| - 1]];
    }
  }

  /** The position of the first occurrence of `x` in `s`. */
  function FirstIndex<T(==)>(s: seq<T>, x: T): (i: nat)
    requires x in s
    ensures i < |s| && s[i] == x && x !in s[..i]
  {
    if s[0] == x then 0
    else
      var k := FirstIndex(s[1..], x);
      assert s[..k + 1] == [s[0]] + s[1..][..k];
      k + 1
  }

  /** Any occurrence with no earlier one is the first occurrence. */
  lemma FirstIndexUnique<T>(s: seq<T>, x: T, i: int)
    requires 0 <= i < |s| && s[i] == x && x !in s[..i]
    ensures FirstIndex(s, x) == i
  {
  }

  /** Appending an element does not move the first occurrence of one already present. */
  lemma FirstIndexExtend<T>(s: seq<T>, y: T, x: T)
    requires x in s
    ensures FirstIndex(s + [y], x) == FirstIndex(s, x)
  {
    var k := FirstIndex(s, x);
    assert (s + [y])[..k] == s[..k];
    FirstIndexUnique(s + [y], x, k);
  }

  /**
   * `r` lists the distinct elements of `s`, each once, in the order in which they first
   * occur in `s`.
   */
  predicate InFirstOccurrenceOrder<T(==)>(r: seq<T>, s: seq<T>) {
    && NoDuplicates(r)
    && (forall i :: 0 <= i < |r| ==> r[i] in s)
    && (forall i :: 0 <= i < |s| ==> s[i] in r)
    && (forall i, j :: 0 <= i < j < |r| ==> FirstIndex(s, r[i]) < FirstIndex(s, r[j]))
  }

  /** `distinct` keeps the first occurrence of every element, in order. */
  lemma {:induction false} DistinctFirstOccurrences<T>(s: seq<T>)
    ensures InFirstOccurrenceOrder(Distinct(s), s)
  {
    DistinctProperties(s);
    if s != [] {
      var init, last := s[..|s| - 1], s[|s| - 1];
      DistinctFirstOccurrences(init);
      assert s == init + [last];
      forall x | x in init
        ensures FirstIndex(s, x) == FirstIndex(init, x) < |init|
      {
        FirstIndexExtend(init, last, x);
      }
      var r := Distinct(s);
      if last !in init {
        FirstIndexUnique(s, last, |init|);
        assert r == Distinct(init) + [last];
        forall i, j | 0 <= i < j < |r|
          ensures FirstIndex(s, r[i]) < FirstIndex(s, r[j])
        {
          assert r[i] in Distinct(init);
          if j < |r| - 1 {
            assert r[j] in Distinct(init);
          }
        }
      }
    }
  }

  /** A sequence without repetitions is its own `distinct`. */
  lemma {:induction false} DistinctOfDuplicateFree<T>(s: seq<T>)
    requires NoDuplicates(s)
    ensures Distinct(s) == s
  {
    if s != [] {
      var init := s[..|s| - 1];
      assert NoDuplicates(init);
      DistinctOfDuplicateFree(init);
      assert s[|s| - 1] !in init by {
        forall i | 0 <= i < |init| ensures init[i] != s[|s| - 1] {
          assert s[i] != s[|s| - 1];
        }
      }
      assert s == init + [s[|s| - 1]];
    }
  }

  /**
   * `acc.addAll(xs)` on an insertion-ordered set held as the sequence `acc`: each element of
   * `xs` not yet present is appended, in turn.
   */
  function AddAll<T(==)>(acc: seq<T>, xs: seq<T>): (r: seq<T>)
  {
    if xs == [] then acc
    else
      var prev := AddAll(acc, xs[..|xs| - 1]);
      if xs[|xs| - 1] in prev then prev else prev + [xs[|xs| - 1]]
  }

  /** Adding to a duplicate-free set gives the first occurrences of everything added. */
  lemma {:induction false} AddAllIsDistinct<T>(acc: seq<T>, xs: seq<T>)
    requires NoDuplicates(acc)
    ensures AddAll(acc, xs) == Distinct(acc + xs)
  {
    if xs == [] {
      assert acc + xs == acc;
      DistinctOfDuplicateFree(acc);
    } else {
      var init := xs[..|xs| - 1];
      var last := xs[|xs| - 1];
      AddAllIsDistinct(acc, init);
      DistinctProperties(acc + init);
      assert (acc + xs)[..|acc + xs| - 1] == acc + init;
      assert (acc + xs)[|acc + xs| - 1] == last;
    }
  }

  lemma AddAllSnoc<T>(acc: seq<T>, xs: seq<T>, x: T)
    ensures AddAll(acc, xs + [x]) ==
      if x in AddAll(acc, xs) then AddAll(acc, xs) else AddAll(acc, xs) + [x]
  {
    assert (xs + [x])[..|xs + [x]| - 1] == xs;
  }

  /** Two `addAll` calls in a row add the concatenation. */
  lemma {:induction false} AddAllConcat<T>(acc: seq<T>, xs: seq<T>, ys: seq<T>)
    ensures AddAll(AddAll(acc, xs), ys) == AddAll(acc, xs + ys)
  {
    if ys == [] {
      assert xs + ys == xs;
    } else {
      var init := ys[..|ys| - 1];
      AddAllConcat(acc, xs, init);
      assert (xs + ys)[..|xs + ys| - 1] == xs + init;
    }
  }

  /** Adding elements already present changes nothing. */
  lemma {:induction false} AddAllPresent<T>(acc: seq<T>, xs: seq<T>)
    requires forall x :: x in xs ==> x in acc
    ensures AddAll(acc, xs) == acc
  {
    if xs != [] {
      AddAllPresent(acc, xs[..|xs| - 1]);
    }
  }

  /** Three `addAll` calls into an empty set: the first occurrences of all three, in order. */
  lemma AddAllThree<T>(a: seq<T>, b: seq<T>, c: seq<T>)
    ensures AddAll(AddAll(AddAll([], a), b), c) == Distinct(a + b + c)
    ensures NoDuplicates(Distinct(a + b + c))
    ensures forall x :: x in Distinct(a + b + c) <==> x in a || x in b || x in c
  {
    AddAllConcat([], a, b);
    AddAllConcat([], a + b, c);
    AddAllIsDistinct([], a + b + c);
    assert [] + (a + b + c) == a + b + c;
    DistinctProperties(a + b + c);
  }

  /** `f(x)` for every `x` of `xs`, concatenated in order (Kotlin `flatMap`). */
  function FlatMap<T, U>(xs: seq<T>, f: T -> seq<U>): seq<U> {
    if xs == [] then []
    else FlatMap(xs[..|xs| - 1], f) + f(xs[|xs| - 1])
  }

  lemma FlatMapSnoc<T, U>(xs: seq<T>, x: T, f: T -> seq<U>)
    ensures FlatMap(xs + [x], f) == FlatMap(xs, f) + f(x)
  {
    assert (xs + [x])[..|xs|] == xs;
  }

  lemma {:induction false} FlatMapMembership<T, U>(xs: seq<T>, f: T -> seq<U>, y: U)
    ensures y in FlatMap(xs, f) <==> exists x :: x in xs && y in f(x)
  {
    if xs != [] {
      var init, last := xs[..|xs| - 1], xs[|xs| - 1];
      FlatMapMembership(init, f, y);
      assert xs == init + [last];
      if y in FlatMap(init, f) {
        var x :| x in init && y in f(x);
        assert x in xs;
      }
    }
  }
}
