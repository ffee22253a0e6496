/**
 * Python's ordering and sorting of `str` values, as `sorted(...)` and
 * `list.sort()` use them in misc/python/materialize/mzbuild.py: strings
 * compare code point by code point, and a proper prefix is smaller.
 */
module Sorting {

  /** `a <= b` on Python strings. */
  predicate StrLe(a: string, b: string)
  {
    if a == [] then true
    else if b == [] then false
    else if a[0] != b[0] then a[0] < b[0]
    else StrLe(a[1..], b[1..])
  }

  lemma {:induction false} StrLeTotal(a: string, b: string)
    ensures StrLe(a, b) || StrLe(b, a)
  {
    if a != [] && b != [] && a[0] == b[0] {
      StrLeTotal(a[1..], b[1..]);
    }
  }

  lemma {:induction false} StrLeReflexive(a: string)
    ensures StrLe(a, a)
  {
    if a != [] {
      StrLeReflexive(a[1..]);
    }
  }

  lemma {:induction false} StrLeTransitive(a: string, b: string, c: string)
    requires StrLe(a, b) && StrLe(b, c)
    ensures StrLe(a, c)
  {
    if a != [] && b != [] && c != [] && a[0] == b[0] == c[0] {
      StrLeTransitive(a[1..], b[1..], c[1..]);
    }
  }

  lemma {:induction false} StrLeAntisymmetric(a: string, b: string)
    requires StrLe(a, b) && StrLe(b, a)
    ensures a == b
  {
    if a != [] && b != [] {
      StrLeAntisymmetric(a[1..], b[1..]);
      assert a == [a[0]] + a[1..];
      assert b == [b[0]] + b[1..];
    }
  }

  predicate Sorted(xs: seq<string>)
  {
    forall i, j :: 0 <= i < j < |xs| ==> StrLe(xs[i], xs[j])
  }

  /** Insertion sort: the result is ordered and holds exactly the input strings. */
  method Sort(xs: seq<string>) returns (ys: seq<string>)
    ensures Sorted(ys)
    ensures multiset(ys) == multiset(xs)
  {
    ys := [];
    var i := 0;
    while i < |xs|
      invariant 0 <= i <= |xs|
      invariant Sorted(ys)
      invariant multiset(ys) == multiset(xs[..i])
    {
      ys := Insert(ys, xs[i]);
      assert xs[..i + 1] == xs[..i] + [xs[i]];
      i := i + 1;
    }
    assert xs[..i] == xs;
  }

  /** Puts `x` after every element not above it. */
  method Insert(ys: seq<string>, x: string) returns (zs: seq<string>)
    requires Sorted(ys)
    ensures Sorted(zs)
    ensures multiset(zs) == multiset(ys) + multiset{x}
  {
    var j := 0;
    while j < |ys| && StrLe(ys[j], x)
      invariant 0 <= j <= |ys|
      invariant forall k :: 0 <= k < j ==> StrLe(ys[k], x)
    {
      j := j + 1;
    }
    if j < |ys| {
      StrLeTotal(ys[j], x);
      forall k | j <= k < |ys|
        ensures StrLe(x, ys[k])
      {
        if k > j {
          StrLeTransitive(x, ys[j], ys[k]);
        }
      }
    }
    zs := ys[..j] + [x] + ys[j..];
    assert ys == ys[..j] + ys[j..];
  }

  /** The head of a sorted sequence is below every element of it. */
  lemma SortedHeadLeast(xs: seq<string>, x: string)
    requires Sorted(xs) && x in multiset(xs)
    ensures StrLe(xs[0], x)
  {
    var i :| 0 <= i < |xs| && xs[i] == x;
    if i == 0 {
      StrLeReflexive(x);
    }
  }

  /** A sorted arrangement of a collection of strings is unique. */
  lemma {:induction false} SortedUnique(xs: seq<string>, ys: seq<string>)
    requires Sorted(xs) && Sorted(ys) && multiset(xs) == multiset(ys)
    ensures xs == ys
    decreases |xs|
  {
    assert |xs| == |multiset(xs)| == |multiset(ys)| == |ys|;
    if xs != [] {
      SameHead(xs, ys);
      SortedTail(xs);
      SortedTail(ys);
      SortedUnique(xs[1..], ys[1..]);
      SameHeadSameTail(xs, ys);
    }
  }

  lemma SameHeadSameTail(xs: seq<string>, ys: seq<string>)
    requires |xs| > 0 && |ys| > 0 && xs[0] == ys[0] && xs[1..] == ys[1..]
    ensures xs == ys
  {
    assert xs == [xs[0]] + xs[1..] && ys == [ys[0]] + ys[1..];
  }

  /** Two sorted arrangements of one non-empty collection start with the same string. */
  lemma SameHead(xs: seq<string>, ys: seq<string>)
    requires Sorted(xs) && Sorted(ys) && multiset(xs) == multiset(ys) && |xs| > 0 && |ys| > 0
    ensures xs[0] == ys[0]
  {
    assert xs[0] in multiset(ys) && ys[0] in multiset(xs);
    SortedHeadLeast(xs, ys[0]);
    SortedHeadLeast(ys, xs[0]);
    StrLeAntisymmetric(xs[0], ys[0]);
  }

  lemma SortedTail(xs: seq<string>)
    requires Sorted(xs) && |xs| > 0
    ensures Sorted(xs[1..]) && multiset(xs[1..]) == multiset(xs) - multiset{xs[0]}
  {
    assert xs == [xs[0]] + xs[1..];
  }
}
