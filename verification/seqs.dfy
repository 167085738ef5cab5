/**
 * The array operations the scraper uses on lists of words, names and
 * records: `filter`, and de-duplication through a `Set` that keeps the
 * first occurrence of each element.
 */
module Seqs {

  /** `a` can be obtained from `b` by deleting elements. */
  predicate IsSubsequence<T(==)>(a: seq<T>, b: seq<T>)
    decreases |b|
  {
    |a| == 0 || (|b| > 0 && ((a[0] == b[0] && IsSubsequence(a[1..], b[1..])) || IsSubsequence(a, b[1..])))
  }

  predicate NoDuplicates<T(==)>(xs: seq<T>)
  {
    forall i, j :: 0 <= i < j < |xs| ==> xs[i] != xs[j]
  }

  /** Position of the first occurrence of `x` in `xs`. */
  function FirstIndex<T(==)>(xs: seq<T>, x: T): (r: nat)
    requires x in xs
    ensures r < |xs| && xs[r] == x
    ensures forall j :: 0 <= j < r ==> xs[j] != x
  {
    if xs[0] == x then 0 else 1 + FirstIndex(xs[1..], x)
  }

  /** JavaScript `xs.filter(f)`: the elements satisfying `f`, in order. */
  function Filter<T(!new)>(f: T -> bool, xs: seq<T>): (r: seq<T>)
    ensures |r| <= |xs|
    ensures forall x :: x in r <==> x in xs && f(x)
    ensures IsSubsequence(r, xs)
    ensures forall x :: multiset(r)[x] == if f(x) then multiset(xs)[x] else 0
    decreases |xs|
  {
    assert |xs| > 0 ==> xs == [xs[0]] + xs[1..];
    if |xs| == 0 then []
    else if f(xs[0]) then [xs[0]] + Filter(f, xs[1..])
    else Filter(f, xs[1..])
  }

  /** Filtering keeps the relative order of first occurrences. */
  lemma {:induction false} FilterKeepsOrder<T(!new)>(f: T -> bool, xs: seq<T>, x: T, y: T)
    requires x in Filter(f, xs) && y in Filter(f, xs)
    ensures FirstIndex(xs, x) < FirstIndex(xs, y) <==> FirstIndex(Filter(f, xs), x) < FirstIndex(Filter(f, xs), y)
    decreases |xs|
  {
    var r := Filter(f, xs);
    if x == xs[0] || y == xs[0] {
      // the head is kept, so it comes first on both sides
      assert f(xs[0]);
      assert r[0] == xs[0];
    } else {
      var t := xs[1..];
      assert x in t && y in t;
      FilterKeepsOrder(f, t, x, y);
      if f(xs[0]) {
        assert r[1..] == Filter(f, t);
        assert r[0] != x && r[0] != y;
      }
    }
  }

  /** An occurrence in a prefix is found at the same place in any extension. */
  lemma {:induction false} FirstIndexInPrefix<T>(p: seq<T>, q: seq<T>, x: T)
    requires x in p
    ensures FirstIndex(p + q, x) == FirstIndex(p, x)
    decreases |p|
  {
    if p[0] != x {
      assert (p + q)[1..] == p[1..] + q;
      FirstIndexInPrefix(p[1..], q, x);
    }
  }

  /** `[...new Set(xs)]`: each element once, at its first occurrence. */
  function Dedup<T(==,!new)>(xs: seq<T>): (r: seq<T>)
    ensures forall x :: x in r <==> x in xs
    ensures NoDuplicates(r)
    decreases |xs|
  {
    if |xs| == 0 then []
    else
      var d := Dedup(xs[..|xs| - 1]);
      var last := xs[|xs| - 1];
      assert forall x :: x in xs <==> x in xs[..|xs| - 1] || x == last by {
        assert xs == xs[..|xs| - 1] + [last];
      }
      if last in d then d else d + [last]
  }

  /** Elements of `Dedup(xs)` appear in the order of their first occurrence in `xs`. */
  lemma {:induction false} DedupOrder<T(!new)>(xs: seq<T>)
    ensures forall i, j :: 0 <= i < j < |Dedup(xs)| ==> FirstIndex(xs, Dedup(xs)[i]) < FirstIndex(xs, Dedup(xs)[j])
    decreases |xs|
  {
    if |xs| > 0 {
      var p := xs[..|xs| - 1];
      var last := xs[|xs| - 1];
      assert xs == p + [last];
      var d := Dedup(p);
      DedupOrder(p);
      var r := Dedup(xs);
      forall i, j | 0 <= i < j < |r|
        ensures FirstIndex(xs, r[i]) < FirstIndex(xs, r[j])
      {
        assert r[i] in d && r[i] in p;
        FirstIndexInPrefix(p, [last], r[i]);
        if j < |d| {
          FirstIndexInPrefix(p, [last], r[j]);
        } else {
          // r[j] is the newly added last element, absent from p
          assert r[j] == last && last !in p;
          assert FirstIndex(xs, last) == |p|;
        }
      }
    }
  }

  /** The loop JavaScript's `Set` performs: keep an element the first time
      it is seen. */
  method DedupBySet<T(==,!new)>(xs: seq<T>) returns (r: seq<T>)
    ensures r == Dedup(xs)
  {
    r := [];
    var seen: set<T> := {};
    for i := 0 to |xs|
      invariant r == Dedup(xs[..i])
      invariant forall x :: x in seen <==> x in xs[..i]
    {
      assert xs[..i + 1][..i] == xs[..i];
      assert xs[..i + 1] == xs[..i] + [xs[i]];
      if xs[i] !in seen {
        r := r + [xs[i]];
      }
      seen := seen + {xs[i]};
    }
    assert xs[..|xs|] == xs;
  }

  /** `xs.flatMap(f)`: the lists `f` gives for the elements, concatenated in order. */
  function Flatten<T, U>(f: T -> seq<U>, xs: seq<T>): seq<U>
    decreases |xs|
  {
    if |xs| == 0 then [] else Flatten(f, xs[..|xs| - 1]) + f(xs[|xs| - 1])
  }

  /** Flattening two runs one after the other is flattening them together. */
  lemma {:induction false} FlattenAppend<T, U>(f: T -> seq<U>, xs: seq<T>, ys: seq<T>)
    ensures Flatten(f, xs + ys) == Flatten(f, xs) + Flatten(f, ys)
    decreases |ys|
  {
    if |ys| == 0 {
      assert xs + ys == xs;
    } else {
      var ys' := ys[..|ys| - 1];
      assert (xs + ys)[..|xs + ys| - 1] == xs + ys';
      assert (xs + ys)[|xs + ys| - 1] == ys[|ys| - 1];
      FlattenAppend(f, xs, ys');
    }
  }

  lemma FlattenSnoc<T, U>(f: T -> seq<U>, xs: seq<T>, x: T)
    ensures Flatten(f, xs + [x]) == Flatten(f, xs) + f(x)
  {
    assert (xs + [x])[..|xs|] == xs;
  }

  /** One more element of a prefix adds that element's values at the end. */
  lemma FlattenTake<T, U>(f: T -> seq<U>, xs: seq<T>, i: nat)
    requires i < |xs|
    ensures Flatten(f, xs[..i + 1]) == Flatten(f, xs[..i]) + f(xs[i])
  {
    assert xs[..i + 1] == xs[..i] + [xs[i]];
    FlattenSnoc(f, xs[..i], xs[i]);
  }

  lemma FlattenOne<T, U>(f: T -> seq<U>, x: T)
    ensures Flatten(f, [x]) == f(x)
  {
    assert [x][..0] == [];
  }

  /** When each element gives at most `n` values, the flattening has at most `n` per element. */
  lemma {:induction false} FlattenBound<T, U>(f: T -> seq<U>, xs: seq<T>, n: nat)
    requires forall i :: 0 <= i < |xs| ==> |f(xs[i])| <= n
    ensures |Flatten(f, xs)| <= n * |xs|
    decreases |xs|
  {
    if |xs| > 0 {
      FlattenBound(f, xs[..|xs| - 1], n);
    }
  }

  /** Elements that give nothing contribute nothing. */
  lemma {:induction false} FlattenEmpty<T, U>(f: T -> seq<U>, xs: seq<T>)
    requires forall i :: 0 <= i < |xs| ==> f(xs[i]) == []
    ensures Flatten(f, xs) == []
    decreases |xs|
  {
    if |xs| > 0 {
      FlattenEmpty(f, xs[..|xs| - 1]);
    }
  }

  function Min(a: nat, b: nat): nat
  {
    if a <= b then a else b
  }

  /**
   * A loop over every element that appends `f(xs[i])` only while `i < cap`,
   * and so computes the flattening of the first `cap` elements.
   */
  method FlattenFirst<T, U>(f: T -> seq<U>, xs: seq<T>, cap: nat) returns (r: seq<U>)
    ensures r == Flatten(f, xs[..Min(|xs|, cap)])
  {
    r := [];
    for i := 0 to |xs|
      invariant r == Flatten(f, xs[..Min(i, cap)])
    {
      if i < cap {
        FlattenTake(f, xs, i);
        r := r + f(xs[i]);
      }
    }
  }
}
