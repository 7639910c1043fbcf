/** Sequence operations behind `Array.prototype.filter` and the
    `Array.from(new Set(xs))` idiom, with the facts the logbook views need. */
module Seqs {

  /** `xs` is obtained from `ys` by deleting elements, keeping the order. */
  predicate IsSubsequence<T(==,!new)>(xs: seq<T>, ys: seq<T>)
    decreases |ys|
  {
    || xs == []
    || (&& ys != []
        && (|| (xs[0] == ys[0] && IsSubsequence(xs[1..], ys[1..]))
            || IsSubsequence(xs, ys[1..])))
  }

  /** `s.filter(p)`: the elements of `s` that satisfy `p`, in their order,
      each as often as it occurs in `s`. */
  function FilterSeq<T(==,!new)>(s: seq<T>, p: T -> bool): (r: seq<T>)
    ensures |r| <= |s|
    ensures forall x :: x in r <==> x in s && p(x)
    ensures forall x :: multiset(r)[x] == if p(x) then multiset(s)[x] else 0
    ensures IsSubsequence(r, s)
    decreases |s|
  {
    if s == [] then []
    else
      var rest := FilterSeq(s[1..], p);
      assert s == [s[0]] + s[1..];
      if p(s[0]) then
        assert ([s[0]] + rest)[1..] == rest;
        [s[0]] + rest
      else
        rest
  }

  /** Filtering keeps everything when every element passes. */
  lemma {:induction false} FilterKeepsAll<T(!new)>(s: seq<T>, p: T -> bool)
    requires forall x :: x in s ==> p(x)
    ensures FilterSeq(s, p) == s
    decreases |s|
  {
    if s != [] {
      FilterKeepsAll(s[1..], p);
      assert [s[0]] + s[1..] == s;
    }
  }

  /** Filtering a filtered sequence again changes nothing. */
  lemma FilterIdempotent<T(!new)>(s: seq<T>, p: T -> bool)
    ensures FilterSeq(FilterSeq(s, p), p) == FilterSeq(s, p)
  {
    FilterKeepsAll(FilterSeq(s, p), p);
  }

  /** Two predicates that agree on the elements of `s` filter it alike. */
  lemma {:induction false} FilterCongruent<T(!new)>(s: seq<T>, p: T -> bool, q: T -> bool)
    requires forall x :: x in s ==> p(x) == q(x)
    ensures FilterSeq(s, p) == FilterSeq(s, q)
    decreases |s|
  {
    if s != [] {
      FilterCongruent(s[1..], p, q);
    }
  }

  /* ---------------- distinct elements in first-seen order ---------------- */

  predicate NoDup<T(==,!new)>(s: seq<T>) {
    forall i, j :: 0 <= i < j < |s| ==> s[i] != s[j]
  }

  /** Position of the first occurrence of `x` in `s`. */
  function IndexOf<T(==,!new)>(s: seq<T>, x: T): (r: nat)
    requires x in s
    ensures r < |s| && s[r] == x && x !in s[..r]
    decreases |s|
  {
    if s[0] == x then 0
    else
      var k := IndexOf(s[1..], x);
      assert s[..k + 1] == [s[0]] + s[1..][..k];
      k + 1
  }

  /** `x` shows up in `s` for the first time before `y` does. */
  predicate SeenBefore<T(==,!new)>(s: seq<T>, x: T, y: T) {
    x in s && y in s && IndexOf(s, x) < IndexOf(s, y)
  }

  /** The elements of `r`, all drawn from `s`, appear in the order of their
      first occurrence in `s`. */
  predicate FirstSeenOrder<T(==,!new)>(r: seq<T>, s: seq<T>) {
    forall i, j :: 0 <= i < j < |r| ==> SeenBefore(s, r[i], r[j])
  }

  /** The first occurrence is the only position holding `x` with no earlier `x`. */
  lemma IndexOfUnique<T(!new)>(s: seq<T>, x: T, k: nat)
    requires k < |s| && s[k] == x && x !in s[..k]
    ensures IndexOf(s, x) == k
  {
  }

  /** Appending an element does not move earlier first occurrences. */
  lemma IndexOfAppend<T(!new)>(s: seq<T>, y: T, x: T)
    requires x in s
    ensures IndexOf(s + [y], x) == IndexOf(s, x)
  {
    var k := IndexOf(s, x);
    assert (s + [y])[..k] == s[..k];
    IndexOfUnique(s + [y], x, k);
  }

  /** `Array.from(new Set(s))`: each distinct element once, in the order in
      which `s` first shows it. */
  function Dedup<T(==,!new)>(s: seq<T>): (r: seq<T>)
    ensures NoDup(r)
    ensures forall x :: x in r <==> x in s
    decreases |s|
  {
    if |s| == 0 then []
    else
      var init := s[..|s| - 1];
      var x := s[|s| - 1];
      var d := Dedup(init);
      assert s == init + [x];
      if x in d then d else d + [x]
  }

  /** `Dedup` lists the distinct elements in the order of first sight. */
  lemma {:induction false} DedupFirstSeenOrder<T(!new)>(s: seq<T>)
    ensures FirstSeenOrder(Dedup(s), s)
    decreases |s|
  {
    if |s| > 0 {
      var init := s[..|s| - 1];
      var x := s[|s| - 1];
      var d := Dedup(init);
      assert s == init + [x];
      DedupFirstSeenOrder(init);
      forall y | y in init
        ensures IndexOf(s, y) == IndexOf(init, y)
      {
        IndexOfAppend(init, x, y);
      }
      if x !in d {
        var r := d + [x];
        IndexOfUnique(s, x, |init|);
        forall i, j | 0 <= i < j < |r|
          ensures SeenBefore(s, r[i], r[j])
        {
          assert r[i] == d[i] && r[i] in init;
          if j < |d| {
            assert r[j] == d[j] && SeenBefore(init, d[i], d[j]);
          }
        }
      } else {
        forall i, j | 0 <= i < j < |d|
          ensures SeenBefore(s, d[i], d[j])
        {
          assert SeenBefore(init, d[i], d[j]);
        }
      }
    }
  }

  /** Filtering keeps a sequence free of duplicates. */
  lemma {:induction false} FilterKeepsNoDup<T(!new)>(r: seq<T>, p: T -> bool)
    requires NoDup(r)
    ensures NoDup(FilterSeq(r, p))
    decreases |r|
  {
    if r != [] {
      assert NoDup(r[1..]);
      FilterKeepsNoDup(r[1..], p);
      assert r[0] !in r[1..];
    }
  }

  /** Filtering keeps the first-seen order relative to a source sequence. */
  lemma {:induction false} FilterKeepsFirstSeenOrder<T(!new)>(r: seq<T>, s: seq<T>, p: T -> bool)
    requires FirstSeenOrder(r, s)
    ensures FirstSeenOrder(FilterSeq(r, p), s)
    decreases |r|
  {
    if r != [] {
      var tail := r[1..];
      assert FirstSeenOrder(tail, s) by {
        forall i, j | 0 <= i < j < |tail|
          ensures SeenBefore(s, tail[i], tail[j])
        {
          assert tail[i] == r[i + 1] && tail[j] == r[j + 1];
        }
      }
      FilterKeepsFirstSeenOrder(tail, s, p);
      var ft := FilterSeq(tail, p);
      if p(r[0]) {
        var f := [r[0]] + ft;
        forall i, j | 0 <= i < j < |f|
          ensures SeenBefore(s, f[i], f[j])
        {
          if i > 0 {
            assert f[i] == ft[i - 1] && f[j] == ft[j - 1];
          } else {
            assert f[j] in tail;
            var k :| 0 <= k < |tail| && tail[k] == f[j];
            assert r[k + 1] == f[j] && SeenBefore(s, r[0], r[k + 1]);
          }
        }
      }
    }
  }
}
