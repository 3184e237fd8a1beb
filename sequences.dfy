/** Facts about sequences shared by the extractors and the pipeline nodes. */
module Sequences {
  import opened Wrappers

  /** What a loop builds that visits `xs` in order and appends `y` whenever
      `f` gives `Some(y)`, skipping the element otherwise. */
  function FilterMap<A, B>(xs: seq<A>, f: A -> Option<B>): (r: seq<B>)
    ensures |r| <= |xs|
  {
    if xs == [] then []
    else
      var init := xs[..|xs| - 1];
      FilterMap(init, f) + (match f(xs[|xs| - 1]) case Some(y) => [y] case None => [])
  }

  /** One more iteration of the loop: the element at `i` is appended when
      `f` succeeds on it. */
  lemma FilterMapStep<A, B>(xs: seq<A>, i: nat, f: A -> Option<B>)
    requires i < |xs|
    ensures FilterMap(xs[..i + 1], f)
         == FilterMap(xs[..i], f) + (if f(xs[i]).Some? then [f(xs[i]).value] else [])
  {
    assert xs[..i + 1][..i] == xs[..i];
  }

  /** The positions of `xs` at which `f` succeeds, in increasing order. */
  function SuccessIndices<A, B>(xs: seq<A>, f: A -> Option<B>): (idx: seq<nat>)
    ensures forall k :: 0 <= k < |idx| ==> idx[k] < |xs| && f(xs[idx[k]]).Some?
    ensures forall k, l :: 0 <= k < l < |idx| ==> idx[k] < idx[l]
    ensures forall j :: 0 <= j < |xs| && f(xs[j]).Some? ==> j in idx
  {
    if xs == [] then []
    else
      var init := xs[..|xs| - 1];
      var before := SuccessIndices(init, f);
      assert forall j :: 0 <= j < |init| ==> init[j] == xs[j];
      if f(xs[|xs| - 1]).Some? then before + [|xs| - 1] else before
  }

  /** FilterMap yields exactly the successful results, one per success, in the
      order of the elements they came from: nothing is dropped but failures,
      nothing is reordered. */
  lemma {:induction false} FilterMapExactly<A, B>(xs: seq<A>, f: A -> Option<B>)
    ensures var r := FilterMap(xs, f);
      var idx := SuccessIndices(xs, f);
      |r| == |idx| && forall k :: 0 <= k < |r| ==> f(xs[idx[k]]) == Some(r[k])
    decreases |xs|
  {
    if xs != [] {
      var init := xs[..|xs| - 1];
      FilterMapExactly(init, f);
      var r0, idx0 := FilterMap(init, f), SuccessIndices(init, f);
      forall k | 0 <= k < |r0|
        ensures f(xs[idx0[k]]) == Some(r0[k])
      {
        assert init[idx0[k]] == xs[idx0[k]];
      }
    }
  }

  /** Running the loop over two halves one after the other. */
  lemma {:induction false} FilterMapAppend<A, B>(xs: seq<A>, ys: seq<A>, f: A -> Option<B>)
    ensures FilterMap(xs + ys, f) == FilterMap(xs, f) + FilterMap(ys, f)
    decreases |ys|
  {
    if ys == [] {
      assert xs + ys == xs;
    } else {
      var ys' := ys[..|ys| - 1];
      FilterMapAppend(xs, ys', f);
      assert (xs + ys)[..|xs + ys| - 1] == xs + ys';
      assert (xs + ys)[|xs + ys| - 1] == ys[|ys| - 1];
    }
  }

  /** When `f` keeps elements unchanged, FilterMap only deletes. */
  lemma {:induction false} FilterMapIsSubsequence<A>(xs: seq<A>, f: A -> Option<A>)
    requires forall x :: f(x).Some? ==> f(x).value == x
    ensures IsSubsequence(FilterMap(xs, f), xs)
    decreases |xs|
  {
    if xs != [] {
      var init := xs[..|xs| - 1];
      FilterMapIsSubsequence(init, f);
      var r := FilterMap(xs, f);
      var x := xs[|xs| - 1];
      if f(x).Some? {
        assert r == FilterMap(init, f) + [f(x).value];
        assert r[..|r| - 1] == FilterMap(init, f);
        assert r[|r| - 1] == x;
      } else {
        assert r == FilterMap(init, f);
      }
    }
  }

  /** A value is in the result exactly when `f` yields it for some element. */
  lemma FilterMapMembers<A, B>(xs: seq<A>, f: A -> Option<B>, y: B)
    ensures y in FilterMap(xs, f) <==> exists j :: 0 <= j < |xs| && f(xs[j]) == Some(y)
  {
    FilterMapExactly(xs, f);
    var r := FilterMap(xs, f);
    var idx := SuccessIndices(xs, f);
    if y in r {
      var k :| 0 <= k < |r| && r[k] == y;
      assert f(xs[idx[k]]) == Some(y);
    }
    if j :| 0 <= j < |xs| && f(xs[j]) == Some(y) {
      assert j in idx;
      var k :| 0 <= k < |idx| && idx[k] == j;
      assert r[k] == y;
    }
  }

  /** When `f` keeps every element unchanged, the result is the input. */
  lemma {:induction false} FilterMapKeepsAll<A>(xs: seq<A>, f: A -> Option<A>)
    requires forall j :: 0 <= j < |xs| ==> f(xs[j]) == Some(xs[j])
    ensures FilterMap(xs, f) == xs
    decreases |xs|
  {
    if xs != [] {
      var init := xs[..|xs| - 1];
      assert forall j :: 0 <= j < |init| ==> init[j] == xs[j];
      FilterMapKeepsAll(init, f);
    }
  }

  /** When `f` always fails, nothing is kept. */
  lemma {:induction false} FilterMapAllFail<A, B>(xs: seq<A>, f: A -> Option<B>)
    requires forall j :: 0 <= j < |xs| ==> f(xs[j]).None?
    ensures FilterMap(xs, f) == []
    decreases |xs|
  {
    if xs != [] {
      var init := xs[..|xs| - 1];
      assert forall j :: 0 <= j < |init| ==> init[j] == xs[j];
      FilterMapAllFail(init, f);
    }
  }

  /** `s` is obtained from `t` by deleting elements, keeping the order of the rest. */
  ghost predicate IsSubsequence<T>(s: seq<T>, t: seq<T>)
    decreases |t|
  {
    if t == [] then s == []
    else
      (s != [] && s[|s| - 1] == t[|t| - 1] && IsSubsequence(s[..|s| - 1], t[..|t| - 1]))
      || IsSubsequence(s, t[..|t| - 1])
  }

  /** What a subsequence is in plain terms: no longer than the sequence it
      is taken from, and made only of its elements. */
  lemma {:induction false} SubsequenceBounds<T>(s: seq<T>, t: seq<T>)
    requires IsSubsequence(s, t)
    ensures |s| <= |t|
    ensures forall x :: x in s ==> x in t
    decreases |t|
  {
    if t != [] {
      if s != [] && s[|s| - 1] == t[|t| - 1] && IsSubsequence(s[..|s| - 1], t[..|t| - 1]) {
        SubsequenceBounds(s[..|s| - 1], t[..|t| - 1]);
        assert s == s[..|s| - 1] + [s[|s| - 1]];
        assert t == t[..|t| - 1] + [t[|t| - 1]];
      } else {
        SubsequenceBounds(s, t[..|t| - 1]);
        assert t == t[..|t| - 1] + [t[|t| - 1]];
      }
    }
  }

  /** No value occurs twice. */
  predicate NoDuplicates<T(==)>(s: seq<T>) {
    forall i, j :: 0 <= i < j < |s| ==> s[i] != s[j]
  }

  /** Python's `s[:count]`: a negative `count` counts from the end. */
  function PyPrefix<T>(s: seq<T>, count: int): (r: seq<T>)
    ensures r <= s
    ensures count >= 0 ==> |r| == if count < |s| then count else |s|
    ensures count < 0 ==> |r| == if |s| + count > 0 then |s| + count else 0
  {
    if count >= 0 then
      (if count < |s| then s[..count] else s)
    else
      (if |s| + count > 0 then s[..|s| + count] else [])
  }

  lemma PrefixKeepsNoDuplicates<T>(s: seq<T>, r: seq<T>)
    requires NoDuplicates(s) && r <= s
    ensures NoDuplicates(r)
  {
    assert forall i :: 0 <= i < |r| ==> r[i] == s[i];
  }

  /** Keep the first occurrence of every value, in first-seen order. Written
      from the end, the way a loop with a membership test before each append
      builds it. */
  function Dedup<T(==)>(s: seq<T>): (r: seq<T>)
    ensures NoDuplicates(r)
    ensures forall i :: 0 <= i < |r| ==> r[i] in s
    ensures forall i :: 0 <= i < |s| ==> s[i] in r
    ensures |r| <= |s|
  {
    if s == [] then []
    else
      var d := Dedup(s[..|s| - 1]);
      assert s == s[..|s| - 1] + [s[|s| - 1]];
      if s[|s| - 1] in d then d else d + [s[|s| - 1]]
  }

  /** Dedup only deletes: what it returns keeps the input's order. */
  lemma {:induction false} DedupIsSubsequence<T>(s: seq<T>)
    ensures IsSubsequence(Dedup(s), s)
    decreases |s|
  {
    if s != [] {
      var t := s[..|s| - 1];
      DedupIsSubsequence(t);
      var d := Dedup(t);
      if s[|s| - 1] !in d {
        assert (d + [s[|s| - 1]])[..|d|] == d;
      }
    }
  }

  /** Dedup changes nothing in a sequence that has no duplicates. */
  lemma {:induction false} DedupOfDistinct<T>(s: seq<T>)
    requires NoDuplicates(s)
    ensures Dedup(s) == s
    decreases |s|
  {
    if s != [] {
      var t := s[..|s| - 1];
      DedupOfDistinct(t);
      assert s[|s| - 1] !in t;
      assert s == t + [s[|s| - 1]];
    }
  }

  /** Dedup is idempotent. */
  lemma DedupIdempotent<T>(s: seq<T>)
    ensures Dedup(Dedup(s)) == Dedup(s)
  {
    DedupOfDistinct(Dedup(s));
  }

  /** The first occurrences come out in the order they were first seen. */
  lemma {:induction false} DedupFirstSeenOrder<T>(s: seq<T>, i: nat, j: nat)
    requires i < j < |Dedup(s)|
    ensures FirstIndex(s, Dedup(s)[i]) < FirstIndex(s, Dedup(s)[j])
    decreases |s|
  {
    var t := s[..|s| - 1];
    var d := Dedup(t);
    var x := s[|s| - 1];
    FirstIndexOfPrefix(t, x, s);
    if j < |d| {
      DedupFirstSeenOrder(t, i, j);
      FirstIndexOfPrefix(t, d[i], s);
      FirstIndexOfPrefix(t, d[j], s);
    } else {
      assert Dedup(s) == d + [x] && Dedup(s)[j] == x;
      assert x !in t;
      FirstIndexOfPrefix(t, d[i], s);
    }
  }

  /** Index of the first occurrence of `x` in `s` (|s| when absent). */
  function FirstIndex<T(==)>(s: seq<T>, x: T): (k: nat)
    ensures k <= |s|
    ensures k < |s| <==> x in s
    ensures k < |s| ==> s[k] == x && x !in s[..k]
  {
    if s == [] then 0
    else if s[0] == x then 0
    else
      var k := 1 + FirstIndex(s[1..], x);
      assert s[..k] == [s[0]] + s[1..][..k - 1];
      k
  }

  lemma {:induction false} FirstIndexOfPrefix<T>(t: seq<T>, x: T, s: seq<T>)
    requires t <= s
    ensures x in t ==> FirstIndex(s, x) == FirstIndex(t, x)
    ensures x !in t ==> FirstIndex(s, x) >= |t|
    decreases |t|
  {
    if t != [] && t[0] != x {
      FirstIndexOfPrefix(t[1..], x, s[1..]);
    }
  }
}
