/** `Array.prototype.filter` on immutable sequences, with the order-preservation facts that
    the page's two filters rely on. */
module Seqs {

  /** `s.filter(keep)`: the elements of `s` that satisfy `keep`, in their order in `s`.
      The recursion peels the last element; the result is the same as JavaScript's
      left-to-right visit because `keep` is a pure predicate. */
  function Filter<T>(s: seq<T>, keep: T -> bool): (r: seq<T>)
    ensures |r| <= |s|
    decreases |s|
  {
    if s == [] then []
    else
      var n := |s| - 1;
      var init := Filter(s[..n], keep);
      if keep(s[n]) then init + [s[n]] else init
  }

  /** Index sequence `idx` is strictly increasing. */
  ghost predicate Increasing(idx: seq<int>) {
    forall i, j :: 0 <= i < j < |idx| ==> idx[i] < idx[j]
  }

  /** `r` is read off `s` at the positions listed in `idx`. */
  ghost predicate Picks<T>(r: seq<T>, s: seq<T>, idx: seq<int>) {
    |idx| == |r| && forall k :: 0 <= k < |idx| ==> 0 <= idx[k] < |s| && r[k] == s[idx[k]]
  }

  /** `r` is obtained from `s` by deleting elements, keeping the rest in order. */
  ghost predicate IsSubsequence<T>(r: seq<T>, s: seq<T>) {
    exists idx :: Increasing(idx) && Picks(r, s, idx)
  }

  /** Filtering a sequence extended by one element extends the filtered sequence by that
      element exactly when it is kept. */
  lemma {:induction false} FilterSnoc<T>(s: seq<T>, x: T, keep: T -> bool)
    ensures Filter(s + [x], keep) == Filter(s, keep) + (if keep(x) then [x] else [])
  {
    assert (s + [x])[..|s|] == s;
  }

  /** The filter result is exactly the elements of `s` at the positions whose element is
      kept, listed in increasing position order: the order of `s` is preserved and nothing
      else is dropped or added. */
  lemma {:induction false} FilterPositions<T>(s: seq<T>, keep: T -> bool) returns (idx: seq<int>)
    ensures Increasing(idx) && Picks(Filter(s, keep), s, idx)
    ensures forall i :: i in idx <==> 0 <= i < |s| && keep(s[i])
    decreases |s|
  {
    if s == [] {
      idx := [];
    } else {
      var n := |s| - 1;
      var init := FilterPositions(s[..n], keep);
      var r0 := Filter(s[..n], keep);
      assert forall k :: 0 <= k < |init| ==> 0 <= init[k] < n && r0[k] == s[init[k]];
      if keep(s[n]) {
        idx := init + [n];
        assert Filter(s, keep) == r0 + [s[n]];
      } else {
        idx := init;
        assert Filter(s, keep) == r0;
      }
    }
  }

  /** An element occurs in the filter result exactly when it occurs in the input and is kept. */
  lemma {:induction false} FilterMembers<T>(s: seq<T>, keep: T -> bool)
    ensures forall x :: x in Filter(s, keep) <==> x in s && keep(x)
  {
    var idx := FilterPositions(s, keep);
    var r := Filter(s, keep);
    forall x | x in r ensures x in s && keep(x) {
      var k :| 0 <= k < |r| && r[k] == x;
      assert idx[k] in idx;
    }
    forall x | x in s && keep(x) ensures x in r {
      var i :| 0 <= i < |s| && s[i] == x;
      assert i in idx;
      var k :| 0 <= k < |idx| && idx[k] == i;
    }
  }

  /** The filter result is a subsequence of its input. */
  lemma FilterIsSubsequence<T>(s: seq<T>, keep: T -> bool)
    ensures IsSubsequence(Filter(s, keep), s)
  {
    var idx := FilterPositions(s, keep);
  }

  /** Filtering twice with the same predicate is filtering once. */
  lemma {:induction false} FilterIdempotent<T>(s: seq<T>, keep: T -> bool)
    ensures Filter(Filter(s, keep), keep) == Filter(s, keep)
    decreases |s|
  {
    if s != [] {
      var n := |s| - 1;
      FilterIdempotent(s[..n], keep);
      if keep(s[n]) {
        FilterSnoc(Filter(s[..n], keep), s[n], keep);
      }
    }
  }

  /** Two predicates that agree on every element of `s` filter `s` alike. */
  lemma {:induction false} FilterCongruent<T>(s: seq<T>, p: T -> bool, q: T -> bool)
    requires forall x :: x in s ==> p(x) == q(x)
    ensures Filter(s, p) == Filter(s, q)
    decreases |s|
  {
    if s != [] {
      var n := |s| - 1;
      assert forall x :: x in s[..n] ==> x in s;
      FilterCongruent(s[..n], p, q);
    }
  }

  /** When every element is kept, the filter returns its input unchanged. */
  lemma {:induction false} FilterKeepsAll<T>(s: seq<T>, keep: T -> bool)
    requires forall x :: x in s ==> keep(x)
    ensures Filter(s, keep) == s
    decreases |s|
  {
    if s != [] {
      var n := |s| - 1;
      assert forall x :: x in s[..n] ==> x in s;
      FilterKeepsAll(s[..n], keep);
      assert s == s[..n] + [s[n]];
    }
  }
}
