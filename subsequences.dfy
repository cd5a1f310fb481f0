/**
 * Boolean-mask selection, the meaning of pandas' `df[mask]`: the elements
 * whose mask entry is true, in their original order.
 */
module Subsequences {

  /** How many entries of `mask` are true. */
  function CountTrue(mask: seq<bool>): (n: nat)
    ensures n <= |mask|
    decreases |mask|
  {
    if |mask| == 0 then 0 else CountTrue(mask[..|mask| - 1]) + (if mask[|mask| - 1] then 1 else 0)
  }

  /** The positions where `mask` is true, in increasing order. */
  function TrueIndices(mask: seq<bool>): (idx: seq<nat>)
    ensures forall k :: 0 <= k < |idx| ==> idx[k] < |mask| && mask[idx[k]]
    ensures forall k, l :: 0 <= k < l < |idx| ==> idx[k] < idx[l]
    ensures forall i :: 0 <= i < |mask| && mask[i] ==> i in idx
    ensures |idx| == CountTrue(mask)
    decreases |mask|
  {
    if |mask| == 0 then []
    else
      var n := |mask| - 1;
      TrueIndices(mask[..n]) + (if mask[n] then [n] else [])
  }

  /** `xs[mask]`, built from the back so that indices never shift. */
  function Select<T>(xs: seq<T>, mask: seq<bool>): (r: seq<T>)
    requires |mask| == |xs|
    ensures |r| == CountTrue(mask) <= |xs|
    decreases |xs|
  {
    if |xs| == 0 then []
    else
      var n := |xs| - 1;
      Select(xs[..n], mask[..n]) + (if mask[n] then [xs[n]] else [])
  }

  /**
   * The selection is exactly the elements at the true positions of the mask,
   * in increasing position order: nothing is dropped, added or reordered.
   */
  lemma {:induction false} SelectIsIndexed<T>(xs: seq<T>, mask: seq<bool>)
    requires |mask| == |xs|
    ensures |Select(xs, mask)| == |TrueIndices(mask)|
    ensures forall k :: 0 <= k < |TrueIndices(mask)| ==> Select(xs, mask)[k] == xs[TrueIndices(mask)[k]]
    decreases |xs|
  {
    if |xs| > 0 {
      var n := |xs| - 1;
      SelectIsIndexed(xs[..n], mask[..n]);
      var idx := TrueIndices(mask[..n]);
      var pre := Select(xs[..n], mask[..n]);
      var sel := Select(xs, mask);
      var all := TrueIndices(mask);
      assert sel == pre + (if mask[n] then [xs[n]] else []);
      assert all == idx + (if mask[n] then [n] else []);
      forall k | 0 <= k < |all| ensures sel[k] == xs[all[k]] {
        if k < |idx| {
          assert idx[k] < n && sel[k] == pre[k] && all[k] == idx[k];
          assert xs[..n][idx[k]] == xs[idx[k]];
        }
      }
    }
  }

  /** An element is selected if and only if it stands at a true position. */
  lemma {:induction false} SelectMember<T>(xs: seq<T>, mask: seq<bool>, x: T)
    requires |mask| == |xs|
    ensures x in Select(xs, mask) <==> exists i :: 0 <= i < |xs| && mask[i] && xs[i] == x
    decreases |xs|
  {
    if |xs| > 0 {
      var n := |xs| - 1;
      SelectMember(xs[..n], mask[..n], x);
      if exists i :: 0 <= i < |xs| && mask[i] && xs[i] == x {
        var i :| 0 <= i < |xs| && mask[i] && xs[i] == x;
        if i < n {
          assert xs[..n][i] == x && mask[..n][i];
        }
      }
    }
  }

  /** `a` is a subsequence of `b`: `b` with some elements deleted. */
  ghost predicate IsSubsequence<T>(a: seq<T>, b: seq<T>) {
    exists mask: seq<bool> :: |mask| == |b| && Select(b, mask) == a
  }

  /** Selecting from a sequence extended by one element. */
  lemma SelectSnoc<T>(xs: seq<T>, mask: seq<bool>, x: T, b: bool)
    requires |mask| == |xs|
    ensures Select(xs + [x], mask + [b]) == Select(xs, mask) + (if b then [x] else [])
  {
    assert (xs + [x])[..|xs|] == xs && (mask + [b])[..|mask|] == mask;
  }

  /**
   * Selecting with a stronger mask is a further selection from the weaker one:
   * if m1 implies m2 pointwise, xs[m1] is xs[m2] filtered again.
   */
  lemma {:induction false} SelectRefines<T>(xs: seq<T>, m1: seq<bool>, m2: seq<bool>)
    requires |m1| == |xs| && |m2| == |xs|
    requires forall i :: 0 <= i < |xs| && m1[i] ==> m2[i]
    ensures Select(Select(xs, m2), Select(m1, m2)) == Select(xs, m1)
    decreases |xs|
  {
    if |xs| > 0 {
      var n := |xs| - 1;
      assert forall i :: 0 <= i < n && m1[..n][i] ==> m2[..n][i];
      SelectRefines(xs[..n], m1[..n], m2[..n]);
      var pre := Select(xs[..n], m2[..n]);
      var pm := Select(m1[..n], m2[..n]);
      var tail := if m1[n] then [xs[n]] else [];
      assert Select(xs, m1) == Select(xs[..n], m1[..n]) + tail;
      if m2[n] {
        assert Select(xs, m2) == pre + [xs[n]];
        assert Select(m1, m2) == pm + [m1[n]];
        SelectSnoc(pre, pm, xs[n], m1[n]);
        assert Select(pre + [xs[n]], pm + [m1[n]]) == Select(pre, pm) + tail;
      } else {
        assert Select(xs, m2) == pre && Select(m1, m2) == pm && tail == [];
      }
    }
  }

  /** Tightening a mask yields a subsequence of the looser selection. */
  lemma StrongerMaskSubsequence<T>(xs: seq<T>, m1: seq<bool>, m2: seq<bool>)
    requires |m1| == |xs| && |m2| == |xs|
    requires forall i :: 0 <= i < |xs| && m1[i] ==> m2[i]
    ensures IsSubsequence(Select(xs, m1), Select(xs, m2))
  {
    SelectRefines(xs, m1, m2);
    var m := Select(m1, m2);
    assert |m| == |Select(xs, m2)|;
  }
}
