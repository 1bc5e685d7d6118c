/** Running totals of the true/false-positive counts (`_compute_counts_cumsum` in
    obj_det_metrics/utils.py). */
module Cumsum {

  function Sum(s: seq<int>): int {
    if s == [] then 0 else Sum(s[..|s| - 1]) + s[|s| - 1]
  }

  /** Element i is the total of s[0..i]. */
  function PrefixSums(s: seq<int>): seq<int> {
    seq(|s|, i requires 0 <= i < |s| => Sum(s[..i + 1]))
  }

  lemma SumAppend(s: seq<int>, x: int)
    ensures Sum(s + [x]) == Sum(s) + x
  {
    assert (s + [x])[..|s|] == s;
  }

  /** Overwrites every element with the running total up to and including it. */
  method CumSum(values: array<int>)
    modifies values
    ensures values[..] == PrefixSums(old(values[..]))
  {
    ghost var orig := values[..];
    var cumsum := 0;
    var idx := 0;
    while idx < values.Length
      invariant 0 <= idx <= values.Length
      invariant cumsum == Sum(orig[..idx])
      invariant forall j :: 0 <= j < idx ==> values[j] == Sum(orig[..j + 1])
      invariant forall j :: idx <= j < values.Length ==> values[j] == orig[j]
    {
      var val := values[idx];
      values[idx] := values[idx] + cumsum;
      cumsum := cumsum + val;
      assert orig[..idx + 1] == orig[..idx] + [orig[idx]];
      SumAppend(orig[..idx], orig[idx]);
      idx := idx + 1;
    }
  }

  lemma {:induction false} SumPrefixMonotone(s: seq<int>, j: nat, k: nat)
    requires forall i :: 0 <= i < |s| ==> 0 <= s[i]
    requires j <= k <= |s|
    ensures 0 <= Sum(s[..j]) <= Sum(s[..k])
  {
    if j < k {
      SumPrefixMonotone(s, j, k - 1);
      assert s[..k] == s[..k - 1] + [s[k - 1]];
      SumAppend(s[..k - 1], s[k - 1]);
    } else if j > 0 {
      SumPrefixMonotone(s, j - 1, j);
    }
  }

  /** Over non-negative counts the running totals never decrease and stay within the total. */
  lemma PrefixSumsMonotone(s: seq<int>)
    requires forall i :: 0 <= i < |s| ==> 0 <= s[i]
    ensures forall i, j :: 0 <= i <= j < |s| ==> 0 <= PrefixSums(s)[i] <= PrefixSums(s)[j] <= Sum(s)
  {
    forall i, j | 0 <= i <= j < |s|
      ensures 0 <= PrefixSums(s)[i] <= PrefixSums(s)[j] <= Sum(s)
    {
      SumPrefixMonotone(s, i + 1, j + 1);
      SumPrefixMonotone(s, j + 1, |s|);
      assert s[..|s|] == s;
    }
  }

  lemma {:induction false} SumComplement(tp: seq<int>, fp: seq<int>, n: nat)
    requires |tp| == |fp| && n <= |tp|
    requires forall i :: 0 <= i < |tp| ==> tp[i] + fp[i] == 1
    ensures Sum(tp[..n]) + Sum(fp[..n]) == n
  {
    if n > 0 {
      SumComplement(tp, fp, n - 1);
      assert tp[..n] == tp[..n - 1] + [tp[n - 1]];
      assert fp[..n] == fp[..n - 1] + [fp[n - 1]];
      SumAppend(tp[..n - 1], tp[n - 1]);
      SumAppend(fp[..n - 1], fp[n - 1]);
    }
  }

  /** When every position holds exactly one true or one false positive, the two running
      totals at position i add up to i + 1, so the precision denominator is never 0. */
  lemma PrefixSumsComplement(tp: seq<int>, fp: seq<int>)
    requires |tp| == |fp|
    requires forall i :: 0 <= i < |tp| ==> tp[i] + fp[i] == 1
    ensures forall i :: 0 <= i < |tp| ==> PrefixSums(tp)[i] + PrefixSums(fp)[i] == i + 1
  {
    forall i | 0 <= i < |tp|
      ensures PrefixSums(tp)[i] + PrefixSums(fp)[i] == i + 1
    {
      SumComplement(tp, fp, i + 1);
    }
  }

  lemma PrefixSumsExample()
    ensures PrefixSums([1, 0, 1, 1]) == [1, 1, 2, 3]
  {
    SumAppend([], 1);
    SumAppend([1], 0);
    SumAppend([1, 0], 1);
    SumAppend([1, 0, 1], 1);
    assert [1, 0, 1, 1][..1] == [1];
    assert [1, 0, 1, 1][..2] == [1, 0];
    assert [1, 0, 1, 1][..3] == [1, 0, 1];
    assert [1, 0, 1, 1][..4] == [1, 0, 1, 1];
  }
}
