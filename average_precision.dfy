/** VOC interpolated average precision (`_voc_ap` in obj_det_metrics/ap_map.py), which
    reproduces the VOCap routine of the PASCAL VOC 2012 development kit: pad the curve,
    take the backward-maximum precision envelope, and add up recall increase times
    envelope precision at each index where the recall changes. */
module AveragePrecision {

  function MaxReal(a: real, b: real): real { if a >= b then a else b }

  /** Largest element of a non-empty sequence. */
  function MaxOf(s: seq<real>): (m: real)
    requires |s| > 0
    ensures forall i :: 0 <= i < |s| ==> s[i] <= m
    ensures exists i :: 0 <= i < |s| && s[i] == m
    decreases |s|
  {
    if |s| == 1 then s[0]
    else
      var rest := MaxOf(s[1..]);
      assert forall i :: 1 <= i < |s| ==> s[i] == s[1..][i - 1];
      MaxReal(s[0], rest)
  }

  /** The maximum of a suffix is the larger of its first element and the maximum of the rest. */
  lemma MaxOfSuffix(s: seq<real>, i: nat)
    requires i + 1 < |s|
    ensures MaxOf(s[i..]) == MaxReal(s[i], MaxOf(s[i + 1..]))
  {
    assert s[i..][1..] == s[i + 1..];
  }

  /** The curve padded as VOCap does: a value in front and one at the end. */
  function Pad(s: seq<real>, first: real, last: real): seq<real> {
    [first] + s + [last]
  }

  /** The precision envelope: each point raised to the largest precision at or after it. */
  function Envelope(p: seq<real>): seq<real> {
    seq(|p|, i requires 0 <= i < |p| => MaxOf(p[i..]))
  }

  /** The rectangle at index t: recall increase times precision. */
  function Term(mrec: seq<real>, mpre: seq<real>, t: nat): real
    requires 1 <= t < |mrec| && t < |mpre|
  {
    (mrec[t] - mrec[t - 1]) * mpre[t]
  }

  /** The area of the step curve over indices 1 .. n-1: recall increase times precision,
      counted only where the recall changes. */
  function StepArea(mrec: seq<real>, mpre: seq<real>, n: nat): real
    requires n <= |mrec| && n <= |mpre|
  {
    if n <= 1 then 0.0
    else StepArea(mrec, mpre, n - 1)
         + (if mrec[n - 1] != mrec[n - 2] then Term(mrec, mpre, n - 1) else 0.0)
  }

  /** The average precision of a recall/precision curve. */
  function ApValue(rec: seq<real>, prec: seq<real>): real
    requires |rec| == |prec|
  {
    var mrec, mpre := Pad(rec, 0.0, 1.0), Envelope(Pad(prec, 0.0, 0.0));
    StepArea(mrec, mpre, |mrec|)
  }

  /** The indices 1 .. n-1 at which the recall differs from the one before. */
  function Transitions(mrec: seq<real>, n: nat): (r: seq<nat>)
    requires n <= |mrec|
    ensures forall k :: 0 <= k < |r| ==> 1 <= r[k] < n
  {
    if n <= 1 then []
    else Transitions(mrec, n - 1) + (if mrec[n - 1] != mrec[n - 2] then [n - 1] else [])
  }

  /** The contributions at the listed indices. */
  function SumAt(idx: seq<nat>, mrec: seq<real>, mpre: seq<real>): real
    requires |mrec| == |mpre|
    requires forall k :: 0 <= k < |idx| ==> 1 <= idx[k] < |mrec|
  {
    if idx == [] then 0.0
    else
      var t := idx[|idx| - 1];
      SumAt(idx[..|idx| - 1], mrec, mpre) + Term(mrec, mpre, t)
  }

  lemma {:induction false} SumAtAppend(a: seq<nat>, b: seq<nat>, mrec: seq<real>, mpre: seq<real>)
    requires |mrec| == |mpre|
    requires forall k :: 0 <= k < |a| ==> 1 <= a[k] < |mrec|
    requires forall k :: 0 <= k < |b| ==> 1 <= b[k] < |mrec|
    ensures SumAt(a + b, mrec, mpre) == SumAt(a, mrec, mpre) + SumAt(b, mrec, mpre)
    decreases |b|
  {
    if b != [] {
      var b0 := b[..|b| - 1];
      assert (a + b)[..|a + b| - 1] == a + b0;
      assert (a + b)[|a + b| - 1] == b[|b| - 1];
      SumAtAppend(a, b0, mrec, mpre);
    } else {
      assert a + b == a;
    }
  }

  /** Summing over the transition list is the step area. */
  lemma {:induction false} SumAtTransitions(mrec: seq<real>, mpre: seq<real>, n: nat)
    requires |mrec| == |mpre| && n <= |mrec|
    ensures SumAt(Transitions(mrec, n), mrec, mpre) == StepArea(mrec, mpre, n)
  {
    if n > 1 {
      SumAtTransitions(mrec, mpre, n - 1);
      var tail: seq<nat> := if mrec[n - 1] != mrec[n - 2] then [n - 1] else [];
      SumAtAppend(Transitions(mrec, n - 1), tail, mrec, mpre);
      if tail != [] {
        assert tail[..0] == [];
      }
    }
  }

  /** The backward pass of `_voc_ap`: for i from the second-to-last index down to 0,
      a[i] becomes max(a[i], a[i + 1]). */
  method BackwardMax(a: array<real>)
    modifies a
    ensures a[..] == Envelope(old(a[..]))
  {
    ghost var padded := a[..];
    if a.Length > 0 {
      assert padded[a.Length - 1..] == [padded[a.Length - 1]];
    }
    var i := a.Length - 2;
    while i >= 0
      invariant -2 <= i <= a.Length - 2
      invariant a.Length > 0 ==> -1 <= i
      invariant forall k :: 0 <= k < a.Length && i < k ==> a[k] == MaxOf(padded[k..])
      invariant forall k :: 0 <= k <= i ==> a[k] == padded[k]
    {
      MaxOfSuffix(padded, i);
      a[i] := MaxReal(a[i], a[i + 1]);
      i := i - 1;
    }
  }

  /** `_voc_ap`: returns the AP with the padded recall and the precision envelope. */
  method VocAp(rec: seq<real>, prec: seq<real>) returns (ap: real, mrec: seq<real>, mpre: seq<real>)
    requires |rec| == |prec|
    ensures mrec == Pad(rec, 0.0, 1.0) && |mrec| == |rec| + 2
    ensures mpre == Envelope(Pad(prec, 0.0, 0.0)) && |mpre| == |prec| + 2
    ensures ap == StepArea(mrec, mpre, |mrec|) == ApValue(rec, prec)
  {
    mrec := [0.0] + rec + [1.0];
    var padded := [0.0] + prec + [0.0];
    var a := new real[|padded|](i requires 0 <= i < |padded| => padded[i]);
    assert a[..] == padded;
    BackwardMax(a);
    mpre := a[..];
    // the indices where the recall changes
    var iList: seq<nat> := [];
    var j := 1;
    while j < |mrec|
      invariant 1 <= j <= |mrec|
      invariant iList == Transitions(mrec, j)
    {
      if mrec[j] != mrec[j - 1] {
        iList := iList + [j];
      }
      j := j + 1;
    }
    // the area
    ap := 0.0;
    var k := 0;
    while k < |iList|
      invariant 0 <= k <= |iList|
      invariant ap == SumAt(iList[..k], mrec, mpre)
    {
      var t := iList[k];
      assert iList[..k + 1][..k] == iList[..k];
      ap := ap + Term(mrec, mpre, t);
      k := k + 1;
    }
    assert iList[..k] == iList;
    SumAtTransitions(mrec, mpre, |mrec|);
  }

  /** The envelope never lies below the curve and never increases. */
  lemma EnvelopeIsNonIncreasingUpperBound(p: seq<real>)
    ensures |Envelope(p)| == |p|
    ensures forall i :: 0 <= i < |p| ==> p[i] <= Envelope(p)[i]
    ensures forall i, j :: 0 <= i <= j < |p| ==> Envelope(p)[j] <= Envelope(p)[i]
  {
    var e := Envelope(p);
    forall i | 0 <= i < |p| ensures p[i] <= e[i] {
      assert p[i..][0] == p[i];
    }
    forall i, j | 0 <= i <= j < |p| ensures e[j] <= e[i] {
      var k :| 0 <= k < |p[j..]| && p[j..][k] == e[j];
      assert p[i..][j - i + k] == p[j..][k];
    }
  }

  /** Each envelope value is the largest precision at or after its index. */
  lemma EnvelopeIsSuffixMaximum(p: seq<real>, i: nat)
    requires i < |p|
    ensures forall j :: i <= j < |p| ==> p[j] <= Envelope(p)[i]
    ensures exists j :: i <= j < |p| && p[j] == Envelope(p)[i]
  {
    forall j | i <= j < |p| ensures p[j] <= Envelope(p)[i] {
      assert p[i..][j - i] == p[j];
    }
    var k :| 0 <= k < |p[i..]| && p[i..][k] == Envelope(p)[i];
    assert p[i + k] == p[i..][k];
  }

  /** Taking the envelope of an envelope changes nothing. */
  lemma EnvelopeIdempotent(p: seq<real>)
    ensures Envelope(Envelope(p)) == Envelope(p)
  {
    var e := Envelope(p);
    EnvelopeIsNonIncreasingUpperBound(p);
    forall i | 0 <= i < |e| ensures Envelope(e)[i] == e[i] {
      var k :| 0 <= k < |e[i..]| && e[i..][k] == Envelope(e)[i];
      assert e[i..][0] == e[i];
      assert e[i..][k] == e[i + k];
    }
  }

  /** The padded curves and the sum over recall changes, which sees repeated recalls as 0. */
  lemma {:induction false} StepAreaIgnoresRepeatedRecall(mrec: seq<real>, mpre: seq<real>, n: nat)
    requires n <= |mrec| && n <= |mpre|
    ensures StepArea(mrec, mpre, n) == StepSum(mrec, mpre, n)
  {
    if n > 1 {
      StepAreaIgnoresRepeatedRecall(mrec, mpre, n - 1);
    }
  }

  /** The same area with every index counted, whether the recall changes there or not. */
  function StepSum(mrec: seq<real>, mpre: seq<real>, n: nat): real
    requires n <= |mrec| && n <= |mpre|
  {
    if n <= 1 then 0.0
    else StepSum(mrec, mpre, n - 1) + Term(mrec, mpre, n - 1)
  }

  /** An empty curve has AP 0. */
  lemma ApOfEmptyCurve()
    ensures ApValue([], []) == 0.0
  {
    var p := Pad([], 0.0, 0.0);
    assert p == [0.0, 0.0] && p[1..] == [0.0];
    var mpre := Envelope(p);
    var mrec := Pad([], 0.0, 1.0);
    assert mrec == [0.0, 1.0];
    assert mpre[1] == MaxOf([0.0]) == 0.0;
    assert Term(mrec, mpre, 1) == 0.0;
    assert StepArea(mrec, mpre, 2) == StepArea(mrec, mpre, 1) + Term(mrec, mpre, 1);
  }

  lemma {:induction false} StepAreaZeroPrecision(mrec: seq<real>, mpre: seq<real>, n: nat)
    requires n <= |mrec| && n <= |mpre|
    requires forall i :: 0 <= i < n ==> mpre[i] == 0.0
    ensures StepArea(mrec, mpre, n) == 0.0
  {
    if n > 1 {
      StepAreaZeroPrecision(mrec, mpre, n - 1);
    }
  }

  lemma EnvelopeOfConstant(p: seq<real>, c: real)
    requires forall i :: 0 <= i < |p| ==> p[i] == c
    ensures forall i :: 0 <= i < |p| ==> Envelope(p)[i] == c
  {
    forall i | 0 <= i < |p| ensures Envelope(p)[i] == c {
      EnvelopeIsSuffixMaximum(p, i);
    }
  }

  /** A curve whose precision is 0 everywhere has AP 0. */
  lemma ApOfZeroPrecision(rec: seq<real>, prec: seq<real>)
    requires |rec| == |prec|
    requires forall i :: 0 <= i < |prec| ==> prec[i] == 0.0
    ensures ApValue(rec, prec) == 0.0
  {
    var padded := Pad(prec, 0.0, 0.0);
    assert forall i :: 0 <= i < |padded| ==> padded[i] == 0.0;
    EnvelopeOfConstant(padded, 0.0);
    StepAreaZeroPrecision(Pad(rec, 0.0, 1.0), Envelope(padded), |rec| + 2);
  }

  lemma {:induction false} StepAreaFlatRecall(mrec: seq<real>, mpre: seq<real>, n: nat)
    requires n <= |mrec| && n <= |mpre|
    requires forall i :: 0 <= i < n ==> mrec[i] == mrec[0]
    ensures StepArea(mrec, mpre, n) == 0.0
  {
    if n > 1 {
      StepAreaFlatRecall(mrec, mpre, n - 1);
    }
  }

  /** A curve whose recall is 0 everywhere has AP 0: the only recall change is the final
      step to the padding 1.0, where the envelope is the padding 0.0. */
  lemma ApOfZeroRecall(rec: seq<real>, prec: seq<real>)
    requires |rec| == |prec|
    requires forall i :: 0 <= i < |rec| ==> rec[i] == 0.0
    ensures ApValue(rec, prec) == 0.0
  {
    var mrec, mpre := Pad(rec, 0.0, 1.0), Envelope(Pad(prec, 0.0, 0.0));
    var n := |mrec|;
    StepAreaFlatRecall(mrec, mpre, n - 1);
    assert mpre[n - 1] == MaxOf([0.0]) by {
      assert Pad(prec, 0.0, 0.0)[n - 1..] == [0.0];
    }
  }

  lemma {:induction false} StepAreaTelescopes(mrec: seq<real>, mpre: seq<real>, n: nat)
    requires 1 <= n <= |mrec| && n <= |mpre|
    requires forall i :: 1 <= i < n ==> mpre[i] == 1.0
    ensures StepArea(mrec, mpre, n) == mrec[n - 1] - mrec[0]
  {
    if n > 1 {
      StepAreaTelescopes(mrec, mpre, n - 1);
    }
  }

  /** A perfect detector: precision 1.0 at every rank and recall ending at 1.0 give AP 1. */
  lemma ApOfPerfectCurve(rec: seq<real>, prec: seq<real>)
    requires |rec| == |prec| && |rec| > 0
    requires rec[|rec| - 1] == 1.0
    requires forall i :: 0 <= i < |prec| ==> prec[i] == 1.0
    ensures ApValue(rec, prec) == 1.0
  {
    var padded := Pad(prec, 0.0, 0.0);
    var mrec, mpre := Pad(rec, 0.0, 1.0), Envelope(padded);
    var n := |mrec|;
    forall i | 1 <= i < n - 1 ensures mpre[i] == 1.0 {
      EnvelopeIsSuffixMaximum(padded, i);
      assert padded[i] == 1.0;
    }
    StepAreaTelescopes(mrec, mpre, n - 1);
  }

  ghost predicate NonDecreasing(s: seq<real>) {
    forall i, j :: 0 <= i <= j < |s| ==> s[i] <= s[j]
  }

  lemma {:induction false} StepAreaBounds(mrec: seq<real>, mpre: seq<real>, n: nat)
    requires 1 <= n <= |mrec| && n <= |mpre|
    requires forall i :: 1 <= i < |mrec| ==> mrec[i - 1] <= mrec[i]
    requires forall i :: 0 <= i < |mpre| ==> 0.0 <= mpre[i] <= 1.0
    ensures 0.0 <= StepArea(mrec, mpre, n) <= mrec[n - 1] - mrec[0]
  {
    if n > 1 {
      StepAreaBounds(mrec, mpre, n - 1);
      ScaledStep(mrec[n - 1] - mrec[n - 2], mpre[n - 1]);
      assert 0.0 <= Term(mrec, mpre, n - 1) <= mrec[n - 1] - mrec[n - 2];
    }
  }

  lemma ScaledStep(d: real, p: real)
    requires 0.0 <= d && 0.0 <= p <= 1.0
    ensures 0.0 <= d * p <= d
  {
    assert d * p <= d * 1.0;
  }

  /** A curve with non-decreasing recall and all values in [0, 1] has an AP in [0, 1]. */
  lemma ApInUnitInterval(rec: seq<real>, prec: seq<real>)
    requires |rec| == |prec|
    requires NonDecreasing(rec)
    requires forall i :: 0 <= i < |rec| ==> 0.0 <= rec[i] <= 1.0
    requires forall i :: 0 <= i < |prec| ==> 0.0 <= prec[i] <= 1.0
    ensures 0.0 <= ApValue(rec, prec) <= 1.0
  {
    var padded := Pad(prec, 0.0, 0.0);
    var mrec, mpre := Pad(rec, 0.0, 1.0), Envelope(padded);
    forall i | 0 <= i < |mpre| ensures 0.0 <= mpre[i] <= 1.0 {
      EnvelopeIsSuffixMaximum(padded, i);
    }
    forall i | 1 <= i < |mrec| ensures mrec[i - 1] <= mrec[i] {
      if 1 < i < |mrec| - 1 {
        assert mrec[i - 1] == rec[i - 2] && mrec[i] == rec[i - 1];
      }
    }
    StepAreaBounds(mrec, mpre, |mrec|);
  }
}
