/** `calculate_ap_map_range` in obj_det_metrics/ap_map.py: `calculate_ap_map` at each IoU
    threshold of a list, with the per-class APs and the mAPs averaged over the list. The
    thresholds are given as the list itself, the values `np.arange` would produce. */
module ApMapRange {
  import opened Wrappers
  import opened Variables
  import opened Validation
  import opened ApMap

  /** `outputs_dict` of `calculate_ap_map_range`: `mean_ap` and `mean_map`. */
  datatype RangeOutput = RangeOutput(meanAp: map<Label, real>, meanMap: real)

  /** `calculate_ap_map` at every threshold, in order; the first failure ends the loop. */
  function Runs(gt: RawDict, res: RawDict, thrs: seq<real>): (r: Result<seq<ApMapOutput>>)
    ensures r.Success? ==> |r.value| == |thrs|
  {
    Collect(Results(thrs, t => ApMapResult(gt, res, t)))
  }

  /** A successful run holds, at each position, the output at that threshold. */
  lemma RunsAt(gt: RawDict, res: RawDict, thrs: seq<real>)
    requires Runs(gt, res, thrs).Success?
    ensures forall k | 0 <= k < |thrs| :: ApMapResult(gt, res, thrs[k]) == Success(Runs(gt, res, thrs).value[k])
  {
    var rs := Results(thrs, t => ApMapResult(gt, res, t));
    CollectMeaning(rs);
    forall k | 0 <= k < |thrs| ensures ApMapResult(gt, res, thrs[k]) == Success(Runs(gt, res, thrs).value[k]) {
      ResultsAt(thrs, t => ApMapResult(gt, res, t), k);
    }
  }

  /** A failed run fails with the error of one of the thresholds. */
  lemma RunsFailure(gt: RawDict, res: RawDict, thrs: seq<real>)
    requires Runs(gt, res, thrs).Failure?
    ensures exists k | 0 <= k < |thrs| :: ApMapResult(gt, res, thrs[k]) == Failure(Runs(gt, res, thrs).error)
  {
    var rs := Results(thrs, t => ApMapResult(gt, res, t));
    CollectMeaning(rs);
    var k :| 0 <= k < |rs| && rs[k] == Failure(Collect(rs).error);
    ResultsAt(thrs, t => ApMapResult(gt, res, t), k);
  }

  /** Every output of a successful run has the ground-truth labels as its `ap` keys. */
  lemma RunsKeys(gt: RawDict, res: RawDict, thrs: seq<real>)
    requires Runs(gt, res, thrs).Success?
    ensures forall o | o in Runs(gt, res, thrs).value :: o.ap.Keys == LabelSet(gt.labels.value)
  {
    RunsAt(gt, res, thrs);
  }

  /** The totals of `mean_ap` with one run's APs added, class by class: a class of `acc`
      that the run has no AP for keeps its total. */
  function AddAps(acc: map<Label, real>, ap: map<Label, real>): (m: map<Label, real>)
    ensures m.Keys == acc.Keys
  {
    map c | c in acc :: if c in ap then acc[c] + ap[c] else acc[c]
  }

  /** Every class's total divided by the number of thresholds. */
  function ScaleAps(acc: map<Label, real>, n: nat): (m: map<Label, real>)
    requires n > 0
    ensures m.Keys == acc.Keys
  {
    map c | c in acc :: acc[c] / n as real
  }

  /** `mean_ap` after the runs `outs`: zeros for the classes, plus each run's APs. */
  function Totals(outs: seq<ApMapOutput>, classes: seq<Label>): (m: map<Label, real>)
    ensures m.Keys == LabelSet(classes)
  {
    if outs == [] then Zeros(classes)
    else
      var n := |outs| - 1;
      AddAps(Totals(outs[..n], classes), outs[n].ap)
  }

  /** The mAPs of the runs `outs`, in threshold order. */
  function MapsOf(outs: seq<ApMapOutput>): (s: seq<real>)
    ensures |s| == |outs|
  {
    seq(|outs|, k requires 0 <= k < |outs| => outs[k].mAP)
  }

  /** `mean_map` after the runs `outs`: the sum of their mAPs. */
  function SumMaps(outs: seq<ApMapOutput>): real {
    SumReals(MapsOf(outs))
  }

  /** The APs of class `c` in the runs `outs`, in threshold order. */
  function ApsOf(outs: seq<ApMapOutput>, c: Label): (s: seq<real>)
    requires forall o | o in outs :: c in o.ap
    ensures |s| == |outs|
  {
    seq(|outs|, k requires 0 <= k < |outs| => outs[k].ap[c])
  }

  /** `mean_ap` and `mean_map` of the runs `outs`: the totals divided by the number of
      runs. */
  function Means(outs: seq<ApMapOutput>, classes: seq<Label>): (r: RangeOutput)
    requires |outs| > 0
    ensures r.meanAp.Keys == LabelSet(classes)
  {
    RangeOutput(ScaleAps(Totals(outs, classes), |outs|), SumMaps(outs) / |outs| as real)
  }

  /** `calculate_ap_map_range` on a list of thresholds: validation, the runs, then the
      means. An empty list never binds a run's output, which the final loop then reads:
      NoThresholds. */
  function RangeResult(gt: RawDict, res: RawDict, thrs: seq<real>): (r: Result<RangeOutput>)
  {
    match CheckDicts(gt, res)
    case Failure(e) => Failure(e)
    case Success(res') =>
      if |thrs| == 0 then Failure(NoThresholds)
      else
        match Runs(gt, res', thrs)
        case Failure(e) => Failure(e)
        case Success(outs) => Success(Means(outs, Unique(gt.labels.value)))
  }

  lemma TotalsSnoc(outs: seq<ApMapOutput>, o: ApMapOutput, classes: seq<Label>)
    ensures Totals(outs + [o], classes) == AddAps(Totals(outs, classes), o.ap)
  {
    assert (outs + [o])[..|outs|] == outs;
  }

  lemma SumMapsSnoc(outs: seq<ApMapOutput>, o: ApMapOutput)
    ensures SumMaps(outs + [o]) == SumMaps(outs) + o.mAP
  {
    assert MapsOf(outs + [o]) == MapsOf(outs) + [o.mAP];
    SumRealsSnoc(MapsOf(outs), o.mAP);
  }

  /** The accumulated `mean_ap` of a class is the sum of its APs over the runs. */
  lemma {:induction false} TotalsAt(outs: seq<ApMapOutput>, classes: seq<Label>, c: Label)
    requires forall o | o in outs :: LabelSet(classes) <= o.ap.Keys
    requires c in classes
    ensures Totals(outs, classes)[c] == SumReals(ApsOf(outs, c))
    decreases |outs|
  {
    if outs != [] {
      var n := |outs| - 1;
      assert forall o | o in outs[..n] :: o in outs;
      TotalsAt(outs[..n], classes, c);
      assert ApsOf(outs, c)[..n] == ApsOf(outs[..n], c);
    }
  }

  /** Each class's `mean_ap` is the mean of its APs over the runs. */
  lemma MeansAt(outs: seq<ApMapOutput>, classes: seq<Label>, c: Label)
    requires |outs| > 0 && c in classes
    requires forall o | o in outs :: LabelSet(classes) <= o.ap.Keys
    ensures forall o | o in outs :: c in o.ap
    ensures Means(outs, classes).meanAp[c] == SumReals(ApsOf(outs, c)) / |outs| as real
  {
    TotalsAt(outs, classes, c);
  }

  /** The means of a single run are that run's APs and mAP. */
  lemma MeansOfOne(o: ApMapOutput, classes: seq<Label>)
    requires o.ap.Keys == LabelSet(classes)
    ensures Means([o], classes) == RangeOutput(o.ap, o.mAP)
  {
    assert [o][..0] == [];
    assert Totals([o], classes) == AddAps(Zeros(classes), o.ap);
    assert MapsOf([o]) == [] + [o.mAP];
    SumRealsSnoc([], o.mAP);
  }

  /** A successful range run validated its dicts, had thresholds, and returns the means of
      the runs over the ground-truth labels. */
  lemma RangeIsMeans(gt: RawDict, res: RawDict, thrs: seq<real>)
    requires RangeResult(gt, res, thrs).Success?
    ensures CheckDicts(gt, res).Success? && |thrs| > 0
    ensures Runs(gt, CheckDicts(gt, res).value, thrs).Success?
    ensures RangeResult(gt, res, thrs).value == Means(Runs(gt, CheckDicts(gt, res).value, thrs).value, Unique(gt.labels.value))
  {
  }

  /** The range output's `mean_ap` of each class is the mean of that class's APs over the
      thresholds, and `mean_map` the mean of the mAPs; its classes are the ground-truth
      labels. */
  lemma RangeMeans(gt: RawDict, res: RawDict, thrs: seq<real>)
    requires RangeResult(gt, res, thrs).Success?
    ensures CheckDicts(gt, res).Success? && |thrs| > 0
    ensures var outs := Runs(gt, CheckDicts(gt, res).value, thrs).value;
            var out := RangeResult(gt, res, thrs).value;
            && out.meanAp.Keys == LabelSet(gt.labels.value)
            && (forall c | c in out.meanAp ::
                  (forall o | o in outs :: c in o.ap) && out.meanAp[c] == SumReals(ApsOf(outs, c)) / |thrs| as real)
            && out.meanMap == SumMaps(outs) / |thrs| as real
  {
    RangeIsMeans(gt, res, thrs);
    var res' := CheckDicts(gt, res).value;
    var outs := Runs(gt, res', thrs).value;
    var classes := Unique(gt.labels.value);
    var out := RangeResult(gt, res, thrs).value;
    RunsKeys(gt, res', thrs);
    assert LabelSet(classes) == LabelSet(gt.labels.value);
    assert out.meanAp.Keys == LabelSet(classes);
    forall c | c in out.meanAp
      ensures (forall o | o in outs :: c in o.ap)
      ensures out.meanAp[c] == SumReals(ApsOf(outs, c)) / |thrs| as real
    {
      MeansAt(outs, classes, c);
    }
  }

  /** Validation, the runs, or the list's emptiness decide every failure: the range fails
      with NoThresholds exactly on an empty list of valid dicts, and otherwise with the
      error of validation or of one threshold's run. */
  lemma RangeFailure(gt: RawDict, res: RawDict, thrs: seq<real>)
    ensures RangeResult(gt, res, thrs) == Failure(NoThresholds) <==> CheckDicts(gt, res).Success? && |thrs| == 0
    ensures CheckDicts(gt, res).Success? && |thrs| > 0 && RangeResult(gt, res, thrs).Failure? ==>
              exists k | 0 <= k < |thrs| :: ApMapResult(gt, res, thrs[k]) == Failure(RangeResult(gt, res, thrs).error)
  {
    if CheckDicts(gt, res).Success? && |thrs| > 0 {
      var res' := CheckDicts(gt, res).value;
      if Runs(gt, res', thrs).Failure? {
        RunsFailure(gt, res', thrs);
        var k :| 0 <= k < |thrs| && ApMapResult(gt, res', thrs[k]) == Failure(Runs(gt, res', thrs).error);
        ApMapRevalidated(gt, res, thrs[k]);
      }
    }
  }

  /** Over a single threshold the range output is the plain output: the same APs and the
      same mAP, or the same failure. */
  lemma RangeOfOne(gt: RawDict, res: RawDict, t: real)
    ensures match ApMapResult(gt, res, t)
            case Failure(e) => RangeResult(gt, res, [t]) == Failure(e)
            case Success(o) => RangeResult(gt, res, [t]) == Success(RangeOutput(o.ap, o.mAP))
  {
    if CheckDicts(gt, res).Success? {
      var res' := CheckDicts(gt, res).value;
      ApMapRevalidated(gt, res, t);
      CollectOne(t, u => ApMapResult(gt, res', u));
      if ApMapResult(gt, res, t).Success? {
        var o := ApMapResult(gt, res, t).value;
        var classes := Unique(gt.labels.value);
        assert LabelSet(classes) == LabelSet(gt.labels.value);
        MeansOfOne(o, classes);
      }
    }
  }

  /** Whatever the thresholds, every mean AP of the range output, and the mean mAP, lie
      in [0, 1]. */
  lemma RangeInUnitInterval(gt: RawDict, res: RawDict, thrs: seq<real>)
    requires RangeResult(gt, res, thrs).Success?
    ensures forall c | c in RangeResult(gt, res, thrs).value.meanAp ::
              0.0 <= RangeResult(gt, res, thrs).value.meanAp[c] <= 1.0
    ensures 0.0 <= RangeResult(gt, res, thrs).value.meanMap <= 1.0
  {
    RangeMeans(gt, res, thrs);
    var res' := CheckDicts(gt, res).value;
    var outs := Runs(gt, res', thrs).value;
    var out := RangeResult(gt, res, thrs).value;
    RunsAt(gt, res', thrs);
    forall k | 0 <= k < |outs|
      ensures forall c | c in outs[k].ap :: 0.0 <= outs[k].ap[c] <= 1.0
      ensures 0.0 <= outs[k].mAP <= 1.0
    {
      ApMapInUnitInterval(gt, res', thrs[k]);
    }
    forall c | c in out.meanAp ensures 0.0 <= out.meanAp[c] <= 1.0 {
      var s := ApsOf(outs, c);
      forall k | 0 <= k < |s| ensures 0.0 <= s[k] <= 1.0 {
        assert outs[k] in outs;
      }
      SumRealsBounds(s);
      QuotientInUnitInterval(SumReals(s), |thrs| as real);
    }
    SumRealsBounds(MapsOf(outs));
    QuotientInUnitInterval(SumMaps(outs), |thrs| as real);
  }

  /** Running `calculate_ap_map` on the dicts the validation handed back is running it on
      the original dicts: validation passes again and changes nothing. */
  lemma ApMapRevalidated(gt: RawDict, res: RawDict, t: real)
    requires CheckDicts(gt, res).Success?
    ensures ApMapResult(gt, CheckDicts(gt, res).value, t) == ApMapResult(gt, res, t)
  {
    CheckDictsIdempotent(gt, res);
  }

  /** The loop that adds each AP of one run to its class's running total in `mean_ap`. It
      goes over the range's classes, which are the run's `ap` keys. */
  method AccumulateAps(acc: map<Label, real>, classes: seq<Label>, ap: map<Label, real>)
    returns (total: map<Label, real>)
    requires forall i, j | 0 <= i < j < |classes| :: classes[i] != classes[j]
    requires acc.Keys == LabelSet(classes) && ap.Keys == acc.Keys
    ensures total == AddAps(acc, ap)
  {
    total := acc;
    ghost var done: set<Label> := {};
    var i := 0;
    assert classes[..0] == [];
    while i < |classes|
      invariant 0 <= i <= |classes|
      invariant done == LabelSet(classes[..i])
      invariant total.Keys == acc.Keys
      invariant forall c | c in total :: total[c] == if c in done then acc[c] + ap[c] else acc[c]
    {
      var c := classes[i];
      NextUnseen(classes, i);
      total := total[c := total[c] + ap[c]];
      done := done + {c};
      i := i + 1;
    }
    assert classes[..i] == classes;
    forall c | c in total ensures total[c] == AddAps(acc, ap)[c] {
      assert c in done && c in ap;
    }
  }

  /** The final loop that divides each class's total in `mean_ap` by the number of
      thresholds. It goes over the range's classes, which are the last run's `ap` keys. */
  method DivideAps(acc: map<Label, real>, classes: seq<Label>, n: nat) returns (scaled: map<Label, real>)
    requires n > 0
    requires forall i, j | 0 <= i < j < |classes| :: classes[i] != classes[j]
    requires acc.Keys == LabelSet(classes)
    ensures scaled == ScaleAps(acc, n)
  {
    scaled := acc;
    ghost var done: set<Label> := {};
    var i := 0;
    assert classes[..0] == [];
    while i < |classes|
      invariant 0 <= i <= |classes|
      invariant done == LabelSet(classes[..i])
      invariant scaled.Keys == acc.Keys
      invariant forall c | c in scaled :: scaled[c] == if c in done then acc[c] / n as real else acc[c]
    {
      var c := classes[i];
      NextUnseen(classes, i);
      scaled := scaled[c := scaled[c] / n as real];
      done := done + {c};
      i := i + 1;
    }
    assert classes[..i] == classes;
  }

  /** Walking distinct classes in order, the next class is one not yet visited. */
  lemma NextUnseen(classes: seq<Label>, i: nat)
    requires forall i, j | 0 <= i < j < |classes| :: classes[i] != classes[j]
    requires i < |classes|
    ensures classes[i] in LabelSet(classes) && classes[i] !in LabelSet(classes[..i])
    ensures LabelSet(classes[..i + 1]) == LabelSet(classes[..i]) + {classes[i]}
  {
    assert classes[..i + 1] == classes[..i] + [classes[i]];
    LabelSetSnoc(classes[..i], classes[i]);
  }

  /** `runs` holds the output of `calculate_ap_map` at each threshold, position by
      position. */
  predicate RunsMatch(runs: seq<Result<ApMapOutput>>, thrs: seq<real>, gt: RawDict, res: RawDict) {
    && |runs| == |thrs|
    && forall k {:trigger ApMapResult(gt, res, thrs[k])} | 0 <= k < |thrs| :: runs[k] == ApMapResult(gt, res, thrs[k])
  }

  lemma ResultsRunsMatch(thrs: seq<real>, gt: RawDict, res: RawDict)
    ensures RunsMatch(Results(thrs, t => ApMapResult(gt, res, t)), thrs, gt, res)
  {
    forall k | 0 <= k < |thrs|
      ensures Results(thrs, t => ApMapResult(gt, res, t))[k] == ApMapResult(gt, res, thrs[k])
    {
      ResultsAt(thrs, t => ApMapResult(gt, res, t), k);
    }
  }

  /** The threshold loop of `calculate_ap_map_range`: `calculate_ap_map` at each threshold,
      its APs added to `mean_ap` class by class and its mAP to `mean_map`. The sums are the
      totals of the runs. */
  method ThresholdLoop(gt: RawDict, res: RawDict, classes: seq<Label>, thrs: seq<real>)
    returns (r: Result<(map<Label, real>, real)>)
    requires forall i, j | 0 <= i < j < |classes| :: classes[i] != classes[j]
    requires gt.labels.Some? && LabelSet(classes) == LabelSet(gt.labels.value)
    ensures Runs(gt, res, thrs).Failure? ==> r == Failure(Runs(gt, res, thrs).error)
    ensures Runs(gt, res, thrs).Success? ==>
              r == Success((Totals(Runs(gt, res, thrs).value, classes), SumMaps(Runs(gt, res, thrs).value)))
  {
    ghost var runs := Results(thrs, t => ApMapResult(gt, res, t));
    ResultsRunsMatch(thrs, gt, res);
    var meanAp := Zeros(classes);
    var meanMap := 0.0;
    ghost var outs: seq<ApMapOutput> := [];
    var k := 0;
    assert runs[..0] == [];
    while k < |thrs|
      invariant 0 <= k <= |thrs|
      invariant Collect(runs[..k]) == Success(outs)
      invariant meanAp.Keys == LabelSet(classes)
      invariant meanAp == Totals(outs, classes)
      invariant meanMap == SumMaps(outs)
    {
      var out := CalculateApMap(gt, res, thrs[k]);
      assert out == runs[k];
      CollectSnoc(runs, k, outs);
      if out.Failure? {
        CollectPrefixFailure(runs, k + 1);
        return Failure(out.error);
      }
      meanAp := AccumulateAps(meanAp, classes, out.value.ap);
      meanMap := meanMap + out.value.mAP;
      TotalsSnoc(outs, out.value, classes);
      SumMapsSnoc(outs, out.value);
      outs := outs + [out.value];
      k := k + 1;
    }
    assert runs[..k] == runs;
    r := Success((meanAp, meanMap));
  }

  /** `calculate_ap_map_range`: validation, the threshold loop, then the division by the
      number of thresholds. */
  method CalculateApMapRange(gt: RawDict, res: RawDict, thrs: seq<real>) returns (r: Result<RangeOutput>)
    ensures r == RangeResult(gt, res, thrs)
  {
    var checked := CheckDicts(gt, res);
    if checked.Failure? {
      return Failure(checked.error);
    }
    var res' := checked.value;
    var classes := Unique(gt.labels.value);
    var sums := ThresholdLoop(gt, res', classes, thrs);
    if sums.Failure? {
      return Failure(sums.error);
    }
    if |thrs| == 0 {
      return Failure(NoThresholds);
    }
    var meanAp := DivideAps(sums.value.0, classes, |thrs|);
    r := Success(RangeOutput(meanAp, sums.value.1 / |thrs| as real));
  }
}
