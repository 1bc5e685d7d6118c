/** The scoring entry points of obj_det_metrics/ap_map.py: `calculate_ap_map` (per-class
    AP and their mean at one IoU threshold) and `calculate_ap_map_range` (their averages over
    a list of thresholds). Both take a single ground-truth dict and a single result dict,
    which is the one-file case of the per-file grouping: every box belongs to `Image`. */
module ApMap {
  import opened Wrappers
  import opened Variables
  import opened Cumsum
  import opened Sorting
  import opened AveragePrecision
  import opened Matching
  import opened Grouping
  import opened Validation

  /** The file id every box of a single-dict input carries. */
  const Image: FileId := "image"

  function GtFile(gt: RawDict): (f: FileRecord)
    requires HasKeys(gt) && |gt.boxes.value| == |gt.labels.value|
    ensures GtShaped(f)
  {
    FileRecord(Image, gt.boxes.value, gt.labels.value, [])
  }

  function DtFile(res: RawDict): (f: FileRecord)
    requires HasKeys(res) && res.scores.Some?
    requires |res.boxes.value| == |res.labels.value| == |res.scores.value|
    ensures DtShaped(f)
  {
    FileRecord(Image, res.boxes.value, res.labels.value, res.scores.value)
  }

  /** The distinct labels, in order of first occurrence; they stand for the Python set of
      ground-truth labels, whose iteration order the results do not depend on. */
  function Unique(ls: seq<Label>): (u: seq<Label>)
    ensures forall c :: c in u <==> c in ls
    ensures forall i, j | 0 <= i < j < |u| :: u[i] != u[j]
  {
    if ls == [] then []
    else
      var init := ls[..|ls| - 1];
      assert forall c :: c in init ==> c in ls;
      var u := Unique(init);
      if ls[|ls| - 1] in u then u else u + [ls[|ls| - 1]]
  }

  /** Recall after each detection: cumulative true positives over the class's
      ground-truth count. */
  function Recall(tpc: seq<int>, count: nat): (r: seq<real>)
    requires count > 0 || |tpc| == 0
    ensures |r| == |tpc| && forall i | 0 <= i < |tpc| :: r[i] * count as real == tpc[i] as real
  {
    seq(|tpc|, i requires 0 <= i < |tpc| => tpc[i] as real / count as real)
  }

  /** Precision after each detection: cumulative true positives over cumulative
      detections. */
  function Precision(tpc: seq<int>, fpc: seq<int>): (r: seq<real>)
    requires |tpc| == |fpc| && forall i | 0 <= i < |tpc| :: tpc[i] + fpc[i] != 0
    ensures |r| == |tpc| && forall i | 0 <= i < |tpc| :: r[i] * (tpc[i] + fpc[i]) as real == tpc[i] as real
  {
    seq(|tpc|, i requires 0 <= i < |tpc| => tpc[i] as real / (tpc[i] + fpc[i]) as real)
  }

  /** Each detection is exactly one of a true and a false positive. */
  predicate Exclusive(tp: seq<int>, fp: seq<int>) {
    |tp| == |fp| && forall i | 0 <= i < |tp| :: tp[i] + fp[i] == 1
  }

  /** The AP of a class from its per-detection flags: cumulative counts, then recall and
      precision, then the VOC area. */
  function ApOfFlags(tp: seq<int>, fp: seq<int>, count: nat): real
    requires Exclusive(tp, fp) && (count > 0 || |tp| == 0)
  {
    PrefixSumsComplement(tp, fp);
    var tpc := PrefixSums(tp);
    var fpc := PrefixSums(fp);
    ApValue(Recall(tpc, count), Precision(tpc, fpc))
  }

  /** The precision after the i-th detection is the share of true positives among the
      first i + 1 detections. */
  lemma PrecisionIsHitRate(tp: seq<int>, fp: seq<int>)
    requires Exclusive(tp, fp)
    ensures forall i | 0 <= i < |tp| :: PrefixSums(tp)[i] + PrefixSums(fp)[i] == i + 1
    ensures forall i | 0 <= i < |tp| ::
              Precision(PrefixSums(tp), PrefixSums(fp))[i] * (i + 1) as real == Sum(tp[..i + 1]) as real
  {
    PrefixSumsComplement(tp, fp);
  }

  /** The AP of one ground-truth class at threshold `thr`: its detections sorted by score,
      the TP/FP pass over them with every ground-truth box free, and the area under the
      resulting curve. */
  function ClassAp(gtRecs: seq<BoxRecord>, dtRecs: seq<BoxRecord>, c: Label, thr: real): Result<real> {
    var dets := SortDesc(OfClass(dtRecs, c), Score);
    var count := |OfClass(gtRecs, c)|;
    match TpFp(dets, Group(gtRecs), c, thr, {})
    case Failure(e) => Failure(e)
    case Success(f) =>
      TpFpFlagsEach(dets, Group(gtRecs), c, thr, {});
      if count == 0 && |dets| > 0 then Failure(NoGroundTruth)
      else Success(ApOfFlags(f.tp, f.fp, count))
  }

  /** The per-class results, in class order. */
  function ClassResults(classes: seq<Label>, gtRecs: seq<BoxRecord>, dtRecs: seq<BoxRecord>, thr: real): (rs: seq<Result<real>>)
    ensures |rs| == |classes|
  {
    Results(classes, c => ClassAp(gtRecs, dtRecs, c, thr))
  }

  /** `results` holds the result of each class of `classes`, position by position. */
  predicate ResultsMatch(results: seq<Result<real>>, classes: seq<Label>, gtRecs: seq<BoxRecord>, dtRecs: seq<BoxRecord>, thr: real) {
    && |results| == |classes|
    && forall i {:trigger ClassAp(gtRecs, dtRecs, classes[i], thr)} | 0 <= i < |classes| ::
         results[i] == ClassAp(gtRecs, dtRecs, classes[i], thr)
  }

  lemma ClassResultsMatch(classes: seq<Label>, gtRecs: seq<BoxRecord>, dtRecs: seq<BoxRecord>, thr: real)
    ensures ResultsMatch(ClassResults(classes, gtRecs, dtRecs, thr), classes, gtRecs, dtRecs, thr)
  {
    forall i | 0 <= i < |classes|
      ensures ClassResults(classes, gtRecs, dtRecs, thr)[i] == ClassAp(gtRecs, dtRecs, classes[i], thr)
    {
      ResultsAt(classes, c => ClassAp(gtRecs, dtRecs, c, thr), i);
    }
  }

  /** The APs of the classes, in order; the first failure ends the run. */
  function ClassAps(classes: seq<Label>, gtRecs: seq<BoxRecord>, dtRecs: seq<BoxRecord>, thr: real): (r: Result<seq<real>>)
    ensures r.Success? ==> |r.value| == |classes|
  {
    Collect(ClassResults(classes, gtRecs, dtRecs, thr))
  }

  function SumReals(s: seq<real>): real {
    if s == [] then 0.0 else SumReals(s[..|s| - 1]) + s[|s| - 1]
  }

  /** `base` with each class in turn set to the value at its position; a later position
      wins. */
  function Overwrite(base: map<Label, real>, classes: seq<Label>, values: seq<real>): map<Label, real>
    requires |values| == |classes|
  {
    if classes == [] then base
    else
      var n := |classes| - 1;
      Overwrite(base, classes[..n], values[..n])[classes[n] := values[n]]
  }

  lemma {:induction false} OverwriteKeys(base: map<Label, real>, classes: seq<Label>, values: seq<real>)
    requires |values| == |classes|
    ensures Overwrite(base, classes, values).Keys == base.Keys + LabelSet(classes)
    decreases |classes|
  {
    if classes != [] {
      var n := |classes| - 1;
      OverwriteKeys(base, classes[..n], values[..n]);
      assert forall c :: c in classes <==> c in classes[..n] || c == classes[n];
    }
  }

  /** Setting one more class is one more map update. */
  lemma OverwriteSnoc(base: map<Label, real>, classes: seq<Label>, i: nat, values: seq<real>, v: real)
    requires i < |classes| && |values| == i
    ensures Overwrite(base, classes[..i + 1], values + [v]) == Overwrite(base, classes[..i], values)[classes[i] := v]
  {
    assert classes[..i + 1][..i] == classes[..i];
    assert (values + [v])[..i] == values;
  }

  /** Every class sent to 0.0: how the output dicts start out. */
  function Zeros(classes: seq<Label>): (m: map<Label, real>)
    ensures m.Keys == LabelSet(classes)
  {
    map c | c in classes :: 0.0
  }

  /** The map sending each class to the value at its position: the `ap` entry of the
      output. */
  function Zip(classes: seq<Label>, values: seq<real>): (m: map<Label, real>)
    requires |values| == |classes|
    ensures m.Keys == LabelSet(classes)
  {
    OverwriteKeys(map[], classes, values);
    Overwrite(map[], classes, values)
  }

  /** `outputs_dict` of `calculate_ap_map`. */
  datatype ApMapOutput = ApMapOutput(ap: map<Label, real>, mAP: real)

  /** A label of the ground truth has a box of that class. */
  lemma GtClassesOccur(gt: RawDict)
    requires HasKeys(gt) && |gt.boxes.value| == |gt.labels.value|
    ensures forall c | c in gt.labels.value :: |OfClass(GtRecords(GtFile(gt)), c)| > 0
  {
    var recs := GtRecords(GtFile(gt));
    forall c | c in gt.labels.value ensures |OfClass(recs, c)| > 0 {
      var i :| 0 <= i < |gt.labels.value| && gt.labels.value[i] == c;
      OfClassKeeps(recs, recs[i], c);
    }
  }

  /** `calculate_ap_map` once validation has passed: the AP of every ground-truth class
      and their mean. Its `ap` keys are exactly the ground-truth labels; with none, the mean
      divides by zero. */
  function ApMapOf(gt: RawDict, res: RawDict, thr: real): (r: Result<ApMapOutput>)
    requires Validated(gt, res)
    ensures r.Success? ==> r.value.ap.Keys == LabelSet(gt.labels.value)
    ensures r == Failure(NoClasses) <==> |gt.labels.value| == 0
    ensures r.Failure? ==> r.error == ZeroUnion || r.error == NoClasses
  {
    var gtRecs := GtRecords(GtFile(gt));
    var dtRecs := DtRecords(DtFile(res));
    var classes := Unique(gt.labels.value);
    GtClassesOccur(gt);
    match ClassAps(classes, gtRecs, dtRecs, thr)
    case Failure(e) => ClassApsFailure(classes, gtRecs, dtRecs, thr); Failure(e)
    case Success(aps) =>
      if |classes| == 0 then Failure(NoClasses)
      else Success(ApMapOutput(Zip(classes, aps), SumReals(aps) / |classes| as real))
  }

  /** Over distinct classes, each class's entry is the value at its position. */
  lemma {:induction false} OverwriteAt(base: map<Label, real>, classes: seq<Label>, values: seq<real>, i: nat)
    requires |values| == |classes| && i < |classes|
    requires forall i, j | 0 <= i < j < |classes| :: classes[i] != classes[j]
    ensures classes[i] in Overwrite(base, classes, values)
    ensures Overwrite(base, classes, values)[classes[i]] == values[i]
    decreases |classes|
  {
    var n := |classes| - 1;
    if i < n {
      OverwriteAt(base, classes[..n], values[..n], i);
    }
  }

  lemma ZipAt(classes: seq<Label>, values: seq<real>, i: nat)
    requires |values| == |classes| && i < |classes|
    requires forall i, j | 0 <= i < j < |classes| :: classes[i] != classes[j]
    ensures Zip(classes, values)[classes[i]] == values[i]
  {
    OverwriteAt(map[], classes, values, i);
  }

  /** The entries of `m` at `ks`, in order. */
  function ValuesAt(m: map<Label, real>, ks: seq<Label>): (vs: seq<real>)
    requires forall i | 0 <= i < |ks| :: ks[i] in m
    ensures |vs| == |ks|
  {
    seq(|ks|, i requires 0 <= i < |ks| => m[ks[i]])
  }

  /** A successful `ApMapOf` is the zip of the classes with the APs `ClassAps` gathers, and
      their mean. */
  lemma ApMapOfIsZip(gt: RawDict, res: RawDict, thr: real)
    requires Validated(gt, res) && ApMapOf(gt, res, thr).Success?
    ensures var classes := Unique(gt.labels.value);
            var aps := ClassAps(classes, GtRecords(GtFile(gt)), DtRecords(DtFile(res)), thr);
            && aps.Success? && |classes| > 0
            && ApMapOf(gt, res, thr).value == ApMapOutput(Zip(classes, aps.value), SumReals(aps.value) / |classes| as real)
  {
  }

  /** Zipping the classes with the APs they gather gives each class its own AP. */
  lemma ZipOfClassAps(classes: seq<Label>, gtRecs: seq<BoxRecord>, dtRecs: seq<BoxRecord>, thr: real)
    requires forall i, j | 0 <= i < j < |classes| :: classes[i] != classes[j]
    requires ClassAps(classes, gtRecs, dtRecs, thr).Success?
    ensures var aps := ClassAps(classes, gtRecs, dtRecs, thr).value;
            var m := Zip(classes, aps);
            && (forall c | c in m :: ClassAp(gtRecs, dtRecs, c, thr) == Success(m[c]))
            && (forall i | 0 <= i < |classes| :: classes[i] in m)
            && ValuesAt(m, classes) == aps
  {
    var aps := ClassAps(classes, gtRecs, dtRecs, thr).value;
    var m := Zip(classes, aps);
    var rs := ClassResults(classes, gtRecs, dtRecs, thr);
    CollectMeaning(rs);
    ClassResultsMatch(classes, gtRecs, dtRecs, thr);
    forall i | 0 <= i < |classes|
      ensures classes[i] in m && m[classes[i]] == aps[i]
      ensures ClassAp(gtRecs, dtRecs, classes[i], thr) == Success(aps[i])
    {
      ZipAt(classes, aps, i);
      assert rs[i] == Success(aps[i]);
    }
    forall c | c in m
      ensures ClassAp(gtRecs, dtRecs, c, thr) == Success(m[c])
    {
      var i :| 0 <= i < |classes| && classes[i] == c;
    }
  }

  /** Every `ap` entry of `calculate_ap_map` is its class's AP as `ClassAp` defines it, and
      `map` is the sum of the entries over the distinct ground-truth labels divided by their
      number. */
  lemma ApMapOfEntries(gt: RawDict, res: RawDict, thr: real)
    requires Validated(gt, res) && ApMapOf(gt, res, thr).Success?
    ensures var out := ApMapOf(gt, res, thr).value;
            var classes := Unique(gt.labels.value);
            && (forall c | c in out.ap :: ClassAp(GtRecords(GtFile(gt)), DtRecords(DtFile(res)), c, thr) == Success(out.ap[c]))
            && (forall i | 0 <= i < |classes| :: classes[i] in out.ap)
            && |classes| > 0
            && out.mAP == SumReals(ValuesAt(out.ap, classes)) / |classes| as real
  {
    ApMapOfIsZip(gt, res, thr);
    ZipOfClassAps(Unique(gt.labels.value), GtRecords(GtFile(gt)), DtRecords(DtFile(res)), thr);
  }

  /** `calculate_ap_map`: validation, then `ApMapOf` on the validated dicts. */
  function ApMapResult(gt: RawDict, res: RawDict, thr: real): (r: Result<ApMapOutput>)
    ensures r.Success? ==> CheckDicts(gt, res).Success? && r.value.ap.Keys == LabelSet(gt.labels.value)
    ensures r == Failure(NoClasses) <==> CheckDicts(gt, res).Success? && |gt.labels.value| == 0
    ensures r.Failure? && CheckDicts(gt, res).Success? ==> r.error == ZeroUnion || r.error == NoClasses
  {
    match CheckDicts(gt, res)
    case Failure(e) => Failure(e)
    case Success(res') => ApMapOf(gt, res', thr)
  }

  /** A class with ground truth fails only on a degenerate box pair. */
  lemma ClassApFailure(gtRecs: seq<BoxRecord>, dtRecs: seq<BoxRecord>, c: Label, thr: real)
    requires |OfClass(gtRecs, c)| > 0
    ensures ClassAp(gtRecs, dtRecs, c, thr).Failure? ==> ClassAp(gtRecs, dtRecs, c, thr).error == ZeroUnion
  {
    var dets := SortDesc(OfClass(dtRecs, c), Score);
    TpFpFailsIffScanFails(dets, Group(gtRecs), c, thr, {});
  }

  /** The per-class pass over ground-truth classes only fails on a degenerate box pair,
      never for lack of ground truth. */
  lemma ClassApsFailure(classes: seq<Label>, gtRecs: seq<BoxRecord>, dtRecs: seq<BoxRecord>, thr: real)
    requires forall c | c in classes :: |OfClass(gtRecs, c)| > 0
    ensures ClassAps(classes, gtRecs, dtRecs, thr).Failure? ==> ClassAps(classes, gtRecs, dtRecs, thr).error == ZeroUnion
  {
    var rs := ClassResults(classes, gtRecs, dtRecs, thr);
    CollectMeaning(rs);
    if Collect(rs).Failure? {
      var i :| 0 <= i < |rs| && rs[i] == Failure(Collect(rs).error);
      ResultsAt(classes, c => ClassAp(gtRecs, dtRecs, c, thr), i);
      ClassApFailure(gtRecs, dtRecs, classes[i], thr);
    }
  }

  lemma SumRealsSnoc(s: seq<real>, x: real)
    ensures SumReals(s + [x]) == SumReals(s) + x
  {
    assert (s + [x])[..|s|] == s;
  }

  lemma QuotientMonotone(a: real, b: real, d: real)
    requires 0.0 < d && a <= b
    ensures a / d <= b / d
  {
  }

  lemma QuotientInUnitInterval(a: real, d: real)
    requires 0.0 < d && 0.0 <= a <= d
    ensures 0.0 <= a / d <= 1.0
  {
    QuotientMonotone(a, d, d);
    QuotientMonotone(0.0, a, d);
  }

  /** With 0/1 flags and no more true positives than ground-truth boxes, recall rises from
      0 and stays within [0, 1], and precision stays within [0, 1]. */
  lemma CurveInUnitSquare(tp: seq<int>, fp: seq<int>, count: nat)
    requires Exclusive(tp, fp) && count > 0
    requires forall i | 0 <= i < |tp| :: 0 <= tp[i] && 0 <= fp[i]
    requires Sum(tp) <= count
    ensures forall i | 0 <= i < |tp| :: PrefixSums(tp)[i] + PrefixSums(fp)[i] == i + 1
    ensures var rec := Recall(PrefixSums(tp), count);
            && NonDecreasing(rec)
            && forall i | 0 <= i < |rec| :: 0.0 <= rec[i] <= 1.0
    ensures var prec := Precision(PrefixSums(tp), PrefixSums(fp));
            forall i | 0 <= i < |prec| :: 0.0 <= prec[i] <= 1.0
  {
    PrefixSumsComplement(tp, fp);
    var tpc, fpc := PrefixSums(tp), PrefixSums(fp);
    var rec, prec := Recall(tpc, count), Precision(tpc, fpc);
    PrefixSumsMonotone(tp);
    PrefixSumsMonotone(fp);
    forall i, j | 0 <= i <= j < |rec| ensures rec[i] <= rec[j] {
      QuotientMonotone(tpc[i] as real, tpc[j] as real, count as real);
    }
    forall i | 0 <= i < |rec| ensures 0.0 <= rec[i] <= 1.0 {
      QuotientInUnitInterval(tpc[i] as real, count as real);
    }
    forall i | 0 <= i < |prec| ensures 0.0 <= prec[i] <= 1.0 {
      QuotientInUnitInterval(tpc[i] as real, (tpc[i] + fpc[i]) as real);
    }
  }

  /** Hence the AP of such flags lies in [0, 1]. */
  lemma ApOfFlagsInUnitInterval(tp: seq<int>, fp: seq<int>, count: nat)
    requires Exclusive(tp, fp) && (count > 0 || |tp| == 0)
    requires forall i | 0 <= i < |tp| :: 0 <= tp[i] && 0 <= fp[i]
    requires Sum(tp) <= count
    ensures 0.0 <= ApOfFlags(tp, fp, count) <= 1.0
  {
    PrefixSumsComplement(tp, fp);
    if |tp| == 0 {
      assert Recall(PrefixSums(tp), count) == [] && Precision(PrefixSums(tp), PrefixSums(fp)) == [];
      ApOfEmptyCurve();
    } else {
      CurveInUnitSquare(tp, fp, count);
      ApInUnitInterval(Recall(PrefixSums(tp), count), Precision(PrefixSums(tp), PrefixSums(fp)));
    }
  }

  /** Every detection of class `c` has a ground-truth box of that class in its own file. */
  predicate Covered(gtRecs: seq<BoxRecord>, dtRecs: seq<BoxRecord>, c: Label) {
    forall d | d in dtRecs && d.className == c :: exists g | g in gtRecs :: g.className == c && g.fileId == d.fileId
  }

  /** A class's AP lies in [0, 1] for a threshold above -1.0, or at any threshold when every
      detection of the class has a candidate: either way every true positive consumes a
      distinct ground-truth box of the class. */
  lemma ClassApInUnitInterval(gtRecs: seq<BoxRecord>, dtRecs: seq<BoxRecord>, c: Label, thr: real)
    requires thr > -1.0 || Covered(gtRecs, dtRecs, c)
    requires ClassAp(gtRecs, dtRecs, c, thr).Success?
    ensures 0.0 <= ClassAp(gtRecs, dtRecs, c, thr).value <= 1.0
  {
    var dets := SortDesc(OfClass(dtRecs, c), Score);
    var f := TpFp(dets, Group(gtRecs), c, thr, {}).value;
    TpFpFlagsEach(dets, Group(gtRecs), c, thr, {});
    ClassTruePositivesAtMostGroundTruth(gtRecs, dtRecs, c, thr);
    ApOfFlagsInUnitInterval(f.tp, f.fp, |OfClass(gtRecs, c)|);
  }

  /** Under the same conditions a class's pass has no more true positives than the class
      has ground-truth boxes. */
  lemma ClassTruePositivesAtMostGroundTruth(gtRecs: seq<BoxRecord>, dtRecs: seq<BoxRecord>, c: Label, thr: real)
    requires thr > -1.0 || Covered(gtRecs, dtRecs, c)
    requires TpFp(SortDesc(OfClass(dtRecs, c), Score), Group(gtRecs), c, thr, {}).Success?
    ensures Sum(TpFp(SortDesc(OfClass(dtRecs, c), Score), Group(gtRecs), c, thr, {}).value.tp) <= |OfClass(gtRecs, c)|
  {
    var dets := SortDesc(OfClass(dtRecs, c), Score);
    var gts := Group(gtRecs);
    if thr <= -1.0 {
      SortDescIsPermutation(OfClass(dtRecs, c), Score);
      forall d | d in dets ensures d in dtRecs && d.className == c {
        assert d in multiset(OfClass(dtRecs, c));
      }
      CandidatesOfCovered(gtRecs, dtRecs, dets, c);
    }
    TruePositivesAtMostGroundTruth(dets, gts, c, thr, {});
    ClassKeysCount(gtRecs, c);
    assert ClassKeys(gts, c) - {} == ClassKeys(gts, c);
  }

  /** A covered detection's file holds a box of its class in the grouped ground truth. */
  lemma CandidatesOfCovered(gtRecs: seq<BoxRecord>, dtRecs: seq<BoxRecord>, dets: seq<BoxRecord>, c: Label)
    requires Covered(gtRecs, dtRecs, c)
    requires forall d | d in dets :: d in dtRecs && d.className == c
    ensures forall j :: 0 <= j < |dets| ==> HasCandidate(dets[j], Group(gtRecs), c)
  {
    GroupIsFilterByFile(gtRecs);
    forall j | 0 <= j < |dets| ensures HasCandidate(dets[j], Group(gtRecs), c) {
      var d := dets[j];
      var g :| g in gtRecs && g.className == c && g.fileId == d.fileId;
      OfFileKeeps(gtRecs, g, d.fileId);
      var i :| 0 <= i < |OfFile(gtRecs, d.fileId)| && OfFile(gtRecs, d.fileId)[i] == g;
      assert Lookup(Group(gtRecs), d.fileId)[i].className == c;
    }
  }

  /** In the single-dict inputs every box belongs to `Image`, so every detection of a
      ground-truth class has a candidate. */
  lemma SingleFileCovered(gt: RawDict, res: RawDict, c: Label)
    requires Validated(gt, res) && c in gt.labels.value
    ensures Covered(GtRecords(GtFile(gt)), DtRecords(DtFile(res)), c)
  {
    var gtRecs := GtRecords(GtFile(gt));
    GtClassesOccur(gt);
    var g := OfClass(gtRecs, c)[0];
    assert g in gtRecs && g.className == c;
    var i :| 0 <= i < |gtRecs| && gtRecs[i] == g;
    assert g.fileId == Image;
  }

  /** A sum of values in [0, 1] lies between 0 and their number. */
  lemma {:induction false} SumRealsBounds(s: seq<real>)
    requires forall i | 0 <= i < |s| :: 0.0 <= s[i] <= 1.0
    ensures 0.0 <= SumReals(s) <= |s| as real
  {
    if s != [] {
      SumRealsBounds(s[..|s| - 1]);
    }
  }

  /** Once validation has passed, every class's AP lies in [0, 1] at any threshold. */
  lemma ApMapOfEntriesInUnitInterval(gt: RawDict, res: RawDict, thr: real)
    requires Validated(gt, res) && ApMapOf(gt, res, thr).Success?
    ensures forall c | c in ApMapOf(gt, res, thr).value.ap :: 0.0 <= ApMapOf(gt, res, thr).value.ap[c] <= 1.0
  {
    var out := ApMapOf(gt, res, thr).value;
    ApMapOfEntries(gt, res, thr);
    forall c | c in out.ap ensures 0.0 <= out.ap[c] <= 1.0 {
      assert c in LabelSet(gt.labels.value);
      SingleFileCovered(gt, res, c);
      ClassApInUnitInterval(GtRecords(GtFile(gt)), DtRecords(DtFile(res)), c, thr);
    }
  }

  /** At any threshold, every AP `calculate_ap_map` reports, and their mean, lie in [0, 1]. */
  lemma ApMapInUnitInterval(gt: RawDict, res: RawDict, thr: real)
    requires ApMapResult(gt, res, thr).Success?
    ensures forall c | c in ApMapResult(gt, res, thr).value.ap :: 0.0 <= ApMapResult(gt, res, thr).value.ap[c] <= 1.0
    ensures 0.0 <= ApMapResult(gt, res, thr).value.mAP <= 1.0
  {
    var res' := CheckDicts(gt, res).value;
    var out := ApMapOf(gt, res', thr).value;
    var classes := Unique(gt.labels.value);
    ApMapOfEntries(gt, res', thr);
    ApMapOfEntriesInUnitInterval(gt, res', thr);
    var vs := ValuesAt(out.ap, classes);
    SumRealsBounds(vs);
    QuotientInUnitInterval(SumReals(vs), |classes| as real);
  }

  /** Recall after each detection: the cumulative true positives divided by the number of
      ground-truth boxes of the class. */
  method Recalls(tpc: array<int>, count: nat) returns (rec: seq<real>)
    requires count > 0
    ensures rec == Recall(tpc[..], count)
  {
    var r := new real[tpc.Length];
    var i := 0;
    while i < tpc.Length
      invariant 0 <= i <= tpc.Length
      invariant forall j | 0 <= j < i :: r[j] == tpc[j] as real / count as real
    {
      r[i] := tpc[i] as real / count as real;
      i := i + 1;
    }
    rec := r[..];
  }

  /** Precision after each detection: cumulative true positives over cumulative true and
      false positives. */
  method Precisions(tpc: array<int>, fpc: array<int>) returns (prec: seq<real>)
    requires tpc.Length == fpc.Length
    requires forall i | 0 <= i < tpc.Length :: tpc[i] + fpc[i] != 0
    ensures prec == Precision(tpc[..], fpc[..])
  {
    var p := new real[tpc.Length];
    var i := 0;
    while i < tpc.Length
      invariant 0 <= i <= tpc.Length
      invariant forall j | 0 <= j < i :: p[j] == tpc[j] as real / (fpc[j] + tpc[j]) as real
    {
      p[i] := tpc[i] as real / (fpc[i] + tpc[i]) as real;
      i := i + 1;
    }
    prec := p[..];
  }

  /** From the per-detection flags to the class's AP: both arrays turned into running
      counts in place, then recall, precision and the VOC area. */
  method ApOfCounts(tp: array<int>, fp: array<int>, count: nat) returns (ap: real)
    requires tp != fp && Exclusive(tp[..], fp[..]) && count > 0
    modifies tp, fp
    ensures ap == ApOfFlags(old(tp[..]), old(fp[..]), count)
  {
    PrefixSumsComplement(tp[..], fp[..]);
    CumSum(fp);
    CumSum(tp);
    var rec := Recalls(tp, count);
    var prec := Precisions(tp, fp);
    var mrec, mpre;
    ap, mrec, mpre := VocAp(rec, prec);
  }

  /** The per-class body of `calculate_ap_map`: the TP/FP pass over the class's sorted
      detections, the in-place cumulative sums, recall and precision per detection, then
      `_voc_ap`. The AP follows `ApOfFlags` on the flags `TpFp` gives from the boxes already
      matched, and the matched boxes afterwards are those the pass consumed. */
  method ClassApOf(c: Label, dets: seq<BoundingBox>, index: GtIndex, count: nat, thr: real) returns (r: Result<real>)
    requires Distinct(index) && count > 0
    modifies Objects(index)
    ensures match TpFp(Views(dets), ViewIndex(index), c, thr, old(MatchedKeys(index)))
            case Failure(e) => r == Failure(e)
            case Success(f) =>
              && Exclusive(f.tp, f.fp)
              && r == Success(ApOfFlags(f.tp, f.fp, count))
              && MatchedKeys(index) == f.used
  {
    ghost var spec := TpFp(Views(dets), ViewIndex(index), c, thr, MatchedKeys(index));
    var flags := ComputeTpFp(dets, c, index, thr);
    if flags.Failure? {
      return Failure(flags.error);
    }
    ghost var f := spec.value;
    var tp, fp := flags.value.0, flags.value.1;
    assert tp[..] == f.tp && fp[..] == f.fp && MatchedKeys(index) == f.used;
    TpFpFlagsEach(Views(dets), ViewIndex(index), c, thr, old(MatchedKeys(index)));
    var ap := ApOfCounts(tp, fp, count);
    r := Success(ap);
  }

  /** Every key in `keys` names a ground-truth box whose class is one of `done`. */
  predicate KeysOfClasses(view: GtView, keys: set<Key>, done: seq<Label>) {
    forall k | k in keys :: k.0 in view && k.1 < |view[k.0]| && view[k.0][k.1].className in done
  }

  /** Keys of the classes done so far are not keys of a class still to come. */
  lemma OtherClassesKeys(view: GtView, keys: set<Key>, done: seq<Label>, c: Label)
    requires KeysOfClasses(view, keys, done) && c !in done
    ensures forall k | k in keys :: !IsClassKey(view, c, k)
  {
  }

  /** A class's pass adds keys of that class only. */
  lemma KeysOfClassesExtend(view: GtView, before: set<Key>, after: set<Key>, done: seq<Label>, c: Label)
    requires KeysOfClasses(view, before, done) && before <= after
    requires forall k | k in after - before :: IsClassKey(view, c, k)
    ensures KeysOfClasses(view, after, done + [c])
  {
    forall k | k in after ensures k.0 in view && k.1 < |view[k.0]| && view[k.0][k.1].className in done + [c] {
      if k !in before {
        assert IsClassKey(view, c, k);
      }
    }
  }

  /** One iteration of the class loop of `calculate_ap_map`: the class's detections are
      built and sorted, then scored against the shared ground-truth objects. Boxes of other
      classes that earlier iterations matched do not affect the result, which is the
      class's AP as `ClassAp` defines it; the iteration only marks boxes of its own class. */
  method ClassStep(c: Label, dtFile: FileRecord, index: GtIndex, count: nat, thr: real,
                   ghost gtRecs: seq<BoxRecord>, ghost classes: seq<Label>, ghost ci: nat,
                   ghost results: seq<Result<real>>)
    returns (r: Result<real>)
    requires DtShaped(dtFile) && dtFile.fileId == Image
    requires Distinct(index) && ViewIndex(index) == Group(gtRecs)
    requires count == |OfClass(gtRecs, c)| && count > 0
    requires ci < |classes| && c == classes[ci] && c !in classes[..ci]
    requires ResultsMatch(results, classes, gtRecs, DtRecords(dtFile), thr)
    requires KeysOfClasses(ViewIndex(index), MatchedKeys(index), classes[..ci])
    modifies Objects(index)
    ensures r == results[ci]
    ensures r.Success? ==> KeysOfClasses(ViewIndex(index), MatchedKeys(index), classes[..ci] + [c])
  {
    ghost var done := classes[..ci];
    assert forall f | f in [dtFile] :: f == dtFile;
    ClassRecordsIsOfClass(dtFile, c);
    var dtr := GenerateDtObjs([c], [dtFile], {Image});
    assert dtr.Success? && c in dtr.value;
    var dets := dtr.value[c];
    assert [dtFile][..0] == [];
    assert AllDt([dtFile]) == DtRecords(dtFile);
    ClassDetsIsOfClass([dtFile], c);
    ghost var view := ViewIndex(index);
    ghost var used := MatchedKeys(index);
    OtherClassesKeys(view, used, done, c);
    TpFpIgnoresOtherKeys(Views(dets), view, c, thr, used);
    if TpFp(Views(dets), view, c, thr, used).Success? {
      TpFpConsumesClassKeys(Views(dets), view, c, thr, used);
    }
    r := ClassApOf(c, dets, index, count, thr);
    assert r == ClassAp(gtRecs, DtRecords(dtFile), classes[ci], thr);
    if r.Success? {
      KeysOfClassesExtend(view, used, MatchedKeys(index), done, c);
    }
  }

  /** Overwriting a base map is overwriting the empty map and laying the result over the
      base. */
  lemma {:induction false} OverwriteBase(base: map<Label, real>, classes: seq<Label>, values: seq<real>)
    requires |values| == |classes|
    ensures Overwrite(base, classes, values) == base + Overwrite(map[], classes, values)
  {
    if classes != [] {
      var n := |classes| - 1;
      OverwriteBase(base, classes[..n], values[..n]);
    }
  }

  /** Overwriting every entry of the base leaves only the new values. */
  lemma OverwriteAll(base: map<Label, real>, classes: seq<Label>, values: seq<real>)
    requires |values| == |classes| && base.Keys <= LabelSet(classes)
    ensures Overwrite(base, classes, values) == Zip(classes, values)
  {
    OverwriteBase(base, classes, values);
    OverwriteKeys(map[], classes, values);
  }

  /** The `ap` entry of the output: every class starts at 0.0 and is then set, in class
      order, to its AP; the class loop of `calculate_ap_map` makes the same writes, one per
      iteration. */
  method FillAp(classes: seq<Label>, aps: seq<real>) returns (ap: map<Label, real>)
    requires |aps| == |classes|
    ensures ap == Zip(classes, aps)
  {
    ap := Zeros(classes);
    ghost var zeros := ap;
    var i := 0;
    while i < |classes|
      invariant 0 <= i <= |classes|
      invariant ap == Overwrite(zeros, classes[..i], aps[..i])
    {
      OverwriteSnoc(zeros, classes, i, aps[..i], aps[i]);
      assert aps[..i] + [aps[i]] == aps[..i + 1];
      ap := ap[classes[i] := aps[i]];
      i := i + 1;
    }
    assert classes[..i] == classes && aps[..i] == aps;
    OverwriteAll(zeros, classes, aps);
  }

  /** The class loop of `calculate_ap_map`: each class's AP in class order, with their
      sum; the ground-truth objects' matched flags carry over from one class to the next.
      The result is the per-class results gathered by `Collect`. */
  method ClassLoop(classes: seq<Label>, dtFile: FileRecord, index: GtIndex, counts: map<Label, nat>, thr: real,
                   ghost gtRecs: seq<BoxRecord>, ghost results: seq<Result<real>>)
    returns (r: Result<(seq<real>, real)>)
    requires forall i, j | 0 <= i < j < |classes| :: classes[i] != classes[j]
    requires forall c | c in classes :: c in counts && counts[c] == |OfClass(gtRecs, c)| && counts[c] > 0
    requires DtShaped(dtFile) && dtFile.fileId == Image
    requires Distinct(index) && ViewIndex(index) == Group(gtRecs) && MatchedKeys(index) == {}
    requires ResultsMatch(results, classes, gtRecs, DtRecords(dtFile), thr)
    modifies Objects(index)
    ensures match Collect(results)
            case Failure(e) => r == Failure(e)
            case Success(aps) => r == Success((aps, SumReals(aps)))
  {
    var aps: seq<real> := [];
    var sum := 0.0;
    var ci := 0;
    while ci < |classes|
      invariant 0 <= ci <= |classes|
      invariant KeysOfClasses(ViewIndex(index), MatchedKeys(index), classes[..ci])
      invariant Collect(results[..ci]) == Success(aps)
      invariant sum == SumReals(aps)
    {
      var c := classes[ci];
      assert classes[..ci + 1] == classes[..ci] + [c];
      var ap := ClassStep(c, dtFile, index, counts[c], thr, gtRecs, classes, ci, results);
      CollectSnoc(results, ci, aps);
      if ap.Failure? {
        CollectPrefixFailure(results, ci + 1);
        return Failure(ap.error);
      }
      SumRealsSnoc(aps, ap.value);
      aps := aps + [ap.value];
      sum := sum + ap.value;
      ci := ci + 1;
    }
    assert results[..ci] == results;
    r := Success((aps, sum));
  }

  /** `calculate_ap_map` over objects once validation has passed: the ground-truth objects
      and their per-class counts, the class loop, and the mean. */
  method CalculateValidated(gt: RawDict, res: RawDict, thr: real) returns (r: Result<ApMapOutput>)
    requires Validated(gt, res)
    ensures r == ApMapOf(gt, res, thr)
  {
    var gtFile, dtFile := GtFile(gt), DtFile(res);
    ghost var gtRecs := GtRecords(gtFile);
    var classes := Unique(gt.labels.value);
    GtClassesOccur(gt);
    assert forall f | f in [gtFile] :: f == gtFile;
    assert dtFile in [dtFile];
    var gen := GenerateGtObjs([gtFile], [dtFile]);
    assert gen.Success?;
    var counts, index := gen.value.0, gen.value.1;
    assert [gtFile][..0] == [];
    assert AllGt([gtFile]) == gtRecs;
    TallyCountsEachClass(gtRecs);
    forall c | c in classes ensures c in counts && counts[c] == |OfClass(gtRecs, c)| {
      assert OfClass(gtRecs, c)[0] in OfClass(gtRecs, c);
    }
    ghost var results := ClassResults(classes, gtRecs, DtRecords(dtFile), thr);
    ghost var spec := Collect(results);
    ClassResultsMatch(classes, gtRecs, DtRecords(dtFile), thr);
    var out := ClassLoop(classes, dtFile, index, counts, thr, gtRecs, results);
    if out.Failure? {
      assert spec == Failure(out.error);
      assert ApMapOf(gt, res, thr) == Failure(out.error);
      return Failure(out.error);
    }
    ghost var aps := spec.value;
    if |classes| == 0 {
      return Failure(NoClasses);
    }
    var ap := FillAp(classes, out.value.0);
    r := Success(ApMapOutput(ap, out.value.1 / |classes| as real));
  }

  /** `calculate_ap_map`: validation, then the scoring. The result is `ApMapResult`. */
  method CalculateApMap(gt: RawDict, res: RawDict, thr: real) returns (r: Result<ApMapOutput>)
    ensures r == ApMapResult(gt, res, thr)
  {
    var checked := CheckDicts(gt, res);
    if checked.Failure? {
      return Failure(checked.error);
    }
    r := CalculateValidated(gt, checked.value, thr);
  }
}
