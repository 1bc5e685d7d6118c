/** Matching detections to ground truth: `_get_best_gt_bbox` in obj_det_metrics/utils.py,
    and the per-class true/false-positive pass that the scoring imports as
    `_compute_tp_fp_for_detections`, rebuilt after the Cartucho/mAP evaluation the
    module credits. */
module Matching {
  import opened Wrappers
  import opened Variables
  import opened Geometry
  import opened Cumsum

  /** A ground-truth box is identified by its file id and its position in that file's list. */
  type Key = (FileId, nat)

  /** Ground-truth boxes grouped by file id, as objects and as values. */
  type GtIndex = map<FileId, seq<BoundingBox>>
  type GtView = map<FileId, seq<BoxRecord>>

  /** The list of a file id; a file without boxes has the empty list (the source's defaultdict). */
  function Lookup<T>(m: map<FileId, seq<T>>, f: FileId): seq<T> {
    if f in m then m[f] else []
  }

  function ViewIndex(gts: GtIndex): GtView {
    map f | f in gts :: Views(gts[f])
  }

  ghost function Objects(gts: GtIndex): set<BoundingBox> {
    set f, i | f in gts && 0 <= i < |gts[f]| :: gts[f][i]
  }

  /** No object sits at two positions of the index. */
  ghost predicate Distinct(gts: GtIndex) {
    forall f, i, g, j | f in gts && g in gts && 0 <= i < |gts[f]| && 0 <= j < |gts[g]|
                        && gts[f][i] == gts[g][j] :: f == g && i == j
  }

  /** The keys of the boxes whose matched flag is set. */
  ghost function MatchedKeys(gts: GtIndex): set<Key>
    reads Objects(gts)
  {
    set f, i | f in gts && 0 <= i < |gts[f]| && gts[f][i].matched :: (f, i)
  }

  /** The keys of the ground-truth boxes of one class. */
  function ClassKeys(gts: GtView, cls: Label): set<Key> {
    set f, i | f in gts && 0 <= i < |gts[f]| && gts[f][i].className == cls :: (f, i)
  }

  predicate IsClassKey(gts: GtView, cls: Label, k: Key) {
    k.0 in gts && k.1 < |gts[k.0]| && gts[k.0][k.1].className == cls
  }

  /** The state of the best-match scan: nothing has beaten the initial -1.0 yet, or the
      candidate at `index` holds the best IoU so far. */
  datatype Best = NoCandidate | Found(index: nat, iou: real)

  function BestIou(b: Best): real {
    if b.NoCandidate? then -1.0 else b.iou
  }

  /** The scan of `_get_best_gt_bbox` over one file's ground truth: only boxes of class
      `cls` are candidates, the running maximum starts at -1.0 and a candidate replaces it
      only with a strictly greater IoU. A candidate whose union area is 0 makes the IoU
      division raise. */
  function BestMatch(dt: Box, gts: seq<BoxRecord>, cls: Label): (r: Result<Best>)
    ensures r.Failure? ==> r.error == ZeroUnion
    ensures r.Success? && r.value.Found? ==> r.value.index < |gts| && gts[r.value.index].className == cls
    decreases |gts|
  {
    if gts == [] then Success(NoCandidate)
    else
      var n := |gts| - 1;
      assert forall j :: 0 <= j < n ==> gts[..n][j] == gts[j];
      match BestMatch(dt, gts[..n], cls)
      case Failure(e) => Failure(e)
      case Success(prev) =>
        if gts[n].className != cls then Success(prev)
        else if UnionArea(dt, gts[n].coordinates) == 0 then Failure(ZeroUnion)
        else
          var iou := Iou(dt, gts[n].coordinates);
          if iou > BestIou(prev) then Success(Found(n, iou)) else Success(prev)
  }

  /** The scan fails exactly when some candidate has a union area of 0. */
  lemma {:induction false} BestMatchFailsIffZeroUnion(dt: Box, gts: seq<BoxRecord>, cls: Label)
    ensures BestMatch(dt, gts, cls).Failure? <==>
              (exists j :: 0 <= j < |gts| && gts[j].className == cls && UnionArea(dt, gts[j].coordinates) == 0)
    decreases |gts|
  {
    if gts != [] {
      var n := |gts| - 1;
      assert forall j :: 0 <= j < n ==> gts[..n][j] == gts[j];
      BestMatchFailsIffZeroUnion(dt, gts[..n], cls);
    }
  }

  /** The box found has the largest IoU of all candidates, and every earlier candidate has
      a strictly smaller one: ties go to the first. With no box found, no candidate's IoU
      exceeds -1.0. */
  lemma {:induction false} BestMatchIsFirstMaximum(dt: Box, gts: seq<BoxRecord>, cls: Label)
    requires BestMatch(dt, gts, cls).Success?
    ensures forall j :: 0 <= j < |gts| && gts[j].className == cls ==>
              UnionArea(dt, gts[j].coordinates) != 0
              && Iou(dt, gts[j].coordinates) <= BestIou(BestMatch(dt, gts, cls).value)
    ensures match BestMatch(dt, gts, cls).value
            case NoCandidate => true
            case Found(i, v) =>
              && UnionArea(dt, gts[i].coordinates) != 0
              && v == Iou(dt, gts[i].coordinates) && v > -1.0
              && forall j :: 0 <= j < i && gts[j].className == cls ==> Iou(dt, gts[j].coordinates) < v
    decreases |gts|
  {
    if gts != [] {
      var n := |gts| - 1;
      assert forall j :: 0 <= j < n ==> gts[..n][j] == gts[j];
      BestMatchIsFirstMaximum(dt, gts[..n], cls);
    }
  }

  /** A scan that succeeds finds nothing exactly when the file has no box of the class:
      any candidate's IoU is at least 0 and so beats the initial -1.0. */
  lemma BestMatchFoundIffCandidate(dt: Box, gts: seq<BoxRecord>, cls: Label)
    requires BestMatch(dt, gts, cls).Success?
    ensures BestMatch(dt, gts, cls).value.NoCandidate? <==> forall j :: 0 <= j < |gts| ==> gts[j].className != cls
  {
    BestMatchIsFirstMaximum(dt, gts, cls);
    if j :| 0 <= j < |gts| && gts[j].className == cls {
      assert 0.0 <= Iou(dt, gts[j].coordinates);
    }
  }

  /** Between well-formed boxes the scan never fails, and it finds nothing exactly when
      the file has no box of the class. */
  lemma BestMatchNoCandidate(dt: Box, gts: seq<BoxRecord>, cls: Label)
    requires WellFormed(dt) && forall j :: 0 <= j < |gts| ==> WellFormed(gts[j].coordinates)
    ensures BestMatch(dt, gts, cls).Success?
    ensures BestMatch(dt, gts, cls).value.NoCandidate? <==> forall j :: 0 <= j < |gts| ==> gts[j].className != cls
  {
    forall j | 0 <= j < |gts| ensures UnionArea(dt, gts[j].coordinates) > 0 {
      IouInUnitInterval(dt, gts[j].coordinates);
    }
    BestMatchFailsIffZeroUnion(dt, gts, cls);
    BestMatchFoundIffCandidate(dt, gts, cls);
  }

  /** The boxes of one file id, as a value. */
  lemma LookupViews(gts: GtIndex, f: FileId)
    ensures Lookup(ViewIndex(gts), f) == Views(Lookup(gts, f))
  {
  }

  /** `_get_best_gt_bbox`: the best-matching ground-truth box of the detection's file and the
      IoU, or a fresh "empty" placeholder box and -1.0 when no candidate beats -1.0. */
  method GetBestGtBox(dt: BoundingBox, cls: Label, gts: GtIndex) returns (r: Result<(BoundingBox, real)>)
    ensures match BestMatch(dt.coordinates, Views(Lookup(gts, dt.fileId)), cls)
            case Failure(e) => r == Failure(e)
            case Success(NoCandidate) =>
              && r.Success? && r.value.1 == -1.0
              && fresh(r.value.0) && !r.value.0.matched
              && r.value.0.View() == BoxRecord(Box(0, 0, 0, 0), "empty", dt.fileId, 0.0)
            case Success(Found(i, iou)) =>
              i < |Lookup(gts, dt.fileId)| && r == Success((Lookup(gts, dt.fileId)[i], iou))
  {
    var list := Lookup(gts, dt.fileId);
    ghost var views := Views(list);
    var maxIou := -1.0;
    var placeholder := new BoundingBox(Box(0, 0, 0, 0), "empty", dt.fileId, confScore := 0.0);
    var gtMatch := placeholder;
    var k := 0;
    while k < |list|
      invariant 0 <= k <= |list|
      invariant BestMatch(dt.coordinates, views[..k], cls).Success?
      invariant maxIou == BestIou(BestMatch(dt.coordinates, views[..k], cls).value)
      invariant match BestMatch(dt.coordinates, views[..k], cls).value
                case NoCandidate => gtMatch == placeholder
                case Found(i, _) => i < k && gtMatch == list[i]
      invariant !placeholder.matched
    {
      assert views[..k + 1][..k] == views[..k];
      var g := list[k];
      if g.className == cls {
        if UnionArea(dt.coordinates, g.coordinates) == 0 {
          assert views[k].className == cls && UnionArea(dt.coordinates, views[k].coordinates) == 0;
          BestMatchFailsIffZeroUnion(dt.coordinates, views, cls);
          return Failure(ZeroUnion);
        }
        var iou := Iou(dt.coordinates, g.coordinates);
        if iou > maxIou {
          maxIou := iou;
          gtMatch := g;
        }
      }
      k := k + 1;
    }
    assert views[..k] == views;
    r := Success((gtMatch, maxIou));
  }

  /** The flags of a pass: 1 in `tp` or in `fp` at each detection, and the keys consumed. */
  datatype Flags = Flags(tp: seq<int>, fp: seq<int>, used: set<Key>)

  /** One detection against the ground truth, given the keys already consumed: a true
      positive when the best IoU reaches the threshold and that box is still free, which
      consumes it. Without a candidate the best "box" is the unmatched placeholder and the
      IoU -1.0, so the detection is a true positive only for a threshold of at most -1.0,
      and nothing is consumed. */
  function Step(d: BoxRecord, gts: GtView, cls: Label, thr: real, used: set<Key>): Result<(bool, set<Key>)>
  {
    match BestMatch(d.coordinates, Lookup(gts, d.fileId), cls)
    case Failure(e) => Failure(e)
    case Success(NoCandidate) => Success((-1.0 >= thr, used))
    case Success(Found(i, iou)) =>
      if iou >= thr && (d.fileId, i) !in used then Success((true, used + {(d.fileId, i)}))
      else Success((false, used))
  }

  /** The pass over a class's detections, in order. */
  function TpFp(dets: seq<BoxRecord>, gts: GtView, cls: Label, thr: real, used: set<Key>): (r: Result<Flags>)
    ensures r.Success? ==> |r.value.tp| == |dets| && |r.value.fp| == |dets| && used <= r.value.used
    decreases |dets|
  {
    if dets == [] then Success(Flags([], [], used))
    else
      var n := |dets| - 1;
      match TpFp(dets[..n], gts, cls, thr, used)
      case Failure(e) => Failure(e)
      case Success(prev) =>
        match Step(dets[n], gts, cls, thr, prev.used)
        case Failure(e) => Failure(e)
        case Success((isTp, used')) =>
          Success(Flags(prev.tp + [if isTp then 1 else 0], prev.fp + [if isTp then 0 else 1], used'))
  }

  /** The pass fails exactly when the best-match scan of one of the detections fails. */
  lemma {:induction false} TpFpFailsIffScanFails(dets: seq<BoxRecord>, gts: GtView, cls: Label, thr: real, used: set<Key>)
    ensures TpFp(dets, gts, cls, thr, used).Failure? <==>
              (exists j :: 0 <= j < |dets| && BestMatch(dets[j].coordinates, Lookup(gts, dets[j].fileId), cls).Failure?)
    ensures TpFp(dets, gts, cls, thr, used).Failure? ==> TpFp(dets, gts, cls, thr, used).error == ZeroUnion
    decreases |dets|
  {
    if dets != [] {
      var n := |dets| - 1;
      TpFpFailsIffScanFails(dets[..n], gts, cls, thr, used);
      if TpFp(dets[..n], gts, cls, thr, used).Failure? {
        var j :| 0 <= j < n && BestMatch(dets[..n][j].coordinates, Lookup(gts, dets[..n][j].fileId), cls).Failure?;
        assert dets[..n][j] == dets[j];
      } else if TpFp(dets, gts, cls, thr, used).Failure? {
        assert BestMatch(dets[n].coordinates, Lookup(gts, dets[n].fileId), cls).Failure?;
      } else {
        forall j | 0 <= j < |dets|
          ensures BestMatch(dets[j].coordinates, Lookup(gts, dets[j].fileId), cls).Success?
        {
          if j < n {
            assert dets[..n][j] == dets[j];
          }
        }
      }
    }
  }

  /** A pass that succeeds flags every detection as either a true or a false positive. */
  lemma {:induction false} TpFpFlagsEach(dets: seq<BoxRecord>, gts: GtView, cls: Label, thr: real, used: set<Key>)
    requires TpFp(dets, gts, cls, thr, used).Success?
    ensures var f := TpFp(dets, gts, cls, thr, used).value;
            forall j :: 0 <= j < |dets| ==> (f.tp[j] == 1 && f.fp[j] == 0) || (f.tp[j] == 0 && f.fp[j] == 1)
    decreases |dets|
  {
    if dets != [] {
      var n := |dets| - 1;
      TpFpFlagsEach(dets[..n], gts, cls, thr, used);
    }
  }

  /** The detection's file has a ground-truth box of the class, so its scan finds one. */
  predicate HasCandidate(d: BoxRecord, gts: GtView, cls: Label) {
    exists i :: 0 <= i < |Lookup(gts, d.fileId)| && Lookup(gts, d.fileId)[i].className == cls
  }

  /** One step consumes at most the box it matches, a box of the class that was free. A
      detection without candidates consumes nothing and is a true positive only at a
      threshold of at most -1.0; otherwise the step consumes a box exactly when it flags a
      true positive. */
  lemma StepConsumes(d: BoxRecord, gts: GtView, cls: Label, thr: real, used: set<Key>)
    requires Step(d, gts, cls, thr, used).Success?
    ensures used <= Step(d, gts, cls, thr, used).value.1
    ensures forall k | k in Step(d, gts, cls, thr, used).value.1 - used :: IsClassKey(gts, cls, k)
    ensures thr > -1.0 || HasCandidate(d, gts, cls) ==>
              |Step(d, gts, cls, thr, used).value.1 - used| == if Step(d, gts, cls, thr, used).value.0 then 1 else 0
  {
    match BestMatch(d.coordinates, Lookup(gts, d.fileId), cls)
    case Success(NoCandidate) =>
      BestMatchFoundIffCandidate(d.coordinates, Lookup(gts, d.fileId), cls);
    case Success(Found(i, iou)) =>
      var k := (d.fileId, i);
      if iou >= thr && k !in used {
        assert Step(d, gts, cls, thr, used).value.1 - used == {k};
      }
  }

  /** The keys a pass consumes are ground-truth boxes of the class. */
  lemma {:induction false} TpFpConsumesClassKeys(dets: seq<BoxRecord>, gts: GtView, cls: Label, thr: real, used: set<Key>)
    requires TpFp(dets, gts, cls, thr, used).Success?
    ensures forall k | k in TpFp(dets, gts, cls, thr, used).value.used - used :: IsClassKey(gts, cls, k)
    decreases |dets|
  {
    if dets != [] {
      var n := |dets| - 1;
      TpFpConsumesClassKeys(dets[..n], gts, cls, thr, used);
      StepConsumes(dets[n], gts, cls, thr, TpFp(dets[..n], gts, cls, thr, used).value.used);
    }
  }

  /** Each box is consumed at most once: above -1.0, or when every detection has a
      candidate, a pass consumes exactly one new key per true positive. */
  lemma {:induction false} TpFpConsumesOneBoxPerTruePositive(dets: seq<BoxRecord>, gts: GtView, cls: Label, thr: real, used: set<Key>)
    requires TpFp(dets, gts, cls, thr, used).Success?
    requires thr > -1.0 || forall j :: 0 <= j < |dets| ==> HasCandidate(dets[j], gts, cls)
    ensures |TpFp(dets, gts, cls, thr, used).value.used - used| == Sum(TpFp(dets, gts, cls, thr, used).value.tp)
    decreases |dets|
  {
    if dets != [] {
      var n := |dets| - 1;
      if thr <= -1.0 {
        forall j | 0 <= j < n ensures HasCandidate(dets[..n][j], gts, cls) {
          assert dets[..n][j] == dets[j];
        }
      }
      TpFpConsumesOneBoxPerTruePositive(dets[..n], gts, cls, thr, used);
      var prev := TpFp(dets[..n], gts, cls, thr, used).value;
      var f := TpFp(dets, gts, cls, thr, used).value;
      var st := Step(dets[n], gts, cls, thr, prev.used).value;
      StepConsumes(dets[n], gts, cls, thr, prev.used);
      assert f.tp == prev.tp + [if st.0 then 1 else 0] && f.used == st.1;
      assert f.tp[..n] == prev.tp;
      NestedDifference(used, prev.used, f.used);
    }
  }

  /** Keys consumed in two stages are counted once each. */
  lemma NestedDifference(a: set<Key>, b: set<Key>, c: set<Key>)
    requires a <= b <= c
    ensures |c - a| == |b - a| + |c - b|
  {
    assert c - a == (b - a) + (c - b);
  }

  /** The pass over one more detection is one more `Step`. */
  lemma TpFpSnoc(dets: seq<BoxRecord>, d: BoxRecord, gts: GtView, cls: Label, thr: real, used: set<Key>)
    requires TpFp(dets, gts, cls, thr, used).Success?
    ensures var prev := TpFp(dets, gts, cls, thr, used).value;
            match Step(d, gts, cls, thr, prev.used)
            case Failure(e) => TpFp(dets + [d], gts, cls, thr, used) == Failure(e)
            case Success((isTp, used')) =>
              TpFp(dets + [d], gts, cls, thr, used)
                == Success(Flags(prev.tp + [if isTp then 1 else 0], prev.fp + [if isTp then 0 else 1], used'))
  {
    assert (dets + [d])[..|dets|] == dets;
  }

  /** A pass that fails on a prefix fails on the whole sequence. */
  lemma TpFpPrefixFailure(dets: seq<BoxRecord>, m: nat, gts: GtView, cls: Label, thr: real, used: set<Key>)
    requires m <= |dets| && TpFp(dets[..m], gts, cls, thr, used).Failure?
    ensures TpFp(dets, gts, cls, thr, used) == TpFp(dets[..m], gts, cls, thr, used)
  {
    TpFpFailsIffScanFails(dets[..m], gts, cls, thr, used);
    TpFpFailsIffScanFails(dets, gts, cls, thr, used);
    var j :| 0 <= j < m && BestMatch(dets[..m][j].coordinates, Lookup(gts, dets[..m][j].fileId), cls).Failure?;
    assert dets[..m][j] == dets[j];
  }

  /** Under a threshold above -1.0, or when every detection has a candidate, a class never
      has more true positives than ground-truth boxes still free at the start of the pass. */
  lemma TruePositivesAtMostGroundTruth(dets: seq<BoxRecord>, gts: GtView, cls: Label, thr: real, used: set<Key>)
    requires thr > -1.0 || forall j :: 0 <= j < |dets| ==> HasCandidate(dets[j], gts, cls)
    requires TpFp(dets, gts, cls, thr, used).Success?
    ensures Sum(TpFp(dets, gts, cls, thr, used).value.tp) <= |ClassKeys(gts, cls) - used|
  {
    var f := TpFp(dets, gts, cls, thr, used).value;
    TpFpConsumesClassKeys(dets, gts, cls, thr, used);
    TpFpConsumesOneBoxPerTruePositive(dets, gts, cls, thr, used);
    var consumed := f.used - used;
    var avail := ClassKeys(gts, cls) - used;
    assert consumed <= avail by {
      forall k | k in consumed ensures k in avail {
        assert IsClassKey(gts, cls, k);
      }
    }
    assert avail == consumed + (avail - consumed);
  }

  /** A class's pass sees only the keys of its own class: keys of other classes already
      consumed change neither its flags nor what it consumes. */
  lemma {:induction false} TpFpIgnoresOtherKeys(dets: seq<BoxRecord>, gts: GtView, cls: Label, thr: real, used: set<Key>)
    requires forall k | k in used :: !IsClassKey(gts, cls, k)
    ensures TpFp(dets, gts, cls, thr, used).Failure? ==> TpFp(dets, gts, cls, thr, used) == TpFp(dets, gts, cls, thr, {})
    ensures TpFp(dets, gts, cls, thr, used).Success? == TpFp(dets, gts, cls, thr, {}).Success?
    ensures TpFp(dets, gts, cls, thr, used).Success? ==>
              && TpFp(dets, gts, cls, thr, used).value.tp == TpFp(dets, gts, cls, thr, {}).value.tp
              && TpFp(dets, gts, cls, thr, used).value.fp == TpFp(dets, gts, cls, thr, {}).value.fp
              && TpFp(dets, gts, cls, thr, used).value.used == used + TpFp(dets, gts, cls, thr, {}).value.used
    decreases |dets|
  {
    if dets != [] {
      var n := |dets| - 1;
      assert forall j :: 0 <= j < n ==> dets[..n][j] == dets[j];
      TpFpIgnoresOtherKeys(dets[..n], gts, cls, thr, used);
      var a := TpFp(dets[..n], gts, cls, thr, used);
      var b := TpFp(dets[..n], gts, cls, thr, {});
      if a.Success? {
        var d := dets[n];
        match BestMatch(d.coordinates, Lookup(gts, d.fileId), cls)
        case Failure(_) =>
        case Success(NoCandidate) =>
        case Success(Found(i, iou)) =>
          var k := (d.fileId, i);
          assert IsClassKey(gts, cls, k);
          assert k in a.value.used <==> k in b.value.used;
          if iou >= thr && k !in a.value.used {
            assert a.value.used + {k} == used + (b.value.used + {k});
          }
      }
    }
  }

  /** Two detections of one box: the higher-scored one consumes it, the second is a false
      positive. */
  lemma DoubleDetectionExample()
    ensures var gt := BoxRecord(Box(0, 0, 9, 9), "car", "img", 1.0);
            var dt := BoxRecord(Box(0, 0, 9, 9), "car", "img", 0.9);
            var r := TpFp([dt, dt], map["img" := [gt]], "car", 0.5, {});
            r == Success(Flags([1, 0], [0, 1], {("img", 0)}))
  {
    var gt := BoxRecord(Box(0, 0, 9, 9), "car", "img", 1.0);
    var dt := BoxRecord(Box(0, 0, 9, 9), "car", "img", 0.9);
    IouSelf(dt.coordinates);
    assert [gt][..0] == [];
    assert BestMatch(dt.coordinates, [gt], "car") == Success(Found(0, 1.0));
    var view := map["img" := [gt]];
    assert Lookup(view, "img") == [gt];
    assert [dt][..0] == [];
    assert BestMatch(dt.coordinates, Lookup(view, dt.fileId), "car") == Success(Found(0, 1.0));
    assert {} + {("img", 0)} == {("img", 0)};
    assert Step(dt, view, "car", 0.5, {}) == Success((true, {("img", 0)}));
    assert TpFp([], view, "car", 0.5, {}) == Success(Flags([], [], {}));
    assert [] + [1] == [1] && [] + [0] == [0];
    assert TpFp([dt], view, "car", 0.5, {}) == Success(Flags([1], [0], {("img", 0)}));
    assert Step(dt, view, "car", 0.5, {("img", 0)}) == Success((false, {("img", 0)}));
    assert [dt, dt][..1] == [dt];
    assert [1] + [0] == [1, 0] && [0] + [1] == [0, 1];
  }

  /** Whether a ground-truth box is flagged is whether its key is in `MatchedKeys`. */
  lemma MatchedKeysAt(gts: GtIndex, f: FileId, i: nat)
    requires f in gts && i < |gts[f]|
    ensures (f, i) in MatchedKeys(gts) <==> gts[f][i].matched
  {
  }

  /** One detection of the pass: it takes its best ground-truth box, and is a true positive
      when the IoU reaches the threshold and the box is not yet matched, which then marks it
      matched; otherwise it is a false positive. Flag and matched boxes follow `Step`. */
  method ScoreDetection(d: BoundingBox, cls: Label, gts: GtIndex, thr: real) returns (r: Result<bool>)
    requires Distinct(gts)
    modifies Objects(gts)
    ensures match Step(d.View(), ViewIndex(gts), cls, thr, old(MatchedKeys(gts)))
            case Failure(e) => r == Failure(e)
            case Success((isTp, used)) => r == Success(isTp) && MatchedKeys(gts) == used
  {
    LookupViews(gts, d.fileId);
    ghost var used := MatchedKeys(gts);
    var best := GetBestGtBox(d, cls, gts);
    if best.Failure? {
      return Failure(best.error);
    }
    var (gt, iou) := best.value;
    ghost var bm := BestMatch(d.coordinates, Views(Lookup(gts, d.fileId)), cls).value;
    if bm.Found? {
      MatchedKeysAt(gts, d.fileId, bm.index);
    }
    if iou >= thr && !gt.matched {
      label before:
      gt.SetMatched(true);
      assert forall g, j | g in gts && 0 <= j < |gts[g]| && gts[g][j] != gt ::
               gts[g][j].matched == old@before(gts[g][j].matched);
      if bm.Found? {
        ghost var key := (d.fileId, bm.index);
        forall g, j | g in gts && 0 <= j < |gts[g]|
          ensures (g, j) in MatchedKeys(gts) <==> (g, j) in used + {key}
        {
          MatchedKeysAt(gts, g, j);
        }
      } else {
        forall g, j | g in gts && 0 <= j < |gts[g]|
          ensures (g, j) in MatchedKeys(gts) <==> (g, j) in used
        {
          MatchedKeysAt(gts, g, j);
        }
      }
      r := Success(true);
    } else {
      r := Success(false);
    }
  }

  /** Marks position k as a true positive (1 in `tp`) or a false positive (1 in `fp`), with
      0 in the other array there. */
  method SetFlags(tp: array<int>, fp: array<int>, k: nat, isTp: bool)
    requires k < tp.Length && k < fp.Length && tp != fp
    modifies tp, fp
    ensures tp[..k + 1] == old(tp[..k]) + [if isTp then 1 else 0]
    ensures fp[..k + 1] == old(fp[..k]) + [if isTp then 0 else 1]
  {
    tp[k], fp[k] := if isTp then 1 else 0, if isTp then 0 else 1;
    assert tp[..k + 1] == tp[..k] + [tp[k]];
    assert fp[..k + 1] == fp[..k] + [fp[k]];
  }

  /** The loop body of the pass: scores detection `k` and records its flag in `tp` and `fp`.
      The flags and matched boxes so far follow `TpFp` on the first `k` detections, and
      afterwards on the first `k + 1`, or the scan failed and so does the whole pass. */
  method FlagDetection(dets: seq<BoundingBox>, k: nat, cls: Label, gts: GtIndex, thr: real,
                       tp: array<int>, fp: array<int>, ghost used0: set<Key>)
    returns (failure: Option<Error>)
    requires Distinct(gts)
    requires k < |dets| == tp.Length == fp.Length && tp != fp
    requires TpFp(Views(dets)[..k], ViewIndex(gts), cls, thr, used0) == Success(Flags(tp[..k], fp[..k], MatchedKeys(gts)))
    modifies Objects(gts), tp, fp
    ensures failure.Some? ==> TpFp(Views(dets), ViewIndex(gts), cls, thr, used0) == Failure(failure.value)
    ensures failure.None? ==>
              TpFp(Views(dets)[..k + 1], ViewIndex(gts), cls, thr, used0) == Success(Flags(tp[..k + 1], fp[..k + 1], MatchedKeys(gts)))
  {
    ghost var ds := Views(dets);
    assert ds[..k + 1] == ds[..k] + [dets[k].View()];
    TpFpSnoc(ds[..k], dets[k].View(), ViewIndex(gts), cls, thr, used0);
    var isTp := ScoreDetection(dets[k], cls, gts, thr);
    if isTp.Failure? {
      TpFpPrefixFailure(ds, k + 1, ViewIndex(gts), cls, thr, used0);
      return Some(isTp.error);
    }
    SetFlags(tp, fp, k, isTp.value);
    failure := None;
  }

  /** The true/false-positive pass over a class's detections, in order. The flags follow
      `TpFp` started from the boxes already matched, and the matched boxes afterwards are
      those `TpFp` has consumed. */
  method ComputeTpFp(dets: seq<BoundingBox>, cls: Label, gts: GtIndex, thr: real)
    returns (r: Result<(array<int>, array<int>)>)
    requires Distinct(gts)
    modifies Objects(gts)
    ensures match TpFp(Views(dets), ViewIndex(gts), cls, thr, old(MatchedKeys(gts)))
            case Failure(e) => r == Failure(e)
            case Success(f) =>
              && r.Success? && fresh(r.value.0) && fresh(r.value.1) && r.value.0 != r.value.1
              && r.value.0[..] == f.tp && r.value.1[..] == f.fp
              && MatchedKeys(gts) == f.used
  {
    ghost var used0 := MatchedKeys(gts);
    var tp := new int[|dets|];
    var fp := new int[|dets|];
    var k := 0;
    assert Views(dets)[..0] == [];
    while k < |dets|
      invariant 0 <= k <= |dets|
      invariant TpFp(Views(dets)[..k], ViewIndex(gts), cls, thr, used0) == Success(Flags(tp[..k], fp[..k], MatchedKeys(gts)))
      invariant fresh(tp) && fresh(fp)
    {
      var failure := FlagDetection(dets, k, cls, gts, thr, tp, fp, used0);
      if failure.Some? {
        return Failure(failure.value);
      }
      k := k + 1;
    }
    assert Views(dets)[..k] == Views(dets);
    assert tp[..] == tp[..k] && fp[..] == fp[..k];
    r := Success((tp, fp));
  }
}
