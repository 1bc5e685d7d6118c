/** Building the box objects from per-file dicts: `_generate_gt_objs` and `_generate_dt_objs`
    in obj_det_metrics/utils.py. */
module Grouping {
  import opened Wrappers
  import opened Variables
  import opened Matching
  import opened Sorting

  /** One file's dict: `coordinates`, `class_labels`, `file_id` and, for detections,
      `conf_score`. Ground-truth files leave `scores` unused. */
  datatype FileRecord = FileRecord(fileId: FileId, boxes: seq<Box>, labels: seq<Label>, scores: seq<real>)

  /** Every label has its box (and, for a detection, its score): the loops index the
      coordinates and scores by the label positions. */
  predicate GtShaped(f: FileRecord) {
    |f.labels| <= |f.boxes|
  }

  predicate DtShaped(f: FileRecord) {
    |f.labels| <= |f.boxes| && |f.labels| <= |f.scores|
  }

  /** Every position labelled `c` has its box and its score. The per-class comprehension
      reads the coordinates and scores only at those positions, so other labels may lack
      them. */
  predicate ClassShaped(f: FileRecord, c: Label) {
    forall i | 0 <= i < |f.labels| && f.labels[i] == c :: i < |f.boxes| && i < |f.scores|
  }

  /** A ground-truth file's boxes, in order, each with confidence 1.0. */
  function GtRecords(f: FileRecord): seq<BoxRecord>
    requires GtShaped(f)
  {
    seq(|f.labels|, i requires 0 <= i < |f.labels| => BoxRecord(f.boxes[i], f.labels[i], f.fileId, 1.0))
  }

  /** A detection file's boxes, in order, with their scores. */
  function DtRecords(f: FileRecord): seq<BoxRecord>
    requires DtShaped(f)
  {
    seq(|f.labels|, i requires 0 <= i < |f.labels| => BoxRecord(f.boxes[i], f.labels[i], f.fileId, f.scores[i]))
  }

  function AllGt(files: seq<FileRecord>): seq<BoxRecord>
    requires forall f | f in files :: GtShaped(f)
  {
    if files == [] then [] else AllGt(files[..|files| - 1]) + GtRecords(files[|files| - 1])
  }

  function AllDt(files: seq<FileRecord>): seq<BoxRecord>
    requires forall f | f in files :: DtShaped(f)
  {
    if files == [] then [] else AllDt(files[..|files| - 1]) + DtRecords(files[|files| - 1])
  }

  /** The detections of class `c` among the first `n` positions of a file, in order, with
      their scores. */
  function ClassRecordsUpTo(f: FileRecord, c: Label, n: nat): (r: seq<BoxRecord>)
    requires n <= |f.labels| && ClassShaped(f, c)
    ensures forall x | x in r :: x.className == c && x.fileId == f.fileId
    ensures |r| <= n
  {
    if n == 0 then []
    else
      ClassRecordsUpTo(f, c, n - 1)
      + if f.labels[n - 1] == c then [BoxRecord(f.boxes[n - 1], c, f.fileId, f.scores[n - 1])] else []
  }

  /** The detections of class `c` in a file. */
  function ClassRecords(f: FileRecord, c: Label): seq<BoxRecord>
    requires ClassShaped(f, c)
  {
    ClassRecordsUpTo(f, c, |f.labels|)
  }

  /** The detections of class `c` in the files, file after file. */
  function ClassDets(files: seq<FileRecord>, c: Label): (r: seq<BoxRecord>)
    requires forall f | f in files :: ClassShaped(f, c)
    ensures forall x | x in r :: x.className == c
  {
    if files == [] then [] else ClassDets(files[..|files| - 1], c) + ClassRecords(files[|files| - 1], c)
  }

  function FileIds(files: seq<FileRecord>): set<FileId> {
    set f | f in files :: f.fileId
  }

  /** The boxes of one class, and of one file, in order. */
  function OfClass(recs: seq<BoxRecord>, c: Label): (r: seq<BoxRecord>)
    ensures forall x | x in r :: x in recs && x.className == c
  {
    if recs == [] then []
    else
      var last := recs[|recs| - 1];
      OfClass(recs[..|recs| - 1], c) + if last.className == c then [last] else []
  }

  function OfFile(recs: seq<BoxRecord>, f: FileId): seq<BoxRecord> {
    if recs == [] then []
    else
      var last := recs[|recs| - 1];
      OfFile(recs[..|recs| - 1], f) + if last.fileId == f then [last] else []
  }

  /** The index a run of appends to a defaultdict of lists builds, one box at a time. */
  function Group(recs: seq<BoxRecord>): GtView {
    if recs == [] then map[]
    else
      var m := Group(recs[..|recs| - 1]);
      var last := recs[|recs| - 1];
      m[last.fileId := Lookup(m, last.fileId) + [last]]
  }

  /** The counter a run of increments on a defaultdict of ints builds, one box at a time. */
  function Tally(recs: seq<BoxRecord>): map<Label, nat> {
    if recs == [] then map[]
    else
      var m := Tally(recs[..|recs| - 1]);
      var c := recs[|recs| - 1].className;
      m[c := (if c in m then m[c] else 0) + 1]
  }

  /** The index lists, per file id, exactly that file's boxes in input order, and has a key
      for exactly the file ids that have a box. */
  lemma {:induction false} GroupIsFilterByFile(recs: seq<BoxRecord>)
    ensures forall f :: f in Group(recs) <==> exists x :: x in recs && x.fileId == f
    ensures forall f :: Lookup(Group(recs), f) == OfFile(recs, f)
    decreases |recs|
  {
    if recs != [] {
      var init := recs[..|recs| - 1];
      GroupIsFilterByFile(init);
      forall f ensures f in Group(recs) <==> exists x :: x in recs && x.fileId == f {
        if f in Group(init) {
          var x :| x in init && x.fileId == f;
          assert x in recs;
        }
        if x :| x in recs && x.fileId == f {
          if x != recs[|recs| - 1] {
            var j :| 0 <= j < |recs| && recs[j] == x;
            assert init[j] == x;
          }
        }
      }
    }
  }

  /** The counter has a key for exactly the classes that occur, holding their number of
      boxes. */
  lemma {:induction false} TallyCountsEachClass(recs: seq<BoxRecord>)
    ensures forall c :: c in Tally(recs) <==> exists x :: x in recs && x.className == c
    ensures forall c | c in Tally(recs) :: Tally(recs)[c] == |OfClass(recs, c)|
    decreases |recs|
  {
    if recs != [] {
      var init := recs[..|recs| - 1];
      TallyCountsEachClass(init);
      forall c ensures c in Tally(recs) <==> exists x :: x in recs && x.className == c {
        if c in Tally(init) {
          var x :| x in init && x.className == c;
          assert x in recs;
        }
        if x :| x in recs && x.className == c {
          if x != recs[|recs| - 1] {
            var j :| 0 <= j < |recs| && recs[j] == x;
            assert init[j] == x;
          }
        }
      }
      forall c | c in Tally(recs) ensures Tally(recs)[c] == |OfClass(recs, c)| {
        if c !in Tally(init) {
          OfClassEmpty(init, c);
        }
      }
    }
  }

  /** Appending a box to its file's list adds exactly one key, the new position, and that
      key is new; it is a key of the box's class. */
  lemma ClassKeysAppend(m: GtView, x: BoxRecord, c: Label)
    ensures (x.fileId, |Lookup(m, x.fileId)|) !in ClassKeys(m, c)
    ensures ClassKeys(m[x.fileId := Lookup(m, x.fileId) + [x]], c)
            == ClassKeys(m, c) + (if x.className == c then {(x.fileId, |Lookup(m, x.fileId)|)} else {})
  {
    var f := x.fileId;
    var l := Lookup(m, f);
    var m' := m[f := l + [x]];
    var rhs := ClassKeys(m, c) + (if x.className == c then {(f, |l|)} else {});
    forall k: Key ensures k in ClassKeys(m', c) <==> k in rhs {
      if k.0 == f && k.1 < |l| {
        assert (l + [x])[k.1] == l[k.1];
      }
      if k in ClassKeys(m', c) {
        assert IsClassKey(m', c, k);
      }
      if k in ClassKeys(m, c) {
        assert IsClassKey(m, c, k);
      }
    }
  }

  /** The index holds one key per box of the class: as many as the class has boxes. */
  lemma {:induction false} ClassKeysCount(recs: seq<BoxRecord>, c: Label)
    ensures |ClassKeys(Group(recs), c)| == |OfClass(recs, c)|
    decreases |recs|
  {
    if recs != [] {
      var init := recs[..|recs| - 1];
      ClassKeysCount(init, c);
      ClassKeysAppend(Group(init), recs[|recs| - 1], c);
    }
  }

  /** Every box of the class is kept. */
  lemma {:induction false} OfClassKeeps(recs: seq<BoxRecord>, x: BoxRecord, c: Label)
    requires x in recs && x.className == c
    ensures x in OfClass(recs, c)
    decreases |recs|
  {
    var n := |recs| - 1;
    if recs[n] != x {
      var j :| 0 <= j < |recs| && recs[j] == x;
      assert recs[..n][j] == x;
      OfClassKeeps(recs[..n], x, c);
    }
  }

  lemma {:induction false} OfFileKeeps(recs: seq<BoxRecord>, x: BoxRecord, f: FileId)
    requires x in recs && x.fileId == f
    ensures x in OfFile(recs, f)
    decreases |recs|
  {
    var n := |recs| - 1;
    if recs[n] != x {
      var j :| 0 <= j < |recs| && recs[j] == x;
      assert recs[..n][j] == x;
      OfFileKeeps(recs[..n], x, f);
    }
  }

  lemma {:induction false} OfClassEmpty(recs: seq<BoxRecord>, c: Label)
    requires forall x | x in recs :: x.className != c
    ensures OfClass(recs, c) == []
    decreases |recs|
  {
    if recs != [] {
      var init := recs[..|recs| - 1];
      assert forall x | x in init :: x in recs;
      OfClassEmpty(init, c);
    }
  }

  lemma AllGtSnoc(files: seq<FileRecord>, k: nat)
    requires k < |files| && forall f | f in files :: GtShaped(f)
    ensures AllGt(files[..k + 1]) == AllGt(files[..k]) + GtRecords(files[k])
  {
    assert files[..k + 1][..k] == files[..k];
  }

  lemma AllDtSnoc(files: seq<FileRecord>, k: nat)
    requires k < |files| && forall f | f in files :: DtShaped(f)
    ensures AllDt(files[..k + 1]) == AllDt(files[..k]) + DtRecords(files[k])
  {
    assert files[..k + 1][..k] == files[..k];
  }

  lemma ViewIndexUpdate(index: GtIndex, f: FileId, b: BoundingBox)
    ensures ViewIndex(index[f := Lookup(index, f) + [b]])
              == ViewIndex(index)[f := Lookup(ViewIndex(index), f) + [b.View()]]
  {
    LookupViews(index, f);
    assert Views(Lookup(index, f) + [b]) == Views(Lookup(index, f)) + [b.View()];
  }

  lemma DistinctUpdate(index: GtIndex, f: FileId, b: BoundingBox)
    requires Distinct(index) && b !in Objects(index)
    ensures Distinct(index[f := Lookup(index, f) + [b]])
    ensures Objects(index[f := Lookup(index, f) + [b]]) == Objects(index) + {b}
  {
    var m := index[f := Lookup(index, f) + [b]];
    forall o | o in Objects(m) ensures o in Objects(index) + {b} {
      var g, i :| g in m && 0 <= i < |m[g]| && m[g][i] == o;
      if g != f || i < |Lookup(index, f)| {
        assert index[g][i] == o;
      }
    }
    forall o | o in Objects(index) + {b} ensures o in Objects(m) {
      if o == b {
        assert m[f][|m[f]| - 1] == b;
      } else {
        var g, i :| g in index && 0 <= i < |index[g]| && index[g][i] == o;
        assert m[g][i] == o;
      }
    }
  }

  /** One step of the inner loop of `_generate_gt_objs`: a new ground-truth object with
      confidence 1.0 is appended to its file id's list, and its class counted. */
  method AddBox(x: BoxRecord, index: GtIndex, counts: map<Label, nat>, ghost done: seq<BoxRecord>)
    returns (index': GtIndex, counts': map<Label, nat>)
    requires x.confScore == 1.0
    requires counts == Tally(done) && ViewIndex(index) == Group(done) && Distinct(index)
    ensures counts' == Tally(done + [x])
    ensures ViewIndex(index') == Group(done + [x])
    ensures Distinct(index')
    ensures forall o | o in Objects(index') :: o in Objects(index) || (fresh(o) && !o.matched)
  {
    assert (done + [x])[..|done|] == done;
    var b := new BoundingBox(x.coordinates, x.className, x.fileId, confScore := 1.0);
    ViewIndexUpdate(index, x.fileId, b);
    DistinctUpdate(index, x.fileId, b);
    index' := index[x.fileId := Lookup(index, x.fileId) + [b]];
    var c := x.className;
    counts' := counts[c := (if c in counts then counts[c] else 0) + 1];
  }

  /** Taking one more element of `s` after `before`. */
  lemma PrefixStep(before: seq<BoxRecord>, s: seq<BoxRecord>, i: nat)
    requires i < |s|
    ensures before + s[..i + 1] == (before + s[..i]) + [s[i]]
  {
    assert s[..i + 1] == s[..i] + [s[i]];
  }

  /** The inner loop of `_generate_gt_objs` over the boxes of one file. */
  method AddFileBoxes(file: FileRecord, index: GtIndex, counts: map<Label, nat>, ghost before: seq<BoxRecord>)
    returns (index': GtIndex, counts': map<Label, nat>)
    requires GtShaped(file)
    requires counts == Tally(before) && ViewIndex(index) == Group(before) && Distinct(index)
    ensures counts' == Tally(before + GtRecords(file))
    ensures ViewIndex(index') == Group(before + GtRecords(file))
    ensures Distinct(index')
    ensures forall o | o in Objects(index') :: o in Objects(index) || (fresh(o) && !o.matched)
  {
    index', counts' := index, counts;
    var i := 0;
    assert GtRecords(file)[..0] == [];
    assert before + [] == before;
    while i < |file.labels|
      invariant 0 <= i <= |file.labels|
      invariant counts' == Tally(before + GtRecords(file)[..i])
      invariant ViewIndex(index') == Group(before + GtRecords(file)[..i])
      invariant Distinct(index')
      invariant forall o | o in Objects(index') :: o in Objects(index) || (fresh(o) && !o.matched)
    {
      PrefixStep(before, GtRecords(file), i);
      index', counts' := AddBox(BoxRecord(file.boxes[i], file.labels[i], file.fileId, 1.0), index', counts',
                                before + GtRecords(file)[..i]);
      i := i + 1;
    }
    assert GtRecords(file)[..i] == GtRecords(file);
  }

  /** `_generate_gt_objs`: the number of ground-truth boxes per class and the ground-truth
      box objects grouped by file id, in input order, with confidence 1.0. Every ground-truth
      file id must occur among the detection files. The objects are new, distinct and
      unmatched. */
  method GenerateGtObjs(gtFiles: seq<FileRecord>, dtFiles: seq<FileRecord>)
    returns (r: Result<(map<Label, nat>, GtIndex)>)
    requires forall f | f in gtFiles :: GtShaped(f)
    ensures r.Failure? <==> !FilesKnown(gtFiles, FileIds(dtFiles))
    ensures r.Failure? ==> r.error == UnknownFileId
    ensures r.Success? ==>
              && r.value.0 == Tally(AllGt(gtFiles))
              && ViewIndex(r.value.1) == Group(AllGt(gtFiles))
              && Distinct(r.value.1)
              && MatchedKeys(r.value.1) == {}
              && forall o | o in Objects(r.value.1) :: fresh(o)
  {
    var counts: map<Label, nat> := map[];
    var dtIds := FileIds(dtFiles);
    var index: GtIndex := map[];
    var fi := 0;
    assert gtFiles[..0] == [];
    while fi < |gtFiles|
      invariant 0 <= fi <= |gtFiles|
      invariant forall j | 0 <= j < fi :: gtFiles[j].fileId in dtIds
      invariant counts == Tally(AllGt(gtFiles[..fi]))
      invariant ViewIndex(index) == Group(AllGt(gtFiles[..fi]))
      invariant Distinct(index)
      invariant forall o | o in Objects(index) :: fresh(o) && !o.matched
    {
      var file := gtFiles[fi];
      if file.fileId !in dtIds {
        return Failure(UnknownFileId);
      }
      AllGtSnoc(gtFiles, fi);
      index, counts := AddFileBoxes(file, index, counts, AllGt(gtFiles[..fi]));
      fi := fi + 1;
    }
    assert gtFiles[..fi] == gtFiles;
    r := Success((counts, index));
  }

  /** The sort key of `_generate_dt_objs`: the confidence score. */
  function Score(x: BoxRecord): real {
    x.confScore
  }

  function ObjScore(b: BoundingBox): real {
    b.confScore
  }

  function ViewOf(b: BoundingBox): BoxRecord {
    b.View()
  }

  lemma {:induction false} OfClassAppend(a: seq<BoxRecord>, b: seq<BoxRecord>, c: Label)
    ensures OfClass(a + b, c) == OfClass(a, c) + OfClass(b, c)
    decreases |b|
  {
    if b == [] {
      assert a + b == a;
    } else {
      var n := |b| - 1;
      assert (a + b)[..|a + b| - 1] == a + b[..n];
      OfClassAppend(a, b[..n], c);
    }
  }

  /** Sorting the objects by score and then taking their attributes is sorting the
      attributes by score. */
  lemma SortObjectsByScore(bs: seq<BoundingBox>)
    ensures Views(SortDesc(bs, ObjScore)) == SortDesc(Views(bs), Score)
  {
    SortDescMap(bs, ObjScore, ViewOf, Score);
    assert Views(bs) == MapSeq(bs, ViewOf);
    assert Views(SortDesc(bs, ObjScore)) == MapSeq(SortDesc(bs, ObjScore), ViewOf);
  }

  /** The list comprehension of `_generate_dt_objs` over one file: a new object for each of
      its boxes of class `c`, in order. */
  method ClassBoxesOfFile(file: FileRecord, c: Label) returns (bs: seq<BoundingBox>)
    requires ClassShaped(file, c)
    ensures Views(bs) == ClassRecords(file, c)
    ensures forall o | o in bs :: fresh(o)
  {
    bs := [];
    var i := 0;
    while i < |file.labels|
      invariant 0 <= i <= |file.labels|
      invariant Views(bs) == ClassRecordsUpTo(file, c, i)
      invariant forall o | o in bs :: fresh(o)
    {
      if file.labels[i] == c {
        var b := new BoundingBox(file.boxes[i], file.labels[i], file.fileId, confScore := file.scores[i]);
        ViewsSnoc(bs, b);
        bs := bs + [b];
      }
      i := i + 1;
    }
  }

  /** On a file with a box and a score for every label, a class's detections are the
      filter of all its records by class. */
  lemma {:induction false} ClassRecordsUpToIsOfClass(f: FileRecord, c: Label, n: nat)
    requires DtShaped(f) && n <= |f.labels|
    ensures ClassShaped(f, c)
    ensures ClassRecordsUpTo(f, c, n) == OfClass(DtRecords(f)[..n], c)
  {
    if n > 0 {
      ClassRecordsUpToIsOfClass(f, c, n - 1);
      OfClassPrefix(DtRecords(f), n - 1, c);
      assert DtRecords(f)[n - 1] == BoxRecord(f.boxes[n - 1], f.labels[n - 1], f.fileId, f.scores[n - 1]);
    } else {
      assert DtRecords(f)[..0] == [];
    }
  }

  lemma ClassRecordsIsOfClass(f: FileRecord, c: Label)
    requires DtShaped(f)
    ensures ClassShaped(f, c)
    ensures ClassRecords(f, c) == OfClass(DtRecords(f), c)
  {
    ClassRecordsUpToIsOfClass(f, c, |f.labels|);
    assert DtRecords(f)[..|f.labels|] == DtRecords(f);
  }

  /** On files with a box and a score for every label, a class's detections over the files
      are the filter by class of all their records. */
  lemma {:induction false} ClassDetsIsOfClass(files: seq<FileRecord>, c: Label)
    requires forall f | f in files :: DtShaped(f)
    ensures forall f | f in files :: ClassShaped(f, c)
    ensures ClassDets(files, c) == OfClass(AllDt(files), c)
    decreases |files|
  {
    forall f | f in files ensures ClassShaped(f, c) {
      ClassRecordsIsOfClass(f, c);
    }
    if files != [] {
      var n := |files| - 1;
      assert forall f | f in files[..n] :: f in files;
      ClassDetsIsOfClass(files[..n], c);
      ClassRecordsIsOfClass(files[n], c);
      OfClassAppend(AllDt(files[..n]), DtRecords(files[n]), c);
    }
  }

  lemma OfClassPrefix(recs: seq<BoxRecord>, i: nat, c: Label)
    requires i < |recs|
    ensures OfClass(recs[..i + 1], c) == OfClass(recs[..i], c) + if recs[i].className == c then [recs[i]] else []
  {
    assert recs[..i + 1][..i] == recs[..i];
  }

  /** One more file's boxes of class `c` extend the class's detections of the files before. */
  lemma CollectClassStep(list: seq<BoundingBox>, bs: seq<BoundingBox>, dtFiles: seq<FileRecord>, fi: nat, c: Label)
    requires fi < |dtFiles| && forall f | f in dtFiles :: ClassShaped(f, c)
    requires Views(list) == ClassDets(dtFiles[..fi], c)
    requires Views(bs) == ClassRecords(dtFiles[fi], c)
    ensures Views(list + bs) == ClassDets(dtFiles[..fi + 1], c)
  {
    assert dtFiles[..fi + 1][..fi] == dtFiles[..fi];
    ViewsAppend(list, bs);
  }

  /** Every file of `files` names a file of the other dict. */
  predicate FilesKnown(files: seq<FileRecord>, otherIds: set<FileId>) {
    forall f | f in files :: f.fileId in otherIds
  }

  /** The inner loop of `_generate_dt_objs` for one class: every detection file id must be a
      ground-truth file id; the class's detections of all files, in order. */
  method CollectClass(c: Label, dtFiles: seq<FileRecord>, gtFileIds: set<FileId>)
    returns (r: Result<seq<BoundingBox>>)
    requires forall f | f in dtFiles :: ClassShaped(f, c)
    ensures r.Failure? <==> !FilesKnown(dtFiles, gtFileIds)
    ensures r.Failure? ==> r.error == UnknownFileId
    ensures r.Success? ==> Views(r.value) == ClassDets(dtFiles, c)
    ensures r.Success? ==> forall o | o in r.value :: fresh(o)
  {
    var list: seq<BoundingBox> := [];
    var fi := 0;
    assert dtFiles[..0] == [];
    while fi < |dtFiles|
      invariant 0 <= fi <= |dtFiles|
      invariant forall j | 0 <= j < fi :: dtFiles[j].fileId in gtFileIds
      invariant Views(list) == ClassDets(dtFiles[..fi], c)
      invariant forall o | o in list :: fresh(o)
    {
      var file := dtFiles[fi];
      if file.fileId !in gtFileIds {
        return Failure(UnknownFileId);
      }
      var bs := ClassBoxesOfFile(file, c);
      CollectClassStep(list, bs, dtFiles, fi, c);
      list := list + bs;
      fi := fi + 1;
    }
    assert dtFiles[..fi] == dtFiles;
    r := Success(list);
  }

  /** `_generate_dt_objs`: for each ground-truth class, exactly that class's detections of
      all files, sorted by score from high to low, equal scores keeping input order. Every
      detection file id must be a ground-truth file id; the check runs inside the class
      loop, so with no class nothing is checked. */
  method GenerateDtObjs(classes: seq<Label>, dtFiles: seq<FileRecord>, gtFileIds: set<FileId>)
    returns (r: Result<map<Label, seq<BoundingBox>>>)
    requires forall i, j | 0 <= i < j < |classes| :: classes[i] != classes[j]
    requires forall f, c | f in dtFiles && c in classes :: ClassShaped(f, c)
    ensures r.Failure? <==> |classes| > 0 && !FilesKnown(dtFiles, gtFileIds)
    ensures r.Failure? ==> r.error == UnknownFileId
    ensures r.Success? ==> r.value.Keys == LabelSet(classes)
    ensures r.Success? ==> forall c | c in r.value :: Views(r.value[c]) == SortDesc(ClassDets(dtFiles, c), Score)
  {
    var byClass: map<Label, seq<BoundingBox>> := map[];
    var ci := 0;
    while ci < |classes|
      invariant 0 <= ci <= |classes|
      invariant ci > 0 ==> FilesKnown(dtFiles, gtFileIds)
      invariant byClass.Keys == LabelSet(classes[..ci])
      invariant forall c | c in byClass :: Views(byClass[c]) == SortDesc(ClassDets(dtFiles, c), Score)
    {
      var c := classes[ci];
      assert forall f | f in dtFiles :: ClassShaped(f, c);
      var list := CollectClass(c, dtFiles, gtFileIds);
      if list.Failure? {
        return Failure(list.error);
      }
      SortObjectsByScore(list.value);
      byClass := byClass[c := SortDesc(list.value, ObjScore)];
      assert classes[..ci + 1] == classes[..ci] + [c];
      LabelSetSnoc(classes[..ci], c);
      ci := ci + 1;
    }
    assert classes[..ci] == classes;
    r := Success(byClass);
  }
}
