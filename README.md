# obj-det-metrics scoring core in Dafny

This project models the scoring core of `obj-det-metrics`, a Python package that scores
object detections against ground truth. It computes the average precision (AP) of each
class and the mean AP (mAP) at one IoU threshold, and it also averages both over a list of
thresholds. It proves properties of that model.

The modules follow the three core files:

- `Variables` (variables.dfy): `BoundingBox` is a class. Its read-only attributes are
  constant fields. `matched` is the one field the scoring writes, through `SetMatched`.
- `Geometry`, `Cumsum`, `Sorting`, `Matching` and `Grouping` (geometry.dfy, cumsum.dfy,
  sorting.dfy, matching.dfy, grouping.dfy): the helpers of `obj_det_metrics/utils.py`.
  - The pixel-inclusive IoU.
  - The in-place cumulative sum over an `array`.
  - The stable descending sort by confidence.
  - The best-match scan and the true/false-positive pass, which sets `matched` on the
    ground-truth objects.
  - The building of ground-truth and detection objects from per-file dicts.
- `Validation`, `AveragePrecision`, `ApMap` and `ApMapRange` (validation.dfy,
  average_precision.dfy, ap_map.dfy, ap_map_range.dfy): `obj_det_metrics/ap_map.py`.
  - Key and length validation.
  - The VOC 2012 AP: padding, the backward maximum loop over an `array`, and the area under
    the step curve.
  - `calculate_ap_map`.
  - `calculate_ap_map_range`.
- `Wrappers` (wrappers.dfy): `Option`, `Result`, the error kinds, and "apply to each item in
  order and stop at the first failure".

Every Python exception is an `Error` value in a `Result`.

Each operation has two forms:

- a specification function on values, such as `ApMap.ApMapResult`, `Matching.TpFp`,
  `AveragePrecision.ApValue` or `Cumsum.PrefixSums`;
- a method that does what the source does, such as `ApMap.CalculateApMap`,
  `Matching.ComputeTpFp`, `AveragePrecision.VocAp` or `Cumsum.CumSum`. It loops, mutates
  arrays and maps, and sets `matched` flags on objects. It is proved to return exactly what
  the specification function returns.

The lemmas then state what the source promises about the specification functions.

`ap_map.py` imports four helpers from `utils.py`: `_compute_cumsum`,
`_compute_tp_fp_for_detections`, `_generate_detections_by_class` and
`_generate_ground_truths`. Only the first has a counterpart there, under the name
`_compute_counts_cumsum`. The other three are not part of this model's source. They are
rebuilt from the code that does exist:

- the true/false-positive pass follows the Cartucho/mAP evaluation that `utils.py` credits,
  built on `_get_best_gt_bbox`;
- the per-class detections are the `_generate_dt_objs` filter and sort, on one file;
- the ground-truth list is the `_generate_gt_objs` loop, on one file.

`calculate_ap_map` takes single dicts. It is modelled as the one-file case of the per-file
grouping: every box carries the file id `ApMap.Image`.

## Model

| member | source | states |
|---|---|---|
| Variables.BoundingBox.constructor | obj_det_metrics/variables.py:13-36 | every attribute holds the argument given; `matched` defaults to false and `conf_score` to 1.0 |
| Variables.BoundingBox.SetMatched | obj_det_metrics/variables.py:84-90 | sets `matched` to the value given and changes nothing else |
| Validation.FillScores | obj_det_metrics/ap_map.py:115-116 | a missing `scores` becomes one 1.0 per box; present scores and the other keys are left alone |
| Validation.CheckDicts | obj_det_metrics/ap_map.py:106-122 | MissingKey exactly when a ground-truth or result key is missing; LengthMismatch exactly when the keys are there but the box, label or score counts differ; no other failure, so dicts passing both checks are accepted, with the inputs validated and the scores filled in |
| Validation.CheckDictsIdempotent | obj_det_metrics/ap_map.py:106-122 | validating the validated dicts again gives the same result |
| Geometry.Iou | obj_det_metrics/utils.py:101-113 | whenever the division is defined the IoU lies in [0, 1], whatever the boxes |
| Geometry.RatioInUnitInterval | obj_det_metrics/utils.py:101-113 | boxes that share a pixel are both well-formed and boxes that share none have an IoU of 0, so any defined IoU lies in [0, 1] |
| Geometry.InterBounded | obj_det_metrics/utils.py:107-111 | both areas are positive and the intersection is no larger than either box |
| Geometry.IouInUnitInterval | obj_det_metrics/utils.py:107-113 | between well-formed boxes the union is positive, so the division is defined and gives a value in [0, 1] |
| Geometry.IouSymmetric | obj_det_metrics/utils.py:101-113 | swapping the detection and the ground truth changes neither the union nor the IoU |
| Geometry.IouSelf | obj_det_metrics/utils.py:101-113 | a well-formed box has IoU 1 with itself |
| Geometry.IouZeroIffDisjoint | obj_det_metrics/utils.py:101-113 | between well-formed boxes the IoU is 0 exactly when they share no pixel |
| Geometry.IouExamples | tests/test_utils.py:77-87 | the three parametrized cases: 0, 1/7 and 1 |
| Cumsum.CumSum | obj_det_metrics/utils.py:146-155 | the array afterwards holds the running totals of its old contents |
| Cumsum.SumAppend | obj_det_metrics/utils.py:152-155 | appending a count adds it to the total |
| Cumsum.PrefixSumsMonotone | obj_det_metrics/utils.py:152-155 | over non-negative counts the running totals never decrease and never exceed the total |
| Cumsum.PrefixSumsComplement | obj_det_metrics/ap_map.py:189-198 | when each detection is exactly one of TP and FP, cumulative TP plus cumulative FP at position i is i + 1, so the precision denominator is never 0 |
| Cumsum.PrefixSumsExample | obj_det_metrics/utils.py:152-155 | the counts 1, 0, 1, 1 accumulate to 1, 1, 2, 3 |
| Sorting.InsertPermutes | obj_det_metrics/utils.py:86 | inserting an element adds exactly that element to the multiset |
| Sorting.InsertSorted | obj_det_metrics/utils.py:86 | inserting into a descending list keeps it descending |
| Sorting.InsertStable | obj_det_metrics/utils.py:86 | inserting keeps the relative order of equal keys, with the new element last among them |
| Sorting.SortDescIsSorted | obj_det_metrics/utils.py:86 | the sort by confidence puts scores in non-increasing order |
| Sorting.SortDescIsPermutation | obj_det_metrics/utils.py:86 | the sort is a permutation of its input |
| Sorting.SortDescIsStable | obj_det_metrics/utils.py:86 | detections with equal scores keep their input order, as Python's stable sort does |
| Sorting.SortDescMap | obj_det_metrics/utils.py:86 | sorting objects and then taking their attributes gives the attributes sorted by the same key |
| AveragePrecision.MaxOf | obj_det_metrics/ap_map.py:52-53 | the maximum of a non-empty list is an element of it and no element exceeds it |
| AveragePrecision.MaxOfSuffix | obj_det_metrics/ap_map.py:52-53 | the maximum of a suffix is the larger of its first element and the maximum of the rest, which is one step of the backward loop |
| AveragePrecision.BackwardMax | obj_det_metrics/ap_map.py:52-53 | the backward `max(mpre[i], mpre[i + 1])` loop leaves the precision envelope in the array |
| AveragePrecision.Transitions | obj_det_metrics/ap_map.py:58-61 | every index where the recall changes is at least 1 and inside the list |
| AveragePrecision.SumAtAppend | obj_det_metrics/ap_map.py:67-69 | the sum over a concatenation of index lists is the sum of the two sums |
| AveragePrecision.SumAtTransitions | obj_det_metrics/ap_map.py:58-69 | summing the terms at the recall-change indices is the area under the step curve |
| AveragePrecision.VocAp | obj_det_metrics/ap_map.py:17-70 | `mrec` is the recall padded with 0 and 1; `mpre` is the envelope of the precision padded with 0 and 0; `ap` is the area under the step curve |
| AveragePrecision.EnvelopeIsNonIncreasingUpperBound | obj_det_metrics/ap_map.py:41-53 | the envelope keeps the length, bounds the precision from above and never increases |
| AveragePrecision.EnvelopeIsSuffixMaximum | obj_det_metrics/ap_map.py:52-53 | each envelope entry is the maximum precision from that position on |
| AveragePrecision.EnvelopeIdempotent | obj_det_metrics/ap_map.py:52-53 | taking the envelope twice changes nothing |
| AveragePrecision.StepAreaIgnoresRepeatedRecall | obj_det_metrics/ap_map.py:58-69 | skipping the indices where the recall repeats gives the same sum as including every index, whose term is then 0 |
| AveragePrecision.ApOfEmptyCurve | obj_det_metrics/ap_map.py:34-69 | with no detections the AP is 0 |
| AveragePrecision.StepAreaZeroPrecision | obj_det_metrics/ap_map.py:67-69 | a zero envelope gives zero area |
| AveragePrecision.EnvelopeOfConstant | obj_det_metrics/ap_map.py:52-53 | the envelope of a constant list is that constant |
| AveragePrecision.ApOfZeroPrecision | obj_det_metrics/ap_map.py:34-69 | all-zero precision gives AP 0 |
| AveragePrecision.StepAreaFlatRecall | obj_det_metrics/ap_map.py:58-69 | a recall that never changes gives zero area |
| AveragePrecision.ApOfZeroRecall | obj_det_metrics/ap_map.py:34-69 | all-zero recall gives AP 0: the only change is the padded final 1, whose precision is the padded 0 |
| AveragePrecision.StepAreaTelescopes | obj_det_metrics/ap_map.py:67-69 | with precision 1 throughout, the area is the total rise of the recall |
| AveragePrecision.ApOfPerfectCurve | obj_det_metrics/ap_map.py:34-69 | precision 1 everywhere with final recall 1 gives AP 1 |
| AveragePrecision.StepAreaBounds | obj_det_metrics/ap_map.py:67-69 | over a non-decreasing recall and precisions in [0, 1], the area lies between 0 and the rise of the recall |
| AveragePrecision.ApInUnitInterval | obj_det_metrics/ap_map.py:34-69 | a non-decreasing recall in [0, 1] and precisions in [0, 1] give an AP in [0, 1] |
| Matching.BestMatch | obj_det_metrics/utils.py:131-143 | the best box found is in the file's list and has the requested class; the scan can only fail on a zero union |
| Matching.BestMatchFailsIffZeroUnion | obj_det_metrics/utils.py:136-142 | the scan fails exactly when some same-class candidate has a zero union area with the detection |
| Matching.BestMatchIsFirstMaximum | obj_det_metrics/utils.py:133-142 | the result is the first same-class box of maximal IoU, or no candidate when no IoU beats the initial -1.0 |
| Matching.BestMatchFoundIffCandidate | obj_det_metrics/utils.py:133-143 | a scan that succeeds returns the placeholder exactly when the file has no box of the class |
| Matching.BestMatchNoCandidate | obj_det_metrics/utils.py:133-143 | for well-formed boxes the scan succeeds, and the placeholder is returned exactly when the file has no box of the class |
| Matching.LookupViews | obj_det_metrics/utils.py:131-132 | the values of a file's object list are the value index's list for that file |
| Matching.GetBestGtBox | obj_det_metrics/utils.py:116-143 | returns the box and IoU `BestMatch` selects; with no candidate, a fresh unmatched "empty" placeholder and -1.0 |
| Matching.TpFp | obj_det_metrics/ap_map.py:180-186 | one TP flag and one FP flag per detection; matched boxes are never released |
| Matching.TpFpFailsIffScanFails | obj_det_metrics/ap_map.py:180-186 | the pass fails, with ZeroUnion, exactly when the best-match scan of one of its detections fails |
| Matching.TpFpFlagsEach | obj_det_metrics/ap_map.py:180-186 | each detection is exactly one of a true positive and a false positive |
| Matching.StepConsumes | obj_det_metrics/ap_map.py:180-186 | one detection marks at most its matched box, a free box of the class; above -1, or with a candidate in its file, it marks one exactly when it is a true positive |
| Matching.TpFpConsumesClassKeys | obj_det_metrics/ap_map.py:180-186 | the pass marks only boxes of its own class |
| Matching.TpFpConsumesOneBoxPerTruePositive | obj_det_metrics/ap_map.py:180-186 | for a threshold above -1, or when every detection has a candidate, the pass marks exactly one new box per true positive |
| Matching.TpFpSnoc | obj_det_metrics/ap_map.py:180-186 | one more detection extends the flags by that detection's step |
| Matching.TpFpPrefixFailure | obj_det_metrics/ap_map.py:180-186 | once a prefix of the detections fails, the whole pass fails the same way |
| Matching.TruePositivesAtMostGroundTruth | obj_det_metrics/ap_map.py:180-194 | for a threshold above -1, or when every detection has a candidate, there are no more true positives than free ground-truth boxes of the class, so the recall never exceeds 1 |
| Matching.TpFpIgnoresOtherKeys | obj_det_metrics/ap_map.py:174-186 | boxes of other classes that earlier classes matched do not change a class's flags |
| Matching.DoubleDetectionExample | obj_det_metrics/ap_map.py:180-186 | two detections of one box: the first is a TP and consumes it, and the second is an FP |
| Matching.MatchedKeysAt | obj_det_metrics/variables.py:65-72 | a box's key is among the matched keys exactly when its `matched` flag is set |
| Matching.ScoreDetection | obj_det_metrics/ap_map.py:180-186 | one detection's verdict is the specification step's verdict, and the boxes then matched are exactly the step's consumed keys |
| Matching.SetFlags | obj_det_metrics/ap_map.py:180-186 | writes the detection's 1/0 flags at position k of the TP and FP arrays |
| Matching.FlagDetection | obj_det_metrics/ap_map.py:180-186 | extends the arrays and the matched flags by one detection, or reports the failure of the whole pass |
| Matching.ComputeTpFp | obj_det_metrics/ap_map.py:180-186 | the arrays hold the specification pass's flags, and the matched boxes are those it consumed; a failure of the pass is returned as is |
| Grouping.OfClass | obj_det_metrics/utils.py:74-85 | keeps only boxes of the class, drawn from the input |
| Grouping.GroupIsFilterByFile | obj_det_metrics/utils.py:38-47 | a file id has a list exactly when some box carries it, and its list is that file's boxes in input order |
| Grouping.ClassKeysAppend | obj_det_metrics/utils.py:39-47 | appending a box to its file's list adds one new key, its position, and only to the keys of its own class |
| Grouping.ClassKeysCount | obj_det_metrics/utils.py:38-48 | the index holds exactly as many boxes of a class as the per-class count records for it |
| Grouping.TallyCountsEachClass | obj_det_metrics/utils.py:31-48 | a class is counted exactly when some box has it, and its count is its number of boxes |
| Grouping.OfClassKeeps | obj_det_metrics/utils.py:74-85 | every box of the class is kept |
| Grouping.OfFileKeeps | obj_det_metrics/utils.py:38-47 | every box of a file id is in that file's list |
| Grouping.OfClassEmpty | obj_det_metrics/utils.py:74-85 | a class no box has gets an empty list |
| Grouping.OfClassAppend | obj_det_metrics/utils.py:70-85 | filtering the files one after another is filtering their concatenation |
| Grouping.OfClassPrefix | obj_det_metrics/utils.py:74-85 | one more box extends the filter by that box when it has the class |
| Grouping.AllGtSnoc | obj_det_metrics/utils.py:34-47 | the boxes of one more file follow those of the earlier files |
| Grouping.AllDtSnoc | obj_det_metrics/utils.py:70-85 | the boxes of one more file follow those of the earlier files |
| Grouping.ViewIndexUpdate | obj_det_metrics/utils.py:40-47 | appending an object to a file's list yields an index of its values |
| Grouping.DistinctUpdate | obj_det_metrics/utils.py:40-47 | appending a new object keeps the objects distinct and adds exactly that object |
| Grouping.AddBox | obj_det_metrics/utils.py:40-48 | after one ground-truth box, the counts and the per-file lists are those of the boxes so far, with a fresh unmatched object appended |
| Grouping.PrefixStep | obj_det_metrics/utils.py:39-48 | the boxes so far grow by one at each step of the inner loop |
| Grouping.AddFileBoxes | obj_det_metrics/utils.py:38-48 | after one file, the counts and the per-file lists are those of the files so far |
| Grouping.GenerateGtObjs | obj_det_metrics/utils.py:15-49 | fails, with UnknownFileId, exactly when a ground-truth file id has no detection file; otherwise the per-class counts, and the per-file lists of fresh, distinct, unmatched objects, in input order |
| Grouping.SortObjectsByScore | obj_det_metrics/utils.py:86 | sorting objects by `conf_score` gives the values sorted by score |
| Grouping.ClassRecordsUpTo | obj_det_metrics/utils.py:74-84 | the detections the comprehension keeps from a file's first n positions are of the class and of that file, at most n of them |
| Grouping.ClassDets | obj_det_metrics/utils.py:70-85 | every detection collected for a class over the files is of that class |
| Grouping.ClassRecordsUpToIsOfClass | obj_det_metrics/utils.py:74-84 | on a file with a box and a score for every label, the comprehension over the first n positions is the class filter of the file's first n records |
| Grouping.ClassRecordsIsOfClass | obj_det_metrics/utils.py:74-84 | on such a file, one file's class detections are the class filter of all its records |
| Grouping.ClassDetsIsOfClass | obj_det_metrics/utils.py:70-85 | on such files, a class's detections over the files are the class filter of all their records in file order |
| Grouping.ClassBoxesOfFile | obj_det_metrics/utils.py:74-85 | needs a box and a score only at the positions labelled with the class; the fresh objects built for the file are its detections of the class, in order |
| Grouping.CollectClassStep | obj_det_metrics/utils.py:70-85 | extending by one file's boxes of the class gives those of the files so far |
| Grouping.CollectClass | obj_det_metrics/utils.py:70-85 | needs a box and a score only at the class's positions; fails, with UnknownFileId, exactly when a detection file id has no ground truth; otherwise all the class's detections in file order |
| Grouping.GenerateDtObjs | obj_det_metrics/utils.py:52-88 | needs a box and a score only at positions labelled with one of the classes; for a non-empty class list, fails exactly when a detection file id is unknown; otherwise one list per class, holding that class's detections sorted by descending score, stably |
| ApMap.GtFile | obj_det_metrics/ap_map.py:168 | the ground-truth dict as one file with a label for every box |
| ApMap.DtFile | obj_det_metrics/ap_map.py:176 | the result dict as one file with a label and a score for every box |
| ApMap.Unique | obj_det_metrics/ap_map.py:162 | the ground-truth classes: exactly the labels that occur, each once |
| ApMap.Recall | obj_det_metrics/ap_map.py:192-194 | each recall entry times the class's ground-truth count is the cumulative TP count |
| ApMap.Precision | obj_det_metrics/ap_map.py:196-198 | each precision entry times TP + FP is the cumulative TP count |
| ApMap.PrecisionIsHitRate | obj_det_metrics/ap_map.py:196-198 | when each detection is exactly one of TP and FP, cumulative TP plus FP at position i is i + 1, and the precision there times i + 1 is the number of true positives among the first i + 1 detections |
| ApMap.ClassResultsMatch | obj_det_metrics/ap_map.py:174-202 | the per-class results hold each class's AP result at its position |
| ApMap.ClassAps | obj_det_metrics/ap_map.py:174-202 | a successful class loop yields one AP per class |
| ApMap.OverwriteKeys | obj_det_metrics/ap_map.py:169-202 | writing the APs into the zero map adds exactly the written classes as keys |
| ApMap.OverwriteSnoc | obj_det_metrics/ap_map.py:202 | writing one more class updates its entry |
| ApMap.Zeros | obj_det_metrics/ap_map.py:170 | the initial `ap` map has exactly the classes as keys |
| ApMap.Zip | obj_det_metrics/ap_map.py:202 | the final `ap` map has exactly the classes as keys |
| ApMap.OverwriteAt | obj_det_metrics/ap_map.py:202 | over distinct classes, each class's entry is the AP written at its position |
| ApMap.ZipAt | obj_det_metrics/ap_map.py:202 | over distinct classes, each class's entry in `ap` is its own AP |
| ApMap.GtClassesOccur | obj_det_metrics/ap_map.py:162-164 | every ground-truth class has a positive box count, so the recall division is defined |
| ApMap.ApMapOf | obj_det_metrics/ap_map.py:162-205 | once validated, the `ap` keys are exactly the ground-truth labels; NoClasses (the mean's division by zero) exactly when there are none; the only other failure is ZeroUnion |
| ApMap.ApMapOfIsZip | obj_det_metrics/ap_map.py:169-205 | a successful run is the classes zipped with their APs, with the mean of the APs as mAP |
| ApMap.ZipOfClassAps | obj_det_metrics/ap_map.py:174-202 | each entry of the zipped map is that class's own AP result |
| ApMap.ApMapOfEntries | obj_det_metrics/ap_map.py:174-205 | every entry of `ap` is the AP that class's own evaluation gives, and `map` is the sum of the APs over the number of classes |
| ApMap.ApMapResult | obj_det_metrics/ap_map.py:125-206 | success only on valid dicts, with the ground-truth labels as `ap` keys; NoClasses exactly when valid with no labels; on valid dicts the only other failure is ZeroUnion |
| ApMap.ClassApFailure | obj_det_metrics/ap_map.py:176-200 | a class with ground-truth boxes can only fail on a zero union, never for want of ground truth |
| ApMap.ClassApsFailure | obj_det_metrics/ap_map.py:174-202 | the class loop over ground-truth classes can only fail on a zero union |
| ApMap.SumRealsSnoc | obj_det_metrics/ap_map.py:201 | adding one more AP adds it to the running sum |
| ApMap.CurveInUnitSquare | obj_det_metrics/ap_map.py:188-198 | with 0/1 flags and no more true positives than ground-truth boxes, the recall curve is non-decreasing and within [0, 1], and every precision is within [0, 1] |
| ApMap.ApOfFlagsInUnitInterval | obj_det_metrics/ap_map.py:188-200 | under the same conditions the class AP lies in [0, 1] |
| ApMap.ClassTruePositivesAtMostGroundTruth | obj_det_metrics/ap_map.py:180-194 | for a threshold above -1, or when every detection of the class has a ground-truth box of the class in its file, the true positives do not outnumber the class's boxes |
| ApMap.CandidatesOfCovered | obj_det_metrics/utils.py:133-143 | a detection with a ground-truth box of its class in its file has a candidate in the grouped index |
| ApMap.ClassApInUnitInterval | obj_det_metrics/ap_map.py:176-200 | under the same conditions every class AP lies in [0, 1] |
| ApMap.SingleFileCovered | obj_det_metrics/ap_map.py:162-168 | in the single-dict inputs every detection of a ground-truth class has a box of that class in its file |
| ApMap.ApMapOfEntriesInUnitInterval | obj_det_metrics/ap_map.py:174-204 | after validation every class's AP lies in [0, 1] at any threshold |
| ApMap.SumRealsBounds | obj_det_metrics/ap_map.py:201-204 | a sum of APs, or of mAPs, in [0, 1] lies between 0 and their number |
| ApMap.ApMapInUnitInterval | obj_det_metrics/ap_map.py:125-206 | at any threshold every `ap` entry and `map` lie in [0, 1] |
| ApMap.Recalls | obj_det_metrics/ap_map.py:192-194 | the recall loop yields the recall of the cumulative TP counts |
| ApMap.Precisions | obj_det_metrics/ap_map.py:196-198 | the precision loop yields the precision of the cumulative counts |
| ApMap.ApOfCounts | obj_det_metrics/ap_map.py:188-200 | accumulating the flag arrays in place and running the VOC AP gives the AP of the original flags |
| ApMap.ClassApOf | obj_det_metrics/ap_map.py:176-200 | one class's AP is that of the specification's TP/FP pass from the boxes already matched, and the matched boxes are those the pass consumed |
| ApMap.OtherClassesKeys | obj_det_metrics/ap_map.py:174-186 | boxes matched for the classes already done belong to no class still to come |
| ApMap.KeysOfClassesExtend | obj_det_metrics/ap_map.py:174-186 | after one more class, the matched boxes still belong to classes done |
| ApMap.ClassStep | obj_det_metrics/ap_map.py:174-202 | one iteration returns that class's AP result, as `ClassAp` defines it, whatever earlier classes matched |
| ApMap.OverwriteBase | obj_det_metrics/ap_map.py:169-202 | writing over a base map is the base updated by the written entries |
| ApMap.OverwriteAll | obj_det_metrics/ap_map.py:169-202 | writing every class over the zero map gives the zipped map |
| ApMap.FillAp | obj_det_metrics/ap_map.py:169-202 | the zeros overwritten class by class give the classes zipped with their APs |
| ApMap.ClassLoop | obj_det_metrics/ap_map.py:174-202 | the loop stops at the first failing class with that error; otherwise it returns every class's AP in order |
| ApMap.CalculateValidated | obj_det_metrics/ap_map.py:162-206 | after validation the method computes exactly `ApMapOf` |
| ApMap.CalculateApMap | obj_det_metrics/ap_map.py:125-206 | the method computes exactly `ApMapResult` |
| ApMapRange.Runs | obj_det_metrics/ap_map.py:260-261 | a successful run yields one output per threshold |
| ApMapRange.RunsAt | obj_det_metrics/ap_map.py:260-261 | each output is `calculate_ap_map` at that threshold |
| ApMapRange.RunsFailure | obj_det_metrics/ap_map.py:260-261 | a failure is the failure of some threshold's run |
| ApMapRange.RunsKeys | obj_det_metrics/ap_map.py:261-263 | every run's `ap` has exactly the ground-truth labels as keys |
| ApMapRange.AddAps | obj_det_metrics/ap_map.py:262-263 | adding one run's APs keeps the classes |
| ApMapRange.ScaleAps | obj_det_metrics/ap_map.py:266-267 | dividing by the number of thresholds keeps the classes |
| ApMapRange.Totals | obj_det_metrics/ap_map.py:255-263 | the accumulated `mean_ap` has exactly the classes as keys |
| ApMapRange.Means | obj_det_metrics/ap_map.py:266-268 | the averaged `mean_ap` has exactly the classes as keys |
| ApMapRange.TotalsSnoc | obj_det_metrics/ap_map.py:260-263 | one more run adds its APs to the totals |
| ApMapRange.SumMapsSnoc | obj_det_metrics/ap_map.py:264 | one more run adds its mAP to `mean_map` |
| ApMapRange.TotalsAt | obj_det_metrics/ap_map.py:255-263 | each class's total is the sum of its APs over the runs |
| ApMapRange.MeansAt | obj_det_metrics/ap_map.py:266-268 | each class's `mean_ap` is its mean AP over the runs |
| ApMapRange.MeansOfOne | obj_det_metrics/ap_map.py:255-268 | a single run is its own mean |
| ApMapRange.RangeIsMeans | obj_det_metrics/ap_map.py:252-268 | success means valid dicts, a non-empty threshold list, successful runs, and their means |
| ApMapRange.RangeMeans | obj_det_metrics/ap_map.py:252-270 | `mean_ap` has the ground-truth labels as keys, and each entry is the class's AP summed over the thresholds and divided by their number; `mean_map` is the mAPs summed and divided likewise |
| ApMapRange.RangeInUnitInterval | obj_det_metrics/ap_map.py:252-270 | whatever the thresholds, every `mean_ap` entry and `mean_map` lie in [0, 1] |
| ApMapRange.RangeFailure | obj_det_metrics/ap_map.py:252-268 | NoThresholds exactly when the dicts are valid and the list is empty; any other failure on valid dicts is the failure of some threshold's run |
| ApMapRange.RangeOfOne | obj_det_metrics/ap_map.py:252-270 | over a single threshold the range gives that threshold's APs and mAP, or its failure |
| ApMapRange.ApMapRevalidated | obj_det_metrics/ap_map.py:252-261 | each run revalidating the already validated dicts gives what it gives on the caller's dicts |
| ApMapRange.AccumulateAps | obj_det_metrics/ap_map.py:262-263 | the `+=` loop adds one run's APs to the totals |
| ApMapRange.DivideAps | obj_det_metrics/ap_map.py:266-267 | the `/=` loop divides every total by the number of thresholds |
| ApMapRange.NextUnseen | obj_det_metrics/ap_map.py:262-267 | over distinct classes, the next class is new to the loop and is added to the classes done |
| ApMapRange.ResultsRunsMatch | obj_det_metrics/ap_map.py:260-261 | the per-threshold results are `calculate_ap_map` at each threshold |
| ApMapRange.ThresholdLoop | obj_det_metrics/ap_map.py:260-264 | stops at the first failing threshold with its error; otherwise returns the per-class totals and the summed mAPs of all runs |
| ApMapRange.CalculateApMapRange | obj_det_metrics/ap_map.py:209-270 | the method computes exactly `RangeResult` |

## Left out

- `obj_det_metrics/ingest.py`, the `bin/` scripts and the list-of-files entry point that the package tests call (`compute_ap_map`) are not part of this model. Its building blocks `_generate_gt_objs`, `_generate_dt_objs`, `_get_best_gt_bbox` and `_compute_counts_cumsum` are modelled.
- `np.arange(iou_begin, iou_end + iou_step, iou_step)`: `ApMapRange.RangeResult` takes the threshold list itself. A list with no entries raises in the source, because the final loop reads an unbound variable, and is modelled as the error NoThresholds.
- Floating point: scores, IoUs, recalls, precisions and APs are exact reals, so rounding and the order of additions play no part. Coordinates are integers.
- Exception types and messages: each raise, assert or `KeyError`/`ZeroDivisionError` is one `Error` constructor.
- Class names may be strings or ints in the source; here they are strings.
- `count_true_positives` (ap_map.py:165-178): the dict is written and handed to the TP/FP helper, but nothing in the core reads it back. The model leaves it out.
- `ApMap.Unique`: the model iterates the ground-truth labels in first-occurrence order, where Python iterates the set in its own order. The results do not depend on the order, since each class's AP is independent of the other classes (`ApMap.ClassStep`) and real addition commutes.
- `_voc_ap` inserts into and appends to the caller's lists. The model builds new padded sequences, and the caller passes copies in any case (ap_map.py:200).
- `_check_dicts_for_content_and_size` writes the default scores into the caller's dict. The model returns the filled dict as a value, and `ApMapRange.ApMapRevalidated` shows that each run's second validation then changes nothing.
- The read-only properties of `BoundingBox` are constant fields, so they need no getter methods.
- Grouping.GenerateGtObjs: requires every ground-truth file to have a box for each label. The source reads the coordinates at every label position and would raise an `IndexError` otherwise; that error is not modelled.
- Grouping.GenerateDtObjs, Grouping.CollectClass, Grouping.ClassBoxesOfFile: require a box and a score at each position whose label is one of the classes collected. The source reads them only at those positions and would raise an `IndexError` there; that error is not modelled. Positions with other labels may lack them, as in the source.
- ApMap.ClassLoop, ApMapRange.AccumulateAps, ApMapRange.DivideAps, Grouping.GenerateDtObjs: require the class list to be duplicate-free. The source iterates a set, or the distinct labels its caller supplies, so this always holds there.
- ApMap.FillAp: the source writes each class's AP into the zero-initialised `ap` dict inside the class loop. The model writes them after the loop. No reads of `ap` happen in between, so the output is the same.
- ApMapRange.AccumulateAps, ApMapRange.DivideAps: iterate over the range's class list, not over the keys of a run's `ap` dict. Both have the same keys (`ApMapRange.RunsKeys`).
- ApMapRange.AddAps: is total and keeps the total of a class absent from a run's `ap`. That case never arises, because every run has the same keys.
- Matching.TruePositivesAtMostGroundTruth, ApMap.ClassApInUnitInterval: at a threshold of -1.0 or below they also require every detection to have a ground-truth box of its class in its file. Otherwise such a detection keeps the initial IoU of -1.0 (utils.py:133-143) and counts as a true positive, so recall can exceed 1. The single-dict entry points always meet this (`ApMap.SingleFileCovered`).
- NoGroundTruth (a class with detections and no ground-truth boxes) cannot arise from the entry points, which only score ground-truth classes (`ApMap.ClassApFailure`). It is kept for `ApMap.ClassAp` taken on its own.
- The expected values in tests/test_ap_map.py come from the multi-file entry point over floating point. They are not restated.

