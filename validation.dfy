/** `_check_dicts_for_content_and_size` in obj_det_metrics/ap_map.py: the single-dict inputs
    of the scoring entry points and their validation. */
module Validation {
  import opened Wrappers
  import opened Variables

  /** A ground-truth dict `{boxes, labels}` or a result dict `{boxes, labels, scores}`; a key
      the caller left out is None. Ground-truth dicts ignore `scores`. */
  datatype RawDict = RawDict(boxes: Option<seq<Box>>, labels: Option<seq<Label>>, scores: Option<seq<real>>)

  predicate HasKeys(d: RawDict) {
    d.boxes.Some? && d.labels.Some?
  }

  /** The result dict with `scores` defaulted to one 1 per box when it is missing. */
  function FillScores(res: RawDict): (r: RawDict)
    requires res.boxes.Some?
    ensures r.boxes == res.boxes && r.labels == res.labels && r.scores.Some?
    ensures res.scores.Some? ==> r.scores == res.scores
    ensures res.scores.None? ==> |r.scores.value| == |res.boxes.value| && forall i | 0 <= i < |r.scores.value| :: r.scores.value[i] == 1.0
  {
    if res.scores.Some? then res
    else res.(scores := Some(seq(|res.boxes.value|, _ => 1.0)))
  }

  /** What a successful validation guarantees: all keys present, one label per ground-truth
      box, and one label and one score per result box. */
  predicate Validated(gt: RawDict, res: RawDict) {
    && HasKeys(gt) && HasKeys(res) && res.scores.Some?
    && |gt.boxes.value| == |gt.labels.value|
    && |res.boxes.value| == |res.labels.value| == |res.scores.value|
  }

  /** The key checks in source order (ground truth `boxes`, `labels`, then result `boxes`,
      `labels`), the default for missing scores, then the two length checks. Validation
      fails with MissingKey exactly when a key is missing, fails with LengthMismatch exactly
      when the keys are there but the counts differ (a missing `scores` never does: its
      default has one entry per box), and otherwise hands back the result dict as the
      validator leaves it, its scores filled in. */
  function CheckDicts(gt: RawDict, res: RawDict): (r: Result<RawDict>)
    ensures r == Failure(MissingKey) <==> !HasKeys(gt) || !HasKeys(res)
    ensures r == Failure(LengthMismatch) <==>
              && HasKeys(gt) && HasKeys(res)
              && (|gt.boxes.value| != |gt.labels.value| || |res.boxes.value| != |res.labels.value|
                  || (res.scores.Some? && |res.scores.value| != |res.boxes.value|))
    ensures r.Success? ==> Validated(gt, r.value) && r.value == FillScores(res)
    ensures r.Failure? ==> r.error == MissingKey || r.error == LengthMismatch
  {
    if gt.boxes.None? || gt.labels.None? || res.boxes.None? || res.labels.None? then Failure(MissingKey)
    else
      var filled := FillScores(res);
      if |gt.boxes.value| != |gt.labels.value| then Failure(LengthMismatch)
      else if !(|filled.boxes.value| == |filled.labels.value| == |filled.scores.value|) then Failure(LengthMismatch)
      else Success(filled)
  }

  /** Validating again what passed validation changes nothing: the scoring entry points can
      each validate the same dicts. */
  lemma CheckDictsIdempotent(gt: RawDict, res: RawDict)
    requires CheckDicts(gt, res).Success?
    ensures CheckDicts(gt, CheckDicts(gt, res).value) == CheckDicts(gt, res)
  {
  }
}
