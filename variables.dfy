/** Bounding boxes, as obj_det_metrics/variables.py declares them. */
module Variables {

  /** Class names: the source allows a string or an int; one comparable type stands for both. */
  type Label = string

  /** The distinct labels of a list of labels. */
  function LabelSet(ls: seq<Label>): set<Label> {
    set c | c in ls
  }

  lemma LabelSetSnoc(ls: seq<Label>, c: Label)
    ensures LabelSet(ls + [c]) == LabelSet(ls) + {c}
  {
    assert forall x :: x in ls + [c] <==> x in ls || x == c;
  }

  /** Short file name of the image a box belongs to. */
  type FileId = string

  /** Coordinates `[xmin, ymin, xmax, ymax]` of an axis-aligned box, in pixels. */
  datatype Box = Box(xmin: int, ymin: int, xmax: int, ymax: int)

  /** The read-only attributes of a BoundingBox, as a value. */
  datatype BoxRecord = BoxRecord(coordinates: Box, className: Label, fileId: FileId, confScore: real)

  /** A ground-truth or detection box. Everything but `matched` is read-only after
      construction, so those attributes are constant fields; `matched` is the one field
      the scoring pass overwrites, through SetMatched. */
  class BoundingBox {
    const coordinates: Box
    const className: Label
    const fileId: FileId
    const confScore: real
    var matched: bool

    constructor (coordinates: Box, className: Label, fileId: FileId,
                 matched: bool := false, confScore: real := 1.0)
      ensures this.coordinates == coordinates && this.className == className
      ensures this.fileId == fileId && this.confScore == confScore
      ensures this.matched == matched
    {
      this.coordinates := coordinates;
      this.className := className;
      this.fileId := fileId;
      this.confScore := confScore;
      this.matched := matched;
    }

    /** The read-only attributes together; needs no reads clause, since they never change. */
    function View(): BoxRecord {
      BoxRecord(coordinates, className, fileId, confScore)
    }

    /** Overwrites the matched flag; no other field can change. */
    method SetMatched(matched: bool)
      modifies this`matched
      ensures this.matched == matched
    {
      this.matched := matched;
    }
  }

  function Views(bs: seq<BoundingBox>): seq<BoxRecord> {
    seq(|bs|, i requires 0 <= i < |bs| => bs[i].View())
  }

  lemma ViewsAppend(a: seq<BoundingBox>, b: seq<BoundingBox>)
    ensures Views(a + b) == Views(a) + Views(b)
  {
    assert forall i | 0 <= i < |a + b| :: Views(a + b)[i] == (Views(a) + Views(b))[i];
  }

  lemma ViewsSnoc(a: seq<BoundingBox>, b: BoundingBox)
    ensures Views(a + [b]) == Views(a) + [b.View()]
  {
    ViewsAppend(a, [b]);
  }
}
