/** Intersection over union of two boxes (`_compute_iou` in obj_det_metrics/utils.py).
    Boxes are inclusive pixel ranges: a box from xmin to xmax is xmax - xmin + 1 pixels wide. */
module Geometry {
  import opened Variables

  /** The shape the callers are expected to supply; the code itself does not check it. */
  predicate WellFormed(b: Box) {
    b.xmin <= b.xmax && b.ymin <= b.ymax
  }

  function Max(a: int, b: int): int { if a >= b then a else b }
  function Min(a: int, b: int): int { if a <= b then a else b }

  function Area(b: Box): int {
    (b.xmax - b.xmin + 1) * (b.ymax - b.ymin + 1)
  }

  /** Width and height of the intersection rectangle, clamped at 0. */
  function InterWidth(a: Box, b: Box): nat {
    Max(Min(a.xmax, b.xmax) - Max(a.xmin, b.xmin) + 1, 0)
  }

  function InterHeight(a: Box, b: Box): nat {
    Max(Min(a.ymax, b.ymax) - Max(a.ymin, b.ymin) + 1, 0)
  }

  function InterArea(a: Box, b: Box): nat {
    InterWidth(a, b) * InterHeight(a, b)
  }

  function UnionArea(a: Box, b: Box): int {
    Area(a) + Area(b) - InterArea(a, b)
  }

  /** Boxes that share no pixel. */
  predicate Disjoint(a: Box, b: Box) {
    a.xmax < b.xmin || b.xmax < a.xmin || a.ymax < b.ymin || b.ymax < a.ymin
  }

  /** The IoU itself; the Python division raises when the union area is 0, which the
      callers turn into an error before getting here. */
  function Iou(dt: Box, gt: Box): (r: real)
    requires UnionArea(dt, gt) != 0
    ensures 0.0 <= r <= 1.0
  {
    RatioInUnitInterval(dt, gt);
    Ratio(dt, gt)
  }

  function Ratio(dt: Box, gt: Box): real
    requires UnionArea(dt, gt) != 0
  {
    InterArea(dt, gt) as real / UnionArea(dt, gt) as real
  }

  lemma MulMono(x: int, y: int, xs: int, ys: int)
    requires 0 <= x <= xs && 0 <= y <= ys
    ensures x * y <= xs * ys
  {
    assert x * y <= xs * y;
    assert xs * y <= xs * ys;
  }

  /** The intersection is no larger than either box, and both boxes have positive area. */
  lemma InterBounded(a: Box, b: Box)
    requires WellFormed(a) && WellFormed(b)
    ensures 0 < Area(a) && 0 < Area(b)
    ensures InterArea(a, b) <= Area(a) && InterArea(a, b) <= Area(b)
  {
    MulMono(1, 1, a.xmax - a.xmin + 1, a.ymax - a.ymin + 1);
    MulMono(1, 1, b.xmax - b.xmin + 1, b.ymax - b.ymin + 1);
    MulMono(InterWidth(a, b), InterHeight(a, b), a.xmax - a.xmin + 1, a.ymax - a.ymin + 1);
    MulMono(InterWidth(a, b), InterHeight(a, b), b.xmax - b.xmin + 1, b.ymax - b.ymin + 1);
  }

  lemma IouBounded(a: Box, b: Box)
    requires WellFormed(a) && WellFormed(b)
    ensures UnionArea(a, b) > 0
    ensures 0.0 <= Ratio(a, b) <= 1.0
  {
    InterBounded(a, b);
    FractionInUnitInterval(InterArea(a, b), UnionArea(a, b));
  }

  /** Whatever the boxes, a defined IoU lies in [0, 1]: boxes that share a pixel are both
      well-formed, and boxes that share none have an IoU of 0. */
  lemma RatioInUnitInterval(a: Box, b: Box)
    requires UnionArea(a, b) != 0
    ensures 0.0 <= Ratio(a, b) <= 1.0
  {
    if InterArea(a, b) != 0 {
      assert InterWidth(a, b) > 0 && InterHeight(a, b) > 0;
      IouBounded(a, b);
    }
  }

  lemma FractionInUnitInterval(i: int, u: int)
    requires 0 <= i <= u && 0 < u
    ensures 0.0 <= i as real / u as real <= 1.0
  {
    var q := i as real / u as real;
    assert q * u as real == i as real;
  }

  /** For well-formed boxes the union is positive, so the IoU is defined and lies in [0, 1]. */
  lemma IouInUnitInterval(a: Box, b: Box)
    requires WellFormed(a) && WellFormed(b)
    ensures UnionArea(a, b) > 0 && 0.0 <= Iou(a, b) <= 1.0
  {
    IouBounded(a, b);
  }

  lemma IouSymmetric(a: Box, b: Box)
    ensures UnionArea(a, b) == UnionArea(b, a)
    ensures UnionArea(a, b) != 0 ==> Iou(a, b) == Iou(b, a)
  {
    assert InterWidth(a, b) == InterWidth(b, a);
    assert InterHeight(a, b) == InterHeight(b, a);
  }

  /** A well-formed box overlaps itself completely. */
  lemma IouSelf(a: Box)
    requires WellFormed(a)
    ensures UnionArea(a, a) != 0 && Iou(a, a) == 1.0
  {
    InterBounded(a, a);
    assert InterArea(a, a) == Area(a);
  }

  /** Between well-formed boxes the IoU is 0 exactly when they share no pixel. */
  lemma IouZeroIffDisjoint(a: Box, b: Box)
    requires WellFormed(a) && WellFormed(b)
    ensures UnionArea(a, b) > 0
    ensures Iou(a, b) == 0.0 <==> Disjoint(a, b)
  {
    IouBounded(a, b);
    var u := UnionArea(a, b) as real;
    if Iou(a, b) == 0.0 {
      assert InterArea(a, b) as real == Iou(a, b) * u;
      if InterWidth(a, b) != 0 && InterHeight(a, b) != 0 {
        MulMono(1, 1, InterWidth(a, b), InterHeight(a, b));
      }
    }
  }

  /** The pixel-inclusive convention on the worked examples: 0, 1/7 and 1. */
  lemma IouExamples()
    ensures UnionArea(Box(0, 1, 2, 3), Box(4, 5, 6, 7)) != 0
    ensures Iou(Box(0, 1, 2, 3), Box(4, 5, 6, 7)) == 0.0
    ensures UnionArea(Box(0, 1, 3, 4), Box(2, 3, 5, 6)) != 0
    ensures Iou(Box(0, 1, 3, 4), Box(2, 3, 5, 6)) == 1.0 / 7.0
    ensures UnionArea(Box(0, 1, 2, 3), Box(0, 1, 2, 3)) != 0
    ensures Iou(Box(0, 1, 2, 3), Box(0, 1, 2, 3)) == 1.0
  {
    assert InterArea(Box(0, 1, 3, 4), Box(2, 3, 5, 6)) == 4;
    assert UnionArea(Box(0, 1, 3, 4), Box(2, 3, 5, 6)) == 28;
  }
}
