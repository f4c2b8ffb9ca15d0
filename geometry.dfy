/**
 * Axis-aligned rectangles in image pixel space (the `RectF` of the detector)
 * and the Intersection-over-Union overlap measure used by suppression.
 */
module Geometry {

  /** A rectangle given by its edges; `width()`/`height()` are right-left and bottom-top. */
  datatype Box = Box(left: real, top: real, right: real, bottom: real) {
    function Width(): real { right - left }
    function Height(): real { bottom - top }
    function Area(): real { Width() * Height() }

    /** Edges in order: the rectangles every decoded detection carries. */
    predicate WellFormed() { left <= right && top <= bottom }
  }

  function Max(a: real, b: real): real { if a >= b then a else b }
  function Min(a: real, b: real): real { if a <= b then a else b }

  /** Extent of the intersection on each axis; not positive when the boxes are apart on that axis. */
  function InterWidth(a: Box, b: Box): real { Min(a.right, b.right) - Max(a.left, b.left) }
  function InterHeight(a: Box, b: Box): real { Min(a.bottom, b.bottom) - Max(a.top, b.top) }

  /** The boxes share an interior point: they overlap on both axes by a positive amount. */
  predicate Overlap(a: Box, b: Box) {
    InterWidth(a, b) > 0.0 && InterHeight(a, b) > 0.0
  }

  function UnionArea(a: Box, b: Box): real {
    a.Area() + b.Area() - InterWidth(a, b) * InterHeight(a, b)
  }

  /**
   * Intersection over union. Zero when the rectangles do not overlap on an
   * axis (touching edges included) and zero when the union area is not positive.
   */
  function IoU(a: Box, b: Box): (r: real)
    ensures r >= 0.0
    ensures !Overlap(a, b) ==> r == 0.0
    ensures UnionArea(a, b) <= 0.0 ==> r == 0.0
  {
    var interLeft := Max(a.left, b.left);
    var interTop := Max(a.top, b.top);
    var interRight := Min(a.right, b.right);
    var interBottom := Min(a.bottom, b.bottom);
    if interRight <= interLeft || interBottom <= interTop then 0.0
    else
      var interArea := InterWidth(a, b) * InterHeight(a, b);
      var unionArea := UnionArea(a, b);
      if unionArea > 0.0 then
        ProductPositive(InterWidth(a, b), InterHeight(a, b));
        PositiveQuotient(interArea, unionArea);
        interArea / unionArea
      else 0.0
  }

  lemma ProductPositive(x: real, y: real)
    requires x > 0.0 && y > 0.0
    ensures x * y > 0.0
  {
  }

  lemma PositiveQuotient(x: real, y: real)
    requires x > 0.0 && y > 0.0
    ensures x / y > 0.0
  {
    assert (x / y) * y == x;
  }

  lemma ProductMonotone(a: real, b: real, c: real, d: real)
    requires 0.0 <= a <= c && 0.0 <= b <= d
    ensures a * b <= c * d
  {
    assert a * b <= c * b;
    assert c * b <= c * d;
  }

  /** The overlap measure does not depend on which box is the candidate. */
  lemma IoUSymmetric(a: Box, b: Box)
    ensures IoU(a, b) == IoU(b, a)
  {
    assert InterWidth(a, b) == InterWidth(b, a);
    assert InterHeight(a, b) == InterHeight(b, a);
    assert UnionArea(a, b) == UnionArea(b, a);
  }

  /** For well-formed boxes the intersection is positive and no larger than the union. */
  lemma IntersectionWithinUnion(a: Box, b: Box)
    requires a.WellFormed() && b.WellFormed() && Overlap(a, b)
    ensures 0.0 < InterWidth(a, b) * InterHeight(a, b) <= UnionArea(a, b)
  {
    var iw, ih := InterWidth(a, b), InterHeight(a, b);
    ProductMonotone(iw, ih, a.Width(), a.Height());
    ProductMonotone(iw, ih, b.Width(), b.Height());
    ProductMonotone(0.0, 0.0, b.Width(), b.Height());
    ProductPositive(iw, ih);
  }

  /** For overlapping rectangles with a positive union, IoU is the plain ratio. */
  lemma IoUOfOverlap(a: Box, b: Box)
    requires Overlap(a, b) && UnionArea(a, b) > 0.0
    ensures IoU(a, b) == InterWidth(a, b) * InterHeight(a, b) / UnionArea(a, b)
  {
  }

  /** For well-formed rectangles IoU is a ratio in [0, 1]. */
  lemma IoUAtMostOne(a: Box, b: Box)
    requires a.WellFormed() && b.WellFormed()
    ensures 0.0 <= IoU(a, b) <= 1.0
  {
    if Overlap(a, b) {
      var inter, union := InterWidth(a, b) * InterHeight(a, b), UnionArea(a, b);
      IntersectionWithinUnion(a, b);
      QuotientAtMostOne(inter, union);
      IoUOfOverlap(a, b);
    }
  }

  lemma QuotientAtMostOne(x: real, y: real)
    requires 0.0 < x <= y
    ensures x / y <= 1.0
  {
    assert (x / y) * y == x;
  }

  lemma QuotientSelf(x: real)
    requires x > 0.0
    ensures x / x == 1.0
  {
  }

  /** A box with positive area overlaps itself completely. */
  lemma IoUSelf(a: Box)
    requires a.Width() > 0.0 && a.Height() > 0.0
    ensures IoU(a, a) == 1.0
  {
    assert InterWidth(a, a) == a.Width() && InterHeight(a, a) == a.Height();
    ProductPositive(a.Width(), a.Height());
    assert UnionArea(a, a) == a.Area();
    QuotientSelf(a.Area());
  }

  /** For well-formed rectangles a positive IoU means exactly that they overlap. */
  lemma IoUPositiveIffOverlap(a: Box, b: Box)
    requires a.WellFormed() && b.WellFormed()
    ensures IoU(a, b) > 0.0 <==> Overlap(a, b)
  {
    if Overlap(a, b) {
      var inter, union := InterWidth(a, b) * InterHeight(a, b), UnionArea(a, b);
      IntersectionWithinUnion(a, b);
      PositiveQuotient(inter, union);
      IoUOfOverlap(a, b);
    }
  }
}
