/** Axis-aligned boxes given by their top-left corner and size, and their intersection over union. */
module Box {

  datatype BoundingBox = BoundingBox(x: real, y: real, width: real, height: real)

  function Max(a: real, b: real): real { if a >= b then a else b }

  function Min(a: real, b: real): real { if a <= b then a else b }

  function Area(b: BoundingBox): real { b.width * b.height }

  /** The overlap rectangle has positive width and positive height. */
  predicate Overlaps(a: BoundingBox, b: BoundingBox)
  {
    Min(a.x + a.width, b.x + b.width) > Max(a.x, b.x) &&
    Min(a.y + a.height, b.y + b.height) > Max(a.y, b.y)
  }

  /** The area of the overlap rectangle, zero when the boxes do not overlap. */
  function IntersectionArea(a: BoundingBox, b: BoundingBox): real
  {
    if Overlaps(a, b) then
      (Min(a.x + a.width, b.x + b.width) - Max(a.x, b.x)) *
      (Min(a.y + a.height, b.y + b.height) - Max(a.y, b.y))
    else 0.0
  }

  lemma MulMono(p: real, q: real, r: real, t: real)
    requires 0.0 < p <= r && 0.0 < q <= t
    ensures 0.0 < p * q <= r * t
  {
    assert p * q <= r * q;
    assert r * q <= r * t;
  }

  /** Two boxes that overlap both have positive sides, and their overlap is positive
      and no larger than either box, so the union is positive. */
  lemma OverlapBounds(a: BoundingBox, b: BoundingBox)
    requires Overlaps(a, b)
    ensures a.width > 0.0 && a.height > 0.0 && b.width > 0.0 && b.height > 0.0
    ensures 0.0 < IntersectionArea(a, b) <= Area(a)
    ensures IntersectionArea(a, b) <= Area(b)
    ensures Area(a) + Area(b) - IntersectionArea(a, b) >= Max(Area(a), Area(b)) > 0.0
  {
    var iw := Min(a.x + a.width, b.x + b.width) - Max(a.x, b.x);
    var ih := Min(a.y + a.height, b.y + b.height) - Max(a.y, b.y);
    MulMono(iw, ih, a.width, a.height);
    MulMono(iw, ih, b.width, b.height);
  }

  /** `computeIoU`: the overlap area over the union area, zero for boxes that do not overlap. */
  function ComputeIoU(a: BoundingBox, b: BoundingBox): (r: real)
    ensures 0.0 <= r <= 1.0
    ensures r > 0.0 <==> Overlaps(a, b)
  {
    if !Overlaps(a, b) then 0.0
    else
      var inter := IntersectionArea(a, b);
      var union := Area(a) + Area(b) - inter;
      OverlapBounds(a, b);
      DivBounds(inter, union);
      inter / union
  }

  lemma DivBounds(p: real, q: real)
    requires 0.0 < p <= q
    ensures 0.0 < p / q <= 1.0
  {
  }

  /** The early return: no overlap along either axis gives zero. */
  lemma IoUZeroWhenDisjoint(a: BoundingBox, b: BoundingBox)
    requires Min(a.x + a.width, b.x + b.width) <= Max(a.x, b.x) ||
             Min(a.y + a.height, b.y + b.height) <= Max(a.y, b.y)
    ensures ComputeIoU(a, b) == 0.0
  {
  }

  lemma IoUSymmetric(a: BoundingBox, b: BoundingBox)
    ensures ComputeIoU(a, b) == ComputeIoU(b, a)
  {
    assert Min(a.x + a.width, b.x + b.width) == Min(b.x + b.width, a.x + a.width);
    assert Max(a.x, b.x) == Max(b.x, a.x);
    assert Min(a.y + a.height, b.y + b.height) == Min(b.y + b.height, a.y + a.height);
    assert Max(a.y, b.y) == Max(b.y, a.y);
    assert Overlaps(a, b) == Overlaps(b, a);
    assert IntersectionArea(a, b) == IntersectionArea(b, a);
    assert Area(a) + Area(b) == Area(b) + Area(a);
  }

  /** A box of positive size overlaps itself completely. */
  lemma IoUSelf(a: BoundingBox)
    requires a.width > 0.0 && a.height > 0.0
    ensures ComputeIoU(a, a) == 1.0
  {
    assert Overlaps(a, a);
    assert IntersectionArea(a, a) == Area(a);
    OverlapBounds(a, a);
  }
}
