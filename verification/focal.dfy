/** `BynderSyncedImage.set_focal_area_from_focus_point` as a computation:
    the focus point Bynder reports on the original image becomes a square
    focal area on the image Wagtail stores. Python computes
    `floor(x / (original_height / height))` and `floor(width * 0.4)` in
    floating point; here they are the exact integers `x * height /
    original_height` and `2 * width / 5`. */
module Focal {
  import opened Wrappers
  import opened AssetData

  /** focal_point_x, focal_point_y, focal_point_width, focal_point_height. */
  datatype FocalArea = FocalArea(x: int, y: int, width: int, height: int)

  function Min(a: int, b: int): int {
    if a <= b then a else b
  }

  predicate OutOfBounds(x: int, y: int, originalHeight: int, originalWidth: int) {
    x < 0 || y < 0 || x > originalWidth || y > originalHeight
  }

  /** Rescaling divides by `original_height / height`, which fails when
      either height is zero. */
  predicate RescaleDividesByZero(originalHeight: int, height: int) {
    height != originalHeight && (height == 0 || originalHeight == 0)
  }

  /** A coordinate on the original image moved onto the stored one. */
  function Rescale(c: int, originalHeight: int, height: int): int
    requires originalHeight > 0
  {
    c * height / originalHeight
  }

  /** Half the side of the square, spanning out from `c` to the nearer edge
      of `extent`, capped at 40% of `extent`. */
  function Span(c: int, extent: int): int {
    Min(Min(c, extent - c) * 2, 2 * extent / 5)
  }

  /** The focal area for focus point (x, y) on an `originalWidth` by
      `originalHeight` original, stored as `width` by `height`. */
  function ComputeFocalArea(x: int, y: int, originalHeight: int, originalWidth: int, width: int, height: int)
    : (r: Result<FocalArea, Error>)
    ensures r == Failure(FocusPointOutOfBounds) <==> OutOfBounds(x, y, originalHeight, originalWidth)
    ensures r == Failure(DivisionByZero) <==>
      !OutOfBounds(x, y, originalHeight, originalWidth) && RescaleDividesByZero(originalHeight, height)
    ensures r.Success? ==> r.value.width == r.value.height
  {
    if OutOfBounds(x, y, originalHeight, originalWidth) then Failure(FocusPointOutOfBounds)
    else if RescaleDividesByZero(originalHeight, height) then Failure(DivisionByZero)
    else
      var fx := if height != originalHeight then Rescale(x, originalHeight, height) else x;
      var fy := if height != originalHeight then Rescale(y, originalHeight, height) else y;
      var side := Min(Span(fx, width), Span(fy, height));
      Success(FocalArea(fx, fy, side, side))
  }

  /** The centre is the focus point itself when the heights agree, and
      otherwise the focus point scaled by the ratio of the heights (for both
      axes), rounded down. */
  lemma FocalCentreIsScaledFocusPoint(x: int, y: int, originalHeight: int, originalWidth: int, width: int, height: int)
    requires ComputeFocalArea(x, y, originalHeight, originalWidth, width, height).Success?
    ensures var a := ComputeFocalArea(x, y, originalHeight, originalWidth, width, height).value;
      if height == originalHeight then a.x == x && a.y == y
      else originalHeight > 0 && a.x == x * height / originalHeight && a.y == y * height / originalHeight
  {
  }

  /** The square's side never exceeds twice the distance from the centre to
      either edge, nor 40% of either dimension. */
  lemma FocalSideBounds(x: int, y: int, originalHeight: int, originalWidth: int, width: int, height: int)
    requires ComputeFocalArea(x, y, originalHeight, originalWidth, width, height).Success?
    ensures var a := ComputeFocalArea(x, y, originalHeight, originalWidth, width, height).value;
      && a.width <= 2 * Min(a.x, width - a.x)
      && a.width <= 2 * Min(a.y, height - a.y)
      && a.width <= 2 * width / 5
      && a.width <= 2 * height / 5
  {
  }

  lemma MulMonotone(a: int, b: int, k: nat)
    requires a <= b
    ensures a * k <= b * k
    decreases k
  {
    if k > 0 {
      MulMonotone(a, b, k - 1);
      assert a * k == a * (k - 1) + a;
      assert b * k == b * (k - 1) + b;
    }
  }

  lemma DivMonotone(a: int, b: int, d: int)
    requires a <= b && d > 0
    ensures a / d <= b / d
  {
    var qa, ra := a / d, a % d;
    var qb, rb := b / d, b % d;
    assert a == d * qa + ra && 0 <= ra < d;
    assert b == d * qb + rb && 0 <= rb < d;
    if qa > qb {
      MulMonotone(qb + 1, qa, d);
      assert false;
    }
  }

  lemma MulDivCancel(a: int, d: int)
    requires d > 0
    ensures a * d / d == a
  {
    var q, r := a * d / d, a * d % d;
    assert a * d == d * q + r && 0 <= r < d;
    if q < a {
      MulMonotone(q + 1, a, d);
      assert false;
    } else if q > a {
      MulMonotone(a + 1, q, d);
      assert false;
    }
  }

  lemma ScaledBelow(c: int, bound: int, originalHeight: int, height: int)
    requires 0 <= c <= bound && originalHeight > 0 && height >= 0
    ensures 0 <= c * height / originalHeight <= bound * height / originalHeight
  {
    MulMonotone(0, c, height);
    MulMonotone(c, bound, height);
    DivMonotone(0, c * height, originalHeight);
    DivMonotone(c * height, bound * height, originalHeight);
  }

  /** On a stored image of non-negative height, the centre's y lies inside
      the stored image. */
  lemma FocalCentreYInside(x: int, y: int, originalHeight: int, originalWidth: int, width: int, height: int)
    requires height >= 0
    requires ComputeFocalArea(x, y, originalHeight, originalWidth, width, height).Success?
    ensures var a := ComputeFocalArea(x, y, originalHeight, originalWidth, width, height).value;
      0 <= a.y <= height
  {
    if height != originalHeight {
      ScaledBelow(y, originalHeight, originalHeight, height);
      MulDivCancel(height, originalHeight);
      assert originalHeight * height == height * originalHeight;
    }
  }

  /** When the stored image is at least as wide, relative to its height, as
      the original (a resize that keeps the aspect ratio), the centre's x
      lies inside the stored image too. */
  lemma FocalCentreXInside(x: int, y: int, originalHeight: int, originalWidth: int, width: int, height: int)
    requires height >= 0 && originalHeight > 0
    requires originalWidth * height <= width * originalHeight
    requires ComputeFocalArea(x, y, originalHeight, originalWidth, width, height).Success?
    ensures var a := ComputeFocalArea(x, y, originalHeight, originalWidth, width, height).value;
      0 <= a.x <= width
  {
    if height != originalHeight {
      ScaledBelow(x, originalWidth, originalHeight, height);
      DivMonotone(originalWidth * height, width * originalHeight, originalHeight);
      MulDivCancel(width, originalHeight);
    } else {
      DivMonotone(originalWidth * originalHeight, width * originalHeight, originalHeight);
      MulDivCancel(originalWidth, originalHeight);
      MulDivCancel(width, originalHeight);
    }
  }

  /** Once its centre lies inside the stored image, the focal square
      (centre plus or minus half its side) lies inside it, with a
      non-negative side. */
  lemma FocalAreaInsideImage(x: int, y: int, originalHeight: int, originalWidth: int, width: int, height: int)
    requires ComputeFocalArea(x, y, originalHeight, originalWidth, width, height).Success?
    requires var a := ComputeFocalArea(x, y, originalHeight, originalWidth, width, height).value;
      0 <= a.x <= width && 0 <= a.y <= height
    ensures var a := ComputeFocalArea(x, y, originalHeight, originalWidth, width, height).value;
      && 0 <= a.width
      && 0 <= a.x - a.width / 2 && a.x + a.width / 2 <= width
      && 0 <= a.y - a.height / 2 && a.y + a.height / 2 <= height
  {
    FocalSideBounds(x, y, originalHeight, originalWidth, width, height);
  }

  /** The worked example: focus point (541, 550) on a 3000 by 2008
      original, stored as 50 by 50. */
  lemma FocalAreaExample()
    ensures ComputeFocalArea(541, 550, 2008, 3000, 50, 50) == Success(FocalArea(13, 13, 20, 20))
  {
  }

  /** The bounds are inclusive: a focus point on the original's far corner
      is accepted, one past it is rejected. */
  lemma FocusPointBoundsInclusive(originalHeight: nat, originalWidth: nat, width: int, height: int)
    ensures ComputeFocalArea(originalWidth, originalHeight, originalHeight, originalWidth, width, height) != Failure(FocusPointOutOfBounds)
    ensures ComputeFocalArea(0, 0, originalHeight, originalWidth, width, height) != Failure(FocusPointOutOfBounds)
    ensures ComputeFocalArea(originalWidth + 1, 0, originalHeight, originalWidth, width, height) == Failure(FocusPointOutOfBounds)
  {
  }
}
