/** Axis-aligned rectangles and the collision test the collage layout uses. */
module Geometry {

  /** A rectangle in logical (pre-scale) canvas units: top-left corner and extent. */
  datatype Rect = Rect(x: real, y: real, width: real, height: real)

  /** Strict overlap on both axes: rectangles that only touch do not overlap. */
  predicate Overlaps(a: Rect, b: Rect) {
    && a.x < b.x + b.width
    && a.x + a.width > b.x
    && a.y < b.y + b.height
    && a.y + a.height > b.y
  }

  /** The rectangle grown by `margin` on every side. */
  function Expand(r: Rect, margin: real): (e: Rect)
    ensures e.x == r.x - margin && e.x + e.width == r.x + r.width + margin
    ensures e.y == r.y - margin && e.y + e.height == r.y + r.height + margin
  {
    Rect(r.x - margin, r.y - margin, r.width + margin * 2.0, r.height + margin * 2.0)
  }

  /** Some rectangle of `placed` overlaps `r`. */
  predicate HitsAny(r: Rect, placed: seq<Rect>) {
    exists j :: 0 <= j < |placed| && Overlaps(r, placed[j])
  }

  /** Overlap is a symmetric relation. */
  lemma OverlapsSymmetric(a: Rect, b: Rect)
    ensures Overlaps(a, b) <==> Overlaps(b, a)
  {
  }

  /** Two rectangles separated along one axis (touching allowed) do not overlap. */
  lemma SeparatedNotOverlapping(a: Rect, b: Rect)
    requires a.x + a.width <= b.x || b.x + b.width <= a.x
          || a.y + a.height <= b.y || b.y + b.height <= a.y
    ensures !Overlaps(a, b)
  {
  }

  /**
   * The margin-expanded candidate rectangle is tested against every placed
   * rectangle in order; the first hit ends the scan.
   */
  method CheckOverlap(x: real, y: real, width: real, height: real, placedRects: seq<Rect>, margin: real)
    returns (overlap: bool)
    ensures overlap <==> HitsAny(Expand(Rect(x, y, width, height), margin), placedRects)
    ensures placedRects == [] ==> !overlap
  {
    var rect := Expand(Rect(x, y, width, height), margin);
    for k := 0 to |placedRects|
      invariant forall j :: 0 <= j < k ==> !Overlaps(rect, placedRects[j])
    {
      if Overlaps(rect, placedRects[k]) {
        return true;
      }
    }
    return false;
  }

  /** A fraction in [0,1) of a non-negative span stays within the span. */
  lemma FractionOfSpan(r: real, span: real)
    requires 0.0 <= r < 1.0 && 0.0 <= span
    ensures 0.0 <= r * span <= span
  {
    assert r * span <= 1.0 * span;
  }
}
