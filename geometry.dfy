/** Plane geometry of the drum machine's screen: touch points, cell rectangles
    and colours, with the half-open containment test a touch is matched by. */
module Geometry {

  /** A touch location on the screen. */
  datatype Point = Point(x: real, y: real)

  /** An axis-aligned rectangle: origin (x, y), width w and height h. */
  datatype Rect = Rect(x: real, y: real, w: real, h: real)

  /** An RGB colour triple. */
  datatype Colour = RGB(r: real, g: real, b: real)

  /** Containment of a point in a rectangle, half-open on the far edges:
      [x, x + w) x [y, y + h). */
  predicate Contains(r: Rect, p: Point)
    ensures Contains(r, p) ==> r.w > 0.0 && r.h > 0.0
  {
    r.x <= p.x < r.x + r.w && r.y <= p.y < r.y + r.h
  }

  /** Scaling by a positive factor preserves order. */
  lemma ScaleMono(a: real, b: real, w: real)
    requires a <= b && w > 0.0
    ensures a * w <= b * w
  {
    assert (b - a) * w >= 0.0;
  }

  /** Scaling by a positive factor preserves strict order. */
  lemma ScaleStrictMono(a: real, b: real, w: real)
    requires a < b && w > 0.0
    ensures a * w < b * w
  {
    assert (b - a) * w > 0.0;
  }

  /** A coordinate at or after the start of slot i and before the end of
      slot j lies in no slot after j, so i <= j. */
  lemma SlotOrder(i: int, j: int, w: real, c: real)
    requires w > 0.0
    requires i as real * w <= c < j as real * w + w
    ensures i <= j
  {
    if j < i {
      ScaleMono((j + 1) as real, i as real, w);
    }
  }

  /** Two slots [i*w, i*w + w) and [j*w, j*w + w) of a row of equal slots
      overlap only when they are the same slot. */
  lemma SlotsDisjoint(i: int, j: int, w: real, c: real)
    requires w > 0.0
    requires i as real * w <= c < i as real * w + w
    requires j as real * w <= c < j as real * w + w
    ensures i == j
  {
    SlotOrder(i, j, w, c);
    SlotOrder(j, i, w, c);
  }

  /** A coordinate c in [0, n*w) lies in slot floor(c / w), and that slot
      is one of the n slots. */
  lemma SlotOf(c: real, w: real, n: nat)
    requires w > 0.0 && 0.0 <= c < n as real * w
    ensures 0 <= (c / w).Floor < n
    ensures (c / w).Floor as real * w <= c < (c / w).Floor as real * w + w
  {
    var q := c / w;
    var k := q.Floor;
    assert q * w == c;
    assert k as real <= q < k as real + 1.0;
    ScaleMono(k as real, q, w);
    ScaleStrictMono(q, k as real + 1.0, w);
    assert q * w < (k as real + 1.0) * w;
    assert (k as real + 1.0) * w == k as real * w + w;
    assert c < k as real * w + w;
    if q < 0.0 {
      ScaleStrictMono(q, 0.0, w);
    }
    if n as real <= q {
      ScaleMono(n as real, q, w);
    }
  }

  /** Slot i of n equal slots of width w > 0 lies inside [0, n*w). */
  lemma SlotInside(i: int, n: nat, w: real, c: real)
    requires w > 0.0 && 0 <= i < n
    requires i as real * w <= c < i as real * w + w
    ensures 0.0 <= c < n as real * w
  {
    ScaleMono(0.0, i as real, w);
    ScaleMono((i + 1) as real, n as real, w);
  }

  /** With slots of width w > 0, the point c lies in slot i (0 <= i < n)
      exactly when it lies in [0, n*w) and floor(c / w) is i. */
  lemma SlotIff(i: int, n: nat, w: real, c: real)
    requires w > 0.0 && 0 <= i < n
    ensures i as real * w <= c < i as real * w + w <==> 0.0 <= c < n as real * w && i == (c / w).Floor
  {
    if i as real * w <= c < i as real * w + w {
      SlotInside(i, n, w, c);
      SlotOf(c, w, n);
      SlotsDisjoint(i, (c / w).Floor, w, c);
    }
    if 0.0 <= c < n as real * w {
      SlotOf(c, w, n);
    }
  }
}
