/**
 * Points and axis-aligned rectangles of the game's plane.
 *
 * `Position` models the three structurally identical Position classes
 * (src/Utils/Position.ts, src/NewGame/Utils/Position.ts and
 * src/NewGameSpike/Position.ts); only the first has `equals` and `distanceTo`.
 * JavaScript numbers are modelled as exact reals.
 */
module Geometry {

  /** An immutable point (or displacement) of the plane. */
  datatype Position = Position(x: real, y: real) {

    function Add(other: Position): Position {
      Position(x + other.x, y + other.y)
    }

    function Minus(other: Position): Position {
      Position(x - other.x, y - other.y)
    }

    /** Scales each axis by its own factor. */
    function Multiply(sx: real, sy: real): Position {
      Position(x * sx, y * sy)
    }

    /** Coordinate-wise equality, which is exactly equality of the two points. */
    predicate Equals(other: Position): (r: bool)
      ensures r <==> this == other
    {
      x == other.x && y == other.y
    }

    /**
     * The square of `distanceTo`: the source takes the square root of this
     * value; the model compares squares instead (see DistanceBelowIff).
     */
    function DistanceSquared(other: Position): (r: real)
      ensures r >= 0.0
      ensures r == 0.0 <==> this == other
    {
      var dx := x - other.x;
      var dy := y - other.y;
      SquareOrder(0.0, if dx >= 0.0 then dx else -dx);
      SquareOrder(0.0, if dy >= 0.0 then dy else -dy);
      dx * dx + dy * dy
    }
  }

  const Origin := Position(0.0, 0.0)

  /** `d` is what `p.distanceTo(q)` returns: the non-negative root of the squared distance. */
  ghost predicate IsDistance(p: Position, q: Position, d: real) {
    d >= 0.0 && d * d == p.DistanceSquared(q)
  }

  lemma AddMinusRoundTrip(p: Position, q: Position)
    ensures p.Add(q).Minus(q) == p
  {
  }

  lemma MinusAddRoundTrip(p: Position, q: Position)
    ensures p.Minus(q).Add(q) == p
  {
  }

  lemma AddCommutes(p: Position, q: Position)
    ensures p.Add(q) == q.Add(p)
  {
  }

  lemma AddIsComponentwise(p: Position, q: Position)
    ensures p.Add(q).x - p.x == q.x && p.Add(q).y - p.y == q.y
    ensures p.Add(Origin) == p
  {
  }

  lemma MinusIsComponentwise(p: Position, q: Position)
    ensures p.Minus(q) == p.Add(q.Multiply(-1.0, -1.0))
    ensures p.Minus(p) == Origin
  {
  }

  lemma MultiplyByOneIsIdentity(p: Position)
    ensures p.Multiply(1.0, 1.0) == p
  {
  }

  /** Scaling is per axis: two scalings compose axis by axis, and scaling commutes with addition. */
  lemma MultiplyPerAxis(p: Position, q: Position, a: real, b: real, c: real, d: real)
    ensures p.Multiply(a, b).Multiply(c, d) == p.Multiply(a * c, b * d)
    ensures p.Add(q).Multiply(a, b) == p.Multiply(a, b).Add(q.Multiply(a, b))
  {
  }

  lemma DistanceSymmetric(p: Position, q: Position)
    ensures p.DistanceSquared(q) == q.DistanceSquared(p)
  {
  }

  /** The distance of a point to itself is 0, and 0 is the only distance between equal points. */
  lemma DistanceToSelf(p: Position, d: real)
    ensures IsDistance(p, p, 0.0)
    ensures IsDistance(p, p, d) ==> d == 0.0
  {
    if d >= 0.0 {
      SquareOrder(0.0, d);
    }
  }

  /** For non-negative numbers, squaring preserves and reflects strict order. */
  lemma SquareOrder(a: real, b: real)
    requires a >= 0.0 && b >= 0.0
    ensures a < b <==> a * a < b * b
  {
    var aa, ab, bb := a * a, a * b, b * b;
    if a < b {
      assert aa <= ab;
      assert ab < bb;
      assert aa < bb;
    } else {
      assert bb <= ab;
      assert ab <= aa;
      assert !(aa < bb);
    }
  }

  /** The sign of a product follows the signs of its factors. */
  lemma ProductSign(a: real, b: real)
    ensures (a > 0.0 && b > 0.0) || (a < 0.0 && b < 0.0) ==> a * b > 0.0
    ensures (a > 0.0 && b < 0.0) || (a < 0.0 && b > 0.0) ==> a * b < 0.0
    ensures a == 0.0 || b == 0.0 ==> a * b == 0.0
  {
  }

  /**
   * Comparing `distanceTo(...) < s` for a non-negative bound `s` is the same as
   * comparing squared distance with `s * s`: the model's squared comparisons
   * decide exactly what the source's square-root comparisons decide.
   */
  lemma DistanceBelowIff(p: Position, q: Position, d: real, s: real)
    requires IsDistance(p, q, d) && s >= 0.0
    ensures d < s <==> p.DistanceSquared(q) < s * s
  {
    SquareOrder(d, s);
  }

  /** src/Utils/Position.test.ts: the distance from (0,0) to (10,20) is close to 22.36. */
  lemma DistanceExample(d: real)
    requires IsDistance(Origin, Position(10.0, 20.0), d)
    ensures 22.36 < d < 22.37
  {
    SquareOrder(22.36, d);
    SquareOrder(d, 22.37);
  }

  /** A width and a height (the `ISize` of src/NewGame/Utils/Rect.ts). */
  datatype Size = Size(width: real, height: real) {
    predicate NonNegative() {
      width >= 0.0 && height >= 0.0
    }
  }

  /**
   * An axis-aligned rectangle given by its centre and size. Its bounds are
   * derived from these two and never stored apart from them, so they cannot
   * go stale.
   */
  datatype Rect = Rect(center: Position, size: Size) {

    function Top(): real { center.y - size.height / 2.0 }
    function Bottom(): real { center.y + size.height / 2.0 }
    function Left(): real { center.x - size.width / 2.0 }
    function Right(): real { center.x + size.width / 2.0 }

    /** The closed rectangle contains `p`. */
    predicate Contains(p: Position) {
      Left() <= p.x <= Right() && Top() <= p.y <= Bottom()
    }

    /** False only when the two rectangles are strictly apart on the x axis or on the y axis. */
    predicate Overlaps(other: Rect) {
      if Right() < other.Left() || Left() > other.Right() then false
      else if Bottom() < other.Top() || Top() > other.Bottom() then false
      else true
    }
  }

  /** The bounds span the size and are centred on the centre. */
  lemma BoundsSpanSizeAroundCenter(r: Rect)
    ensures r.Right() - r.Left() == r.size.width && r.Bottom() - r.Top() == r.size.height
    ensures r.Left() + r.Right() == 2.0 * r.center.x && r.Top() + r.Bottom() == 2.0 * r.center.y
  {
  }

  lemma OverlapsSymmetric(a: Rect, b: Rect)
    ensures a.Overlaps(b) == b.Overlaps(a)
  {
  }

  /** A rectangle overlaps itself exactly when its size is not negative. */
  lemma OverlapsSelf(a: Rect)
    ensures a.Overlaps(a) <==> a.size.NonNegative()
  {
  }

  /** Two rectangles that share a point overlap (touching edges included). */
  lemma CommonPointOverlaps(a: Rect, b: Rect, p: Position)
    requires a.Contains(p) && b.Contains(p)
    ensures a.Overlaps(b)
  {
  }

  /** The corner point shared by two overlapping rectangles of non-negative size. */
  function OverlapWitness(a: Rect, b: Rect): Position {
    Position(if a.Left() >= b.Left() then a.Left() else b.Left(),
             if a.Top() >= b.Top() then a.Top() else b.Top())
  }

  /**
   * For rectangles of non-negative size, overlapping is exactly sharing a
   * point of the closed rectangles: the test is the intersection of closed
   * intervals on both axes.
   */
  lemma OverlapsIffCommonPoint(a: Rect, b: Rect)
    requires a.size.NonNegative() && b.size.NonNegative()
    ensures a.Overlaps(b) <==> a.Contains(OverlapWitness(a, b)) && b.Contains(OverlapWitness(a, b))
  {
    if a.Contains(OverlapWitness(a, b)) && b.Contains(OverlapWitness(a, b)) {
      CommonPointOverlaps(a, b, OverlapWitness(a, b));
    }
  }

  /** The cases of src/NewGame/Utils/Rect.test.ts, and edge contact counting as overlap. */
  lemma RectTestCases()
    ensures var unit := Size(10.0, 10.0);
            var origin := Rect(Origin, unit);
            && !origin.Overlaps(Rect(Position(30.0, 30.0), unit))
            && origin.Overlaps(Rect(Position(5.0, 5.0), unit))
            && origin.Overlaps(Rect(Position(-5.0, -5.0), unit))
            && origin.Overlaps(Rect(Position(5.0, -5.0), unit))
            && origin.Overlaps(Rect(Position(-5.0, 5.0), unit))
            && !origin.Overlaps(Rect(Position(30.0, 0.0), unit))
            && !origin.Overlaps(Rect(Position(-30.0, 0.0), unit))
            && !origin.Overlaps(Rect(Position(0.0, 30.0), unit))
            && !origin.Overlaps(Rect(Position(0.0, -30.0), unit))
            && origin.Overlaps(Rect(Position(10.0, 0.0), unit))
            && !origin.Overlaps(Rect(Position(10.5, 0.0), unit))
  {
  }
}
