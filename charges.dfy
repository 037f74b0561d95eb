/** A point charge on the canvas: a position that can be dragged and a
 *  signed value. Canvas coordinates are modelled as exact reals. */
module Charges {

  /** The radius of a charge's disc, which is also the radius of its hit area. */
  const Radius: real := 10.0

  class Charge {
    var x: real
    var y: real
    var value: real

    constructor (x: real, y: real, value: real)
      ensures this.x == x && this.y == y && this.value == value
    {
      this.x, this.y, this.value := x, y, value;
    }

    /** isClicked: the point (mx, my) lies strictly inside the disc of radius
     *  Radius around the charge. The source compares Math.hypot(dx, dy) with
     *  the radius; comparing squares is the same test over the reals (see
     *  IsClickedWithinRadius). */
    predicate IsClicked(mx: real, my: real)
      reads this
    {
      (x - mx) * (x - mx) + (y - my) * (y - my) < Radius * Radius
    }

    /** move: overwrite the position, with no bounds check; the value stays. */
    method Move(newX: real, newY: real)
      modifies this
      ensures x == newX && y == newY
      ensures value == old(value)
    {
      x, y := newX, newY;
    }
  }

  /** Whatever non-negative square root of dx*dx + dy*dy the library returns,
   *  IsClicked holds exactly when that distance is below the radius. */
  lemma IsClickedWithinRadius(c: Charge, mx: real, my: real, distance: real)
    requires 0.0 <= distance
    requires distance * distance == (c.x - mx) * (c.x - mx) + (c.y - my) * (c.y - my)
    ensures c.IsClicked(mx, my) <==> distance < Radius
  {
    if distance < Radius {
      assert distance * distance <= distance * Radius;
      assert distance * Radius < Radius * Radius;
    } else {
      assert distance * distance >= distance * Radius;
      assert distance * Radius >= Radius * Radius;
    }
  }

  /** A point at distance exactly Radius, e.g. (x + 6, y + 8), is not a hit. */
  lemma BoundaryIsNotClicked(c: Charge, mx: real, my: real)
    requires (c.x - mx) * (c.x - mx) + (c.y - my) * (c.y - my) == Radius * Radius
    ensures !c.IsClicked(mx, my)
  {
  }
}
