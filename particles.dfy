/** A particle of the field visualisation: a point that drifts toward a
 *  target. Its colour is fixed and only matters for drawing. */
module Particles {

  datatype Particle = Particle(x: real, y: real)

  /** Squared distance from a particle to the point (tx, ty). */
  function Distance2(p: Particle, tx: real, ty: real): real {
    (tx - p.x) * (tx - p.x) + (ty - p.y) * (ty - p.y)
  }

  /** moveToward: step `strength` units along the direction to (tx, ty),
   *  unless the particle is within one unit of it. `distance` is the value
   *  Math.hypot(tx - p.x, ty - p.y) returns, which Dafny cannot compute. */
  function MoveToward(p: Particle, tx: real, ty: real, strength: real, distance: real): Particle {
    if distance > 1.0 then
      Particle(p.x + (tx - p.x) / distance * strength, p.y + (ty - p.y) / distance * strength)
    else
      p
  }

  /** Within one unit of the target the particle stays where it is. */
  lemma MoveTowardStopsNearTarget(p: Particle, tx: real, ty: real, strength: real, distance: real)
    requires distance <= 1.0
    ensures MoveToward(p, tx, ty, strength, distance) == p
  {
  }

  /** Given the true distance, a particle more than one unit away moves by
   *  exactly `strength` along the line to the target, so its new distance to
   *  the target is |distance - strength| (it overshoots when strength exceeds
   *  the distance, which the source accepts). */
  lemma MoveTowardApproaches(p: Particle, tx: real, ty: real, strength: real, distance: real)
    requires distance > 1.0
    requires distance * distance == Distance2(p, tx, ty)
    ensures var r := MoveToward(p, tx, ty, strength, distance);
      (r.x - p.x) * (r.x - p.x) + (r.y - p.y) * (r.y - p.y) == strength * strength &&
      Distance2(r, tx, ty) == (distance - strength) * (distance - strength)
  {
  }
}
