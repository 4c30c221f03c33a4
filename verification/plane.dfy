/** The infinite plane shape, whose local normal is +z. */
module Plane {
  import opened Wrappers
  import opened Vectors
  import Shape

  datatype Plane = Plane(base: Shape.Shape, worldNormal: Vec3, worldNormalNeedsUpdate: bool)

  /** `init`: an infinite bounding radius and a world normal still to compute. */
  function Init(id: int): (p: Plane)
    ensures p.base.shapeType == Shape.PLANE && p.base.id == id
    ensures p.base.boundingSphereRadius == MaxValue
    ensures p.worldNormalNeedsUpdate
  {
    var base := Shape.Init(id, Shape.NoOptions.(shapeType := Some(Shape.PLANE)));
    Plane(base.(boundingSphereRadius := MaxValue), Zero, true)
  }

  /** `computeWorldNormal`: the +z axis rotated into the world. */
  function ComputeWorldNormal(p: Plane, quat: Quat, ops: MathOps): (r: Plane)
    ensures r.worldNormal == ops.rotate(quat, UnitZ) && !r.worldNormalNeedsUpdate
    ensures r.base == p.base
  {
    p.(worldNormal := ops.rotate(quat, UnitZ), worldNormalNeedsUpdate := false)
  }

  /** `calculateLocalInertia` hands back the target untouched. */
  function LocalInertia(mass: real, target: Vec3): (inertia: Vec3)
    ensures inertia == target
  {
    target
  }

  function Volume(): (v: real)
    ensures v == MaxValue
  {
    MaxValue
  }

  function UpdateBoundingSphereRadius(p: Plane): (r: Plane)
    ensures r.base.boundingSphereRadius == MaxValue
    ensures r.base.(boundingSphereRadius := p.base.boundingSphereRadius) == p.base
    ensures r.worldNormal == p.worldNormal && r.worldNormalNeedsUpdate == p.worldNormalNeedsUpdate
  {
    p.(base := p.base.(boundingSphereRadius := MaxValue))
  }

  /** One axis of the plane's box: a normal component of exactly +1 puts the
      upper bound at the position, exactly -1 the lower bound; otherwise the
      axis is unbounded (`MaxValue` either way). */
  function AxisBounds(n: real, pos: real): (r: (real, real))
    ensures n == 1.0 ==> r == (-MaxValue, pos)
    ensures n == -1.0 ==> r == (pos, MaxValue)
    ensures n != 1.0 && n != -1.0 ==> r == (-MaxValue, MaxValue)
  {
    if n == 1.0 then (-MaxValue, pos)
    else if n == -1.0 then (pos, MaxValue)
    else (-MaxValue, MaxValue)
  }

  /** `calculateWorldAABB`. */
  function WorldAabb(pos: Vec3, quat: Quat, ops: MathOps): (b: Aabb)
    ensures var n := ops.rotate(quat, UnitZ);
      (b.lower.x, b.upper.x) == AxisBounds(n.x, pos.x) &&
      (b.lower.y, b.upper.y) == AxisBounds(n.y, pos.y) &&
      (b.lower.z, b.upper.z) == AxisBounds(n.z, pos.z)
  {
    var n := ops.rotate(quat, UnitZ);
    var x := AxisBounds(n.x, pos.x);
    var y := AxisBounds(n.y, pos.y);
    var z := AxisBounds(n.z, pos.z);
    Aabb(Vec3(x.0, y.0, z.0), Vec3(x.1, y.1, z.1))
  }

  /** Whatever the orientation, the plane's own position lies in its box
      (as long as the position is a finite number). */
  lemma WorldAabbHoldsPosition(pos: Vec3, quat: Quat, ops: MathOps)
    requires -MaxValue <= pos.x <= MaxValue && -MaxValue <= pos.y <= MaxValue && -MaxValue <= pos.z <= MaxValue
    ensures Inside(pos, WorldAabb(pos, quat, ops))
  {
  }

  /** A plane facing straight up the z axis bounds only z from above. */
  lemma WorldAabbFacingUp(pos: Vec3, quat: Quat, ops: MathOps)
    requires ops.rotate(quat, UnitZ) == UnitZ
    ensures WorldAabb(pos, quat, ops) == Aabb(Vec3(-MaxValue, -MaxValue, -MaxValue), Vec3(MaxValue, MaxValue, pos.z))
  {
  }
}
