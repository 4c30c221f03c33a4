/** The particle shape: a point with no extent and no inertia. */
module Particle {
  import opened Wrappers
  import opened Vectors
  import Shape

  function Init(id: int): (s: Shape.Shape)
    ensures s.shapeType == Shape.PARTICLE && s.id == id && s.boundingSphereRadius == 0.0
  {
    Shape.Init(id, Shape.NoOptions.(shapeType := Some(Shape.PARTICLE)))
  }

  /** `calculateLocalInertia`: zero about every axis, whatever the mass. */
  function LocalInertia(mass: real): (inertia: Vec3)
    ensures inertia == Zero
  {
    Zero
  }

  function Volume(): (v: real)
    ensures v == 0.0
  {
    0.0
  }

  /** `updateBoundingSphereRadius`. */
  function UpdateBoundingSphereRadius(s: Shape.Shape): (r: Shape.Shape)
    ensures r.boundingSphereRadius == 0.0
    ensures r.(boundingSphereRadius := s.boundingSphereRadius) == s
  {
    s.(boundingSphereRadius := 0.0)
  }

  /** `calculateWorldAABB`: the single point at the position. */
  function WorldAabb(pos: Vec3): (b: Aabb)
    ensures Inside(pos, b)
    ensures forall p :: Inside(p, b) ==> p == pos
  {
    Aabb(pos, pos)
  }
}
