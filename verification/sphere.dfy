/** The sphere shape: a radius, checked at construction. */
module Sphere {
  import opened Wrappers
  import opened Vectors
  import Shape

  datatype Sphere = Sphere(base: Shape.Shape, radius: real)

  /** `init(options)`: the radius defaults to 1 when the options lack it, a
      negative radius throws, and the bounding radius is the radius. */
  function Init(id: int, radius: Option<real>): (r: Result<Sphere>)
    ensures r.Err? <==> radius.Some? && radius.value < 0.0
    ensures r.Ok? ==> r.value.radius == (if radius.Some? then radius.value else 1.0)
    ensures r.Ok? ==> r.value.radius >= 0.0
    ensures r.Ok? ==> r.value.base.shapeType == Shape.SPHERE && r.value.base.id == id
    ensures r.Ok? ==> r.value.base.boundingSphereRadius == r.value.radius
  {
    var rad := if radius.Some? then radius.value else 1.0;
    if rad < 0.0 then Err(Thrown("The sphere radius cannot be negative."))
    else Ok(UpdateBoundingSphereRadius(Sphere(Shape.Init(id, Shape.NoOptions.(shapeType := Some(Shape.SPHERE))), rad)))
  }

  /** `calculateLocalInertia`: the same moment 2mr^2/5 about every axis. */
  function LocalInertia(s: Sphere, mass: real): (inertia: Vec3)
    ensures inertia.x == inertia.y == inertia.z
    ensures inertia.x == 2.0 * mass * s.radius * s.radius / 5.0
  {
    var i := (2.0 * mass * s.radius * s.radius) / 5.0;
    Vec3(i, i, i)
  }

  /** `updateBoundingSphereRadius`: the bounding sphere is the sphere. */
  function UpdateBoundingSphereRadius(s: Sphere): (r: Sphere)
    ensures r.base.boundingSphereRadius == s.radius
    ensures r.radius == s.radius && r.base.(boundingSphereRadius := 0.0) == s.base.(boundingSphereRadius := 0.0)
  {
    s.(base := s.base.(boundingSphereRadius := s.radius))
  }

  /** `calculateWorldAABB`: the cube of side 2r centred on the position; the
      orientation plays no part. */
  function WorldAabb(s: Sphere, pos: Vec3): (b: Aabb)
    ensures Add(b.lower, b.upper) == Scale(2.0, pos)
    ensures Sub(b.upper, b.lower) == Vec3(2.0 * s.radius, 2.0 * s.radius, 2.0 * s.radius)
  {
    var r := s.radius;
    Aabb(Vec3(pos.x - r, pos.y - r, pos.z - r), Vec3(pos.x + r, pos.y + r, pos.z + r))
  }

  /** The box of a sphere holds its centre, and the heavier sphere has the
      larger moment. */
  lemma WorldAabbHoldsCentre(s: Sphere, pos: Vec3)
    requires s.radius >= 0.0
    ensures Inside(pos, WorldAabb(s, pos))
  {
  }

  lemma InertiaMonotone(s: Sphere, m1: real, m2: real)
    requires m1 <= m2
    ensures LocalInertia(s, m1).x <= LocalInertia(s, m2).x
  {
    var rr := s.radius * s.radius;
    assert rr >= 0.0;
    assert 2.0 * m2 * s.radius * s.radius - 2.0 * m1 * s.radius * s.radius == 2.0 * (m2 - m1) * rr;
  }
}
