/** The box shape: half extents, the convex polyhedron that stands for it
    in the convex collision routines, inertia and world bounds. */
module Box {
  import opened Vectors
  import Shape
  import opened Wrappers

  /** The data a box hands to `ConvexPolyhedron.create`. */
  datatype Hull = Hull(vertices: seq<Vec3>, faces: seq<seq<int>>, axes: seq<Vec3>)

  datatype Box = Box(base: Shape.Shape, halfExtents: Vec3, hull: Hull)

  /** `init(options)`: builds the hull and the bounding radius |halfExtents|. */
  function Init(id: int, halfExtents: Vec3, ops: MathOps): (b: Box)
    ensures b.base.shapeType == Shape.BOX && b.base.id == id
    ensures b.halfExtents == halfExtents && b.hull == ConvexRepresentation(halfExtents)
    ensures b.base.boundingSphereRadius == ops.sqrt(NormSq(halfExtents))
  {
    var base := Shape.Init(id, Shape.NoOptions.(shapeType := Some(Shape.BOX)));
    Box(base.(boundingSphereRadius := ops.sqrt(NormSq(halfExtents))), halfExtents, ConvexRepresentation(halfExtents))
  }

  /** `updateConvexPolyhedronRepresentation`: the eight corners, the six
      quadrilateral faces (-z, +z, -y, +y, -x, +x) and the three axes. */
  function ConvexRepresentation(e: Vec3): (h: Hull)
    ensures |h.vertices| == 8 && |h.faces| == 6 && |h.axes| == 3
    ensures forall f :: 0 <= f < 6 ==> |h.faces[f]| == 4
    ensures forall f, k :: 0 <= f < 6 && 0 <= k < |h.faces[f]| ==> 0 <= h.faces[f][k] < 8
  {
    var sx, sy, sz := e.x, e.y, e.z;
    Hull(
      [Vec3(-sx, -sy, -sz), Vec3(sx, -sy, -sz), Vec3(sx, sy, -sz), Vec3(-sx, sy, -sz),
       Vec3(-sx, -sy, sz), Vec3(sx, -sy, sz), Vec3(sx, sy, sz), Vec3(-sx, sy, sz)],
      [[3, 2, 1, 0], [4, 5, 6, 7], [5, 4, 0, 1], [2, 3, 7, 6], [0, 4, 7, 3], [1, 2, 6, 5]],
      [UnitZ, UnitY, UnitX])
  }

  /** The coordinate of a point along axis 0 (x), 1 (y) or 2 (z). */
  function Coord(p: Vec3, axis: nat): real
    requires axis < 3
  {
    if axis == 0 then p.x else if axis == 1 then p.y else p.z
  }

  /** Face f lies on the side of the box given by its axis and sign:
      faces 0 and 1 are -z and +z, 2 and 3 are -y and +y, 4 and 5 are -x and +x. */
  function FaceSide(e: Vec3, f: nat): (side: (nat, real))
    requires f < 6
    ensures side.0 < 3
  {
    var axis := 2 - f / 2;
    var extent := Coord(e, axis);
    (axis, if f % 2 == 0 then -extent else extent)
  }

  /** Every corner of every face sits on that face's side of the box. */
  lemma FacesLieOnSides(e: Vec3)
    ensures var h := ConvexRepresentation(e);
      forall f, k :: 0 <= f < 6 && 0 <= k < 4 ==>
        Coord(h.vertices[h.faces[f][k]], FaceSide(e, f).0) == FaceSide(e, f).1
  {
    var h := ConvexRepresentation(e);
    forall f, k | 0 <= f < 6 && 0 <= k < 4
      ensures Coord(h.vertices[h.faces[f][k]], FaceSide(e, f).0) == FaceSide(e, f).1
    {
      assert f == 0 || f == 1 || f == 2 || f == 3 || f == 4 || f == 5;
      assert k == 0 || k == 1 || k == 2 || k == 3;
    }
  }

  /** Every corner is one of the eight sign combinations of the extents. */
  lemma VerticesAreCorners(e: Vec3)
    ensures var h := ConvexRepresentation(e);
      forall k :: 0 <= k < 8 ==>
        Abs(h.vertices[k].x) == Abs(e.x) && Abs(h.vertices[k].y) == Abs(e.y) && Abs(h.vertices[k].z) == Abs(e.z)
  {
  }

  /** `calculateInertia`: the solid-box moments m/12 * (side^2 + side^2). */
  function CalculateInertia(e: Vec3, mass: real): (inertia: Vec3)
    ensures inertia.x == mass / 12.0 * (4.0 * e.y * e.y + 4.0 * e.z * e.z)
    ensures inertia.y == mass / 12.0 * (4.0 * e.x * e.x + 4.0 * e.z * e.z)
    ensures inertia.z == mass / 12.0 * (4.0 * e.y * e.y + 4.0 * e.x * e.x)
  {
    Vec3((1.0 / 12.0) * mass * (2.0 * e.y * 2.0 * e.y + 2.0 * e.z * 2.0 * e.z),
         (1.0 / 12.0) * mass * (2.0 * e.x * 2.0 * e.x + 2.0 * e.z * 2.0 * e.z),
         (1.0 / 12.0) * mass * (2.0 * e.y * 2.0 * e.y + 2.0 * e.x * 2.0 * e.x))
  }

  /** A cube has the same moment about every axis, and a heavier cube a
      proportionally larger one. */
  lemma CubeInertiaIsotropic(a: real, mass: real)
    ensures var i := CalculateInertia(Vec3(a, a, a), mass);
      i.x == i.y == i.z == mass * 2.0 * a * a / 3.0
  {
  }

  function LocalSideNormals(e: Vec3): (sides: seq<Vec3>)
    ensures |sides| == 6
  {
    [Vec3(e.x, 0.0, 0.0), Vec3(0.0, e.y, 0.0), Vec3(0.0, 0.0, e.z),
     Vec3(-e.x, 0.0, 0.0), Vec3(0.0, -e.y, 0.0), Vec3(0.0, 0.0, -e.z)]
  }

  /** `getSideNormals(targets, quat)`: the six half-extent vectors along
      +x, +y, +z, -x, -y, -z, rotated when a quaternion is given. */
  function SideNormals(e: Vec3, quat: Option<Quat>, ops: MathOps): (sides: seq<Vec3>)
    ensures |sides| == 6
    ensures quat.None? ==> forall k :: 0 <= k < 3 ==> sides[k + 3] == Neg(sides[k])
    ensures quat.None? ==> sides[0] == Scale(e.x, UnitX) && sides[1] == Scale(e.y, UnitY) && sides[2] == Scale(e.z, UnitZ)
    ensures quat.Some? ==> forall k :: 0 <= k < 6 ==> sides[k] == ops.rotate(quat.value, LocalSideNormals(e)[k])
  {
    var local := LocalSideNormals(e);
    if quat.None? then local
    else seq(6, k requires 0 <= k < 6 => ops.rotate(quat.value, local[k]))
  }

  /** `volume`. */
  function Volume(e: Vec3): (v: real)
    ensures e.x >= 0.0 && e.y >= 0.0 && e.z >= 0.0 ==> v >= 0.0
  {
    8.0 * e.x * e.y * e.z
  }

  /** The volume is the product of the side lengths of the hull, measured
      between its opposite corners 0 and 6. */
  lemma VolumeOfHull(e: Vec3)
    ensures var h := ConvexRepresentation(e);
      var d := Sub(h.vertices[6], h.vertices[0]);
      Volume(e) == d.x * d.y * d.z
  {
  }

  /** The corners in the order `calculateWorldAABB` visits them. */
  function LocalCorners(e: Vec3): (cs: seq<Vec3>)
    ensures |cs| == 8
  {
    [Vec3(e.x, e.y, e.z), Vec3(-e.x, e.y, e.z), Vec3(-e.x, -e.y, e.z), Vec3(-e.x, -e.y, -e.z),
     Vec3(e.x, -e.y, -e.z), Vec3(e.x, e.y, -e.z), Vec3(-e.x, e.y, -e.z), Vec3(e.x, -e.y, e.z)]
  }

  function WorldCorner(e: Vec3, pos: Vec3, quat: Quat, ops: MathOps, k: nat): Vec3
    requires k < 8
  {
    Add(pos, ops.rotate(quat, LocalCorners(e)[k]))
  }

  /** `calculateWorldAABB`: the bounds of the eight corners moved into the
      world, scanned from the first corner. */
  function WorldAabb(e: Vec3, pos: Vec3, quat: Quat, ops: MathOps): (b: Aabb)
    ensures forall k :: 0 <= k < 8 ==> Inside(WorldCorner(e, pos, quat, ops, k), b)
  {
    var world := WorldCorners(e, pos, quat, ops);
    var b := BoundsOf(world[0], world[1..]);
    assert forall k :: 1 <= k < 8 ==> world[1..][k - 1] == world[k];
    b
  }

  function WorldCorners(e: Vec3, pos: Vec3, quat: Quat, ops: MathOps): (world: seq<Vec3>)
    ensures |world| == 8 && forall k :: 0 <= k < 8 ==> world[k] == WorldCorner(e, pos, quat, ops, k)
  {
    seq(8, k requires 0 <= k < 8 => WorldCorner(e, pos, quat, ops, k))
  }

  /** Unrotated, the box's world bounds are the position plus and minus the
      half extents. */
  lemma WorldAabbUnrotated(e: Vec3, pos: Vec3, quat: Quat, ops: MathOps)
    requires e.x >= 0.0 && e.y >= 0.0 && e.z >= 0.0
    requires forall k :: 0 <= k < 8 ==> ops.rotate(quat, LocalCorners(e)[k]) == LocalCorners(e)[k]
    ensures WorldAabb(e, pos, quat, ops) == Aabb(Sub(pos, e), Add(pos, e))
  {
    var world := WorldCorners(e, pos, quat, ops);
    var box := Aabb(Sub(pos, e), Add(pos, e));
    var rest := world[1..];
    forall k | 0 <= k < |rest|
      ensures Inside(rest[k], box)
    {
      assert rest[k] == world[k + 1];
    }
    assert ([world[0]] + rest)[3] == box.lower && ([world[0]] + rest)[0] == box.upper;
    assert Inside(world[0], box);
    BoundsOfTight(world[0], rest, box, 3, 0);
  }
}
