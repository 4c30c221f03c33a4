/** The shape base class: the fields every shape carries, the `TYPES` bit
    flags, and the abstract methods that throw until a subclass overrides
    them. Bodies and materials are referred to by their `_id`. */
module Shape {
  import opened Wrappers
  import opened JsNumbers

  const SPHERE: int := 1
  const PLANE: int := 2
  const BOX: int := 4
  const COMPOUND: int := 8
  const CONVEXPOLYHEDRON: int := 16
  const HEIGHTFIELD: int := 32
  const PARTICLE: int := 64
  const CYLINDER: int := 128
  const TRIMESH: int := 256

  /** The `TYPES` table in declaration order. */
  const Types: seq<int> := [SPHERE, PLANE, BOX, COMPOUND, CONVEXPOLYHEDRON, HEIGHTFIELD, PARTICLE, CYLINDER, TRIMESH]

  datatype Shape = Shape(
    id: int,
    shapeType: int,
    boundingSphereRadius: real,
    collisionResponse: bool,
    collisionFilterGroup: int,
    collisionFilterMask: int,
    material: Option<int>,
    body: Option<int>)

  /** The options `init` reads; `None` is a property the options lack. */
  datatype ShapeOptions = ShapeOptions(
    shapeType: Option<int>,
    collisionResponse: Option<bool>,
    collisionFilterGroup: Option<int>,
    collisionFilterMask: Option<int>,
    material: Option<int>)

  const NoOptions: ShapeOptions := ShapeOptions(None, None, None, None, None)

  /** `init(options)`. */
  function Init(id: int, o: ShapeOptions): (s: Shape)
    ensures s.id == id && s.boundingSphereRadius == 0.0 && s.body == None
    ensures s.shapeType == (if o.shapeType.Some? then o.shapeType.value else 0)
    ensures s.collisionFilterGroup == (if o.collisionFilterGroup.Some? then o.collisionFilterGroup.value else 1)
    ensures s.collisionFilterMask == (if o.collisionFilterMask.Some? then o.collisionFilterMask.value else -1)
    ensures s.material == o.material
  {
    Shape(id,
      if o.shapeType.Some? && o.shapeType.value != 0 then o.shapeType.value else 0,
      0.0,
      if o.collisionResponse.Some? && o.collisionResponse.value then o.collisionResponse.value else true,
      if o.collisionFilterGroup.Some? then o.collisionFilterGroup.value else 1,
      if o.collisionFilterMask.Some? then o.collisionFilterMask.value else -1,
      o.material,
      None)
  }

  /** Both branches of the `collisionResponse` conditional yield true, so a
      fresh shape always responds to collisions, whatever the options say. */
  lemma CollisionResponseAlwaysTrue(id: int, o: ShapeOptions)
    ensures Init(id, o).collisionResponse
  {
  }

  /** The base `updateBoundingSphereRadius` throws. */
  function UpdateBoundingSphereRadius(s: Shape): (r: Result<Shape>)
    ensures r.Err? && r.error.Thrown?
  {
    Err(Thrown("computeBoundingSphereRadius() not implemented for shape type"))
  }

  /** The base `volume` throws. */
  function Volume(s: Shape): (r: Result<real>)
    ensures r.Err? && r.error.Thrown?
  {
    Err(Thrown("volume() not implemented for shape type"))
  }

  /** The base `calculateLocalInertia` throws. */
  function CalculateLocalInertia(s: Shape, mass: real): (r: Result<real>)
    ensures r.Err? && r.error.Thrown?
  {
    Err(Thrown("calculateLocalInertia() not implemented for shape type"))
  }

  /** The base `calculateWorldAABB` throws. */
  function CalculateWorldAabb(s: Shape): (r: Result<real>)
    ensures r.Err? && r.error.Thrown?
  {
    Err(Thrown("calculateWorldAABB() not implemented for shape type"))
  }

  /** Each type flag is a distinct power of two. */
  lemma TypesArePowers()
    ensures forall k :: 0 <= k < |Types| ==> Types[k] == Pow2(k)
  {
    assert Pow2(1) == 2 && Pow2(2) == 4 && Pow2(3) == 8 && Pow2(4) == 16;
    assert Pow2(5) == 32 && Pow2(6) == 64 && Pow2(7) == 128 && Pow2(8) == 256;
  }

  /** `typeA | typeB` names the unordered pair of types: two pairs give the
      same key exactly when they are the same pair. */
  lemma TypePairKeyUnique(p: nat, q: nat, u: nat, v: nat)
    requires p < |Types| && q < |Types| && u < |Types| && v < |Types|
    ensures Or(Types[p], Types[q]) == Or(Types[u], Types[v]) <==> {p, q} == {u, v}
  {
    TypesArePowers();
    Pow2Of32();
    Pow2Monotone(8, 32);
    assert Pow2(8) <= Pow2(32);
    SmallOr(p, q);
    SmallOr(u, v);
    OrOfBitsUnique(p, q, u, v, 32);
    SignedInjective(OrN(Pow2(p), Pow2(q), 32), OrN(Pow2(u), Pow2(v), 32));
  }

  /** The key of two types is their sum, or the one type when they are
      the same. */
  lemma TypePairKey(p: nat, q: nat)
    requires p < |Types| && q < |Types|
    ensures Or(Types[p], Types[q]) == if p == q then Types[p] else Types[p] + Types[q]
  {
    TypesArePowers();
    Pow2Of32();
    Pow2Monotone(8, 32);
    SmallOr(p, q);
    OrOfPowers(p, q, 32);
    Pow2Monotone(p, 8);
    Pow2Monotone(q, 8);
  }

  /** For two type flags, `|` reads the or of the two single bits. */
  lemma SmallOr(p: nat, q: nat)
    requires p < |Types| && q < |Types|
    requires forall k :: 0 <= k < |Types| ==> Types[k] == Pow2(k)
    requires Pow2(32) == Two32 && Pow2(8) <= Pow2(32)
    ensures Or(Types[p], Types[q]) == Signed(OrN(Pow2(p), Pow2(q), 32))
  {
    Pow2Monotone(p, 8);
    Pow2Monotone(q, 8);
    assert Bits(Types[p]) == Pow2(p);
    assert Bits(Types[q]) == Pow2(q);
  }
}
