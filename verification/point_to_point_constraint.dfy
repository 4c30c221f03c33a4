/** The point-to-point constraint: holds a point fixed in body A (pivot A)
    on a point fixed in body B (pivot B) through three contact equations,
    one per world axis, that may push either way. */
module PointToPointConstraint {
  import opened Vectors
  import opened Wrappers
  import Body
  import Equation
  import ContactEquation
  import Constraint

  /** One of the three axis equations: bidirectional bounds and the axis
      as its normal. */
  function AxisEquation(id: int, bodyA: nat, bodyB: nat, maxForce: real, axis: Vec3): (eq: Equation.Equation)
    ensures eq.minForce == -maxForce && eq.maxForce == maxForce
    ensures eq.kind == Equation.Contact(0.0, Zero, Zero, axis)
    ensures eq.id == id && eq.bi == bodyA && eq.bj == bodyB && eq.enabled
  {
    var eq := ContactEquation.Init(id, bodyA, bodyB, None);
    eq.(minForce := -maxForce, maxForce := maxForce, kind := eq.kind.(ni := axis))
  }

  /** The first three equations are contact equations and the kind carries
      pivots: what `update` of the point-to-point family works on. */
  predicate Shaped(c: Constraint.Constraint)
  {
    Constraint.HasPivots(c.kind) && |c.equations| >= 3 &&
    c.equations[0].kind.Contact? && c.equations[1].kind.Contact? && c.equations[2].kind.Contact?
  }

  /** `init`: the base constraint with a subclass's (empty) options, then
      the equations x, y and z, created in that order with the ids from
      `firstId` on, all between the two bodies with bounds -maxForce and
      maxForce and normals along the x, y and z axes. */
  function Init(id: int, firstId: int, bodyA: nat, bodyB: nat, pivotA: Vec3, pivotB: Vec3, maxForce: real,
                bodies: seq<Body.Body>): (r: Constraint.Built)
    requires bodyA < |bodies| && bodyB < |bodies|
    ensures Shaped(r.constraint) && Constraint.Valid(r.constraint, r.bodies)
    ensures r.constraint.kind == Constraint.PointToPoint(pivotA, pivotB)
    ensures r.constraint.id == id && r.constraint.bodyA == bodyA && r.constraint.bodyB == bodyB
    ensures r.constraint.collideConnected
    ensures |r.constraint.equations| == 3
    ensures forall k :: 0 <= k < 3 ==>
      var eq := r.constraint.equations[k];
      eq.id == firstId + k && eq.bi == bodyA && eq.bj == bodyB && eq.enabled &&
      eq.minForce == -maxForce && eq.maxForce == maxForce && eq.kind.restitution == 0.0
    ensures r.constraint.equations[0].kind.ni == UnitX
    ensures r.constraint.equations[1].kind.ni == UnitY
    ensures r.constraint.equations[2].kind.ni == UnitZ
    ensures r.bodies == Constraint.Init(id, bodyA, bodyB, Constraint.NoOptions, bodies).bodies
  {
    var base := Constraint.Init(id, bodyA, bodyB, Constraint.NoOptions, bodies);
    var x := AxisEquation(firstId, bodyA, bodyB, maxForce, UnitX);
    var y := AxisEquation(firstId + 1, bodyA, bodyB, maxForce, UnitY);
    var z := AxisEquation(firstId + 2, bodyA, bodyB, maxForce, UnitZ);
    base.(constraint := base.constraint.(equations := [x, y, z], kind := Constraint.PointToPoint(pivotA, pivotB)))
  }

  /** A contact equation with new contact points and nothing else
      changed. */
  function Arms(eq: Equation.Equation, ri: Vec3, rj: Vec3): Equation.Equation
    requires eq.kind.Contact?
  {
    eq.(kind := Equation.Contact(eq.kind.restitution, ri, rj, eq.kind.ni))
  }

  /** `update`: x's contact points become the two pivots turned into the
      world frame by their bodies' orientations, and y and z copy them;
      nothing else changes. */
  function Update(c: Constraint.Constraint, bodies: seq<Body.Body>, ops: MathOps): (r: Constraint.Constraint)
    requires Shaped(c) && Constraint.Valid(c, bodies)
    ensures Shaped(r) && |r.equations| == |c.equations|
    ensures forall k :: 0 <= k < 3 ==>
      r.equations[k].kind.ri == Body.VectorToWorldFrame(bodies[c.bodyA], c.kind.pivotA, ops) &&
      r.equations[k].kind.rj == Body.VectorToWorldFrame(bodies[c.bodyB], c.kind.pivotB, ops) &&
      r.equations[k] == Arms(c.equations[k], r.equations[k].kind.ri, r.equations[k].kind.rj)
    ensures forall k :: 3 <= k < |c.equations| ==> r.equations[k] == c.equations[k]
    ensures r.(equations := c.equations) == c
  {
    var eqs := c.equations;
    var xri := ops.rotate(bodies[c.bodyA].quaternion, c.kind.pivotA);
    var xrj := ops.rotate(bodies[c.bodyB].quaternion, c.kind.pivotB);
    c.(equations := [Arms(eqs[0], xri, xrj), Arms(eqs[1], xri, xrj), Arms(eqs[2], xri, xrj)] + eqs[3..])
  }

  /** Updating twice with the same bodies is updating once, and the result
      depends on the equations' old contact points not at all. */
  lemma UpdateIdempotent(c: Constraint.Constraint, bodies: seq<Body.Body>, ops: MathOps)
    requires Shaped(c) && Constraint.Valid(c, bodies)
    ensures Update(Update(c, bodies, ops), bodies, ops) == Update(c, bodies, ops)
  {
    var once := Update(c, bodies, ops);
    var twice := Update(once, bodies, ops);
    assert twice.equations == once.equations;
  }
}
