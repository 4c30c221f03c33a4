/** The cone-twist constraint: a point-to-point constraint plus a cone
    equation that keeps body B's axis within an angle of body A's, and a
    twist equation that limits the twist about it. Both push one way only,
    towards the allowed region. Its equations are the three of the
    point-to-point constraint, the cone and the twist, in that order. */
module ConeTwistConstraint {
  import opened Vectors
  import opened Wrappers
  import Body
  import Equation
  import ConeEquation
  import RotationalEquation
  import Constraint
  import PointToPointConstraint

  /** `coneTwistConstraintOptions`; `None` is a missing entry. Its
      `maxForce` only reaches the cone and twist equations' own options. */
  datatype Options = Options(
    maxForce: Option<real>,
    pivotA: Option<Vec3>,
    pivotB: Option<Vec3>,
    axisA: Option<Vec3>,
    axisB: Option<Vec3>,
    collideConnected: Option<bool>,
    angle: Option<real>,
    twistAngle: Option<real>)

  const Cone: nat := 3
  const Twist: nat := 4

  /** What the cone-twist's own members work on. */
  predicate Shaped(c: Constraint.Constraint)
  {
    PointToPointConstraint.Shaped(c) && c.kind.ConeTwist? && |c.equations| == 5 &&
    c.equations[Cone].kind.Cone? && c.equations[Twist].kind.Rotational?
  }

  /** The cone and the twist equation, each bounded to [-maxForce, 0]. */
  function Limits(firstId: int, bodyA: nat, bodyB: nat, maxForce: real, options: Options): (r: seq<Equation.Equation>)
    ensures |r| == 2 && r[0].kind.Cone? && r[1].kind.Rotational?
    ensures forall k :: 0 <= k < 2 ==>
      r[k].id == firstId + 3 + k && r[k].bi == bodyA && r[k].bj == bodyB && r[k].enabled &&
      r[k].minForce == -maxForce && r[k].maxForce == 0.0
  {
    var c := ConeEquation.Init(firstId + 3, bodyA, bodyB,
      ConeEquation.Options(options.maxForce, options.axisA, options.axisB, options.angle));
    var t := RotationalEquation.Init(firstId + 4, bodyA, bodyB,
      RotationalEquation.Options(options.maxForce, options.axisA, options.axisB));
    [c.(maxForce := 0.0, minForce := -maxForce), t.(maxForce := 0.0, minForce := -maxForce)]
  }

  /** `init`: the point-to-point constraint with the pivots (zero unless
      given) and the bound `maxForce` (1e6 unless given); the axes (zero
      unless given); `collideConnected` false unless given; the cone angle
      and the twist angle 0 unless given; then the cone and the twist
      equations, which push towards the allowed region only: their bounds
      are -maxForce and 0. */
  function Init(id: int, firstId: int, bodyA: nat, bodyB: nat, maxForce: Option<real>, options: Options,
                bodies: seq<Body.Body>): (r: Constraint.Built)
    requires bodyA < |bodies| && bodyB < |bodies|
    ensures Shaped(r.constraint) && Constraint.Valid(r.constraint, r.bodies)
    ensures r.constraint.id == id && r.constraint.bodyA == bodyA && r.constraint.bodyB == bodyB
    ensures var bound := Body.Or(maxForce, 1000000.0);
      (forall k :: 0 <= k < 5 ==> r.constraint.equations[k].id == firstId + k && r.constraint.equations[k].enabled) &&
      (forall k :: 0 <= k < 3 ==> r.constraint.equations[k].minForce == -bound && r.constraint.equations[k].maxForce == bound) &&
      (forall k :: 3 <= k < 5 ==> r.constraint.equations[k].minForce == -bound && r.constraint.equations[k].maxForce == 0.0)
    ensures r.constraint.kind == Constraint.ConeTwist(
      Body.Or(options.pivotA, Zero), Body.Or(options.pivotB, Zero),
      Body.Or(options.axisA, Zero), Body.Or(options.axisB, Zero),
      Body.Or(options.angle, 0.0), Body.Or(options.twistAngle, 0.0))
    ensures r.constraint.collideConnected <==> options.collideConnected == Some(true)
    ensures r.bodies == Constraint.Init(id, bodyA, bodyB, Constraint.NoOptions, bodies).bodies
  {
    var bound := Body.Or(maxForce, 1000000.0);
    var pivotA := Body.Or(options.pivotA, Zero);
    var pivotB := Body.Or(options.pivotB, Zero);
    var p := PointToPointConstraint.Init(id, firstId, bodyA, bodyB, pivotA, pivotB, bound, bodies);
    var limits := Limits(firstId, bodyA, bodyB, bound, options);
    var eqs := p.constraint.equations + limits;
    assert forall k :: 3 <= k < 5 ==> eqs[k] == limits[k - 3];
    p.(constraint := p.constraint.(
      kind := Constraint.ConeTwist(pivotA, pivotB, Body.Or(options.axisA, Zero), Body.Or(options.axisB, Zero),
                                   Body.Or(options.angle, 0.0), Body.Or(options.twistAngle, 0.0)),
      collideConnected := Body.Or(options.collideConnected, false),
      equations := eqs))
  }

  /** `update`: the point-to-point update; then the cone takes the two
      axes in the world frame and the constraint's angle; the twist takes,
      for each body, the second tangent of its axis (the source passes one
      vector for both tangents, so the second overwrites the first) in the
      world frame, and the twist angle as its largest angle. Nothing else
      changes. */
  function Update(c: Constraint.Constraint, bodies: seq<Body.Body>, ops: MathOps): (r: Constraint.Constraint)
    requires Shaped(c) && Constraint.Valid(c, bodies)
    ensures Shaped(r)
    ensures r.equations[..3] == PointToPointConstraint.Update(c, bodies, ops).equations[..3]
    ensures var a, b := bodies[c.bodyA], bodies[c.bodyB];
      r.equations[Cone].kind == Equation.Cone(
        Body.VectorToWorldFrame(a, c.kind.axisA, ops), Body.VectorToWorldFrame(b, c.kind.axisB, ops), c.kind.angle) &&
      r.equations[Twist].kind == Equation.Rotational(
        Body.VectorToWorldFrame(a, ops.tangents(c.kind.axisA).1, ops),
        Body.VectorToWorldFrame(b, ops.tangents(c.kind.axisB).1, ops), c.kind.twistAngle)
    ensures forall k :: Cone <= k <= Twist ==> r.equations[k].(kind := c.equations[k].kind) == c.equations[k]
    ensures r.(equations := c.equations) == c
  {
    var p := PointToPointConstraint.Update(c, bodies, ops);
    var a, b := bodies[c.bodyA], bodies[c.bodyB];
    var cone := p.equations[Cone].(kind := Equation.Cone(
      Body.VectorToWorldFrame(a, c.kind.axisA, ops), Body.VectorToWorldFrame(b, c.kind.axisB, ops), c.kind.angle));
    var twistA := Body.VectorToWorldFrame(a, ops.tangents(c.kind.axisA).1, ops);
    var twistB := Body.VectorToWorldFrame(b, ops.tangents(c.kind.axisB).1, ops);
    var twist := p.equations[Twist].(kind := Equation.Rotational(twistA, twistB, c.kind.twistAngle));
    p.(equations := p.equations[..3] + [cone, twist])
  }

  /** Updating twice with the same bodies is updating once: the angles
      the update copies are the constraint's own. */
  lemma UpdateIdempotent(c: Constraint.Constraint, bodies: seq<Body.Body>, ops: MathOps)
    requires Shaped(c) && Constraint.Valid(c, bodies)
    ensures Update(Update(c, bodies, ops), bodies, ops) == Update(c, bodies, ops)
  {
    var once := Update(c, bodies, ops);
    var twice := Update(once, bodies, ops);
    PointToPointConstraint.UpdateIdempotent(c, bodies, ops);
    assert twice.equations[..3] == once.equations[..3];
    assert twice.equations == once.equations;
  }
}
