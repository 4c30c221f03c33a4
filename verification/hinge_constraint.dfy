/** The hinge constraint: a point-to-point constraint that also keeps
    axis A of body A along axis B of body B, through two rotational
    equations, with an optional motor about the axes. Its equations are
    the three of the point-to-point constraint, the two rotational ones
    and the motor, in that order. */
module HingeConstraint {
  import opened Vectors
  import opened Wrappers
  import Body
  import Equation
  import RotationalEquation
  import RotationalMotorEquation
  import Constraint
  import PointToPointConstraint

  /** `hingeConstraintOptions`; `None` is a missing entry. */
  datatype Options = Options(
    maxForce: Option<real>,
    pivotA: Option<Vec3>,
    pivotB: Option<Vec3>,
    axisA: Option<Vec3>,
    axisB: Option<Vec3>,
    collideConnected: Option<bool>)

  const Rotational1: nat := 3
  const Rotational2: nat := 4
  const Motor: nat := 5

  /** What the hinge's own members work on. */
  predicate Shaped(c: Constraint.Constraint)
  {
    PointToPointConstraint.Shaped(c) && c.kind.Hinge? && |c.equations| == 6 &&
    c.equations[Rotational1].kind.Rotational? && c.equations[Rotational2].kind.Rotational? &&
    c.equations[Motor].kind.RotationalMotor?
  }

  /** `init`: the point-to-point constraint with the pivots (zero unless
      given) and bounds of maxForce (1e6 unless given); the axes (x unless
      given) normalised; `collideConnected` false unless given; then two
      rotational equations that read the same options, and the motor, with
      the same bound, created disabled. */
  function Init(id: int, firstId: int, bodyA: nat, bodyB: nat, options: Options, bodies: seq<Body.Body>, ops: MathOps): (r: Constraint.Built)
    requires bodyA < |bodies| && bodyB < |bodies|
    ensures Shaped(r.constraint) && Constraint.Valid(r.constraint, r.bodies)
    ensures r.constraint.id == id && r.constraint.bodyA == bodyA && r.constraint.bodyB == bodyB
    ensures forall k :: 0 <= k < 6 ==> r.constraint.equations[k].bi == bodyA && r.constraint.equations[k].bj == bodyB
    ensures var maxForce := Body.Or(options.maxForce, 1000000.0);
      forall k :: 0 <= k < 6 ==>
        r.constraint.equations[k].id == firstId + k &&
        r.constraint.equations[k].minForce == -maxForce && r.constraint.equations[k].maxForce == maxForce
    ensures r.constraint.kind ==
      Constraint.Hinge(Body.Or(options.pivotA, Zero), Body.Or(options.pivotB, Zero),
                       ops.normalize(Body.Or(options.axisA, UnitX)), ops.normalize(Body.Or(options.axisB, UnitX)))
    ensures r.constraint.collideConnected <==> options.collideConnected == Some(true)
    ensures !r.constraint.equations[Motor].enabled
    ensures forall k :: 0 <= k < Motor ==> r.constraint.equations[k].enabled
    ensures r.bodies == Constraint.Init(id, bodyA, bodyB, Constraint.NoOptions, bodies).bodies
  {
    var maxForce := Body.Or(options.maxForce, 1000000.0);
    var pivotA := Body.Or(options.pivotA, Zero);
    var pivotB := Body.Or(options.pivotB, Zero);
    var p := PointToPointConstraint.Init(id, firstId, bodyA, bodyB, pivotA, pivotB, maxForce, bodies);
    var axisA := ops.normalize(Body.Or(options.axisA, UnitX));
    var axisB := ops.normalize(Body.Or(options.axisB, UnitX));
    p.(constraint := p.constraint.(
      kind := Constraint.Hinge(pivotA, pivotB, axisA, axisB),
      collideConnected := Body.Or(options.collideConnected, false),
      equations := p.constraint.equations + Added(firstId, bodyA, bodyB, options)))
  }

  /** The equations the hinge adds to the point-to-point three: two
      rotational equations that read the hinge's options, and the motor
      with the same bound, created disabled. */
  function Added(firstId: int, bodyA: nat, bodyB: nat, options: Options): (r: seq<Equation.Equation>)
    ensures |r| == 3
    ensures r[0].kind.Rotational? && r[1].kind.Rotational? && r[2].kind.RotationalMotor?
    ensures var maxForce := Body.Or(options.maxForce, 1000000.0);
      forall k :: 0 <= k < 3 ==>
        r[k].id == firstId + 3 + k && r[k].minForce == -maxForce && r[k].maxForce == maxForce &&
        r[k].bi == bodyA && r[k].bj == bodyB
    ensures r[0].enabled && r[1].enabled && !r[2].enabled
  {
    var maxForce := Body.Or(options.maxForce, 1000000.0);
    var rotOptions := RotationalEquation.Options(options.maxForce, options.axisA, options.axisB);
    var r1 := RotationalEquation.Init(firstId + 3, bodyA, bodyB, rotOptions);
    var r2 := RotationalEquation.Init(firstId + 4, bodyA, bodyB, rotOptions);
    var motor := RotationalMotorEquation.Init(firstId + 5, bodyA, bodyB, maxForce).(enabled := false);
    [r1, r2, motor]
  }

  /** The hinge with its motor equation replaced. */
  function WithMotor(c: Constraint.Constraint, motor: Equation.Equation): (r: Constraint.Constraint)
    requires Shaped(c) && motor.kind.RotationalMotor?
    ensures Shaped(r)
  {
    c.(equations := c.equations[Motor := motor])
  }

  /** The parts of a hinge the motor calls leave alone: everything but
      the motor equation. */
  predicate SameButMotor(a: Constraint.Constraint, b: Constraint.Constraint)
    requires Shaped(a) && Shaped(b)
  {
    a.equations[..Motor] == b.equations[..Motor] &&
    a.(equations := b.equations) == b
  }

  /** `enableMotor`: the motor equation enabled, nothing else changed. */
  function EnableMotor(c: Constraint.Constraint): (r: Constraint.Constraint)
    requires Shaped(c)
    ensures Shaped(r) && SameButMotor(r, c)
    ensures r.equations[Motor].enabled
    ensures r.equations[Motor].(enabled := c.equations[Motor].enabled) == c.equations[Motor]
  {
    WithMotor(c, c.equations[Motor].(enabled := true))
  }

  /** `disableMotor`: the motor equation disabled, nothing else changed. */
  function DisableMotor(c: Constraint.Constraint): (r: Constraint.Constraint)
    requires Shaped(c)
    ensures Shaped(r) && SameButMotor(r, c)
    ensures !r.equations[Motor].enabled
    ensures r.equations[Motor].(enabled := c.equations[Motor].enabled) == c.equations[Motor]
  {
    WithMotor(c, c.equations[Motor].(enabled := false))
  }

  /** `setMotorSpeed`: the motor's target velocity, nothing else changed. */
  function SetMotorSpeed(c: Constraint.Constraint, speed: real): (r: Constraint.Constraint)
    requires Shaped(c)
    ensures Shaped(r) && SameButMotor(r, c)
    ensures r.equations[Motor].kind.targetVelocity == speed
    ensures r.equations[Motor].kind.axisA == c.equations[Motor].kind.axisA
    ensures r.equations[Motor].kind.axisB == c.equations[Motor].kind.axisB
    ensures r.equations[Motor].(kind := c.equations[Motor].kind) == c.equations[Motor]
  {
    var m := c.equations[Motor];
    WithMotor(c, m.(kind := Equation.RotationalMotor(m.kind.axisA, m.kind.axisB, speed)))
  }

  /** `setMotorMaxForce`: the motor's bounds become -maxForce and
      maxForce, nothing else changed. */
  function SetMotorMaxForce(c: Constraint.Constraint, maxForce: real): (r: Constraint.Constraint)
    requires Shaped(c)
    ensures Shaped(r) && SameButMotor(r, c)
    ensures r.equations[Motor].maxForce == maxForce && r.equations[Motor].minForce == -maxForce
    ensures r.equations[Motor].(minForce := c.equations[Motor].minForce, maxForce := c.equations[Motor].maxForce) == c.equations[Motor]
  {
    WithMotor(c, c.equations[Motor].(maxForce := maxForce, minForce := -maxForce))
  }

  /** Switching the motor on and then off again gives back a hinge whose
      motor was off, and the other way round. */
  lemma MotorToggleUndoes(c: Constraint.Constraint)
    requires Shaped(c)
    ensures !c.equations[Motor].enabled ==> DisableMotor(EnableMotor(c)) == c
    ensures c.equations[Motor].enabled ==> EnableMotor(DisableMotor(c)) == c
  {
    assert c.equations[Motor := c.equations[Motor]] == c.equations;
  }

  /** The last speed and the last force bound set are the ones that stay. */
  lemma MotorSettersLastWins(c: Constraint.Constraint, s1: real, s2: real, f1: real, f2: real)
    requires Shaped(c)
    ensures SetMotorSpeed(SetMotorSpeed(c, s1), s2) == SetMotorSpeed(c, s2)
    ensures SetMotorMaxForce(SetMotorMaxForce(c, f1), f2) == SetMotorMaxForce(c, f2)
  {
  }

  /** Setting the speed and setting the force bound do not interfere. */
  lemma MotorSettersCommute(c: Constraint.Constraint, speed: real, maxForce: real)
    requires Shaped(c)
    ensures SetMotorMaxForce(SetMotorSpeed(c, speed), maxForce) == SetMotorSpeed(SetMotorMaxForce(c, maxForce), speed)
  {
  }

  /** A rotational equation with new axes. */
  function Axes(eq: Equation.Equation, axisA: Vec3, axisB: Vec3): Equation.Equation
    requires eq.kind.Rotational?
  {
    eq.(kind := Equation.Rotational(axisA, axisB, eq.kind.maxAngle))
  }

  /** The motor with new axes. */
  function MotorAxes(eq: Equation.Equation, axisA: Vec3, axisB: Vec3): Equation.Equation
    requires eq.kind.RotationalMotor?
  {
    eq.(kind := Equation.RotationalMotor(axisA, axisB, eq.kind.targetVelocity))
  }

  /** The rotational equations and the motor after an update that found
      the world axes `worldA` and `worldB` and took the tangents of
      `tangentsOf`. */
  function UpdateAxes(c: Constraint.Constraint, p: Constraint.Constraint, bodies: seq<Body.Body>, ops: MathOps, tangentsOf: Vec3, worldB: Vec3): (r: Constraint.Constraint)
    requires Shaped(c) && Shaped(p) && Constraint.Valid(c, bodies)
    ensures Shaped(r)
  {
    var (t1, t2) := ops.tangents(tangentsOf);
    var motor := p.equations[Motor];
    var motor' := if motor.enabled then
      MotorAxes(motor, ops.rotate(bodies[c.bodyA].quaternion, c.kind.axisA), ops.rotate(bodies[c.bodyB].quaternion, c.kind.axisB))
    else motor;
    p.(equations := p.equations[Rotational1 := Axes(p.equations[Rotational1], t1, worldB)]
                                [Rotational2 := Axes(p.equations[Rotational2], t2, worldB)]
                                [Motor := motor'])
  }

  /** `update`: the point-to-point update; then both rotational equations
      take body B's axis in the world frame as their axis B, and the two
      tangents of body A's axis in the world frame as their axes A; the
      motor, only when enabled, takes the two world axes. Nothing else
      changes. */
  function Update(c: Constraint.Constraint, bodies: seq<Body.Body>, ops: MathOps): (r: Constraint.Constraint)
    requires Shaped(c) && Constraint.Valid(c, bodies)
    ensures Shaped(r)
    ensures r.equations[..3] == PointToPointConstraint.Update(c, bodies, ops).equations[..3]
    ensures var worldA := Body.VectorToWorldFrame(bodies[c.bodyA], c.kind.axisA, ops);
      var worldB := Body.VectorToWorldFrame(bodies[c.bodyB], c.kind.axisB, ops);
      r.equations[Rotational1].kind.axisB == worldB && r.equations[Rotational2].kind.axisB == worldB &&
      (r.equations[Rotational1].kind.axisA, r.equations[Rotational2].kind.axisA) == ops.tangents(worldA) &&
      (c.equations[Motor].enabled ==>
        r.equations[Motor].kind.axisA == worldA && r.equations[Motor].kind.axisB == worldB)
    ensures r.equations[Rotational1].kind.maxAngle == c.equations[Rotational1].kind.maxAngle
    ensures r.equations[Rotational2].kind.maxAngle == c.equations[Rotational2].kind.maxAngle
    ensures forall k :: Rotational1 <= k <= Motor ==> r.equations[k].(kind := c.equations[k].kind) == c.equations[k]
    ensures r.equations[Motor].kind.targetVelocity == c.equations[Motor].kind.targetVelocity
    ensures !c.equations[Motor].enabled ==> r.equations[Motor] == c.equations[Motor]
    ensures r.(equations := c.equations) == c
  {
    var p := PointToPointConstraint.Update(c, bodies, ops);
    var worldA := ops.rotate(bodies[c.bodyA].quaternion, c.kind.axisA);
    var worldB := ops.rotate(bodies[c.bodyB].quaternion, c.kind.axisB);
    UpdateAxes(c, p, bodies, ops, worldA, worldB)
  }

  /** `update` as written: both scratch getters look up the same
      well-known name, so "world axis A" and "world axis B" are one
      vector; body B's axis overwrites body A's before the tangents are
      taken. */
  function UpdateAsWritten(c: Constraint.Constraint, bodies: seq<Body.Body>, ops: MathOps): (r: Constraint.Constraint)
    requires Shaped(c) && Constraint.Valid(c, bodies)
    ensures Shaped(r)
    ensures var worldB := Body.VectorToWorldFrame(bodies[c.bodyB], c.kind.axisB, ops);
      (r.equations[Rotational1].kind.axisA, r.equations[Rotational2].kind.axisA) == ops.tangents(worldB)
  {
    var p := PointToPointConstraint.Update(c, bodies, ops);
    // Body A's world axis is written into the shared vector first and is
    // overwritten by body B's before anything reads it.
    var shared := ops.rotate(bodies[c.bodyB].quaternion, c.kind.axisB);
    UpdateAxes(c, p, bodies, ops, shared, shared)
  }

  /** The written update agrees with the intended one exactly when the two
      world axes have the same tangents. */
  lemma UpdateAsWrittenDiffers(c: Constraint.Constraint, bodies: seq<Body.Body>, ops: MathOps)
    requires Shaped(c) && Constraint.Valid(c, bodies)
    ensures var worldA := Body.VectorToWorldFrame(bodies[c.bodyA], c.kind.axisA, ops);
      var worldB := Body.VectorToWorldFrame(bodies[c.bodyB], c.kind.axisB, ops);
      UpdateAsWritten(c, bodies, ops) == Update(c, bodies, ops) <==> ops.tangents(worldA) == ops.tangents(worldB)
  {
    var worldA := Body.VectorToWorldFrame(bodies[c.bodyA], c.kind.axisA, ops);
    var worldB := Body.VectorToWorldFrame(bodies[c.bodyB], c.kind.axisB, ops);
    var written, intended := UpdateAsWritten(c, bodies, ops), Update(c, bodies, ops);
    if written == intended {
      assert written.equations[Rotational1].kind.axisA == intended.equations[Rotational1].kind.axisA;
      assert written.equations[Rotational2].kind.axisA == intended.equations[Rotational2].kind.axisA;
    }
  }

  /** Rotations left out, and tangents t1 = n x z, t2 = n x t1: on a hinge
      about x on body A and y on body B, the written update gives the
      first rotational equation the axis (1, 0, 0) where (0, -1, 0) is
      meant. */
  lemma UpdateAsWrittenCounterexample(c: Constraint.Constraint, bodies: seq<Body.Body>, ops: MathOps)
    requires Shaped(c) && Constraint.Valid(c, bodies)
    requires forall q, v :: ops.rotate(q, v) == v
    requires forall n :: ops.tangents(n) == (Cross(n, UnitZ), Cross(n, Cross(n, UnitZ)))
    requires c.kind.axisA == UnitX && c.kind.axisB == UnitY
    ensures UpdateAsWritten(c, bodies, ops).equations[Rotational1].kind.axisA == Vec3(1.0, 0.0, 0.0)
    ensures Update(c, bodies, ops).equations[Rotational1].kind.axisA == Vec3(0.0, -1.0, 0.0)
  {
    var worldA := Body.VectorToWorldFrame(bodies[c.bodyA], c.kind.axisA, ops);
    var worldB := Body.VectorToWorldFrame(bodies[c.bodyB], c.kind.axisB, ops);
    assert worldA == UnitX && worldB == UnitY;
    assert ops.tangents(worldB).0 == Cross(UnitY, UnitZ) == Vec3(1.0, 0.0, 0.0);
    assert ops.tangents(worldA).0 == Cross(UnitX, UnitZ) == Vec3(0.0, -1.0, 0.0);
  }
}
