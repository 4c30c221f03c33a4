/** The lock constraint: a point-to-point constraint at the midpoint of the
    two bodies plus three rotational equations that keep the bodies'
    relative orientation. Its equations are the three of the point-to-point
    constraint and the three rotational ones, in that order. */
module LockConstraint {
  import opened Vectors
  import opened Wrappers
  import Body
  import Equation
  import RotationalEquation
  import Constraint
  import PointToPointConstraint

  /** What the lock's own members work on. */
  predicate Shaped(c: Constraint.Constraint)
  {
    PointToPointConstraint.Shaped(c) && c.kind.Lock? && |c.equations| == 6 &&
    c.equations[3].kind.Rotational? && c.equations[4].kind.Rotational? && c.equations[5].kind.Rotational?
  }

  /** The midpoint of the two bodies' centres. */
  function HalfWay(a: Body.Body, b: Body.Body): Vec3
  {
    Scale(0.5, Add(a.position, b.position))
  }

  /** `init` (`lockConstraintOptions` are the rotational equations'
      options): both pivots are the midpoint of the two centres in each
      body's frame, the bound is maxForce (1e6 unless given), the world
      axes x, y and z are kept in each body's frame, and three rotational
      equations follow the point-to-point three. */
  function Init(id: int, firstId: int, bodyA: nat, bodyB: nat, options: RotationalEquation.Options,
                bodies: seq<Body.Body>, ops: MathOps): (r: Constraint.Built)
    requires bodyA < |bodies| && bodyB < |bodies|
    ensures Shaped(r.constraint) && Constraint.Valid(r.constraint, r.bodies)
    ensures r.constraint.id == id && r.constraint.bodyA == bodyA && r.constraint.bodyB == bodyB
    ensures var maxForce := Body.Or(options.maxForce, 1000000.0);
      forall k :: 0 <= k < 6 ==>
        r.constraint.equations[k].id == firstId + k && r.constraint.equations[k].enabled &&
        r.constraint.equations[k].minForce == -maxForce && r.constraint.equations[k].maxForce == maxForce
    ensures var a, b, mid := bodies[bodyA], bodies[bodyB], HalfWay(bodies[bodyA], bodies[bodyB]);
      r.constraint.kind == Constraint.Lock(
        Body.PointToLocalFrame(a, mid, ops), Body.PointToLocalFrame(b, mid, ops),
        Body.VectorToLocalFrame(a, UnitX, ops), Body.VectorToLocalFrame(b, UnitX, ops),
        Body.VectorToLocalFrame(a, UnitY, ops), Body.VectorToLocalFrame(b, UnitY, ops),
        Body.VectorToLocalFrame(a, UnitZ, ops), Body.VectorToLocalFrame(b, UnitZ, ops))
    ensures r.constraint.collideConnected
    ensures r.bodies == Constraint.Init(id, bodyA, bodyB, Constraint.NoOptions, bodies).bodies
  {
    var maxForce := Body.Or(options.maxForce, 1000000.0);
    var a, b := bodies[bodyA], bodies[bodyB];
    var halfWay := HalfWay(a, b);
    var pivotB := Body.PointToLocalFrame(b, halfWay, ops);
    var pivotA := Body.PointToLocalFrame(a, halfWay, ops);
    var p := PointToPointConstraint.Init(id, firstId, bodyA, bodyB, pivotA, pivotB, maxForce, bodies);
    var kind := Constraint.Lock(pivotA, pivotB,
      Body.VectorToLocalFrame(a, UnitX, ops), Body.VectorToLocalFrame(b, UnitX, ops),
      Body.VectorToLocalFrame(a, UnitY, ops), Body.VectorToLocalFrame(b, UnitY, ops),
      Body.VectorToLocalFrame(a, UnitZ, ops), Body.VectorToLocalFrame(b, UnitZ, ops));
    var rotations := Rotations(firstId, bodyA, bodyB, options);
    var eqs := p.constraint.equations + rotations;
    assert forall k :: 3 <= k < 6 ==> eqs[k] == rotations[k - 3];
    p.(constraint := p.constraint.(kind := kind, equations := eqs))
  }

  /** The three rotational equations, with the ids after the
      point-to-point three. */
  function Rotations(firstId: int, bodyA: nat, bodyB: nat, options: RotationalEquation.Options): (r: seq<Equation.Equation>)
    ensures |r| == 3
    ensures var maxForce := Body.Or(options.maxForce, 1000000.0);
      forall k :: 0 <= k < 3 ==>
        r[k].kind.Rotational? && r[k].id == firstId + 3 + k && r[k].enabled &&
        r[k].minForce == -maxForce && r[k].maxForce == maxForce && r[k].bi == bodyA && r[k].bj == bodyB
  {
    [RotationalEquation.Init(firstId + 3, bodyA, bodyB, options),
     RotationalEquation.Init(firstId + 4, bodyA, bodyB, options),
     RotationalEquation.Init(firstId + 5, bodyA, bodyB, options)]
  }

  /** Where each body's orientation undoes its conjugate, both pivots are,
      in the world, the midpoint the constraint was built at. */
  lemma PivotsMeet(id: int, firstId: int, bodyA: nat, bodyB: nat, options: RotationalEquation.Options,
                   bodies: seq<Body.Body>, ops: MathOps)
    requires bodyA < |bodies| && bodyB < |bodies|
    requires Body.UndoesConjugate(ops, bodies[bodyA].quaternion) && Body.UndoesConjugate(ops, bodies[bodyB].quaternion)
    ensures var c := Init(id, firstId, bodyA, bodyB, options, bodies, ops).constraint;
      var mid := HalfWay(bodies[bodyA], bodies[bodyB]);
      Body.PointToWorldFrame(bodies[bodyA], c.kind.pivotA, ops) == mid &&
      Body.PointToWorldFrame(bodies[bodyB], c.kind.pivotB, ops) == mid
  {
    var mid := HalfWay(bodies[bodyA], bodies[bodyB]);
    Body.LocalFrameRoundTrip(bodies[bodyA], mid, ops);
    Body.LocalFrameRoundTrip(bodies[bodyB], mid, ops);
  }

  /** A rotational equation with new axes. */
  function Axes(eq: Equation.Equation, axisA: Vec3, axisB: Vec3): Equation.Equation
    requires eq.kind.Rotational?
  {
    eq.(kind := Equation.Rotational(axisA, axisB, eq.kind.maxAngle))
  }

  /** `update`: the point-to-point update, then the three rotational
      equations take, in the world frame, body A's kept x, y and z axes as
      their axes A, paired with body B's kept y, z and x axes as their axes
      B. Nothing else changes. */
  function Update(c: Constraint.Constraint, bodies: seq<Body.Body>, ops: MathOps): (r: Constraint.Constraint)
    requires Shaped(c) && Constraint.Valid(c, bodies)
    ensures Shaped(r)
    ensures r.equations[..3] == PointToPointConstraint.Update(c, bodies, ops).equations[..3]
    ensures var a, b := bodies[c.bodyA], bodies[c.bodyB];
      r.equations[3].kind.axisA == Body.VectorToWorldFrame(a, c.kind.xA, ops) &&
      r.equations[3].kind.axisB == Body.VectorToWorldFrame(b, c.kind.yB, ops) &&
      r.equations[4].kind.axisA == Body.VectorToWorldFrame(a, c.kind.yA, ops) &&
      r.equations[4].kind.axisB == Body.VectorToWorldFrame(b, c.kind.zB, ops) &&
      r.equations[5].kind.axisA == Body.VectorToWorldFrame(a, c.kind.zA, ops) &&
      r.equations[5].kind.axisB == Body.VectorToWorldFrame(b, c.kind.xB, ops)
    ensures forall k :: 3 <= k < 6 ==>
      r.equations[k].kind.maxAngle == c.equations[k].kind.maxAngle &&
      r.equations[k].(kind := c.equations[k].kind) == c.equations[k]
    ensures r.(equations := c.equations) == c
  {
    var p := PointToPointConstraint.Update(c, bodies, ops);
    var a, b := bodies[c.bodyA], bodies[c.bodyB];
    var eqs := p.equations;
    p.(equations := eqs[..3] + [
      Axes(eqs[3], Body.VectorToWorldFrame(a, c.kind.xA, ops), Body.VectorToWorldFrame(b, c.kind.yB, ops)),
      Axes(eqs[4], Body.VectorToWorldFrame(a, c.kind.yA, ops), Body.VectorToWorldFrame(b, c.kind.zB, ops)),
      Axes(eqs[5], Body.VectorToWorldFrame(a, c.kind.zA, ops), Body.VectorToWorldFrame(b, c.kind.xB, ops))])
  }

  /** Updated with the bodies as they were when it was built (and
      orientations that undo their conjugates), a lock pairs the world
      axes (x, y), (y, z) and (z, x): each pair is at a right angle. */
  lemma AxesStartOrthogonal(id: int, firstId: int, bodyA: nat, bodyB: nat, options: RotationalEquation.Options,
                            bodies: seq<Body.Body>, ops: MathOps)
    requires bodyA < |bodies| && bodyB < |bodies|
    requires Body.UndoesConjugate(ops, bodies[bodyA].quaternion) && Body.UndoesConjugate(ops, bodies[bodyB].quaternion)
    ensures var c := Init(id, firstId, bodyA, bodyB, options, bodies, ops).constraint;
      var r := Update(c, bodies, ops);
      r.equations[3].kind.axisA == UnitX && r.equations[3].kind.axisB == UnitY &&
      r.equations[4].kind.axisA == UnitY && r.equations[4].kind.axisB == UnitZ &&
      r.equations[5].kind.axisA == UnitZ && r.equations[5].kind.axisB == UnitX &&
      forall k :: 3 <= k < 6 ==> Dot(r.equations[k].kind.axisA, r.equations[k].kind.axisB) == 0.0
  {
    var c := Init(id, firstId, bodyA, bodyB, options, bodies, ops).constraint;
    Body.LocalFrameRoundTrip(bodies[bodyA], UnitX, ops);
    Body.LocalFrameRoundTrip(bodies[bodyA], UnitY, ops);
    Body.LocalFrameRoundTrip(bodies[bodyA], UnitZ, ops);
    Body.LocalFrameRoundTrip(bodies[bodyB], UnitX, ops);
    Body.LocalFrameRoundTrip(bodies[bodyB], UnitY, ops);
    Body.LocalFrameRoundTrip(bodies[bodyB], UnitZ, ops);
  }
}
