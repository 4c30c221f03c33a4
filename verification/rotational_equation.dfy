/** The rotational equation: keeps the angle between body i's axis
    `axisA` and body j's axis `axisB`, both in world coordinates, at
    `maxAngle`, through torques alone. */
module RotationalEquation {
  import opened Vectors
  import opened Wrappers
  import Body
  import Equation

  /** JavaScript's Math.PI. */
  const Pi: real := 3.141592653589793

  /** `rotationalEquationOptions`; `None` is a missing entry. */
  datatype Options = Options(maxForce: Option<real>, axisA: Option<Vec3>, axisB: Option<Vec3>)

  /** `init`: bounds -maxForce and maxForce (1e6 unless given), axes
      (1,0,0) and (0,1,0) unless given, and a right angle. */
  function Init(id: int, bodyA: nat, bodyB: nat, options: Options): (eq: Equation.Equation)
    ensures var maxForce := if options.maxForce.Some? then options.maxForce.value else 1000000.0;
      eq.minForce == -maxForce && eq.maxForce == maxForce
    ensures eq.kind.Rotational?
    ensures eq.kind.axisA == (if options.axisA.Some? then options.axisA.value else UnitX)
    ensures eq.kind.axisB == (if options.axisB.Some? then options.axisB.value else UnitY)
    ensures eq.kind.maxAngle == Pi / 2.0
    ensures eq.bi == bodyA && eq.bj == bodyB && eq.enabled
  {
    var maxForce := Body.Or(options.maxForce, 1000000.0);
    Equation.Init(id, Some(-maxForce), Some(maxForce), bodyA, bodyB,
                  Equation.Rotational(Body.Or(options.axisA, UnitX), Body.Or(options.axisB, UnitY), Pi / 2.0))
  }

  /** `computeB` as written: the two scratch vectors it crosses into are
      read from instance fields that nothing sets, so the copy of the
      undefined `nj x ni` into the Jacobian throws. */
  function ComputeBAsWritten(eq: Equation.Equation, bodies: seq<Body.Body>, h: real): (r: Result<(Equation.Equation, real)>)
    requires eq.kind.Rotational? && Equation.Valid(eq, bodies)
    ensures r.Err? && r.error.TypeError?
  {
    Err(TypeError("Cannot read properties of undefined (reading 'x')"))
  }

  /** The Jacobian `computeB` writes: the rotational parts nj x ni and
      ni x nj; the spatial parts are left as they were. */
  function Jacobians(eq: Equation.Equation): (r: Equation.Equation)
    requires eq.kind.Rotational?
    ensures r.ga.rotational == Cross(eq.kind.axisB, eq.kind.axisA) && r.gb.rotational == Cross(eq.kind.axisA, eq.kind.axisB)
    ensures r.(ga := eq.ga, gb := eq.gb) == eq
    ensures r.bi == eq.bi && r.bj == eq.bj && r.kind == eq.kind && r.a == eq.a && r.b == eq.b
    ensures r.ga.spatial == eq.ga.spatial && r.gb.spatial == eq.gb.spatial
  {
    var ni, nj := eq.kind.axisA, eq.kind.axisB;
    eq.(ga := eq.ga.(rotational := Cross(nj, ni)), gb := eq.gb.(rotational := Cross(ni, nj)))
  }

  /** The angle error: cos(maxAngle) - ni . nj, zero when the axes meet at
      maxAngle (for unit axes). */
  function AngleError(eq: Equation.Equation, ops: MathOps): real
    requires eq.kind.Rotational?
  {
    ops.cos(eq.kind.maxAngle) - Dot(eq.kind.axisA, eq.kind.axisB)
  }

  /** `computeB(h)` with its scratch vectors in place: writes the Jacobian
      and returns -g a - GW b - h GiMf with g the angle error. */
  function ComputeB(eq: Equation.Equation, bodies: seq<Body.Body>, h: real, ops: MathOps): (r: (Equation.Equation, real))
    requires eq.kind.Rotational? && Equation.Valid(eq, bodies)
    ensures r.0 == Jacobians(eq)
    ensures r.1 == Rhs(r.0, bodies, h, ops)
  {
    var updated := Jacobians(eq);
    (updated, Rhs(updated, bodies, h, ops))
  }

  /** The right-hand side on the written Jacobian: with the spatial parts
      zero, it is the base one with the angle error in place of G q. */
  function Rhs(updated: Equation.Equation, bodies: seq<Body.Body>, h: real, ops: MathOps): (r: real)
    requires updated.kind.Rotational? && Equation.Valid(updated, bodies)
    ensures updated.ga.spatial == Zero && updated.gb.spatial == Zero ==>
      r == Equation.ComputeB(updated, bodies, updated.a, updated.b, h) - AngleError(updated, ops) * updated.a
  {
    var r := -AngleError(updated, ops) * updated.a - Equation.GW(updated, bodies) * updated.b - h * Equation.GiMf(updated, bodies);
    if updated.ga.spatial == Zero && updated.gb.spatial == Zero then
      Equation.RhsIsBase(updated, bodies, AngleError(updated, ops), updated.a, updated.b, h, r);
      r
    else r
  }

  /** The torques on the two bodies are equal and opposite. */
  lemma TorquesOppose(eq: Equation.Equation)
    requires eq.kind.Rotational?
    ensures Jacobians(eq).ga.rotational == Neg(Jacobians(eq).gb.rotational)
  {
  }
}

