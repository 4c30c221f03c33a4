/** The rotational motor equation: drives the relative angular velocity of
    the two bodies about their axes towards `targetVelocity`. */
module RotationalMotorEquation {
  import opened Vectors
  import opened Wrappers
  import Body
  import Equation

  /** `init`: bounds -maxForce and maxForce, zero axes, target velocity 0. */
  function Init(id: int, bodyA: nat, bodyB: nat, maxForce: real): (eq: Equation.Equation)
    ensures eq.minForce == -maxForce && eq.maxForce == maxForce
    ensures eq.kind == Equation.RotationalMotor(Zero, Zero, 0.0)
    ensures eq.bi == bodyA && eq.bj == bodyB && eq.enabled
  {
    Equation.Init(id, Some(-maxForce), Some(maxForce), bodyA, bodyB, Equation.RotationalMotor(Zero, Zero, 0.0))
  }

  /** The Jacobian `computeB` writes: rotational parts axisA and -axisB;
      the spatial parts are left as they were. */
  function Jacobians(eq: Equation.Equation): (r: Equation.Equation)
    requires eq.kind.RotationalMotor?
    ensures r.ga.rotational == eq.kind.axisA && r.gb.rotational == Neg(eq.kind.axisB)
    ensures r.ga.spatial == eq.ga.spatial && r.gb.spatial == eq.gb.spatial
    ensures r.(ga := eq.ga, gb := eq.gb) == eq
  {
    eq.(ga := eq.ga.(rotational := eq.kind.axisA), gb := eq.gb.(rotational := Neg(eq.kind.axisB)))
  }

  /** `computeB(h)`: writes the Jacobian and returns
      -(GW - targetVelocity) b - h GiMf. */
  function ComputeB(eq: Equation.Equation, bodies: seq<Body.Body>, h: real): (r: (Equation.Equation, real))
    requires eq.kind.RotationalMotor? && Equation.Valid(eq, bodies)
    ensures r.0 == Jacobians(eq)
    ensures r.1 == Rhs(r.0, bodies, h)
  {
    var updated := Jacobians(eq);
    (updated, Rhs(updated, bodies, h))
  }

  /** The right-hand side on the written Jacobian. */
  function Rhs(updated: Equation.Equation, bodies: seq<Body.Body>, h: real): real
    requires updated.kind.RotationalMotor? && Equation.Valid(updated, bodies)
  {
    -(Equation.GW(updated, bodies) - updated.kind.targetVelocity) * updated.b - h * Equation.GiMf(updated, bodies)
  }

  /** A motor has no position term; with the spatial parts zero its
      right-hand side is the base one with a = 0, shifted by the target
      velocity times b. */
  lemma ComputeBIsBaseShiftedByTarget(eq: Equation.Equation, bodies: seq<Body.Body>, h: real)
    requires eq.kind.RotationalMotor? && Equation.Valid(eq, bodies)
    ensures var r := ComputeB(eq, bodies, h);
      r.1 == Equation.ComputeB(r.0, bodies, 0.0, eq.b, h) + eq.kind.targetVelocity * eq.b
  {
    var r := ComputeB(eq, bodies, h);
    Shift(Equation.Gq(r.0, bodies), Equation.GW(r.0, bodies), Equation.GiMf(r.0, bodies), eq.kind.targetVelocity, eq.b, h);
  }

  lemma Shift(gq: real, gw: real, gimf: real, target: real, b: real, h: real)
    ensures -(gw - target) * b - h * gimf == (-gq * 0.0 - gw * b - gimf * h) + target * b
  {
  }
}
