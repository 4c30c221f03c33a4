/** The friction equation: a velocity-only constraint along the tangent
    `t` at the contact points `ri` and `rj`, bounded by the slip force. */
module FrictionEquation {
  import opened Vectors
  import opened Wrappers
  import Body
  import Equation

  /** `init`: the force lies in [-slipForce, slipForce]. */
  function Init(id: int, bodyA: nat, bodyB: nat, slipForce: real): (eq: Equation.Equation)
    ensures eq.minForce == -slipForce && eq.maxForce == slipForce
    ensures eq.kind == Equation.Friction(Zero, Zero, Zero)
    ensures eq.bi == bodyA && eq.bj == bodyB && eq.enabled
  {
    Equation.Init(id, Some(-slipForce), Some(slipForce), bodyA, bodyB, Equation.Friction(Zero, Zero, Zero))
  }

  /** The Jacobian `computeB` writes: G = [-t, -(ri x t), t, rj x t]. */
  function Jacobians(eq: Equation.Equation): (r: Equation.Equation)
    requires eq.kind.Friction?
    ensures r.ga.spatial == Neg(eq.kind.t) && r.gb.spatial == eq.kind.t
    ensures r.ga.rotational == Neg(Cross(eq.kind.ri, eq.kind.t)) && r.gb.rotational == Cross(eq.kind.rj, eq.kind.t)
    ensures r.(ga := eq.ga, gb := eq.gb) == eq
  {
    var t := eq.kind.t;
    eq.(ga := Equation.Jacobian(Neg(t), Neg(Cross(eq.kind.ri, t))), gb := Equation.Jacobian(t, Cross(eq.kind.rj, t)))
  }

  /** `computeB(h)`: writes the Jacobian and returns -GW b - h GiMf. */
  function ComputeB(eq: Equation.Equation, bodies: seq<Body.Body>, h: real): (r: (Equation.Equation, real))
    requires eq.kind.Friction? && Equation.Valid(eq, bodies)
    ensures r.0 == Jacobians(eq)
    ensures r.1 == Rhs(r.0, bodies, h)
  {
    var updated := Jacobians(eq);
    (updated, Rhs(updated, bodies, h))
  }

  /** The right-hand side on the written Jacobian. */
  function Rhs(updated: Equation.Equation, bodies: seq<Body.Body>, h: real): real
    requires Equation.Valid(updated, bodies)
  {
    -Equation.GW(updated, bodies) * updated.b - h * Equation.GiMf(updated, bodies)
  }

  /** Friction is a pure velocity constraint: its right-hand side is the
      base one with the position weight a set to 0, whatever the bodies'
      positions. */
  lemma ComputeBHasNoPositionTerm(eq: Equation.Equation, bodies: seq<Body.Body>, h: real)
    requires eq.kind.Friction? && Equation.Valid(eq, bodies)
    ensures var r := ComputeB(eq, bodies, h);
      r.1 == Equation.ComputeB(r.0, bodies, 0.0, eq.b, h)
  {
    var r := ComputeB(eq, bodies, h);
    var gw, gimf := Equation.GW(r.0, bodies), Equation.GiMf(r.0, bodies);
    NoPositionWeight(Equation.Gq(r.0, bodies), gw, gimf, eq.b, h);
  }

  lemma NoPositionWeight(gq: real, gw: real, gimf: real, b: real, h: real)
    ensures -gq * 0.0 - gw * b - gimf * h == -gw * b - h * gimf
  {
  }

  /** The Jacobian is overwritten whole, so what it held before does not
      matter. */
  lemma ComputeBForgetsJacobian(eq: Equation.Equation, bodies: seq<Body.Body>, h: real, ga: Equation.Jacobian, gb: Equation.Jacobian)
    requires eq.kind.Friction? && Equation.Valid(eq, bodies)
    ensures ComputeB(eq.(ga := ga, gb := gb), bodies, h) == ComputeB(eq, bodies, h)
  {
    assert Jacobians(eq.(ga := ga, gb := gb)) == Jacobians(eq);
  }
}
