/** The base constraint equation: force bounds, the SPOOK parameters, the
    two Jacobian elements, and the products of the Jacobian with the body
    state that every kind of equation shares.

    An equation names its two bodies by their positions in the world's body
    list, which is passed alongside. The fields of a subclass live in the
    equation's `kind`. */
module Equation {
  import opened Vectors
  import opened Wrappers
  import Body

  /** One side of the Jacobian: the part acting on the linear velocity and
      the part acting on the angular velocity. */
  datatype Jacobian = Jacobian(spatial: Vec3, rotational: Vec3)

  const ZeroJacobian: Jacobian := Jacobian(Zero, Zero)

  /** The subclass an equation belongs to, with the fields it adds. */
  datatype Kind =
    | Contact(restitution: real, ri: Vec3, rj: Vec3, ni: Vec3)
    | Friction(ri: Vec3, rj: Vec3, t: Vec3)
    | Rotational(axisA: Vec3, axisB: Vec3, maxAngle: real)
    | RotationalMotor(axisA: Vec3, axisB: Vec3, targetVelocity: real)
    | Cone(axisA: Vec3, axisB: Vec3, angle: real)

  datatype Equation = Equation(
    id: int,
    minForce: real,
    maxForce: real,
    bi: nat,
    bj: nat,
    a: real,
    b: real,
    eps: real,
    ga: Jacobian,
    gb: Jacobian,
    enabled: bool,
    multiplier: real,
    kind: Kind)

  /** `multiplyVectors`: the element applied to a linear and an angular
      vector. */
  function Apply(g: Jacobian, spatial: Vec3, rotational: Vec3): real
  {
    Dot(spatial, g.spatial) + Dot(rotational, g.rotational)
  }

  /** Both bodies are in the list. */
  predicate Valid(eq: Equation, bodies: seq<Body.Body>)
  {
    eq.bi < |bodies| && eq.bj < |bodies|
  }

  /** `setSpookParams(k, d, h)`: a = 4/(h(1+4d)), b = 4d/(1+4d) and
      eps = 4/(h^2 k (1+4d)). The source divides without a check; a zero
      divisor gives an infinite or NaN parameter, which is not modelled. */
  function SetSpookParams(eq: Equation, stiffness: real, relaxation: real, timeStep: real): (r: Equation)
    requires timeStep != 0.0 && stiffness != 0.0 && 1.0 + 4.0 * relaxation != 0.0
    ensures r.a * (timeStep * (1.0 + 4.0 * relaxation)) == 4.0
    ensures r.b * (1.0 + 4.0 * relaxation) == 4.0 * relaxation
    ensures r.eps * (timeStep * timeStep * stiffness * (1.0 + 4.0 * relaxation)) == 4.0
    ensures r.(a := eq.a, b := eq.b, eps := eq.eps) == eq
  {
    var d, k, h := relaxation, stiffness, timeStep;
    eq.(a := 4.0 / (h * (1.0 + 4.0 * d)), b := (4.0 * d) / (1.0 + 4.0 * d), eps := 4.0 / (h * h * k * (1.0 + 4.0 * d)))
  }

  /** For a positive time step and stiffness and a non-negative relaxation,
      a and eps are positive and b lies in [0, 1). */
  lemma SpookParamsInRange(eq: Equation, stiffness: real, relaxation: real, timeStep: real)
    requires timeStep > 0.0 && stiffness > 0.0 && relaxation >= 0.0
    ensures var r := SetSpookParams(eq, stiffness, relaxation, timeStep);
      r.a > 0.0 && r.eps > 0.0 && 0.0 <= r.b < 1.0
  {
    var r := SetSpookParams(eq, stiffness, relaxation, timeStep);
    var s := 1.0 + 4.0 * relaxation;
    assert timeStep * s > 0.0;
    assert timeStep * timeStep * stiffness * s > 0.0 by {
      assert timeStep * timeStep > 0.0;
      assert timeStep * timeStep * stiffness > 0.0;
    }
    assert r.b * s == 4.0 * relaxation;
    assert r.b * s < s;
  }

  /** `init`: bounds -1e6 and 1e6 unless given, SPOOK parameters for
      stiffness 1e7, relaxation 4 and a step of 1/60, zero Jacobians,
      enabled, multiplier 0. */
  function Init(id: int, minForce: Option<real>, maxForce: Option<real>, bi: nat, bj: nat, kind: Kind): (eq: Equation)
    ensures eq.minForce == (if minForce.Some? then minForce.value else -1000000.0)
    ensures eq.maxForce == (if maxForce.Some? then maxForce.value else 1000000.0)
    ensures eq.bi == bi && eq.bj == bj && eq.kind == kind && eq.id == id
    ensures eq.a == 240.0 / 17.0 && eq.b == 16.0 / 17.0 && eq.eps == 9.0 / 106250.0
    ensures eq.ga == ZeroJacobian && eq.gb == ZeroJacobian && eq.enabled && eq.multiplier == 0.0
  {
    var eq := Equation(id, Body.Or(minForce, -1000000.0), Body.Or(maxForce, 1000000.0), bi, bj,
                       0.0, 0.0, 0.0, ZeroJacobian, ZeroJacobian, true, 0.0, kind);
    SetSpookParams(eq, 10000000.0, 4.0, 1.0 / 60.0)
  }

  /** `computeGq`: G applied to the two positions. */
  function Gq(eq: Equation, bodies: seq<Body.Body>): real
    requires Valid(eq, bodies)
  {
    Dot(bodies[eq.bi].position, eq.ga.spatial) + Dot(bodies[eq.bj].position, eq.gb.spatial)
  }

  /** `computeGW`: G applied to the two velocities. */
  function GW(eq: Equation, bodies: seq<Body.Body>): real
    requires Valid(eq, bodies)
  {
    Apply(eq.ga, bodies[eq.bi].velocity, bodies[eq.bi].angularVelocity) +
    Apply(eq.gb, bodies[eq.bj].velocity, bodies[eq.bj].angularVelocity)
  }

  /** `computeGWlambda`: G applied to the velocities the solver has
      accumulated. */
  function GWlambda(eq: Equation, bodies: seq<Body.Body>): real
    requires Valid(eq, bodies)
  {
    Apply(eq.ga, bodies[eq.bi].vlambda, bodies[eq.bi].wlambda) +
    Apply(eq.gb, bodies[eq.bj].vlambda, bodies[eq.bj].wlambda)
  }

  /** `computeGiMf`: G applied to the accelerations the external forces and
      torques would cause, through the solve masses. */
  function GiMf(eq: Equation, bodies: seq<Body.Body>): real
    requires Valid(eq, bodies)
  {
    var bi, bj := bodies[eq.bi], bodies[eq.bj];
    Apply(eq.ga, Scale(bi.invMassSolve, bi.force), MatVec(bi.invInertiaWorldSolve, bi.torque)) +
    Apply(eq.gb, Scale(bj.invMassSolve, bj.force), MatVec(bj.invInertiaWorldSolve, bj.torque))
  }

  /** The base `computeB(a, b, h)`: -Gq a - GW b - GiMf h. */
  function ComputeB(eq: Equation, bodies: seq<Body.Body>, a: real, b: real, h: real): (r: real)
    requires Valid(eq, bodies)
    ensures r + Gq(eq, bodies) * a + GW(eq, bodies) * b + GiMf(eq, bodies) * h == 0.0
  {
    -Gq(eq, bodies) * a - GW(eq, bodies) * b - GiMf(eq, bodies) * h
  }

  /** A right-hand side that puts an error `g` in place of G q, on a
      Jacobian whose spatial parts are zero, is the base one minus g a. */
  lemma RhsIsBase(eq: Equation, bodies: seq<Body.Body>, g: real, a: real, b: real, h: real, rhs: real)
    requires Valid(eq, bodies) && eq.ga.spatial == Zero && eq.gb.spatial == Zero
    requires rhs == -g * a - GW(eq, bodies) * b - h * GiMf(eq, bodies)
    ensures rhs == ComputeB(eq, bodies, a, b, h) - g * a
  {
    assert Gq(eq, bodies) == 0.0;
    var gw, gimf := GW(eq, bodies), GiMf(eq, bodies);
    assert ComputeB(eq, bodies, a, b, h) == -0.0 * a - gw * b - gimf * h;
    assert rhs == -g * a - gw * b - h * gimf;
    assert gimf * h == h * gimf;
  }

  /** A right-hand side whose position and velocity terms are G q and G W
      shifted by `dq` and `dw` is the base one less a dq and b dw. */
  lemma RhsIsBaseShifted(eq: Equation, bodies: seq<Body.Body>, g: real, gw: real, a: real, b: real, h: real, rhs: real, dq: real, dw: real)
    requires Valid(eq, bodies)
    requires g == Gq(eq, bodies) + dq && gw == GW(eq, bodies) + dw
    requires rhs == -g * a - gw * b - h * GiMf(eq, bodies)
    ensures rhs == ComputeB(eq, bodies, a, b, h) - a * dq - b * dw
  {
    var gq, gw0, gimf := Gq(eq, bodies), GW(eq, bodies), GiMf(eq, bodies);
    assert ComputeB(eq, bodies, a, b, h) == -gq * a - gw0 * b - gimf * h;
    assert rhs == -(gq + dq) * a - (gw0 + dw) * b - h * gimf;
  }

  /** A system at rest and free of forces has no velocity or force term:
      only the position error drives it. */
  lemma ComputeBAtRest(eq: Equation, bodies: seq<Body.Body>, a: real, b: real, h: real)
    requires Valid(eq, bodies)
    requires forall k :: 0 <= k < |bodies| ==>
      bodies[k].velocity == Zero && bodies[k].angularVelocity == Zero && bodies[k].force == Zero && bodies[k].torque == Zero
    ensures ComputeB(eq, bodies, a, b, h) == -Gq(eq, bodies) * a
  {
    var bi, bj := bodies[eq.bi], bodies[eq.bj];
    assert MatVec(bi.invInertiaWorldSolve, bi.torque) == Zero;
    assert MatVec(bj.invInertiaWorldSolve, bj.torque) == Zero;
  }

  /** `computeGiMGt`: the inverse masses plus the rotational parts weighed
      by the inverse world inertias. */
  function GiMGt(eq: Equation, bodies: seq<Body.Body>): real
    requires Valid(eq, bodies)
  {
    var bi, bj := bodies[eq.bi], bodies[eq.bj];
    bi.invMassSolve + bj.invMassSolve +
    Dot(MatVec(bi.invInertiaWorldSolve, eq.ga.rotational), eq.ga.rotational) +
    Dot(MatVec(bj.invInertiaWorldSolve, eq.gb.rotational), eq.gb.rotational)
  }

  /** `computeC`: the SPOOK denominator, G M^-1 G^T + eps. */
  function ComputeC(eq: Equation, bodies: seq<Body.Body>): (c: real)
    requires Valid(eq, bodies)
    ensures c - eq.eps == GiMGt(eq, bodies)
  {
    GiMGt(eq, bodies) + eq.eps
  }

  /** The matrix never turns a vector against itself. */
  ghost predicate SemiDefinite(m: Mat3)
  {
    forall v :: Dot(MatVec(m, v), v) >= 0.0
  }

  /** With non-negative inverse masses, semi-definite inverse inertias and
      a positive eps, the denominator is positive, so the solver's 1/C is
      finite. */
  lemma ComputeCPositive(eq: Equation, bodies: seq<Body.Body>)
    requires Valid(eq, bodies) && eq.eps > 0.0
    requires bodies[eq.bi].invMassSolve >= 0.0 && bodies[eq.bj].invMassSolve >= 0.0
    requires SemiDefinite(bodies[eq.bi].invInertiaWorldSolve) && SemiDefinite(bodies[eq.bj].invInertiaWorldSolve)
    ensures ComputeC(eq, bodies) > 0.0
  {
    assert Dot(MatVec(bodies[eq.bi].invInertiaWorldSolve, eq.ga.rotational), eq.ga.rotational) >= 0.0;
    assert Dot(MatVec(bodies[eq.bj].invInertiaWorldSolve, eq.gb.rotational), eq.gb.rotational) >= 0.0;
  }

  /** The increments `addToWlambda` gives one body for the element g. */
  function Push(b: Body.Body, g: Jacobian, deltalambda: real): Body.Body
  {
    b.(vlambda := Add(b.vlambda, Scale(b.invMassSolve * deltalambda, g.spatial)),
       wlambda := Add(b.wlambda, Scale(deltalambda, MatVec(b.invInertiaWorldSolve, g.rotational))))
  }

  /** `addToWlambda(deltalambda)`: body i then body j take their
      increments; when both are the same body it takes both. */
  function AddToWlambda(eq: Equation, bodies: seq<Body.Body>, deltalambda: real): (r: seq<Body.Body>)
    requires Valid(eq, bodies)
    ensures |r| == |bodies|
    ensures forall k :: 0 <= k < |bodies| && k != eq.bi && k != eq.bj ==> r[k] == bodies[k]
    ensures forall k :: 0 <= k < |bodies| ==>
      r[k].(vlambda := bodies[k].vlambda, wlambda := bodies[k].wlambda) == bodies[k]
    ensures eq.bi != eq.bj ==> r[eq.bi] == Push(bodies[eq.bi], eq.ga, deltalambda) && r[eq.bj] == Push(bodies[eq.bj], eq.gb, deltalambda)
    ensures eq.bi == eq.bj ==> r[eq.bi] == Push(Push(bodies[eq.bi], eq.ga, deltalambda), eq.gb, deltalambda)
  {
    var afterI := bodies[eq.bi := Push(bodies[eq.bi], eq.ga, deltalambda)];
    afterI[eq.bj := Push(afterI[eq.bj], eq.gb, deltalambda)]
  }

  /** A zero increment changes nothing. */
  lemma AddToWlambdaZero(eq: Equation, bodies: seq<Body.Body>)
    requires Valid(eq, bodies)
    ensures AddToWlambda(eq, bodies, 0.0) == bodies
  {
    var r := AddToWlambda(eq, bodies, 0.0);
    forall k | 0 <= k < |bodies|
      ensures r[k] == bodies[k]
    {
      if k == eq.bi || k == eq.bj {
        assert Scale(0.0, MatVec(bodies[k].invInertiaWorldSolve, eq.ga.rotational)) == Zero;
        assert Scale(0.0, MatVec(bodies[k].invInertiaWorldSolve, eq.gb.rotational)) == Zero;
        assert Scale(bodies[k].invMassSolve * 0.0, eq.ga.spatial) == Zero;
        assert Scale(bodies[k].invMassSolve * 0.0, eq.gb.spatial) == Zero;
      }
    }
  }

  /** Two increments add up: the accumulated velocities are linear in the
      increments. */
  lemma AddToWlambdaAdds(eq: Equation, bodies: seq<Body.Body>, d1: real, d2: real)
    requires Valid(eq, bodies)
    ensures AddToWlambda(eq, AddToWlambda(eq, bodies, d1), d2) == AddToWlambda(eq, bodies, d1 + d2)
  {
    var once := AddToWlambda(eq, bodies, d1);
    var twice := AddToWlambda(eq, once, d2);
    var both := AddToWlambda(eq, bodies, d1 + d2);
    forall k | 0 <= k < |bodies|
      ensures twice[k] == both[k]
    {
      if k == eq.bi || k == eq.bj {
        PushAdds(bodies[k], eq.ga, d1, d2);
        PushAdds(bodies[k], eq.gb, d1, d2);
        if eq.bi == eq.bj {
          PushCommutes(Push(bodies[k], eq.ga, d1), eq.gb, d1, eq.ga, d2);
          PushAdds(Push(bodies[k], eq.ga, d1 + d2), eq.gb, d1, d2);
          assert twice[k] == Push(Push(Push(Push(bodies[k], eq.ga, d1), eq.gb, d1), eq.ga, d2), eq.gb, d2);
        }
      }
    }
  }

  lemma PushAdds(b: Body.Body, g: Jacobian, d1: real, d2: real)
    ensures Push(Push(b, g, d1), g, d2) == Push(b, g, d1 + d2)
  {
    var m := b.invMassSolve;
    AddScaled(b.vlambda, g.spatial, m * d1, m * d2);
    assert m * d1 + m * d2 == m * (d1 + d2);
    AddScaled(b.wlambda, MatVec(b.invInertiaWorldSolve, g.rotational), d1, d2);
  }

  lemma PushCommutes(b: Body.Body, g: Jacobian, d: real, g2: Jacobian, d2: real)
    ensures Push(Push(b, g, d), g2, d2) == Push(Push(b, g2, d2), g, d)
  {
  }
}
