/** The contact equation: a non-penetration constraint along the contact
    normal `ni`, between the contact points `ri` (from body i's centre) and
    `rj` (from body j's centre), with a restitution factor. */
module ContactEquation {
  import opened Vectors
  import opened Wrappers
  import Body
  import Equation

  /** `init`: the force is bounded below by 0 and above by `maxForce`
      (1e6 unless given); restitution starts at 0 and the three vectors at
      zero. */
  function Init(id: int, bodyA: nat, bodyB: nat, maxForce: Option<real>): (eq: Equation.Equation)
    ensures eq.minForce == 0.0
    ensures eq.maxForce == (if maxForce.Some? then maxForce.value else 1000000.0)
    ensures eq.kind == Equation.Contact(0.0, Zero, Zero, Zero)
    ensures eq.bi == bodyA && eq.bj == bodyB && eq.enabled
  {
    Equation.Init(id, Some(0.0), Some(Body.Or(maxForce, 1000000.0)), bodyA, bodyB, Equation.Contact(0.0, Zero, Zero, Zero))
  }

  /** The Jacobian `computeB` writes: G = [-n, -(ri x n), n, rj x n]. */
  function Jacobians(eq: Equation.Equation): (r: Equation.Equation)
    requires eq.kind.Contact?
    ensures r.ga.spatial == Neg(eq.kind.ni) && r.gb.spatial == eq.kind.ni
    ensures r.ga.rotational == Neg(Cross(eq.kind.ri, eq.kind.ni)) && r.gb.rotational == Cross(eq.kind.rj, eq.kind.ni)
    ensures r.(ga := eq.ga, gb := eq.gb) == eq
  {
    var n := eq.kind.ni;
    eq.(ga := Equation.Jacobian(Neg(n), Neg(Cross(eq.kind.ri, n))), gb := Equation.Jacobian(n, Cross(eq.kind.rj, n)))
  }

  /** The penetration: the separation of the two contact points along n,
      negative when they overlap. */
  function Penetration(eq: Equation.Equation, bodies: seq<Body.Body>): real
    requires eq.kind.Contact? && Equation.Valid(eq, bodies)
  {
    Dot(eq.kind.ni, Sub(Add(bodies[eq.bj].position, eq.kind.rj), Add(bodies[eq.bi].position, eq.kind.ri)))
  }

  /** `computeB(h)`: writes the Jacobian, then returns -g a - GW b - h GiMf,
      where the normal velocities in GW are scaled by 1 + restitution. */
  function ComputeB(eq: Equation.Equation, bodies: seq<Body.Body>, h: real): (r: (Equation.Equation, real))
    requires eq.kind.Contact? && Equation.Valid(eq, bodies)
    ensures r.0 == Jacobians(eq) && Written(r.0)
    ensures r.1 == Rhs(r.0, bodies, h)
  {
    var updated := Jacobians(eq);
    (updated, Rhs(updated, bodies, h))
  }

  /** The right-hand side on the written Jacobian. */
  function Rhs(updated: Equation.Equation, bodies: seq<Body.Body>, h: real): real
    requires updated.kind.Contact? && Equation.Valid(updated, bodies)
  {
    var n, ri, rj := updated.kind.ni, updated.kind.ri, updated.kind.rj;
    var bi, bj := bodies[updated.bi], bodies[updated.bj];
    var g := Penetration(updated, bodies);
    var ePlusOne := updated.kind.restitution + 1.0;
    var gw := ePlusOne * Dot(bj.velocity, n) - ePlusOne * Dot(bi.velocity, n) + Dot(bj.angularVelocity, Cross(rj, n)) - Dot(bi.angularVelocity, Cross(ri, n));
    -g * updated.a - gw * updated.b - h * Equation.GiMf(updated, bodies)
  }

  /** The Jacobian is the one `computeB` writes. */
  predicate Written(eq: Equation.Equation)
    requires eq.kind.Contact?
  {
    var n := eq.kind.ni;
    eq.ga == Equation.Jacobian(Neg(n), Neg(Cross(eq.kind.ri, n))) && eq.gb == Equation.Jacobian(n, Cross(eq.kind.rj, n))
  }

  /** On the written Jacobian, G q is n . (pj - pi) and the penetration
      adds n . (rj - ri) to it. */
  lemma PenetrationIsGqPlusOffsets(eq: Equation.Equation, bodies: seq<Body.Body>)
    requires eq.kind.Contact? && Equation.Valid(eq, bodies) && Written(eq)
    ensures Penetration(eq, bodies) == Equation.Gq(eq, bodies) + Dot(eq.kind.ni, Sub(eq.kind.rj, eq.kind.ri))
  {
    var pi, pj := bodies[eq.bi].position, bodies[eq.bj].position;
    SeparationAlong(eq.kind.ni, pi, pj, eq.kind.ri, eq.kind.rj);
    assert Equation.Gq(eq, bodies) == Dot(pi, Neg(eq.kind.ni)) + Dot(pj, eq.kind.ni);
  }

  /** n . ((pj + rj) - (pi + ri)) splits into the centres' part, written
      as the Jacobian [-n, n] measures it, and the offsets' part. */
  lemma SeparationAlong(n: Vec3, pi: Vec3, pj: Vec3, ri: Vec3, rj: Vec3)
    ensures Dot(n, Sub(Add(pj, rj), Add(pi, ri))) == Dot(pi, Neg(n)) + Dot(pj, n) + Dot(n, Sub(rj, ri))
  {
  }


  /** On the written Jacobian, the restitution-scaled velocity term of
      `computeB` is G W plus e times the normal velocity difference. */
  lemma ScaledGWSplits(eq: Equation.Equation, bodies: seq<Body.Body>)
    requires eq.kind.Contact? && Equation.Valid(eq, bodies) && Written(eq)
    ensures var n, bi, bj, e := eq.kind.ni, bodies[eq.bi], bodies[eq.bj], eq.kind.restitution;
      (e + 1.0) * Dot(bj.velocity, n) - (e + 1.0) * Dot(bi.velocity, n)
        + Dot(bj.angularVelocity, Cross(eq.kind.rj, n)) - Dot(bi.angularVelocity, Cross(eq.kind.ri, n))
      == Equation.GW(eq, bodies) + e * (Dot(bj.velocity, n) - Dot(bi.velocity, n))
  {
  }

  /** Against the base formula on the written Jacobian: the position term
      measures the contact points rather than the centres, and restitution
      adds e times the normal approach speed to the velocity term. */
  lemma RhsIsBaseWithContactPoints(eq: Equation.Equation, bodies: seq<Body.Body>, h: real)
    requires eq.kind.Contact? && Equation.Valid(eq, bodies) && Written(eq)
    ensures var n := eq.kind.ni;
      Rhs(eq, bodies, h) == Equation.ComputeB(eq, bodies, eq.a, eq.b, h)
        - eq.a * Dot(n, Sub(eq.kind.rj, eq.kind.ri))
        - eq.b * eq.kind.restitution * (Dot(bodies[eq.bj].velocity, n) - Dot(bodies[eq.bi].velocity, n))
  {
    var n, bi, bj, e := eq.kind.ni, bodies[eq.bi], bodies[eq.bj], eq.kind.restitution;
    PenetrationIsGqPlusOffsets(eq, bodies);
    ScaledGWSplits(eq, bodies);
    Equation.RhsIsBaseShifted(eq, bodies, Penetration(eq, bodies),
      (e + 1.0) * Dot(bj.velocity, n) - (e + 1.0) * Dot(bi.velocity, n)
        + Dot(bj.angularVelocity, Cross(eq.kind.rj, n)) - Dot(bi.angularVelocity, Cross(eq.kind.ri, n)),
      eq.a, eq.b, h, Rhs(eq, bodies, h), Dot(n, Sub(eq.kind.rj, eq.kind.ri)), e * (Dot(bj.velocity, n) - Dot(bi.velocity, n)));
    assert eq.b * (e * (Dot(bj.velocity, n) - Dot(bi.velocity, n))) == eq.b * e * (Dot(bj.velocity, n) - Dot(bi.velocity, n));

  }



  /** The Jacobian is overwritten whole, so what it held before does not
      matter. */
  lemma ComputeBForgetsJacobian(eq: Equation.Equation, bodies: seq<Body.Body>, h: real, ga: Equation.Jacobian, gb: Equation.Jacobian)
    requires eq.kind.Contact? && Equation.Valid(eq, bodies)
    ensures ComputeB(eq.(ga := ga, gb := gb), bodies, h) == ComputeB(eq, bodies, h)
  {
    assert Jacobians(eq.(ga := ga, gb := gb)) == Jacobians(eq);
  }

  /** `getImpactVelocityAlongNormal`: the velocity of body i's contact point
      less that of body j's, along n. */
  function ImpactVelocityAlongNormal(eq: Equation.Equation, bodies: seq<Body.Body>): (v: real)
    requires eq.kind.Contact? && Equation.Valid(eq, bodies)
    ensures var bi, bj := bodies[eq.bi], bodies[eq.bj];
      v == Dot(eq.kind.ni, Sub(Body.GetVelocityAtWorldPoint(bi, Add(bi.position, eq.kind.ri)),
                               Body.GetVelocityAtWorldPoint(bj, Add(bj.position, eq.kind.rj))))
  {
    var bi, bj := bodies[eq.bi], bodies[eq.bj];
    var vi := Body.GetVelocityAtWorldPoint(bi, Add(bi.position, eq.kind.ri));
    var vj := Body.GetVelocityAtWorldPoint(bj, Add(bj.position, eq.kind.rj));
    Dot(eq.kind.ni, Sub(vi, vj))
  }

  /** The point velocities are v + w x r, so the impact velocity is
      n . ((vi + wi x ri) - (vj + wj x rj)). */
  lemma ImpactVelocityFromPointVelocities(eq: Equation.Equation, bodies: seq<Body.Body>)
    requires eq.kind.Contact? && Equation.Valid(eq, bodies)
    ensures var bi, bj := bodies[eq.bi], bodies[eq.bj];
      ImpactVelocityAlongNormal(eq, bodies) ==
        Dot(eq.kind.ni, Sub(Add(bi.velocity, Cross(bi.angularVelocity, eq.kind.ri)), Add(bj.velocity, Cross(bj.angularVelocity, eq.kind.rj))))
  {
    var bi, bj := bodies[eq.bi], bodies[eq.bj];
    assert Sub(Add(bi.position, eq.kind.ri), bi.position) == eq.kind.ri;
    assert Sub(Add(bj.position, eq.kind.rj), bj.position) == eq.kind.rj;
  }
}
