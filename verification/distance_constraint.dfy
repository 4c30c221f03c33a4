/** The distance constraint: keeps the centres of two bodies a fixed
    distance apart through one contact equation that may push either way.
    Its only equation is that contact equation. */
module DistanceConstraint {
  import opened Vectors
  import opened Wrappers
  import Body
  import Equation
  import ContactEquation
  import Constraint

  /** The options `init` reads; `None` is a missing entry. */
  datatype Options = Options(distance: Option<real>, maxForce: Option<real>)

  /** What the distance constraint's own members work on. */
  predicate Shaped(c: Constraint.Constraint)
  {
    c.kind.Distance? && |c.equations| == 1 && c.equations[0].kind.Contact?
  }

  /** `distanceTo`: the length of the difference. */
  function DistanceBetween(a: Vec3, b: Vec3, ops: MathOps): real
  {
    ops.sqrt(NormSq(Sub(b, a)))
  }

  /** `init` as written: the base `init` it calls first throws (see
      `Constraint.InitAsWritten`), so the call fails before anything of its
      own runs. */
  function InitAsWritten(id: int, firstId: int, bodyA: nat, bodyB: nat, options: Options,
                         bodies: seq<Body.Body>, ops: MathOps): (r: Result<Constraint.Built>)
    requires bodyA < |bodies| && bodyB < |bodies|
    ensures r.Err? && r.error == TypeError("Assignment to constant variable.")
  {
    match Constraint.InitAsWritten(id, bodyA, bodyB, Constraint.NoOptions, bodies)
    case Err(e) => Err(e)
    // the base never returns, so the rest (`InitMaxForceAsWritten`) is unreachable
    case Ok(base) => assert false; Ok(base)
  }

  /** The rest of `init` as written, on a base `init` that returns: the
      bound is read from `maxForce` inside that constant's own initialiser,
      so when the option is present the read throws; when it is absent the
      bound is 1e6. */
  function InitMaxForceAsWritten(id: int, firstId: int, bodyA: nat, bodyB: nat, options: Options,
                                 bodies: seq<Body.Body>, ops: MathOps): (r: Result<Constraint.Built>)
    requires bodyA < |bodies| && bodyB < |bodies|
    ensures options.maxForce.Some? <==> r.Err?
    ensures r.Err? ==> r.error.ReferenceError?
    ensures r.Ok? ==> Shaped(r.value.constraint) && r.value.constraint.equations[0].maxForce == 1000000.0
  {
    if options.maxForce.Some? then Err(ReferenceError("Cannot access 'maxForce' before initialization"))
    else Ok(Init(id, firstId, bodyA, bodyB, options, bodies, ops))
  }

  /** `init` as intended: the distance is the current distance between
      the two centres unless given; one contact equation between the two
      bodies, with bounds -maxForce and maxForce (1e6 unless given). */
  function Init(id: int, firstId: int, bodyA: nat, bodyB: nat, options: Options,
                bodies: seq<Body.Body>, ops: MathOps): (r: Constraint.Built)
    requires bodyA < |bodies| && bodyB < |bodies|
    ensures Shaped(r.constraint) && Constraint.Valid(r.constraint, r.bodies)
    ensures r.constraint.id == id && r.constraint.bodyA == bodyA && r.constraint.bodyB == bodyB
    ensures r.constraint.kind.distance ==
      if options.distance.Some? then options.distance.value
      else DistanceBetween(bodies[bodyA].position, bodies[bodyB].position, ops)
    ensures var eq, bound := r.constraint.equations[0], Body.Or(options.maxForce, 1000000.0);
      eq.id == firstId && eq.bi == bodyA && eq.bj == bodyB && eq.enabled &&
      eq.minForce == -bound && eq.maxForce == bound
    ensures r.constraint.collideConnected
    ensures r.bodies == Constraint.Init(id, bodyA, bodyB, Constraint.NoOptions, bodies).bodies
  {
    var base := Constraint.Init(id, bodyA, bodyB, Constraint.NoOptions, bodies);
    var distance := Body.Or(options.distance, DistanceBetween(bodies[bodyA].position, bodies[bodyB].position, ops));
    var maxForce := Body.Or(options.maxForce, 1000000.0);
    var eq := ContactEquation.Init(firstId, bodyA, bodyB, None).(minForce := -maxForce, maxForce := maxForce);
    base.(constraint := base.constraint.(equations := [eq], kind := Constraint.Distance(distance)))
  }

  /** With the bound option present, the written bound read throws where
      the intended `init` uses the bound. */
  lemma MaxForceCounterexample(id: int, firstId: int, bodyA: nat, bodyB: nat, bodies: seq<Body.Body>, ops: MathOps)
    requires bodyA < |bodies| && bodyB < |bodies|
    ensures InitMaxForceAsWritten(id, firstId, bodyA, bodyB, Options(None, Some(5.0)), bodies, ops).Err?
    ensures Init(id, firstId, bodyA, bodyB, Options(None, Some(5.0)), bodies, ops).constraint.equations[0].maxForce == 5.0
  {
  }

  /** `update`: the equation's normal is the unit vector from A's centre
      to B's, and its contact points lie half the distance along it from
      A and back from B. Nothing else changes. */
  function Update(c: Constraint.Constraint, bodies: seq<Body.Body>, ops: MathOps): (r: Constraint.Constraint)
    requires Shaped(c) && Constraint.Valid(c, bodies)
    ensures Shaped(r)
    ensures var n := ops.normalize(Sub(bodies[c.bodyB].position, bodies[c.bodyA].position));
      var eq := r.equations[0];
      eq.kind.ni == n && eq.kind.ri == Scale(c.kind.distance * 0.5, n) && eq.kind.rj == Scale(-(c.kind.distance * 0.5), n) &&
      eq.kind.restitution == c.equations[0].kind.restitution &&
      eq.(kind := c.equations[0].kind) == c.equations[0]
    ensures r.(equations := c.equations) == c
  {
    var eq := c.equations[0];
    var halfDist := c.kind.distance * 0.5;
    var normal := ops.normalize(Sub(bodies[c.bodyB].position, bodies[c.bodyA].position));
    c.(equations := [eq.(kind := Equation.Contact(eq.kind.restitution, Scale(halfDist, normal), Scale(-halfDist, normal), normal))])
  }

  /** After an update the two contact points are opposite, and the
      point on A lies the full distance along the normal from the point on
      B. */
  lemma UpdateArmsOppose(c: Constraint.Constraint, bodies: seq<Body.Body>, ops: MathOps)
    requires Shaped(c) && Constraint.Valid(c, bodies)
    ensures var eq := Update(c, bodies, ops).equations[0];
      eq.kind.ri == Neg(eq.kind.rj) && Sub(eq.kind.ri, eq.kind.rj) == Scale(c.kind.distance, eq.kind.ni)
  {
    var eq := Update(c, bodies, ops).equations[0];
    var h, n := c.kind.distance * 0.5, eq.kind.ni;
    NegScale(h, n);
    HalvesAdd(c.kind.distance, n);
  }

  lemma NegScale(h: real, n: Vec3)
    ensures Scale(h, n) == Neg(Scale(-h, n))
  {
  }

  lemma HalvesAdd(d: real, n: Vec3)
    ensures Sub(Scale(d * 0.5, n), Scale(-(d * 0.5), n)) == Scale(d, n)
  {
    assert d * 0.5 * n.x - (-(d * 0.5)) * n.x == d * n.x;
    assert d * 0.5 * n.y - (-(d * 0.5)) * n.y == d * n.y;
    assert d * 0.5 * n.z - (-(d * 0.5)) * n.z == d * n.z;
  }
}
