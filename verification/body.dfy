/** The rigid body: its construction from options, the sleep state machine,
    the solve masses, the force, torque and impulse entry points, the shape
    list, the bounds and the explicit integration step.

    A body is a value; an operation that mutates the body in the source
    returns the updated value. The shapes a body holds are `Shape` values,
    told apart by their `id`. The world bounds of one shape (its subclass's
    `calculateWorldAABB`) come in as `shapeAabb`. */
module Body {
  import opened Vectors
  import opened Wrappers
  import Shape
  import Box
  import JsNumbers

  const DYNAMIC: int := 1
  const STATIC: int := 2
  const KINEMATIC: int := 4

  datatype SleepState = Awake | Sleepy | Sleeping

  /** Of the three body types only STATIC has the STATIC bit. */
  lemma StaticBit()
    ensures JsNumbers.And(DYNAMIC, STATIC) == 0
    ensures JsNumbers.And(STATIC, STATIC) == STATIC
    ensures JsNumbers.And(KINEMATIC, STATIC) == 0
  {
    JsNumbers.Pow2Of32();
    JsNumbers.AndOfZero(1, 31);
    JsNumbers.AndOfZero(0, 30);
    JsNumbers.AndZero(1, 30);
    assert JsNumbers.AndN(1, 2, 32) == 2 * JsNumbers.AndN(0, 1, 31);
    assert JsNumbers.AndN(2, 2, 32) == 2 * JsNumbers.AndN(1, 1, 31) == 2 * (1 + 2 * JsNumbers.AndN(0, 0, 30));
    assert JsNumbers.AndN(4, 2, 32) == 2 * JsNumbers.AndN(2, 1, 31) == 4 * JsNumbers.AndN(1, 0, 30);
  }

  /** Of the three body types only KINEMATIC has the KINEMATIC bit. */
  lemma KinematicBit()
    ensures JsNumbers.And(DYNAMIC, KINEMATIC) == 0
    ensures JsNumbers.And(STATIC, KINEMATIC) == 0
    ensures JsNumbers.And(KINEMATIC, KINEMATIC) == KINEMATIC
  {
    JsNumbers.Pow2Of32();
    JsNumbers.AndOfZero(2, 31);
    JsNumbers.AndOfZero(1, 30);
    JsNumbers.AndOfZero(0, 29);
    assert JsNumbers.AndN(1, 4, 32) == 2 * JsNumbers.AndN(0, 2, 31);
    assert JsNumbers.AndN(2, 4, 32) == 2 * JsNumbers.AndN(1, 2, 31) == 4 * JsNumbers.AndN(0, 1, 30);
    assert JsNumbers.AndN(4, 4, 32) == 2 * JsNumbers.AndN(2, 2, 31) == 4 * JsNumbers.AndN(1, 1, 30) == 4 * (1 + 2 * JsNumbers.AndN(0, 0, 29));
  }

  datatype Body = Body(
    id: int,
    index: int,
    collisionFilterGroup: int,
    collisionFilterMask: int,
    collisionResponse: bool,
    position: Vec3,
    previousPosition: Vec3,
    initPosition: Vec3,
    velocity: Vec3,
    force: Vec3,
    mass: real,
    invMass: real,
    material: Option<int>,
    linearDamping: real,
    bodyType: int,
    allowSleep: bool,
    sleepState: SleepState,
    sleepSpeedLimit: real,
    sleepTimeLimit: real,
    timeLastSleepy: real,
    wakeUpAfterNarrowphase: bool,
    torque: Vec3,
    quaternion: Quat,
    previousQuaternion: Quat,
    angularVelocity: Vec3,
    shapes: seq<Shape.Shape>,
    shapeOffsets: seq<Vec3>,
    shapeOrientations: seq<Quat>,
    inertia: Vec3,
    invInertia: Vec3,
    invInertiaWorld: Mat3,
    invMassSolve: real,
    invInertiaSolve: Vec3,
    invInertiaWorldSolve: Mat3,
    fixedRotation: bool,
    angularDamping: real,
    linearFactor: Vec3,
    angularFactor: Vec3,
    aabb: Aabb,
    aabbNeedsUpdate: bool,
    boundingRadius: real,
    vlambda: Vec3,
    wlambda: Vec3,
    isTrigger: bool)

  /** The options `init` reads; `None` is an option that is missing or of
      the wrong type. */
  datatype BodyOptions = BodyOptions(
    collisionFilterGroup: Option<int>,
    collisionFilterMask: Option<int>,
    collisionResponse: Option<bool>,
    position: Option<Vec3>,
    velocity: Option<Vec3>,
    mass: Option<real>,
    material: Option<int>,
    linearDamping: Option<real>,
    bodyType: Option<int>,
    allowSleep: Option<bool>,
    sleepSpeedLimit: Option<real>,
    sleepTimeLimit: Option<real>,
    quaternion: Option<Quat>,
    angularVelocity: Option<Vec3>,
    fixedRotation: Option<bool>,
    angularDamping: Option<real>,
    linearFactor: Option<Vec3>,
    angularFactor: Option<Vec3>,
    isTrigger: Option<bool>,
    shape: Option<Shape.Shape>)

  /** Options that give nothing: every property missing. */
  const NoOptions: BodyOptions := BodyOptions(None, None, None, None, None, None, None, None, None, None,
                                              None, None, None, None, None, None, None, None, None, None)

  /** What the model cannot compute: the mathematics, and a shape's world
      bounds at a pose. */
  datatype Env = Env(ops: MathOps, shapeAabb: (Shape.Shape, Vec3, Quat) -> Aabb)

  function Or<T>(o: Option<T>, default: T): T
  {
    if o.Some? then o.value else default
  }

  /** The three shape arrays stay the same length. */
  predicate Aligned(b: Body)
  {
    |b.shapes| == |b.shapeOffsets| == |b.shapeOrientations|
  }

  /** The two bodies agree on everything but the shapes, the bounds and
      the mass properties derived from them. */
  predicate SameState(a: Body, b: Body)
  {
    a.id == b.id && a.index == b.index &&
    a.collisionFilterGroup == b.collisionFilterGroup && a.collisionFilterMask == b.collisionFilterMask &&
    a.collisionResponse == b.collisionResponse &&
    a.position == b.position && a.velocity == b.velocity && a.force == b.force && a.mass == b.mass &&
    a.bodyType == b.bodyType && a.allowSleep == b.allowSleep && a.sleepState == b.sleepState &&
    a.sleepSpeedLimit == b.sleepSpeedLimit && a.sleepTimeLimit == b.sleepTimeLimit &&
    a.timeLastSleepy == b.timeLastSleepy && a.wakeUpAfterNarrowphase == b.wakeUpAfterNarrowphase &&
    a.torque == b.torque && a.quaternion == b.quaternion && a.angularVelocity == b.angularVelocity
  }

  /** `1 / mass` for a positive mass, 0 otherwise. */
  function InverseMass(mass: real): (inv: real)
    ensures mass > 0.0 ==> inv * mass == 1.0
    ensures mass <= 0.0 ==> inv == 0.0
  {
    if mass > 0.0 then 1.0 / mass else 0.0
  }

  /** The state `init` sets from the options before it adds the shape and
      computes the mass properties. A missing mass is 0; the type is STATIC
      for a non-positive mass and DYNAMIC otherwise, unless a numeric type
      is given; the body starts awake, unmoved by any force. */
  function Fields(id: int, o: BodyOptions): (b: Body)
    ensures Aligned(b) && b.shapes == []
    ensures b.id == id && b.index == -1
    ensures b.mass == (if o.mass.Some? then o.mass.value else 0.0)
    ensures b.invMass == InverseMass(b.mass)
    ensures o.bodyType.Some? ==> b.bodyType == o.bodyType.value
    ensures o.bodyType.None? ==> (b.bodyType == STATIC <==> b.mass <= 0.0) && (b.bodyType == DYNAMIC <==> b.mass > 0.0)
    ensures b.sleepState == Awake && !b.wakeUpAfterNarrowphase && b.timeLastSleepy == 0.0
    ensures b.collisionFilterGroup == (if o.collisionFilterGroup.Some? then o.collisionFilterGroup.value else 1)
    ensures b.collisionFilterMask == (if o.collisionFilterMask.Some? then o.collisionFilterMask.value else -1)
    ensures b.allowSleep == (o.allowSleep.None? || o.allowSleep.value)
    ensures b.position == b.previousPosition == b.initPosition == (if o.position.Some? then o.position.value else Zero)
    ensures b.force == Zero && b.torque == Zero
  {
    var mass := Or(o.mass, 0.0);
    var position := Or(o.position, Zero);
    var quaternion := Or(o.quaternion, Identity);
    Body(
      id, -1,
      Or(o.collisionFilterGroup, 1), Or(o.collisionFilterMask, -1), Or(o.collisionResponse, true),
      position, position, position,
      Or(o.velocity, Zero), Zero,
      mass, InverseMass(mass), o.material, Or(o.linearDamping, 0.01),
      if o.bodyType.Some? then o.bodyType.value else if mass <= 0.0 then STATIC else DYNAMIC,
      Or(o.allowSleep, true), Awake, Or(o.sleepSpeedLimit, 0.1), Or(o.sleepTimeLimit, 1.0), 0.0, false,
      Zero, quaternion, quaternion, Or(o.angularVelocity, Zero),
      [], [], [],
      Zero, Zero, ZeroMat, 0.0, Zero, ZeroMat,
      Or(o.fixedRotation, false), Or(o.angularDamping, 0.01),
      Or(o.linearFactor, Vec3(1.0, 1.0, 1.0)), Or(o.angularFactor, Vec3(1.0, 1.0, 1.0)),
      Aabb(Zero, Zero), true, 0.0, Zero, Zero, Or(o.isTrigger, false))
  }

  /** `init(options)`: the option fields above, then the option's shape if
      there is one, then the mass properties. */
  function Init(id: int, o: BodyOptions, env: Env): (b: Body)
    ensures Aligned(b)
    ensures SameState(b, Fields(id, o))
    ensures b.invMass == InverseMass(b.mass)
    ensures o.shape.None? ==> b.shapes == []
    ensures o.shape.Some? ==> b.shapes == [o.shape.value.(body := Some(id))]
  {
    var b0 := Fields(id, o);
    var b1 := if o.shape.Some? then AddShape(b0, o.shape.value, None, None, env).0 else b0;
    UpdateMassProperties(b1, env)
  }

  /** `wakeUp`: awake, and no pending wake-up. */
  function WakeUp(b: Body): (r: Body)
    ensures r.sleepState == Awake && !r.wakeUpAfterNarrowphase
    ensures r.(sleepState := b.sleepState, wakeUpAfterNarrowphase := b.wakeUpAfterNarrowphase) == b
  {
    b.(sleepState := Awake, wakeUpAfterNarrowphase := false)
  }

  /** `sleep`: sleeping, with both velocities zeroed. */
  function Sleep(b: Body): (r: Body)
    ensures r.sleepState == Sleeping && r.velocity == Zero && r.angularVelocity == Zero && !r.wakeUpAfterNarrowphase
    ensures r.(sleepState := b.sleepState, velocity := b.velocity, angularVelocity := b.angularVelocity,
               wakeUpAfterNarrowphase := b.wakeUpAfterNarrowphase) == b
  {
    b.(sleepState := Sleeping, velocity := Zero, angularVelocity := Zero, wakeUpAfterNarrowphase := false)
  }

  /** The squared speed the sleep test compares: linear plus angular. */
  function SpeedSquared(b: Body): real
  {
    NormSq(b.velocity) + NormSq(b.angularVelocity)
  }

  /** `sleepTick(time)`: the sleep state machine, driven by the squared
      speed against the squared limit. */
  function SleepTick(b: Body, time: real): (r: Body)
    ensures !b.allowSleep ==> r == b
    ensures b.sleepState == Sleeping ==> r == b
    ensures b.allowSleep && b.sleepState == Awake && SpeedSquared(b) < b.sleepSpeedLimit * b.sleepSpeedLimit ==>
      r == b.(sleepState := Sleepy, timeLastSleepy := time)
    ensures b.allowSleep && b.sleepState == Awake && SpeedSquared(b) >= b.sleepSpeedLimit * b.sleepSpeedLimit ==> r == b
    ensures b.allowSleep && b.sleepState == Sleepy && SpeedSquared(b) > b.sleepSpeedLimit * b.sleepSpeedLimit ==>
      r == WakeUp(b)
    ensures b.allowSleep && b.sleepState == Sleepy && SpeedSquared(b) <= b.sleepSpeedLimit * b.sleepSpeedLimit ==>
      r == (if time - b.timeLastSleepy > b.sleepTimeLimit then Sleep(b) else b)
  {
    if b.allowSleep then
      var speedSquared := SpeedSquared(b);
      var limitSquared := b.sleepSpeedLimit * b.sleepSpeedLimit;
      if b.sleepState == Awake && speedSquared < limitSquared then
        b.(sleepState := Sleepy, timeLastSleepy := time)
      else if b.sleepState == Sleepy && speedSquared > limitSquared then
        WakeUp(b)
      else if b.sleepState == Sleepy && time - b.timeLastSleepy > b.sleepTimeLimit then
        Sleep(b)
      else b
    else b
  }

  /** `sleepTick` moves one step at a time along awake, sleepy, sleeping, or
      back from sleepy to awake; it never wakes a sleeping body. */
  lemma SleepTickSteps(b: Body, time: real)
    ensures var r := SleepTick(b, time);
      (b.sleepState == Awake ==> r.sleepState != Sleeping) &&
      (b.sleepState == Sleeping ==> r.sleepState == Sleeping) &&
      (r.sleepState == Sleeping && b.sleepState != Sleeping ==> r.velocity == Zero && r.angularVelocity == Zero)
  {
  }

  /** A slow awake body ticked at t0 turns sleepy, and ticked again, still
      slow, after more than the time limit it falls asleep. */
  lemma FallsAsleep(b: Body, t0: real, t1: real)
    requires b.allowSleep && b.sleepState == Awake
    requires SpeedSquared(b) < b.sleepSpeedLimit * b.sleepSpeedLimit
    requires t1 - t0 > b.sleepTimeLimit
    ensures SleepTick(b, t0).sleepState == Sleepy
    ensures SleepTick(SleepTick(b, t0), t1) == Sleep(b.(sleepState := Sleepy, timeLastSleepy := t0))
  {
  }

  /** Waking a body put to sleep leaves it awake and at rest. */
  lemma WakeUpAfterSleep(b: Body)
    ensures var r := WakeUp(Sleep(b));
      r.sleepState == Awake && r.velocity == Zero && r.angularVelocity == Zero && !r.wakeUpAfterNarrowphase
  {
  }

  /** `updateSolveMassProperties`: a sleeping or kinematic body is immovable
      in the solver; any other body solves with its own inverse masses. */
  function UpdateSolveMassProperties(b: Body): (r: Body)
    ensures b.sleepState == Sleeping || b.bodyType == KINEMATIC ==>
      r.invMassSolve == 0.0 && r.invInertiaSolve == Zero && r.invInertiaWorldSolve == ZeroMat
    ensures !(b.sleepState == Sleeping || b.bodyType == KINEMATIC) ==>
      r.invMassSolve == b.invMass && r.invInertiaSolve == b.invInertia && r.invInertiaWorldSolve == b.invInertiaWorld
    ensures r.(invMassSolve := b.invMassSolve, invInertiaSolve := b.invInertiaSolve,
               invInertiaWorldSolve := b.invInertiaWorldSolve) == b
  {
    if b.sleepState == Sleeping || b.bodyType == KINEMATIC then
      b.(invMassSolve := 0.0, invInertiaSolve := Zero, invInertiaWorldSolve := ZeroMat)
    else
      b.(invMassSolve := b.invMass, invInertiaSolve := b.invInertia, invInertiaWorldSolve := b.invInertiaWorld)
  }

  /** `applyForce(force, relativePoint)`: only a dynamic body takes it; a
      sleeping one is woken; the force adds to `force` and its moment
      relativePoint x force to `torque`. */
  function ApplyForce(b: Body, f: Vec3, point: Vec3): (r: Body)
    ensures b.bodyType != DYNAMIC ==> r == b
    ensures b.bodyType == DYNAMIC ==>
      r.force == Add(b.force, f) && r.torque == Add(b.torque, Cross(point, f)) &&
      r.sleepState == (if b.sleepState == Sleeping then Awake else b.sleepState) &&
      r.wakeUpAfterNarrowphase == (if b.sleepState == Sleeping then false else b.wakeUpAfterNarrowphase)
    ensures b.bodyType == DYNAMIC ==>
      r.(force := b.force, torque := b.torque, sleepState := b.sleepState,
         wakeUpAfterNarrowphase := b.wakeUpAfterNarrowphase) == b
  {
    if b.bodyType != DYNAMIC then b
    else
      var w := if b.sleepState == Sleeping then WakeUp(b) else b;
      w.(force := Add(w.force, f), torque := Add(w.torque, Cross(point, f)))
  }

  /** A force and its opposite at the same point cancel. */
  lemma ApplyForceCancels(b: Body, f: Vec3, point: Vec3)
    ensures var r := ApplyForce(ApplyForce(b, f, point), Neg(f), point);
      r.force == b.force && r.torque == b.torque
  {
  }

  /** `applyLocalForce`: the force and point are rotated into the world
      frame by the body's orientation first. */
  function ApplyLocalForce(b: Body, f: Vec3, point: Vec3, ops: MathOps): (r: Body)
    ensures b.bodyType != DYNAMIC ==> r == b
    ensures b.bodyType == DYNAMIC ==>
      r == ApplyForce(b, ops.rotate(b.quaternion, f), ops.rotate(b.quaternion, point))
  {
    if b.bodyType != DYNAMIC then b
    else ApplyForce(b, ops.rotate(b.quaternion, f), ops.rotate(b.quaternion, point))
  }

  /** `applyTorque`: adds to `torque` on a dynamic body, waking it. */
  function ApplyTorque(b: Body, t: Vec3): (r: Body)
    ensures b.bodyType != DYNAMIC ==> r == b
    ensures b.bodyType == DYNAMIC ==>
      r.torque == Add(b.torque, t) && r.force == b.force &&
      r.sleepState == (if b.sleepState == Sleeping then Awake else b.sleepState) &&
      r.wakeUpAfterNarrowphase == (if b.sleepState == Sleeping then false else b.wakeUpAfterNarrowphase)
    ensures b.bodyType == DYNAMIC ==>
      r.(torque := b.torque, sleepState := b.sleepState,
         wakeUpAfterNarrowphase := b.wakeUpAfterNarrowphase) == b
  {
    if b.bodyType != DYNAMIC then b
    else
      var w := if b.sleepState == Sleeping then WakeUp(b) else b;
      w.(torque := Add(w.torque, t))
  }

  /** A torque through the centre is a force at the origin point with no
      linear part: both change `torque` alike. */
  lemma TorqueIsPureMoment(b: Body, f: Vec3, point: Vec3)
    ensures ApplyTorque(b, Cross(point, f)).torque == ApplyForce(b, f, point).torque
  {
  }

  /** `applyImpulse(impulse, relativePoint)`: on a dynamic body, the
      velocity gains invMass * impulse and the angular velocity gains
      invInertiaWorld (relativePoint x impulse). */
  function ApplyImpulse(b: Body, impulse: Vec3, point: Vec3): (r: Body)
    ensures b.bodyType != DYNAMIC ==> r == b
    ensures b.bodyType == DYNAMIC ==>
      r.velocity == Add(b.velocity, Scale(b.invMass, impulse)) &&
      r.angularVelocity == Add(b.angularVelocity, MatVec(b.invInertiaWorld, Cross(point, impulse))) &&
      r.sleepState == (if b.sleepState == Sleeping then Awake else b.sleepState) &&
      r.wakeUpAfterNarrowphase == (if b.sleepState == Sleeping then false else b.wakeUpAfterNarrowphase)
    ensures b.bodyType == DYNAMIC ==>
      r.(velocity := b.velocity, angularVelocity := b.angularVelocity, sleepState := b.sleepState,
         wakeUpAfterNarrowphase := b.wakeUpAfterNarrowphase) == b
  {
    if b.bodyType != DYNAMIC then b
    else
      var w := if b.sleepState == Sleeping then WakeUp(b) else b;
      w.(velocity := Add(w.velocity, Scale(w.invMass, impulse)),
         angularVelocity := Add(w.angularVelocity, MatVec(w.invInertiaWorld, Cross(point, impulse))))
  }

  /** An impulse changes the momentum of a dynamic body of positive mass by
      exactly the impulse. */
  lemma ImpulseChangesMomentum(b: Body, impulse: Vec3, point: Vec3)
    requires b.bodyType == DYNAMIC && b.mass > 0.0 && b.invMass * b.mass == 1.0
    ensures Scale(b.mass, Sub(ApplyImpulse(b, impulse, point).velocity, b.velocity)) == impulse
  {
    var dv := Sub(ApplyImpulse(b, impulse, point).velocity, b.velocity);
    assert dv == Scale(b.invMass, impulse);
    assert b.mass * (b.invMass * impulse.x) == (b.mass * b.invMass) * impulse.x;
    assert b.mass * (b.invMass * impulse.y) == (b.mass * b.invMass) * impulse.y;
    assert b.mass * (b.invMass * impulse.z) == (b.mass * b.invMass) * impulse.z;
  }

  /** `applyLocalImpulse`: impulse and point rotated into the world frame. */
  function ApplyLocalImpulse(b: Body, impulse: Vec3, point: Vec3, ops: MathOps): (r: Body)
    ensures b.bodyType != DYNAMIC ==> r == b
    ensures b.bodyType == DYNAMIC ==>
      r == ApplyImpulse(b, ops.rotate(b.quaternion, impulse), ops.rotate(b.quaternion, point))
  {
    if b.bodyType != DYNAMIC then b
    else ApplyImpulse(b, ops.rotate(b.quaternion, impulse), ops.rotate(b.quaternion, point))
  }

  /** The world bounds of shape i at its world pose. */
  function ShapeWorldAabb(b: Body, env: Env, i: nat): Aabb
    requires Aligned(b) && i < |b.shapes|
  {
    var position := Add(env.ops.rotate(b.quaternion, b.shapeOffsets[i]), b.position);
    var orientation := env.ops.mult(b.quaternion, b.shapeOrientations[i]);
    env.shapeAabb(b.shapes[i], position, orientation)
  }

  /** The bounds of the first n shapes: a copy of the first, extended by
      each later one. */
  function ShapesAabb(b: Body, env: Env, n: nat): (r: Aabb)
    requires Aligned(b) && 1 <= n <= |b.shapes|
    ensures forall i :: 0 <= i < n ==> Contains(r, ShapeWorldAabb(b, env, i))
    ensures forall c :: (forall i :: 0 <= i < n ==> Contains(c, ShapeWorldAabb(b, env, i))) ==> Contains(c, r)
  {
    if n == 1 then ShapeWorldAabb(b, env, 0)
    else Union(ShapesAabb(b, env, n - 1), ShapeWorldAabb(b, env, n - 1))
  }

  /** `updateAABB`: the smallest box holding every shape's world box; with
      no shapes the old box is kept. */
  function UpdateAabb(b: Body, env: Env): (r: Body)
    requires Aligned(b)
    ensures !r.aabbNeedsUpdate
    ensures |b.shapes| == 0 ==> r.aabb == b.aabb
    ensures forall i :: 0 <= i < |b.shapes| ==> Contains(r.aabb, ShapeWorldAabb(b, env, i))
    ensures r.(aabb := b.aabb, aabbNeedsUpdate := b.aabbNeedsUpdate) == b
  {
    var box := if |b.shapes| == 0 then b.aabb else ShapesAabb(b, env, |b.shapes|);
    b.(aabb := box, aabbNeedsUpdate := false)
  }

  /** How far shape i reaches from the centre: its offset length plus its
      bounding radius. */
  function Reach(b: Body, ops: MathOps, i: nat): real
    requires Aligned(b) && i < |b.shapes|
  {
    ops.sqrt(NormSq(b.shapeOffsets[i])) + b.shapes[i].boundingSphereRadius
  }

  /** The largest reach of the first n shapes, and 0 if none is positive. */
  function MaxReach(b: Body, ops: MathOps, n: nat): (r: real)
    requires Aligned(b) && n <= |b.shapes|
    ensures r >= 0.0
    ensures forall i :: 0 <= i < n ==> Reach(b, ops, i) <= r
    ensures r == 0.0 || exists i :: 0 <= i < n && Reach(b, ops, i) == r
  {
    if n == 0 then 0.0
    else
      var rest := MaxReach(b, ops, n - 1);
      if Reach(b, ops, n - 1) > rest then Reach(b, ops, n - 1) else rest
  }

  /** `updateBoundingRadius`: the largest reach of a shape. */
  function UpdateBoundingRadius(b: Body, ops: MathOps): (r: Body)
    requires Aligned(b)
    ensures r.boundingRadius >= 0.0
    ensures forall i :: 0 <= i < |b.shapes| ==> Reach(b, ops, i) <= r.boundingRadius
    ensures r.boundingRadius == 0.0 || exists i :: 0 <= i < |b.shapes| && Reach(b, ops, i) == r.boundingRadius
    ensures r.(boundingRadius := b.boundingRadius) == b
  {
    b.(boundingRadius := MaxReach(b, ops, |b.shapes|))
  }

  /** `updateInertiaWorld(force)`: an isotropic inverse inertia is left as
      it is unless forced; otherwise it is rotated into the world frame. */
  function UpdateInertiaWorld(b: Body, force: bool, ops: MathOps): (r: Body)
    ensures r.(invInertiaWorld := b.invInertiaWorld) == b
    ensures b.invInertia.x == b.invInertia.y == b.invInertia.z && !force ==> r == b
    ensures !(b.invInertia.x == b.invInertia.y == b.invInertia.z && !force) ==>
      r.invInertiaWorld == ops.inertiaWorld(b.quaternion, b.invInertia)
  {
    if b.invInertia.x == b.invInertia.y == b.invInertia.z && !force then b
    else b.(invInertiaWorld := ops.inertiaWorld(b.quaternion, b.invInertia))
  }

  /** The inverse of one principal moment: 0 for a non-positive moment or a
      body with fixed rotation. */
  function InverseMoment(moment: real, fixed: bool): (inv: real)
    ensures moment > 0.0 && !fixed ==> inv * moment == 1.0
    ensures !(moment > 0.0 && !fixed) ==> inv == 0.0
  {
    if moment > 0.0 && !fixed then 1.0 / moment else 0.0
  }

  /** `updateMassProperties`: the inverse mass, the inertia of the box with
      the half extents of the body's bounds, its inverse, and the world
      inverse inertia. */
  function UpdateMassProperties(b: Body, env: Env): (r: Body)
    requires Aligned(b)
    ensures Aligned(r) && r.shapes == b.shapes
    ensures r.mass == b.mass && r.invMass == InverseMass(b.mass)
    ensures r.aabb == UpdateAabb(b, env).aabb && !r.aabbNeedsUpdate
    ensures r.inertia == Box.CalculateInertia(Scale(0.5, Sub(r.aabb.upper, r.aabb.lower)), b.mass)
    ensures r.invInertia.x == InverseMoment(r.inertia.x, b.fixedRotation)
    ensures r.invInertia.y == InverseMoment(r.inertia.y, b.fixedRotation)
    ensures r.invInertia.z == InverseMoment(r.inertia.z, b.fixedRotation)
    ensures r.invInertiaWorld == env.ops.inertiaWorld(b.quaternion, r.invInertia)
    ensures SameState(r, b)
  {
    var withBox := UpdateAabb(b, env).(invMass := InverseMass(b.mass));
    var box := withBox.aabb;
    var half := Vec3((box.upper.x - box.lower.x) / 2.0, (box.upper.y - box.lower.y) / 2.0, (box.upper.z - box.lower.z) / 2.0);
    var inertia := Box.CalculateInertia(half, b.mass);
    var inv := Vec3(InverseMoment(inertia.x, b.fixedRotation), InverseMoment(inertia.y, b.fixedRotation),
                    InverseMoment(inertia.z, b.fixedRotation));
    UpdateInertiaWorld(withBox.(inertia := inertia, invInertia := inv), true, env.ops)
  }

  /** `addShape(shape, offset, orientation)`: appends the shape with its
      offset (zero if missing) and orientation (identity if missing),
      recomputes the mass properties and the bounding radius, flags the
      bounds for update and points the shape at the body. Returns the body
      and the shape. */
  function AddShape(b: Body, shape: Shape.Shape, offset: Option<Vec3>, orientation: Option<Quat>, env: Env): (r: (Body, Shape.Shape))
    requires Aligned(b)
    ensures Aligned(r.0) && r.0.aabbNeedsUpdate
    ensures r.1 == shape.(body := Some(b.id))
    ensures r.0.shapes == b.shapes + [r.1]
    ensures r.0.shapeOffsets == b.shapeOffsets + [if offset.Some? then offset.value else Zero]
    ensures r.0.shapeOrientations == b.shapeOrientations + [if orientation.Some? then orientation.value else Identity]
    ensures SameState(r.0, b) && r.0.invMass == InverseMass(b.mass)
  {
    var attached := shape.(body := Some(b.id));
    var grown := b.(shapes := b.shapes + [attached],
                    shapeOffsets := b.shapeOffsets + [Or(offset, Zero)],
                    shapeOrientations := b.shapeOrientations + [Or(orientation, Identity)]);
    var updated := UpdateBoundingRadius(UpdateMassProperties(grown, env), env.ops);
    (updated.(aabbNeedsUpdate := true), attached)
  }

  /** The position of the first shape with the given id, as `indexOf`
      finds it. */
  function IndexOf(shapes: seq<Shape.Shape>, id: int): (r: Option<nat>)
    ensures r.None? <==> forall k :: 0 <= k < |shapes| ==> shapes[k].id != id
    ensures r.Some? ==> r.value < |shapes| && shapes[r.value].id == id
    ensures r.Some? ==> forall k :: 0 <= k < r.value ==> shapes[k].id != id
  {
    if |shapes| == 0 then None
    else if shapes[0].id == id then Some(0)
    else
      match IndexOf(shapes[1..], id)
      case None => None
      case Some(k) => Some(k + 1)
  }

  function RemoveAt<T>(s: seq<T>, k: nat): (r: seq<T>)
    requires k < |s|
    ensures |r| == |s| - 1
    ensures forall j :: 0 <= j < k ==> r[j] == s[j]
    ensures forall j :: k <= j < |r| ==> r[j] == s[j + 1]
  {
    s[..k] + s[k + 1..]
  }

  /** `removeShape(shape)`: a shape the body does not hold changes nothing
      (the source only warns). Otherwise its entry is spliced out of all
      three arrays, the mass properties and bounding radius are
      recomputed, the bounds are flagged and the shape is detached. */
  function RemoveShape(b: Body, shape: Shape.Shape, env: Env): (r: (Body, Shape.Shape))
    requires Aligned(b)
    ensures Aligned(r.0)
    ensures IndexOf(b.shapes, shape.id).None? ==> r == (b, shape)
    ensures IndexOf(b.shapes, shape.id).Some? ==>
      var k := IndexOf(b.shapes, shape.id).value;
      r.0.shapes == RemoveAt(b.shapes, k) && r.0.shapeOffsets == RemoveAt(b.shapeOffsets, k) &&
      r.0.shapeOrientations == RemoveAt(b.shapeOrientations, k) &&
      r.0.aabbNeedsUpdate && r.1 == shape.(body := None)
    ensures SameState(r.0, b)
  {
    match IndexOf(b.shapes, shape.id)
    case None => (b, shape)
    case Some(k) =>
      var shrunk := b.(shapes := RemoveAt(b.shapes, k), shapeOffsets := RemoveAt(b.shapeOffsets, k),
                       shapeOrientations := RemoveAt(b.shapeOrientations, k));
      var updated := UpdateBoundingRadius(UpdateMassProperties(shrunk, env), env.ops);
      (updated.(aabbNeedsUpdate := true), shape.(body := None))
  }

  /** Removing a shape just added (one the body did not hold) restores the
      three shape arrays and detaches the shape again. */
  lemma AddRemoveShape(b: Body, shape: Shape.Shape, offset: Option<Vec3>, orientation: Option<Quat>, env: Env)
    requires Aligned(b)
    requires IndexOf(b.shapes, shape.id).None?
    ensures var (added, attached) := AddShape(b, shape, offset, orientation, env);
      var (removed, detached) := RemoveShape(added, attached, env);
      removed.shapes == b.shapes && removed.shapeOffsets == b.shapeOffsets &&
      removed.shapeOrientations == b.shapeOrientations && detached == shape.(body := None)
  {
    var (added, attached) := AddShape(b, shape, offset, orientation, env);
    var n := |b.shapes|;
    assert IndexOf(added.shapes, attached.id) == Some(n);
    assert added.shapes[..n] == b.shapes;
    assert added.shapeOffsets[..n] == b.shapeOffsets;
    assert added.shapeOrientations[..n] == b.shapeOrientations;
  }

  /** `getVelocityAtWorldPoint`: v + w x (p - x). */
  function GetVelocityAtWorldPoint(b: Body, p: Vec3): (v: Vec3)
    ensures v == Add(b.velocity, Cross(b.angularVelocity, Sub(p, b.position)))
  {
    Add(b.velocity, Cross(b.angularVelocity, Sub(p, b.position)))
  }

  /** The centre of mass moves at the body's velocity, and a body that does
      not spin moves every point at that velocity. */
  lemma VelocityAtCentre(b: Body, p: Vec3)
    ensures GetVelocityAtWorldPoint(b, b.position) == b.velocity
    ensures b.angularVelocity == Zero ==> GetVelocityAtWorldPoint(b, p) == b.velocity
  {
  }

  /** `vectorToWorldFrame`: a body-frame direction rotated by the body's
      orientation. */
  function VectorToWorldFrame(b: Body, v: Vec3, ops: MathOps): Vec3
  {
    ops.rotate(b.quaternion, v)
  }

  /** `vectorToLocalFrame`: a world direction rotated by the conjugate of
      the body's orientation. */
  function VectorToLocalFrame(b: Body, v: Vec3, ops: MathOps): Vec3
  {
    ops.rotate(Conjugate(b.quaternion), v)
  }

  /** `pointToWorldFrame`: rotated, then moved to the body's centre. */
  function PointToWorldFrame(b: Body, p: Vec3, ops: MathOps): Vec3
  {
    Add(VectorToWorldFrame(b, p, ops), b.position)
  }

  /** `pointToLocalFrame`: moved relative to the body's centre, then
      rotated back. */
  function PointToLocalFrame(b: Body, p: Vec3, ops: MathOps): Vec3
  {
    VectorToLocalFrame(b, Sub(p, b.position), ops)
  }

  /** Rotation by the conjugate undone by rotation by the orientation. */
  ghost predicate UndoesConjugate(ops: MathOps, q: Quat)
  {
    forall v: Vec3 :: ops.rotate(q, ops.rotate(Conjugate(q), v)) == v
  }

  /** Where rotating by the orientation undoes rotating by its conjugate
      (a unit quaternion), taking a point or a direction into the body
      frame and back gives it back; at the centre the local point is the
      rotation of zero. */
  lemma LocalFrameRoundTrip(b: Body, p: Vec3, ops: MathOps)
    requires UndoesConjugate(ops, b.quaternion)
    ensures PointToWorldFrame(b, PointToLocalFrame(b, p, ops), ops) == p
    ensures VectorToWorldFrame(b, VectorToLocalFrame(b, p, ops), ops) == p
  {
    var local := PointToLocalFrame(b, p, ops);
    assert VectorToWorldFrame(b, local, ops) == Sub(p, b.position);
  }

  /** `integrate(dt, quatNormalize, quatNormalizeFast)`: saves the pose; a
      body that is neither dynamic nor kinematic, or is sleeping, stops
      there. Others take the semi-implicit Euler step: the velocities take
      the force and torque, then the position takes the new velocity, the
      orientation is integrated and the bounds are flagged. */
  function Integrate(b: Body, dt: real, quatNormalize: bool, quatNormalizeFast: bool, ops: MathOps): (r: Body)
    ensures r.previousPosition == b.position && r.previousQuaternion == b.quaternion
    ensures !(b.bodyType == DYNAMIC || b.bodyType == KINEMATIC) || b.sleepState == Sleeping ==>
      r == b.(previousPosition := b.position, previousQuaternion := b.quaternion)
    ensures (b.bodyType == DYNAMIC || b.bodyType == KINEMATIC) && b.sleepState != Sleeping ==>
      r.velocity == Add(b.velocity, Scale(b.invMass * dt, Mul(b.force, b.linearFactor))) &&
      r.angularVelocity == Add(b.angularVelocity, Scale(dt, MatVec(b.invInertiaWorld, Mul(b.torque, b.angularFactor)))) &&
      r.position == Add(b.position, Scale(dt, r.velocity)) &&
      r.quaternion == ops.integrate(b.quaternion, r.angularVelocity, dt, b.angularFactor, quatNormalize, quatNormalizeFast) &&
      r.aabbNeedsUpdate
  {
    var saved := b.(previousPosition := b.position, previousQuaternion := b.quaternion);
    if !(b.bodyType == DYNAMIC || b.bodyType == KINEMATIC) || b.sleepState == Sleeping then saved
    else
      var velo := Add(b.velocity, Scale(b.invMass * dt, Mul(b.force, b.linearFactor)));
      var angular := Add(b.angularVelocity, Scale(dt, MatVec(b.invInertiaWorld, Mul(b.torque, b.angularFactor))));
      var pos := Add(b.position, Scale(dt, velo));
      var quat := ops.integrate(b.quaternion, angular, dt, b.angularFactor, quatNormalize, quatNormalizeFast);
      var moved := saved.(velocity := velo, angularVelocity := angular, position := pos, quaternion := quat, aabbNeedsUpdate := true);
      UpdateInertiaWorld(moved, false, ops).(aabbNeedsUpdate := true)
  }

  /** With no force, an integrated body keeps its velocity and moves by
      velocity * dt. */
  lemma IntegrateWithoutForce(b: Body, dt: real, quatNormalize: bool, quatNormalizeFast: bool, ops: MathOps)
    requires (b.bodyType == DYNAMIC || b.bodyType == KINEMATIC) && b.sleepState != Sleeping
    requires b.force == Zero
    ensures var r := Integrate(b, dt, quatNormalize, quatNormalizeFast, ops);
      r.velocity == b.velocity && r.position == Add(b.position, Scale(dt, b.velocity))
  {
  }
}
