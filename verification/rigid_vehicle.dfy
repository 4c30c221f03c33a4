/** The rigid vehicle: a chassis body and one body per wheel, each wheel
    held to the chassis by a hinge and driven by a torque about its axis
    before every step.

    A wheel is named by its position in the wheel lists. The hinges name
    their bodies by position in the vehicle's own body list, the chassis
    first and then the wheels (`Parts`); adding the vehicle to a world
    renames them to the world's positions. Bodies are values: the
    vehicle's operations work on the vehicle's own copies. */
module RigidVehicle {
  import opened Vectors
  import opened Wrappers
  import Body
  import Box
  import Sphere
  import Shape
  import Constraint
  import HingeConstraint
  import ArrayCollisionMatrix
  import World

  datatype Vehicle = Vehicle(
    chassis: Body.Body,
    wheelBodies: seq<Body.Body>,
    wheelAxes: seq<Vec3>,
    wheelForces: seq<real>,
    constraints: seq<Constraint.Constraint>,
    coordinateSystem: Vec3)

  /** The options `init` reads; `None` is a missing entry, or for the
      chassis a falsy one. */
  datatype Options = Options(coordinateSystem: Option<Vec3>, chassisBody: Option<Body.Body>)

  /** The options `addWheel` reads; the documented `isFrontWheel` and
      `direction` are never read. */
  datatype WheelOptions = WheelOptions(body: Option<Body.Body>, position: Option<Vec3>, axis: Option<Vec3>)

  /** The `_id`s Croquet gives the models a call creates: a body and its
      shape when none is passed in, a hinge and the first of its
      equations. */
  datatype NewIds = NewIds(body: int, shape: int, constraint: int, firstEquation: int)

  const DefaultCoordinateSystem: Vec3 := Vec3(1.0, 2.0, 3.0)

  /** The bodies the hinges name: the chassis at 0, wheel i at i + 1. */
  function Parts(v: Vehicle): (r: seq<Body.Body>)
    ensures |r| == |v.wheelBodies| + 1 && r[0] == v.chassis
    ensures forall i :: 0 <= i < |v.wheelBodies| ==> r[i + 1] == v.wheelBodies[i]
  {
    [v.chassis] + v.wheelBodies
  }

  /** A hinge between bodies a and b, every equation of it between the
      same two. */
  predicate Joins(c: Constraint.Constraint, a: nat, b: nat)
  {
    HingeConstraint.Shaped(c) && c.bodyA == a && c.bodyB == b &&
    forall k :: 0 <= k < |c.equations| ==> c.equations[k].bi == a && c.equations[k].bj == b
  }

  /** The wheel lists stay aligned, and hinge i joins the chassis to
      wheel i. The forces are a list of their own: `setWheelForce` can
      make it longer. */
  predicate Valid(v: Vehicle)
  {
    |v.wheelAxes| == |v.wheelBodies| && |v.constraints| == |v.wheelBodies| &&
    forall i :: 0 <= i < |v.constraints| ==> Joins(v.constraints[i], 0, i + 1)
  }

  // Construction.

  /** The chassis `init` creates when none is given: mass 1 and one box
      shape (half extents (5, 0.5, 2)). */
  method DefaultChassis(ids: NewIds, env: Body.Env) returns (b: Body.Body)
    ensures b.id == ids.body && b.mass == 1.0 && b.invMass == 1.0 && b.bodyType == Body.DYNAMIC
    ensures |b.shapes| == 1 && b.shapes[0].shapeType == Shape.BOX && b.shapes[0].id == ids.shape
    ensures b.shapes[0].body == Some(ids.body)
  {
    var box := Box.Init(ids.shape, Vec3(5.0, 0.5, 2.0), env.ops);
    b := Body.Init(ids.body, Body.NoOptions.(mass := Some(1.0), shape := Some(box.base)), env);
  }

  /** The wheel body `addWheel` creates when none is given: mass 1 and one
      sphere shape of radius 1.2. */
  method DefaultWheel(ids: NewIds, env: Body.Env) returns (b: Body.Body)
    ensures b.id == ids.body && b.mass == 1.0 && b.invMass == 1.0 && b.bodyType == Body.DYNAMIC
    ensures |b.shapes| == 1 && b.shapes[0].shapeType == Shape.SPHERE && b.shapes[0].id == ids.shape
    ensures b.shapes[0].boundingSphereRadius == 1.2 && b.shapes[0].body == Some(ids.body)
  {
    var sphere := Sphere.Init(ids.shape, Some(1.2));
    b := Body.Init(ids.body, Body.NoOptions.(mass := Some(1.0), shape := Some(sphere.value.base)), env);
  }

  /** `init`: no wheels, no hinges; the coordinate system (1, 2, 3) unless
      given; the chassis given, or else a new one. */
  method Init(o: Options, ids: NewIds, env: Body.Env) returns (v: Vehicle)
    ensures Valid(v) && v.wheelBodies == [] && v.wheelAxes == [] && v.wheelForces == [] && v.constraints == []
    ensures v.coordinateSystem == Body.Or(o.coordinateSystem, DefaultCoordinateSystem)
    ensures o.chassisBody.Some? ==> v.chassis == o.chassisBody.value
    ensures o.chassisBody.None? ==>
      v.chassis.id == ids.body && v.chassis.mass == 1.0 && |v.chassis.shapes| == 1 &&
      v.chassis.shapes[0].shapeType == Shape.BOX
  {
    var chassis;
    if o.chassisBody.Some? {
      chassis := o.chassisBody.value;
    } else {
      chassis := DefaultChassis(ids, env);
    }
    v := Vehicle(chassis, [], [], [], [], Body.Or(o.coordinateSystem, DefaultCoordinateSystem));
  }

  /** The hinge options `addWheel` passes: the wheel's position as the
      chassis pivot, the wheel's centre as its own, the axis for both, and
      no collisions between the pair. */
  function WheelHinge(position: Vec3, axis: Vec3): HingeConstraint.Options
  {
    HingeConstraint.Options(None, Some(position), Some(Zero), Some(axis), Some(axis), Some(false))
  }

  /** The heart of `addWheel`: the body placed at the position in the
      chassis frame and appended, with force 0 and the axis, then the
      hinge built between the chassis and it, which wakes both. */
  function Attach(v: Vehicle, body: Body.Body, position: Vec3, axis: Vec3, ids: NewIds, ops: MathOps): (u: Vehicle)
    requires Valid(v)
    ensures Valid(u) && |u.wheelBodies| == |v.wheelBodies| + 1
    ensures u.wheelBodies[..|v.wheelBodies|] == v.wheelBodies && u.constraints[..|v.wheelBodies|] == v.constraints
    ensures u.wheelForces == v.wheelForces + [0.0] && u.wheelAxes == v.wheelAxes + [axis]
    ensures u.coordinateSystem == v.coordinateSystem
    ensures u.chassis.sleepState == Body.Awake &&
      u.chassis.(sleepState := v.chassis.sleepState, wakeUpAfterNarrowphase := v.chassis.wakeUpAfterNarrowphase) == v.chassis
    ensures var wheel := u.wheelBodies[|v.wheelBodies|];
      wheel.id == body.id && wheel.sleepState == Body.Awake &&
      wheel.position == Body.PointToWorldFrame(v.chassis, position, ops)
    ensures var hinge := u.constraints[|v.wheelBodies|];
      hinge.id == ids.constraint && !hinge.collideConnected &&
      hinge.kind == Constraint.Hinge(position, Zero, ops.normalize(axis), ops.normalize(axis)) &&
      !hinge.equations[HingeConstraint.Motor].enabled
  {
    AttachedShape(v, body, position, axis, ids, ops);
    AttachedBodies(v, body, position, axis, ids, ops);
    AttachedHinge(v, body, position, axis, ids, ops);
    Attached(v, body, position, axis, ids, ops)
  }

  /** The hinge `addWheel` builds, and the bodies it wakes: the chassis
      (0) and the new wheel, placed in the chassis frame and appended. */
  function WheelJoint(v: Vehicle, body: Body.Body, position: Vec3, axis: Vec3, ids: NewIds, ops: MathOps): (r: Constraint.Built)
    ensures |r.bodies| == |v.wheelBodies| + 2
    ensures r.bodies == Constraint.WakePair(Parts(v) + [body.(position := Body.PointToWorldFrame(v.chassis, position, ops))], 0, |v.wheelBodies| + 1)
  {
    var n := |v.wheelBodies|;
    var placed := body.(position := Body.PointToWorldFrame(v.chassis, position, ops));
    var bodies := Parts(v) + [placed];
    var built := HingeConstraint.Init(ids.constraint, ids.firstEquation, 0, n + 1, WheelHinge(position, axis), bodies, ops);
    assert built.bodies == Constraint.WakePair(bodies, 0, n + 1);
    built
  }

  /** The vehicle after `addWheel`, as `Attach` states it. */
  function Attached(v: Vehicle, body: Body.Body, position: Vec3, axis: Vec3, ids: NewIds, ops: MathOps): (u: Vehicle)
    ensures |u.wheelBodies| == |v.wheelBodies| + 1
  {
    var built := WheelJoint(v, body, position, axis, ids, ops);
    Vehicle(built.bodies[0], built.bodies[1..], v.wheelAxes + [axis], v.wheelForces + [0.0],
            v.constraints + [built.constraint], v.coordinateSystem)
  }

  /** The lists of the vehicle after `addWheel` grow by one at the end and
      stay aligned. */
  lemma AttachedShape(v: Vehicle, body: Body.Body, position: Vec3, axis: Vec3, ids: NewIds, ops: MathOps)
    requires Valid(v)
    ensures var u := Attached(v, body, position, axis, ids, ops);
      Valid(u) && u.constraints[..|v.wheelBodies|] == v.constraints &&
      u.wheelForces == v.wheelForces + [0.0] && u.wheelAxes == v.wheelAxes + [axis] &&
      u.coordinateSystem == v.coordinateSystem
  {
    var n := |v.wheelBodies|;
    var u := Attached(v, body, position, axis, ids, ops);
    var built := WheelJoint(v, body, position, axis, ids, ops);
    assert u.constraints == v.constraints + [built.constraint];
    assert u.constraints[..n] == v.constraints;
    assert Joins(built.constraint, 0, n + 1);
  }

  /** After `addWheel` the old wheels are unchanged, the chassis is awake
      and otherwise unchanged, and the new wheel is the body, placed and
      awake. */
  lemma AttachedBodies(v: Vehicle, body: Body.Body, position: Vec3, axis: Vec3, ids: NewIds, ops: MathOps)
    requires Valid(v)
    ensures var u := Attached(v, body, position, axis, ids, ops);
      u.wheelBodies[..|v.wheelBodies|] == v.wheelBodies &&
      u.chassis.sleepState == Body.Awake &&
      u.chassis.(sleepState := v.chassis.sleepState, wakeUpAfterNarrowphase := v.chassis.wakeUpAfterNarrowphase) == v.chassis &&
      var wheel := u.wheelBodies[|v.wheelBodies|];
      wheel.id == body.id && wheel.sleepState == Body.Awake &&
      wheel.position == Body.PointToWorldFrame(v.chassis, position, ops)
  {
    var n := |v.wheelBodies|;
    var placed := body.(position := Body.PointToWorldFrame(v.chassis, position, ops));
    var built := WheelJoint(v, body, position, axis, ids, ops);
    WokenWheels(v, placed, built.bodies);
    assert (Parts(v) + [placed])[0] == v.chassis;
    assert (Parts(v) + [placed])[n + 1] == placed;
    assert built.bodies[1..][n] == built.bodies[n + 1];
  }

  /** The hinge `addWheel` adds: its id, not colliding, pivots at the
      position and the origin, both axes the normalised axis, and the
      motor off. */
  lemma AttachedHinge(v: Vehicle, body: Body.Body, position: Vec3, axis: Vec3, ids: NewIds, ops: MathOps)
    requires Valid(v)
    ensures var hinge := Attached(v, body, position, axis, ids, ops).constraints[|v.wheelBodies|];
      hinge.id == ids.constraint && !hinge.collideConnected &&
      hinge.kind == Constraint.Hinge(position, Zero, ops.normalize(axis), ops.normalize(axis)) &&
      !hinge.equations[HingeConstraint.Motor].enabled
  {
    var u := Attached(v, body, position, axis, ids, ops);
    var built := WheelJoint(v, body, position, axis, ids, ops);
    assert u.constraints[|v.wheelBodies|] == built.constraint;
  }

  /** Waking the chassis and the new wheel leaves the other wheels as they
      were. */
  lemma WokenWheels(v: Vehicle, placed: Body.Body, woken: seq<Body.Body>)
    requires woken == Constraint.WakePair(Parts(v) + [placed], 0, |v.wheelBodies| + 1)
    ensures |woken| == |v.wheelBodies| + 2
    ensures woken[1..][..|v.wheelBodies|] == v.wheelBodies
  {
    var n := |v.wheelBodies|;
    var bodies := Parts(v) + [placed];
    forall k | 0 <= k < n ensures woken[1..][k] == v.wheelBodies[k] {
      assert woken[1..][k] == woken[k + 1] == bodies[k + 1];
    }
  }

  /** `addWheel`: the wheel body (given, or a new one) goes to the end of
      the wheels, placed at the position (zero unless given) in the
      chassis frame; the force 0 and the axis ((0, 0, 1) unless given) go
      to the ends of their lists; a hinge joins the chassis to the wheel,
      waking both; the result is the new wheel's number. */
  method AddWheel(v: Vehicle, o: WheelOptions, ids: NewIds, env: Body.Env) returns (u: Vehicle, i: nat)
    requires Valid(v)
    ensures Valid(u)
    ensures i == |v.wheelBodies| && |u.wheelBodies| == i + 1
    ensures u.wheelBodies[..i] == v.wheelBodies && u.constraints[..i] == v.constraints
    ensures u.wheelForces == v.wheelForces + [0.0]
    ensures u.wheelAxes == v.wheelAxes + [Body.Or(o.axis, UnitZ)]
    ensures u.coordinateSystem == v.coordinateSystem
    ensures u.chassis.sleepState == Body.Awake &&
      u.chassis.(sleepState := v.chassis.sleepState, wakeUpAfterNarrowphase := v.chassis.wakeUpAfterNarrowphase) == v.chassis
    ensures var wheel := u.wheelBodies[i];
      wheel.id == (if o.body.Some? then o.body.value.id else ids.body) &&
      wheel.position == Body.PointToWorldFrame(v.chassis, Body.Or(o.position, Zero), env.ops) &&
      wheel.sleepState == Body.Awake
    ensures o.body.None? ==> u.wheelBodies[i].mass == 1.0 && |u.wheelBodies[i].shapes| == 1
    ensures var hinge := u.constraints[i]; var axis := env.ops.normalize(Body.Or(o.axis, UnitZ));
      hinge.id == ids.constraint && !hinge.collideConnected &&
      hinge.kind == Constraint.Hinge(Body.Or(o.position, Zero), Zero, axis, axis) &&
      !hinge.equations[HingeConstraint.Motor].enabled
  {
    var body: Body.Body;
    if o.body.Some? {
      body := o.body.value;
    } else {
      body := DefaultWheel(ids, env);
    }
    u := Attach(v, body, Body.Or(o.position, Zero), Body.Or(o.axis, UnitZ), ids, env.ops);
    i := |v.wheelBodies|;
  }

  /** Wheels added one after the other, with the ids each call is given:
      they are numbered in order from the count before, every one with
      force 0, and the earlier wheels keep their bodies and hinges. */
  method AddWheels(v: Vehicle, os: seq<WheelOptions>, ids: seq<NewIds>, env: Body.Env) returns (u: Vehicle, numbers: seq<nat>)
    requires Valid(v) && |ids| == |os|
    ensures Valid(u) && |numbers| == |os| && |u.wheelBodies| == |v.wheelBodies| + |os|
    ensures forall k :: 0 <= k < |os| ==> numbers[k] == |v.wheelBodies| + k
    ensures u.wheelBodies[..|v.wheelBodies|] == v.wheelBodies && u.constraints[..|v.wheelBodies|] == v.constraints
    ensures u.wheelForces == v.wheelForces + seq(|os|, _ => 0.0)
  {
    var n := |v.wheelBodies|;
    u, numbers := v, [];
    var k := 0;
    while k < |os|
      invariant 0 <= k <= |os| && Valid(u) && |numbers| == k && |u.wheelBodies| == n + k
      invariant forall j :: 0 <= j < k ==> numbers[j] == n + j
      invariant u.wheelBodies[..n] == v.wheelBodies && u.constraints[..n] == v.constraints
      invariant u.wheelForces == v.wheelForces + seq(k, _ => 0.0)
    {
      var next, i := AddWheel(u, os[k], ids[k], env);
      assert next.wheelBodies[..n] == next.wheelBodies[..n + k][..n];
      assert next.constraints[..n] == next.constraints[..n + k][..n];
      assert v.wheelForces + seq(k, _ => 0.0) + [0.0] == v.wheelForces + seq(k + 1, _ => 0.0);
      u, numbers, k := next, numbers + [i], k + 1;
    }
  }

  // Wheel forces and torques.

  /** `setWheelForce`: element i of the force list becomes the value. The
      list is a JavaScript array: an index past its end makes it longer,
      the gap holding holes (0 here); a negative index is a property that
      is not an element, and changes nothing the vehicle reads. */
  function SetWheelForce(v: Vehicle, value: real, i: int): (r: Vehicle)
    ensures i < 0 ==> r == v
    ensures 0 <= i ==> |r.wheelForces| == (if i < |v.wheelForces| then |v.wheelForces| else i + 1) && r.wheelForces[i] == value
    ensures forall k :: 0 <= k < |v.wheelForces| && k != i ==> r.wheelForces[k] == v.wheelForces[k]
    ensures forall k :: |v.wheelForces| <= k < |r.wheelForces| && k != i ==> r.wheelForces[k] == 0.0
    ensures r.(wheelForces := v.wheelForces) == v
  {
    if i < 0 then v
    else if i < |v.wheelForces| then v.(wheelForces := v.wheelForces[i := value])
    else v.(wheelForces := v.wheelForces + seq(i - |v.wheelForces|, _ => 0.0) + [value])
  }

  /** The last force set for a wheel is the one it has, and forces set for
      two different wheels do not interfere. */
  lemma WheelForceLastWins(v: Vehicle, a: real, b: real, i: int, j: int)
    ensures SetWheelForce(SetWheelForce(v, a, i), b, i) == SetWheelForce(v, b, i)
    ensures i != j ==> SetWheelForce(SetWheelForce(v, a, i), b, j) == SetWheelForce(SetWheelForce(v, b, j), a, i)
  {
    var f := SetWheelForce(SetWheelForce(v, a, i), b, i).wheelForces;
    var g := SetWheelForce(v, b, i).wheelForces;
    assert |f| == |g|;
    assert forall k :: 0 <= k < |f| ==> f[k] == g[k];
    if i != j && 0 <= i && 0 <= j {
      var p := SetWheelForce(SetWheelForce(v, a, i), b, j).wheelForces;
      var q := SetWheelForce(SetWheelForce(v, b, j), a, i).wheelForces;
      assert |p| == |q|;
      assert forall k :: 0 <= k < |p| ==> p[k] == q[k];
    }
  }

  /** A wheel body with the torque of a force on its axis added: the axis
      scaled by the force, turned into the world frame by the wheel's
      orientation. */
  function Torqued(b: Body.Body, axis: Vec3, value: real, ops: MathOps): (r: Body.Body)
    ensures r.torque == Add(b.torque, Body.VectorToWorldFrame(b, Scale(value, axis), ops))
    ensures r.(torque := b.torque) == b
  {
    b.(torque := Add(b.torque, Body.VectorToWorldFrame(b, Scale(value, axis), ops)))
  }

  /** `applyWheelForce`: the torque of wheel i grows by the force on its
      axis, and nothing else changes; no wheel i throws. */
  function ApplyWheelForce(v: Vehicle, value: real, i: int, ops: MathOps): (r: Result<Vehicle>)
    requires Valid(v)
    ensures r.Ok? <==> 0 <= i < |v.wheelBodies|
    ensures r.Err? ==> r.error == TypeError("Cannot read properties of undefined (reading 'torque')")
    ensures r.Ok? ==>
      Valid(r.value) && |r.value.wheelBodies| == |v.wheelBodies| &&
      r.value.wheelBodies[i].torque == Add(v.wheelBodies[i].torque, Body.VectorToWorldFrame(v.wheelBodies[i], Scale(value, v.wheelAxes[i]), ops)) &&
      r.value.wheelBodies[i].(torque := v.wheelBodies[i].torque) == v.wheelBodies[i] &&
      (forall k :: 0 <= k < |v.wheelBodies| && k != i ==> r.value.wheelBodies[k] == v.wheelBodies[k]) &&
      r.value.(wheelBodies := v.wheelBodies) == v
  {
    if 0 <= i < |v.wheelBodies| then
      Ok(v.(wheelBodies := v.wheelBodies[i := Torqued(v.wheelBodies[i], v.wheelAxes[i], value, ops)]))
    else
      Err(TypeError("Cannot read properties of undefined (reading 'torque')"))
  }

  /** Forces applied to two different wheels give the same vehicle in
      either order. */
  lemma WheelForcesCommute(v: Vehicle, a: real, i: int, b: real, j: int, ops: MathOps)
    requires Valid(v) && 0 <= i < |v.wheelBodies| && 0 <= j < |v.wheelBodies| && i != j
    ensures ApplyWheelForce(ApplyWheelForce(v, a, i, ops).value, b, j, ops) ==
            ApplyWheelForce(ApplyWheelForce(v, b, j, ops).value, a, i, ops)
  {
    var p := ApplyWheelForce(ApplyWheelForce(v, a, i, ops).value, b, j, ops).value;
    var q := ApplyWheelForce(ApplyWheelForce(v, b, j, ops).value, a, i, ops).value;
    assert p.wheelBodies == q.wheelBodies;
  }

  /** The first k forces applied to their wheels, each once: the reference
      the update loop is measured against. */
  function Driven(v: Vehicle, k: nat, ops: MathOps): (r: Vehicle)
    requires Valid(v) && k <= |v.wheelForces| && k <= |v.wheelBodies|
    ensures Valid(r) && |r.wheelBodies| == |v.wheelBodies| && r.(wheelBodies := v.wheelBodies) == v
  {
    v.(wheelBodies := seq(|v.wheelBodies|, i requires 0 <= i < |v.wheelBodies| =>
      if i < k then Torqued(v.wheelBodies[i], v.wheelAxes[i], v.wheelForces[i], ops) else v.wheelBodies[i]))
  }

  /** The loop of `_update` from force k on. */
  function UpdateFrom(v: Vehicle, k: nat, ops: MathOps): (r: Result<Vehicle>)
    requires Valid(v) && k <= |v.wheelForces|
    ensures r.Err? ==> r.error == TypeError("Cannot read properties of undefined (reading 'torque')")
    decreases |v.wheelForces| - k
  {
    if k == |v.wheelForces| then Ok(v)
    else
      var u :- ApplyWheelForce(v, v.wheelForces[k], k, ops);
      UpdateFrom(u, k + 1, ops)
  }

  /** `_update`, the listener the vehicle adds for `preStep`: each force
      applied to the wheel with its number, in order. */
  function Update(v: Vehicle, ops: MathOps): (r: Result<Vehicle>)
    requires Valid(v)
    ensures r.Err? ==> r.error == TypeError("Cannot read properties of undefined (reading 'torque')")
  {
    UpdateFrom(v, 0, ops)
  }

  /** The update applies every force to its own wheel exactly once and
      changes nothing else; it throws exactly when there are more forces
      than wheels. */
  lemma UpdateDrivesEachWheel(v: Vehicle, ops: MathOps)
    requires Valid(v)
    ensures Update(v, ops).Ok? <==> |v.wheelForces| <= |v.wheelBodies|
    ensures Update(v, ops).Ok? ==> Update(v, ops).value == Driven(v, |v.wheelForces|, ops)
  {
    if |v.wheelForces| <= |v.wheelBodies| {
      DrivenFrom(v, 0, ops);
      assert Driven(v, 0, ops).wheelBodies == v.wheelBodies;
      assert Driven(v, 0, ops) == v;
    } else {
      FailsFrom(v, 0, ops);
      assert Driven(v, 0, ops).wheelBodies == v.wheelBodies;
      assert Driven(v, 0, ops) == v;
    }
  }

  /** From the vehicle with the first k forces applied, the loop ends with
      all of them applied. */
  lemma {:induction false} DrivenFrom(v: Vehicle, k: nat, ops: MathOps)
    requires Valid(v) && k <= |v.wheelForces| <= |v.wheelBodies|
    ensures UpdateFrom(Driven(v, k, ops), k, ops) == Ok(Driven(v, |v.wheelForces|, ops))
    decreases |v.wheelForces| - k
  {
    if k < |v.wheelForces| {
      var d := Driven(v, k, ops);
      var next := ApplyWheelForce(d, d.wheelForces[k], k, ops);
      assert next.value.wheelBodies == Driven(v, k + 1, ops).wheelBodies;
      assert next == Ok(Driven(v, k + 1, ops));
      DrivenFrom(v, k + 1, ops);
    }
  }

  /** With more forces than wheels, the loop throws once it passes the
      last wheel. */
  lemma {:induction false} FailsFrom(v: Vehicle, k: nat, ops: MathOps)
    requires Valid(v) && k <= |v.wheelBodies| < |v.wheelForces|
    ensures UpdateFrom(Driven(v, k, ops), k, ops).Err?
    decreases |v.wheelBodies| - k
  {
    if k < |v.wheelBodies| {
      var d := Driven(v, k, ops);
      var next := ApplyWheelForce(d, d.wheelForces[k], k, ops);
      assert next.value.wheelBodies == Driven(v, k + 1, ops).wheelBodies;
      assert next == Ok(Driven(v, k + 1, ops));
      FailsFrom(v, k + 1, ops);
    }
  }

  /** `getWheelSpeed`: the wheel's angular velocity along its axis turned
      into the world frame by the chassis; no wheel i throws. */
  function GetWheelSpeed(v: Vehicle, i: int, ops: MathOps): (r: Result<real>)
    requires Valid(v)
    ensures r.Ok? <==> 0 <= i < |v.wheelBodies|
    ensures r.Err? ==> r.error == TypeError("Cannot read properties of undefined (reading 'angularVelocity')")
  {
    if 0 <= i < |v.wheelBodies| then
      Ok(Dot(v.wheelBodies[i].angularVelocity, Body.VectorToWorldFrame(v.chassis, v.wheelAxes[i], ops)))
    else
      Err(TypeError("Cannot read properties of undefined (reading 'angularVelocity')"))
  }

  /** Wheel i's axis turned into the world frame by the chassis. */
  function WorldAxis(v: Vehicle, i: nat, ops: MathOps): Vec3
    requires Valid(v) && i < |v.wheelBodies|
  {
    Body.VectorToWorldFrame(v.chassis, v.wheelAxes[i], ops)
  }

  /** A wheel turning at rate s about its world axis reads s times the
      squared length of that axis, so s itself for a unit axis. */
  lemma WheelSpeedAlongAxis(v: Vehicle, i: nat, s: real, ops: MathOps)
    requires Valid(v) && i < |v.wheelBodies|
    requires v.wheelBodies[i].angularVelocity == Scale(s, WorldAxis(v, i, ops))
    ensures GetWheelSpeed(v, i, ops).Ok? && GetWheelSpeed(v, i, ops).value == s * NormSq(WorldAxis(v, i, ops))
  {
    ScaledDot(s, WorldAxis(v, i, ops));
  }

  /** A wheel turning about an axis perpendicular to its world axis reads
      0. */
  lemma WheelSpeedAcrossAxis(v: Vehicle, i: nat, ops: MathOps)
    requires Valid(v) && i < |v.wheelBodies|
    requires Dot(v.wheelBodies[i].angularVelocity, WorldAxis(v, i, ops)) == 0.0
    ensures GetWheelSpeed(v, i, ops) == Ok(0.0)
  {
  }

  /** The dot product of s a with a is s times a's squared length. */
  lemma ScaledDot(s: real, a: Vec3)
    ensures Dot(Scale(s, a), a) == s * NormSq(a)
  {
    assert (s * a.x) * a.x == s * (a.x * a.x);
    assert (s * a.y) * a.y == s * (a.y * a.y);
    assert (s * a.z) * a.z == s * (a.z * a.z);
  }

  // Steering and motors.

  /** The hinge's chassis axis for a steering angle with cosine c and sine
      s: the wheel's axis turned about the vertical, its height dropped. */
  function SteeredAxis(axis: Vec3, c: real, s: real): (r: Vec3)
    ensures r.y == 0.0
  {
    Vec3(-c * axis.x + s * axis.z, 0.0, s * axis.x + c * axis.z)
  }

  /** When the cosine and sine are those of one angle, steering keeps the
      length of the axis's horizontal part; at angle 0 it mirrors the x
      part. */
  lemma SteeringKeepsLength(axis: Vec3, c: real, s: real)
    requires c * c + s * s == 1.0
    ensures NormSq(SteeredAxis(axis, c, s)) == axis.x * axis.x + axis.z * axis.z
    ensures SteeredAxis(axis, 1.0, 0.0) == Vec3(-axis.x, 0.0, axis.z)
  {
    var x, z := axis.x, axis.z;
    assert (-c * x + s * z) * (-c * x + s * z) + (s * x + c * z) * (s * x + c * z) ==
           (c * c + s * s) * (x * x) + (c * c + s * s) * (z * z);
  }

  /** A hinge with its chassis axis replaced. */
  function WithAxisA(h: Constraint.Constraint, axisA: Vec3): (r: Constraint.Constraint)
    requires h.kind.Hinge?
    ensures r.kind == Constraint.Hinge(h.kind.pivotA, h.kind.pivotB, axisA, h.kind.axisB)
    ensures r.(kind := h.kind) == h
  {
    h.(kind := Constraint.Hinge(h.kind.pivotA, h.kind.pivotB, axisA, h.kind.axisB))
  }

  /** `setSteeringValue`: hinge i's chassis axis becomes wheel i's axis
      steered by the angle; nothing else changes. No wheel i throws. */
  function SetSteeringValue(v: Vehicle, value: real, i: int, ops: MathOps): (r: Result<Vehicle>)
    requires Valid(v)
    ensures r.Ok? <==> 0 <= i < |v.wheelBodies|
    ensures r.Err? ==> r.error == TypeError("Cannot read properties of undefined (reading 'x')")
    ensures r.Ok? ==>
      Valid(r.value) && |r.value.constraints| == |v.constraints| &&
      r.value.constraints[i].kind.axisA == SteeredAxis(v.wheelAxes[i], ops.cos(value), ops.sin(value)) &&
      r.value.constraints[i].kind.axisB == v.constraints[i].kind.axisB &&
      r.value.constraints[i].(kind := v.constraints[i].kind) == v.constraints[i] &&
      (forall k :: 0 <= k < |v.constraints| && k != i ==> r.value.constraints[k] == v.constraints[k]) &&
      r.value.(constraints := v.constraints) == v
  {
    if 0 <= i < |v.wheelBodies| then
      var h := WithAxisA(v.constraints[i], SteeredAxis(v.wheelAxes[i], ops.cos(value), ops.sin(value)));
      Ok(v.(constraints := v.constraints[i := h]))
    else
      Err(TypeError("Cannot read properties of undefined (reading 'x')"))
  }

  /** Steering reads only the wheel's own axis and the angle: a second
      steering of the same wheel overwrites the first. */
  lemma SteeringOverwrites(v: Vehicle, a: real, b: real, i: nat, ops: MathOps)
    requires Valid(v) && i < |v.wheelBodies|
    ensures SetSteeringValue(SetSteeringValue(v, a, i, ops).value, b, i, ops) == SetSteeringValue(v, b, i, ops)
  {
    var p := SetSteeringValue(SetSteeringValue(v, a, i, ops).value, b, i, ops).value;
    var q := SetSteeringValue(v, b, i, ops).value;
    assert p.constraints == q.constraints;
  }

  /** A hinge change that leaves all but the motor alone keeps the
      joining. */
  lemma MotorKeepsJoins(c: Constraint.Constraint, r: Constraint.Constraint, a: nat, b: nat)
    requires Joins(c, a, b) && HingeConstraint.Shaped(r) && HingeConstraint.SameButMotor(r, c)
    requires r.equations[HingeConstraint.Motor].bi == c.equations[HingeConstraint.Motor].bi
    requires r.equations[HingeConstraint.Motor].bj == c.equations[HingeConstraint.Motor].bj
    ensures Joins(r, a, b)
  {
    assert forall k :: 0 <= k < HingeConstraint.Motor ==> r.equations[k] == r.equations[..HingeConstraint.Motor][k];
  }

  /** `setMotorSpeed` as written: the motor of hinge i is switched on, and
      the speed is stored in a property of the hinge (`motorTargetVelocity`)
      that nothing reads, so the motor keeps the target it had. No hinge i
      throws. */
  function SetMotorSpeedAsWritten(v: Vehicle, value: real, i: int): (r: Result<Vehicle>)
    requires Valid(v)
    ensures r.Ok? <==> 0 <= i < |v.constraints|
    ensures r.Err? ==> r.error == TypeError("Cannot read properties of undefined (reading 'enableMotor')")
    ensures r.Ok? ==> Valid(r.value) && r.value.constraints == v.constraints[i := HingeConstraint.EnableMotor(v.constraints[i])]
    ensures r.Ok? ==> r.value.(constraints := v.constraints) == v
  {
    if 0 <= i < |v.constraints| then
      var h := HingeConstraint.EnableMotor(v.constraints[i]);
      MotorKeepsJoins(v.constraints[i], h, 0, i + 1);
      Ok(v.(constraints := v.constraints[i := h]))
    else
      Err(TypeError("Cannot read properties of undefined (reading 'enableMotor')"))
  }

  /** `setMotorSpeed` as intended: the motor of hinge i switched on with
      the value as its target velocity, through the hinge's own
      `setMotorSpeed`. */
  function SetMotorSpeed(v: Vehicle, value: real, i: int): (r: Result<Vehicle>)
    requires Valid(v)
    ensures r.Ok? <==> 0 <= i < |v.constraints|
    ensures r.Err? ==> r.error == TypeError("Cannot read properties of undefined (reading 'enableMotor')")
    ensures r.Ok? ==>
      Valid(r.value) && |r.value.constraints| == |v.constraints| &&
      r.value.constraints[i].equations[HingeConstraint.Motor].enabled &&
      r.value.constraints[i].equations[HingeConstraint.Motor].kind.targetVelocity == value &&
      (forall k :: 0 <= k < |v.constraints| && k != i ==> r.value.constraints[k] == v.constraints[k]) &&
      r.value.(constraints := v.constraints) == v
  {
    if 0 <= i < |v.constraints| then
      var h := HingeConstraint.SetMotorSpeed(HingeConstraint.EnableMotor(v.constraints[i]), value);
      MotorKeepsJoins(v.constraints[i], HingeConstraint.EnableMotor(v.constraints[i]), 0, i + 1);
      MotorKeepsJoins(HingeConstraint.EnableMotor(v.constraints[i]), h, 0, i + 1);
      Ok(v.(constraints := v.constraints[i := h]))
    else
      Err(TypeError("Cannot read properties of undefined (reading 'enableMotor')"))
  }

  /** The speed asked for is lost as written: after `setMotorSpeed` the
      motor's target is the one it had, whatever the value; the intended
      call sets it. */
  lemma MotorSpeedLost(v: Vehicle, value: real, i: nat)
    requires Valid(v) && i < |v.constraints|
    ensures var h := SetMotorSpeedAsWritten(v, value, i).value.constraints[i].equations[HingeConstraint.Motor];
      h.kind.targetVelocity == v.constraints[i].equations[HingeConstraint.Motor].kind.targetVelocity
    ensures SetMotorSpeed(v, value, i).value.constraints[i].equations[HingeConstraint.Motor].kind.targetVelocity == value
  {
  }

  /** `disableMotor`: the motor of hinge i switched off, nothing else
      changed. No hinge i throws. */
  function DisableMotor(v: Vehicle, i: int): (r: Result<Vehicle>)
    requires Valid(v)
    ensures r.Ok? <==> 0 <= i < |v.constraints|
    ensures r.Err? ==> r.error == TypeError("Cannot read properties of undefined (reading 'disableMotor')")
    ensures r.Ok? ==>
      Valid(r.value) && |r.value.constraints| == |v.constraints| &&
      !r.value.constraints[i].equations[HingeConstraint.Motor].enabled &&
      (forall k :: 0 <= k < |v.constraints| && k != i ==> r.value.constraints[k] == v.constraints[k]) &&
      r.value.(constraints := v.constraints) == v
  {
    if 0 <= i < |v.constraints| then
      var h := HingeConstraint.DisableMotor(v.constraints[i]);
      MotorKeepsJoins(v.constraints[i], h, 0, i + 1);
      Ok(v.(constraints := v.constraints[i := h]))
    else
      Err(TypeError("Cannot read properties of undefined (reading 'disableMotor')"))
  }

  /** Switching a motor off after setting its speed leaves the speed set
      and the motor off: the two calls touch different parts of the
      motor. */
  lemma DisableKeepsSpeed(v: Vehicle, value: real, i: nat)
    requires Valid(v) && i < |v.constraints|
    ensures var u := DisableMotor(SetMotorSpeed(v, value, i).value, i).value;
      var m := u.constraints[i].equations[HingeConstraint.Motor];
      !m.enabled && m.kind.targetVelocity == value
  {
  }

  // Adding to and removing from a world.

  /** The ids of a list of bodies, in order. */
  function Ids(bs: seq<Body.Body>): (r: seq<int>)
    ensures |r| == |bs| && forall i :: 0 <= i < |bs| ==> r[i] == bs[i].id
  {
    seq(|bs|, i requires 0 <= i < |bs| => bs[i].id)
  }

  /** No id twice. */
  predicate Distinct(ids: seq<int>)
  {
    forall i, j :: 0 <= i < j < |ids| ==> ids[i] != ids[j]
  }

  /** The bodies `addToWorld` and `removeFromWorld` walk: the wheels, then
      the chassis. */
  function Members(v: Vehicle): (r: seq<Body.Body>)
    ensures |r| == |v.wheelBodies| + 1 && r[|v.wheelBodies|] == v.chassis
    ensures forall i :: 0 <= i < |v.wheelBodies| ==> r[i] == v.wheelBodies[i]
  {
    v.wheelBodies + [v.chassis]
  }

  /** `world.addBody` for each body in turn. */
  function AddBodies(w: World.World, bs: seq<Body.Body>): (r: Result<World.World>)
    requires ArrayCollisionMatrix.Valid(w.collisionMatrix)
    ensures r.Err? ==> r.error.RangeError?
    ensures r.Ok? ==>
      ArrayCollisionMatrix.Valid(r.value.collisionMatrix) &&
      |r.value.bodies| >= |w.bodies| && r.value.bodies[..|w.bodies|] == w.bodies &&
      r.value.constraints == w.constraints &&
      forall i :: 0 <= i < |bs| ==> World.IndexOfBody(r.value.bodies, bs[i].id).Some?
    decreases |bs|
  {
    if |bs| == 0 then Ok(w)
    else
      var w1 :- World.AddBody(w, bs[0]);
      var r := AddBodies(w1, bs[1..]);
      if r.Ok? then
        assert forall i :: 1 <= i < |bs| ==> bs[i] == bs[1..][i - 1];
        assert World.IndexOfBody(w1.bodies, bs[0].id).Some?;
        PrefixFinds(r.value.bodies, w1.bodies, bs[0].id);
        PrefixOfPrefix(r.value.bodies, w1.bodies, w.bodies);
        r
      else r
  }

  /** A body found in a prefix is found in the whole list. */
  lemma PrefixFinds(bodies: seq<Body.Body>, pre: seq<Body.Body>, id: int)
    requires |pre| <= |bodies| && bodies[..|pre|] == pre && World.IndexOfBody(pre, id).Some?
    ensures World.IndexOfBody(bodies, id).Some?
  {
    var k := World.IndexOfBody(pre, id).value;
    assert bodies[k] == bodies[..|pre|][k];
  }

  /** A prefix of a prefix is a prefix. */
  lemma PrefixOfPrefix(bodies: seq<Body.Body>, mid: seq<Body.Body>, pre: seq<Body.Body>)
    requires |mid| <= |bodies| && bodies[..|mid|] == mid && |pre| <= |mid| && mid[..|pre|] == pre
    ensures bodies[..|pre|] == pre
  {
    assert bodies[..|pre|] == bodies[..|mid|][..|pre|];
  }

  /** `world.removeBody` for each id in turn. */
  function RemoveBodies(w: World.World, ids: seq<int>): (r: Result<World.World>)
    requires ArrayCollisionMatrix.Valid(w.collisionMatrix)
    ensures r.Err? ==> r.error.RangeError?
    ensures r.Ok? ==> ArrayCollisionMatrix.Valid(r.value.collisionMatrix) && r.value.constraints == w.constraints
    decreases |ids|
  {
    if |ids| == 0 then Ok(w)
    else
      var w1 :- World.RemoveBody(w, ids[0]);
      RemoveBodies(w1, ids[1..])
  }

  /** A hinge renamed to name bodies a and b of another list. */
  function Rebase(c: Constraint.Constraint, a: nat, b: nat): (r: Constraint.Constraint)
    ensures r.id == c.id && r.kind == c.kind && r.collideConnected == c.collideConnected
    ensures Joins(c, c.bodyA, c.bodyB) ==> Joins(r, a, b)
  {
    c.(bodyA := a, bodyB := b,
       equations := seq(|c.equations|, k requires 0 <= k < |c.equations| => c.equations[k].(bi := a, bj := b)))
  }

  /** The hinges of the vehicle, renamed to the positions of their bodies
      in the world's list. */
  function Placed(v: Vehicle, w: World.World): (r: seq<Constraint.Constraint>)
    requires Valid(v)
    requires forall i :: 0 <= i < |v.wheelBodies| ==> World.IndexOfBody(w.bodies, v.wheelBodies[i].id).Some?
    requires World.IndexOfBody(w.bodies, v.chassis.id).Some?
    ensures |r| == |v.constraints|
    ensures forall i :: 0 <= i < |r| ==>
      Constraint.Valid(r[i], w.bodies) && r[i].id == v.constraints[i].id && r[i].kind == v.constraints[i].kind &&
      w.bodies[r[i].bodyA].id == v.chassis.id && w.bodies[r[i].bodyB].id == v.wheelBodies[i].id &&
      Joins(r[i], r[i].bodyA, r[i].bodyB)
  {
    var a := World.IndexOfBody(w.bodies, v.chassis.id).value;
    seq(|v.constraints|, i requires 0 <= i < |v.constraints| =>
      Rebase(v.constraints[i], a, World.IndexOfBody(w.bodies, v.wheelBodies[i].id).value))
  }

  /** `world.addConstraint` for each hinge in turn. */
  function AddConstraints(w: World.World, cs: seq<Constraint.Constraint>): (r: World.World)
    ensures r.constraints == w.constraints + cs && r.(constraints := w.constraints) == w
    decreases |cs|
  {
    if |cs| == 0 then w
    else
      var r := AddConstraints(World.AddConstraint(w, cs[0]), cs[1..]);
      assert w.constraints + cs == w.constraints + [cs[0]] + cs[1..];
      r
  }

  /** `world.removeConstraint` for each id in turn. */
  function RemoveConstraints(w: World.World, ids: seq<int>): (r: World.World)
    ensures r.(constraints := w.constraints) == w
    decreases |ids|
  {
    if |ids| == 0 then w
    else RemoveConstraints(World.RemoveConstraint(w, ids[0]), ids[1..])
  }

  /** The ids of a list of constraints, in order. */
  function ConstraintIds(cs: seq<Constraint.Constraint>): (r: seq<int>)
    ensures |r| == |cs| && forall i :: 0 <= i < |cs| ==> r[i] == cs[i].id
  {
    seq(|cs|, i requires 0 <= i < |cs| => cs[i].id)
  }

  /** The second half of `addToWorld`: each hinge added to a world that
      holds the vehicle's bodies, naming their positions there. */
  function AddHinges(v: Vehicle, w: World.World): (u: World.World)
    requires Valid(v)
    requires forall i :: 0 <= i < |v.wheelBodies| ==> World.IndexOfBody(w.bodies, v.wheelBodies[i].id).Some?
    requires World.IndexOfBody(w.bodies, v.chassis.id).Some?
    ensures u.(constraints := w.constraints) == w
    ensures |u.constraints| == |w.constraints| + |v.constraints| && u.constraints[..|w.constraints|] == w.constraints
    ensures ConstraintIds(u.constraints[|w.constraints|..]) == ConstraintIds(v.constraints)
    ensures forall i :: 0 <= i < |v.constraints| ==>
      var c := u.constraints[|w.constraints| + i];
      Constraint.Valid(c, u.bodies) && c.id == v.constraints[i].id && c.kind == v.constraints[i].kind &&
      u.bodies[c.bodyA].id == v.chassis.id && u.bodies[c.bodyB].id == v.wheelBodies[i].id
  {
    var placed := Placed(v, w);
    var u := AddConstraints(w, placed);
    assert u.constraints[..|w.constraints|] == w.constraints;
    assert u.constraints[|w.constraints|..] == placed;
    u
  }

  /** `addToWorld`, corrected: the wheels and then the chassis added as
      bodies, then each hinge, naming the world's positions of its two
      bodies. The closing `world.addEventListener` call throws as written
      (`AddToWorldAsWritten`) and is dropped here; the listener would run
      `Update`. */
  function AddToWorld(v: Vehicle, w: World.World): (r: Result<World.World>)
    requires Valid(v) && ArrayCollisionMatrix.Valid(w.collisionMatrix)
    ensures r.Err? ==> r.error.RangeError?
    ensures r.Ok? <==> AddBodies(w, Members(v)).Ok?
    ensures r.Ok? ==> r.value.(constraints := w.constraints) == AddBodies(w, Members(v)).value
    ensures r.Ok? ==>
      var u := r.value; var m := |w.constraints|;
      ArrayCollisionMatrix.Valid(u.collisionMatrix) &&
      |u.bodies| >= |w.bodies| && u.bodies[..|w.bodies|] == w.bodies &&
      World.IndexOfBody(u.bodies, v.chassis.id).Some? &&
      (forall i :: 0 <= i < |v.wheelBodies| ==> World.IndexOfBody(u.bodies, v.wheelBodies[i].id).Some?) &&
      |u.constraints| == m + |v.constraints| && u.constraints[..m] == w.constraints &&
      ConstraintIds(u.constraints[m..]) == ConstraintIds(v.constraints) &&
      forall i :: 0 <= i < |v.constraints| ==>
        var c := u.constraints[m + i];
        Constraint.Valid(c, u.bodies) && c.id == v.constraints[i].id && c.kind == v.constraints[i].kind &&
        u.bodies[c.bodyA].id == v.chassis.id && u.bodies[c.bodyB].id == v.wheelBodies[i].id
  {
    var w1 :- AddBodies(w, Members(v));
    assert forall i :: 0 <= i < |v.wheelBodies| ==> Members(v)[i] == v.wheelBodies[i];
    assert Members(v)[|v.wheelBodies|] == v.chassis;
    Ok(AddHinges(v, w1))
  }

  /** `addToWorld` as written: once the bodies and hinges are in, it calls
      `world.addEventListener("preStep", ...)`. The world extends
      `Croquet.Model` rather than `EventTarget` and declares no such method,
      so the call throws a TypeError. (The bodies and hinges already added
      stay in the world; the `Err` carries only the error.) */
  function AddToWorldAsWritten(v: Vehicle, w: World.World): (r: Result<World.World>)
    requires Valid(v) && ArrayCollisionMatrix.Valid(w.collisionMatrix)
    ensures r.Err?
    ensures AddBodies(w, Members(v)).Ok? ==> r == Err(TypeError("world.addEventListener is not a function"))
    ensures AddBodies(w, Members(v)).Err? ==> r.error.RangeError?
  {
    match AddToWorld(v, w)
    case Err(e) => Err(e)
    case Ok(_) => Err(TypeError("world.addEventListener is not a function"))
  }

  /** Wherever the corrected `addToWorld` succeeds, placing the vehicle's
      bodies and hinges in the world, the one as written throws instead. */
  lemma AddToWorldAsWrittenThrows(v: Vehicle, w: World.World)
    requires Valid(v) && ArrayCollisionMatrix.Valid(w.collisionMatrix)
    requires AddToWorld(v, w).Ok?
    ensures World.IndexOfBody(AddToWorld(v, w).value.bodies, v.chassis.id).Some?
    ensures AddToWorldAsWritten(v, w) == Err(TypeError("world.addEventListener is not a function"))
  {
  }

  /** `removeFromWorld`: the wheels and then the chassis removed as
      bodies, then each hinge. */
  function RemoveFromWorld(v: Vehicle, w: World.World): (r: Result<World.World>)
    requires ArrayCollisionMatrix.Valid(w.collisionMatrix)
    ensures r.Err? ==> r.error.RangeError?
  {
    var w1 :- RemoveBodies(w, Ids(Members(v)));
    Ok(RemoveConstraints(w1, ConstraintIds(v.constraints)))
  }

  /** The ids of a list of bodies, as a set. */
  function IdSet(bs: seq<Body.Body>): (r: set<int>)
    ensures forall i :: 0 <= i < |bs| ==> bs[i].id in r
    ensures forall id :: id in r ==> exists i :: 0 <= i < |bs| && bs[i].id == id
  {
    set i | 0 <= i < |bs| :: bs[i].id
  }

  /** The ids of a list from position n on: the id at n, then the rest. */
  lemma IdsCons(s: seq<Body.Body>, n: nat)
    requires n < |s|
    ensures Ids(s[n..]) == [s[n].id] + Ids(s[n + 1..])
  {
    assert s[n..][1..] == s[n + 1..];
  }

  /** A list without its first element keeps its ids distinct, and its id
      set is the first id and the rest's. */
  lemma DistinctTail(bs: seq<Body.Body>)
    requires |bs| > 0 && Distinct(Ids(bs))
    ensures Distinct(Ids(bs[1..]))
    ensures IdSet(bs) == {bs[0].id} + IdSet(bs[1..])
    ensures forall j :: 0 <= j < |bs[1..]| ==> bs[1..][j].id != bs[0].id
  {
    forall i, j | 0 <= i < j < |bs[1..]| ensures Ids(bs[1..])[i] != Ids(bs[1..])[j] {
      assert Ids(bs)[i + 1] != Ids(bs)[j + 1];
    }
    forall id | id in IdSet(bs) ensures id in {bs[0].id} + IdSet(bs[1..]) {
      var i :| 0 <= i < |bs| && bs[i].id == id;
      if i > 0 {
        assert bs[1..][i - 1] == bs[i];
      }
    }
    forall j | 0 <= j < |bs[1..]| ensures bs[1..][j].id != bs[0].id {
      assert Ids(bs)[0] != Ids(bs)[j + 1];
    }
  }

  /** Adding a body whose id the indexed world does not hold appends it,
      indexed, and registers its id. */
  lemma AddOneFresh(w: World.World, b: Body.Body)
    requires ArrayCollisionMatrix.Valid(w.collisionMatrix) && World.Indexed(w.bodies) && |w.bodies| < World.MaxBodies
    requires forall k :: 0 <= k < |w.bodies| ==> w.bodies[k].id != b.id
    ensures World.AddBody(w, b).Ok?
    ensures var w1 := World.AddBody(w, b).value;
      ArrayCollisionMatrix.Valid(w1.collisionMatrix) && World.Indexed(w1.bodies) &&
      |w1.bodies| == |w.bodies| + 1 && w1.bodies[..|w.bodies|] == w.bodies && w1.bodies[|w.bodies|].id == b.id &&
      w1.registered == w.registered + {b.id} && w1.constraints == w.constraints
  {
  }

  /** Adding bodies none of which the world holds, with distinct ids, puts
      them after the world's own, in order, and registers their ids. */
  lemma {:induction false} AddBodiesAppends(w: World.World, bs: seq<Body.Body>)
    requires ArrayCollisionMatrix.Valid(w.collisionMatrix) && World.Indexed(w.bodies)
    requires Distinct(Ids(bs)) && |w.bodies| + |bs| <= World.MaxBodies
    requires forall k, j :: 0 <= k < |w.bodies| && 0 <= j < |bs| ==> w.bodies[k].id != bs[j].id
    ensures AddBodies(w, bs).Ok?
    ensures var u := AddBodies(w, bs).value;
      |u.bodies| == |w.bodies| + |bs| && World.Indexed(u.bodies) &&
      Ids(u.bodies[|w.bodies|..]) == Ids(bs)
    decreases |bs|
  {
    if |bs| > 0 {
      var n := |w.bodies|;
      AddOneFresh(w, bs[0]);
      var w1 := World.AddBody(w, bs[0]).value;
      FreshAfterAdd(w, w1, bs);
      AddBodiesAppends(w1, bs[1..]);
      var u := AddBodies(w1, bs[1..]).value;
      assert AddBodies(w, bs) == AddBodies(w1, bs[1..]);
      IdsStep(u.bodies, w1.bodies, bs);
    }
  }

  /** A list that starts with a prefix whose last id is the first of bs,
      and goes on with the ids of the rest of bs, ends with the ids of bs. */
  lemma IdsStep(us: seq<Body.Body>, pre: seq<Body.Body>, bs: seq<Body.Body>)
    requires |pre| > 0 && |bs| > 0 && |us| >= |pre| && us[..|pre|] == pre
    requires pre[|pre| - 1].id == bs[0].id && Ids(us[|pre|..]) == Ids(bs[1..])
    ensures Ids(us[|pre| - 1..]) == Ids(bs)
  {
    var n := |pre| - 1;
    assert us[n] == us[..|pre|][n];
    IdsCons(us, n);
    IdsCons(bs, 0);
  }

  /** After the first body is added, the rest are still fresh. */
  lemma FreshAfterAdd(w: World.World, w1: World.World, bs: seq<Body.Body>)
    requires |bs| > 0 && Distinct(Ids(bs))
    requires forall k, j :: 0 <= k < |w.bodies| && 0 <= j < |bs| ==> w.bodies[k].id != bs[j].id
    requires |w1.bodies| == |w.bodies| + 1 && w1.bodies[..|w.bodies|] == w.bodies && w1.bodies[|w.bodies|].id == bs[0].id
    ensures Distinct(Ids(bs[1..])) && IdSet(bs) == {bs[0].id} + IdSet(bs[1..])
    ensures forall k, j :: 0 <= k < |w1.bodies| && 0 <= j < |bs[1..]| ==> w1.bodies[k].id != bs[1..][j].id
  {
    var n := |w.bodies|;
    DistinctTail(bs);
    forall k, j | 0 <= k < |w1.bodies| && 0 <= j < |bs[1..]|
      ensures w1.bodies[k].id != bs[1..][j].id
    {
      if k < n {
        assert w1.bodies[k] == w1.bodies[..n][k];
        assert bs[1..][j] == bs[j + 1];
      }
    }
  }

  /** Adding fresh bodies registers their ids and leaves the constraints
      alone. */
  lemma {:induction false} AddBodiesRegisters(w: World.World, bs: seq<Body.Body>)
    requires ArrayCollisionMatrix.Valid(w.collisionMatrix) && World.Indexed(w.bodies)
    requires Distinct(Ids(bs)) && |w.bodies| + |bs| <= World.MaxBodies
    requires forall k, j :: 0 <= k < |w.bodies| && 0 <= j < |bs| ==> w.bodies[k].id != bs[j].id
    ensures AddBodies(w, bs).Ok?
    ensures AddBodies(w, bs).value.registered == w.registered + IdSet(bs)
    decreases |bs|
  {
    AddBodiesAppends(w, bs);
    if |bs| > 0 {
      AddOneFresh(w, bs[0]);
      var w1 := World.AddBody(w, bs[0]).value;
      FreshAfterAdd(w, w1, bs);
      AddBodiesRegisters(w1, bs[1..]);
      assert AddBodies(w, bs) == AddBodies(w1, bs[1..]);
    } else {
      assert IdSet(bs) == {};
    }
  }

  /** The world's list ends with bodies carrying the ids, in order,
      after n bodies none of which carries one of them. */
  predicate EndsWith(u: World.World, n: nat, ids: seq<int>)
  {
    ArrayCollisionMatrix.Valid(u.collisionMatrix) && World.Indexed(u.bodies) &&
    |u.bodies| == n + |ids| && |u.bodies| <= World.MaxBodies &&
    Ids(u.bodies[n..]) == ids && Distinct(ids) &&
    forall k, j :: 0 <= k < n && 0 <= j < |ids| ==> u.bodies[k].id != ids[j]
  }

  /** The set of the ids in a list. */
  function IdsSet(ids: seq<int>): (r: set<int>)
    ensures forall j :: 0 <= j < |ids| ==> ids[j] in r
    ensures forall x :: x in r ==> exists j :: 0 <= j < |ids| && ids[j] == x
  {
    set j | 0 <= j < |ids| :: ids[j]
  }

  /** Removing the first of the ids at the end: the body after the n
      others goes, the rest still end the list, the id is unregistered. */
  lemma RemoveStep(u: World.World, n: nat, ids: seq<int>)
    requires |ids| > 0 && EndsWith(u, n, ids)
    ensures World.RemoveBody(u, ids[0]).Ok?
    ensures var u1 := World.RemoveBody(u, ids[0]).value;
      EndsWith(u1, n, ids[1..]) && u1.bodies[..n] == u.bodies[..n] &&
      u1.registered == u.registered - {ids[0]} &&
      RemoveBodies(u, ids) == RemoveBodies(u1, ids[1..])
  {
    assert u.bodies[n..][0] == u.bodies[n];
    World.IndexOfFirst(u.bodies, ids[0], n);
    var u1 := World.RemoveBody(u, ids[0]).value;
    assert u1.bodies == World.Splice(u.bodies, n);
    forall i | 0 <= i < n ensures u1.bodies[i] == u.bodies[i] {
      assert u.bodies[i].(index := i) == u.bodies[i];
    }
    assert u1.bodies[..n] == u.bodies[..n];
    forall i | 0 <= i < |ids| - 1 ensures Ids(u1.bodies[n..])[i] == ids[1..][i] {
      assert u1.bodies[n..][i] == u1.bodies[n + i] == u.bodies[n + i + 1].(index := n + i);
      assert Ids(u.bodies[n..])[i + 1] == u.bodies[n + i + 1].id;
    }
    assert Ids(u1.bodies[n..]) == ids[1..];
    forall k, j | 0 <= k < n && 0 <= j < |ids[1..]| ensures u1.bodies[k].id != ids[1..][j] {
      assert ids[1..][j] == ids[j + 1];
    }
    assert Distinct(ids[1..]) by {
      forall i, j | 0 <= i < j < |ids[1..]| ensures ids[1..][i] != ids[1..][j] {
        assert ids[i + 1] != ids[j + 1];
      }
    }
  }

  /** From a world whose list ends with bodies carrying the given ids,
      removing those ids gives the list before them back. */
  lemma {:induction false} RemoveBodiesTruncates(u: World.World, n: nat, ids: seq<int>)
    requires EndsWith(u, n, ids)
    ensures RemoveBodies(u, ids).Ok?
    ensures RemoveBodies(u, ids).value.bodies == u.bodies[..n]
    decreases |ids|
  {
    if |ids| == 0 {
      assert u.bodies[..n] == u.bodies;
    } else {
      RemoveStep(u, n, ids);
      RemoveBodiesTruncates(World.RemoveBody(u, ids[0]).value, n, ids[1..]);
    }
  }

  /** From the same world, removing the ids unregisters exactly them. */
  lemma {:induction false} RemoveBodiesUnregisters(u: World.World, n: nat, ids: seq<int>)
    requires EndsWith(u, n, ids)
    ensures RemoveBodies(u, ids).Ok?
    ensures RemoveBodies(u, ids).value.registered == u.registered - IdsSet(ids)
    decreases |ids|
  {
    if |ids| == 0 {
      assert IdsSet(ids) == {};
    } else {
      RemoveStep(u, n, ids);
      RemoveBodiesUnregisters(World.RemoveBody(u, ids[0]).value, n, ids[1..]);
      IdsSetCons(ids);
    }
  }

  /** The id set of a nonempty list is its first id and the rest's. */
  lemma IdsSetCons(ids: seq<int>)
    requires |ids| > 0
    ensures IdsSet(ids) == {ids[0]} + IdsSet(ids[1..])
  {
    forall x | x in IdsSet(ids) ensures x in {ids[0]} + IdsSet(ids[1..]) {
      var j :| 0 <= j < |ids| && ids[j] == x;
      if j > 0 {
        assert ids[1..][j - 1] == x;
      }
    }
  }

  /** From a world whose constraint list ends with constraints carrying the
      given ids, in order, and holds none of them before, removing those
      ids gives the list before them back. */
  lemma {:induction false} RemoveConstraintsTruncates(u: World.World, n: nat, ids: seq<int>)
    requires |u.constraints| == n + |ids| && ConstraintIds(u.constraints[n..]) == ids && Distinct(ids)
    requires forall k, j :: 0 <= k < n && 0 <= j < |ids| ==> u.constraints[k].id != ids[j]
    ensures RemoveConstraints(u, ids).constraints == u.constraints[..n]
    decreases |ids|
  {
    if |ids| == 0 {
      assert u.constraints[..n] == u.constraints;
    } else {
      var u1 := RemoveFirstConstraint(u, n, ids);
      RemoveConstraintsTruncates(u1, n, ids[1..]);
    }
  }

  /** One step of `RemoveConstraintsTruncates`: removing the first id takes
      out the constraint at position n and leaves the rest in the same
      shape. */
  lemma RemoveFirstConstraint(u: World.World, n: nat, ids: seq<int>) returns (u1: World.World)
    requires |ids| > 0
    requires |u.constraints| == n + |ids| && ConstraintIds(u.constraints[n..]) == ids && Distinct(ids)
    requires forall k, j :: 0 <= k < n && 0 <= j < |ids| ==> u.constraints[k].id != ids[j]
    ensures u1 == World.RemoveConstraint(u, ids[0])
    ensures RemoveConstraints(u, ids) == RemoveConstraints(u1, ids[1..])
    ensures |u1.constraints| == n + |ids[1..]| && u1.constraints[..n] == u.constraints[..n]
    ensures ConstraintIds(u1.constraints[n..]) == ids[1..] && Distinct(ids[1..])
    ensures forall k, j :: 0 <= k < n && 0 <= j < |ids[1..]| ==> u1.constraints[k].id != ids[1..][j]
  {
    assert u.constraints[n..][0] == u.constraints[n];
    var idx := World.IndexOfConstraint(u.constraints, ids[0]);
    assert idx == Some(n);
    u1 := World.RemoveConstraint(u, ids[0]);
    assert u1.constraints == u.constraints[..n] + u.constraints[n + 1..];
    assert u1.constraints[..n] == u.constraints[..n];
    forall i | 0 <= i < |ids| - 1 ensures ConstraintIds(u1.constraints[n..])[i] == ids[1..][i] {
      assert u1.constraints[n + i] == u.constraints[n + i + 1];
      assert ConstraintIds(u.constraints[n..])[i + 1] == u.constraints[n + i + 1].id;
    }
    assert ConstraintIds(u1.constraints[n..]) == ids[1..];
    forall k, j | 0 <= k < n && 0 <= j < |ids[1..]| ensures u1.constraints[k].id != ids[1..][j] {
      assert ids[1..][j] == ids[j + 1];
    }
    assert Distinct(ids[1..]) by {
      forall i, j | 0 <= i < j < |ids[1..]| ensures ids[1..][i] != ids[1..][j] {
        assert ids[i + 1] != ids[j + 1];
      }
    }
  }

  /** What a vehicle needs of a world for adding and removing it to leave
      no trace: room for its bodies, and none of its bodies or hinges
      there already, all with different ids. */
  predicate Fresh(v: Vehicle, w: World.World)
  {
    ArrayCollisionMatrix.Valid(w.collisionMatrix) && World.Indexed(w.bodies) &&
    |w.bodies| + |v.wheelBodies| + 1 <= World.MaxBodies &&
    Distinct(Ids(Members(v))) && Distinct(ConstraintIds(v.constraints)) &&
    (forall k, j :: 0 <= k < |w.bodies| && 0 <= j < |Members(v)| ==> w.bodies[k].id != Members(v)[j].id) &&
    (forall j :: 0 <= j < |Members(v)| ==> Members(v)[j].id !in w.registered) &&
    (forall k, j :: 0 <= k < |w.constraints| && 0 <= j < |v.constraints| ==> w.constraints[k].id != v.constraints[j].id)
  }

  /** Adding the members of a vehicle that is fresh for a world puts them
      at the end of its list and registers their ids. */
  lemma MembersAtEnd(v: Vehicle, w: World.World)
    requires Valid(v) && Fresh(v, w)
    ensures AddBodies(w, Members(v)).Ok?
    ensures var u := AddBodies(w, Members(v)).value;
      EndsWith(u, |w.bodies|, Ids(Members(v))) && u.registered == w.registered + IdSet(Members(v))
  {
    BodiesAtEnd(w, Members(v));
  }

  /** Adding fresh bodies with distinct ids puts them at the end of the
      list and registers their ids. */
  lemma BodiesAtEnd(w: World.World, bs: seq<Body.Body>)
    requires ArrayCollisionMatrix.Valid(w.collisionMatrix) && World.Indexed(w.bodies)
    requires Distinct(Ids(bs)) && |w.bodies| + |bs| <= World.MaxBodies
    requires forall k, j :: 0 <= k < |w.bodies| && 0 <= j < |bs| ==> w.bodies[k].id != bs[j].id
    ensures AddBodies(w, bs).Ok?
    ensures var u := AddBodies(w, bs).value;
      EndsWith(u, |w.bodies|, Ids(bs)) && u.registered == w.registered + IdSet(bs)
  {
    AddBodiesAppends(w, bs);
    AddBodiesRegisters(w, bs);
    var u := AddBodies(w, bs).value;
    PrefixKeepsIds(u.bodies, w.bodies, Ids(bs));
  }

  /** Adding a vehicle to a world it is fresh for puts its bodies at the
      end of the list and registers their ids. */
  lemma AddedAtEnd(v: Vehicle, w: World.World)
    requires Valid(v) && Fresh(v, w)
    ensures AddToWorld(v, w).Ok?
    ensures var u := AddToWorld(v, w).value;
      EndsWith(u, |w.bodies|, Ids(Members(v))) && u.registered == w.registered + IdSet(Members(v))
  {
    MembersAtEnd(v, w);
    var u := AddToWorld(v, w).value;
    assert u.(constraints := w.constraints) == AddBodies(w, Members(v)).value;
  }

  /** A list that starts with a prefix has, there, the prefix's ids. */
  lemma PrefixKeepsIds(bodies: seq<Body.Body>, pre: seq<Body.Body>, ids: seq<int>)
    requires |bodies| >= |pre| && bodies[..|pre|] == pre
    requires forall k, j :: 0 <= k < |pre| && 0 <= j < |ids| ==> pre[k].id != ids[j]
    ensures forall k, j :: 0 <= k < |pre| && 0 <= j < |ids| ==> bodies[k].id != ids[j]
  {
    forall k, j | 0 <= k < |pre| && 0 <= j < |ids| ensures bodies[k].id != ids[j] {
      assert bodies[k] == bodies[..|pre|][k];
    }
  }

  /** A constraint list that starts with a prefix has, there, the
      prefix's ids. */
  lemma PrefixKeepsConstraintIds(cs: seq<Constraint.Constraint>, pre: seq<Constraint.Constraint>, ids: seq<int>)
    requires |cs| >= |pre| && cs[..|pre|] == pre
    requires forall k, j :: 0 <= k < |pre| && 0 <= j < |ids| ==> pre[k].id != ids[j]
    ensures forall k, j :: 0 <= k < |pre| && 0 <= j < |ids| ==> cs[k].id != ids[j]
  {
    forall k, j | 0 <= k < |pre| && 0 <= j < |ids| ensures cs[k].id != ids[j] {
      assert cs[k] == cs[..|pre|][k];
    }
  }

  /** Removing a vehicle from a world that holds its bodies at the end of
      the list and its hinges at the end of the constraints gives the list,
      the registered ids and the constraints before them back. */
  lemma RemoveAfterAdd(v: Vehicle, w: World.World, u: World.World)
    requires Fresh(v, w)
    requires EndsWith(u, |w.bodies|, Ids(Members(v))) && u.bodies[..|w.bodies|] == w.bodies
    requires u.registered == w.registered + IdSet(Members(v))
    requires |u.constraints| == |w.constraints| + |v.constraints| && u.constraints[..|w.constraints|] == w.constraints
    requires ConstraintIds(u.constraints[|w.constraints|..]) == ConstraintIds(v.constraints)
    ensures RemoveFromWorld(v, u).Ok?
    ensures var r := RemoveFromWorld(v, u).value;
      r.bodies == w.bodies && r.registered == w.registered && r.constraints == w.constraints
  {
    var ids := Ids(Members(v));
    RemoveBodiesTruncates(u, |w.bodies|, ids);
    RemoveBodiesUnregisters(u, |w.bodies|, ids);
    var u2 := RemoveBodies(u, ids).value;
    assert IdsSet(ids) == IdSet(Members(v));
    var cids := ConstraintIds(v.constraints);
    PrefixKeepsConstraintIds(u2.constraints, w.constraints, cids);
    RemoveConstraintsTruncates(u2, |w.constraints|, cids);
  }

  /** Removing a vehicle just added to a world gives the world its bodies,
      its registered ids and its constraints back. */
  lemma RemoveUndoesAddToWorld(v: Vehicle, w: World.World)
    requires Valid(v) && Fresh(v, w)
    ensures AddToWorld(v, w).Ok?
    ensures var u := AddToWorld(v, w).value;
      RemoveFromWorld(v, u).Ok? &&
      RemoveFromWorld(v, u).value.bodies == w.bodies &&
      RemoveFromWorld(v, u).value.registered == w.registered &&
      RemoveFromWorld(v, u).value.constraints == w.constraints
  {
    AddedAtEnd(v, w);
    RemoveAfterAdd(v, w, AddToWorld(v, w).value);
  }
}
