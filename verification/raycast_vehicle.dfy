/** A vehicle whose wheels are rays cast down from a chassis body: the
    wheel record and its defaults, adding and driving wheels, the
    suspension ray with its travel clamp, the spring-damper force, the
    friction impulses' clamps and the wheel spin. */
module RaycastVehicle {
  import opened Vectors
  import opened Wrappers
  import Body
  import RaycastResult
  import Ray

  /** Where a wheel hangs: the connection point, the suspension direction
      and the axle, in the chassis frame and in the world. */
  datatype Mount = Mount(
    connectionLocal: Vec3,
    connectionWorld: Vec3,
    directionLocal: Vec3,
    directionWorld: Vec3,
    axleLocal: Vec3,
    axleWorld: Vec3)

  /** The suspension's constants. */
  datatype Suspension = Suspension(
    restLength: real,
    maxLength: real,
    maxTravel: real,
    stiffness: real,
    dampingCompression: real,
    dampingRelaxation: real,
    maxForce: real)

  /** The tyre's constants. */
  datatype Tyre = Tyre(
    radius: real,
    frictionSlip: real,
    forwardAcceleration: real,
    sideAcceleration: real,
    rollInfluence: real,
    isFrontWheel: bool,
    useCustomSlidingRotationalSpeed: bool,
    customSlidingRotationalSpeed: real)

  /** What the driver sets on a wheel. */
  datatype Controls = Controls(steering: real, engineForce: real, brake: real)

  /** What the suspension ray and the suspension update leave behind. */
  datatype Contact = Contact(
    isInContact: bool,
    suspensionLength: real,
    suspensionRelativeVelocity: real,
    clippedInvContactDotSuspension: real,
    suspensionForce: real,
    raycastResult: RaycastResult.Result)

  /** The wheel's turning and friction state. */
  datatype Spin = Spin(
    rotation: real,
    deltaRotation: real,
    sideImpulse: real,
    forwardImpulse: real,
    slipInfo: real,
    skidInfo: real,
    sliding: bool)

  /** `WheelInfo`, its fields grouped by what they describe. */
  datatype Wheel = Wheel(mount: Mount, suspension: Suspension, tyre: Tyre, controls: Controls, contact: Contact, spin: Spin)

  /** The options `WheelInfo` reads; `None` is a key the options object
      does not have, which `Utils.defaults` fills in. */
  datatype WheelOptions = WheelOptions(
    chassisConnectionPointLocal: Option<Vec3>,
    chassisConnectionPointWorld: Option<Vec3>,
    directionLocal: Option<Vec3>,
    directionWorld: Option<Vec3>,
    axleLocal: Option<Vec3>,
    axleWorld: Option<Vec3>,
    suspensionRestLength: Option<real>,
    suspensionMaxLength: Option<real>,
    radius: Option<real>,
    suspensionStiffness: Option<real>,
    dampingCompression: Option<real>,
    dampingRelaxation: Option<real>,
    frictionSlip: Option<real>,
    forwardAcceleration: Option<real>,
    sideAcceleration: Option<real>,
    rollInfluence: Option<real>,
    maxSuspensionForce: Option<real>,
    isFrontWheel: Option<bool>,
    maxSuspensionTravel: Option<real>,
    useCustomSlidingRotationalSpeed: Option<bool>,
    customSlidingRotationalSpeed: Option<real>)

  const NoWheelOptions: WheelOptions := WheelOptions(
    None, None, None, None, None, None, None, None, None, None, None,
    None, None, None, None, None, None, None, None, None, None)

  /** A wheel that has not touched anything: no controls applied, not
      turning, no contact, no force, an empty ray result. */
  predicate AtRest(w: Wheel)
  {
    w.controls == Controls(0.0, 0.0, 0.0) &&
    w.spin == Spin(0.0, 0.0, 0.0, 0.0, 0.0, 0.0, false) &&
    !w.contact.isInContact && w.contact.suspensionLength == 0.0 &&
    w.contact.suspensionRelativeVelocity == 0.0 && w.contact.clippedInvContactDotSuspension == 1.0 &&
    w.contact.suspensionForce == 0.0 && RaycastResult.Cleared(w.contact.raycastResult)
  }

  /** `WheelInfo.init(options)`: every option falls back to its default
      (zero vectors, rest length 1, maximum length 2, radius 1, stiffness
      100, damping 10 both ways, friction slip 10.5, accelerations 1, roll
      influence 0.01, no force limit, a front wheel, travel 1, no custom
      sliding speed, which would be -0.1); the steering, spin, controls
      and contact state start at rest whatever the options say. */
  function WheelInit(o: WheelOptions): (w: Wheel)
    ensures AtRest(w)
    ensures w.tyre.radius == Body.Or(o.radius, 1.0) && w.suspension.restLength == Body.Or(o.suspensionRestLength, 1.0)
  {
    Wheel(
      Mount(
        Body.Or(o.chassisConnectionPointLocal, Zero),
        Body.Or(o.chassisConnectionPointWorld, Zero),
        Body.Or(o.directionLocal, Zero),
        Body.Or(o.directionWorld, Zero),
        Body.Or(o.axleLocal, Zero),
        Body.Or(o.axleWorld, Zero)),
      Suspension(
        Body.Or(o.suspensionRestLength, 1.0),
        Body.Or(o.suspensionMaxLength, 2.0),
        Body.Or(o.maxSuspensionTravel, 1.0),
        Body.Or(o.suspensionStiffness, 100.0),
        Body.Or(o.dampingCompression, 10.0),
        Body.Or(o.dampingRelaxation, 10.0),
        Body.Or(o.maxSuspensionForce, MaxValue)),
      Tyre(
        Body.Or(o.radius, 1.0),
        Body.Or(o.frictionSlip, 10.5),
        Body.Or(o.forwardAcceleration, 1.0),
        Body.Or(o.sideAcceleration, 1.0),
        Body.Or(o.rollInfluence, 0.01),
        Body.Or(o.isFrontWheel, true),
        Body.Or(o.useCustomSlidingRotationalSpeed, false),
        Body.Or(o.customSlidingRotationalSpeed, -0.1)),
      Controls(0.0, 0.0, 0.0),
      Contact(false, 0.0, 0.0, 1.0, 0.0, RaycastResult.Init()),
      Spin(0.0, 0.0, 0.0, 0.0, 0.0, 0.0, false))
  }

  /** The options that would rebuild a wheel's constants: every key given. */
  function OptionsOf(w: Wheel): (o: WheelOptions)
    ensures o.radius == Some(w.tyre.radius)
  {
    WheelOptions(
      Some(w.mount.connectionLocal), Some(w.mount.connectionWorld), Some(w.mount.directionLocal),
      Some(w.mount.directionWorld), Some(w.mount.axleLocal), Some(w.mount.axleWorld),
      Some(w.suspension.restLength), Some(w.suspension.maxLength), Some(w.tyre.radius),
      Some(w.suspension.stiffness), Some(w.suspension.dampingCompression), Some(w.suspension.dampingRelaxation),
      Some(w.tyre.frictionSlip), Some(w.tyre.forwardAcceleration), Some(w.tyre.sideAcceleration),
      Some(w.tyre.rollInfluence), Some(w.suspension.maxForce), Some(w.tyre.isFrontWheel),
      Some(w.suspension.maxTravel), Some(w.tyre.useCustomSlidingRotationalSpeed), Some(w.tyre.customSlidingRotationalSpeed))
  }

  /** A wheel at rest is determined by its constants: initialising from
      them gives the wheel back, and the empty options give the listed
      defaults. */
  lemma WheelInitRoundTrip(w: Wheel, o: WheelOptions)
    ensures AtRest(w) ==> WheelInit(OptionsOf(w)) == w
    ensures WheelInit(OptionsOf(WheelInit(o))) == WheelInit(o)
    ensures var d := WheelInit(NoWheelOptions);
      d.mount == Mount(Zero, Zero, Zero, Zero, Zero, Zero) &&
      d.suspension == Suspension(1.0, 2.0, 1.0, 100.0, 10.0, 10.0, MaxValue) &&
      d.tyre == Tyre(1.0, 10.5, 1.0, 1.0, 0.01, true, false, -0.1)
  {
    if AtRest(w) {
      RaycastResult.ResetIsInit(w.contact.raycastResult);
      assert w.contact.raycastResult == RaycastResult.Init();
    }
  }

  /** The vehicle: the chassis body, the wheels, whether any wheel slid,
      the indices of the chassis's right, forward and up axes, and the
      signed speed. */
  datatype Vehicle = Vehicle(
    chassis: Body.Body,
    wheelInfos: seq<Wheel>,
    sliding: bool,
    indexRightAxis: int,
    indexForwardAxis: int,
    indexUpAxis: int,
    currentVehicleSpeedKmHour: real)

  /** The options `RaycastVehicle` reads; `None` is an undefined index. */
  datatype VehicleOptions = VehicleOptions(
    chassisBody: Body.Body,
    indexRightAxis: Option<int>,
    indexForwardAxis: Option<int>,
    indexUpAxis: Option<int>)

  /** `RaycastVehicle.init(options)`: no wheels, not sliding, speed 0; the
      axes are z right, x forward and y up unless given. */
  function Init(o: VehicleOptions): (v: Vehicle)
    ensures v.wheelInfos == [] && !v.sliding && v.currentVehicleSpeedKmHour == 0.0 && v.chassis == o.chassisBody
    ensures v.indexRightAxis == (if o.indexRightAxis.Some? then o.indexRightAxis.value else 2)
    ensures v.indexForwardAxis == (if o.indexForwardAxis.Some? then o.indexForwardAxis.value else 0)
    ensures v.indexUpAxis == (if o.indexUpAxis.Some? then o.indexUpAxis.value else 1)
  {
    Vehicle(o.chassisBody, [], false, Body.Or(o.indexRightAxis, 2), Body.Or(o.indexForwardAxis, 0),
      Body.Or(o.indexUpAxis, 1), 0.0)
  }

  /** `addWheel(options)`: the new wheel goes last and its index, the old
      wheel count, is returned; nothing else changes. */
  function AddWheel(v: Vehicle, o: WheelOptions): (r: (Vehicle, nat))
    ensures r.1 == |v.wheelInfos|
    ensures r.0.wheelInfos == v.wheelInfos + [WheelInit(o)]
    ensures r.0.wheelInfos[r.1] == WheelInit(o)
    ensures r.0.(wheelInfos := v.wheelInfos) == v
  {
    (v.(wheelInfos := v.wheelInfos + [WheelInit(o)]), |v.wheelInfos|)
  }

  /** Adding several wheels, one call per option record, collecting the
      returned indices. */
  function AddWheels(v: Vehicle, os: seq<WheelOptions>): (r: (Vehicle, seq<nat>))
    decreases |os|
  {
    if os == [] then (v, [])
    else
      var first := AddWheel(v, os[0]);
      var rest := AddWheels(first.0, os[1..]);
      (rest.0, [first.1] + rest.1)
  }

  /** Wheels added one after another are numbered consecutively from the
      old count, each index finds the wheel built from its options, and
      the wheels already there keep their indices. */
  lemma {:induction false} AddWheelsNumbered(v: Vehicle, os: seq<WheelOptions>)
    ensures var r := AddWheels(v, os);
      |r.1| == |os| && |r.0.wheelInfos| == |v.wheelInfos| + |os| &&
      r.0.wheelInfos[..|v.wheelInfos|] == v.wheelInfos &&
      r.0.(wheelInfos := v.wheelInfos) == v &&
      (forall k :: 0 <= k < |os| ==> r.1[k] == |v.wheelInfos| + k && r.0.wheelInfos[r.1[k]] == WheelInit(os[k]))
    decreases |os|
  {
    if os != [] {
      var first := AddWheel(v, os[0]);
      AddWheelsNumbered(first.0, os[1..]);
      var rest := AddWheels(first.0, os[1..]);
      assert rest.0.wheelInfos[..|first.0.wheelInfos|] == first.0.wheelInfos;
      assert rest.0.wheelInfos[..|v.wheelInfos|] == first.0.wheelInfos[..|v.wheelInfos|];
      forall k | 0 <= k < |os|
        ensures AddWheels(v, os).1[k] == |v.wheelInfos| + k
        ensures AddWheels(v, os).0.wheelInfos[AddWheels(v, os).1[k]] == WheelInit(os[k])
      {
        if k == 0 {
          assert rest.0.wheelInfos[|v.wheelInfos|] == first.0.wheelInfos[|v.wheelInfos|];
        } else {
          assert os[1..][k - 1] == os[k];
        }
      }
    }
  }

  /** The vehicle after a setter changed wheel `i`'s controls and nothing
      else. */
  predicate OnlyControlsOf(v: Vehicle, r: Vehicle, i: int)
  {
    0 <= i < |v.wheelInfos| &&
    r.(wheelInfos := v.wheelInfos) == v && |r.wheelInfos| == |v.wheelInfos| &&
    r.wheelInfos[i].(controls := v.wheelInfos[i].controls) == v.wheelInfos[i] &&
    forall j :: 0 <= j < |v.wheelInfos| && j != i ==> r.wheelInfos[j] == v.wheelInfos[j]
  }

  function WithControls(v: Vehicle, i: nat, c: Controls): (r: Vehicle)
    requires i < |v.wheelInfos|
    ensures OnlyControlsOf(v, r, i) && r.wheelInfos[i].controls == c
  {
    v.(wheelInfos := v.wheelInfos[i := v.wheelInfos[i].(controls := c)])
  }

  /** `setSteeringValue(value, wheelIndex)`: only that wheel's steering
      changes; a missing wheel is `undefined`, and writing to it throws. */
  function SetSteeringValue(v: Vehicle, value: real, i: int): (r: Result<Vehicle>)
    ensures r.Ok? <==> 0 <= i < |v.wheelInfos|
    ensures r.Ok? ==>
      OnlyControlsOf(v, r.value, i) &&
      r.value.wheelInfos[i].controls == v.wheelInfos[i].controls.(steering := value)
  {
    if 0 <= i < |v.wheelInfos| then Ok(WithControls(v, i, v.wheelInfos[i].controls.(steering := value)))
    else Err(TypeError("Cannot set properties of undefined (setting 'steering')"))
  }

  /** `applyEngineForce(value, wheelIndex)`: only that wheel's engine force
      changes; a missing wheel throws. */
  function ApplyEngineForce(v: Vehicle, value: real, i: int): (r: Result<Vehicle>)
    ensures r.Ok? <==> 0 <= i < |v.wheelInfos|
    ensures r.Ok? ==>
      OnlyControlsOf(v, r.value, i) &&
      r.value.wheelInfos[i].controls == v.wheelInfos[i].controls.(engineForce := value)
  {
    if 0 <= i < |v.wheelInfos| then Ok(WithControls(v, i, v.wheelInfos[i].controls.(engineForce := value)))
    else Err(TypeError("Cannot set properties of undefined (setting 'engineForce')"))
  }

  /** `setBrake(brake, wheelIndex)`: only that wheel's brake changes; a
      missing wheel throws. */
  function SetBrake(v: Vehicle, value: real, i: int): (r: Result<Vehicle>)
    ensures r.Ok? <==> 0 <= i < |v.wheelInfos|
    ensures r.Ok? ==>
      OnlyControlsOf(v, r.value, i) &&
      r.value.wheelInfos[i].controls == v.wheelInfos[i].controls.(brake := value)
  {
    if 0 <= i < |v.wheelInfos| then Ok(WithControls(v, i, v.wheelInfos[i].controls.(brake := value)))
    else Err(TypeError("Cannot set properties of undefined (setting 'brake')"))
  }

  /** The last write of a control wins, and different controls, or the
      same control on different wheels, can be set in either order. */
  lemma ControlsCommute(v: Vehicle, a: real, b: real, i: int, j: int)
    requires 0 <= i < |v.wheelInfos| && 0 <= j < |v.wheelInfos|
    ensures SetBrake(SetBrake(v, a, i).value, b, i) == SetBrake(v, b, i)
    ensures SetSteeringValue(ApplyEngineForce(v, a, i).value, b, j).value ==
      ApplyEngineForce(SetSteeringValue(v, b, j).value, a, i).value
    ensures i != j ==> SetBrake(SetBrake(v, a, i).value, b, j).value == SetBrake(SetBrake(v, b, j).value, a, i).value
  {
    assert SetBrake(SetBrake(v, a, i).value, b, i).value.wheelInfos == SetBrake(v, b, i).value.wheelInfos;
    var s1 := SetSteeringValue(ApplyEngineForce(v, a, i).value, b, j).value;
    var s2 := ApplyEngineForce(SetSteeringValue(v, b, j).value, a, i).value;
    assert s1.wheelInfos == s2.wheelInfos;
    if i != j {
      var t1 := SetBrake(SetBrake(v, a, i).value, b, j).value;
      var t2 := SetBrake(SetBrake(v, b, j).value, a, i).value;
      assert t1.wheelInfos == t2.wheelInfos;
    }
  }

  /** The damping constant in use: compression while the wheel closes in
      on the chassis (negative relative velocity), relaxation otherwise. */
  function Damping(w: Wheel): (d: real)
    ensures d == w.suspension.dampingCompression || d == w.suspension.dampingRelaxation
  {
    if w.contact.suspensionRelativeVelocity < 0.0 then w.suspension.dampingCompression
    else w.suspension.dampingRelaxation
  }

  /** The spring-damper force per unit chassis mass before the clamp:
      stiffness times compression times the contact's slant factor, less
      damping times relative velocity. */
  function SpringDamper(w: Wheel): real
  {
    w.suspension.stiffness * (w.suspension.restLength - w.contact.suspensionLength) * w.contact.clippedInvContactDotSuspension -
    Damping(w) * w.contact.suspensionRelativeVelocity
  }

  /** The suspension force `updateSuspension` stores: the spring-damper
      force times the chassis mass, never negative, and nothing for a wheel
      out of contact. */
  function SuspensionForce(w: Wheel, mass: real): (f: real)
    ensures f >= 0.0
    ensures !w.contact.isInContact ==> f == 0.0
    ensures w.contact.isInContact && SpringDamper(w) * mass >= 0.0 ==> f == SpringDamper(w) * mass
  {
    if !w.contact.isInContact then 0.0
    else
      var force := SpringDamper(w) * mass;
      if force < 0.0 then 0.0 else force
  }

  /** A compressed suspension on a stiff spring, with no relative motion,
      pushes the chassis. */
  lemma CompressedSpringPushes(w: Wheel, mass: real)
    requires w.contact.isInContact && w.contact.suspensionRelativeVelocity == 0.0
    requires w.suspension.stiffness > 0.0 && w.contact.clippedInvContactDotSuspension > 0.0 && mass > 0.0
    requires w.contact.suspensionLength < w.suspension.restLength
    ensures SuspensionForce(w, mass) > 0.0
  {
    var k := w.suspension.stiffness;
    var c := w.contact.clippedInvContactDotSuspension;
    var x := w.suspension.restLength - w.contact.suspensionLength;
    assert k * x > 0.0;
    assert k * x * c > 0.0;
    assert SpringDamper(w) == k * x * c;
    assert SpringDamper(w) * mass > 0.0;
  }

  /** The more the suspension is compressed, the harder it pushes: with a
      non-negative spring, slant factor and mass, a shorter suspension
      never gives less force. */
  lemma SuspensionMonotone(w: Wheel, shorter: real, mass: real)
    requires w.suspension.stiffness >= 0.0 && w.contact.clippedInvContactDotSuspension >= 0.0 && mass >= 0.0
    requires shorter <= w.contact.suspensionLength
    ensures SuspensionForce(w.(contact := w.contact.(suspensionLength := shorter)), mass) >= SuspensionForce(w, mass)
  {
    var u := w.(contact := w.contact.(suspensionLength := shorter));
    var k := w.suspension.stiffness;
    var c := w.contact.clippedInvContactDotSuspension;
    var d := w.contact.suspensionLength - shorter;
    assert Damping(u) == Damping(w);
    assert (w.suspension.restLength - shorter) == (w.suspension.restLength - w.contact.suspensionLength) + d;
    assert k * d * c >= 0.0;
    assert SpringDamper(u) == SpringDamper(w) + k * d * c;
    assert SpringDamper(u) * mass >= SpringDamper(w) * mass;
  }

  /** `updateSuspension`: every wheel gets the force of its own contact
      and the chassis mass; nothing else changes. */
  function UpdateSuspension(wheels: seq<Wheel>, mass: real): (r: seq<Wheel>)
    ensures |r| == |wheels|
    ensures forall i :: 0 <= i < |r| ==>
      r[i] == wheels[i].(contact := wheels[i].contact.(suspensionForce := SuspensionForce(wheels[i], mass)))
  {
    seq(|wheels|, i requires 0 <= i < |wheels| =>
      wheels[i].(contact := wheels[i].contact.(suspensionForce := SuspensionForce(wheels[i], mass))))
  }

  /** `updateWheelTransformWorld`: out of contact, with the connection
      point, suspension direction and axle carried into the world by the
      chassis pose. */
  function Placed(chassis: Body.Body, w: Wheel, ops: MathOps): (r: Wheel)
    ensures !r.contact.isInContact
    ensures r.(mount := w.mount, contact := w.contact) == w && r.contact.(isInContact := w.contact.isInContact) == w.contact
    ensures r.mount.connectionWorld == Body.PointToWorldFrame(chassis, w.mount.connectionLocal, ops)
    ensures r.mount.directionWorld == Body.VectorToWorldFrame(chassis, w.mount.directionLocal, ops)
  {
    w.(mount := w.mount.(
         connectionWorld := Body.PointToWorldFrame(chassis, w.mount.connectionLocal, ops),
         directionWorld := Body.VectorToWorldFrame(chassis, w.mount.directionLocal, ops),
         axleWorld := Body.VectorToWorldFrame(chassis, w.mount.axleLocal, ops)),
       contact := w.contact.(isInContact := false))
  }

  /** `world.rayTest(from, to, result)` as seen from a wheel: the chassis
      (with its collision response off while the ray is out) and the ray's
      ends in, the filled result out. */
  type RayTest = (Body.Body, Vec3, Vec3) -> RaycastResult.Result

  /** The far end of a wheel's ray: rest length plus radius along the
      suspension direction from the connection point. */
  function RayEnd(w: Wheel): Vec3
  {
    Add(w.mount.connectionWorld, Scale(w.suspension.restLength + w.tyre.radius, w.mount.directionWorld))
  }

  /** What the wheel's ray found. */
  function Hit(chassis: Body.Body, w: Wheel, rayTest: RayTest, ops: MathOps): RaycastResult.Result
  {
    var p := Placed(chassis, w, ops);
    rayTest(chassis.(collisionResponse := false), p.mount.connectionWorld, RayEnd(p))
  }

  /** The contact's slant: a normal at nearly a right angle to the
      suspension, or facing along it (denominator at least -0.1), gives
      relative velocity 0 and factor 10; otherwise the factor inverts the
      (negative) cosine and scales the projected velocity. Returns the
      relative velocity and the factor. */
  function Slant(denominator: real, projVel: real): (r: (real, real))
    ensures 0.0 < r.1 <= 10.0
    ensures denominator >= -0.1 ==> r == (0.0, 10.0)
    ensures denominator < -0.1 ==> r.1 * denominator == -1.0 && r.0 == projVel * r.1
  {
    if denominator >= -0.1 then (0.0, 1.0 / 0.1)
    else
      var inv := -1.0 / denominator;
      assert inv * denominator == -1.0;
      assert inv * 0.1 < 1.0 by {
        assert inv * (-denominator) == 1.0;
        assert inv > 0.0;
      }
      (projVel * inv, inv)
  }

  /** `castRay(wheel)`: the wheel is placed, its ray cast with the chassis
      ignored, and on a hit the suspension length is the hit distance less
      the radius, clamped to the rest length plus or minus the travel (an
      overshoot also clears the result); the slant factor and relative
      velocity come from the normal. On a miss the wheel hangs at rest
      length facing straight back up the ray. Returns the wheel and the
      hit distance, -1 on a miss. */
  function CastRay(chassis: Body.Body, w: Wheel, rayTest: RayTest, ops: MathOps): (r: (Wheel, real))
    ensures var hit := Hit(chassis, w, rayTest, ops);
      (r.0.contact.isInContact <==> hit.body.Some?) &&
      (hit.body.Some? ==> r.1 == hit.distance) && (hit.body.None? ==> r.1 == -1.0)
    ensures r.0.(mount := w.mount, contact := w.contact) == w && r.0.mount == Placed(chassis, w, ops).mount
    ensures r.0.contact.suspensionForce == w.contact.suspensionForce
    ensures 0.0 < r.0.contact.clippedInvContactDotSuspension <= 10.0
    ensures r.0.contact.isInContact ==>
      r.0.contact.suspensionLength <= w.suspension.restLength + w.suspension.maxTravel &&
      (w.suspension.maxTravel >= 0.0 ==> w.suspension.restLength - w.suspension.maxTravel <= r.0.contact.suspensionLength)
    ensures var len := Hit(chassis, w, rayTest, ops).distance - w.tyre.radius;
      r.0.contact.isInContact && w.suspension.restLength - w.suspension.maxTravel <= len <= w.suspension.restLength + w.suspension.maxTravel ==>
      r.0.contact.suspensionLength == len && r.0.contact.raycastResult == Hit(chassis, w, rayTest, ops)
    ensures var len := Hit(chassis, w, rayTest, ops).distance - w.tyre.radius;
      r.0.contact.isInContact && w.suspension.maxTravel >= 0.0 && len > w.suspension.restLength + w.suspension.maxTravel ==>
      RaycastResult.Cleared(r.0.contact.raycastResult) && r.0.contact.suspensionRelativeVelocity == 0.0 &&
      r.0.contact.clippedInvContactDotSuspension == 10.0
    ensures !r.0.contact.isInContact ==>
      r.0.contact.suspensionLength == w.suspension.restLength && r.0.contact.suspensionRelativeVelocity == 0.0 &&
      r.0.contact.clippedInvContactDotSuspension == 1.0 &&
      r.0.contact.raycastResult.hitNormalWorld == Neg(r.0.mount.directionWorld)
  {
    var p := Placed(chassis, w, ops);
    var hit := Hit(chassis, w, rayTest, ops);
    var s := w.suspension;
    if hit.body.Some? then
      var lo := s.restLength - s.maxTravel;
      var hi := s.restLength + s.maxTravel;
      var len0 := hit.distance - w.tyre.radius;
      var len1 := if len0 < lo then lo else len0;
      var kept := if len1 > hi then RaycastResult.Reset(hit) else hit;
      var len := if len1 > hi then hi else len1;
      var velocity := Body.GetVelocityAtWorldPoint(chassis, kept.hitPointWorld);
      var slant := Slant(Dot(kept.hitNormalWorld, p.mount.directionWorld), Dot(kept.hitNormalWorld, velocity));
      (p.(contact := p.contact.(isInContact := true, suspensionLength := len, suspensionRelativeVelocity := slant.0,
                                clippedInvContactDotSuspension := slant.1, raycastResult := kept)),
       hit.distance)
    else
      (p.(contact := p.contact.(suspensionLength := s.restLength + 0.0 * s.maxTravel, suspensionRelativeVelocity := 0.0,
                                clippedInvContactDotSuspension := 1.0,
                                raycastResult := hit.(hitNormalWorld := Neg(p.mount.directionWorld)))),
       -1.0)
  }

  /** A spring compressed by at most the travel, with a slant factor in
      (0, 10], gives at most stiffness times travel times 10. */
  lemma SpringWithinTravel(k: real, x: real, f: real, t: real)
    requires k >= 0.0 && t >= 0.0 && x <= t && 0.0 < f <= 10.0
    ensures k * x * f <= k * t * 10.0
  {
    NonNegativeProduct(t - x, f);
    NonNegativeProduct(t, 10.0 - f);
    assert t * 10.0 - x * f == (t - x) * f + t * (10.0 - f);
    NonNegativeProduct(k, t * 10.0 - x * f);
    assert k * (t * 10.0 - x * f) == k * t * 10.0 - k * x * f;
  }

  lemma NonNegativeProduct(a: real, b: real)
    requires a >= 0.0 && b >= 0.0
    ensures a * b >= 0.0
  {
  }

  /** A squared length is never negative. */
  lemma NormSqNonNegative(v: Vec3)
    ensures NormSq(v) >= 0.0
  {
    assert v.x * v.x >= 0.0 && v.y * v.y >= 0.0 && v.z * v.z >= 0.0;
  }

  /** The clamps of the ray bound the spring: after a cast that leaves no
      relative motion, a wheel with a non-negative spring and travel pushes
      with at most stiffness times travel times 10, per unit mass. */
  lemma CastBoundsSpringForce(chassis: Body.Body, w: Wheel, rayTest: RayTest, ops: MathOps, mass: real)
    requires w.suspension.maxTravel >= 0.0 && w.suspension.stiffness >= 0.0 && mass >= 0.0
    requires CastRay(chassis, w, rayTest, ops).0.contact.suspensionRelativeVelocity == 0.0
    ensures SuspensionForce(CastRay(chassis, w, rayTest, ops).0, mass) <= w.suspension.stiffness * w.suspension.maxTravel * 10.0 * mass
  {
    var c := CastRay(chassis, w, rayTest, ops).0;
    assert c.suspension == w.suspension;
    ClampedSpringBound(c, mass);
  }

  /** A wheel whose contact is clamped as a cast leaves it, with no
      relative motion, pushes with at most stiffness times travel times
      10, per unit mass. */
  lemma ClampedSpringBound(c: Wheel, mass: real)
    requires c.suspension.maxTravel >= 0.0 && c.suspension.stiffness >= 0.0 && mass >= 0.0
    requires c.contact.suspensionRelativeVelocity == 0.0
    requires 0.0 < c.contact.clippedInvContactDotSuspension <= 10.0
    requires c.contact.isInContact ==> c.suspension.restLength - c.suspension.maxTravel <= c.contact.suspensionLength
    ensures SuspensionForce(c, mass) <= c.suspension.stiffness * c.suspension.maxTravel * 10.0 * mass
  {
    var k := c.suspension.stiffness;
    var t := c.suspension.maxTravel;
    if c.contact.isInContact {
      SpringWithinTravel(k, c.suspension.restLength - c.contact.suspensionLength, c.contact.clippedInvContactDotSuspension, t);
    }
    BoundedByTravel(c, mass, k * t * 10.0);
  }

  /** The force of a wheel whose spring part is bounded, with no relative
      motion, is bounded by that bound times the mass. */
  lemma BoundedByTravel(c: Wheel, mass: real, bound: real)
    requires mass >= 0.0 && c.contact.suspensionRelativeVelocity == 0.0 && bound >= 0.0
    requires c.contact.isInContact ==>
      c.suspension.stiffness * (c.suspension.restLength - c.contact.suspensionLength) * c.contact.clippedInvContactDotSuspension <= bound
    ensures SuspensionForce(c, mass) <= bound * mass
  {
    if c.contact.isInContact && SpringDamper(c) * mass >= 0.0 {
      assert SpringDamper(c) <= bound;
      assert SpringDamper(c) * mass <= bound * mass;
    }
  }

  /** `getVehicleAxisWorld(axisIndex)`: the chassis axis of that index (0 x,
      1 y, 2 z) in the world. */
  function AxisWorld(chassis: Body.Body, axisIndex: int, ops: MathOps): Vec3
  {
    Body.VectorToWorldFrame(chassis,
      Vec3(if axisIndex == 0 then 1.0 else 0.0, if axisIndex == 1 then 1.0 else 0.0, if axisIndex == 2 then 1.0 else 0.0), ops)
  }

  /** The signed speed in km/h: 3.6 times the chassis speed, negative when
      the chassis moves against its forward axis. */
  function SpeedKmHour(chassis: Body.Body, forwardAxis: int, ops: MathOps): real
  {
    var speed := 3.6 * ops.sqrt(NormSq(chassis.velocity));
    if Dot(AxisWorld(chassis, forwardAxis, ops), chassis.velocity) < 0.0 then -speed else speed
  }

  /** With an exact square root, the speed's square is 3.6 squared times
      the chassis's squared speed, and it is negative exactly when the
      chassis moves and moves backwards. */
  lemma SpeedKmHourSign(chassis: Body.Body, forwardAxis: int, ops: MathOps)
    requires Ray.ExactSqrt(ops)
    ensures var s := SpeedKmHour(chassis, forwardAxis, ops);
      s * s == 12.96 * NormSq(chassis.velocity) &&
      (s < 0.0 <==> NormSq(chassis.velocity) > 0.0 && Dot(AxisWorld(chassis, forwardAxis, ops), chassis.velocity) < 0.0)
  {
    var n := NormSq(chassis.velocity);
    NormSqNonNegative(chassis.velocity);
    var q := ops.sqrt(n);
    assert q >= 0.0 && q * q == n;
    assert (3.6 * q) * (3.6 * q) == 12.96 * (q * q);
    assert (-(3.6 * q)) * (-(3.6 * q)) == 12.96 * (q * q);
    if n > 0.0 {
      assert q != 0.0;
    } else {
      Ray.ZeroProduct(q, q);
    }
  }

  /** The suspension force actually applied: capped at the wheel's
      maximum. */
  function AppliedSuspensionForce(w: Wheel): (f: real)
    ensures f <= w.suspension.maxForce && f <= w.contact.suspensionForce
    ensures f == w.contact.suspensionForce || f == w.suspension.maxForce
  {
    if w.contact.suspensionForce > w.suspension.maxForce then w.suspension.maxForce else w.contact.suspensionForce
  }

  /** The suspension impulses, wheel by wheel, applied to the chassis at
      each hit point (relative to the chassis centre, which an impulse
      does not move). */
  function PushChassis(chassis: Body.Body, wheels: seq<Wheel>, dt: real): (r: Body.Body)
    ensures r.position == chassis.position
    decreases |wheels|
  {
    if wheels == [] then chassis
    else
      var w := wheels[|wheels| - 1];
      var before := PushChassis(chassis, wheels[..|wheels| - 1], dt);
      Body.ApplyImpulse(before, Scale(AppliedSuspensionForce(w) * dt, w.contact.raycastResult.hitNormalWorld),
        Sub(w.contact.raycastResult.hitPointWorld, before.position))
  }

  /** Wheels that push with no force leave the chassis's motion alone. */
  lemma {:induction false} NoForceNoPush(chassis: Body.Body, wheels: seq<Wheel>, dt: real)
    requires forall i :: 0 <= i < |wheels| ==> wheels[i].contact.suspensionForce == 0.0 && wheels[i].suspension.maxForce >= 0.0
    ensures PushChassis(chassis, wheels, dt).velocity == chassis.velocity
    ensures PushChassis(chassis, wheels, dt).angularVelocity == chassis.angularVelocity
    decreases |wheels|
  {
    if wheels != [] {
      var w := wheels[|wheels| - 1];
      var before := PushChassis(chassis, wheels[..|wheels| - 1], dt);
      NoForceNoPush(chassis, wheels[..|wheels| - 1], dt);
      assert AppliedSuspensionForce(w) == 0.0;
      var impulse := Scale(AppliedSuspensionForce(w) * dt, w.contact.raycastResult.hitNormalWorld);
      assert impulse == Zero;
      var point := Sub(w.contact.raycastResult.hitPointWorld, before.position);
      assert Cross(point, impulse) == Zero;
      assert MatVec(before.invInertiaWorld, Zero) == Zero;
      assert Scale(before.invMass, Zero) == Zero;
    }
  }

  /** The wheels after every ray is cast (all from the same chassis pose)
      and the suspension updated. */
  function CastAll(v: Vehicle, rayTest: RayTest, ops: MathOps): (r: seq<Wheel>)
    ensures |r| == |v.wheelInfos|
    ensures forall i :: 0 <= i < |r| ==> r[i] == CastRay(v.chassis, v.wheelInfos[i], rayTest, ops).0
  {
    seq(|v.wheelInfos|, i requires 0 <= i < |v.wheelInfos| => CastRay(v.chassis, v.wheelInfos[i], rayTest, ops).0)
  }

  /** `updateVehicle(timeStep)` as written: the speed is computed, then the
      suspension loop calls `castRay` on the class, where it is not
      defined (it is an instance method), so a vehicle with any wheel
      throws; with none, the step ends with the speed set and sliding
      cleared. */
  function UpdateVehicleAsWritten(v: Vehicle, ops: MathOps): (r: Result<Vehicle>)
    ensures r.Err? <==> |v.wheelInfos| > 0
    ensures r.Ok? ==> r.value == v.(currentVehicleSpeedKmHour := SpeedKmHour(v.chassis, v.indexForwardAxis, ops), sliding := false)
  {
    if |v.wheelInfos| > 0 then Err(TypeError("RaycastVehicle.castRay is not a function"))
    else Ok(v.(currentVehicleSpeedKmHour := SpeedKmHour(v.chassis, v.indexForwardAxis, ops), sliding := false))
  }

  /** `updateVehicle(timeStep)` up to the suspension impulses, with each
      wheel's ray cast by the vehicle's own `castRay`: every wheel touches
      ground exactly when its ray hits, its suspension stays within its
      travel and pushes with a non-negative force, none without contact,
      and the chassis takes the capped impulses. */
  function UpdateVehicle(v: Vehicle, dt: real, rayTest: RayTest, ops: MathOps): (r: Vehicle)
    ensures |r.wheelInfos| == |v.wheelInfos|
    ensures r.currentVehicleSpeedKmHour == SpeedKmHour(v.chassis, v.indexForwardAxis, ops)
    ensures forall i :: 0 <= i < |r.wheelInfos| ==>
      (r.wheelInfos[i].contact.isInContact <==> Hit(v.chassis, v.wheelInfos[i], rayTest, ops).body.Some?) &&
      r.wheelInfos[i].contact.suspensionForce >= 0.0 &&
      (!r.wheelInfos[i].contact.isInContact ==> r.wheelInfos[i].contact.suspensionForce == 0.0)
    ensures forall i :: 0 <= i < |r.wheelInfos| && r.wheelInfos[i].contact.isInContact && v.wheelInfos[i].suspension.maxTravel >= 0.0 ==>
      v.wheelInfos[i].suspension.restLength - v.wheelInfos[i].suspension.maxTravel <= r.wheelInfos[i].contact.suspensionLength <=
      v.wheelInfos[i].suspension.restLength + v.wheelInfos[i].suspension.maxTravel
    ensures r.chassis == PushChassis(v.chassis, r.wheelInfos, dt)
  {
    var wheels := UpdateSuspension(CastAll(v, rayTest, ops), v.chassis.mass);
    v.(wheelInfos := wheels, chassis := PushChassis(v.chassis, wheels, dt),
       currentVehicleSpeedKmHour := SpeedKmHour(v.chassis, v.indexForwardAxis, ops))
  }

  /** A vehicle none of whose rays hits keeps its chassis's motion, while
      the step as written throws for it as soon as it has a wheel. */
  lemma AirborneVehicleCoasts(v: Vehicle, dt: real, rayTest: RayTest, ops: MathOps)
    requires |v.wheelInfos| > 0
    requires forall i :: 0 <= i < |v.wheelInfos| ==>
      Hit(v.chassis, v.wheelInfos[i], rayTest, ops).body.None? && v.wheelInfos[i].suspension.maxForce >= 0.0
    ensures UpdateVehicleAsWritten(v, ops).Err?
    ensures UpdateVehicle(v, dt, rayTest, ops).chassis.velocity == v.chassis.velocity
    ensures UpdateVehicle(v, dt, rayTest, ops).chassis.angularVelocity == v.chassis.angularVelocity
  {
    var r := UpdateVehicle(v, dt, rayTest, ops);
    forall i | 0 <= i < |r.wheelInfos|
      ensures r.wheelInfos[i].contact.suspensionForce == 0.0 && r.wheelInfos[i].suspension.maxForce >= 0.0
    {
      assert r.wheelInfos[i].suspension == v.wheelInfos[i].suspension;
    }
    NoForceNoPush(v.chassis, r.wheelInfos, dt);
  }

  /** The spin loop of `updateVehicle` for one wheel: a wheel in contact
      turns with the chassis's speed along the ground's forward direction
      over its radius (sign flipped when y is up); a sliding or airborne
      wheel under engine force with a custom sliding speed turns at that
      speed; a wheel braked harder than it is driven is locked. The
      rotation takes the turn, and the turn kept for the next step is
      damped to 99%. */
  function SpinWheel(w: Wheel, chassis: Body.Body, forwardAxis: int, upAxis: int, dt: real, ops: MathOps): (r: Wheel)
    requires w.contact.isInContact ==> w.tyre.radius != 0.0
    ensures r.(spin := w.spin) == w
    ensures r.spin.(rotation := w.spin.rotation, deltaRotation := w.spin.deltaRotation) == w.spin
    ensures r.spin.deltaRotation == 0.99 * (r.spin.rotation - w.spin.rotation)
    ensures Abs(w.controls.brake) > Abs(w.controls.engineForce) ==>
      r.spin.rotation == w.spin.rotation && r.spin.deltaRotation == 0.0
  {
    var m := if upAxis == 1 then -1.0 else 1.0;
    var velocity := Body.GetVelocityAtWorldPoint(chassis, w.mount.connectionWorld);
    var normal := w.contact.raycastResult.hitNormalWorld;
    var turn :=
      if w.contact.isInContact then
        var fwd := AxisWorld(chassis, forwardAxis, ops);
        var ground := Sub(fwd, Scale(Dot(fwd, normal), normal));
        (m * Dot(ground, velocity) * dt) / w.tyre.radius
      else w.spin.deltaRotation;
    var driven :=
      if (w.spin.sliding || !w.contact.isInContact) && w.controls.engineForce != 0.0 && w.tyre.useCustomSlidingRotationalSpeed
      then (if w.controls.engineForce > 0.0 then 1.0 else -1.0) * w.tyre.customSlidingRotationalSpeed * dt
      else turn;
    var applied := if Abs(w.controls.brake) > Abs(w.controls.engineForce) then 0.0 else driven;
    w.(spin := w.spin.(rotation := w.spin.rotation + applied, deltaRotation := applied * 0.99))
  }

  /** A coasting wheel, airborne and not driven at a custom speed, turns
      by what it kept from the last step, and keeps 99% of that; a locked
      wheel stays put however often it is stepped. */
  lemma WheelCoasts(w: Wheel, chassis: Body.Body, forwardAxis: int, upAxis: int, dt: real, ops: MathOps)
    requires !w.contact.isInContact
    ensures (!(w.controls.engineForce != 0.0 && w.tyre.useCustomSlidingRotationalSpeed) &&
             Abs(w.controls.brake) <= Abs(w.controls.engineForce)) ==>
      var r := SpinWheel(w, chassis, forwardAxis, upAxis, dt, ops);
      r.spin.rotation == w.spin.rotation + w.spin.deltaRotation && r.spin.deltaRotation == 0.99 * w.spin.deltaRotation
    ensures Abs(w.controls.brake) > Abs(w.controls.engineForce) ==>
      var once := SpinWheel(w, chassis, forwardAxis, upAxis, dt, ops);
      SpinWheel(once, chassis, forwardAxis, upAxis, dt, ops).spin.rotation == w.spin.rotation
  {
  }

  /** `computeImpulseDenominator(body, pos, normal)`: the inverse mass plus
      the rotational term n . ((I^-1 (r x n)) x r) at the point. */
  function ImpulseDenominator(b: Body.Body, pos: Vec3, normal: Vec3): real
  {
    var arm := Sub(pos, b.position);
    b.invMass + Dot(normal, Cross(MatVec(b.invInertiaWorld, Cross(arm, normal)), arm))
  }

  /** How fast the first body's point slides past the second's, along a
      direction. */
  function SlidingSpeed(b0: Body.Body, b1: Body.Body, pos: Vec3, dir: Vec3): real
  {
    Dot(dir, Sub(Body.GetVelocityAtWorldPoint(b0, pos), Body.GetVelocityAtWorldPoint(b1, pos)))
  }

  /** The impulse that would stop the sliding, before the clamp. */
  function StoppingImpulse(b0: Body.Body, b1: Body.Body, pos: Vec3, dir: Vec3): real
    requires ImpulseDenominator(b0, pos, dir) + ImpulseDenominator(b1, pos, dir) != 0.0
  {
    -SlidingSpeed(b0, b1, pos, dir) * (1.0 / (ImpulseDenominator(b0, pos, dir) + ImpulseDenominator(b1, pos, dir)))
  }

  /** `calcRollingFriction(body0, body1, pos, dir, maxImpulse)`: the
      stopping impulse clamped to at most `maxImpulse` either way. */
  function CalcRollingFriction(b0: Body.Body, b1: Body.Body, pos: Vec3, dir: Vec3, maxImpulse: real): (j: real)
    requires ImpulseDenominator(b0, pos, dir) + ImpulseDenominator(b1, pos, dir) != 0.0
    ensures maxImpulse >= 0.0 ==> -maxImpulse <= j <= maxImpulse
    ensures -maxImpulse <= StoppingImpulse(b0, b1, pos, dir) <= maxImpulse ==> j == StoppingImpulse(b0, b1, pos, dir)
    ensures maxImpulse >= 0.0 && StoppingImpulse(b0, b1, pos, dir) > maxImpulse ==> j == maxImpulse
    ensures maxImpulse >= 0.0 && StoppingImpulse(b0, b1, pos, dir) < -maxImpulse ==> j == -maxImpulse
  {
    var j1 := StoppingImpulse(b0, b1, pos, dir);
    var j2 := if maxImpulse < j1 then maxImpulse else j1;
    if j2 < -maxImpulse then -maxImpulse else j2
  }

  /** Rolling friction opposes the sliding: with a positive denominator
      and a non-negative limit it never pushes along the motion, it is
      zero when nothing slides, and a body rubbing on itself gets none. */
  lemma RollingFrictionOpposes(b0: Body.Body, b1: Body.Body, pos: Vec3, dir: Vec3, maxImpulse: real)
    requires ImpulseDenominator(b0, pos, dir) + ImpulseDenominator(b1, pos, dir) > 0.0 && maxImpulse >= 0.0
    ensures CalcRollingFriction(b0, b1, pos, dir, maxImpulse) * SlidingSpeed(b0, b1, pos, dir) <= 0.0
    ensures SlidingSpeed(b0, b1, pos, dir) == 0.0 ==> CalcRollingFriction(b0, b1, pos, dir, maxImpulse) == 0.0
    ensures b0 == b1 ==> CalcRollingFriction(b0, b1, pos, dir, maxImpulse) == 0.0
  {
    var u := SlidingSpeed(b0, b1, pos, dir);
    var inv := 1.0 / (ImpulseDenominator(b0, pos, dir) + ImpulseDenominator(b1, pos, dir));
    assert inv > 0.0;
    var j1 := StoppingImpulse(b0, b1, pos, dir);
    assert j1 == -u * inv;
    if u > 0.0 {
      assert j1 < 0.0;
    } else if u < 0.0 {
      assert j1 > 0.0;
    } else {
      assert j1 == 0.0;
    }
    if b0 == b1 {
      assert u == 0.0;
    }
  }

  /** The velocity of body 1 at point 1 relative to body 2 at point 2,
      along a normal. */
  function ContactSpeed(b1: Body.Body, p1: Vec3, b2: Body.Body, p2: Vec3, normal: Vec3): real
  {
    Dot(normal, Sub(Body.GetVelocityAtWorldPoint(b1, p1), Body.GetVelocityAtWorldPoint(b2, p2)))
  }

  /** `resolveSingleBilateral(body1, pos1, body2, pos2, normal)`: nothing for
      a normal longer than about unit length (squared length above 1.1);
      otherwise a fifth of the impulse that would stop the relative motion
      along the normal, shared by the two inverse masses. */
  function ResolveSingleBilateral(b1: Body.Body, p1: Vec3, b2: Body.Body, p2: Vec3, normal: Vec3): (j: real)
    requires NormSq(normal) <= 1.1 ==> b1.invMass + b2.invMass != 0.0
    ensures NormSq(normal) > 1.1 ==> j == 0.0
    ensures NormSq(normal) <= 1.1 ==> j * (b1.invMass + b2.invMass) == -0.2 * ContactSpeed(b1, p1, b2, p2, normal)
  {
    if NormSq(normal) > 1.1 then 0.0
    else
      var massTerm := 1.0 / (b1.invMass + b2.invMass);
      var j := -0.2 * ContactSpeed(b1, p1, b2, p2, normal) * massTerm;
      ScaleByInverse(-0.2 * ContactSpeed(b1, p1, b2, p2, normal), b1.invMass + b2.invMass);
      j
  }

  /** Multiplying by the inverse of a non-zero number and then by the
      number gives the value back. */
  lemma ScaleByInverse(a: real, s: real)
    requires s != 0.0
    ensures a * (1.0 / s) * s == a
  {
    assert (1.0 / s) * s == 1.0;
    assert a * (1.0 / s) * s == a * ((1.0 / s) * s);
  }

  /** The side impulse is an action-reaction pair and a brake: swapping
      the two bodies (and points) turns it around, and with positive
      inverse masses it opposes the relative motion. */
  lemma BilateralOpposes(b1: Body.Body, p1: Vec3, b2: Body.Body, p2: Vec3, normal: Vec3)
    requires b1.invMass + b2.invMass > 0.0
    ensures ResolveSingleBilateral(b2, p2, b1, p1, normal) == -ResolveSingleBilateral(b1, p1, b2, p2, normal)
    ensures ResolveSingleBilateral(b1, p1, b2, p2, normal) * ContactSpeed(b1, p1, b2, p2, normal) <= 0.0
  {
    var m := b1.invMass + b2.invMass;
    var u := ContactSpeed(b1, p1, b2, p2, normal);
    assert ContactSpeed(b2, p2, b1, p1, normal) == -u;
    assert b2.invMass + b1.invMass == m;
    if NormSq(normal) <= 1.1 {
      var j := ResolveSingleBilateral(b1, p1, b2, p2, normal);
      var k := ResolveSingleBilateral(b2, p2, b1, p1, normal);
      assert j * m == -0.2 * u;
      assert k * m == 0.2 * u;
      assert (k + j) * m == 0.0;
      assert k == -j;
      assert (j * u) * m == -0.2 * (u * u);
      assert u * u >= 0.0;
    }
  }
}
