/** A damped spring between an anchor point on each of two bodies. The
    bodies are positions in the world's body list; applying the spring
    changes the force and torque of those two bodies and nothing else. */
module Spring {
  import opened Vectors
  import opened Wrappers
  import Body

  datatype Spring = Spring(
    restLength: real,
    stiffness: real,
    damping: real,
    bodyA: nat,
    bodyB: nat,
    localAnchorA: Vec3,
    localAnchorB: Vec3)

  /** The `springOptions` `init` reads; `None` is a property the options
      lack (for `restLength`, one that is not a number). */
  datatype SpringOptions = SpringOptions(
    restLength: Option<real>,
    stiffness: Option<real>,
    damping: Option<real>,
    localAnchorA: Option<Vec3>,
    localAnchorB: Option<Vec3>,
    worldAnchorA: Option<Vec3>,
    worldAnchorB: Option<Vec3>)

  /** JavaScript's `x || d` on a number: a missing value and 0 both give d. */
  function OrNonZero(o: Option<real>, d: real): (r: real)
    ensures o.Some? && o.value != 0.0 ==> r == o.value
    ensures o.None? || o.value == 0.0 ==> r == d
  {
    if o.Some? && o.value != 0.0 then o.value else d
  }

  /** `init(options)`: the rest length defaults to 1 only when it is not a
      number, while a stiffness or damping of 0 is replaced like a missing
      one, so neither is ever 0. A world anchor, when given, wins over the
      local one and is stored in the body's frame, so that it maps back to
      the given point. */
  function Init(bodyA: nat, bodyB: nat, o: SpringOptions, bodies: seq<Body.Body>, ops: MathOps): (s: Spring)
    requires bodyA < |bodies| && bodyB < |bodies|
    ensures s.bodyA == bodyA && s.bodyB == bodyB
    ensures s.restLength == (if o.restLength.Some? then o.restLength.value else 1.0)
    ensures s.stiffness != 0.0 && s.damping != 0.0
    ensures o.stiffness.Some? && o.stiffness.value != 0.0 ==> s.stiffness == o.stiffness.value
    ensures o.damping.Some? && o.damping.value != 0.0 ==> s.damping == o.damping.value
    ensures o.worldAnchorA.Some? && Body.UndoesConjugate(ops, bodies[bodyA].quaternion) ==>
      WorldAnchorA(s, bodies, ops) == o.worldAnchorA.value
    ensures o.worldAnchorB.Some? && Body.UndoesConjugate(ops, bodies[bodyB].quaternion) ==>
      WorldAnchorB(s, bodies, ops) == o.worldAnchorB.value
    ensures o.worldAnchorA.None? ==> s.localAnchorA == Body.Or(o.localAnchorA, Zero)
    ensures o.worldAnchorB.None? ==> s.localAnchorB == Body.Or(o.localAnchorB, Zero)
  {
    var a := bodies[bodyA];
    var b := bodies[bodyB];
    var localA := if o.worldAnchorA.Some? then Body.PointToLocalFrame(a, o.worldAnchorA.value, ops)
      else Body.Or(o.localAnchorA, Zero);
    var localB := if o.worldAnchorB.Some? then Body.PointToLocalFrame(b, o.worldAnchorB.value, ops)
      else Body.Or(o.localAnchorB, Zero);
    var s := Spring(Body.Or(o.restLength, 1.0), OrNonZero(o.stiffness, 100.0), OrNonZero(o.damping, 1.0), bodyA, bodyB, localA, localB);
    assert o.worldAnchorA.Some? && Body.UndoesConjugate(ops, a.quaternion) ==> WorldAnchorA(s, bodies, ops) == o.worldAnchorA.value by {
      if o.worldAnchorA.Some? && Body.UndoesConjugate(ops, a.quaternion) {
        Body.LocalFrameRoundTrip(a, o.worldAnchorA.value, ops);
      }
    }
    assert o.worldAnchorB.Some? && Body.UndoesConjugate(ops, b.quaternion) ==> WorldAnchorB(s, bodies, ops) == o.worldAnchorB.value by {
      if o.worldAnchorB.Some? && Body.UndoesConjugate(ops, b.quaternion) {
        Body.LocalFrameRoundTrip(b, o.worldAnchorB.value, ops);
      }
    }
    s
  }

  /** `getWorldAnchorA`: anchor A in world coordinates. */
  function WorldAnchorA(s: Spring, bodies: seq<Body.Body>, ops: MathOps): Vec3
    requires s.bodyA < |bodies|
  {
    Body.PointToWorldFrame(bodies[s.bodyA], s.localAnchorA, ops)
  }

  /** `getWorldAnchorB`: anchor B in world coordinates. */
  function WorldAnchorB(s: Spring, bodies: seq<Body.Body>, ops: MathOps): Vec3
    requires s.bodyB < |bodies|
  {
    Body.PointToWorldFrame(bodies[s.bodyB], s.localAnchorB, ops)
  }

  predicate Valid(s: Spring, bodies: seq<Body.Body>)
  {
    s.bodyA < |bodies| && s.bodyB < |bodies|
  }

  /** The offsets of the anchors from their bodies' centres. */
  function ArmA(s: Spring, bodies: seq<Body.Body>, ops: MathOps): Vec3
    requires Valid(s, bodies)
  {
    Sub(WorldAnchorA(s, bodies, ops), bodies[s.bodyA].position)
  }

  function ArmB(s: Spring, bodies: seq<Body.Body>, ops: MathOps): Vec3
    requires Valid(s, bodies)
  {
    Sub(WorldAnchorB(s, bodies, ops), bodies[s.bodyB].position)
  }

  /** The unit vector from anchor A to anchor B. */
  function Direction(s: Spring, bodies: seq<Body.Body>, ops: MathOps): Vec3
    requires Valid(s, bodies)
  {
    ops.normalize(Sub(WorldAnchorB(s, bodies, ops), WorldAnchorA(s, bodies, ops)))
  }

  /** How far the anchors are beyond the rest length (negative when the
      spring is compressed). */
  function Stretch(s: Spring, bodies: seq<Body.Body>, ops: MathOps): real
    requires Valid(s, bodies)
  {
    ops.sqrt(NormSq(Sub(WorldAnchorB(s, bodies, ops), WorldAnchorA(s, bodies, ops)))) - s.restLength
  }

  /** The velocity of anchor B relative to anchor A, each anchor moving
      with its body's velocity plus the body's spin about its centre. */
  function RelativeVelocity(s: Spring, bodies: seq<Body.Body>, ops: MathOps): Vec3
    requires Valid(s, bodies)
  {
    var a, b := bodies[s.bodyA], bodies[s.bodyB];
    Sub(Add(Sub(b.velocity, a.velocity), Cross(b.angularVelocity, ArmB(s, bodies, ops))),
        Cross(a.angularVelocity, ArmA(s, bodies, ops)))
  }

  /** The force on body B (body A takes its opposite): Hooke's law on the
      stretch plus damping of the velocity along the spring, directed
      along the spring. */
  function Force(s: Spring, bodies: seq<Body.Body>, ops: MathOps): (f: Vec3)
    requires Valid(s, bodies)
  {
    var dir := Direction(s, bodies, ops);
    Scale(-s.stiffness * Stretch(s, bodies, ops) - s.damping * Dot(RelativeVelocity(s, bodies, ops), dir), dir)
  }

  /** At its rest length and with its anchors not moving apart or together,
      the spring pulls on nothing. */
  lemma AtRestNoForce(s: Spring, bodies: seq<Body.Body>, ops: MathOps)
    requires Valid(s, bodies)
    requires Stretch(s, bodies, ops) == 0.0
    requires Dot(RelativeVelocity(s, bodies, ops), Direction(s, bodies, ops)) == 0.0
    ensures Force(s, bodies, ops) == Zero
  {
  }

  /** Without motion along the spring, a stretched spring pulls body B back
      towards A and a compressed one pushes it away: the force is a
      negative multiple of the direction from A to B when stretched, and a
      positive one when compressed. */
  lemma Restoring(s: Spring, bodies: seq<Body.Body>, ops: MathOps)
    requires Valid(s, bodies) && s.stiffness > 0.0
    requires Dot(RelativeVelocity(s, bodies, ops), Direction(s, bodies, ops)) == 0.0
    ensures exists c: real :: (Force(s, bodies, ops) == Scale(c, Direction(s, bodies, ops)) &&
      (Stretch(s, bodies, ops) > 0.0 ==> c < 0.0) && (Stretch(s, bodies, ops) < 0.0 ==> c > 0.0))
  {
    var x := Stretch(s, bodies, ops);
    var c := -s.stiffness * x - s.damping * 0.0;
    assert Force(s, bodies, ops) == Scale(c, Direction(s, bodies, ops));
    if x > 0.0 {
      assert s.stiffness * x > 0.0;
    } else if x < 0.0 {
      assert s.stiffness * x < 0.0;
    }
  }

  /** A force and a torque added to a body; nothing else about it changes. */
  function Push(b: Body.Body, f: Vec3, t: Vec3): (r: Body.Body)
    ensures r.force == Add(b.force, f) && r.torque == Add(b.torque, t)
  {
    b.(force := Add(b.force, f), torque := Add(b.torque, t))
  }

  /** Two pushes add up; a push changes only the force and the torque. */
  lemma PushPush(b: Body.Body, f: Vec3, t: Vec3, g: Vec3, u: Vec3)
    ensures Push(Push(b, f, t), g, u) == Push(b, Add(f, g), Add(t, u))
    ensures Push(b, f, t).(force := b.force, torque := b.torque) == b
  {
  }

  /** `applyForce`: body A takes -f and -(ri x f), then body B takes +f and
      +(rj x f), with ri and rj the anchors' arms; when both ends are on
      one body the two updates land on it in that order. */
  function ApplyForce(s: Spring, bodies: seq<Body.Body>, ops: MathOps): (r: seq<Body.Body>)
    requires Valid(s, bodies)
    ensures |r| == |bodies|
    ensures forall k :: 0 <= k < |r| && k != s.bodyA && k != s.bodyB ==> r[k] == bodies[k]
    ensures s.bodyA != s.bodyB ==>
      r[s.bodyA] == Push(bodies[s.bodyA], Neg(Force(s, bodies, ops)), Neg(Cross(ArmA(s, bodies, ops), Force(s, bodies, ops)))) &&
      r[s.bodyB] == Push(bodies[s.bodyB], Force(s, bodies, ops), Cross(ArmB(s, bodies, ops), Force(s, bodies, ops)))
    ensures s.bodyA == s.bodyB ==>
      r[s.bodyA] == Push(Push(bodies[s.bodyA], Neg(Force(s, bodies, ops)), Neg(Cross(ArmA(s, bodies, ops), Force(s, bodies, ops)))),
        Force(s, bodies, ops), Cross(ArmB(s, bodies, ops), Force(s, bodies, ops)))
  {
    var f := Force(s, bodies, ops);
    var first := bodies[s.bodyA := Push(bodies[s.bodyA], Neg(f), Neg(Cross(ArmA(s, bodies, ops), f)))];
    first[s.bodyB := Push(first[s.bodyB], f, Cross(ArmB(s, bodies, ops), f))]
  }

  /** Only the force and torque of the spring's bodies change, and a spring
      with both ends on one body leaves that body's force as it was. */
  lemma ApplyForceFrame(s: Spring, bodies: seq<Body.Body>, ops: MathOps, k: nat)
    requires Valid(s, bodies) && k < |bodies|
    ensures var r := ApplyForce(s, bodies, ops);
      r[k].(force := bodies[k].force, torque := bodies[k].torque) == bodies[k]
    ensures s.bodyA == s.bodyB ==> ApplyForce(s, bodies, ops)[s.bodyA].force == bodies[s.bodyA].force
  {
    var f := Force(s, bodies, ops);
    var ta, tb := Neg(Cross(ArmA(s, bodies, ops), f)), Cross(ArmB(s, bodies, ops), f);
    var r := ApplyForce(s, bodies, ops);
    if s.bodyA == s.bodyB {
      PushPush(bodies[s.bodyA], Neg(f), ta, f, tb);
      assert Add(Neg(f), f) == Zero;
      if k == s.bodyA {
        PushPush(bodies[k], Zero, Add(ta, tb), Zero, Zero);
      }
    } else if k == s.bodyA {
      PushPush(bodies[k], Neg(f), ta, Zero, Zero);
    } else if k == s.bodyB {
      PushPush(bodies[k], f, tb, Zero, Zero);
    }
  }

  /** The sum of the forces on all bodies. */
  function NetForce(bodies: seq<Body.Body>): Vec3
  {
    if |bodies| == 0 then Zero else Add(NetForce(bodies[..|bodies| - 1]), bodies[|bodies| - 1].force)
  }

  /** Replacing one body's force changes the net force by the difference. */
  lemma {:induction false} NetForceUpdate(bodies: seq<Body.Body>, k: nat, b: Body.Body)
    requires k < |bodies|
    ensures NetForce(bodies[k := b]) == Add(Sub(NetForce(bodies), bodies[k].force), b.force)
    decreases |bodies|
  {
    var n := |bodies| - 1;
    var updated := bodies[k := b];
    if k < n {
      assert updated[..n] == bodies[..n][k := b];
      NetForceUpdate(bodies[..n], k, b);
    } else {
      assert updated[..n] == bodies[..n];
    }
  }

  /** The spring's forces are equal and opposite: the net force on the
      bodies is what it was. */
  lemma ApplyForceKeepsNetForce(s: Spring, bodies: seq<Body.Body>, ops: MathOps)
    requires Valid(s, bodies)
    ensures NetForce(ApplyForce(s, bodies, ops)) == NetForce(bodies)
  {
    var f := Force(s, bodies, ops);
    var first := bodies[s.bodyA := Push(bodies[s.bodyA], Neg(f), Neg(Cross(ArmA(s, bodies, ops), f)))];
    NetForceUpdate(bodies, s.bodyA, first[s.bodyA]);
    NetForceUpdate(first, s.bodyB, Push(first[s.bodyB], f, Cross(ArmB(s, bodies, ops), f)));
  }
}
