/** The base constraint: a pair of bodies, the equations that hold them
    together, whether the pair may still collide, and the subclass data.

    Bodies are named by their positions in the world's body list. The
    subclasses all build on the point-to-point constraint (except the
    distance constraint), whose three contact equations come first in
    `equations`; the subclass modules say what follows them. */
module Constraint {
  import opened Vectors
  import opened Wrappers
  import Body
  import Equation

  /** The subclass a constraint belongs to, with the fields it adds. The
      point-to-point family shares the names of its pivots. */
  datatype Kind =
    | Plain
    | PointToPoint(pivotA: Vec3, pivotB: Vec3)
    | Hinge(pivotA: Vec3, pivotB: Vec3, axisA: Vec3, axisB: Vec3)
    | Lock(pivotA: Vec3, pivotB: Vec3, xA: Vec3, xB: Vec3, yA: Vec3, yB: Vec3, zA: Vec3, zB: Vec3)
    | ConeTwist(pivotA: Vec3, pivotB: Vec3, axisA: Vec3, axisB: Vec3, angle: real, twistAngle: real)
    | Distance(distance: real)

  /** `_id` is the number Croquet gave the constraint. */
  datatype Constraint = Constraint(
    id: int,
    bodyA: nat,
    bodyB: nat,
    equations: seq<Equation.Equation>,
    collideConnected: bool,
    kind: Kind)

  /** `constraintOptions`; `None` is a missing entry. */
  datatype Options = Options(collideConnected: Option<bool>, wakeUpBodies: Option<bool>)

  /** What a subclass passes: no options at all. */
  const NoOptions: Options := Options(None, None)

  /** A new constraint and the world's bodies after it woke its pair. */
  datatype Built = Built(constraint: Constraint, bodies: seq<Body.Body>)

  /** The point-to-point family: the kinds that carry two pivots. */
  predicate HasPivots(k: Kind)
  {
    k.PointToPoint? || k.Hinge? || k.Lock? || k.ConeTwist?
  }

  /** Both bodies are in the list. */
  predicate Valid(c: Constraint, bodies: seq<Body.Body>)
  {
    c.bodyA < |bodies| && c.bodyB < |bodies|
  }

  /** `wakeUp` on two bodies of the list, the first then the second. */
  function WakePair(bodies: seq<Body.Body>, a: nat, b: nat): (r: seq<Body.Body>)
    requires a < |bodies| && b < |bodies|
    ensures |r| == |bodies|
    ensures r[a].sleepState == Body.Awake && r[b].sleepState == Body.Awake
    ensures forall i :: 0 <= i < |bodies| && i != a && i != b ==> r[i] == bodies[i]
    ensures forall i :: 0 <= i < |bodies| && (i == a || i == b) ==>
      !r[i].wakeUpAfterNarrowphase &&
      r[i].(sleepState := bodies[i].sleepState, wakeUpAfterNarrowphase := bodies[i].wakeUpAfterNarrowphase) == bodies[i]
  {
    var woken := bodies[a := Body.WakeUp(bodies[a])];
    woken[b := Body.WakeUp(woken[b])]
  }

  /** `init` as written: the destructured `constraintOptions` is a `const`
      binding, and filling in its defaults assigns to it, which throws
      whatever the options. */
  function InitAsWritten(id: int, bodyA: nat, bodyB: nat, options: Options, bodies: seq<Body.Body>): (r: Result<Built>)
    ensures r.Err? && r.error.TypeError?
  {
    Err(TypeError("Assignment to constant variable."))
  }

  /** `init` as intended: missing options default to `collideConnected`
      and `wakeUpBodies` both true; the equation list starts empty, and
      when asked to, both bodies are woken. */
  function Init(id: int, bodyA: nat, bodyB: nat, options: Options, bodies: seq<Body.Body>): (r: Built)
    requires bodyA < |bodies| && bodyB < |bodies|
    ensures r.constraint.id == id && r.constraint.bodyA == bodyA && r.constraint.bodyB == bodyB
    ensures r.constraint.equations == [] && r.constraint.kind == Plain
    ensures r.constraint.collideConnected <==> options.collideConnected != Some(false)
    ensures |r.bodies| == |bodies|
    ensures options.wakeUpBodies != Some(false) ==>
      r.bodies[bodyA].sleepState == Body.Awake && r.bodies[bodyB].sleepState == Body.Awake
    ensures options.wakeUpBodies == Some(false) ==> r.bodies == bodies
    ensures forall i :: 0 <= i < |bodies| && i != bodyA && i != bodyB ==> r.bodies[i] == bodies[i]
  {
    var collideConnected := Body.Or(options.collideConnected, true);
    var wakeUpBodies := Body.Or(options.wakeUpBodies, true);
    var c := Constraint(id, bodyA, bodyB, [], collideConnected, Plain);
    Built(c, if wakeUpBodies then WakePair(bodies, bodyA, bodyB) else bodies)
  }

  /** The base `update`: a subclass must override it. */
  function UpdateBase(c: Constraint): (r: Result<Constraint>)
    ensures r.Err? && r.error.Thrown?
  {
    Err(Thrown("method update() not implmemented in this Constraint subclass!"))
  }

  /** Every equation with its `enabled` flag set to `on`. */
  function SetEnabled(eqs: seq<Equation.Equation>, on: bool): (r: seq<Equation.Equation>)
    ensures |r| == |eqs|
    ensures forall k :: 0 <= k < |eqs| ==> r[k].enabled == on
    ensures forall k :: 0 <= k < |eqs| ==> r[k].(enabled := eqs[k].enabled) == eqs[k]
  {
    seq(|eqs|, k requires 0 <= k < |eqs| => eqs[k].(enabled := on))
  }

  /** `enable`: every equation of the constraint enabled, nothing else
      changed. */
  function Enable(c: Constraint): (r: Constraint)
    ensures |r.equations| == |c.equations|
    ensures forall k :: 0 <= k < |c.equations| ==> r.equations[k].enabled
    ensures forall k :: 0 <= k < |c.equations| ==> r.equations[k].(enabled := c.equations[k].enabled) == c.equations[k]
    ensures r.(equations := c.equations) == c
  {
    c.(equations := SetEnabled(c.equations, true))
  }

  /** `disable`: every equation of the constraint disabled, nothing else
      changed. */
  function Disable(c: Constraint): (r: Constraint)
    ensures |r.equations| == |c.equations|
    ensures forall k :: 0 <= k < |c.equations| ==> !r.equations[k].enabled
    ensures forall k :: 0 <= k < |c.equations| ==> r.equations[k].(enabled := c.equations[k].enabled) == c.equations[k]
    ensures r.(equations := c.equations) == c
  {
    c.(equations := SetEnabled(c.equations, false))
  }

  predicate AllEnabled(eqs: seq<Equation.Equation>)
  {
    forall k :: 0 <= k < |eqs| ==> eqs[k].enabled
  }

  /** Enabling undoes disabling on a constraint whose equations were all
      enabled; only the last of the two calls matters; each is idempotent. */
  lemma {:induction false} EnableUndoesDisable(c: Constraint)
    ensures AllEnabled(c.equations) ==> Enable(Disable(c)) == c
    ensures Disable(Enable(c)) == Disable(c) && Enable(Disable(c)) == Enable(c)
    ensures Enable(Enable(c)) == Enable(c) && Disable(Disable(c)) == Disable(c)
  {
    var on, off := Enable(c), Disable(c);
    if AllEnabled(c.equations) {
      assert Enable(off).equations == c.equations;
    }
    assert Disable(on).equations == off.equations;
    assert Enable(off).equations == on.equations;
    assert Enable(on).equations == on.equations;
    assert Disable(off).equations == off.equations;
  }
}
