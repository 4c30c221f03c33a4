/** The world: the body list with its indices, the contact material table,
    the constraints, and the bookkeeping of a time step.

    Bodies and constraints are told apart by their `_id`, as the source
    tells them apart by object identity. The phases a step delegates to
    (the broadphase, the narrowphase's resolvers, the solver, velocity
    damping with its `Math.pow`) come in as `Phases`. Croquet's `publish`
    calls and the collide and contact events they carry are not modelled,
    and neither are the collision matrices and overlap keepers of a step,
    which only feed those events. */
module World {
  import opened Vectors
  import opened Wrappers
  import JsNumbers
  import Body
  import Materials
  import TupleDictionary
  import ArrayCollisionMatrix
  import Equation
  import Solver
  import Narrowphase
  import Constraint
  import PointToPointConstraint
  import HingeConstraint
  import LockConstraint
  import ConeTwistConstraint
  import DistanceConstraint

  datatype World = World(
    bodies: seq<Body.Body>,
    registered: set<int>,
    collisionMatrix: ArrayCollisionMatrix.Matrix,
    contactMaterials: seq<Materials.ContactMaterial>,
    contactMaterialTable: TupleDictionary.Dict<Materials.ContactMaterial>,
    defaultContactMaterial: Materials.ContactMaterial,
    constraints: seq<Constraint.Constraint>,
    solver: Solver.Solver,
    gravity: Vec3,
    allowSleep: bool,
    quatNormalizeSkip: nat,
    quatNormalizeFast: bool,
    time: real,
    dt: real,
    stepnumber: nat,
    accumulator: real,
    hasActiveBodies: bool,
    broadphaseDirty: bool)

  /** The options `init` reads; `None` is a missing key. */
  datatype Options = Options(
    gravity: Option<Vec3>,
    allowSleep: Option<bool>,
    quatNormalizeSkip: Option<nat>,
    quatNormalizeFast: Option<bool>)

  /** `init`: no bodies, no constraints, time 0, `dt` -1, gravity zero
      unless given, sleeping only when asked for, and a default contact
      material between the default material and itself with friction 0.3
      and restitution 0. `materialId` and `contactMaterialId` are the ids
      Croquet gives the two. */
  function Init(o: Options, materialId: int, contactMaterialId: int): (w: World)
    ensures w.bodies == [] && w.registered == {} && w.constraints == [] && w.contactMaterials == []
    ensures w.solver.equations == [] && w.broadphaseDirty
    ensures w.contactMaterialTable == TupleDictionary.Init() && ArrayCollisionMatrix.Valid(w.collisionMatrix)
    ensures w.time == 0.0 && w.dt == -1.0 && w.stepnumber == 0 && w.accumulator == 0.0 && !w.hasActiveBodies
    ensures w.allowSleep <==> o.allowSleep == Some(true)
    ensures w.gravity == (if o.gravity.Some? then o.gravity.value else Zero)
    ensures w.quatNormalizeSkip == (if o.quatNormalizeSkip.Some? then o.quatNormalizeSkip.value else 0)
    ensures w.quatNormalizeFast <==> o.quatNormalizeFast == Some(true)
    ensures w.defaultContactMaterial.m1 == materialId && w.defaultContactMaterial.m2 == materialId
    ensures w.defaultContactMaterial.friction == 0.3 && w.defaultContactMaterial.restitution == 0.0
  {
    var cmOptions := Materials.ContactMaterialOptions(Some(0.3), Some(0.0), None, None, None, None);
    World(
      [], {}, ArrayCollisionMatrix.Init(), [], TupleDictionary.Init(),
      Materials.NewContactMaterial(contactMaterialId, materialId, materialId, cmOptions),
      [], Solver.Init(),
      if o.gravity.Some? then o.gravity.value else Zero,
      o.allowSleep == Some(true),
      if o.quatNormalizeSkip.Some? then o.quatNormalizeSkip.value else 0,
      o.quatNormalizeFast == Some(true),
      0.0, -1.0, 0, 0.0, false, true)
  }

  // Bodies.

  /** Every body knows its position in the list. */
  predicate Indexed(bodies: seq<Body.Body>)
  {
    forall i :: 0 <= i < |bodies| ==> bodies[i].index == i
  }

  /** The position of the first body with the id, as `indexOf` finds the
      same object. */
  function IndexOfBody(bodies: seq<Body.Body>, id: int): (r: Option<nat>)
    ensures r.Some? ==>
      r.value < |bodies| && bodies[r.value].id == id && forall k :: 0 <= k < r.value ==> bodies[k].id != id
    ensures r.None? ==> forall k :: 0 <= k < |bodies| ==> bodies[k].id != id
  {
    if |bodies| == 0 then None
    else if bodies[0].id == id then Some(0)
    else
      var rest := IndexOfBody(bodies[1..], id);
      if rest.Some? then Some(rest.value + 1) else None
  }

  /** The largest body count whose pair matrix length n(n-1)/2 stays
      within JavaScript's 32-bit shift. */
  const MaxBodies: nat := 46340

  /** `addBody`: a body already in the list changes nothing; otherwise it
      goes at the end with its index, its initial position and the time it
      was last sleepy set, it is registered by id, and the collision matrix
      is sized for the new count. */
  function AddBody(w: World, b: Body.Body): (r: Result<World>)
    requires ArrayCollisionMatrix.Valid(w.collisionMatrix)
    ensures IndexOfBody(w.bodies, b.id).Some? ==> r == Ok(w)
    ensures IndexOfBody(w.bodies, b.id).None? && |w.bodies| < MaxBodies ==> r.Ok?
    ensures r.Err? ==> r.error.RangeError?
    ensures r.Ok? && IndexOfBody(w.bodies, b.id).None? ==>
      var v, n := r.value, |w.bodies|;
      |v.bodies| == n + 1 && v.bodies[..n] == w.bodies &&
      v.bodies[n].index == n && v.bodies[n].initPosition == b.position && v.bodies[n].timeLastSleepy == w.time &&
      v.bodies[n].(index := b.index, initPosition := b.initPosition, timeLastSleepy := b.timeLastSleepy) == b &&
      v.registered == w.registered + {b.id} &&
      ArrayCollisionMatrix.Valid(v.collisionMatrix) &&
      (n < MaxBodies ==> v.collisionMatrix.length == (n + 1) * n / 2) &&
      v.(bodies := w.bodies, registered := w.registered, collisionMatrix := w.collisionMatrix) == w
    ensures r.Ok? && Indexed(w.bodies) ==> Indexed(r.value.bodies)
  {
    if IndexOfBody(w.bodies, b.id).Some? then Ok(w)
    else
      var n := |w.bodies|;
      var added := b.(index := n, initPosition := b.position, timeLastSleepy := w.time);
      var bodies := w.bodies + [added];
      assert n + 1 <= MaxBodies ==>
        ArrayCollisionMatrix.SetNumObjects(w.collisionMatrix, n + 1).Ok? &&
        ArrayCollisionMatrix.SetNumObjects(w.collisionMatrix, n + 1).value.length == (n + 1) * n / 2 by {
        if n + 1 <= MaxBodies {
          ArrayCollisionMatrix.SetNumObjectsLength(w.collisionMatrix, n + 1);
        }
      }
      var m :- ArrayCollisionMatrix.SetNumObjects(w.collisionMatrix, |bodies|);
      Ok(w.(bodies := bodies, collisionMatrix := m, registered := w.registered + {b.id}))
  }

  /** Every body's index set to its position. */
  function Reindex(bodies: seq<Body.Body>): (r: seq<Body.Body>)
    ensures |r| == |bodies| && Indexed(r)
    ensures forall i :: 0 <= i < |bodies| ==> r[i] == bodies[i].(index := i)
  {
    seq(|bodies|, i requires 0 <= i < |bodies| => bodies[i].(index := i))
  }

  /** The list without the body at k, every body renumbered. */
  function Splice(bodies: seq<Body.Body>, k: nat): (r: seq<Body.Body>)
    requires k < |bodies|
    ensures |r| == |bodies| - 1 && Indexed(r)
    ensures forall i :: 0 <= i < k ==> r[i] == bodies[i].(index := i)
    ensures forall i :: k <= i < |r| ==> r[i] == bodies[i + 1].(index := i)
  {
    var rest := bodies[..k] + bodies[k + 1..];
    assert forall i :: k <= i < |rest| ==> rest[i] == bodies[i + 1];
    Reindex(rest)
  }

  /** `removeBody`: a body not in the list changes nothing; otherwise it
      leaves the list, every later body moves down one place and has its
      index renumbered, its id is unregistered and the collision matrix is
      sized for the new count. */
  function RemoveBody(w: World, id: int): (r: Result<World>)
    requires ArrayCollisionMatrix.Valid(w.collisionMatrix)
    ensures IndexOfBody(w.bodies, id).None? ==> r == Ok(w)
    ensures IndexOfBody(w.bodies, id).Some? && |w.bodies| <= MaxBodies ==> r.Ok?
    ensures r.Err? ==> r.error.RangeError?
    ensures r.Ok? && IndexOfBody(w.bodies, id).Some? ==>
      r.value.bodies == Splice(w.bodies, IndexOfBody(w.bodies, id).value) &&
      r.value.registered == w.registered - {id} &&
      ArrayCollisionMatrix.Valid(r.value.collisionMatrix) &&
      r.value.(bodies := w.bodies, registered := w.registered, collisionMatrix := w.collisionMatrix) == w
  {
    var idx := IndexOfBody(w.bodies, id);
    if idx.None? then Ok(w)
    else
      var n := |w.bodies| - 1;
      assert n <= MaxBodies ==> ArrayCollisionMatrix.SetNumObjects(w.collisionMatrix, n).Ok? by {
        if n <= MaxBodies {
          ArrayCollisionMatrix.SetNumObjectsLength(w.collisionMatrix, n);
        }
      }
      var m :- ArrayCollisionMatrix.SetNumObjects(w.collisionMatrix, n);
      Ok(w.(bodies := Splice(w.bodies, idx.value), collisionMatrix := m, registered := w.registered - {id}))
  }

  /** Removing a body just added to an indexed world gives the body list
      and the registrations back. */
  lemma RemoveUndoesAdd(w: World, b: Body.Body)
    requires ArrayCollisionMatrix.Valid(w.collisionMatrix) && Indexed(w.bodies)
    requires IndexOfBody(w.bodies, b.id).None? && b.id !in w.registered && |w.bodies| < MaxBodies
    ensures AddBody(w, b).Ok?
    ensures var v := AddBody(w, b).value;
      RemoveBody(v, b.id).Ok? && RemoveBody(v, b.id).value.bodies == w.bodies &&
      RemoveBody(v, b.id).value.registered == w.registered
  {
    var v := AddBody(w, b).value;
    var n := |w.bodies|;
    assert v.bodies[..n] == w.bodies;
    assert IndexOfBody(v.bodies, b.id) == Some(n) by {
      assert forall k :: 0 <= k < n ==> v.bodies[k].id != b.id;
      IndexOfFirst(v.bodies, b.id, n);
    }
    assert v.bodies[..n] + v.bodies[n + 1..] == w.bodies;
  }

  /** The first body with the id is at `k` when it is there and no earlier
      body has the id. */
  lemma {:induction false} IndexOfFirst(bodies: seq<Body.Body>, id: int, k: nat)
    requires k < |bodies| && bodies[k].id == id
    requires forall i :: 0 <= i < k ==> bodies[i].id != id
    ensures IndexOfBody(bodies, id) == Some(k)
  {
    if k > 0 {
      IndexOfFirst(bodies[1..], id, k - 1);
    }
  }

  // Contact materials.

  /** `getContactMaterial`: the table entry for the two materials' ids. */
  function GetContactMaterial(w: World, m1: int, m2: int): Option<Materials.ContactMaterial>
  {
    TupleDictionary.Get(w.contactMaterialTable, m1, m2)
  }

  /** `addContactMaterial`: listed, and stored under its two materials in
      the table; a contact material object is always truthy. Afterwards it
      is found for the two materials in either order, and every other pair
      of materials finds what it found before. */
  function AddContactMaterial(w: World, cm: Materials.ContactMaterial): (r: World)
    requires TupleDictionary.Valid(w.contactMaterialTable)
    ensures TupleDictionary.Valid(r.contactMaterialTable)
    ensures r.contactMaterials == w.contactMaterials + [cm]
    ensures GetContactMaterial(r, cm.m1, cm.m2) == Some(cm) && GetContactMaterial(r, cm.m2, cm.m1) == Some(cm)
    ensures forall a, b :: TupleDictionary.Key(a, b) != TupleDictionary.Key(cm.m1, cm.m2) ==>
      GetContactMaterial(r, a, b) == GetContactMaterial(w, a, b)
    ensures r.(contactMaterials := w.contactMaterials, contactMaterialTable := w.contactMaterialTable) == w
  {
    TupleDictionary.GetSymmetric(TupleDictionary.Set(w.contactMaterialTable, cm.m1, cm.m2, cm, _ => true), cm.m1, cm.m2);
    w.(contactMaterials := w.contactMaterials + [cm],
       contactMaterialTable := TupleDictionary.Set(w.contactMaterialTable, cm.m1, cm.m2, cm, _ => true))
  }

  /** The lookup does not depend on the order of the two materials. */
  lemma GetContactMaterialSymmetric(w: World, m1: int, m2: int)
    ensures GetContactMaterial(w, m1, m2) == GetContactMaterial(w, m2, m1)
  {
    TupleDictionary.GetSymmetric(w.contactMaterialTable, m1, m2);
  }

  /** What the narrowphase reads off the world, with the material records
      behind the ids. */
  function NarrowphaseView(w: World, materialOf: int -> Materials.Material): (v: Narrowphase.World)
    ensures forall m1, m2 :: Narrowphase.PairContactMaterial(v, Some(m1), Some(m2)) == GetContactMaterial(w, m1, m2)
    ensures v.defaultContactMaterial == w.defaultContactMaterial && v.dt == w.dt && v.gravity == w.gravity
  {
    Narrowphase.World(materialOf, w.contactMaterialTable, w.defaultContactMaterial, w.dt, w.gravity)
  }

  // Constraints.

  /** The position of the first constraint with the id. */
  function IndexOfConstraint(cs: seq<Constraint.Constraint>, id: int): (r: Option<nat>)
    ensures r.Some? ==> r.value < |cs| && cs[r.value].id == id && forall k :: 0 <= k < r.value ==> cs[k].id != id
    ensures r.None? ==> forall k :: 0 <= k < |cs| ==> cs[k].id != id
  {
    if |cs| == 0 then None
    else if cs[0].id == id then Some(0)
    else
      var rest := IndexOfConstraint(cs[1..], id);
      if rest.Some? then Some(rest.value + 1) else None
  }

  /** `addConstraint`: appended. */
  function AddConstraint(w: World, c: Constraint.Constraint): (r: World)
    ensures r.constraints == w.constraints + [c] && r.(constraints := w.constraints) == w
  {
    w.(constraints := w.constraints + [c])
  }

  /** `removeConstraint`: the first occurrence goes; an absent constraint
      changes nothing. */
  function RemoveConstraint(w: World, id: int): (r: World)
    ensures IndexOfConstraint(w.constraints, id).None? ==> r == w
    ensures IndexOfConstraint(w.constraints, id).Some? ==>
      var k := IndexOfConstraint(w.constraints, id).value;
      r.constraints == w.constraints[..k] + w.constraints[k + 1..]
    ensures r.(constraints := w.constraints) == w
  {
    var k := IndexOfConstraint(w.constraints, id);
    if k.Some? then w.(constraints := w.constraints[..k.value] + w.constraints[k.value + 1..]) else w
  }

  /** Removing a constraint just added, whose id no other constraint has,
      gives the world back. */
  lemma {:induction false} RemoveConstraintUndoesAdd(w: World, c: Constraint.Constraint)
    requires IndexOfConstraint(w.constraints, c.id).None?
    ensures RemoveConstraint(AddConstraint(w, c), c.id) == w
  {
    var cs := w.constraints + [c];
    var n := |w.constraints|;
    ConstraintIndexOfFirst(cs, c.id, n);
    assert cs[..n] + cs[n + 1..] == w.constraints;
  }

  lemma {:induction false} ConstraintIndexOfFirst(cs: seq<Constraint.Constraint>, id: int, k: nat)
    requires k < |cs| && cs[k].id == id
    requires forall i :: 0 <= i < k ==> cs[i].id != id
    ensures IndexOfConstraint(cs, id) == Some(k)
  {
    if k > 0 {
      ConstraintIndexOfFirst(cs[1..], id, k - 1);
    }
  }

  /** What the subclass's `update` works on. */
  predicate Updatable(c: Constraint.Constraint)
  {
    match c.kind
    case Plain => true
    case PointToPoint(_, _) => PointToPointConstraint.Shaped(c)
    case Hinge(_, _, _, _) => HingeConstraint.Shaped(c)
    case Lock(_, _, _, _, _, _, _, _) => LockConstraint.Shaped(c)
    case ConeTwist(_, _, _, _, _, _) => ConeTwistConstraint.Shaped(c)
    case Distance(_) => DistanceConstraint.Shaped(c)
  }

  /** Every equation is between bodies of the list. */
  predicate AllValid(eqs: seq<Equation.Equation>, bodies: seq<Body.Body>)
  {
    forall k :: 0 <= k < |eqs| ==> Equation.Valid(eqs[k], bodies)
  }

  /** A constraint a step can update and hand to the solver. */
  predicate Ready(c: Constraint.Constraint, bodies: seq<Body.Body>)
  {
    Updatable(c) && Constraint.Valid(c, bodies) && AllValid(c.equations, bodies)
  }

  /** Two equation lists of one length whose equations join the same
      bodies, place by place. */
  predicate SameEnds(a: seq<Equation.Equation>, b: seq<Equation.Equation>)
  {
    |a| == |b| && forall k :: 0 <= k < |a| ==> b[k].bi == a[k].bi && b[k].bj == a[k].bj
  }

  lemma SameEndsValid(a: seq<Equation.Equation>, b: seq<Equation.Equation>, bodies: seq<Body.Body>)
    requires SameEnds(a, b) && AllValid(a, bodies)
    ensures AllValid(b, bodies)
  {
    assert forall k :: 0 <= k < |b| ==> Equation.Valid(a[k], bodies);
  }

  lemma PointToPointEnds(c: Constraint.Constraint, bodies: seq<Body.Body>, ops: MathOps)
    requires PointToPointConstraint.Shaped(c) && Constraint.Valid(c, bodies)
    ensures SameEnds(c.equations, PointToPointConstraint.Update(c, bodies, ops).equations)
  {
    var r := PointToPointConstraint.Update(c, bodies, ops);
    forall k | 0 <= k < |c.equations|
      ensures r.equations[k].bi == c.equations[k].bi && r.equations[k].bj == c.equations[k].bj
    {
      if k < 3 {
        assert r.equations[k] == PointToPointConstraint.Arms(c.equations[k], r.equations[k].kind.ri, r.equations[k].kind.rj);
      }
    }
  }

  /** A subclass update that keeps the point-to-point update's first three
      equations and changes only the kind of the rest keeps every
      equation's bodies. */
  lemma PrefixEnds(c: Constraint.Constraint, p: Constraint.Constraint, r: Constraint.Constraint)
    requires |c.equations| >= 3 && SameEnds(c.equations, p.equations) && |r.equations| == |c.equations|
    requires r.equations[..3] == p.equations[..3]
    requires forall k :: 3 <= k < |c.equations| ==> r.equations[k].(kind := c.equations[k].kind) == c.equations[k]
    ensures SameEnds(c.equations, r.equations)
  {
    forall k | 0 <= k < 3
      ensures r.equations[k] == p.equations[k]
    {
      assert r.equations[..3][k] == p.equations[..3][k];
    }
  }

  /** `c.update()`, dispatched on the subclass: the base class throws; each
      subclass rewrites its equations' geometry and keeps the constraint's
      own fields, the number of equations and the bodies of each. */
  function UpdateConstraint(c: Constraint.Constraint, bodies: seq<Body.Body>, ops: MathOps): (r: Result<Constraint.Constraint>)
    requires Ready(c, bodies)
    ensures r.Err? <==> c.kind.Plain?
    ensures r.Err? ==> r.error.Thrown?
    ensures r.Ok? ==> Updatable(r.value) && r.value.(equations := c.equations) == c && SameEnds(c.equations, r.value.equations)
  {
    match c.kind
    case Plain => Constraint.UpdateBase(c)
    case PointToPoint(_, _) =>
      PointToPointEnds(c, bodies, ops);
      Ok(PointToPointConstraint.Update(c, bodies, ops))
    case Hinge(_, _, _, _) =>
      PointToPointEnds(c, bodies, ops);
      var r := HingeConstraint.Update(c, bodies, ops);
      PrefixEnds(c, PointToPointConstraint.Update(c, bodies, ops), r);
      Ok(r)
    case Lock(_, _, _, _, _, _, _, _) =>
      PointToPointEnds(c, bodies, ops);
      var r := LockConstraint.Update(c, bodies, ops);
      PrefixEnds(c, PointToPointConstraint.Update(c, bodies, ops), r);
      Ok(r)
    case ConeTwist(_, _, _, _, _, _) =>
      PointToPointEnds(c, bodies, ops);
      var r := ConeTwistConstraint.Update(c, bodies, ops);
      PrefixEnds(c, PointToPointConstraint.Update(c, bodies, ops), r);
      Ok(r)
    case Distance(_) => Ok(DistanceConstraint.Update(c, bodies, ops))
  }

  /** An updated constraint is ready again. */
  lemma UpdatedReady(c: Constraint.Constraint, bodies: seq<Body.Body>, ops: MathOps)
    requires Ready(c, bodies) && !c.kind.Plain?
    ensures Ready(UpdateConstraint(c, bodies, ops).value, bodies)
  {
    var r := UpdateConstraint(c, bodies, ops).value;
    SameEndsValid(c.equations, r.equations, bodies);
  }

  /** Every constraint is ready. */
  predicate AllReady(cs: seq<Constraint.Constraint>, bodies: seq<Body.Body>)
  {
    forall i :: 0 <= i < |cs| ==> Ready(cs[i], bodies)
  }

  /** Some constraint is of the base class, whose `update` throws. */
  predicate HasPlain(cs: seq<Constraint.Constraint>)
  {
    exists i :: 0 <= i < |cs| && cs[i].kind.Plain?
  }

  /** Readiness only looks at the number of bodies. */
  lemma AllReadyByLength(cs: seq<Constraint.Constraint>, a: seq<Body.Body>, b: seq<Body.Body>)
    requires |a| == |b| && AllReady(cs, a)
    ensures AllReady(cs, b)
  {
    forall i | 0 <= i < |cs|
      ensures Ready(cs[i], b)
    {
      assert Ready(cs[i], a);
      assert forall k :: 0 <= k < |cs[i].equations| ==> Equation.Valid(cs[i].equations[k], a);
    }
  }

  /** The update loop: each constraint in turn; the first base-class
      constraint throws. */
  function UpdateConstraints(cs: seq<Constraint.Constraint>, bodies: seq<Body.Body>, ops: MathOps): (r: Result<seq<Constraint.Constraint>>)
    requires AllReady(cs, bodies)
    ensures r.Err? <==> HasPlain(cs)
    ensures r.Err? ==> r.error.Thrown?
    ensures r.Ok? ==> |r.value| == |cs| && AllReady(r.value, bodies) && !HasPlain(r.value)
    ensures r.Ok? ==> forall i :: 0 <= i < |cs| ==> r.value[i].(equations := cs[i].equations) == cs[i]
  {
    if |cs| == 0 then Ok([])
    else
      assert Ready(cs[0], bodies);
      var c :- UpdateConstraint(cs[0], bodies, ops);
      UpdatedReady(cs[0], bodies, ops);
      assert HasPlain(cs[1..]) ==> HasPlain(cs) by {
        if HasPlain(cs[1..]) {
          var i :| 0 <= i < |cs[1..]| && cs[1..][i].kind.Plain?;
          assert cs[i + 1].kind.Plain?;
        }
      }
      var rest :- UpdateConstraints(cs[1..], bodies, ops);
      Ok([c] + rest)
  }

  /** The constraints' equations, one constraint after another. */
  function Equations(cs: seq<Constraint.Constraint>): seq<Equation.Equation>
  {
    if |cs| == 0 then [] else cs[0].equations + Equations(cs[1..])
  }

  lemma {:induction false} EquationsValid(cs: seq<Constraint.Constraint>, bodies: seq<Body.Body>)
    requires AllReady(cs, bodies)
    ensures AllValid(Equations(cs), bodies)
  {
    if |cs| > 0 {
      assert Ready(cs[0], bodies);
      EquationsValid(cs[1..], bodies);
    }
  }

  // One step.

  /** `bi.type & DYNAMIC`, the damping loop's test, holds of the dynamic
      type alone among the three. */
  lemma DynamicBit()
    ensures JsNumbers.And(Body.DYNAMIC, Body.DYNAMIC) == Body.DYNAMIC
    ensures JsNumbers.And(Body.STATIC, Body.DYNAMIC) == 0
    ensures JsNumbers.And(Body.KINEMATIC, Body.DYNAMIC) == 0
  {
    JsNumbers.Pow2Of32();
    JsNumbers.AndOfZero(0, 31);
    JsNumbers.AndZero(1, 31);
    JsNumbers.AndZero(2, 31);
    assert JsNumbers.AndN(1, 1, 32) == 1 + 2 * JsNumbers.AndN(0, 0, 31);
    assert JsNumbers.AndN(2, 1, 32) == 2 * JsNumbers.AndN(1, 0, 31);
    assert JsNumbers.AndN(4, 1, 32) == 2 * JsNumbers.AndN(2, 0, 31);
  }

  /** The gravity loop: a dynamic body's force grows by its mass times
      the gravity; every other body is left alone. */
  function AddGravity(bodies: seq<Body.Body>, g: Vec3): (r: seq<Body.Body>)
    ensures |r| == |bodies|
    ensures forall i :: 0 <= i < |bodies| ==> r[i].(force := bodies[i].force) == bodies[i]
    ensures forall i :: 0 <= i < |bodies| && bodies[i].bodyType != Body.DYNAMIC ==> r[i] == bodies[i]
  {
    seq(|bodies|, i requires 0 <= i < |bodies| =>
      if bodies[i].bodyType == Body.DYNAMIC then bodies[i].(force := Add(bodies[i].force, Scale(bodies[i].mass, g)))
      else bodies[i])
  }

  /** Gravity adds up: two calls are one call with the sum, and zero
      gravity changes nothing; a dynamic body takes m g. */
  lemma GravityAdds(bodies: seq<Body.Body>, g1: Vec3, g2: Vec3)
    ensures AddGravity(AddGravity(bodies, g1), g2) == AddGravity(bodies, Add(g1, g2))
    ensures AddGravity(bodies, Zero) == bodies
    ensures forall i :: 0 <= i < |bodies| && bodies[i].bodyType == Body.DYNAMIC ==>
      AddGravity(bodies, g1)[i].force == Add(bodies[i].force, Scale(bodies[i].mass, g1))
  {
    var once := AddGravity(bodies, Add(g1, g2));
    var twice := AddGravity(AddGravity(bodies, g1), g2);
    forall i | 0 <= i < |bodies|
      ensures twice[i] == once[i]
    {
      if bodies[i].bodyType == Body.DYNAMIC {
        var m, f := bodies[i].mass, bodies[i].force;
        var b1 := AddGravity(bodies, g1)[i];
        assert b1 == bodies[i].(force := Add(f, Scale(m, g1)));
        assert twice[i] == bodies[i].(force := Add(Add(f, Scale(m, g1)), Scale(m, g2)));
        assert once[i] == bodies[i].(force := Add(f, Scale(m, Add(g1, g2))));
        ForcesAdd(f, m, g1, g2);
      } else {
        assert AddGravity(bodies, g1)[i] == bodies[i];
      }
    }
    forall i | 0 <= i < |bodies|
      ensures AddGravity(bodies, Zero)[i] == bodies[i]
    {
    }
  }

  /** Adding m g1 and then m g2 to a force adds m (g1 + g2). */
  lemma ForcesAdd(f: Vec3, m: real, g1: Vec3, g2: Vec3)
    ensures Add(Add(f, Scale(m, g1)), Scale(m, g2)) == Add(f, Scale(m, Add(g1, g2)))
  {
    assert m * (g1.x + g2.x) == m * g1.x + m * g2.x;
    assert m * (g1.y + g2.y) == m * g1.y + m * g2.y;
    assert m * (g1.z + g2.z) == m * g1.z + m * g2.z;
  }

  // The pairs constraints keep apart.

  /** The constraint holds the two bodies of the pair together, in either
      order. */
  predicate Links(c: Constraint.Constraint, p: (nat, nat))
  {
    (c.bodyA == p.0 && c.bodyB == p.1) || (c.bodyB == p.0 && c.bodyA == p.1)
  }

  /** The pairs the constraint does not link, in their order. */
  function Unjoined(c: Constraint.Constraint, pairs: seq<(nat, nat)>): (r: seq<(nat, nat)>)
    ensures |r| <= |pairs|
  {
    if |pairs| == 0 then []
    else (if Links(c, pairs[0]) then [] else [pairs[0]]) + Unjoined(c, pairs[1..])
  }

  /** The pairs left once the first n constraints that may not collide
      have each dropped the pairs they link. */
  function Unconstrained(cs: seq<Constraint.Constraint>, n: nat, pairs: seq<(nat, nat)>): seq<(nat, nat)>
    requires n <= |cs|
  {
    if n == 0 then pairs
    else
      var kept := Unconstrained(cs, n - 1, pairs);
      if cs[n - 1].collideConnected then kept else Unjoined(cs[n - 1], kept)
  }

  /** A pair survives one constraint exactly when the constraint does not
      link it. */
  lemma {:induction false} UnjoinedMembers(c: Constraint.Constraint, pairs: seq<(nat, nat)>)
    ensures forall p :: p in Unjoined(c, pairs) <==> p in pairs && !Links(c, p)
  {
    if |pairs| > 0 {
      UnjoinedMembers(c, pairs[1..]);
      assert pairs == [pairs[0]] + pairs[1..];
    }
  }

  /** A pair survives the filter exactly when it was a pair and no
      constraint that may not collide links it. */
  lemma {:induction false} UnconstrainedMembers(cs: seq<Constraint.Constraint>, n: nat, pairs: seq<(nat, nat)>)
    requires n <= |cs|
    ensures forall p :: p in Unconstrained(cs, n, pairs) <==>
      p in pairs && forall i :: 0 <= i < n && !cs[i].collideConnected ==> !Links(cs[i], p)
  {
    if n > 0 {
      UnconstrainedMembers(cs, n - 1, pairs);
      UnjoinedMembers(cs[n - 1], Unconstrained(cs, n - 1, pairs));
    }
  }

  /** The inner loop: walks the pairs from the back and splices out each
      pair the constraint links. */
  method DropJoined(c: Constraint.Constraint, pairs: seq<(nat, nat)>) returns (r: seq<(nat, nat)>)
    ensures r == Unjoined(c, pairs)
  {
    r := pairs;
    var j := |pairs|;
    while j > 0
      invariant 0 <= j <= |pairs|
      invariant r == pairs[..j] + Unjoined(c, pairs[j..])
    {
      j := j - 1;
      assert pairs[j..][1..] == pairs[j + 1..];
      assert r[..j] == pairs[..j] && r[j] == pairs[j] && r[j + 1..] == Unjoined(c, pairs[j + 1..]);
      if Links(c, r[j]) {
        r := r[..j] + r[j + 1..];
      }
    }
  }

  /** The constraint loop: every constraint that may not collide drops
      the pairs it links. */
  method RemoveConstrainedPairs(cs: seq<Constraint.Constraint>, pairs: seq<(nat, nat)>) returns (r: seq<(nat, nat)>)
    ensures r == Unconstrained(cs, |cs|, pairs)
  {
    r := pairs;
    for i := 0 to |cs|
      invariant r == Unconstrained(cs, i, pairs)
    {
      if !cs[i].collideConnected {
        r := DropJoined(cs[i], r);
      }
    }
  }

  // Contacts.

  /** The restitution override of the contact loop: when both bodies have
      a material and both materials set a restitution (at least 0), the
      contact takes the product; otherwise it is left as the narrowphase
      made it. */
  function Rebound(eq: Equation.Equation, bodies: seq<Body.Body>, v: Narrowphase.World): (r: Equation.Equation)
    requires Equation.Valid(eq, bodies)
    ensures r.(kind := eq.kind) == eq && (r.kind.Contact? <==> eq.kind.Contact?)
  {
    var ma, mb := bodies[eq.bi].material, bodies[eq.bj].material;
    match eq.kind
    case Contact(_, ri, rj, ni) =>
      if Narrowphase.RestitutionsSet(v, ma, mb) then
        eq.(kind := Equation.Contact(v.materials(ma.value).restitution * v.materials(mb.value).restitution, ri, rj, ni))
      else eq
    case _ => eq
  }

  /** The override is idempotent, and it is the narrowphase's own choice
      for the bodies' materials: a contact that already has the
      restitution the narrowphase gives for the two bodies' materials is
      left as it is. */
  lemma ReboundAgrees(eq: Equation.Equation, bodies: seq<Body.Body>, v: Narrowphase.World, cm: Materials.ContactMaterial)
    requires Equation.Valid(eq, bodies)
    ensures Rebound(Rebound(eq, bodies, v), bodies, v) == Rebound(eq, bodies, v)
    ensures eq.kind.Contact? && eq.kind.restitution == Narrowphase.Restitution(v, cm, bodies[eq.bi].material, bodies[eq.bj].material) ==>
      Rebound(eq, bodies, v) == eq
  {
  }

  /** Every contact with the override applied. */
  function Rebounded(contacts: seq<Equation.Equation>, bodies: seq<Body.Body>, v: Narrowphase.World): (r: seq<Equation.Equation>)
    requires AllValid(contacts, bodies)
    ensures |r| == |contacts| && AllValid(r, bodies)
    ensures forall k :: 0 <= k < |contacts| ==> r[k] == Rebound(contacts[k], bodies, v)
  {
    seq(|contacts|, k requires 0 <= k < |contacts| => Rebound(contacts[k], bodies, v))
  }

  /** The wake-up test of the contact loop: `a` is a dynamic body asleep
      that may sleep, and `b` is an awake body, not static, moving at
      least √2 times its own sleep speed limit (compared squared). */
  predicate Wakes(a: Body.Body, b: Body.Body)
  {
    a.allowSleep && a.bodyType == Body.DYNAMIC && a.sleepState == Body.Sleeping &&
    b.sleepState == Body.Awake && b.bodyType != Body.STATIC &&
    Body.SpeedSquared(b) >= b.sleepSpeedLimit * b.sleepSpeedLimit * 2.0
  }

  /** The contact sets body k's wake-up flag. */
  predicate Flags(bodies: seq<Body.Body>, eq: Equation.Equation, k: nat)
    requires Equation.Valid(eq, bodies)
  {
    (k == eq.bi && Wakes(bodies[eq.bi], bodies[eq.bj])) || (k == eq.bj && Wakes(bodies[eq.bj], bodies[eq.bi]))
  }

  /** One contact's two tests, the flags set on the bodies. */
  function MarkContact(bodies: seq<Body.Body>, eq: Equation.Equation): (r: seq<Body.Body>)
    requires Equation.Valid(eq, bodies)
    ensures |r| == |bodies|
    ensures forall k :: 0 <= k < |bodies| ==>
      r[k] == bodies[k].(wakeUpAfterNarrowphase := bodies[k].wakeUpAfterNarrowphase || Flags(bodies, eq, k))
  {
    var a, b := bodies[eq.bi], bodies[eq.bj];
    var first := if Wakes(a, b) then bodies[eq.bi := a.(wakeUpAfterNarrowphase := true)] else bodies;
    if Wakes(b, a) then first[eq.bj := first[eq.bj].(wakeUpAfterNarrowphase := true)] else first
  }

  /** The contact loop's flags, one contact after another. */
  function MarkContacts(bodies: seq<Body.Body>, contacts: seq<Equation.Equation>, n: nat): (r: seq<Body.Body>)
    requires n <= |contacts| && AllValid(contacts, bodies)
    ensures |r| == |bodies|
  {
    if n == 0 then bodies else MarkContact(MarkContacts(bodies, contacts, n - 1), contacts[n - 1])
  }

  /** Some contact among the first n flags body k. */
  predicate Flagged(bodies: seq<Body.Body>, contacts: seq<Equation.Equation>, n: nat, k: nat)
    requires n <= |contacts| && AllValid(contacts, bodies)
  {
    n > 0 && (Flagged(bodies, contacts, n - 1, k) || Flags(bodies, contacts[n - 1], k))
  }

  /** Flagged means flagged by one of the contacts. */
  lemma {:induction false} FlaggedBySome(bodies: seq<Body.Body>, contacts: seq<Equation.Equation>, n: nat, k: nat)
    requires n <= |contacts| && AllValid(contacts, bodies)
    ensures Flagged(bodies, contacts, n, k) <==> exists m :: 0 <= m < n && Flags(bodies, contacts[m], k)
  {
    if n > 0 {
      FlaggedBySome(bodies, contacts, n - 1, k);
    }
  }

  /** The tests do not read the flags, so they see the same on a list
      that differs only in flags. */
  lemma FlagsIgnoreFlags(bodies: seq<Body.Body>, marked: seq<Body.Body>, eq: Equation.Equation, k: nat)
    requires |marked| == |bodies| && Equation.Valid(eq, bodies)
    requires forall i :: 0 <= i < |bodies| ==> marked[i].(wakeUpAfterNarrowphase := bodies[i].wakeUpAfterNarrowphase) == bodies[i]
    ensures Flags(marked, eq, k) == Flags(bodies, eq, k)
  {
    assert marked[eq.bi].(wakeUpAfterNarrowphase := bodies[eq.bi].wakeUpAfterNarrowphase) == bodies[eq.bi];
    assert marked[eq.bj].(wakeUpAfterNarrowphase := bodies[eq.bj].wakeUpAfterNarrowphase) == bodies[eq.bj];
  }

  /** Taking the contacts one after another sets exactly the flags some
      contact asks for and changes nothing else. */
  lemma {:induction false} MarkContactsFlags(bodies: seq<Body.Body>, contacts: seq<Equation.Equation>, n: nat)
    requires n <= |contacts| && AllValid(contacts, bodies)
    ensures forall k :: 0 <= k < |bodies| ==>
      MarkContacts(bodies, contacts, n)[k] ==
      bodies[k].(wakeUpAfterNarrowphase := bodies[k].wakeUpAfterNarrowphase || Flagged(bodies, contacts, n, k))
  {
    if n > 0 {
      MarkContactsFlags(bodies, contacts, n - 1);
      var prev := MarkContacts(bodies, contacts, n - 1);
      var eq := contacts[n - 1];
      assert Equation.Valid(eq, bodies);
      forall i | 0 <= i < |bodies|
        ensures prev[i].(wakeUpAfterNarrowphase := bodies[i].wakeUpAfterNarrowphase) == bodies[i]
      {
        var was := Flagged(bodies, contacts, n - 1, i);
        assert prev[i] == bodies[i].(wakeUpAfterNarrowphase := bodies[i].wakeUpAfterNarrowphase || was);
      }
      forall k | 0 <= k < |bodies|
        ensures MarkContacts(bodies, contacts, n)[k] ==
          bodies[k].(wakeUpAfterNarrowphase := bodies[k].wakeUpAfterNarrowphase || Flagged(bodies, contacts, n, k))
      {
        MarkStep(bodies, prev, eq, k, Flagged(bodies, contacts, n - 1, k));
      }
    }
  }

  /** One more contact on a list that differs from `bodies` only in
      flags: body k's flag gains what the contact asks for. */
  lemma MarkStep(bodies: seq<Body.Body>, prev: seq<Body.Body>, eq: Equation.Equation, k: nat, was: bool)
    requires |prev| == |bodies| && Equation.Valid(eq, bodies) && k < |bodies|
    requires forall i :: 0 <= i < |bodies| ==> prev[i].(wakeUpAfterNarrowphase := bodies[i].wakeUpAfterNarrowphase) == bodies[i]
    requires prev[k] == bodies[k].(wakeUpAfterNarrowphase := bodies[k].wakeUpAfterNarrowphase || was)
    ensures MarkContact(prev, eq)[k] ==
      bodies[k].(wakeUpAfterNarrowphase := bodies[k].wakeUpAfterNarrowphase || was || Flags(bodies, eq, k))
  {
    FlagsIgnoreFlags(bodies, prev, eq, k);
  }

  /** The wake-up loop: a flagged body is woken, which clears its flag. */
  function WakeMarked(bodies: seq<Body.Body>): (r: seq<Body.Body>)
    ensures |r| == |bodies|
    ensures forall k :: 0 <= k < |bodies| ==> !r[k].wakeUpAfterNarrowphase
    ensures forall k :: 0 <= k < |bodies| && bodies[k].wakeUpAfterNarrowphase ==> r[k].sleepState == Body.Awake
    ensures forall k :: 0 <= k < |bodies| ==>
      r[k].(sleepState := bodies[k].sleepState, wakeUpAfterNarrowphase := bodies[k].wakeUpAfterNarrowphase) == bodies[k]
    ensures forall k :: 0 <= k < |bodies| && !bodies[k].wakeUpAfterNarrowphase ==> r[k] == bodies[k]
  {
    seq(|bodies|, k requires 0 <= k < |bodies| => if bodies[k].wakeUpAfterNarrowphase then Body.WakeUp(bodies[k]) else bodies[k])
  }

  /** The wake-up rule of a step: with no flag pending beforehand, a body
      is woken exactly when some contact flags it, and is otherwise left
      as it was. */
  lemma WakeUpRule(bodies: seq<Body.Body>, contacts: seq<Equation.Equation>)
    requires AllValid(contacts, bodies)
    requires forall k :: 0 <= k < |bodies| ==> !bodies[k].wakeUpAfterNarrowphase
    ensures var r := WakeMarked(MarkContacts(bodies, contacts, |contacts|));
      |r| == |bodies| &&
      forall k :: 0 <= k < |bodies| ==>
        r[k] == if exists m :: 0 <= m < |contacts| && Flags(bodies, contacts[m], k) then Body.WakeUp(bodies[k]) else bodies[k]
  {
    MarkContactsFlags(bodies, contacts, |contacts|);
    forall k | 0 <= k < |bodies| {
      FlaggedBySome(bodies, contacts, |contacts|, k);
    }
  }

  // The solver's list.

  /** The equations `addEquation` keeps, in their order. */
  function Admitted(eqs: seq<Equation.Equation>, bodies: seq<Body.Body>): (r: seq<Equation.Equation>)
    requires AllValid(eqs, bodies)
    ensures |r| <= |eqs| && AllValid(r, bodies)
    ensures forall k :: 0 <= k < |r| ==> Solver.Admits(r[k], bodies)
  {
    if |eqs| == 0 then []
    else (if Solver.Admits(eqs[0], bodies) then [eqs[0]] else []) + Admitted(eqs[1..], bodies)
  }

  /** An equation reaches the solver exactly when it is offered and
      admitted. */
  lemma {:induction false} AdmittedMembers(eqs: seq<Equation.Equation>, bodies: seq<Body.Body>)
    requires AllValid(eqs, bodies)
    ensures forall e :: e in Admitted(eqs, bodies) <==> e in eqs && Solver.Admits(e, bodies)
  {
    if |eqs| > 0 {
      assert Equation.Valid(eqs[0], bodies);
      AdmittedMembers(eqs[1..], bodies);
      assert eqs == [eqs[0]] + eqs[1..];
    }
  }

  /** The loop offering each equation to the solver in turn. */
  function AddAll(s: Solver.Solver, eqs: seq<Equation.Equation>, bodies: seq<Body.Body>): (r: Solver.Solver)
    requires AllValid(eqs, bodies)
    ensures r.equations == s.equations + Admitted(eqs, bodies)
    decreases |eqs|
  {
    if |eqs| == 0 then s
    else
      assert Equation.Valid(eqs[0], bodies);
      var r := AddAll(Solver.AddEquation(s, eqs[0], bodies), eqs[1..], bodies);
      assert Solver.AddEquation(s, eqs[0], bodies).equations ==
        s.equations + (if Solver.Admits(eqs[0], bodies) then [eqs[0]] else []);
      r
  }

  /** Two body lists that agree on which bodies are triggers admit the
      same equations. */
  predicate SameTriggers(a: seq<Body.Body>, b: seq<Body.Body>)
  {
    |a| == |b| && forall i :: 0 <= i < |a| ==> a[i].isTrigger == b[i].isTrigger
  }

  // The body loops after solving.

  /** One body's damping: the velocities of a body whose type has the
      DYNAMIC bit are scaled by (1 - damping)^dt, linear and angular each
      with its own damping; `pow` is `Math.pow`. A static or kinematic
      body is left alone. */
  function DampBody(b: Body.Body, dt: real, pow: (real, real) -> real): (r: Body.Body)
    ensures r.(velocity := b.velocity, angularVelocity := b.angularVelocity) == b
    ensures b.bodyType == Body.DYNAMIC ==>
      r.velocity == Scale(pow(1.0 - b.linearDamping, dt), b.velocity) &&
      r.angularVelocity == Scale(pow(1.0 - b.angularDamping, dt), b.angularVelocity)
    ensures b.bodyType == Body.STATIC || b.bodyType == Body.KINEMATIC ==> r == b
  {
    DynamicBit();
    if JsNumbers.And(b.bodyType, Body.DYNAMIC) != 0 then
      b.(velocity := Scale(pow(1.0 - b.linearDamping, dt), b.velocity),
         angularVelocity := Scale(pow(1.0 - b.angularDamping, dt), b.angularVelocity))
    else b
  }

  /** The damping loop. */
  function Damp(bodies: seq<Body.Body>, dt: real, pow: (real, real) -> real): (r: seq<Body.Body>)
    ensures |r| == |bodies|
    ensures forall i :: 0 <= i < |bodies| ==> r[i] == DampBody(bodies[i], dt, pow)
  {
    seq(|bodies|, i requires 0 <= i < |bodies| => DampBody(bodies[i], dt, pow))
  }

  /** Every body integrated. */
  function IntegrateAll(bodies: seq<Body.Body>, dt: real, quatNormalize: bool, quatNormalizeFast: bool, ops: MathOps): (r: seq<Body.Body>)
    ensures |r| == |bodies|
    ensures forall i :: 0 <= i < |bodies| ==> r[i] == Body.Integrate(bodies[i], dt, quatNormalize, quatNormalizeFast, ops)
  {
    seq(|bodies|, i requires 0 <= i < |bodies| => Body.Integrate(bodies[i], dt, quatNormalize, quatNormalizeFast, ops))
  }

  /** `clearForces`: every force and torque zero, nothing else changed. */
  function ClearForces(bodies: seq<Body.Body>): (r: seq<Body.Body>)
    ensures |r| == |bodies|
    ensures forall i :: 0 <= i < |bodies| ==> r[i].force == Zero && r[i].torque == Zero
    ensures forall i :: 0 <= i < |bodies| ==> r[i].(force := bodies[i].force, torque := bodies[i].torque) == bodies[i]
  {
    seq(|bodies|, i requires 0 <= i < |bodies| => bodies[i].(force := Zero, torque := Zero))
  }

  /** Clearing twice is clearing once, and bodies without forces are left
      as they are. */
  lemma ClearForcesIdempotent(bodies: seq<Body.Body>)
    ensures ClearForces(ClearForces(bodies)) == ClearForces(bodies)
    ensures (forall i :: 0 <= i < |bodies| ==> bodies[i].force == Zero && bodies[i].torque == Zero) ==>
      ClearForces(bodies) == bodies
  {
    var once := ClearForces(bodies);
    assert forall i :: 0 <= i < |bodies| ==> ClearForces(once)[i] == once[i];
  }

  /** A sleep tick keeps forces. */
  lemma SleepTickKeepsForces(b: Body.Body, time: real)
    ensures Body.SleepTick(b, time).force == b.force && Body.SleepTick(b, time).torque == b.torque
  {
  }

  /** The sleeping update: without sleep allowed nothing changes and the
      world counts as active; otherwise every body takes a sleep tick and
      the world is active exactly when some body is not asleep after it. */
  method SleepUpdate(bodies: seq<Body.Body>, allowSleep: bool, time: real) returns (r: seq<Body.Body>, active: bool)
    ensures |r| == |bodies|
    ensures !allowSleep ==> r == bodies && active
    ensures allowSleep ==> forall i :: 0 <= i < |bodies| ==> r[i] == Body.SleepTick(bodies[i], time)
    ensures active <==> !allowSleep || exists i :: 0 <= i < |r| && r[i].sleepState != Body.Sleeping
  {
    r := bodies;
    active := true;
    if allowSleep {
      active := false;
      for i := 0 to |bodies|
        invariant |r| == |bodies|
        invariant forall k :: 0 <= k < i ==> r[k] == Body.SleepTick(bodies[k], time)
        invariant forall k :: i <= k < |bodies| ==> r[k] == bodies[k]
        invariant active <==> exists k :: 0 <= k < i && r[k].sleepState != Body.Sleeping
      {
        r := r[i := Body.SleepTick(bodies[i], time)];
        if r[i].sleepState != Body.Sleeping {
          active := true;
        }
      }
    }
  }

  // The step.

  /** What the narrowphase reports: contact equations and friction
      equations. */
  datatype Found = Found(contacts: seq<Equation.Equation>, frictions: seq<Equation.Equation>)

  /** The parts of a step the model takes as given: the broadphase's
      pairs, the narrowphase's equations, the solver's new body list,
      `Math.pow`, the material records behind the ids, and the math the
      body functions use. */
  datatype Phases = Phases(
    broadphase: seq<Body.Body> -> seq<(nat, nat)>,
    narrowphase: (Narrowphase.World, seq<Body.Body>, seq<(nat, nat)>) -> Found,
    solve: (seq<Equation.Equation>, seq<Body.Body>, real) -> seq<Body.Body>,
    pow: (real, real) -> real,
    materialOf: int -> Materials.Material,
    ops: MathOps)

  /** The narrowphase makes equations between bodies of the list, and the
      solver keeps the number of bodies. */
  ghost predicate Sound(ph: Phases)
  {
    (forall v, bodies, pairs :: AllValid(ph.narrowphase(v, bodies, pairs).contacts, bodies) &&
      AllValid(ph.narrowphase(v, bodies, pairs).frictions, bodies)) &&
    (forall eqs, bodies, dt :: |ph.solve(eqs, bodies, dt)| == |bodies|)
  }

  /** `handed` is `prior` followed by equations between bodies of the
      list that the solver admits. */
  predicate Handed(prior: seq<Equation.Equation>, handed: seq<Equation.Equation>, bodies: seq<Body.Body>)
  {
    |prior| <= |handed| && handed[..|prior|] == prior &&
    forall k :: |prior| <= k < |handed| ==> Equation.Valid(handed[k], bodies) && Solver.Admits(handed[k], bodies)
  }

  /** Offering more equations, admitted on a list with the same triggers,
      keeps the list handed over. */
  lemma HandedExtend(prior: seq<Equation.Equation>, handed: seq<Equation.Equation>, eqs: seq<Equation.Equation>,
                     on: seq<Body.Body>, bodies: seq<Body.Body>)
    requires Handed(prior, handed, bodies) && AllValid(eqs, on) && SameTriggers(on, bodies)
    ensures Handed(prior, handed + Admitted(eqs, on), bodies)
  {
    var more := Admitted(eqs, on);
    var all := handed + more;
    assert all[..|prior|] == handed[..|prior|];
    forall k | |prior| <= k < |all|
      ensures Equation.Valid(all[k], bodies) && Solver.Admits(all[k], bodies)
    {
      if k >= |handed| {
        assert all[k] == more[k - |handed|];
        assert Equation.Valid(more[k - |handed|], on) && Solver.Admits(more[k - |handed|], on);
      }
    }
  }

  /** The contact loop and the wake-up loop: the friction equations then
      the contacts, with the restitution override, go to the solver, and
      the flagged bodies wake. */
  function Contacts(s: Solver.Solver, found: Found, bodies: seq<Body.Body>, v: Narrowphase.World): (r: (Solver.Solver, seq<Body.Body>))
    requires AllValid(found.contacts, bodies) && AllValid(found.frictions, bodies)
    ensures |r.1| == |bodies| && SameTriggers(r.1, bodies)
    ensures Handed(s.equations, r.0.equations, bodies)
  {
    var contacts := Rebounded(found.contacts, bodies, v);
    var s1 := AddAll(s, found.frictions, bodies);
    var s2 := AddAll(s1, contacts, bodies);
    assert Handed(s.equations, s.equations, bodies);
    HandedExtend(s.equations, s.equations, found.frictions, bodies, bodies);
    HandedExtend(s.equations, s1.equations, contacts, bodies, bodies);
    MarkContactsFlags(bodies, contacts, |contacts|);
    (s2, WakeMarked(MarkContacts(bodies, contacts, |contacts|)))
  }

  /** Gravity, the narrowphase on the pairs, and the contact loop. */
  function Collide(w: World, dt: real, ph: Phases, pairs: seq<(nat, nat)>): (r: (Solver.Solver, seq<Body.Body>))
    requires Sound(ph)
    ensures |r.1| == |w.bodies| && SameTriggers(r.1, w.bodies)
    ensures Handed(w.solver.equations, r.0.equations, w.bodies)
  {
    var g := AddGravity(w.bodies, w.gravity);
    var view := NarrowphaseView(w.(dt := dt), ph.materialOf);
    var found := ph.narrowphase(view, g, pairs);
    Contacts(w.solver, found, g, view)
  }

  /** The constraints' equations offered to the solver after the rest. */
  function Offer(s: Solver.Solver, cs: seq<Constraint.Constraint>, on: seq<Body.Body>, prior: seq<Equation.Equation>, bodies: seq<Body.Body>): (r: Solver.Solver)
    requires AllReady(cs, on) && SameTriggers(on, bodies) && Handed(prior, s.equations, bodies)
    ensures Handed(prior, r.equations, bodies)
  {
    EquationsValid(cs, on);
    HandedExtend(prior, s.equations, Equations(cs), on, bodies);
    AddAll(s, Equations(cs), on)
  }

  /** The body loops after solving: damping, integration, cleared forces. */
  function Advance(w: World, bodies: seq<Body.Body>, dt: real, ph: Phases): (r: seq<Body.Body>)
    ensures |r| == |bodies|
    ensures forall i :: 0 <= i < |bodies| ==> r[i].force == Zero && r[i].torque == Zero
  {
    var quatNormalize := w.stepnumber % (w.quatNormalizeSkip + 1) == 0;
    ClearForces(IntegrateAll(Damp(bodies, dt, ph.pow), dt, quatNormalize, w.quatNormalizeFast, ph.ops))
  }

  /** The sleeping update after the forces are cleared keeps them clear. */
  lemma ClearedStaysCleared(moved: seq<Body.Body>, slept: seq<Body.Body>, allowSleep: bool, time: real)
    requires forall i :: 0 <= i < |moved| ==> moved[i].force == Zero && moved[i].torque == Zero
    requires |slept| == |moved|
    requires !allowSleep ==> slept == moved
    requires allowSleep ==> forall i :: 0 <= i < |moved| ==> slept[i] == Body.SleepTick(moved[i], time)
    ensures forall i :: 0 <= i < |slept| ==> slept[i].force == Zero && slept[i].torque == Zero
  {
    forall i | 0 <= i < |slept|
      ensures slept[i].force == Zero && slept[i].torque == Zero
    {
      if allowSleep {
        SleepTickKeepsForces(moved[i], time);
      }
    }
  }

  /** `internalStep(dt)`. Gravity goes on the dynamic bodies; the pairs the
      broadphase finds lose those a constraint keeps apart; the narrowphase
      makes equations; friction equations then contacts go to the solver,
      with the restitution override and the wake-up flags; flagged bodies
      wake; each constraint is updated and its equations go to the solver;
      the solver runs and its list is emptied; then damping, integration,
      cleared forces, the step count and the sleeping update. A base-class
      constraint makes `update` throw. `handed` is the list the solver
      was given. */
  method InternalStep(w: World, dt: real, ph: Phases) returns (r: Result<World>, handed: seq<Equation.Equation>)
    requires Sound(ph) && AllReady(w.constraints, w.bodies)
    ensures r.Err? <==> HasPlain(w.constraints)
    ensures r.Err? ==> r.error.Thrown?
    ensures r.Ok? ==>
      var v := r.value;
      |v.bodies| == |w.bodies| && v.stepnumber == w.stepnumber + 1 && v.dt == dt && v.broadphaseDirty &&
      v.solver.equations == [] && |v.constraints| == |w.constraints| &&
      v.(bodies := w.bodies, constraints := w.constraints, solver := w.solver, dt := w.dt, stepnumber := w.stepnumber,
         hasActiveBodies := w.hasActiveBodies, broadphaseDirty := w.broadphaseDirty) == w
    ensures r.Ok? ==> AllReady(r.value.constraints, r.value.bodies) && !HasPlain(r.value.constraints)
    ensures r.Ok? ==> forall i :: 0 <= i < |w.constraints| ==> r.value.constraints[i].(equations := w.constraints[i].equations) == w.constraints[i]
    ensures r.Ok? ==> forall i :: 0 <= i < |r.value.bodies| ==> r.value.bodies[i].force == Zero && r.value.bodies[i].torque == Zero
    ensures r.Ok? ==> (r.value.hasActiveBodies <==>
      !w.allowSleep || exists i :: 0 <= i < |r.value.bodies| && r.value.bodies[i].sleepState != Body.Sleeping)
    ensures r.Ok? ==> Handed(w.solver.equations, handed, w.bodies)
  {
    handed := [];
    var pairs := RemoveConstrainedPairs(w.constraints, ph.broadphase(AddGravity(w.bodies, w.gravity)));
    var (s, woken) := Collide(w, dt, ph, pairs);
    AllReadyByLength(w.constraints, w.bodies, woken);
    var updated := UpdateConstraints(w.constraints, woken, ph.ops);
    if updated.Err? {
      return Err(updated.error), handed;
    }
    var cs := updated.value;
    handed := Offer(s, cs, woken, w.solver.equations, w.bodies).equations;
    var moved := Advance(w, ph.solve(handed, woken, dt), dt, ph);
    var slept, active := SleepUpdate(moved, w.allowSleep, w.time);
    ClearedStaysCleared(moved, slept, w.allowSleep, w.time);
    AllReadyByLength(cs, woken, slept);
    r := Ok(w.(bodies := slept, constraints := cs, solver := Solver.RemoveAllEquations(s), dt := dt,
               stepnumber := w.stepnumber + 1, hasActiveBodies := active, broadphaseDirty := true));
  }

  // Stepping with an accumulator.

  /** JavaScript's `%` on numbers: the quotient is truncated toward zero,
      so the remainder has the sign of the dividend. */
  function JsRem(x: real, d: real): real
    requires d != 0.0
  {
    var q := x / d;
    var t := if q >= 0.0 then q.Floor else -((-q).Floor);
    x - d * (t as real)
  }

  lemma ProductSign(a: real, d: real)
    requires d > 0.0
    ensures a > 0.0 ==> a * d > 0.0
    ensures a >= 0.0 ==> a * d >= 0.0
  {
  }

  /** For a positive step and an accumulator that is not negative, the
      remainder lies in [0, d), and one already below d is kept. */
  lemma JsRemBounds(x: real, d: real)
    requires d > 0.0 && x >= 0.0
    ensures 0.0 <= JsRem(x, d) < d
    ensures x < d ==> JsRem(x, d) == x
  {
    var q := x / d;
    assert q * d == x;
    assert q >= 0.0;
    FloorRemainder(x, d, q, q.Floor);
  }

  /** Taking t whole steps of size d from x = q * d, for the t below q by
      less than one, leaves a remainder in [0, d); when x is below d and q
      is not negative, t is 0. */
  lemma FloorRemainder(x: real, d: real, q: real, t: int)
    requires d > 0.0 && q * d == x && t as real <= q < t as real + 1.0
    ensures 0.0 <= x - d * (t as real) < d
    ensures 0.0 <= q && x < d ==> t == 0
  {
    var below, above := q - t as real, t as real + 1.0 - q;
    ProductSign(below, d);
    ProductSign(above, d);
    assert below * d == x - d * (t as real);
    assert above * d == d * (t as real) + d - x;
    assert 0.0 <= x - d * (t as real) < d;
    if 0.0 <= q && x < d {
      assert (1.0 - q) * d == d - x;
      PositiveFactor(1.0 - q, d);
      assert q < 1.0;
    }
  }

  /** A product with a positive factor is positive only when the other
      factor is. */
  lemma PositiveFactor(a: real, d: real)
    requires d > 0.0 && a * d > 0.0
    ensures a > 0.0
  {
    if a <= 0.0 {
      ProductSign(-a, d);
    }
  }

  /** What is left of x after n steps of size d are taken from it. */
  function Drained(x: real, n: nat, d: real): real
  {
    if n == 0 then x else Drained(x, n - 1, d) - d
  }

  lemma {:induction false} DrainedIs(x: real, n: nat, d: real)
    ensures Drained(x, n, d) == x - n as real * d
  {
    if n > 0 {
      DrainedIs(x, n - 1, d);
    }
  }

  /** The number of whole steps of size d in x, none for a negative x. */
  function WholeSteps(x: real, d: real): (n: nat)
    requires d > 0.0
  {
    if (x / d).Floor < 0 then 0 else (x / d).Floor
  }

  /** k + 1 steps of size d fit into x exactly when k + 1 whole steps do. */
  lemma StepsFit(x: real, d: real, k: nat)
    requires d > 0.0
    ensures (k as real + 1.0) * d <= x <==> k + 1 <= WholeSteps(x, d)
  {
    var q := x / d;
    var m := k as real + 1.0;
    assert x == q * d;
    ProductSign(m - q, d);
    ProductSign(q - m, d);
    assert (m - q) * d == m * d - x;
    assert (q - m) * d == x - m * d;
  }

  /** The smaller of two counts. */
  function Fewer(a: nat, b: nat): nat
  {
    if a < b then a else b
  }

  /** The catch-up loop of `step`: internal steps while a whole dt is
      accumulated and fewer than `maxSubSteps` have run, each taking dt off
      the accumulator; it bails out once `clock(k)`, the time read after k
      substeps less the time read at the start, exceeds dt * 1000. */
  method CatchUp(w: World, dt: real, maxSubSteps: nat, clock: nat -> real, ph: Phases)
    returns (r: Result<World>, substeps: nat, bailed: bool)
    requires Sound(ph) && AllReady(w.constraints, w.bodies)
    ensures r.Err? <==> HasPlain(w.constraints) && 0 < maxSubSteps && w.accumulator >= dt
    ensures r.Err? ==> substeps == 0
    ensures substeps <= maxSubSteps
    ensures bailed ==> 1 <= substeps && clock(substeps) > dt * 1000.0
    ensures r.Ok? ==>
      r.value.accumulator == w.accumulator - substeps as real * dt && r.value.time == w.time &&
      r.value.stepnumber == w.stepnumber + substeps &&
      |r.value.bodies| == |w.bodies| && AllReady(r.value.constraints, r.value.bodies)
    ensures r.Ok? && dt > 0.0 && w.accumulator >= 0.0 ==> r.value.accumulator >= 0.0
    ensures r.Ok? && dt > 0.0 && !bailed ==> substeps == Fewer(WholeSteps(w.accumulator, dt), maxSubSteps)
  {
    var cur := w;
    substeps := 0;
    bailed := false;
    while cur.accumulator >= dt && substeps < maxSubSteps
      invariant substeps <= maxSubSteps && !bailed
      invariant cur.accumulator == w.accumulator - substeps as real * dt
      invariant cur.stepnumber == w.stepnumber + substeps && cur.time == w.time
      invariant |cur.bodies| == |w.bodies| && AllReady(cur.constraints, cur.bodies)
      invariant substeps > 0 ==> !HasPlain(w.constraints) && !HasPlain(cur.constraints)
      invariant substeps == 0 ==> cur == w
      invariant dt > 0.0 ==> substeps <= WholeSteps(w.accumulator, dt)
      invariant dt > 0.0 && w.accumulator >= 0.0 ==> cur.accumulator >= 0.0
      decreases maxSubSteps - substeps
    {
      var s, _ := InternalStep(cur, dt, ph);
      if s.Err? {
        return Err(s.error), 0, false;
      }
      if dt > 0.0 {
        StepsFit(w.accumulator, dt, substeps);
      }
      cur := s.value.(accumulator := cur.accumulator - dt);
      substeps := substeps + 1;
      if clock(substeps) > dt * 1000.0 {
        return Ok(cur), substeps, true;
      }
    }
    if dt > 0.0 && substeps < maxSubSteps {
      StepsFit(w.accumulator, dt, substeps);
    }
    r := Ok(cur);
  }

  /** `step(dt, timeSinceLastCalled, maxSubSteps)`. Without an elapsed
      time: one internal step, and the clock moves by dt. With one: it
      joins the accumulator, the catch-up loop runs, the accumulator keeps
      its remainder modulo dt and the clock moves by the elapsed time.
      `substeps` counts the internal steps taken. */
  method Step(w: World, dt: real, elapsed: Option<real>, maxSubSteps: nat, clock: nat -> real, ph: Phases)
    returns (r: Result<World>, substeps: nat)
    requires Sound(ph) && AllReady(w.constraints, w.bodies)
    requires elapsed.Some? ==> dt != 0.0
    ensures r.Err? <==>
      HasPlain(w.constraints) &&
      (elapsed.None? || (0 < maxSubSteps && w.accumulator + elapsed.value >= dt))
    ensures r.Err? ==> substeps == 0
    ensures elapsed.None? && r.Ok? ==>
      substeps == 1 && r.value.time == w.time + dt &&
      r.value.accumulator == w.accumulator && r.value.stepnumber == w.stepnumber + 1
    ensures elapsed.Some? ==> substeps <= maxSubSteps
    ensures elapsed.Some? && r.Ok? ==>
      r.value.time == w.time + elapsed.value && r.value.stepnumber == w.stepnumber + substeps
    ensures elapsed.Some? && r.Ok? ==>
      r.value.accumulator == JsRem(Drained(w.accumulator + elapsed.value, substeps, dt), dt)
    ensures elapsed.Some? && r.Ok? && dt > 0.0 && w.accumulator + elapsed.value >= 0.0 ==>
      0.0 <= r.value.accumulator < dt
    ensures elapsed.Some? && r.Ok? && dt > 0.0 && (forall k :: 1 <= k <= maxSubSteps ==> clock(k) <= dt * 1000.0) ==>
      substeps == Fewer(WholeSteps(w.accumulator + elapsed.value, dt), maxSubSteps)
    ensures r.Ok? ==> |r.value.bodies| == |w.bodies| && AllReady(r.value.constraints, r.value.bodies)
  {
    if elapsed.None? {
      var s, _ := InternalStep(w, dt, ph);
      if s.Err? {
        r, substeps := Err(s.error), 0;
      } else {
        r, substeps := Ok(s.value.(time := s.value.time + dt)), 1;
      }
    } else {
      var caught, n, bailed := CatchUp(w.(accumulator := w.accumulator + elapsed.value), dt, maxSubSteps, clock, ph);
      if caught.Err? {
        r, substeps := Err(caught.error), 0;
      } else {
        var cur := caught.value;
        assert cur.accumulator == w.accumulator + elapsed.value - n as real * dt;
        DrainedIs(w.accumulator + elapsed.value, n, dt);
        if dt > 0.0 && w.accumulator + elapsed.value >= 0.0 {
          JsRemBounds(cur.accumulator, dt);
        }
        r, substeps := Ok(cur.(accumulator := JsRem(cur.accumulator, dt), time := cur.time + elapsed.value)), n;
      }
    }
  }
}
