/** The narrowphase: for every pair of bodies the broadphase kept, each
    pair of their shapes that passes the collision filter and the bounding
    sphere test is handed to the resolver registered for the two shape
    types, together with the contact material that applies. The resolvers
    build their contacts with `CreateContactEquation` and
    `CreateFrictionEquationsFromContact`.

    The resolvers' geometry is not modelled: whether a resolver reports a
    contact for a call is a parameter. Bodies are positions in the world's
    body list, materials are named by their `_id`, and `materials` gives
    the material record behind an id. */
module Narrowphase {
  import opened Vectors
  import opened Wrappers
  import JsNumbers
  import Shape
  import Body
  import Materials
  import Equation
  import ContactEquation
  import FrictionEquation
  import OverlapKeeper
  import TupleDictionary

  /** What the narrowphase reads off the world: the material records, the
      contact material table, the default contact material, the time step
      and gravity. */
  datatype World = World(
    materials: int -> Materials.Material,
    contactMaterials: TupleDictionary.Dict<Materials.ContactMaterial>,
    defaultContactMaterial: Materials.ContactMaterial,
    dt: real,
    gravity: Vec3)

  // Contact materials.

  /** `getContactMaterial(m1, m2) || null`, asked only when both materials
      are set; a stored contact material is always truthy. */
  function PairContactMaterial(w: World, m1: Option<int>, m2: Option<int>): Option<Materials.ContactMaterial>
  {
    if m1.Some? && m2.Some? then TupleDictionary.Get(w.contactMaterials, m1.value, m2.value) else None
  }

  /** `currentContactMaterial`: the table entry for the two shapes'
      materials, else the entry for the two bodies' materials, else the
      world default. */
  function CurrentContactMaterial(w: World, si: Shape.Shape, sj: Shape.Shape, bi: Body.Body, bj: Body.Body): (r: Materials.ContactMaterial)
    ensures PairContactMaterial(w, si.material, sj.material).Some? ==>
      r == PairContactMaterial(w, si.material, sj.material).value
    ensures PairContactMaterial(w, si.material, sj.material).None? && PairContactMaterial(w, bi.material, bj.material).Some? ==>
      r == PairContactMaterial(w, bi.material, bj.material).value
    ensures PairContactMaterial(w, si.material, sj.material).None? && PairContactMaterial(w, bi.material, bj.material).None? ==>
      r == w.defaultContactMaterial
  {
    var shapeCm := PairContactMaterial(w, si.material, sj.material);
    var bodyCm := PairContactMaterial(w, bi.material, bj.material);
    if shapeCm.Some? then shapeCm.value
    else if bodyCm.Some? then bodyCm.value
    else w.defaultContactMaterial
  }

  /** The contact material does not depend on which shape and body come
      first, and without any table entry for the materials involved it is
      the default. */
  lemma CurrentContactMaterialSymmetric(w: World, si: Shape.Shape, sj: Shape.Shape, bi: Body.Body, bj: Body.Body)
    ensures CurrentContactMaterial(w, sj, si, bj, bi) == CurrentContactMaterial(w, si, sj, bi, bj)
    ensures (forall a, b :: TupleDictionary.Get(w.contactMaterials, a, b).None?) ==>
      CurrentContactMaterial(w, si, sj, bi, bj) == w.defaultContactMaterial
  {
    if si.material.Some? && sj.material.Some? {
      assert TupleDictionary.Key(si.material.value, sj.material.value) == TupleDictionary.Key(sj.material.value, si.material.value);
    }
    if bi.material.Some? && bj.material.Some? {
      assert TupleDictionary.Key(bi.material.value, bj.material.value) == TupleDictionary.Key(bj.material.value, bi.material.value);
    }
  }

  // Contact equations.

  /** The material that applies to one side of a contact: the shape's,
      else its body's. */
  function SideMaterial(s: Shape.Shape, b: Body.Body): Option<int>
  {
    if s.material.Some? then s.material else b.material
  }

  /** Both sides have a material whose restitution is set (not negative). */
  predicate RestitutionsSet(w: World, ma: Option<int>, mb: Option<int>)
  {
    ma.Some? && mb.Some? && w.materials(ma.value).restitution >= 0.0 && w.materials(mb.value).restitution >= 0.0
  }

  /** Both sides have a material whose friction is set (not negative). */
  predicate FrictionsSet(w: World, ma: Option<int>, mb: Option<int>)
  {
    ma.Some? && mb.Some? && w.materials(ma.value).friction >= 0.0 && w.materials(mb.value).friction >= 0.0
  }

  /** The restitution of a contact: the product of the two materials'
      restitutions when both are set, else the contact material's. */
  function Restitution(w: World, cm: Materials.ContactMaterial, ma: Option<int>, mb: Option<int>): real
  {
    if RestitutionsSet(w, ma, mb) then w.materials(ma.value).restitution * w.materials(mb.value).restitution
    else cm.restitution
  }

  /** The friction coefficient of a contact: the product of the two
      materials' frictions when both are set, else the contact material's. */
  function FrictionCoefficient(w: World, cm: Materials.ContactMaterial, ma: Option<int>, mb: Option<int>): real
  {
    if FrictionsSet(w, ma, mb) then w.materials(ma.value).friction * w.materials(mb.value).friction
    else cm.friction
  }

  /** Restitution and friction do not depend on which side comes first;
      materials that set neither leave the contact material's values. */
  lemma MaterialProductsSymmetric(w: World, cm: Materials.ContactMaterial, ma: Option<int>, mb: Option<int>)
    ensures Restitution(w, cm, mb, ma) == Restitution(w, cm, ma, mb)
    ensures FrictionCoefficient(w, cm, mb, ma) == FrictionCoefficient(w, cm, ma, mb)
    ensures ma.None? ==> Restitution(w, cm, ma, mb) == cm.restitution && FrictionCoefficient(w, cm, ma, mb) == cm.friction
  {
  }

  /** The divisions of `setSpookParams` are defined. */
  predicate SpookReady(stiffness: real, relaxation: real, dt: real)
  {
    dt != 0.0 && stiffness != 0.0 && 1.0 + 4.0 * relaxation != 0.0
  }

  /** The SPOOK parameters of `eq` are those of the given stiffness,
      relaxation and time step. */
  predicate SpookSet(eq: Equation.Equation, stiffness: real, relaxation: real, dt: real)
  {
    eq.a * (dt * (1.0 + 4.0 * relaxation)) == 4.0 &&
    eq.b * (1.0 + 4.0 * relaxation) == 4.0 * relaxation &&
    eq.eps * (dt * dt * stiffness * (1.0 + 4.0 * relaxation)) == 4.0
  }

  /** The contact pool holds contact equations. */
  predicate ContactPool(pool: seq<Equation.Equation>)
  {
    forall k :: 0 <= k < |pool| ==> pool[k].kind.Contact?
  }

  /** A contact equation with the two shapes it was made for (`si`, `sj`). */
  datatype Contact = Contact(eq: Equation.Equation, si: Shape.Shape, sj: Shape.Shape)

  /** A new contact and the pool it was taken from. */
  datatype Made = Made(contact: Contact, pool: seq<Equation.Equation>)

  /** `eq` is the pooled equation `pooled` given new bodies, flags, restitution
      and SPOOK parameters: its id, bounds, multiplier, Jacobian and contact
      vectors are those `pooled` had. */
  predicate Reuses(eq: Equation.Equation, pooled: Equation.Equation)
    requires eq.kind.Contact? && pooled.kind.Contact?
  {
    eq.id == pooled.id && eq.minForce == pooled.minForce && eq.maxForce == pooled.maxForce &&
    eq.multiplier == pooled.multiplier && eq.ga == pooled.ga && eq.gb == pooled.gb &&
    eq.kind.ri == pooled.kind.ri && eq.kind.rj == pooled.kind.rj && eq.kind.ni == pooled.kind.ni
  }

  /** `createContactEquation`: the top of the pool when there is one (else
      a new equation with the given id), for bodies `bi` and `bj`, enabled
      exactly when both bodies and both shapes respond to collisions, with
      the restitution of the two sides' materials and the contact SPOOK
      parameters of `cm`; an override shape stands in for a shape. */
  function CreateContactEquation(
      w: World, cm: Materials.ContactMaterial, pool: seq<Equation.Equation>, id: int,
      bodies: seq<Body.Body>, bi: nat, bj: nat, si: Shape.Shape, sj: Shape.Shape,
      overrideA: Option<Shape.Shape>, overrideB: Option<Shape.Shape>): (r: Made)
    requires bi < |bodies| && bj < |bodies| && ContactPool(pool)
    requires SpookReady(cm.contactEquationStiffness, cm.contactEquationRelaxation, w.dt)
    ensures r.contact.eq.bi == bi && r.contact.eq.bj == bj && r.contact.eq.kind.Contact?
    ensures |pool| > 0 ==> r.pool == pool[..|pool| - 1] && Reuses(r.contact.eq, pool[|pool| - 1])
    ensures |pool| == 0 ==> (r.pool == [] && r.contact.eq.id == id &&
      r.contact.eq.minForce == 0.0 && r.contact.eq.maxForce == 1000000.0 &&
      r.contact.eq.kind.ri == Zero && r.contact.eq.kind.rj == Zero && r.contact.eq.kind.ni == Zero)
    ensures r.contact.eq.enabled <==>
      bodies[bi].collisionResponse && bodies[bj].collisionResponse && si.collisionResponse && sj.collisionResponse
    ensures r.contact.eq.kind.restitution == Restitution(w, cm, SideMaterial(si, bodies[bi]), SideMaterial(sj, bodies[bj]))
    ensures SpookSet(r.contact.eq, cm.contactEquationStiffness, cm.contactEquationRelaxation, w.dt)
    ensures r.contact.si == (if overrideA.Some? then overrideA.value else si)
    ensures r.contact.sj == (if overrideB.Some? then overrideB.value else sj)
  {
    var base := if |pool| > 0 then pool[|pool| - 1].(bi := bi, bj := bj) else ContactEquation.Init(id, bi, bj, None);
    var enabled := bodies[bi].collisionResponse && bodies[bj].collisionResponse && si.collisionResponse && sj.collisionResponse;
    var restitution := Restitution(w, cm, SideMaterial(si, bodies[bi]), SideMaterial(sj, bodies[bj]));
    var kind := Equation.Contact(restitution, base.kind.ri, base.kind.rj, base.kind.ni);
    var eq := Equation.SetSpookParams(base.(enabled := enabled, kind := kind),
      cm.contactEquationStiffness, cm.contactEquationRelaxation, w.dt);
    Made(Contact(eq, Body.Or(overrideA, si), Body.Or(overrideB, sj)), if |pool| > 0 then pool[..|pool| - 1] else [])
  }

  /** Contacts are made one after another from the same pool: the pool
      hands out its equations from the top, and once it is empty every
      contact is new. */
  lemma {:induction false} CreateContactTakesFromTop(
      w: World, cm: Materials.ContactMaterial, pool: seq<Equation.Equation>, id1: int, id2: int,
      bodies: seq<Body.Body>, bi: nat, bj: nat, si: Shape.Shape, sj: Shape.Shape)
    requires bi < |bodies| && bj < |bodies| && ContactPool(pool) && |pool| >= 2
    requires SpookReady(cm.contactEquationStiffness, cm.contactEquationRelaxation, w.dt)
    ensures var first := CreateContactEquation(w, cm, pool, id1, bodies, bi, bj, si, sj, None, None);
      var second := CreateContactEquation(w, cm, first.pool, id2, bodies, bi, bj, si, sj, None, None);
      first.contact.eq.id == pool[|pool| - 1].id && second.contact.eq.id == pool[|pool| - 2].id &&
      second.pool == pool[..|pool| - 2]
  {
    var first := CreateContactEquation(w, cm, pool, id1, bodies, bi, bj, si, sj, None, None);
    assert first.pool[|first.pool| - 1] == pool[|pool| - 2];
    assert first.pool[..|first.pool| - 1] == pool[..|pool| - 2];
  }

  // Friction equations.

  /** 1/(invA + invB) when that sum is positive, else the sum itself. */
  function ReducedMass(invA: real, invB: real): (r: real)
    ensures invA + invB > 0.0 ==> r * (invA + invB) == 1.0 && r > 0.0
    ensures invA + invB <= 0.0 ==> r == invA + invB
  {
    var sum := invA + invB;
    if sum > 0.0 then 1.0 / sum else sum
  }

  /** For masses as bodies carry them (inverse masses not negative), the
      reduced mass is never negative, and it is 0 between two bodies of
      infinite mass. */
  lemma ReducedMassOfBodies(invA: real, invB: real)
    requires invA >= 0.0 && invB >= 0.0
    ensures ReducedMass(invA, invB) >= 0.0
    ensures invA == 0.0 && invB == 0.0 ==> ReducedMass(invA, invB) == 0.0
    ensures invA > 0.0 && invB == 0.0 ==> ReducedMass(invA, invB) * invA == 1.0
  {
  }

  /** The friction coefficient of a contact. */
  function ContactFriction(w: World, cm: Materials.ContactMaterial, contact: Contact, bodies: seq<Body.Body>): real
    requires contact.eq.bi < |bodies| && contact.eq.bj < |bodies|
  {
    FrictionCoefficient(w, cm, SideMaterial(contact.si, bodies[contact.eq.bi]), SideMaterial(contact.sj, bodies[contact.eq.bj]))
  }

  /** `mug * reducedMass`: friction times the length of gravity times the
      reduced mass of the two bodies. */
  function SlipForce(w: World, cm: Materials.ContactMaterial, contact: Contact, bodies: seq<Body.Body>, ops: MathOps): real
    requires contact.eq.bi < |bodies| && contact.eq.bj < |bodies|
  {
    var mug := ContactFriction(w, cm, contact, bodies) * ops.sqrt(NormSq(w.gravity));
    mug * ReducedMass(bodies[contact.eq.bi].invMass, bodies[contact.eq.bj].invMass)
  }

  /** The friction equations made, the output list and the pool after. */
  datatype Frictions = Frictions(created: bool, out: seq<Equation.Equation>, pool: seq<Equation.Equation>)

  /** One friction equation of a contact: for the contact's bodies, bounds
      -slip and slip, the contact's arms, tangent `t`, the contact's
      `enabled`, and the friction SPOOK parameters of `cm`. */
  function Tangential(w: World, cm: Materials.ContactMaterial, base: Equation.Equation, contact: Contact, slip: real, t: Vec3): (r: Equation.Equation)
    requires contact.eq.kind.Contact?
    requires SpookReady(cm.frictionEquationStiffness, cm.frictionEquationRelaxation, w.dt)
    ensures r.id == base.id && r.bi == contact.eq.bi && r.bj == contact.eq.bj
    ensures r.minForce == -slip && r.maxForce == slip && r.enabled == contact.eq.enabled
    ensures r.kind == Equation.Friction(contact.eq.kind.ri, contact.eq.kind.rj, t)
    ensures SpookSet(r, cm.frictionEquationStiffness, cm.frictionEquationRelaxation, w.dt)
  {
    var eq := base.(bi := contact.eq.bi, bj := contact.eq.bj, minForce := -slip, maxForce := slip,
      enabled := contact.eq.enabled, kind := Equation.Friction(contact.eq.kind.ri, contact.eq.kind.rj, t));
    Equation.SetSpookParams(eq, cm.frictionEquationStiffness, cm.frictionEquationRelaxation, w.dt)
  }

  /** The equation a pool hands out (its top), else a new one. */
  function Take(pool: seq<Equation.Equation>, id: int, bi: nat, bj: nat, slip: real): (r: (Equation.Equation, seq<Equation.Equation>))
    ensures |pool| > 0 ==> r == (pool[|pool| - 1], pool[..|pool| - 1])
    ensures |pool| == 0 ==> r.0.id == id && r.1 == []
  {
    if |pool| > 0 then (pool[|pool| - 1], pool[..|pool| - 1])
    else (FrictionEquation.Init(id, bi, bj, slip), [])
  }

  /** `createFrictionEquationsFromContact`: when the contact's friction is
      positive, two friction equations (from the pool while it lasts, else
      new with the given ids) along the two tangents of the contact normal,
      bounded by the slip force, are appended to `out`; otherwise nothing
      changes. */
  function CreateFrictionEquationsFromContact(
      w: World, cm: Materials.ContactMaterial, contact: Contact, bodies: seq<Body.Body>,
      pool: seq<Equation.Equation>, out: seq<Equation.Equation>, ids: (int, int), ops: MathOps): (r: Frictions)
    requires contact.eq.kind.Contact? && contact.eq.bi < |bodies| && contact.eq.bj < |bodies|
    requires SpookReady(cm.frictionEquationStiffness, cm.frictionEquationRelaxation, w.dt)
    ensures r.created <==> ContactFriction(w, cm, contact, bodies) > 0.0
    ensures !r.created ==> r.out == out && r.pool == pool
    ensures r.created ==> |r.out| == |out| + 2 && r.out[..|out|] == out
    ensures r.created ==> forall k :: |out| <= k < |r.out| ==>
      r.out[k].bi == contact.eq.bi && r.out[k].bj == contact.eq.bj &&
      r.out[k].minForce == -SlipForce(w, cm, contact, bodies, ops) &&
      r.out[k].maxForce == SlipForce(w, cm, contact, bodies, ops) &&
      r.out[k].enabled == contact.eq.enabled && r.out[k].kind.Friction? &&
      r.out[k].kind.ri == contact.eq.kind.ri && r.out[k].kind.rj == contact.eq.kind.rj &&
      SpookSet(r.out[k], cm.frictionEquationStiffness, cm.frictionEquationRelaxation, w.dt)
    ensures r.created ==> (r.out[|out|].kind.t, r.out[|out| + 1].kind.t) == ops.tangents(contact.eq.kind.ni)
    ensures r.created ==> r.out[|out|].id == (if |pool| >= 1 then pool[|pool| - 1].id else ids.0)
    ensures r.created ==> r.out[|out| + 1].id == (if |pool| >= 2 then pool[|pool| - 2].id else ids.1)
    ensures r.created ==> r.pool == (if |pool| >= 2 then pool[..|pool| - 2] else [])
  {
    if ContactFriction(w, cm, contact, bodies) > 0.0 then
      var slip := SlipForce(w, cm, contact, bodies, ops);
      var (b1, rest) := Take(pool, ids.0, contact.eq.bi, contact.eq.bj, slip);
      var (b2, left) := Take(rest, ids.1, contact.eq.bi, contact.eq.bj, slip);
      var (t1, t2) := ops.tangents(contact.eq.kind.ni);
      var c1 := Tangential(w, cm, b1, contact, slip, t1);
      var c2 := Tangential(w, cm, b2, contact, slip, t2);
      assert |pool| >= 2 ==> rest[|rest| - 1] == pool[|pool| - 2] && left == pool[..|pool| - 2];
      Frictions(true, out + [c1, c2], left)
    else
      Frictions(false, out, pool)
  }

  /** The two friction equations of a contact share one bound, which is
      symmetric about 0, is not negative for positive friction, bodies as
      they are kept and a square root that is not negative, and spreads
      friction times the length of gravity over the reduced mass. */
  lemma FrictionBoundsShareLoad(w: World, cm: Materials.ContactMaterial, contact: Contact, bodies: seq<Body.Body>, ops: MathOps)
    requires contact.eq.bi < |bodies| && contact.eq.bj < |bodies|
    requires ContactFriction(w, cm, contact, bodies) > 0.0 && ops.sqrt(NormSq(w.gravity)) >= 0.0
    requires bodies[contact.eq.bi].invMass >= 0.0 && bodies[contact.eq.bj].invMass >= 0.0
    ensures SlipForce(w, cm, contact, bodies, ops) >= 0.0
    ensures var sum := bodies[contact.eq.bi].invMass + bodies[contact.eq.bj].invMass;
      sum > 0.0 ==> (SlipForce(w, cm, contact, bodies, ops) * sum ==
        ContactFriction(w, cm, contact, bodies) * ops.sqrt(NormSq(w.gravity)))
  {
    var mug := ContactFriction(w, cm, contact, bodies) * ops.sqrt(NormSq(w.gravity));
    var invA, invB := bodies[contact.eq.bi].invMass, bodies[contact.eq.bj].invMass;
    var rm := ReducedMass(invA, invB);
    ReducedMassOfBodies(invA, invB);
    assert mug >= 0.0;
    assert mug * rm >= 0.0;
    if invA + invB > 0.0 {
      assert mug * rm * (invA + invB) == mug * (rm * (invA + invB));
    }
  }

  // The resolvers.

  /** The resolver methods of the narrowphase. The cylinder pairs are
      served by the convex resolvers. */
  datatype Resolver =
    | SphereSphere | SpherePlane | BoxBox | SphereBox | PlaneBox
    | ConvexConvex | SphereConvex | PlaneConvex | BoxConvex
    | SphereHeightfield | BoxHeightfield | ConvexHeightfield
    | SphereParticle | PlaneParticle | BoxParticle | ConvexParticle
    | HeightfieldCylinder | ParticleCylinder | SphereTrimesh | PlaneTrimesh

  /** One registered resolver: the positions in `Shape.Types` of the two
      types whose `|` is its key. */
  datatype Entry = Entry(u: nat, v: nat, resolver: Resolver)

  /** The resolvers registered under `COLLISION_TYPES`, in the order they
      are declared. The `convexTrimesh` entry names a key the table does
      not have, so it is registered under `undefined`, which no pair of
      shape types produces; it is not listed. */
  const Table: seq<Entry> := [
    Entry(0, 0, SphereSphere), Entry(0, 1, SpherePlane), Entry(2, 2, BoxBox),
    Entry(0, 2, SphereBox), Entry(1, 2, PlaneBox), Entry(4, 4, ConvexConvex),
    Entry(0, 4, SphereConvex), Entry(1, 4, PlaneConvex), Entry(2, 4, BoxConvex),
    Entry(0, 5, SphereHeightfield), Entry(2, 5, BoxHeightfield), Entry(4, 5, ConvexHeightfield),
    Entry(6, 0, SphereParticle), Entry(1, 6, PlaneParticle), Entry(2, 6, BoxParticle),
    Entry(6, 4, ConvexParticle), Entry(7, 7, ConvexConvex), Entry(0, 7, SphereConvex),
    Entry(1, 7, PlaneConvex), Entry(2, 7, BoxConvex), Entry(4, 7, ConvexConvex),
    Entry(5, 7, HeightfieldCylinder), Entry(6, 7, ParticleCylinder),
    Entry(0, 8, SphereTrimesh), Entry(1, 8, PlaneTrimesh)]

  predicate EntriesValid(table: seq<Entry>)
  {
    forall k :: 0 <= k < |table| ==> table[k].u < |Shape.Types| && table[k].v < |Shape.Types|
  }

  /** The key an entry is registered under, `Types[u] | Types[v]`, which
      for two type flags is their sum, or the one flag when they are the
      same (`Shape.TypePairKey`). */
  function KeyOf(e: Entry): int
    requires e.u < |Shape.Types| && e.v < |Shape.Types|
  {
    if e.u == e.v then Shape.Types[e.u] else Shape.Types[e.u] + Shape.Types[e.v]
  }

  /** `this[key]`: the resolver registered under the key, if any. */
  function Lookup(table: seq<Entry>, key: int, k: nat): Option<Resolver>
    requires EntriesValid(table) && k <= |table|
    decreases |table| - k
  {
    if k == |table| then None
    else if KeyOf(table[k]) == key then Some(table[k].resolver)
    else Lookup(table, key, k + 1)
  }

  /** The resolver for shapes of types `ti` and `tj`: the one registered
      under `ti | tj`. */
  function ResolverFor(ti: int, tj: int): Option<Resolver>
  {
    Lookup(Table, JsNumbers.Or(ti, tj), 0)
  }

  /** The entry is for the unordered pair of types p and q. */
  predicate Names(e: Entry, p: nat, q: nat)
  {
    (e.u == p && e.v == q) || (e.u == q && e.v == p)
  }

  /** The reference reading of the table: the first entry for the
      unordered pair of types p and q. */
  function ForPair(table: seq<Entry>, p: nat, q: nat, k: nat): Option<Resolver>
    requires k <= |table|
    decreases |table| - k
  {
    if k == |table| then None
    else if Names(table[k], p, q) then Some(table[k].resolver)
    else ForPair(table, p, q, k + 1)
  }

  /** `Names` is equality of the unordered pairs. */
  lemma NamesIsPair(e: Entry, p: nat, q: nat)
    ensures Names(e, p, q) <==> {e.u, e.v} == {p, q}
  {
    if {e.u, e.v} == {p, q} {
      assert e.u in {p, q} && e.v in {p, q} && p in {e.u, e.v} && q in {e.u, e.v};
    }
  }

  /** Looking a key up finds the resolver of exactly the pair of types the
      key was made from. */
  lemma {:induction false} LookupByPair(table: seq<Entry>, p: nat, q: nat, k: nat)
    requires EntriesValid(table) && p < |Shape.Types| && q < |Shape.Types| && k <= |table|
    ensures Lookup(table, JsNumbers.Or(Shape.Types[p], Shape.Types[q]), k) == ForPair(table, p, q, k)
    decreases |table| - k
  {
    if k < |table| {
      var e := table[k];
      Shape.TypePairKey(e.u, e.v);
      Shape.TypePairKeyUnique(e.u, e.v, p, q);
      NamesIsPair(e, p, q);
      assert KeyOf(e) == JsNumbers.Or(Shape.Types[e.u], Shape.Types[e.v]);
      LookupByPair(table, p, q, k + 1);
    }
  }

  /** The resolver does not depend on the order of the two types. */
  lemma ResolverForSymmetric(ti: int, tj: int)
    ensures ResolverFor(ti, tj) == ResolverFor(tj, ti)
  {
    JsNumbers.Pow2Of32();
    JsNumbers.OrCommutes(JsNumbers.Bits(ti), JsNumbers.Bits(tj), 32);
  }

  /** For two shape types, the resolver is the one registered for that
      pair of types, in either order. */
  lemma ResolverByTypes(p: nat, q: nat)
    requires p < |Shape.Types| && q < |Shape.Types|
    ensures ResolverFor(Shape.Types[p], Shape.Types[q]) == ForPair(Table, p, q, 0)
  {
    LookupByPair(Table, p, q, 0);
  }

  /** The first entry from k on that names p and q decides. */
  lemma {:induction false} ForPairFirst(table: seq<Entry>, p: nat, q: nat, k: nat, m: nat)
    requires k <= m < |table| && Names(table[m], p, q)
    requires forall n :: k <= n < m ==> !Names(table[n], p, q)
    ensures ForPair(table, p, q, k) == Some(table[m].resolver)
    decreases m - k
  {
    if k < m {
      ForPairFirst(table, p, q, k + 1, m);
    }
  }

  /** With no entry from k on naming p and q, there is no resolver. */
  lemma {:induction false} ForPairNone(table: seq<Entry>, p: nat, q: nat, k: nat)
    requires k <= |table|
    requires forall n :: k <= n < |table| ==> !Names(table[n], p, q)
    ensures ForPair(table, p, q, k) == None
    decreases |table| - k
  {
    if k < |table| {
      ForPairNone(table, p, q, k + 1);
    }
  }

  /** Cylinders use the convex resolvers (`ResolverByTypes` turns these
      into facts about the keys). */
  lemma CylindersUseConvex()
    ensures ForPair(Table, 7, 7, 0) == Some(ConvexConvex)
    ensures ForPair(Table, 0, 7, 0) == Some(SphereConvex) && ForPair(Table, 7, 0, 0) == Some(SphereConvex)
  {
    ForPairFirst(Table, 7, 7, 0, 16);
    ForPairFirst(Table, 0, 7, 0, 17);
    ForPairFirst(Table, 7, 0, 0, 17);
  }

  /** A convex polyhedron against a trimesh has no resolver: the table of
      collision types has no `convexTrimesh` entry, so its getter is
      registered under the key "undefined", which no sum of type bits
      looks up. */
  lemma NoConvexTrimesh()
    ensures ForPair(Table, 4, 8, 0) == None
  {
    ForPairNone(Table, 4, 8, 0);
  }

  /** Compound shapes have no resolver against anything. */
  lemma NoCompound(q: nat)
    ensures ForPair(Table, 3, q, 0) == None
  {
    ForPairNone(Table, 3, q, 0);
  }

  /** Two planes, two heightfields, two particles or two trimeshes have no
      resolver. */
  lemma NoSelfPair(p: nat)
    requires p in {1, 5, 6, 8}
    ensures ForPair(Table, p, p, 0) == None
  {
    ForPairNone(Table, p, p, 0);
  }

  // The pair loop of `getContacts`.

  /** A shape placed in the world: its world position and orientation,
      and its body. */
  datatype Side = Side(shape: Shape.Shape, position: Vec3, quaternion: Quat, body: nat)

  /** Shape i of body b in world coordinates. */
  function Place(bodies: seq<Body.Body>, b: nat, i: nat, ops: MathOps): (r: Side)
    requires b < |bodies| && Body.Aligned(bodies[b]) && i < |bodies[b].shapes|
    ensures r.shape == bodies[b].shapes[i] && r.body == b
    ensures r.position == Body.PointToWorldFrame(bodies[b], bodies[b].shapeOffsets[i], ops)
  {
    var body := bodies[b];
    Side(body.shapes[i], Body.PointToWorldFrame(body, body.shapeOffsets[i], ops),
      ops.mult(body.quaternion, body.shapeOrientations[i]), b)
  }

  /** JavaScript's truthiness of `a & b`. */
  predicate Shares(a: int, b: int)
  {
    JsNumbers.And(a, b) != 0
  }

  /** The collision filter: each shape's mask shares a bit with the other's
      group. */
  predicate FiltersAdmit(si: Shape.Shape, sj: Shape.Shape)
  {
    Shares(si.collisionFilterMask, sj.collisionFilterGroup) && Shares(sj.collisionFilterMask, si.collisionFilterGroup)
  }

  /** The filter is symmetric, and shapes with the default filter (group 1,
      mask -1) admit each other. */
  lemma FiltersAdmitSymmetric(si: Shape.Shape, sj: Shape.Shape)
    ensures FiltersAdmit(si, sj) <==> FiltersAdmit(sj, si)
    ensures (si.collisionFilterGroup == 1 && si.collisionFilterMask == -1 &&
      sj.collisionFilterGroup == 1 && sj.collisionFilterMask == -1) ==> FiltersAdmit(si, sj)
  {
    JsNumbers.AndSymmetric(si.collisionFilterMask, sj.collisionFilterGroup);
    JsNumbers.AndSymmetric(sj.collisionFilterMask, si.collisionFilterGroup);
    JsNumbers.AndMinusOne(1);
  }

  /** The bounding sphere test: the distance between the shapes is not
      more than the sum of their bounding radii. */
  predicate WithinReach(a: Side, b: Side, ops: MathOps)
  {
    !(ops.sqrt(NormSq(Sub(b.position, a.position))) > a.shape.boundingSphereRadius + b.shape.boundingSphereRadius)
  }

  /** `justTest` for a body pair: a kinematic body against a static or
      kinematic one, in either order; such pairs only record overlaps. */
  predicate JustTest(ti: int, tj: int)
  {
    (Shares(ti, Body.KINEMATIC) && Shares(tj, Body.STATIC)) ||
    (Shares(ti, Body.STATIC) && Shares(tj, Body.KINEMATIC)) ||
    (Shares(ti, Body.KINEMATIC) && Shares(tj, Body.KINEMATIC))
  }

  /** For the three body types, only a kinematic body against a static or
      kinematic one is tested without contacts; the order does not matter. */
  lemma JustTestForTypes(ti: int, tj: int)
    requires ti in {Body.DYNAMIC, Body.STATIC, Body.KINEMATIC} && tj in {Body.DYNAMIC, Body.STATIC, Body.KINEMATIC}
    ensures JustTest(ti, tj) <==>
      (ti == Body.KINEMATIC && tj != Body.DYNAMIC) || (ti == Body.STATIC && tj == Body.KINEMATIC)
    ensures JustTest(ti, tj) <==> JustTest(tj, ti)
  {
    var si := StaticFlag(ti);
    var ki := KinematicFlag(ti);
    var sj := StaticFlag(tj);
    var kj := KinematicFlag(tj);
  }

  /** Of the three body types only STATIC has the STATIC bit. */
  lemma StaticFlag(t: int) returns (on: bool)
    requires t in {Body.DYNAMIC, Body.STATIC, Body.KINEMATIC}
    ensures on == Shares(t, Body.STATIC) && (on <==> t == Body.STATIC)
  {
    Body.StaticBit();
    if t == Body.DYNAMIC {
      assert JsNumbers.And(t, Body.STATIC) == 0;
    } else if t == Body.STATIC {
      assert JsNumbers.And(t, Body.STATIC) == Body.STATIC;
    } else {
      assert JsNumbers.And(t, Body.STATIC) == 0;
    }
    on := t == Body.STATIC;
  }

  /** Of the three body types only KINEMATIC has the KINEMATIC bit. */
  lemma KinematicFlag(t: int) returns (on: bool)
    requires t in {Body.DYNAMIC, Body.STATIC, Body.KINEMATIC}
    ensures on == Shares(t, Body.KINEMATIC) && (on <==> t == Body.KINEMATIC)
  {
    Body.KinematicBit();
    if t == Body.DYNAMIC {
      assert JsNumbers.And(t, Body.KINEMATIC) == 0;
    } else if t == Body.STATIC {
      assert JsNumbers.And(t, Body.KINEMATIC) == 0;
    } else {
      assert JsNumbers.And(t, Body.KINEMATIC) == Body.KINEMATIC;
    }
    on := t == Body.KINEMATIC;
  }

  /** What `getContacts` passes to a resolver: the resolver, the two placed
      shapes with the lower type first, the two bodies and the two shapes
      in the pair's own order, the contact material and `justTest`. */
  datatype Call = Call(resolver: Resolver, first: Side, second: Side, bi: nat, bj: nat, si: Shape.Shape, sj: Shape.Shape,
    material: Materials.ContactMaterial, justTest: bool)

  /** Shape i of body a and shape j of body b exist. */
  predicate InRange(bodies: seq<Body.Body>, a: nat, b: nat, i: nat, j: nat)
  {
    a < |bodies| && b < |bodies| && Body.Aligned(bodies[a]) && Body.Aligned(bodies[b]) &&
    i < |bodies[a].shapes| && j < |bodies[b].shapes|
  }

  /** Shape i of body a and shape j of body b pass the collision filter
      and the bounding sphere test, and their types have a resolver. */
  predicate Admitted(bodies: seq<Body.Body>, a: nat, b: nat, i: nat, j: nat, ops: MathOps)
  {
    InRange(bodies, a, b, i, j) &&
    var si, sj := bodies[a].shapes[i], bodies[b].shapes[j];
    FiltersAdmit(si, sj) && ResolverFor(si.shapeType, sj.shapeType).Some? &&
    WithinReach(Place(bodies, a, i, ops), Place(bodies, b, j, ops), ops)
  }

  /** Shape i of body a against shape j of body b: the call made for the
      pair, if it passes the filter and the bounding sphere test and its
      types have a resolver. */
  function Examine(w: World, bodies: seq<Body.Body>, a: nat, b: nat, i: nat, j: nat, ops: MathOps): (r: Option<Call>)
    ensures r.Some? ==> InRange(bodies, a, b, i, j)
    ensures r.Some? <==> Admitted(bodies, a, b, i, j, ops)
    ensures r.Some? ==> var c := r.value;
      c.bi == a && c.bj == b && c.si == bodies[a].shapes[i] && c.sj == bodies[b].shapes[j] &&
      Some(c.resolver) == ResolverFor(c.si.shapeType, c.sj.shapeType) &&
      (if c.si.shapeType < c.sj.shapeType
       then c.first == Place(bodies, a, i, ops) && c.second == Place(bodies, b, j, ops)
       else c.first == Place(bodies, b, j, ops) && c.second == Place(bodies, a, i, ops)) &&
      c.material == CurrentContactMaterial(w, c.si, c.sj, bodies[a], bodies[b]) &&
      c.justTest == JustTest(bodies[a].bodyType, bodies[b].bodyType)
  {
    if !InRange(bodies, a, b, i, j) then None
    else
      var xi, xj := Place(bodies, a, i, ops), Place(bodies, b, j, ops);
      var si, sj := xi.shape, xj.shape;
      if !FiltersAdmit(si, sj) then None
      else if !WithinReach(xi, xj, ops) then None
      else
        var resolver := ResolverFor(si.shapeType, sj.shapeType);
        if resolver.None? then None
        else
          var cm := CurrentContactMaterial(w, si, sj, bodies[a], bodies[b]);
          var justTest := JustTest(bodies[a].bodyType, bodies[b].bodyType);
          if si.shapeType < sj.shapeType then Some(Call(resolver.value, xi, xj, a, b, si, sj, cm, justTest))
          else Some(Call(resolver.value, xj, xi, a, b, si, sj, cm, justTest))
  }

  /** Every call the loop makes passes the filter and goes to the resolver
      of its two types, with the lower type first. */
  predicate WellFormed(c: Call)
  {
    FiltersAdmit(c.si, c.sj) && Some(c.resolver) == ResolverFor(c.si.shapeType, c.sj.shapeType) &&
    c.first.shape.shapeType <= c.second.shape.shapeType &&
    ((c.first.shape == c.si && c.second.shape == c.sj) || (c.first.shape == c.sj && c.second.shape == c.si))
  }

  /** What `Examine` promises of a call, and the bodies it names. */
  predicate ExaminedWell(bodies: seq<Body.Body>, a: nat, b: nat, c: Call)
  {
    WellFormed(c) && c.bi == a < |bodies| && c.bj == b < |bodies| &&
    c.justTest == JustTest(bodies[a].bodyType, bodies[b].bodyType)
  }

  lemma ExamineWellFormed(w: World, bodies: seq<Body.Body>, a: nat, b: nat, i: nat, j: nat, ops: MathOps)
    requires Examine(w, bodies, a, b, i, j, ops).Some?
    ensures ExaminedWell(bodies, a, b, Examine(w, bodies, a, b, i, j, ops).value)
  {
  }

  lemma ExamineAllWellFormed(w: World, bodies: seq<Body.Body>, ops: MathOps)
    ensures forall a: nat, b: nat, i: nat, j: nat :: Examine(w, bodies, a, b, i, j, ops).Some? ==>
      ExaminedWell(bodies, a, b, Examine(w, bodies, a, b, i, j, ops).value)
  {
    forall a: nat, b: nat, i: nat, j: nat | Examine(w, bodies, a, b, i, j, ops).Some?
      ensures ExaminedWell(bodies, a, b, Examine(w, bodies, a, b, i, j, ops).value)
    {
      ExamineWellFormed(w, bodies, a, b, i, j, ops);
    }
  }

  /** The loop over the shape pairs, for any way `examine` of deciding the
      call (if any) for shape i of body a against shape j of body b;
      `counts[b]` is the number of shapes of body b. */
  type Examiner = (nat, nat, nat, nat) -> Option<Call>

  /** The calls for shape i of body a against shapes j.. of body b. */
  function Row(examine: Examiner, counts: seq<nat>, a: nat, b: nat, i: nat, j: nat): seq<Call>
    requires b < |counts| && j <= counts[b]
    decreases counts[b] - j
  {
    if j == counts[b] then []
    else
      var here := examine(a, b, i, j);
      (if here.Some? then [here.value] else []) + Row(examine, counts, a, b, i, j + 1)
  }

  /** The calls for shapes i.. of body a against the shapes of body b. */
  function Block(examine: Examiner, counts: seq<nat>, a: nat, b: nat, i: nat): seq<Call>
    requires a < |counts| && b < |counts| && i <= counts[a]
    decreases counts[a] - i
  {
    if i == counts[a] then []
    else Row(examine, counts, a, b, i, 0) + Block(examine, counts, a, b, i + 1)
  }

  /** The broadphase pairs: two lists of the same length naming bodies. */
  predicate PairsValid(counts: seq<nat>, p1: seq<nat>, p2: seq<nat>)
  {
    |p1| == |p2| &&
    (forall k :: 0 <= k < |p1| ==> p1[k] < |counts|) &&
    (forall k :: 0 <= k < |p2| ==> p2[k] < |counts|)
  }

  /** The calls for body pairs k.. of the broadphase's lists. */
  function Calls(examine: Examiner, counts: seq<nat>, p1: seq<nat>, p2: seq<nat>, k: nat): seq<Call>
    requires PairsValid(counts, p1, p2) && k <= |p1|
    decreases |p1| - k
  {
    if k == |p1| then []
    else Block(examine, counts, p1[k], p2[k], 0) + Calls(examine, counts, p1, p2, k + 1)
  }

  /** Whatever holds of every call `examine` makes for a broadphase pair
      holds of every call of the loop. */
  lemma {:induction false} RowKeeps(examine: Examiner, P: Call -> bool, counts: seq<nat>, a: nat, b: nat, i: nat, j: nat)
    requires b < |counts| && j <= counts[b]
    requires forall jj :: j <= jj < counts[b] && examine(a, b, i, jj).Some? ==> P(examine(a, b, i, jj).value)
    ensures forall n :: 0 <= n < |Row(examine, counts, a, b, i, j)| ==> P(Row(examine, counts, a, b, i, j)[n])
    decreases counts[b] - j
  {
    if j < counts[b] {
      RowKeeps(examine, P, counts, a, b, i, j + 1);
    }
  }

  lemma {:induction false} BlockKeeps(examine: Examiner, P: Call -> bool, counts: seq<nat>, a: nat, b: nat, i: nat)
    requires a < |counts| && b < |counts| && i <= counts[a]
    requires forall ii, jj :: i <= ii < counts[a] && 0 <= jj < counts[b] && examine(a, b, ii, jj).Some? ==> P(examine(a, b, ii, jj).value)
    ensures forall n :: 0 <= n < |Block(examine, counts, a, b, i)| ==> P(Block(examine, counts, a, b, i)[n])
    decreases counts[a] - i
  {
    if i < counts[a] {
      RowKeeps(examine, P, counts, a, b, i, 0);
      BlockKeeps(examine, P, counts, a, b, i + 1);
    }
  }

  lemma {:induction false} CallsKeep(examine: Examiner, P: Call -> bool, counts: seq<nat>, p1: seq<nat>, p2: seq<nat>, k: nat)
    requires PairsValid(counts, p1, p2) && k <= |p1|
    requires forall m, ii, jj :: (k <= m < |p1| && 0 <= ii < counts[p1[m]] && 0 <= jj < counts[p2[m]] &&
      examine(p1[m], p2[m], ii, jj).Some?) ==> P(examine(p1[m], p2[m], ii, jj).value)
    ensures forall n :: 0 <= n < |Calls(examine, counts, p1, p2, k)| ==> P(Calls(examine, counts, p1, p2, k)[n])
    decreases |p1| - k
  {
    if k < |p1| {
      BlockKeeps(examine, P, counts, p1[k], p2[k], 0);
      CallsKeep(examine, P, counts, p1, p2, k + 1);
    }
  }

  /** A call `examine` makes for a shape pair of a broadphase pair is one
      of the loop's calls. */
  lemma {:induction false} RowHas(examine: Examiner, counts: seq<nat>, a: nat, b: nat, i: nat, j: nat, j0: nat)
    requires b < |counts| && j0 <= j < counts[b] && examine(a, b, i, j).Some?
    ensures examine(a, b, i, j).value in Row(examine, counts, a, b, i, j0)
    decreases j - j0
  {
    if j0 < j {
      RowHas(examine, counts, a, b, i, j, j0 + 1);
    }
  }

  lemma {:induction false} BlockHas(examine: Examiner, counts: seq<nat>, a: nat, b: nat, i: nat, i0: nat, j: nat)
    requires a < |counts| && b < |counts| && i0 <= i < counts[a] && j < counts[b] && examine(a, b, i, j).Some?
    ensures examine(a, b, i, j).value in Block(examine, counts, a, b, i0)
    decreases i - i0
  {
    if i0 < i {
      BlockHas(examine, counts, a, b, i, i0 + 1, j);
    } else {
      RowHas(examine, counts, a, b, i, j, 0);
    }
  }

  lemma {:induction false} CallsHave(examine: Examiner, counts: seq<nat>, p1: seq<nat>, p2: seq<nat>, k: nat, k0: nat, i: nat, j: nat)
    requires PairsValid(counts, p1, p2) && k0 <= k < |p1|
    requires i < counts[p1[k]] && j < counts[p2[k]] && examine(p1[k], p2[k], i, j).Some?
    ensures examine(p1[k], p2[k], i, j).value in Calls(examine, counts, p1, p2, k0)
    decreases k - k0
  {
    var x := examine(p1[k], p2[k], i, j).value;
    var block := Block(examine, counts, p1[k0], p2[k0], 0);
    var rest := Calls(examine, counts, p1, p2, k0 + 1);
    assert Calls(examine, counts, p1, p2, k0) == block + rest;
    if k0 < k {
      CallsHave(examine, counts, p1, p2, k, k0 + 1, i, j);
      assert x in rest;
    } else {
      BlockHas(examine, counts, p1[k], p2[k], i, 0, j);
      assert x in block;
    }
  }

  /** The number of shapes of every body. */
  function ShapeCounts(bodies: seq<Body.Body>): (r: seq<nat>)
    ensures |r| == |bodies| && forall b :: 0 <= b < |bodies| ==> r[b] == |bodies[b].shapes|
  {
    seq(|bodies|, b requires 0 <= b < |bodies| => |bodies[b].shapes|)
  }

  /** The calls `getContacts` makes over the broadphase pairs `p1`, `p2`:
      every one passes the collision filter, goes to the resolver of its
      two shape types with the lower type first, and names bodies of the
      list. */
  function ContactCalls(w: World, bodies: seq<Body.Body>, p1: seq<nat>, p2: seq<nat>, ops: MathOps): (r: seq<Call>)
    requires PairsValid(ShapeCounts(bodies), p1, p2)
    ensures forall n :: 0 <= n < |r| ==> WellFormed(r[n]) && r[n].bi < |bodies| && r[n].bj < |bodies|
  {
    var examine: Examiner := (a: nat, b: nat, i: nat, j: nat) => Examine(w, bodies, a, b, i, j, ops);
    ExamineAllWellFormed(w, bodies, ops);
    CallsKeep(examine, (c: Call) => WellFormed(c) && c.bi < |bodies| && c.bj < |bodies|, ShapeCounts(bodies), p1, p2, 0);
    Calls((a: nat, b: nat, i: nat, j: nat) => Examine(w, bodies, a, b, i, j, ops), ShapeCounts(bodies), p1, p2, 0)
  }

  /** Every shape pair of a broadphase pair that passes the filter and the
      bounding sphere test and has a resolver is called. */
  lemma ContactCallsComplete(w: World, bodies: seq<Body.Body>, p1: seq<nat>, p2: seq<nat>, ops: MathOps)
    requires PairsValid(ShapeCounts(bodies), p1, p2)
    ensures forall k, i: nat, j: nat :: 0 <= k < |p1| && Admitted(bodies, p1[k], p2[k], i, j, ops) ==>
      Examine(w, bodies, p1[k], p2[k], i, j, ops).value in ContactCalls(w, bodies, p1, p2, ops)
  {
    var examine: Examiner := (a: nat, b: nat, i: nat, j: nat) => Examine(w, bodies, a, b, i, j, ops);
    forall k, i: nat, j: nat | 0 <= k < |p1| && Admitted(bodies, p1[k], p2[k], i, j, ops)
      ensures Examine(w, bodies, p1[k], p2[k], i, j, ops).value in ContactCalls(w, bodies, p1, p2, ops)
    {
      CallsHave(examine, ShapeCounts(bodies), p1, p2, k, 0, i, j);
    }
  }

  // Overlaps.

  /** A call whose resolver reports a contact and that only tests. */
  predicate Records(c: Call, hit: Call -> bool)
  {
    c.justTest && hit(c)
  }

  /** The shape id pairs the calls record, in order. */
  function ShapeOverlaps(calls: seq<Call>, hit: Call -> bool): (r: seq<(int, int)>)
    ensures |r| <= |calls|
    ensures (forall m :: 0 <= m < |calls| ==> !Records(calls[m], hit)) ==> r == []
    ensures forall m :: 0 <= m < |calls| && Records(calls[m], hit) ==> (calls[m].si.id, calls[m].sj.id) in r
  {
    if |calls| == 0 then []
    else
      var rest := ShapeOverlaps(calls[1..], hit);
      assert forall m :: 1 <= m < |calls| ==> calls[m] == calls[1..][m - 1];
      if Records(calls[0], hit) then [(calls[0].si.id, calls[0].sj.id)] + rest else rest
  }

  /** The shape pair of a call that records it. */
  predicate RecordsShapes(c: Call, hit: Call -> bool, p: (int, int))
  {
    Records(c, hit) && p == (c.si.id, c.sj.id)
  }

  /** The call behind entry n of the shape pairs: the head call for the
      head entry, and otherwise the call behind the matching entry of the
      rest, one place later. */
  lemma {:induction false} ShapeOverlapsAt(calls: seq<Call>, hit: Call -> bool, n: nat) returns (m: nat)
    requires n < |ShapeOverlaps(calls, hit)|
    ensures m < |calls| && RecordsShapes(calls[m], hit, ShapeOverlaps(calls, hit)[n])
    decreases |calls|
  {
    var tail := calls[1..];
    var rest := ShapeOverlaps(tail, hit);
    var r := ShapeOverlaps(calls, hit);
    var c := calls[0];
    assert r == if Records(c, hit) then [(c.si.id, c.sj.id)] + rest else rest;
    if Records(c, hit) && n == 0 {
      m := 0;
    } else {
      var k := if Records(c, hit) then n - 1 else n;
      assert r[n] == rest[k];
      var m' := ShapeOverlapsAt(tail, hit, k);
      m := m' + 1;
      assert calls[m] == tail[m'];
    }
  }

  /** The body id pairs the calls record, in order. */
  function BodyOverlaps(calls: seq<Call>, hit: Call -> bool, bodies: seq<Body.Body>): (r: seq<(int, int)>)
    requires forall m :: 0 <= m < |calls| ==> calls[m].bi < |bodies| && calls[m].bj < |bodies|
    ensures |r| == |ShapeOverlaps(calls, hit)|
    ensures forall m :: 0 <= m < |calls| && Records(calls[m], hit) ==> (bodies[calls[m].bi].id, bodies[calls[m].bj].id) in r
  {
    if |calls| == 0 then []
    else
      var c := calls[0];
      var rest := BodyOverlaps(calls[1..], hit, bodies);
      assert forall m :: 1 <= m < |calls| ==> calls[m] == calls[1..][m - 1];
      if Records(c, hit) then [(bodies[c.bi].id, bodies[c.bj].id)] + rest else rest
  }

  /** The body pair of a call, when both its bodies are in the list. */
  predicate RecordsBodies(c: Call, hit: Call -> bool, bodies: seq<Body.Body>, p: (int, int))
  {
    c.bi < |bodies| && c.bj < |bodies| && Records(c, hit) && p == (bodies[c.bi].id, bodies[c.bj].id)
  }

  /** The calls after the first still name bodies of the list. */
  lemma TailBounds(calls: seq<Call>, bodies: seq<Body.Body>)
    requires |calls| > 0
    requires forall m :: 0 <= m < |calls| ==> calls[m].bi < |bodies| && calls[m].bj < |bodies|
    ensures forall m :: 0 <= m < |calls[1..]| ==> calls[1..][m].bi < |bodies| && calls[1..][m].bj < |bodies|
  {
    forall m | 0 <= m < |calls[1..]|
      ensures calls[1..][m].bi < |bodies| && calls[1..][m].bj < |bodies|
    {
      assert calls[1..][m] == calls[m + 1];
    }
  }

  /** The call behind entry n of the body pairs, as for the shape pairs. */
  lemma {:induction false} BodyOverlapsAt(calls: seq<Call>, hit: Call -> bool, bodies: seq<Body.Body>, n: nat)
    returns (m: nat)
    requires forall m :: 0 <= m < |calls| ==> calls[m].bi < |bodies| && calls[m].bj < |bodies|
    requires n < |BodyOverlaps(calls, hit, bodies)|
    ensures m < |calls| && RecordsBodies(calls[m], hit, bodies, BodyOverlaps(calls, hit, bodies)[n])
    decreases |calls|
  {
    TailBounds(calls, bodies);
    var tail := calls[1..];
    var rest := BodyOverlaps(tail, hit, bodies);
    var r := BodyOverlaps(calls, hit, bodies);
    var c := calls[0];
    assert r == if Records(c, hit) then [(bodies[c.bi].id, bodies[c.bj].id)] + rest else rest;
    if Records(c, hit) && n == 0 {
      m := 0;
    } else {
      var k := if Records(c, hit) then n - 1 else n;
      assert r[n] == rest[k];
      var m' := BodyOverlapsAt(tail, hit, bodies, k);
      m := m' + 1;
      assert calls[m] == tail[m'];
    }
  }

  /** Setting the recorded shape pairs adds only keys of calls that
      record a hit. */
  lemma ShapeKeysOnly(k: OverlapKeeper.Keeper, calls: seq<Call>, hit: Call -> bool)
    ensures forall x :: x in OverlapKeeper.SetAll(k, ShapeOverlaps(calls, hit)).current ==>
      (x in k.current ||
       exists m :: 0 <= m < |calls| && Records(calls[m], hit) && x == OverlapKeeper.GetKey(calls[m].si.id, calls[m].sj.id))
  {
    var shapes := ShapeOverlaps(calls, hit);
    OverlapKeeper.SetAllOnly(k, shapes);
    forall x | x in OverlapKeeper.SetAll(k, shapes).current && x !in k.current
      ensures exists m :: 0 <= m < |calls| && Records(calls[m], hit) && x == OverlapKeeper.GetKey(calls[m].si.id, calls[m].sj.id)
    {
      var n :| 0 <= n < |shapes| && x == OverlapKeeper.GetKey(shapes[n].0, shapes[n].1);
      var m := ShapeOverlapsAt(calls, hit, n);
    }
  }

  /** Setting the recorded body pairs adds only keys of calls that record
      a hit. */
  lemma BodyKeysOnly(k: OverlapKeeper.Keeper, calls: seq<Call>, hit: Call -> bool, bodies: seq<Body.Body>)
    requires forall m :: 0 <= m < |calls| ==> calls[m].bi < |bodies| && calls[m].bj < |bodies|
    ensures forall x :: x in OverlapKeeper.SetAll(k, BodyOverlaps(calls, hit, bodies)).current ==>
      (x in k.current ||
       exists m :: 0 <= m < |calls| && Records(calls[m], hit) &&
         x == OverlapKeeper.GetKey(bodies[calls[m].bi].id, bodies[calls[m].bj].id))
  {
    var pairs := BodyOverlaps(calls, hit, bodies);
    OverlapKeeper.SetAllOnly(k, pairs);
    forall x | x in OverlapKeeper.SetAll(k, pairs).current && x !in k.current
      ensures exists m :: 0 <= m < |calls| && Records(calls[m], hit) &&
                          x == OverlapKeeper.GetKey(bodies[calls[m].bi].id, bodies[calls[m].bj].id)
    {
      var n :| 0 <= n < |pairs| && x == OverlapKeeper.GetKey(pairs[n].0, pairs[n].1);
      var m := BodyOverlapsAt(calls, hit, bodies, n);
    }
  }

  /** The state `getContacts` leaves: the calls it made and the two overlap
      keepers. */
  datatype Outcome = Outcome(calls: seq<Call>, shapeKeeper: OverlapKeeper.Keeper, bodyKeeper: OverlapKeeper.Keeper)

  /** `getContacts`: every broadphase pair's shape pairs are examined in
      order, and each test-only call whose resolver reports a contact (as
      `hit` says) sets the overlap of its two shapes and of its two
      bodies. */
  function GetContacts(w: World, bodies: seq<Body.Body>, p1: seq<nat>, p2: seq<nat>, ops: MathOps,
      hit: Call -> bool, shapeKeeper: OverlapKeeper.Keeper, bodyKeeper: OverlapKeeper.Keeper): (r: Outcome)
    requires PairsValid(ShapeCounts(bodies), p1, p2)
    ensures r.calls == ContactCalls(w, bodies, p1, p2, ops)
    ensures forall m :: 0 <= m < |r.calls| && Records(r.calls[m], hit) ==>
      OverlapKeeper.GetKey(r.calls[m].si.id, r.calls[m].sj.id) in r.shapeKeeper.current &&
      OverlapKeeper.GetKey(bodies[r.calls[m].bi].id, bodies[r.calls[m].bj].id) in r.bodyKeeper.current
    ensures forall x :: x in shapeKeeper.current ==> x in r.shapeKeeper.current
    ensures forall x :: x in bodyKeeper.current ==> x in r.bodyKeeper.current
    ensures forall x :: x in r.shapeKeeper.current ==>
      (x in shapeKeeper.current ||
       exists m :: 0 <= m < |r.calls| && Records(r.calls[m], hit) &&
         x == OverlapKeeper.GetKey(r.calls[m].si.id, r.calls[m].sj.id))
    ensures forall x :: x in r.bodyKeeper.current ==>
      (x in bodyKeeper.current ||
       exists m :: 0 <= m < |r.calls| && Records(r.calls[m], hit) &&
         x == OverlapKeeper.GetKey(bodies[r.calls[m].bi].id, bodies[r.calls[m].bj].id))
  {
    var calls := ContactCalls(w, bodies, p1, p2, ops);
    var shapes, pairs := ShapeOverlaps(calls, hit), BodyOverlaps(calls, hit, bodies);
    ShapeKeysOnly(shapeKeeper, calls, hit);
    BodyKeysOnly(bodyKeeper, calls, hit, bodies);
    OverlapKeeper.SetAllHas(shapeKeeper, shapes);
    OverlapKeeper.SetAllHas(bodyKeeper, pairs);
    OverlapKeeper.SetAllKeeps(shapeKeeper, shapes);
    OverlapKeeper.SetAllKeeps(bodyKeeper, pairs);
    Outcome(calls,
      OverlapKeeper.SetAll(shapeKeeper, shapes),
      OverlapKeeper.SetAll(bodyKeeper, pairs))
  }

  /** Without a test-only broadphase pair, `getContacts` records no
      overlap: both keepers are as they were. */
  lemma NoOverlapWithoutJustTest(w: World, bodies: seq<Body.Body>, p1: seq<nat>, p2: seq<nat>, ops: MathOps,
      hit: Call -> bool, shapeKeeper: OverlapKeeper.Keeper, bodyKeeper: OverlapKeeper.Keeper)
    requires PairsValid(ShapeCounts(bodies), p1, p2)
    requires forall m :: 0 <= m < |p1| ==> !JustTest(bodies[p1[m]].bodyType, bodies[p2[m]].bodyType)
    ensures GetContacts(w, bodies, p1, p2, ops, hit, shapeKeeper, bodyKeeper).shapeKeeper == shapeKeeper
    ensures GetContacts(w, bodies, p1, p2, ops, hit, shapeKeeper, bodyKeeper).bodyKeeper == bodyKeeper
  {
    var examine: Examiner := (a: nat, b: nat, i: nat, j: nat) => Examine(w, bodies, a, b, i, j, ops);
    ExamineAllWellFormed(w, bodies, ops);
    CallsKeep(examine, (c: Call) => !c.justTest, ShapeCounts(bodies), p1, p2, 0);
    var calls := ContactCalls(w, bodies, p1, p2, ops);
    assert ShapeOverlaps(calls, hit) == [];
  }

  // pointInPolygon.

  /** The side of edge i the point lies on: `(edge x normal) . (p - v)`
      with the edge from vertex i to the next, wrapping round. */
  function EdgeSide(verts: seq<Vec3>, normal: Vec3, p: Vec3, i: nat): real
    requires i < |verts|
  {
    var v := verts[i];
    var edge := Sub(verts[(i + 1) % |verts|], v);
    Dot(Cross(edge, normal), Sub(p, v))
  }

  /** The reference: every edge puts the point on the same side as the
      first edge does, 0 counting as not positive. */
  predicate SameSide(verts: seq<Vec3>, normal: Vec3, p: Vec3)
  {
    forall i :: 0 <= i < |verts| ==> (EdgeSide(verts, normal, p, i) > 0.0 <==> EdgeSide(verts, normal, p, 0) > 0.0)
  }

  /** `pointInPolygon`: the first edge fixes the sign; the first edge of
      the other sign answers false; an empty polygon contains every point. */
  method PointInPolygon(verts: seq<Vec3>, normal: Vec3, p: Vec3) returns (inside: bool)
    ensures inside <==> SameSide(verts, normal, p)
  {
    var positiveResult: Option<bool> := None;
    var i := 0;
    while i != |verts|
      invariant 0 <= i <= |verts|
      invariant i == 0 <==> positiveResult.None?
      invariant positiveResult.Some? ==> positiveResult.value == (EdgeSide(verts, normal, p, 0) > 0.0)
      invariant forall k :: 0 <= k < i ==> (EdgeSide(verts, normal, p, k) > 0.0 <==> EdgeSide(verts, normal, p, 0) > 0.0)
    {
      var r := EdgeSide(verts, normal, p, i);
      if positiveResult.None? || (r > 0.0 && positiveResult.value) || (r <= 0.0 && !positiveResult.value) {
        if positiveResult.None? {
          positiveResult := Some(r > 0.0);
        }
      } else {
        return false;
      }
      i := i + 1;
    }
    return true;
  }
}
