/** The app-layer entity: a bag of named components that users edit by
    sending partial updates ("component differences"), merged in the way of
    a JSON merge patch one level deep.

    Components hold JSON-like values. An update is an object whose own
    properties are visited in enumeration order, so it is modelled as a
    sequence of (name, value) entries. The source runs as an ES module, that
    is in strict mode, where writing a property of a primitive throws. A
    JavaScript exception does not undo the writes made before it, so an
    update returns the entity as it stands together with the exception, if
    any. The THREE.js mirrors (position, quaternion, Euler angles, matrix) and
    the physics body are not part of this model. */
module EntityModel {
  import opened Wrappers

  /** A JSON-like JavaScript value. Arrays are objects keyed by their
      indices; NaN is not represented. */
  datatype Value =
    | Undefined
    | Null
    | Bool(b: bool)
    | Num(x: real)
    | Str(s: string)
    | Obj(props: map<string, Value>)

  /** JavaScript truthiness. */
  predicate Truthy(v: Value)
  {
    match v
    case Undefined => false
    case Null => false
    case Bool(b) => b
    case Num(x) => x != 0.0
    case Str(s) => s != ""
    case Obj(_) => true
  }

  /** `typeof v === "object"`: true of objects and of `null`. */
  predicate IsObjectType(v: Value)
  {
    v.Null? || v.Obj?
  }

  type Components = map<string, Value>

  /** An object's own properties in enumeration order. */
  type Diff = seq<(string, Value)>

  datatype Entity = Entity(
    components: Components,
    lastTimeComponentsWereSet: real,
    lastTimeComponentsWereSetByUser: map<string, real>)

  /** The entity after a call, and the exception the call threw, if any. */
  datatype Outcome = Outcome(entity: Entity, thrown: Option<JsError>)

  /** Two component maps agree on the entry `n`: both lack it or both hold
      the same value. */
  predicate SameAt(a: Components, b: Components, n: string)
  {
    (n in a <==> n in b) && (n in a ==> a[n] == b[n])
  }

  // ---------------------------------------------------------------------
  // Getters

  /** `components[name]`, `undefined` when absent. */
  function Component(c: Components, name: string): Value
  {
    if name in c then c[name] else Undefined
  }

  /** `v[name]`, for the property names the getters read, which no
      primitive's prototype carries. */
  function Prop(v: Value, name: string): Value
  {
    if v.Obj? && name in v.props then v.props[name] else Undefined
  }

  /** `a && b` */
  function JsAnd(a: Value, b: Value): (r: Value)
    ensures Truthy(r) <==> Truthy(a) && Truthy(b)
  {
    if Truthy(a) then b else a
  }

  /** `a || b` */
  function JsOr(a: Value, b: Value): (r: Value)
    ensures Truthy(r) <==> Truthy(a) || Truthy(b)
  {
    if Truthy(a) then a else b
  }

  /** `(components[comp] && components[comp][prop]) || fallback`: the stored
      setting when it is truthy, the fallback otherwise. */
  function Setting(c: Components, comp: string, prop: string, fallback: Value): (r: Value)
    ensures Truthy(Prop(Component(c, comp), prop)) ==> r == Prop(Component(c, comp), prop)
    ensures !Truthy(Prop(Component(c, comp), prop)) ==> r == fallback
  {
    var owner := Component(c, comp);
    JsOr(JsAnd(owner, Prop(owner, prop)), fallback)
  }

  /** `isPhysicsEnabled`: `croquet.physics` when truthy, else `false`. */
  function IsPhysicsEnabled(c: Components): (r: Value)
    ensures Truthy(r) <==> Truthy(Prop(Component(c, "croquet"), "physics"))
    ensures Truthy(r) ==> r == Prop(Component(c, "croquet"), "physics")
    ensures !Truthy(r) ==> r == Bool(false)
  {
    Setting(c, "croquet", "physics", Bool(false))
  }

  /** `mass`: `croquet.mass` when truthy, else 0. */
  function Mass(c: Components): (r: Value)
    ensures Truthy(Prop(Component(c, "croquet"), "mass")) ==> r == Prop(Component(c, "croquet"), "mass")
    ensures !Truthy(Prop(Component(c, "croquet"), "mass")) ==> r == Num(0.0)
  {
    Setting(c, "croquet", "mass", Num(0.0))
  }

  /** `radius`: `geometry.radius` when truthy, else 1. */
  function Radius(c: Components): (r: Value)
    ensures Truthy(r)
    ensures Truthy(Prop(Component(c, "geometry"), "radius")) ==> r == Prop(Component(c, "geometry"), "radius")
    ensures !Truthy(Prop(Component(c, "geometry"), "radius")) ==> r == Num(1.0)
  {
    Setting(c, "geometry", "radius", Num(1.0))
  }

  /** `height`: `geometry.height` when truthy, else 1. */
  function Height(c: Components): (r: Value)
    ensures Truthy(r)
    ensures Truthy(Prop(Component(c, "geometry"), "height")) ==> r == Prop(Component(c, "geometry"), "height")
    ensures !Truthy(Prop(Component(c, "geometry"), "height")) ==> r == Num(1.0)
  {
    Setting(c, "geometry", "height", Num(1.0))
  }

  /** `primitive`: `geometry.primitive` when truthy, else "box". */
  function Primitive(c: Components): (r: Value)
    ensures Truthy(r)
    ensures Truthy(Prop(Component(c, "geometry"), "primitive")) ==> r == Prop(Component(c, "geometry"), "primitive")
    ensures !Truthy(Prop(Component(c, "geometry"), "primitive")) ==> r == Str("box")
  {
    Setting(c, "geometry", "primitive", Str("box"))
  }

  /** Without `croquet` and `geometry` components every getter gives its
      default; a falsy stored setting gives the default too. */
  lemma GetterDefaults(c: Components)
    requires "croquet" !in c && "geometry" !in c
    ensures IsPhysicsEnabled(c) == Bool(false)
    ensures Mass(c) == Num(0.0)
    ensures Radius(c) == Num(1.0) && Height(c) == Num(1.0)
    ensures Primitive(c) == Str("box")
  {
  }

  /** A zero mass, an empty primitive name or a `false` physics flag read
      the same as a missing one. */
  lemma FalsySettingsRead(c: Components, croquet: map<string, Value>, geometry: map<string, Value>)
    requires "croquet" in c && c["croquet"] == Obj(croquet)
    requires "geometry" in c && c["geometry"] == Obj(geometry)
    requires "mass" in croquet && croquet["mass"] == Num(0.0)
    requires "physics" in croquet && croquet["physics"] == Bool(false)
    requires "primitive" in geometry && geometry["primitive"] == Str("")
    ensures Mass(c) == Mass(c["croquet" := Obj(croquet - {"mass"})])
    ensures IsPhysicsEnabled(c) == Bool(false)
    ensures Primitive(c) == Str("box")
  {
  }

  // ---------------------------------------------------------------------
  // Per-property update of an object component

  /** The properties of an object component after an object diff: a `null`
      property is deleted, any other is assigned, and unlisted properties
      are kept. */
  function Patch(target: map<string, Value>, diff: map<string, Value>): (r: map<string, Value>)
    ensures forall p :: p in diff ==> (p in r <==> diff[p] != Null)
    ensures forall p :: p in diff && p in r ==> r[p] == diff[p]
    ensures forall p :: p !in diff ==> (p in r <==> p in target)
    ensures forall p :: p !in diff && p in target ==> r[p] == target[p]
  {
    map p | p in target.Keys + diff.Keys && (p in diff ==> diff[p] != Null) ::
      if p in diff then diff[p] else target[p]
  }

  /** Two diffs in a row act as one diff in which the second one's entries
      override the first one's. */
  lemma PatchesCompose(t: map<string, Value>, d1: map<string, Value>, d2: map<string, Value>)
    ensures Patch(Patch(t, d1), d2) == Patch(t, d1 + d2)
  {
  }

  /** Applying the same diff twice changes nothing more. */
  lemma PatchIdempotent(t: map<string, Value>, d: map<string, Value>)
    ensures Patch(Patch(t, d), d) == Patch(t, d)
  {
    PatchesCompose(t, d, d);
    assert d + d == d;
  }

  /** The diff that undoes `d` on `t`: each listed property goes back to its
      old value, or is deleted when `t` did not have it. */
  function Inverse(t: map<string, Value>, d: map<string, Value>): (r: map<string, Value>)
    ensures r.Keys == d.Keys
  {
    map p | p in d :: if p in t then t[p] else Null
  }

  /** The inverse diff restores the object, provided the object holds no
      `null` property (a `null` in a diff deletes, so it cannot be put back). */
  lemma UndoPatch(t: map<string, Value>, d: map<string, Value>)
    requires forall p :: p in t ==> t[p] != Null
    ensures Patch(Patch(t, d), Inverse(t, d)) == t
  {
    var u := Patch(Patch(t, d), Inverse(t, d));
    forall p
      ensures p in u <==> p in t
      ensures p in u ==> u[p] == t[p]
    {
      if p in d {
        assert Inverse(t, d)[p] == if p in t then t[p] else Null;
      }
    }
  }

  // ---------------------------------------------------------------------
  // Merging one component

  /** The exception that writing a property of a primitive component
      raises in strict mode (V8's message also names the property). */
  const PrimitiveComponent := TypeError("Cannot create property on a primitive component")

  /** Whether an object diff on the primitive component `target` throws:
      any write does, and so does a delete on `undefined` or `null`. */
  predicate PatchThrows(target: Value, diff: map<string, Value>)
  {
    exists p :: p in diff && (diff[p] != Null || target.Undefined? || target.Null?)
  }

  /** One step of the loop over the diff's entries. An absent component is
      stored wholesale; on an existing one a `null` deletes it, an object
      diff updates it property by property, and anything else replaces it. */
  function MergeOne(c: Components, name: string, v: Value): (r: Result<Components>)
    ensures r.Ok? ==> forall n :: n != name ==> SameAt(r.value, c, n)
    ensures r.Err? <==> name in c && v.Obj? && !c[name].Obj? && PatchThrows(c[name], v.props)
    ensures r.Err? ==> r.error == PrimitiveComponent
    ensures r.Ok? ==> (name in r.value <==> !(name in c && v == Null))
    ensures r.Ok? && name !in c ==> r.value[name] == v
  {
    if name in c then
      if IsObjectType(v) then
        if v.Obj? then
          match c[name]
          case Obj(props) => Ok(c[name := Obj(Patch(props, v.props))])
          case _ => if PatchThrows(c[name], v.props) then Err(PrimitiveComponent) else Ok(c)
        else
          Ok(c - {name})
      else
        Ok(c[name := v])
    else
      Ok(c[name := v])
  }

  /** Deleting a component with a `null` diff and then sending its old value
      puts the component back. */
  lemma RestoreAfterDelete(c: Components, name: string)
    requires name in c
    ensures MergeOne(c, name, Null) == Ok(c - {name})
    ensures MergeOne(c - {name}, name, c[name]) == Ok(c)
  {
    assert (c - {name})[name := c[name]] == c;
  }

  /** An object diff on an object component is undone by the inverse diff. */
  lemma UndoMerge(c: Components, name: string, props: map<string, Value>)
    requires name in c && c[name].Obj?
    requires forall p :: p in c[name].props ==> c[name].props[p] != Null
    ensures MergeOne(c, name, Obj(props)).Ok?
    ensures MergeOne(MergeOne(c, name, Obj(props)).value, name,
                     Obj(Inverse(c[name].props, props))) == Ok(c)
  {
    var t := c[name].props;
    var c1 := c[name := Obj(Patch(t, props))];
    assert MergeOne(c, name, Obj(props)) == Ok(c1);
    UndoPatch(t, props);
    assert c1[name := Obj(Patch(Patch(t, props), Inverse(t, props)))] == c;
  }

  /** Two entries' component maps that agree on `name` give results that
      agree on `name`. */
  lemma MergeOneLocal(c1: Components, c2: Components, name: string, v: Value)
    requires SameAt(c1, c2, name)
    ensures MergeOne(c1, name, v).Ok? == MergeOne(c2, name, v).Ok?
    ensures MergeOne(c1, name, v).Ok? ==>
              SameAt(MergeOne(c1, name, v).value, MergeOne(c2, name, v).value, name)
  {
  }

  // ---------------------------------------------------------------------
  // Merging a whole diff

  /** The names of a diff's entries. */
  function Names(d: Diff): (r: set<string>)
    ensures forall i :: 0 <= i < |d| ==> d[i].0 in r
  {
    if d == [] then {} else {d[0].0} + Names(d[1..])
  }

  /** The entries of a JavaScript object have distinct names. */
  predicate Keyed(d: Diff)
  {
    d == [] || (d[0].0 !in Names(d[1..]) && Keyed(d[1..]))
  }

  /** `d[name]`: the first entry of that name, `None` when there is none. */
  function Find(d: Diff, name: string): (r: Option<Value>)
    ensures r.Some? <==> name in Names(d)
  {
    if d == [] then None
    else if d[0].0 == name then Some(d[0].1)
    else Find(d[1..], name)
  }

  /** The loop over the diff (lines 86-128). It stops at the first entry
      that throws, keeping the entries merged before it. */
  function MergeAll(c: Components, d: Diff): (r: (Components, Option<JsError>))
    ensures forall n :: n !in Names(d) ==> SameAt(r.0, c, n)
    ensures r.1.Some? ==> r.1.value == PrimitiveComponent
    decreases |d|
  {
    if d == [] then (c, None)
    else
      match MergeOne(c, d[0].0, d[0].1)
      case Err(e) => (c, Some(e))
      case Ok(c1) => MergeAll(c1, d[1..])
  }

  /** Entries with distinct names do not interfere: the loop throws exactly
      when some entry, merged on its own into the original components,
      throws, and otherwise each named component is what merging its entry
      on its own gives. */
  lemma {:induction false} MergeAllPerName(c: Components, d: Diff)
    requires Keyed(d)
    ensures MergeAll(c, d).1.None? <==>
              (forall n :: n in Names(d) ==> MergeOne(c, n, Find(d, n).value).Ok?)
    ensures MergeAll(c, d).1.None? ==>
              (forall n :: n in Names(d) ==>
                 SameAt(MergeAll(c, d).0, MergeOne(c, n, Find(d, n).value).value, n))
    decreases |d|
  {
    if d != [] {
      var a, v := d[0].0, d[0].1;
      var rest := d[1..];
      assert Find(d, a) == Some(v);
      match MergeOne(c, a, v)
      case Err(_) =>
        assert a in Names(d) && !MergeOne(c, a, Find(d, a).value).Ok?;
      case Ok(c1) =>
        MergeAllPerName(c1, rest);
        assert Names(d) == {a} + Names(rest);
        assert MergeAll(c, d) == MergeAll(c1, rest);
        forall n | n in Names(rest)
          ensures Find(d, n) == Find(rest, n)
          ensures MergeOne(c1, n, Find(rest, n).value).Ok? == MergeOne(c, n, Find(d, n).value).Ok?
          ensures MergeOne(c1, n, Find(rest, n).value).Ok? ==>
                    SameAt(MergeOne(c1, n, Find(rest, n).value).value,
                           MergeOne(c, n, Find(d, n).value).value, n)
        {
          assert n != a;
          MergeOneLocal(c1, c, n, Find(rest, n).value);
        }
        assert SameAt(MergeAll(c1, rest).0, c1, a);
        if MergeAll(c1, rest).1.None? {
          forall n | n in Names(d)
            ensures MergeOne(c, n, Find(d, n).value).Ok?
          {
            if n != a {
              assert n in Names(rest);
            }
          }
        } else {
          var n :| n in Names(rest) && !MergeOne(c1, n, Find(rest, n).value).Ok?;
          assert n in Names(d);
        }
    }
  }

  // ---------------------------------------------------------------------
  // Physics defaults, timestamps and the whole update

  const Origin := Obj(map["x" := Num(0.0), "y" := Num(0.0), "z" := Num(0.0)])
  const UnitScale := Obj(map["x" := Num(1.0), "y" := Num(1.0), "z" := Num(1.0)])

  /** The component `name` set to `v` unless already present. */
  function Default(c: Components, name: string, v: Value): (r: Components)
    ensures name in r && r[name] == (if name in c then c[name] else v)
    ensures forall n :: n != name ==> SameAt(r, c, n)
  {
    if name in c then c else c[name := v]
  }

  /** When physics is switched on, a missing position and rotation become
      (0, 0, 0) and a missing scale becomes (1, 1, 1). */
  function FillDefaults(c: Components): (r: Components)
    ensures forall n :: n in c ==> n in r && r[n] == c[n]
    ensures "position" in r && "rotation" in r && "scale" in r
    ensures "position" !in c ==> r["position"] == Origin
    ensures "rotation" !in c ==> r["rotation"] == Origin
    ensures "scale" !in c ==> r["scale"] == UnitScale
    ensures forall n :: n in r && n !in c ==> n == "position" || n == "rotation" || n == "scale"
  {
    Default(Default(Default(c, "position", Origin), "rotation", Origin), "scale", UnitScale)
  }

  /** Lines 220-252 once the merge is done: the physics defaults when the
      physics flag changed to a truthy value, then both timestamps. The flag
      is compared by value where the source compares with `!==`. */
  function Settle(e: Entity, was: Value, c: Components, userViewId: string, now: real): (r: Entity)
    ensures r.lastTimeComponentsWereSet == now
    ensures r.lastTimeComponentsWereSetByUser == e.lastTimeComponentsWereSetByUser[userViewId := now]
    ensures IsPhysicsEnabled(r.components) == IsPhysicsEnabled(c)
    ensures forall n :: n != "position" && n != "rotation" && n != "scale" ==> SameAt(r.components, c, n)
    ensures forall n :: n in c ==> n in r.components && r.components[n] == c[n]
    ensures !Truthy(was) && Truthy(IsPhysicsEnabled(c)) ==>
              "position" in r.components && "rotation" in r.components && "scale" in r.components
  {
    var enabled := IsPhysicsEnabled(c);
    var c' := if enabled != was && Truthy(enabled) then FillDefaults(c) else c;
    assert Component(c', "croquet") == Component(c, "croquet");
    Entity(c', now, e.lastTimeComponentsWereSetByUser[userViewId := now])
  }

  /** The exception `key in v` raises when `v` is not an object. */
  function InOperator(key: string): JsError
  {
    TypeError("Cannot use 'in' operator to search for '" + key + "'")
  }

  /** The `in` probes of lines 193 and 204 as written: `"mass" in
      diff.croquet` and `"primitive" in diff.geometry` run whenever the diff
      names that component, and throw when its value is not an object. */
  function Probe(d: Diff): (r: Option<JsError>)
    ensures r.None? <==> (Find(d, "croquet").Some? ==> Find(d, "croquet").value.Obj?) &&
                         (Find(d, "geometry").Some? ==> Find(d, "geometry").value.Obj?)
  {
    if Find(d, "croquet").Some? && !Find(d, "croquet").value.Obj? then Some(InOperator("mass"))
    else if Find(d, "geometry").Some? && !Find(d, "geometry").value.Obj? then Some(InOperator("primitive"))
    else None
  }

  /** `setComponents` as written: the probes of lines 193 and 204 throw on a
      `null` (or other non-object) croquet or geometry diff, after the merge
      has already deleted or replaced the component. */
  function SetComponentsAsWritten(e: Entity, d: Diff, userViewId: string, now: real): (r: Outcome)
    ensures r.thrown.None? <==> MergeAll(e.components, d).1.None? && Probe(d).None?
    ensures r.entity.components == MergeAll(e.components, d).0 || r.thrown.None?
    ensures r.thrown.Some? ==> r.entity.lastTimeComponentsWereSet == e.lastTimeComponentsWereSet
    ensures r.thrown.Some? ==> r.entity.lastTimeComponentsWereSetByUser == e.lastTimeComponentsWereSetByUser
  {
    var was := IsPhysicsEnabled(e.components);
    var (c, thrown) := MergeAll(e.components, d);
    if thrown.Some? then Outcome(e.(components := c), thrown)
    else
      match Probe(d)
      case Some(err) => Outcome(e.(components := c), Some(err))
      case None => Outcome(Settle(e, was, c, userViewId, now), None)
  }

  /** `setComponents` with the probes guarded to object diffs, which leaves
      only the merge able to throw. The rest of the model uses this one. */
  function SetComponents(e: Entity, d: Diff, userViewId: string, now: real): (r: Outcome)
    ensures r.thrown.None? <==> MergeAll(e.components, d).1.None?
    ensures r.thrown.Some? ==> r.entity.components == MergeAll(e.components, d).0
    ensures r.thrown.Some? ==> r.entity.lastTimeComponentsWereSet == e.lastTimeComponentsWereSet
    ensures r.thrown.Some? ==> r.entity.lastTimeComponentsWereSetByUser == e.lastTimeComponentsWereSetByUser
    ensures r.thrown.None? ==> r.entity.lastTimeComponentsWereSet == now
    ensures r.thrown.None? ==>
              r.entity.lastTimeComponentsWereSetByUser == e.lastTimeComponentsWereSetByUser[userViewId := now]
    ensures forall n :: n !in Names(d) && n != "position" && n != "rotation" && n != "scale" ==>
              SameAt(r.entity.components, e.components, n)
    ensures r.thrown.None? ==>
              forall n :: n in MergeAll(e.components, d).0 ==>
                n in r.entity.components && r.entity.components[n] == MergeAll(e.components, d).0[n]
    ensures r.thrown.None? ==>
              forall n :: n in r.entity.components && n !in MergeAll(e.components, d).0 ==>
                n == "position" || n == "rotation" || n == "scale"
    ensures r.thrown.None? && !Truthy(IsPhysicsEnabled(e.components)) &&
            Truthy(IsPhysicsEnabled(r.entity.components)) ==>
              "position" in r.entity.components && "rotation" in r.entity.components &&
              "scale" in r.entity.components
  {
    var was := IsPhysicsEnabled(e.components);
    var (c, thrown) := MergeAll(e.components, d);
    if thrown.Some? then Outcome(e.(components := c), thrown)
    else Outcome(Settle(e, was, c, userViewId, now), None)
  }

  /** The two agree whenever neither probe fires. */
  lemma AsWrittenAgrees(e: Entity, d: Diff, userViewId: string, now: real)
    requires Probe(d).None?
    ensures SetComponentsAsWritten(e, d, userViewId, now) == SetComponents(e, d, userViewId, now)
  {
  }

  /** `init`: an entity with no components receives its initial components
      as a diff from its creator. */
  function Init(components: Diff, creatorUserViewId: string, now: real): (r: Outcome)
    ensures Keyed(components) ==> r.thrown.None?
    ensures Keyed(components) ==>
              forall n :: n in Names(components) ==>
                n in r.entity.components && r.entity.components[n] == Find(components, n).value
    ensures r.thrown.None? ==> r.entity.lastTimeComponentsWereSetByUser == map[creatorUserViewId := now]
  {
    var e := Entity(map[], now, map[]);
    var r := SetComponents(e, components, creatorUserViewId, now);
    if Keyed(components) then
      MergeAllPerName(map[], components);
      r
    else r
  }

  /** `onViewExit`: forgets when the departing user last set components. */
  function ViewExit(e: Entity, userViewId: string): (r: Entity)
    ensures userViewId !in r.lastTimeComponentsWereSetByUser
    ensures forall u :: u != userViewId ==>
              (u in r.lastTimeComponentsWereSetByUser <==> u in e.lastTimeComponentsWereSetByUser) &&
              (u in r.lastTimeComponentsWereSetByUser ==>
                 r.lastTimeComponentsWereSetByUser[u] == e.lastTimeComponentsWereSetByUser[u])
    ensures r.components == e.components
  {
    e.(lastTimeComponentsWereSetByUser := e.lastTimeComponentsWereSetByUser - {userViewId})
  }

  /** A user who had never set components and leaves after one update
      leaves the per-user timestamps as they were. */
  lemma ViewExitUndoesSet(e: Entity, d: Diff, userViewId: string, now: real)
    requires userViewId !in e.lastTimeComponentsWereSetByUser
    requires SetComponents(e, d, userViewId, now).thrown.None?
    ensures ViewExit(SetComponents(e, d, userViewId, now).entity, userViewId).lastTimeComponentsWereSetByUser
              == e.lastTimeComponentsWereSetByUser
  {
    var m := e.lastTimeComponentsWereSetByUser;
    assert m[userViewId := now] - {userViewId} == m;
  }

  // ---------------------------------------------------------------------
  // Getters after an update

  /** Setting a nonzero mass on an object (or absent) croquet component
      makes the getter read it back. */
  lemma MassAfterSet(e: Entity, m: real, userViewId: string, now: real)
    requires "croquet" !in e.components || e.components["croquet"].Obj?
    requires m != 0.0
    ensures SetComponents(e, [("croquet", Obj(map["mass" := Num(m)]))], userViewId, now).thrown.None?
    ensures Mass(SetComponents(e, [("croquet", Obj(map["mass" := Num(m)]))], userViewId, now).entity.components)
              == Num(m)
  {
    var d := [("croquet", Obj(map["mass" := Num(m)]))];
    var r := SetComponents(e, d, userViewId, now);
    MergeAllPerName(e.components, d);
    assert Find(d, "croquet") == Some(d[0].1);
    assert Prop(Component(r.entity.components, "croquet"), "mass") == Num(m);
  }

  /** A `null` mass deletes the setting and the getter falls back to 0. */
  lemma MassCleared(e: Entity, userViewId: string, now: real)
    requires "croquet" in e.components && e.components["croquet"].Obj?
    ensures SetComponents(e, [("croquet", Obj(map["mass" := Null]))], userViewId, now).thrown.None?
    ensures Mass(SetComponents(e, [("croquet", Obj(map["mass" := Null]))], userViewId, now).entity.components)
              == Num(0.0)
  {
    var d := [("croquet", Obj(map["mass" := Null]))];
    var r := SetComponents(e, d, userViewId, now);
    MergeAllPerName(e.components, d);
    assert Find(d, "croquet") == Some(d[0].1);
    assert Prop(Component(r.entity.components, "croquet"), "mass") == Undefined;
  }

  /** Switching physics on with a diff that names only `croquet` fills in
      position, rotation and scale, keeping any that existed. */
  lemma EnablingFillsDefaults(e: Entity, userViewId: string, now: real)
    requires "croquet" !in e.components
    ensures var r := SetComponents(e, [("croquet", Obj(map["physics" := Bool(true)]))], userViewId, now);
            r.thrown.None? &&
            IsPhysicsEnabled(r.entity.components) == Bool(true) &&
            Component(r.entity.components, "position") ==
              (if "position" in e.components then e.components["position"] else Origin) &&
            Component(r.entity.components, "rotation") ==
              (if "rotation" in e.components then e.components["rotation"] else Origin) &&
            Component(r.entity.components, "scale") ==
              (if "scale" in e.components then e.components["scale"] else UnitScale)
  {
    var d := [("croquet", Obj(map["physics" := Bool(true)]))];
    assert d[1..] == [];
    var m := MergeAll(e.components, d);
    assert m.0 == e.components["croquet" := d[0].1];
    assert IsPhysicsEnabled(m.0) == Bool(true);
  }

  // ---------------------------------------------------------------------
  // The probe finding

  /** As written, deleting the croquet component throws at the mass probe
      after the merge has deleted it, so the timestamps stay behind and the
      switch from enabled to disabled physics (lines 243-246) never runs. */
  lemma DeletingCroquetThrows(e: Entity, userViewId: string, now: real)
    requires "croquet" in e.components
    ensures var r := SetComponentsAsWritten(e, [("croquet", Null)], userViewId, now);
            r.thrown == Some(InOperator("mass")) &&
            "croquet" !in r.entity.components &&
            r.entity.lastTimeComponentsWereSet == e.lastTimeComponentsWereSet
  {
    var d := [("croquet", Null)];
    assert d[1..] == [];
    assert Find(d, "croquet") == Some(Null);
    assert Find(d, "geometry") == None;
  }

  /** With the probe guarded, deleting the croquet component completes: the
      physics flag reads false and both timestamps are set. */
  lemma DeletingCroquetDisablesPhysics(e: Entity, userViewId: string, now: real)
    requires "croquet" in e.components
    ensures var r := SetComponents(e, [("croquet", Null)], userViewId, now);
            r.thrown.None? &&
            "croquet" !in r.entity.components &&
            IsPhysicsEnabled(r.entity.components) == Bool(false) &&
            r.entity.lastTimeComponentsWereSet == now &&
            r.entity.lastTimeComponentsWereSetByUser[userViewId] == now
  {
    var d := [("croquet", Null)];
    assert d[1..] == [];
    assert MergeAll(e.components, d).0 == e.components - {"croquet"};
  }
}
