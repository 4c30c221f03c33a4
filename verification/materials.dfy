/** Materials and contact materials: plain records of friction and
    restitution, identified by their `_id`. */
module Materials {
  import opened Wrappers

  /** A material; -1 marks an unset coefficient. */
  datatype Material = Material(id: int, friction: real, restitution: real)

  /** `new Material(options)`: a coefficient left out of the options is -1. */
  function NewMaterial(id: int, friction: Option<real>, restitution: Option<real>): (m: Material)
    ensures m.id == id
    ensures friction.Some? ==> m.friction == friction.value
    ensures restitution.Some? ==> m.restitution == restitution.value
    ensures friction.None? ==> m.friction < 0.0
    ensures restitution.None? ==> m.restitution < 0.0
  {
    Material(id, if friction.Some? then friction.value else -1.0,
                 if restitution.Some? then restitution.value else -1.0)
  }

  /** What happens when the materials `m1` and `m2` (by `_id`) meet. */
  datatype ContactMaterial = ContactMaterial(
    id: int,
    m1: int,
    m2: int,
    friction: real,
    restitution: real,
    contactEquationStiffness: real,
    contactEquationRelaxation: real,
    frictionEquationStiffness: real,
    frictionEquationRelaxation: real)

  /** The contact-material options; `None` is a key the options object lacks. */
  datatype ContactMaterialOptions = ContactMaterialOptions(
    friction: Option<real>,
    restitution: Option<real>,
    contactEquationStiffness: Option<real>,
    contactEquationRelaxation: Option<real>,
    frictionEquationStiffness: Option<real>,
    frictionEquationRelaxation: Option<real>)

  function Or(o: Option<real>, default: real): real
  {
    if o.Some? then o.value else default
  }

  /** `new ContactMaterial({m1, m2, contactMaterialOptions})`: each missing
      option takes its default (friction and restitution 0.3, stiffnesses
      1e7, relaxations 3). */
  function NewContactMaterial(id: int, m1: int, m2: int, o: ContactMaterialOptions): (c: ContactMaterial)
    ensures c.id == id && c.m1 == m1 && c.m2 == m2
    ensures o.friction.None? ==> c.friction == 0.3
    ensures o.restitution.None? ==> c.restitution == 0.3
    ensures o.contactEquationStiffness.None? ==> c.contactEquationStiffness == 10_000_000.0
    ensures o.contactEquationRelaxation.None? ==> c.contactEquationRelaxation == 3.0
    ensures o.frictionEquationStiffness.None? ==> c.frictionEquationStiffness == 10_000_000.0
    ensures o.frictionEquationRelaxation.None? ==> c.frictionEquationRelaxation == 3.0
    ensures o.friction.Some? ==> c.friction == o.friction.value
    ensures o.restitution.Some? ==> c.restitution == o.restitution.value
  {
    ContactMaterial(id, m1, m2,
      Or(o.friction, 0.3),
      Or(o.restitution, 0.3),
      Or(o.contactEquationStiffness, 10_000_000.0),
      Or(o.contactEquationRelaxation, 3.0),
      Or(o.frictionEquationStiffness, 10_000_000.0),
      Or(o.frictionEquationRelaxation, 3.0))
  }
}
