/** The smoothed-particle hydrodynamics system: a list of particles, each
    pushed every update by a pressure force and a viscous force from the
    particles within the smoothing radius of it.

    Particles are bodies, of which the system reads the id, position,
    velocity and mass and writes the force; a particle here carries those
    five. Particles are values, named by their id as the world names its
    bodies. The smoothing kernels, the square root and JavaScript division
    are parameters (`Kernels`); `SourceKernels` builds the kernels the
    system's own `w`, `gradw` and `nablaw` compute. */
module SphSystem {
  import opened Vectors
  import opened Wrappers

  datatype Particle = Particle(id: int, position: Vec3, velocity: Vec3, mass: real, force: Vec3)

  datatype System = System(
    particles: seq<Particle>,
    density: real,
    smoothingRadius: real,
    speedOfSound: real,
    viscosity: real,
    eps: real,
    pressures: seq<real>,
    densities: seq<real>,
    neighbors: seq<seq<Particle>>)

  /** The weight function, its gradient, the Laplacian-like `nablaw`, the
      length of a vector and JavaScript division (which gives an infinity
      or NaN for a zero divisor, values a real cannot hold). */
  datatype Kernels = Kernels(
    w: real -> real,
    gradw: Vec3 -> Vec3,
    nablaw: real -> real,
    length: Vec3 -> real,
    quot: (real, real) -> real)

  /** `init`: no particles, rest density 1, smoothing radius 1, speed of
      sound 1, viscosity 0.01, eps 0.000001. */
  function Init(): (s: System)
    ensures Balanced(s) && s.particles == [] && s.pressures == [] && s.densities == []
    ensures s.density == 1.0 && s.smoothingRadius == 1.0 && s.speedOfSound == 1.0
    ensures s.viscosity == 0.01 && s.eps == 0.000001
  {
    System([], 1.0, 1.0, 1.0, 0.01, 0.000001, [], [], [])
  }

  /** One neighbor list per particle, which `add` and `remove` keep. */
  predicate Balanced(s: System)
  {
    |s.neighbors| == |s.particles|
  }

  // Adding and removing particles.

  /** `add`: the particle appended, and an empty neighbor list too when
      there are fewer lists than particles. */
  function Add(s: System, p: Particle): (r: System)
    ensures r.particles == s.particles + [p]
    ensures |s.neighbors| <= |s.particles| ==> r.neighbors == s.neighbors + [[]]
    ensures |s.neighbors| > |s.particles| ==> r.neighbors == s.neighbors
    ensures r.(particles := s.particles, neighbors := s.neighbors) == s
    ensures Balanced(s) ==> Balanced(r)
  {
    var ps := s.particles + [p];
    if |s.neighbors| < |ps| then s.(particles := ps, neighbors := s.neighbors + [[]])
    else s.(particles := ps)
  }

  /** The position of the first particle with the id, if any
      (`indexOf`). */
  function IndexOf(ps: seq<Particle>, id: int): (r: Option<nat>)
    ensures r.Some? ==> r.value < |ps| && ps[r.value].id == id && forall k :: 0 <= k < r.value ==> ps[k].id != id
    ensures r.None? <==> forall k :: 0 <= k < |ps| ==> ps[k].id != id
  {
    if |ps| == 0 then None
    else if ps[0].id == id then Some(0)
    else
      var r := IndexOf(ps[1..], id);
      assert forall k :: 1 <= k < |ps| ==> ps[k] == ps[1..][k - 1];
      if r.Some? then Some(r.value + 1) else None
  }

  /** `remove`: the first particle with the id taken out, and the last
      neighbor list dropped when there are then more lists than
      particles; a particle not in the system changes nothing. */
  function Remove(s: System, p: Particle): (r: System)
    ensures IndexOf(s.particles, p.id).None? ==> r == s
    ensures IndexOf(s.particles, p.id).Some? ==>
      var k := IndexOf(s.particles, p.id).value;
      r.particles == s.particles[..k] + s.particles[k + 1..] &&
      (|s.neighbors| > |s.particles| - 1 ==> r.neighbors == s.neighbors[..|s.neighbors| - 1]) &&
      (|s.neighbors| <= |s.particles| - 1 ==> r.neighbors == s.neighbors)
    ensures r.(particles := s.particles, neighbors := s.neighbors) == s
    ensures Balanced(s) ==> Balanced(r)
  {
    match IndexOf(s.particles, p.id)
    case None => s
    case Some(k) =>
      var ps := s.particles[..k] + s.particles[k + 1..];
      if |s.neighbors| > |ps| then s.(particles := ps, neighbors := s.neighbors[..|s.neighbors| - 1])
      else s.(particles := ps)
  }

  /** Removing a particle just added to a balanced system that did not
      hold its id gives the system back. */
  lemma RemoveUndoesAdd(s: System, p: Particle)
    requires Balanced(s)
    requires forall k :: 0 <= k < |s.particles| ==> s.particles[k].id != p.id
    ensures Remove(Add(s, p), p) == s
  {
    var a := Add(s, p);
    assert a.particles[|s.particles|] == p;
    assert forall k :: 0 <= k < |s.particles| ==> a.particles[k] == s.particles[k];
    assert IndexOf(a.particles, p.id) == Some(|s.particles|);
    assert a.particles[..|s.particles|] == s.particles;
    assert a.neighbors[..|a.neighbors| - 1] == s.neighbors;
  }

  /** Removing takes out exactly one particle with the id when there is
      one, and keeps the order of the others. */
  lemma RemoveTakesOne(s: System, p: Particle)
    requires exists k :: 0 <= k < |s.particles| && s.particles[k].id == p.id
    ensures |Remove(s, p).particles| == |s.particles| - 1
    ensures multiset(Remove(s, p).particles) + multiset{s.particles[IndexOf(s.particles, p.id).value]} ==
      multiset(s.particles)
  {
    var k := IndexOf(s.particles, p.id).value;
    assert s.particles == s.particles[..k] + [s.particles[k]] + s.particles[k + 1..];
  }

  // Neighbors.

  /** The smoothing radius squared, the bound on a neighbor's squared
      distance. */
  function R2(s: System): real
  {
    s.smoothingRadius * s.smoothingRadius
  }

  /** Particle q is within radius squared r2 of particle x and is not x
      itself: the test `getNeighbors` applies. */
  predicate Near(q: Particle, x: Particle, r2: real)
  {
    q.id != x.id && NormSq(Sub(q.position, x.position)) < r2
  }

  /** The positions, in order, of the particles among the first n that
      are near x. */
  function NearIndices(ps: seq<Particle>, x: Particle, r2: real, n: nat): (r: seq<nat>)
    requires n <= |ps|
    ensures |r| <= n
    ensures forall j :: 0 <= j < |r| ==> r[j] < n && Near(ps[r[j]], x, r2)
    decreases n
  {
    if n == 0 then []
    else NearIndices(ps, x, r2, n - 1) + (if Near(ps[n - 1], x, r2) then [n - 1] else [])
  }

  /** The near positions are exactly the near particles, in increasing
      order. */
  lemma {:induction false} NearIndicesExact(ps: seq<Particle>, x: Particle, r2: real, n: nat)
    requires n <= |ps|
    ensures forall q :: 0 <= q < n ==> (q in NearIndices(ps, x, r2, n) <==> Near(ps[q], x, r2))
    ensures forall a, b :: 0 <= a < b < |NearIndices(ps, x, r2, n)| ==>
      NearIndices(ps, x, r2, n)[a] < NearIndices(ps, x, r2, n)[b]
    decreases n
  {
    if n > 0 {
      NearIndicesExact(ps, x, r2, n - 1);
    }
  }

  /** A particle with x's id is never among them, so at most n - 1 of the
      first n are near x when one of them carries its id. */
  lemma {:induction false} NearIndicesSkip(ps: seq<Particle>, x: Particle, r2: real, n: nat, i: nat)
    requires n <= |ps| && i < n && ps[i].id == x.id
    ensures |NearIndices(ps, x, r2, n)| <= n - 1
    decreases n
  {
    if i < n - 1 {
      NearIndicesSkip(ps, x, r2, n - 1, i);
    } else {
      assert !Near(ps[n - 1], x, r2);
    }
  }

  /** The particles at the given positions. */
  function Pick(ps: seq<Particle>, idx: seq<nat>): (r: seq<Particle>)
    requires forall j :: 0 <= j < |idx| ==> idx[j] < |ps|
    ensures |r| == |idx| && forall j :: 0 <= j < |idx| ==> r[j] == ps[idx[j]]
  {
    seq(|idx|, j requires 0 <= j < |idx| => ps[idx[j]])
  }

  /** `getNeighbors`: the list given, then the system's particles near the
      particle, in order. */
  method GetNeighbors(s: System, particle: Particle, neighbors: seq<Particle>) returns (r: seq<Particle>)
    ensures r == neighbors + Pick(s.particles, NearIndices(s.particles, particle, R2(s), |s.particles|))
    ensures forall q :: q in r[|neighbors|..] <==> q in s.particles && Near(q, particle, R2(s))
  {
    var n := |s.particles|;
    var r2 := R2(s);
    r := neighbors;
    var i := 0;
    while i != n
      invariant 0 <= i <= n
      invariant r == neighbors + Pick(s.particles, NearIndices(s.particles, particle, r2, i))
    {
      var p := s.particles[i];
      var dist := Sub(p.position, particle.position);
      if particle.id != p.id && NormSq(dist) < r2 {
        r := r + [p];
      }
      i := i + 1;
    }
    assert r[|neighbors|..] == Pick(s.particles, NearIndices(s.particles, particle, r2, n));
    PickNear(s.particles, particle, r2);
  }

  /** The particles at the near positions are exactly the near
      particles. */
  lemma PickNear(ps: seq<Particle>, x: Particle, r2: real)
    ensures forall q :: q in Pick(ps, NearIndices(ps, x, r2, |ps|)) <==> q in ps && Near(q, x, r2)
  {
    var near := NearIndices(ps, x, r2, |ps|);
    NearIndicesExact(ps, x, r2, |ps|);
    forall q | q in ps && Near(q, x, r2) ensures q in Pick(ps, near) {
      var k :| 0 <= k < |ps| && ps[k] == q;
      var j :| 0 <= j < |near| && near[j] == k;
      assert Pick(ps, near)[j] == q;
    }
  }

  /** With no particle near x, no position is near. */
  lemma {:induction false} NoneNear(ps: seq<Particle>, x: Particle, r2: real, n: nat)
    requires n <= |ps| && forall q :: 0 <= q < n ==> !Near(ps[q], x, r2)
    ensures NearIndices(ps, x, r2, n) == []
    decreases n
  {
    if n > 0 {
      NoneNear(ps, x, r2, n - 1);
    }
  }

  /** The positions of the particles that make up particle i's
      neighborhood in an update: those near it, then i itself. */
  function Neighborhood(s: System, i: nat): (r: seq<nat>)
    requires i < |s.particles|
    ensures 0 < |r| <= |s.particles| && r[|r| - 1] == i
    ensures forall j :: 0 <= j < |r| ==> r[j] < |s.particles|
    ensures r[..|r| - 1] == NearIndices(s.particles, s.particles[i], R2(s), |s.particles|)
  {
    var ps := s.particles;
    NearIndicesSkip(ps, ps[i], R2(s), |ps|, i);
    NearIndices(ps, ps[i], R2(s), |ps|) + [i]
  }

  /** The weight particle q adds to particle i's density. */
  function Weight(s: System, ks: Kernels, i: nat, q: nat): real
    requires i < |s.particles| && q < |s.particles|
  {
    s.particles[q].mass * ks.w(ks.length(Sub(s.particles[i].position, s.particles[q].position)))
  }

  /** The sum of the weights of the first j members of a neighborhood, in
      order. */
  function DensitySum(s: System, ks: Kernels, i: nat, nb: seq<nat>, j: nat): real
    requires i < |s.particles| && j <= |nb| && forall k :: 0 <= k < |nb| ==> nb[k] < |s.particles|
  {
    if j == 0 then 0.0 else DensitySum(s, ks, i, nb, j - 1) + Weight(s, ks, i, nb[j - 1])
  }

  /** Particle i's density: the weights of its whole neighborhood. */
  function Density(s: System, ks: Kernels, i: nat): real
    requires i < |s.particles|
  {
    var nb := Neighborhood(s, i);
    DensitySum(s, ks, i, nb, |nb|)
  }

  /** The equation of state: pressure grows with the density's excess
      over the rest density, by the speed of sound squared. */
  function Pressure(s: System, density: real): real
  {
    s.speedOfSound * s.speedOfSound * (density - s.density)
  }

  /** A particle with nothing near it is its own whole neighborhood. */
  lemma IsolatedNeighborhood(s: System, i: nat)
    requires i < |s.particles|
    requires forall q :: 0 <= q < |s.particles| ==> !Near(s.particles[q], s.particles[i], R2(s))
    ensures Neighborhood(s, i) == [i]
  {
    NoneNear(s.particles, s.particles[i], R2(s), |s.particles|);
    var nb := Neighborhood(s, i);
    assert nb == nb[..|nb| - 1] + [nb[|nb| - 1]];
  }

  /** A particle with nothing near it has the density its own weight at
      distance 0 gives. */
  lemma IsolatedDensity(s: System, ks: Kernels, i: nat)
    requires i < |s.particles|
    requires forall q :: 0 <= q < |s.particles| ==> !Near(s.particles[q], s.particles[i], R2(s))
    ensures Density(s, ks, i) == s.particles[i].mass * ks.w(ks.length(Zero))
  {
    IsolatedNeighborhood(s, i);
    assert Sub(s.particles[i].position, s.particles[i].position) == Zero;
    assert Density(s, ks, i) == DensitySum(s, ks, i, [i], 1) == Weight(s, ks, i, i);
  }

  /** A new list's first entries written over an old one's: JavaScript
      array stores at positions 0, 1, ... in turn. */
  function Overwrite(prev: seq<real>, stored: seq<real>): (r: seq<real>)
    ensures |r| == if |prev| > |stored| then |prev| else |stored|
    ensures r[..|stored|] == stored && forall k :: |stored| <= k < |r| ==> r[k] == prev[k]
  {
    if |prev| > |stored| then stored + prev[|stored|..] else stored
  }

  /** The system after the density pass: each neighbor list rebuilt, each
      density and pressure stored. */
  function DensityPass(s: System, ks: Kernels): (r: System)
    requires |s.neighbors| >= |s.particles|
    ensures r.particles == s.particles && |r.neighbors| == |s.neighbors|
    ensures |r.densities| >= |s.particles| && |r.pressures| >= |s.particles|
    ensures forall i :: 0 <= i < |s.particles| ==>
      r.neighbors[i] == Pick(s.particles, Neighborhood(s, i)) &&
      r.densities[i] == Density(s, ks, i) && r.pressures[i] == Pressure(s, Density(s, ks, i))
    ensures forall i :: |s.particles| <= i < |s.neighbors| ==> r.neighbors[i] == s.neighbors[i]
  {
    var n := |s.particles|;
    var ds := seq(n, i requires 0 <= i < n => Density(s, ks, i));
    var prs := seq(n, i requires 0 <= i < n => Pressure(s, ds[i]));
    var nbs := seq(|s.neighbors|, i requires 0 <= i < |s.neighbors| =>
      if i < n then Pick(s.particles, Neighborhood(s, i)) else s.neighbors[i]);
    var r := s.(densities := Overwrite(s.densities, ds), pressures := Overwrite(s.pressures, prs), neighbors := nbs);
    assert forall i :: 0 <= i < n ==> r.densities[i] == r.densities[..n][i];
    assert forall i :: 0 <= i < n ==> r.pressures[i] == r.pressures[..n][i];
    r
  }

  // The force pass.

  /** The pressure and viscous accelerations neighbor q adds to particle
      i, reading the densities and pressures at slot k (which should be
      q's own). */
  function PressureTerm(s: System, ks: Kernels, i: nat, q: nat, k: nat): Vec3
    requires i < |s.particles| && q < |s.particles| && i < |s.pressures| && k < |s.pressures|
    requires i < |s.densities| && k < |s.densities|
  {
    var di, dk := s.densities[i], s.densities[k];
    var pij := -s.particles[q].mass *
      (ks.quot(s.pressures[i], di * di + s.eps) + ks.quot(s.pressures[k], dk * dk + s.eps));
    Scale(pij, ks.gradw(Sub(s.particles[i].position, s.particles[q].position)))
  }

  function ViscousTerm(s: System, ks: Kernels, i: nat, q: nat, k: nat): Vec3
    requires i < |s.particles| && q < |s.particles| && i < |s.densities| && k < |s.densities|
  {
    var p, n := s.particles[i], s.particles[q];
    var u := Scale(ks.quot(1.0, 0.0001 + s.densities[i] * s.densities[k]) * s.viscosity * n.mass,
                   Sub(n.velocity, p.velocity));
    Scale(ks.nablaw(ks.length(Sub(p.position, n.position))), u)
  }

  /** Where the slots may point: at a stored density and pressure. */
  predicate Slots(s: System, nb: seq<nat>, slots: seq<nat>)
  {
    |slots| == |nb| &&
    (forall j :: 0 <= j < |nb| ==> nb[j] < |s.particles|) &&
    (forall j :: 0 <= j < |slots| ==> slots[j] < |s.pressures| && slots[j] < |s.densities|)
  }

  /** The sums of the first j pressure and viscous terms, in order. */
  function PressureSum(s: System, ks: Kernels, i: nat, nb: seq<nat>, slots: seq<nat>, j: nat): Vec3
    requires i < |s.particles| && i < |s.pressures| && i < |s.densities| && Slots(s, nb, slots) && j <= |nb|
  {
    if j == 0 then Zero
    else Vectors.Add(PressureSum(s, ks, i, nb, slots, j - 1), PressureTerm(s, ks, i, nb[j - 1], slots[j - 1]))
  }

  function ViscousSum(s: System, ks: Kernels, i: nat, nb: seq<nat>, slots: seq<nat>, j: nat): Vec3
    requires i < |s.particles| && i < |s.densities| && Slots(s, nb, slots) && j <= |nb|
  {
    if j == 0 then Zero
    else Vectors.Add(ViscousSum(s, ks, i, nb, slots, j - 1), ViscousTerm(s, ks, i, nb[j - 1], slots[j - 1]))
  }

  /** Particle i after the force pass: the viscous and then the pressure
      acceleration, each times its mass, added to its force. */
  function Pushed(s: System, ks: Kernels, i: nat, nb: seq<nat>, slots: seq<nat>): (p: Particle)
    requires i < |s.particles| && i < |s.pressures| && i < |s.densities| && Slots(s, nb, slots)
    ensures p.(force := s.particles[i].force) == s.particles[i]
  {
    var p := s.particles[i];
    var av := Scale(p.mass, ViscousSum(s, ks, i, nb, slots, |nb|));
    var ap := Scale(p.mass, PressureSum(s, ks, i, nb, slots, |nb|));
    p.(force := Vectors.Add(Vectors.Add(p.force, av), ap))
  }

  /** The slots the source reads: a neighbor's place in the neighbor
      list rather than in the particle list. */
  function ListSlots(n: nat): (r: seq<nat>)
    ensures |r| == n && forall j :: 0 <= j < n ==> r[j] == j
  {
    seq(n, j => j)
  }

  const NoNeighborList := TypeError("Cannot set properties of undefined (setting 'length')")

  /** `update` as written: the density pass, then the force pass reading
      the j-th neighbor's pressure and density at slot j. */
  function UpdateAsWritten(s: System, ks: Kernels): (r: Result<System>)
    ensures r.Ok? <==> |s.neighbors| >= |s.particles|
    ensures r.Err? ==> r.error == NoNeighborList
    ensures r.Ok? ==>
      var d := DensityPass(s, ks);
      r.value.(particles := s.particles) == d &&
      |r.value.particles| == |s.particles| &&
      forall i :: 0 <= i < |s.particles| ==>
        r.value.particles[i] == Pushed(d, ks, i, Neighborhood(s, i), ListSlots(|Neighborhood(s, i)|))
  {
    if |s.neighbors| < |s.particles| then Err(NoNeighborList)
    else
      var d := DensityPass(s, ks);
      Ok(d.(particles := seq(|s.particles|, i requires 0 <= i < |s.particles| =>
        Pushed(d, ks, i, Neighborhood(s, i), ListSlots(|Neighborhood(s, i)|)))))
  }

  /** `update` as intended: the force pass reading each neighbor's own
      pressure and density. */
  function Update(s: System, ks: Kernels): (r: Result<System>)
    ensures r.Ok? <==> |s.neighbors| >= |s.particles|
    ensures r.Err? ==> r.error == NoNeighborList
    ensures r.Ok? ==>
      var d := DensityPass(s, ks);
      r.value.(particles := s.particles) == d &&
      |r.value.particles| == |s.particles| &&
      forall i :: 0 <= i < |s.particles| ==>
        r.value.particles[i] == Pushed(d, ks, i, Neighborhood(s, i), Neighborhood(s, i))
  {
    if |s.neighbors| < |s.particles| then Err(NoNeighborList)
    else
      var d := DensityPass(s, ks);
      Ok(d.(particles := seq(|s.particles|, i requires 0 <= i < |s.particles| =>
        Pushed(d, ks, i, Neighborhood(s, i), Neighborhood(s, i)))))
  }

  /** Particle i's neighbor list holds, before i itself, exactly the
      particles near it. */
  lemma NeighborhoodExact(s: System, i: nat)
    requires i < |s.particles|
    ensures var l := Pick(s.particles, Neighborhood(s, i));
      l[|l| - 1] == s.particles[i] &&
      forall q :: q in l[..|l| - 1] <==> q in s.particles && Near(q, s.particles[i], R2(s))
  {
    var ps := s.particles;
    var r2 := R2(s);
    var near := NearIndices(ps, ps[i], r2, |ps|);
    var nb := Neighborhood(s, i);
    var l := Pick(ps, nb);
    assert nb[..|nb| - 1] == near;
    assert forall j :: 0 <= j < |near| ==> l[j] == ps[near[j]];
    assert l[..|l| - 1] == Pick(ps, near);
    PickNear(ps, ps[i], r2);
  }

  /** What an update does to particle i: the facts `UpdateNeighborhoods`
      collects for every particle. */
  ghost predicate UpdatedAt(s: System, ks: Kernels, u: System, i: nat)
    requires i < |s.particles| && i < |u.particles| && i < |u.densities| && i < |u.pressures| && i < |u.neighbors|
  {
    u.particles[i].(force := s.particles[i].force) == s.particles[i] &&
    u.densities[i] == Density(s, ks, i) && u.pressures[i] == Pressure(s, u.densities[i]) &&
    |u.neighbors[i]| > 0 && u.neighbors[i][|u.neighbors[i]| - 1] == s.particles[i] &&
    forall q :: q in u.neighbors[i][..|u.neighbors[i]| - 1] <==> q in s.particles && Near(q, s.particles[i], R2(s))
  }

  /** An update rebuilds every neighbor list as the particles near that
      particle, then the particle itself, and stores every density and
      pressure; it moves no particle and changes nothing but forces. */
  lemma UpdateNeighborhoods(s: System, ks: Kernels)
    requires Balanced(s)
    ensures Update(s, ks).Ok? && Balanced(Update(s, ks).value)
    ensures var u := Update(s, ks).value;
      |u.densities| >= |s.particles| && |u.pressures| >= |s.particles| &&
      forall i :: 0 <= i < |s.particles| ==> UpdatedAt(s, ks, u, i)
  {
    var u := Update(s, ks).value;
    var d := DensityPass(s, ks);
    assert u.neighbors == d.neighbors && u.densities == d.densities && u.pressures == d.pressures;
    forall i | 0 <= i < |s.particles| ensures UpdatedAt(s, ks, u, i) {
      NeighborhoodExact(s, i);
      assert u.particles[i] == Pushed(d, ks, i, Neighborhood(s, i), Neighborhood(s, i));
    }
  }

  /** Alone in its neighborhood, a particle takes no pressure or viscous
      push from itself when the gradient kernel vanishes at the zero
      vector. */
  lemma SelfUnpushed(d: System, ks: Kernels, i: nat)
    requires i < |d.particles| && i < |d.pressures| && i < |d.densities| && ks.gradw(Zero) == Zero
    ensures Pushed(d, ks, i, [i], [i]) == d.particles[i]
  {
    var p := d.particles[i];
    assert Sub(p.position, p.position) == Zero;
    assert Sub(p.velocity, p.velocity) == Zero;
    assert PressureSum(d, ks, i, [i], [i], 1) == Vectors.Add(Zero, PressureTerm(d, ks, i, i, i));
    assert PressureTerm(d, ks, i, i, i) == Zero;
    assert ViscousSum(d, ks, i, [i], [i], 1) == Vectors.Add(Zero, ViscousTerm(d, ks, i, i, i));
    assert ViscousTerm(d, ks, i, i, i) == Zero;
  }

  /** A particle with nothing near it feels no force from an update, when
      the gradient kernel vanishes at the zero vector (as the system's own
      does). */
  lemma IsolatedUnpushed(s: System, ks: Kernels, i: nat)
    requires Balanced(s) && i < |s.particles| && ks.gradw(Zero) == Zero
    requires forall q :: 0 <= q < |s.particles| ==> !Near(s.particles[q], s.particles[i], R2(s))
    ensures Update(s, ks).Ok? && Update(s, ks).value.particles[i] == s.particles[i]
  {
    IsolatedNeighborhood(s, i);
    SelfUnpushed(DensityPass(s, ks), ks, i);
  }

  // The system's own kernels.

  /** `w`: the poly6 weight, poly6 (h^2 - r^2)^3. */
  function SourceW(h: real, poly6: real, r: real): real
  {
    poly6 * ((h * h - r * r) * (h * h - r * r) * (h * h - r * r))
  }

  /** `gradw`: the vector scaled by spiky (h^2 - |v|^2)^2. */
  function SourceGradW(h: real, spiky: real, ops: MathOps, v: Vec3): Vec3
  {
    var r := ops.sqrt(NormSq(v));
    Scale(spiky * ((h * h - r * r) * (h * h - r * r)), v)
  }

  /** `nablaw`: spiky (h^2 - r^2)(7 r^2 - 3 h^2). */
  function SourceNablaW(h: real, spiky: real, r: real): real
  {
    spiky * (h * h - r * r) * (7.0 * r * r - 3.0 * h * h)
  }

  /** The kernels `w`, `gradw` and `nablaw` compute for smoothing radius
      h, with poly6 = 315 / (64 pi h^9) and spiky = 945 / (32 pi h^9)
      given, and lengths by the square root. */
  function SourceKernels(h: real, poly6: real, spiky: real, ops: MathOps, quot: (real, real) -> real): (ks: Kernels)
    ensures ks.gradw(Zero) == Zero
    ensures ks.w(h) == 0.0 && ks.w(-h) == 0.0 && ks.nablaw(h) == 0.0
    ensures forall r :: ks.w(r) == ks.w(-r)
  {
    var ks := Kernels(
      r => SourceW(h, poly6, r),
      v => SourceGradW(h, spiky, ops, v),
      r => SourceNablaW(h, spiky, r),
      v => ops.sqrt(NormSq(v)),
      quot);
    assert ks.gradw(Zero) == Zero;
    assert forall r :: ks.w(r) == ks.w(-r) by {
      forall r ensures SourceW(h, poly6, r) == SourceW(h, poly6, -r) {
        assert (-r) * (-r) == r * r;
      }
    }
    ks
  }

  /** The system's weight is positive strictly inside the smoothing
      radius, for a positive poly6 factor. */
  lemma SourceWeightPositive(h: real, poly6: real, r: real)
    requires poly6 > 0.0 && r * r < h * h
    ensures SourceW(h, poly6, r) > 0.0
  {
    CubePositive(poly6, h * h - r * r);
  }

  /** A positive factor times the cube of a positive real is positive. */
  lemma CubePositive(c: real, x: real)
    requires c > 0.0 && x > 0.0
    ensures c * (x * x * x) > 0.0
  {
  }

  // The neighbor-slot defect.

  /** A line of three unit-mass particles 0.6 and 0.9 apart, resting, with
      smoothing radius 1: the first and last are not near each other. */
  const Line: System := System(
    [Particle(0, Vec3(0.0, 0.0, 0.0), Zero, 1.0, Zero),
     Particle(1, Vec3(1.5, 0.0, 0.0), Zero, 1.0, Zero),
     Particle(2, Vec3(0.6, 0.0, 0.0), Zero, 1.0, Zero)],
    1.0, 1.0, 1.0, 0.01, 0.000001, [], [], [[], [], []])

  /** Kernels that make the arithmetic plain: unit weight, the identity
      gradient, no viscosity, division that keeps the dividend. */
  const Plain: Kernels := Kernels(r => 1.0, v => v, r => 0.0, v => 0.0, (a, b) => a)

  /** Particle 0 of the line has particle 2 near it, particle 1 has
      particle 2, and particle 2 has both others. */
  lemma LineNeighborhoods()
    ensures Neighborhood(Line, 0) == [2, 0] && Neighborhood(Line, 2) == [0, 1, 2]
  {
    var ps := Line.particles;
    assert !Near(ps[0], ps[0], 1.0) && !Near(ps[1], ps[0], 1.0) && Near(ps[2], ps[0], 1.0);
    assert NearIndices(ps, ps[0], 1.0, 3) == [2];
    assert Near(ps[0], ps[2], 1.0) && Near(ps[1], ps[2], 1.0) && !Near(ps[2], ps[2], 1.0);
    assert NearIndices(ps, ps[2], 1.0, 3) == [0, 1];
  }

  /** With unit weights the densities count neighborhoods: 2 for particle
      0 and 3 for particle 2, so pressures 1 and 2. */
  lemma LineDensities()
    ensures var d := DensityPass(Line, Plain);
      d.densities[0] == 2.0 && d.densities[2] == 3.0 && d.pressures[0] == 1.0 && d.pressures[2] == 2.0
  {
    var s := Line;
    LineNeighborhoods();
    assert DensitySum(s, Plain, 0, [2, 0], 1) == 1.0;
    assert Density(s, Plain, 0) == DensitySum(s, Plain, 0, [2, 0], 2) == 2.0;
    assert DensitySum(s, Plain, 2, [0, 1, 2], 1) == 1.0;
    assert DensitySum(s, Plain, 2, [0, 1, 2], 2) == 2.0;
    assert Density(s, Plain, 2) == DensitySum(s, Plain, 2, [0, 1, 2], 3) == 3.0;
  }

  /** What the density pass leaves for the line with unit weights. */
  predicate LineAfterDensities(d: System)
  {
    d.particles == Line.particles && |d.pressures| >= 3 && |d.densities| >= 3 &&
    d.densities[0] == 2.0 && d.densities[2] == 3.0 && d.pressures[0] == 1.0 && d.pressures[2] == 2.0
  }

  /** Particle 0's pressure push: from particle 2 at list slot 0 it reads
      its own pressure twice, at slot 2 its own and particle 2's; from
      itself it gets nothing. */
  lemma LineTerms(d: System)
    requires LineAfterDensities(d)
    ensures PressureTerm(d, Plain, 0, 2, 0) == Vec3(1.2, 0.0, 0.0)
    ensures PressureTerm(d, Plain, 0, 2, 2) == Vec3(1.8, 0.0, 0.0)
    ensures PressureTerm(d, Plain, 0, 0, 0) == Zero && PressureTerm(d, Plain, 0, 0, 1) == Zero
    ensures ViscousTerm(d, Plain, 0, 2, 0) == Zero && ViscousTerm(d, Plain, 0, 2, 2) == Zero
    ensures ViscousTerm(d, Plain, 0, 0, 0) == Zero && ViscousTerm(d, Plain, 0, 0, 1) == Zero
  {
    assert Sub(d.particles[0].position, d.particles[2].position) == Vec3(-0.6, 0.0, 0.0);
    assert Sub(d.particles[0].position, d.particles[0].position) == Zero;
  }

  /** The sums of those terms, list slots against own slots. */
  lemma LinePushes(d: System)
    requires LineAfterDensities(d)
    ensures Pushed(d, Plain, 0, [2, 0], [0, 1]).force == Vec3(1.2, 0.0, 0.0)
    ensures Pushed(d, Plain, 0, [2, 0], [2, 0]).force == Vec3(1.8, 0.0, 0.0)
  {
    LineTerms(d);
    var nb := [2, 0];
    assert PressureSum(d, Plain, 0, nb, [0, 1], 1) == Vec3(1.2, 0.0, 0.0);
    assert PressureSum(d, Plain, 0, nb, [0, 1], 2) == Vec3(1.2, 0.0, 0.0);
    assert PressureSum(d, Plain, 0, nb, nb, 1) == Vec3(1.8, 0.0, 0.0);
    assert PressureSum(d, Plain, 0, nb, nb, 2) == Vec3(1.8, 0.0, 0.0);
    assert ViscousSum(d, Plain, 0, nb, [0, 1], 1) == Zero;
    assert ViscousSum(d, Plain, 0, nb, [0, 1], 2) == Zero;
    assert ViscousSum(d, Plain, 0, nb, nb, 1) == Zero;
    assert ViscousSum(d, Plain, 0, nb, nb, 2) == Zero;
  }

  /** As written, particle 0 of the line is pushed by 1.2 along x. */
  lemma LineAsWritten()
    ensures UpdateAsWritten(Line, Plain).Ok?
    ensures UpdateAsWritten(Line, Plain).value.particles[0].force == Vec3(1.2, 0.0, 0.0)
  {
    LineNeighborhoods();
    LineDensities();
    var d := DensityPass(Line, Plain);
    LinePushes(d);
    assert ListSlots(2) == [0, 1];
  }

  /** As intended, particle 0 of the line is pushed by 1.8 along x. */
  lemma LineIntended()
    ensures Update(Line, Plain).Ok?
    ensures Update(Line, Plain).value.particles[0].force == Vec3(1.8, 0.0, 0.0)
  {
    LineNeighborhoods();
    LineDensities();
    LinePushes(DensityPass(Line, Plain));
  }

  /** Reading pressures at list slots pushes particle 0 of the line
      differently than reading them at the neighbor's own slot: its
      neighborhood is [2, 0], so slot 0 holds its own pressure, not
      particle 2's. */
  lemma PressureSlotDiffers()
    ensures UpdateAsWritten(Line, Plain).Ok? && Update(Line, Plain).Ok?
    ensures UpdateAsWritten(Line, Plain).value.particles[0].force != Update(Line, Plain).value.particles[0].force
  {
    LineAsWritten();
    LineIntended();
  }
}
