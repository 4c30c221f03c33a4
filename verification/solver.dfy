/** The solver base class: the list of equations to solve, the filter on
    adding, and removal; plus the `computeB` each kind of equation
    overrides, as the solvers call it. */
module Solver {
  import opened Vectors
  import opened Wrappers
  import Body
  import Equation
  import ContactEquation
  import FrictionEquation
  import RotationalEquation
  import RotationalMotorEquation
  import ConeEquation

  datatype Solver = Solver(equations: seq<Equation.Equation>)

  /** `init`: no equations. */
  function Init(): (s: Solver)
    ensures s.equations == []
  {
    Solver([])
  }

  /** The equation takes part in solving: it is enabled and neither of its
      bodies is a trigger. */
  predicate Admits(eq: Equation.Equation, bodies: seq<Body.Body>)
    requires Equation.Valid(eq, bodies)
  {
    eq.enabled && !bodies[eq.bi].isTrigger && !bodies[eq.bj].isTrigger
  }

  /** `addEquation`: appends the equation when it is admitted; otherwise
      the list is unchanged. */
  function AddEquation(s: Solver, eq: Equation.Equation, bodies: seq<Body.Body>): (r: Solver)
    requires Equation.Valid(eq, bodies)
    ensures Admits(eq, bodies) ==> r.equations == s.equations + [eq]
    ensures !Admits(eq, bodies) ==> r == s
  {
    if eq.enabled && !bodies[eq.bi].isTrigger && !bodies[eq.bj].isTrigger then Solver(s.equations + [eq]) else s
  }

  /** The position of the first equation with the id, as `indexOf` finds
      the same object. */
  function IndexOf(eqs: seq<Equation.Equation>, id: int): (r: Option<nat>)
    ensures r.Some? ==> r.value < |eqs| && eqs[r.value].id == id && forall k :: 0 <= k < r.value ==> eqs[k].id != id
    ensures r.None? ==> forall k :: 0 <= k < |eqs| ==> eqs[k].id != id
  {
    if |eqs| == 0 then None
    else if eqs[0].id == id then Some(0)
    else
      var rest := IndexOf(eqs[1..], id);
      if rest.Some? then Some(rest.value + 1) else None
  }

  /** `removeEquation`: the first occurrence goes; an absent equation
      leaves the list unchanged. */
  function RemoveEquation(s: Solver, eq: Equation.Equation): (r: Solver)
    ensures IndexOf(s.equations, eq.id).None? ==> r == s
    ensures IndexOf(s.equations, eq.id).Some? ==>
      var k := IndexOf(s.equations, eq.id).value;
      r.equations == s.equations[..k] + s.equations[k + 1..]
  {
    var i := IndexOf(s.equations, eq.id);
    if i.Some? then Solver(s.equations[..i.value] + s.equations[i.value + 1..]) else s
  }

  /** Removing an equation just added to a list that did not hold it
      gives the list back. */
  lemma RemoveUndoesAdd(s: Solver, eq: Equation.Equation, bodies: seq<Body.Body>)
    requires Equation.Valid(eq, bodies)
    requires forall k :: 0 <= k < |s.equations| ==> s.equations[k].id != eq.id
    ensures RemoveEquation(AddEquation(s, eq, bodies), eq) == s
  {
    var added := AddEquation(s, eq, bodies);
    if Admits(eq, bodies) {
      assert IndexOf(added.equations, eq.id) == Some(|s.equations|) by {
        assert added.equations[|s.equations|] == eq;
      }
      assert added.equations[..|s.equations|] == s.equations;
    }
  }

  /** `removeAllEquations`: the list is emptied. */
  function RemoveAllEquations(s: Solver): (r: Solver)
    ensures r.equations == []
  {
    Solver([])
  }

  /** The base `solve`: does nothing and reports 0 iterations. */
  function Solve(s: Solver, dt: real, bodies: seq<Body.Body>): (r: (nat, seq<Body.Body>))
    ensures r.0 == 0 && r.1 == bodies
  {
    (0, bodies)
  }

  /** `computeB(h)` of the equation's own kind; the rotational equation's
      is taken with its scratch vectors in place. */
  function ComputeB(eq: Equation.Equation, bodies: seq<Body.Body>, h: real, ops: MathOps): (r: (Equation.Equation, real))
    requires Equation.Valid(eq, bodies)
    ensures Equation.Valid(r.0, bodies)
    ensures r.0.(ga := eq.ga, gb := eq.gb) == eq
  {
    match eq.kind
    case Contact(_, _, _, _) => ContactEquation.ComputeB(eq, bodies, h)
    case Friction(_, _, _) => FrictionEquation.ComputeB(eq, bodies, h)
    case Rotational(_, _, _) => RotationalEquation.ComputeB(eq, bodies, h, ops)
    case RotationalMotor(_, _, _) => RotationalMotorEquation.ComputeB(eq, bodies, h)
    case Cone(_, _, _) => ConeEquation.ComputeB(eq, bodies, h, ops)
  }
}
