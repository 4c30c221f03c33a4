/** The Gauss-Seidel solver's `solve(h)` on the bodies of a world: the
    solve masses are updated, every equation computes its B and 1/C once,
    the accumulators are reset, the sweeps of `GaussSeidel` run with the
    equations' own G Wlambda and `addToWlambda`, and the accumulated
    velocities are then added to the bodies and the multipliers stored. */
module GsSolver {
  import opened Vectors
  import Body
  import Equation
  import Solver
  import GaussSeidel

  datatype GsSolver = GsSolver(iterations: nat, tolerance: real, equations: seq<Equation.Equation>)

  /** `init`: 10 iterations, tolerance 1e-7, no equations. */
  function Init(): (s: GsSolver)
    ensures s.iterations == 10 && s.tolerance == 0.0000001 && s.equations == []
  {
    GsSolver(10, 0.0000001, [])
  }

  predicate AllValid(eqs: seq<Equation.Equation>, bodies: seq<Body.Body>)
  {
    forall k :: 0 <= k < |eqs| ==> Equation.Valid(eqs[k], bodies)
  }

  /** `updateSolveMassProperties` on every body. */
  function SolveMasses(bodies: seq<Body.Body>): (r: seq<Body.Body>)
    ensures |r| == |bodies| && forall i :: 0 <= i < |r| ==> r[i] == Body.UpdateSolveMassProperties(bodies[i])
  {
    seq(|bodies|, i requires 0 <= i < |bodies| => Body.UpdateSolveMassProperties(bodies[i]))
  }

  /** 1/C; the guard is never needed for a well-posed system (see
      `InvCOfWellPosed`). */
  function InvC(eq: Equation.Equation, bodies: seq<Body.Body>): real
    requires Equation.Valid(eq, bodies)
  {
    var c := Equation.ComputeC(eq, bodies);
    if c != 0.0 then 1.0 / c else 0.0
  }

  /** What a solve computes once, before the sweeps: the bodies with their
      solve masses updated and accumulators reset, the equations after
      their `computeB` has written the Jacobians, the right-hand sides B
      and the inverses 1/C. */
  datatype Setup = Setup(bodies: seq<Body.Body>, eqs: seq<Equation.Equation>, rhs: seq<real>, invC: seq<real>)

  /** A setup for n equations over m bodies. */
  predicate Shaped(u: Setup, n: nat, m: nat)
  {
    |u.bodies| == m && |u.eqs| == n && |u.rhs| == n && |u.invC| == n && AllValid(u.eqs, u.bodies)
  }

  function Prepare(eqs: seq<Equation.Equation>, h: real, bodies: seq<Body.Body>, ops: MathOps): (u: Setup)
    requires AllValid(eqs, bodies)
    ensures Shaped(u, |eqs|, |bodies|)
    ensures forall i :: 0 <= i < |bodies| ==>
      u.bodies[i] == Body.UpdateSolveMassProperties(bodies[i]).(vlambda := Zero, wlambda := Zero)
    ensures forall k :: 0 <= k < |eqs| ==> u.eqs[k].(ga := eqs[k].ga, gb := eqs[k].gb) == eqs[k]
    ensures forall k :: 0 <= k < |eqs| ==> u.invC[k] == InvC(u.eqs[k], SolveMasses(bodies))
  {
    var b1 := SolveMasses(bodies);
    var p := seq(|eqs|, k requires 0 <= k < |eqs| => Solver.ComputeB(eqs[k], b1, h, ops));
    var prepared := seq(|eqs|, k requires 0 <= k < |eqs| => p[k].0);
    Setup(seq(|bodies|, i requires 0 <= i < |bodies| => b1[i].(vlambda := Zero, wlambda := Zero)),
          prepared,
          seq(|eqs|, k requires 0 <= k < |eqs| => p[k].1),
          seq(|eqs|, k requires 0 <= k < |eqs| => InvC(prepared[k], b1)))
  }

  /** The sweeps' view of a setup: equation k's G Wlambda and
      `addToWlambda` on the bodies (left alone where an index is out of
      range, which `ProblemReadsEquations` shows never happens). */
  function ProblemOf(u: Setup): (p: GaussSeidel.Problem<seq<Body.Body>>)
    requires Shaped(u, |u.eqs|, |u.bodies|)
    ensures GaussSeidel.Wf(p, |u.eqs|)
    ensures forall k :: 0 <= k < |u.eqs| ==>
      p.rhs[k] == u.rhs[k] && p.invC[k] == u.invC[k] && p.eps[k] == u.eqs[k].eps &&
      p.minForce[k] == u.eqs[k].minForce && p.maxForce[k] == u.eqs[k].maxForce
  {
    var n := |u.eqs|;
    GaussSeidel.Problem(
      u.rhs, u.invC,
      seq(n, k requires 0 <= k < n => u.eqs[k].eps),
      seq(n, k requires 0 <= k < n => u.eqs[k].minForce),
      seq(n, k requires 0 <= k < n => u.eqs[k].maxForce),
      (k: nat, bs: seq<Body.Body>) =>
        if k < n && Equation.Valid(u.eqs[k], bs) then Equation.GWlambda(u.eqs[k], bs) else 0.0,
      (k: nat, bs: seq<Body.Body>, d: real) =>
        if k < n && Equation.Valid(u.eqs[k], bs) then Equation.AddToWlambda(u.eqs[k], bs, d) else bs)
  }

  /** On any list of bodies as long as the setup's, the sweeps read and
      push through the equations themselves. */
  lemma ProblemReadsEquations(u: Setup, k: nat, bs: seq<Body.Body>, d: real)
    requires Shaped(u, |u.eqs|, |u.bodies|) && k < |u.eqs| && |bs| == |u.bodies|
    ensures Equation.Valid(u.eqs[k], bs)
    ensures ProblemOf(u).gw(k, bs) == Equation.GWlambda(u.eqs[k], bs)
    ensures ProblemOf(u).push(k, bs, d) == Equation.AddToWlambda(u.eqs[k], bs, d)
  {
  }

  function Zeros(n: nat): (r: seq<real>)
    ensures |r| == n && forall k :: 0 <= k < n ==> r[k] == 0.0
  {
    seq(n, k => 0.0)
  }

  /** The sweeps of a solve, every lambda starting at 0. */
  function RunOf(s: GsSolver, u: Setup): (r: GaussSeidel.Run<seq<Body.Body>>)
    requires Shaped(u, |u.eqs|, |u.bodies|)
    ensures |r.lambda| == |u.eqs| && r.iters <= s.iterations
  {
    GaussSeidel.Iterate(ProblemOf(u), s.tolerance, Zeros(|u.eqs|), u.bodies, 0, s.iterations, 0.0)
  }

  /** The accumulated velocities, scaled by the body's factors, added to
      its velocities; the scaled values stay in the accumulators. */
  function Finish(b: Body.Body): (r: Body.Body)
    ensures r.vlambda == Mul(b.vlambda, b.linearFactor) && r.velocity == Add(b.velocity, r.vlambda)
    ensures r.wlambda == Mul(b.wlambda, b.angularFactor) && r.angularVelocity == Add(b.angularVelocity, r.wlambda)
    ensures r.(vlambda := b.vlambda, velocity := b.velocity, wlambda := b.wlambda, angularVelocity := b.angularVelocity) == b
  {
    var vl := Mul(b.vlambda, b.linearFactor);
    var wl := Mul(b.wlambda, b.angularFactor);
    b.(vlambda := vl, velocity := Add(b.velocity, vl), wlambda := wl, angularVelocity := Add(b.angularVelocity, wl))
  }

  datatype Outcome = Outcome(iters: nat, bodies: seq<Body.Body>, equations: seq<Equation.Equation>)

  /** The end of a solve: the run's accumulators are added to the bodies'
      velocities and each equation's multiplier is its lambda times 1/h. */
  function Conclude(run: GaussSeidel.Run<seq<Body.Body>>, eqs: seq<Equation.Equation>, h: real): (r: Outcome)
    requires |run.lambda| == |eqs| && h != 0.0
    ensures r.iters == run.iters && |r.bodies| == |run.state| && |r.equations| == |eqs|
    ensures forall i :: 0 <= i < |r.bodies| ==> r.bodies[i] == Finish(run.state[i])
    ensures forall k :: 0 <= k < |eqs| ==> r.equations[k] == eqs[k].(multiplier := run.lambda[k] * (1.0 / h))
  {
    Outcome(run.iters,
            seq(|run.state|, i requires 0 <= i < |run.state| => Finish(run.state[i])),
            seq(|eqs|, k requires 0 <= k < |eqs| => eqs[k].(multiplier := run.lambda[k] * (1.0 / h))))
  }

  /** `solve(h)`: with no equations nothing happens and 0 is returned;
      otherwise the setup, the sweeps and the conclusion in turn. */
  function Reference(s: GsSolver, h: real, bodies: seq<Body.Body>, ops: MathOps): (r: Outcome)
    requires AllValid(s.equations, bodies) && h != 0.0
  {
    if |s.equations| == 0 then Outcome(0, bodies, s.equations)
    else
      var u := Prepare(s.equations, h, bodies, ops);
      Conclude(RunOf(s, u), u.eqs, h)
  }

  /** `solve(h)` as the source runs it: the loops of `GaussSeidel` on the
      prepared setup. */
  method Solve(s: GsSolver, h: real, bodies: seq<Body.Body>, ops: MathOps)
    returns (iters: nat, out: seq<Body.Body>, eqs: seq<Equation.Equation>)
    requires AllValid(s.equations, bodies) && h != 0.0
    ensures Outcome(iters, out, eqs) == Reference(s, h, bodies, ops)
    ensures iters <= s.iterations && |out| == |bodies| && |eqs| == |s.equations|
  {
    if |s.equations| == 0 {
      return 0, bodies, s.equations;
    }
    var u := Prepare(s.equations, h, bodies, ops);
    var lambda, st, n, last := GaussSeidel.RunSweeps(ProblemOf(u), s.tolerance, Zeros(|u.eqs|), u.bodies, s.iterations);
    var r := Conclude(GaussSeidel.Run(lambda, st, n, last), u.eqs, h);
    assert GaussSeidel.Run(lambda, st, n, last) == RunOf(s, u);
    FramesKept(s, u);
    iters, out, eqs := r.iters, r.bodies, r.equations;
  }

  // Properties of the reference.

  /** Without equations nothing changes and no iteration is reported. */
  lemma NoEquationsNoChange(s: GsSolver, h: real, bodies: seq<Body.Body>, ops: MathOps)
    requires |s.equations| == 0 && h != 0.0
    ensures Reference(s, h, bodies, ops) == Outcome(0, bodies, [])
  {
  }

  /** The reported count never exceeds the budget, and a count below it
      means the last sweep's total change squared was below the tolerance
      squared. */
  lemma IterationsBounded(s: GsSolver, h: real, bodies: seq<Body.Body>, ops: MathOps)
    requires AllValid(s.equations, bodies) && h != 0.0
    ensures Reference(s, h, bodies, ops).iters <= s.iterations
    ensures |s.equations| > 0 && Reference(s, h, bodies, ops).iters < s.iterations ==>
      GaussSeidel.Converged(RunOf(s, Prepare(s.equations, h, bodies, ops)).lastTotal, s.tolerance)
  {
    if |s.equations| > 0 {
      var u := Prepare(s.equations, h, bodies, ops);
      assert Reference(s, h, bodies, ops) == Conclude(RunOf(s, u), u.eqs, h);
    }
  }

  /** With a budget of at least one sweep, every equation's lambda is
      within its force bounds (where those are in order), and its stored
      multiplier is that lambda over h, so that multiplier times h is within
      them too (`MultiplierBound`). The prepared equations keep the bounds
      they were given (`Prepare`). */
  lemma MultipliersWithinBounds(s: GsSolver, u: Setup, h: real)
    requires Shaped(u, |u.eqs|, |u.bodies|) && h != 0.0 && s.iterations > 0
    ensures var run := RunOf(s, u);
      var r := Conclude(run, u.eqs, h);
      forall k :: 0 <= k < |u.eqs| && u.eqs[k].minForce <= u.eqs[k].maxForce ==>
        u.eqs[k].minForce <= run.lambda[k] <= u.eqs[k].maxForce &&
        r.equations[k].multiplier == run.lambda[k] * (1.0 / h)
  {
    RunClamps(s, u);
  }

  /** The sweeps keep every multiplier within its equation's bounds. */
  lemma RunClamps(s: GsSolver, u: Setup)
    requires Shaped(u, |u.eqs|, |u.bodies|) && s.iterations > 0
    ensures forall k :: 0 <= k < |u.eqs| && u.eqs[k].minForce <= u.eqs[k].maxForce ==>
      u.eqs[k].minForce <= RunOf(s, u).lambda[k] <= u.eqs[k].maxForce
  {
    GaussSeidel.IterateClamps(ProblemOf(u), s.tolerance, Zeros(|u.eqs|), u.bodies, 0, s.iterations, 0.0);
  }

  lemma MultiplierBound(lambda: real, h: real, lo: real, hi: real)
    requires h != 0.0 && lo <= lambda <= hi
    ensures lo <= lambda * (1.0 / h) * h <= hi
  {
    assert lambda * (1.0 / h) * h == lambda;
  }

  /** A body with its accumulators cleared: two bodies with the same
      frame differ at most in vlambda and wlambda. */
  function Frame(b: Body.Body): (r: Body.Body)
    ensures r.vlambda == Zero && r.wlambda == Zero
    ensures r.velocity == b.velocity && r.angularVelocity == b.angularVelocity
    ensures r.linearFactor == b.linearFactor && r.angularFactor == b.angularFactor
  {
    b.(vlambda := Zero, wlambda := Zero)
  }

  function Frames(bodies: seq<Body.Body>): (r: seq<Body.Body>)
    ensures |r| == |bodies| && forall i :: 0 <= i < |bodies| ==> r[i] == Frame(bodies[i])
  {
    seq(|bodies|, i requires 0 <= i < |bodies| => Frame(bodies[i]))
  }

  /** `addToWlambda` changes only the accumulators. */
  lemma AddToWlambdaKeepsFrames(eq: Equation.Equation, bodies: seq<Body.Body>, d: real)
    requires Equation.Valid(eq, bodies)
    ensures Frames(Equation.AddToWlambda(eq, bodies, d)) == Frames(bodies)
  {
    var r := Equation.AddToWlambda(eq, bodies, d);
    forall i | 0 <= i < |bodies|
      ensures Frame(r[i]) == Frame(bodies[i])
    {
      assert r[i].(vlambda := bodies[i].vlambda, wlambda := bodies[i].wlambda) == bodies[i];
    }
  }

  /** The sweeps change only the accumulators. */
  lemma FramesKept(s: GsSolver, u: Setup)
    requires Shaped(u, |u.eqs|, |u.bodies|)
    ensures Frames(RunOf(s, u).state) == Frames(u.bodies)
  {
    var p := ProblemOf(u);
    forall k: nat, bs: seq<Body.Body>, d: real
      ensures Frames(p.push(k, bs, d)) == Frames(bs)
    {
      if k < |u.eqs| && Equation.Valid(u.eqs[k], bs) {
        AddToWlambdaKeepsFrames(u.eqs[k], bs, d);
      }
    }
    GaussSeidel.IterateKeeps(p, Frames, s.tolerance, Zeros(|u.eqs|), u.bodies, 0, s.iterations, 0.0);
  }

  /** Each body's velocity gains its scaled accumulator and its angular
      velocity likewise, where the scaled accumulators are the run's ones
      times the linear and angular factors; apart from these the body
      changes only in its solve masses. */
  lemma VelocitiesGainAccumulators(s: GsSolver, h: real, bodies: seq<Body.Body>, ops: MathOps)
    requires AllValid(s.equations, bodies) && h != 0.0 && |s.equations| > 0
    ensures var r := Reference(s, h, bodies, ops);
      var run := RunOf(s, Prepare(s.equations, h, bodies, ops));
      |r.bodies| == |bodies| &&
      forall i :: 0 <= i < |bodies| ==>
        r.bodies[i].vlambda == Mul(run.state[i].vlambda, bodies[i].linearFactor) &&
        r.bodies[i].velocity == Add(bodies[i].velocity, r.bodies[i].vlambda) &&
        r.bodies[i].wlambda == Mul(run.state[i].wlambda, bodies[i].angularFactor) &&
        r.bodies[i].angularVelocity == Add(bodies[i].angularVelocity, r.bodies[i].wlambda) &&
        Frame(r.bodies[i].(velocity := bodies[i].velocity, angularVelocity := bodies[i].angularVelocity)) ==
          Frame(Body.UpdateSolveMassProperties(bodies[i]))
  {
    var u := Prepare(s.equations, h, bodies, ops);
    var run := RunOf(s, u);
    FramesKept(s, u);
    var r := Conclude(run, u.eqs, h);
    forall i | 0 <= i < |bodies|
      ensures r.bodies[i].vlambda == Mul(run.state[i].vlambda, bodies[i].linearFactor)
      ensures r.bodies[i].velocity == Add(bodies[i].velocity, r.bodies[i].vlambda)
      ensures r.bodies[i].wlambda == Mul(run.state[i].wlambda, bodies[i].angularFactor)
      ensures r.bodies[i].angularVelocity == Add(bodies[i].angularVelocity, r.bodies[i].wlambda)
      ensures Frame(r.bodies[i].(velocity := bodies[i].velocity, angularVelocity := bodies[i].angularVelocity)) ==
          Frame(Body.UpdateSolveMassProperties(bodies[i]))
    {
      var solve := Body.UpdateSolveMassProperties(bodies[i]);
      assert Frames(run.state)[i] == Frames(u.bodies)[i];
      SolveMassKeepsMotion(bodies[i]);
      FinishKeepsFrame(run.state[i], u.bodies[i], solve, bodies[i]);
    }
  }

  lemma SolveMassKeepsMotion(b: Body.Body)
    ensures var r := Body.UpdateSolveMassProperties(b);
      r.velocity == b.velocity && r.angularVelocity == b.angularVelocity &&
      r.linearFactor == b.linearFactor && r.angularFactor == b.angularFactor
  {
  }

  lemma FinishKeepsFrame(b: Body.Body, reset: Body.Body, solve: Body.Body, orig: Body.Body)
    requires Frame(b) == Frame(reset) && reset == solve.(vlambda := Zero, wlambda := Zero)
    requires solve.velocity == orig.velocity && solve.angularVelocity == orig.angularVelocity
    requires solve.linearFactor == orig.linearFactor && solve.angularFactor == orig.angularFactor
    ensures b.velocity == orig.velocity && b.angularVelocity == orig.angularVelocity
    ensures b.linearFactor == orig.linearFactor && b.angularFactor == orig.angularFactor
    ensures Frame(Finish(b).(velocity := orig.velocity, angularVelocity := orig.angularVelocity)) == Frame(solve)
  {
  }

  /** For an equation with positive eps between bodies with non-negative
      inverse masses and semi-definite inverse world inertias, C on the
      solve masses is positive, so 1/C is the true reciprocal and
      positive. */
  lemma InvCOfWellPosed(eq: Equation.Equation, bodies: seq<Body.Body>)
    requires Equation.Valid(eq, bodies) && eq.eps > 0.0
    requires bodies[eq.bi].invMass >= 0.0 && Equation.SemiDefinite(bodies[eq.bi].invInertiaWorld)
    requires bodies[eq.bj].invMass >= 0.0 && Equation.SemiDefinite(bodies[eq.bj].invInertiaWorld)
    ensures var b1 := SolveMasses(bodies);
      InvC(eq, b1) > 0.0 && InvC(eq, b1) * Equation.ComputeC(eq, b1) == 1.0
  {
    var b1 := SolveMasses(bodies);
    SolveMassPositive(bodies[eq.bi]);
    SolveMassPositive(bodies[eq.bj]);
    InvCReciprocal(eq, b1);
  }

  lemma InvCReciprocal(eq: Equation.Equation, bodies: seq<Body.Body>)
    requires Equation.Valid(eq, bodies) && eq.eps > 0.0
    requires bodies[eq.bi].invMassSolve >= 0.0 && bodies[eq.bj].invMassSolve >= 0.0
    requires Equation.SemiDefinite(bodies[eq.bi].invInertiaWorldSolve) && Equation.SemiDefinite(bodies[eq.bj].invInertiaWorldSolve)
    ensures InvC(eq, bodies) > 0.0 && InvC(eq, bodies) * Equation.ComputeC(eq, bodies) == 1.0
  {
    Equation.ComputeCPositive(eq, bodies);
    Reciprocal(Equation.ComputeC(eq, bodies));
  }

  lemma SolveMassPositive(b: Body.Body)
    requires b.invMass >= 0.0 && Equation.SemiDefinite(b.invInertiaWorld)
    ensures Body.UpdateSolveMassProperties(b).invMassSolve >= 0.0
    ensures Equation.SemiDefinite(Body.UpdateSolveMassProperties(b).invInertiaWorldSolve)
  {
    var r := Body.UpdateSolveMassProperties(b);
    if r.invInertiaWorldSolve == ZeroMat {
      forall v ensures Dot(MatVec(ZeroMat, v), v) >= 0.0 {
        assert MatVec(ZeroMat, v) == Zero;
      }
    }
  }

  lemma Reciprocal(c: real)
    requires c > 0.0
    ensures 1.0 / c > 0.0 && (1.0 / c) * c == 1.0
  {
  }
}
