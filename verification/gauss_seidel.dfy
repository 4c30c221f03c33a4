/** The projected Gauss-Seidel iteration of the solver, over an abstract
    state `S` the updates act on (for the solver: the bodies and their
    accumulated velocities). Equation k is described by its right-hand
    side B, its 1/C, its eps and its force bounds; `gw(k, st)` reads
    G Wlambda for it off the state, and `push(k, st, d)` is its
    `addToWlambda(d)`.

    A sweep updates every multiplier in turn from the state the earlier
    updates left; sweeps repeat until the total change is small or the
    budget is spent. The functions are the reference; `SweepAll` and
    `RunSweeps` are the loops and are shown to compute the same. */
module GaussSeidel {
  datatype Problem<!S> = Problem(
    rhs: seq<real>,
    invC: seq<real>,
    eps: seq<real>,
    minForce: seq<real>,
    maxForce: seq<real>,
    gw: (nat, S) -> real,
    push: (nat, S, real) -> S)

  /** The number of equations, with every per-equation list that long. */
  predicate Wf<S>(p: Problem<S>, n: nat)
  {
    |p.rhs| == n && |p.invC| == n && |p.eps| == n && |p.minForce| == n && |p.maxForce| == n
  }

  /** The unclamped step invC (B - G Wlambda - eps lambda). */
  function Raw<S>(p: Problem<S>, k: nat, lambda: real, st: S): real
    requires Wf(p, |p.rhs|) && k < |p.rhs|
  {
    p.invC[k] * (p.rhs[k] - p.gw(k, st) - p.eps[k] * lambda)
  }

  /** x cut into [lo, hi], the lower bound tested first. */
  function Clamp(x: real, lo: real, hi: real): (r: real)
    ensures x < lo ==> r == lo
    ensures lo <= x <= hi ==> r == x
    ensures lo <= x && hi < x ==> r == hi
  {
    if x < lo then lo else if x > hi then hi else x
  }

  /** One update: the unclamped step, cut so that lambda plus the step
      lands in [minForce, maxForce]. */
  function Delta<S>(p: Problem<S>, k: nat, lambda: real, st: S): (d: real)
    requires Wf(p, |p.rhs|) && k < |p.rhs|
    ensures lambda + d == Clamp(lambda + Raw(p, k, lambda, st), p.minForce[k], p.maxForce[k])
  {
    var raw := Raw(p, k, lambda, st);
    if lambda + raw < p.minForce[k] then p.minForce[k] - lambda
    else if lambda + raw > p.maxForce[k] then p.maxForce[k] - lambda
    else raw
  }

  /** After an update, lambda lies within bounds that are in order, and
      an update that needed no cutting is the unclamped step. */
  lemma DeltaClamps<S>(p: Problem<S>, k: nat, lambda: real, st: S)
    requires Wf(p, |p.rhs|) && k < |p.rhs| && p.minForce[k] <= p.maxForce[k]
    ensures p.minForce[k] <= lambda + Delta(p, k, lambda, st) <= p.maxForce[k]
    ensures p.minForce[k] <= lambda + Raw(p, k, lambda, st) <= p.maxForce[k] ==>
      Delta(p, k, lambda, st) == Raw(p, k, lambda, st)
  {
  }

  function Abs(x: real): real
  {
    if x > 0.0 then x else -x
  }

  datatype Sweep<S> = Sweep(lambda: seq<real>, state: S, total: real)

  /** The first j updates of a sweep, and the sum of their sizes. */
  function SweepTo<S>(p: Problem<S>, lambda: seq<real>, st: S, j: nat): (r: Sweep<S>)
    requires Wf(p, |lambda|) && j <= |lambda|
    ensures |r.lambda| == |lambda| && r.total >= 0.0
  {
    if j == 0 then Sweep(lambda, st, 0.0)
    else
      var prev := SweepTo(p, lambda, st, j - 1);
      var d := Delta(p, j - 1, prev.lambda[j - 1], prev.state);
      Sweep(prev.lambda[j - 1 := prev.lambda[j - 1] + d], p.push(j - 1, prev.state, d), prev.total + Abs(d))
  }

  /** The first j multipliers are within their bounds (where those are in
      order); the rest are as the sweep found them. */
  lemma {:induction false} SweepClamps<S>(p: Problem<S>, lambda: seq<real>, st: S, j: nat)
    requires Wf(p, |lambda|) && j <= |lambda|
    ensures forall k :: 0 <= k < j && p.minForce[k] <= p.maxForce[k] ==>
      p.minForce[k] <= SweepTo(p, lambda, st, j).lambda[k] <= p.maxForce[k]
    ensures forall k :: j <= k < |lambda| ==> SweepTo(p, lambda, st, j).lambda[k] == lambda[k]
  {
    if j > 0 {
      SweepClamps(p, lambda, st, j - 1);
      var prev := SweepTo(p, lambda, st, j - 1);
      if p.minForce[j - 1] <= p.maxForce[j - 1] {
        DeltaClamps(p, j - 1, prev.lambda[j - 1], prev.state);
      }
    }
  }

  /** Whatever `push` leaves unchanged, a sweep leaves unchanged. */
  lemma {:induction false} SweepKeeps<S, T>(p: Problem<S>, f: S -> T, lambda: seq<real>, st: S, j: nat)
    requires Wf(p, |lambda|) && j <= |lambda|
    requires forall k, s, d :: f(p.push(k, s, d)) == f(s)
    ensures f(SweepTo(p, lambda, st, j).state) == f(st)
  {
    if j > 0 {
      SweepKeeps(p, f, lambda, st, j - 1);
    }
  }

  /** The stopping test: the sweep's total change is smaller in size than
      the tolerance (the source compares the squares, see
      `ConvergedComparesSquares`). */
  predicate Converged(total: real, tol: real)
  {
    Abs(total) < Abs(tol)
  }

  /** Comparing sizes is comparing squares. */
  lemma ConvergedComparesSquares(total: real, tol: real)
    ensures Converged(total, tol) <==> total * total < tol * tol
  {
    assert Abs(total) * Abs(total) == total * total && Abs(tol) * Abs(tol) == tol * tol;
    if Abs(total) < Abs(tol) {
      SquareGrows(Abs(total), Abs(tol));
    } else {
      SquareGrows(Abs(tol), Abs(total));
    }
  }

  lemma PositiveProduct(x: real, y: real)
    requires x > 0.0 && y > 0.0
    ensures x * y > 0.0
  {
  }

  lemma SquareGrows(a: real, b: real)
    requires 0.0 <= a
    ensures a < b ==> a * a < b * b
    ensures a == b ==> a * a == b * b
  {
    if a < b {
      PositiveProduct(b - a, b + a);
      assert b * b - a * a == (b - a) * (b + a);
    }
  }

  datatype Run<S> = Run(lambda: seq<real>, state: S, iters: nat, lastTotal: real)

  /** Sweeps from number `iter` on: a sweep that has converged ends the
      run and is reported as the number of the sweep that ended it;
      otherwise the run ends after `maxIter` sweeps. `last` is the total of
      the sweep before. */
  function Iterate<S>(p: Problem<S>, tol: real, lambda: seq<real>, st: S, iter: nat, maxIter: nat, last: real): (r: Run<S>)
    requires Wf(p, |lambda|) && iter <= maxIter
    ensures iter <= r.iters <= maxIter
    ensures |r.lambda| == |lambda|
    ensures r.iters < maxIter ==> Converged(r.lastTotal, tol)
    decreases maxIter - iter
  {
    if iter == maxIter then Run(lambda, st, iter, last)
    else
      var s := SweepTo(p, lambda, st, |lambda|);
      if Converged(s.total, tol) then Run(s.lambda, s.state, iter, s.total)
      else Iterate(p, tol, s.lambda, s.state, iter + 1, maxIter, s.total)
  }

  /** Once at least one sweep has run, every multiplier is within its
      bounds (where those are in order). */
  lemma {:induction false} IterateClamps<S>(p: Problem<S>, tol: real, lambda: seq<real>, st: S, iter: nat, maxIter: nat, last: real)
    requires Wf(p, |lambda|) && iter < maxIter
    ensures forall k :: 0 <= k < |lambda| && p.minForce[k] <= p.maxForce[k] ==>
      p.minForce[k] <= Iterate(p, tol, lambda, st, iter, maxIter, last).lambda[k] <= p.maxForce[k]
    decreases maxIter - iter
  {
    var s := SweepTo(p, lambda, st, |lambda|);
    SweepClamps(p, lambda, st, |lambda|);
    if !Converged(s.total, tol) && iter + 1 < maxIter {
      IterateClamps(p, tol, s.lambda, s.state, iter + 1, maxIter, s.total);
    }
  }

  /** Whatever `push` leaves unchanged, the whole run leaves unchanged. */
  lemma {:induction false} IterateKeeps<S, T>(p: Problem<S>, f: S -> T, tol: real, lambda: seq<real>, st: S, iter: nat, maxIter: nat, last: real)
    requires Wf(p, |lambda|) && iter <= maxIter
    requires forall k, s, d :: f(p.push(k, s, d)) == f(s)
    ensures f(Iterate(p, tol, lambda, st, iter, maxIter, last).state) == f(st)
    decreases maxIter - iter
  {
    if iter < maxIter {
      var s := SweepTo(p, lambda, st, |lambda|);
      SweepKeeps(p, f, lambda, st, |lambda|);
      if !Converged(s.total, tol) {
        IterateKeeps(p, f, tol, s.lambda, s.state, iter + 1, maxIter, s.total);
      }
    }
  }

  /** A budget of no sweeps leaves everything as it was. */
  lemma NoBudgetNoChange<S>(p: Problem<S>, tol: real, lambda: seq<real>, st: S, last: real)
    requires Wf(p, |lambda|)
    ensures Iterate(p, tol, lambda, st, 0, 0, last) == Run(lambda, st, 0, last)
  {
  }

  // The loops.

  /** The inner loop of `solve`: one sweep over all equations. */
  method SweepAll<S>(p: Problem<S>, lambda0: seq<real>, st0: S) returns (lambda: seq<real>, st: S, total: real)
    requires Wf(p, |lambda0|)
    ensures Sweep(lambda, st, total) == SweepTo(p, lambda0, st0, |lambda0|)
  {
    lambda, st, total := lambda0, st0, 0.0;
    var j := 0;
    while j != |lambda0|
      invariant 0 <= j <= |lambda0|
      invariant Sweep(lambda, st, total) == SweepTo(p, lambda0, st0, j)
    {
      var lambdaj := lambda[j];
      var deltalambda := Raw(p, j, lambdaj, st);
      if lambdaj + deltalambda < p.minForce[j] {
        deltalambda := p.minForce[j] - lambdaj;
      } else if lambdaj + deltalambda > p.maxForce[j] {
        deltalambda := p.maxForce[j] - lambdaj;
      }
      assert deltalambda == Delta(p, j, lambdaj, st);
      lambda := lambda[j := lambdaj + deltalambda];
      total := total + (if deltalambda > 0.0 then deltalambda else -deltalambda);
      st := p.push(j, st, deltalambda);
      j := j + 1;
    }
  }

  /** The outer loop of `solve`: sweeps until one converges or `maxIter`
      have run; returns the sweep count the source returns. */
  method RunSweeps<S>(p: Problem<S>, tol: real, lambda0: seq<real>, st0: S, maxIter: nat)
    returns (lambda: seq<real>, st: S, iters: nat, last: real)
    requires Wf(p, |lambda0|)
    ensures Run(lambda, st, iters, last) == Iterate(p, tol, lambda0, st0, 0, maxIter, 0.0)
  {
    lambda, st, last := lambda0, st0, 0.0;
    iters := 0;
    while iters != maxIter
      invariant iters <= maxIter && |lambda| == |lambda0|
      invariant Iterate(p, tol, lambda, st, iters, maxIter, last) == Iterate(p, tol, lambda0, st0, 0, maxIter, 0.0)
      decreases maxIter - iters
    {
      var total;
      lambda, st, total := SweepAll(p, lambda, st);
      last := total;
      ConvergedComparesSquares(total, tol);
      if total * total < tol * tol {
        return;
      }
      iters := iters + 1;
    }
  }
}
