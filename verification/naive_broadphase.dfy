/** The naive broadphase: every pair of bodies, each tested once. Pairs are
    reported by the positions of the two bodies in the world's list. */
module NaiveBroadphase {
  import opened Vectors
  import Body
  import Broadphase

  predicate AllAligned(bodies: seq<Body.Body>)
  {
    forall k :: 0 <= k < |bodies| ==> Body.Aligned(bodies[k])
  }

  /** The pair (i, j) passes the filter and the intersection test. */
  predicate Emits(bp: Broadphase.Broadphase, bodies: seq<Body.Body>, env: Body.Env, i: nat, j: nat)
    requires AllAligned(bodies) && i < |bodies| && j < |bodies|
  {
    Broadphase.NeedBroadphaseCollision(bodies[i], bodies[j]) && Broadphase.Hit(bp, bodies[i], bodies[j], env)
  }

  /** The pair test as a value: in range, and `Emits`. */
  function Test(bp: Broadphase.Broadphase, bodies: seq<Body.Body>, env: Body.Env): (nat, nat) -> bool
  {
    (i: nat, j: nat) => AllAligned(bodies) && i < |bodies| && j < |bodies| && Emits(bp, bodies, env, i, j)
  }

  /** The pairs (i, j') with j' < j that row i of the double loop emits,
      in increasing j'. */
  function Row(test: (nat, nat) -> bool, i: nat, j: nat): (r: seq<(nat, nat)>)
    ensures forall k :: 0 <= k < |r| ==> r[k].0 == i && r[k].1 < j
  {
    if j == 0 then []
    else Row(test, i, j - 1) + (if test(i, j - 1) then [(i, j - 1)] else [])
  }

  /** Row i emits (i, j') exactly for the j' < j that pass, each once and in
      increasing order. */
  lemma {:induction false} RowIsTheHits(test: (nat, nat) -> bool, i: nat, j: nat)
    ensures forall k :: 0 <= k < |Row(test, i, j)| ==> test(i, Row(test, i, j)[k].1)
    ensures forall p, q :: 0 <= p < q < |Row(test, i, j)| ==> Row(test, i, j)[p].1 < Row(test, i, j)[q].1
    ensures forall j' :: 0 <= j' < j && test(i, j') ==> (i, j') in Row(test, i, j)
  {
    if j > 0 {
      RowIsTheHits(test, i, j - 1);
      var rest := Row(test, i, j - 1);
      var r := Row(test, i, j);
      assert r == rest + (if test(i, j - 1) then [(i, j - 1)] else []);
      forall k | 0 <= k < |r|
        ensures test(i, r[k].1)
      {
        if k < |rest| {
          assert r[k] == rest[k] && test(i, rest[k].1);
        }
      }
      forall p, q | 0 <= p < q < |r|
        ensures r[p].1 < r[q].1
      {
        if q < |rest| {
          assert r[p] == rest[p] && r[q] == rest[q] && rest[p].1 < rest[q].1;
        } else {
          assert r[p] == rest[p] && r[q] == (i, j - 1);
        }
      }
      assert forall j' :: 0 <= j' < j - 1 && test(i, j') ==> (i, j') in rest;
    }
  }

  /** The pairs the first n rows emit, in loop order: row i tries every
      j < i. */
  function Pairs(test: (nat, nat) -> bool, n: nat): (r: seq<(nat, nat)>)
    ensures forall k :: 0 <= k < |r| ==> r[k].1 < r[k].0 < n
  {
    if n == 0 then [] else Pairs(test, n - 1) + Row(test, n - 1, n - 1)
  }

  /** Every pair the first n rows emit passes. */
  lemma {:induction false} PairsPass(test: (nat, nat) -> bool, n: nat)
    ensures forall k :: 0 <= k < |Pairs(test, n)| ==> test(Pairs(test, n)[k].0, Pairs(test, n)[k].1)
  {
    if n > 0 {
      PairsPass(test, n - 1);
      RowIsTheHits(test, n - 1, n - 1);
      var rest := Pairs(test, n - 1);
      var row := Row(test, n - 1, n - 1);
      var r := Pairs(test, n);
      assert r == rest + row;
      forall k | 0 <= k < |r|
        ensures test(r[k].0, r[k].1)
      {
        if k < |rest| {
          assert r[k] == rest[k] && test(rest[k].0, rest[k].1);
        } else {
          var m := k - |rest|;
          assert r[k] == row[m] && row[m].0 == n - 1 && test(n - 1, row[m].1);
        }
      }
    }
  }

  /** The first n rows emit no pair twice. */
  lemma {:induction false} PairsDistinct(test: (nat, nat) -> bool, n: nat)
    ensures forall p, q :: 0 <= p < q < |Pairs(test, n)| ==> Pairs(test, n)[p] != Pairs(test, n)[q]
  {
    if n > 0 {
      PairsDistinct(test, n - 1);
      RowIsTheHits(test, n - 1, n - 1);
      var rest := Pairs(test, n - 1);
      var row := Row(test, n - 1, n - 1);
      var r := Pairs(test, n);
      assert r == rest + row;
      forall p, q | 0 <= p < q < |r|
        ensures r[p] != r[q]
      {
        if q < |rest| {
          assert r[p] == rest[p] && r[q] == rest[q] && rest[p] != rest[q];
        } else if p < |rest| {
          assert r[p] == rest[p] && r[q] == row[q - |rest|] && rest[p].0 < n - 1;
        } else {
          var p', q' := p - |rest|, q - |rest|;
          assert r[p] == row[p'] && r[q] == row[q'] && row[p'].1 < row[q'].1;
        }
      }
    }
  }

  /** The first n rows emit every passing pair (i, j), j < i < n. */
  lemma {:induction false} PairsComplete(test: (nat, nat) -> bool, n: nat)
    ensures forall i, j :: 0 <= j < i < n && test(i, j) ==> (i, j) in Pairs(test, n)
  {
    if n > 0 {
      PairsComplete(test, n - 1);
      RowIsTheHits(test, n - 1, n - 1);
      var rest := Pairs(test, n - 1);
      var row := Row(test, n - 1, n - 1);
      assert Pairs(test, n) == rest + row;
      forall i, j | 0 <= j < i < n && test(i, j)
        ensures (i, j) in Pairs(test, n)
      {
        if i < n - 1 {
          assert (i, j) in rest;
        } else {
          assert (i, j) in row;
        }
      }
    }
  }

  /** The index pairs `collisionPairs` reports, in order. */
  function Reported(bp: Broadphase.Broadphase, bodies: seq<Body.Body>, env: Body.Env): seq<(nat, nat)>
  {
    Pairs(Test(bp, bodies, env), |bodies|)
  }

  /** Every pair `collisionPairs` reports is two different bodies, the
      earlier one second, that pass `needBroadphaseCollision` and the
      intersection test; every such pair is reported, and none twice. */
  lemma PairsAreExactlyTheHits(bp: Broadphase.Broadphase, bodies: seq<Body.Body>, env: Body.Env)
    requires AllAligned(bodies)
    ensures forall k :: 0 <= k < |Reported(bp, bodies, env)| ==>
      Reported(bp, bodies, env)[k].1 < Reported(bp, bodies, env)[k].0 < |bodies| &&
      Emits(bp, bodies, env, Reported(bp, bodies, env)[k].0, Reported(bp, bodies, env)[k].1)
    ensures forall p, q :: 0 <= p < q < |Reported(bp, bodies, env)| ==>
      Reported(bp, bodies, env)[p] != Reported(bp, bodies, env)[q]
    ensures forall i, j :: 0 <= j < i < |bodies| && Emits(bp, bodies, env, i, j) ==> (i, j) in Reported(bp, bodies, env)
  {
    var test := Test(bp, bodies, env);
    TestDecides(bp, bodies, env);
    PairsPass(test, |bodies|);
    PairsDistinct(test, |bodies|);
    PairsComplete(test, |bodies|);
  }

  /** The bodies at the first (side 0) or second (side 1) position of each
      pair. */
  function Side(bodies: seq<Body.Body>, pairs: seq<(nat, nat)>, side: nat): (r: seq<Body.Body>)
    requires side < 2
    requires forall k :: 0 <= k < |pairs| ==> pairs[k].0 < |bodies| && pairs[k].1 < |bodies|
    ensures |r| == |pairs|
    ensures forall k :: 0 <= k < |r| ==> r[k] == bodies[if side == 0 then pairs[k].0 else pairs[k].1]
  {
    seq(|pairs|, k requires 0 <= k < |pairs| => bodies[if side == 0 then pairs[k].0 else pairs[k].1])
  }

  lemma SideAppend(bodies: seq<Body.Body>, a: seq<(nat, nat)>, b: seq<(nat, nat)>, side: nat)
    requires side < 2
    requires forall k :: 0 <= k < |a| ==> a[k].0 < |bodies| && a[k].1 < |bodies|
    requires forall k :: 0 <= k < |b| ==> b[k].0 < |bodies| && b[k].1 < |bodies|
    ensures Side(bodies, a + b, side) == Side(bodies, a, side) + Side(bodies, b, side)
  {
  }

  /** `test` decides, for every pair of positions, whether the pair emits.
      The link is only drawn where `Emits` is mentioned, so that the loops
      below reason about `test` without unfolding the filter. */
  predicate Decides(test: (nat, nat) -> bool, bp: Broadphase.Broadphase, bodies: seq<Body.Body>, env: Body.Env)
  {
    AllAligned(bodies) &&
    forall i: nat, j: nat {:trigger Emits(bp, bodies, env, i, j)} ::
      i < |bodies| && j < |bodies| ==> (test(i, j) <==> Emits(bp, bodies, env, i, j))
  }

  lemma TestDecides(bp: Broadphase.Broadphase, bodies: seq<Body.Body>, env: Body.Env)
    requires AllAligned(bodies)
    ensures Decides(Test(bp, bodies, env), bp, bodies, env)
  {
  }

  /** One step of the inner loop: trying (i, j) adds bodies[i] and
      bodies[j] to the two sides exactly when the pair passes. */
  lemma SideStep(bodies: seq<Body.Body>, test: (nat, nat) -> bool, i: nat, j: nat)
    requires j < i < |bodies|
    ensures Side(bodies, Row(test, i, j + 1), 0) == Side(bodies, Row(test, i, j), 0) + (if test(i, j) then [bodies[i]] else [])
    ensures Side(bodies, Row(test, i, j + 1), 1) == Side(bodies, Row(test, i, j), 1) + (if test(i, j) then [bodies[j]] else [])
  {
    var row := Row(test, i, j);
    var emitted := if test(i, j) then [(i, j)] else [];
    assert Row(test, i, j + 1) == row + emitted;
    SideAppend(bodies, row, emitted, 0);
    SideAppend(bodies, row, emitted, 1);
  }

  /** The inner loop's body: the pair is pushed onto both lists when it
      passes the filter and then the intersection test. */
  method TryPair(bp: Broadphase.Broadphase, bodies: seq<Body.Body>, i: nat, j: nat, pairs1: seq<Body.Body>, pairs2: seq<Body.Body>, env: Body.Env,
                 ghost test: (nat, nat) -> bool)
    returns (p1: seq<Body.Body>, p2: seq<Body.Body>)
    requires Decides(test, bp, bodies, env) && i < |bodies| && j < |bodies|
    ensures p1 == pairs1 + (if test(i, j) then [bodies[i]] else [])
    ensures p2 == pairs2 + (if test(i, j) then [bodies[j]] else [])
  {
    assert test(i, j) == Emits(bp, bodies, env, i, j);
    p1, p2 := pairs1, pairs2;
    var bi, bj := bodies[i], bodies[j];
    if Broadphase.NeedBroadphaseCollision(bi, bj) {
      var pushed := Broadphase.IntersectionTest(bp, bi, bj, p1, p2, env);
      Broadphase.IntersectionTestPushesPairs(bp, bi, bj, p1, p2, env);
      p1, p2 := pushed.0, pushed.1;
    }
  }

  /** Row i of `collisionPairs`: every j < i in turn. */
  method ScanRow(bp: Broadphase.Broadphase, bodies: seq<Body.Body>, i: nat, pairs1: seq<Body.Body>, pairs2: seq<Body.Body>, env: Body.Env,
                 ghost test: (nat, nat) -> bool)
    returns (p1: seq<Body.Body>, p2: seq<Body.Body>)
    requires Decides(test, bp, bodies, env) && i < |bodies|
    ensures p1 == pairs1 + Side(bodies, Row(test, i, i), 0)
    ensures p2 == pairs2 + Side(bodies, Row(test, i, i), 1)
  {
    p1, p2 := pairs1, pairs2;
    var j := 0;
    while j != i
      invariant 0 <= j <= i
      invariant p1 == pairs1 + Side(bodies, Row(test, i, j), 0)
      invariant p2 == pairs2 + Side(bodies, Row(test, i, j), 1)
    {
      SideStep(bodies, test, i, j);
      p1, p2 := TryPair(bp, bodies, i, j, p1, p2, env, test);
      j := j + 1;
    }
  }

  /** The outer loop of `collisionPairs`, row by row. */
  method ScanRows(bp: Broadphase.Broadphase, bodies: seq<Body.Body>, pairs1: seq<Body.Body>, pairs2: seq<Body.Body>, env: Body.Env,
                  ghost test: (nat, nat) -> bool)
    returns (p1: seq<Body.Body>, p2: seq<Body.Body>)
    requires Decides(test, bp, bodies, env)
    ensures p1 == pairs1 + Side(bodies, Pairs(test, |bodies|), 0)
    ensures p2 == pairs2 + Side(bodies, Pairs(test, |bodies|), 1)
  {
    p1, p2 := pairs1, pairs2;
    var n := |bodies|;
    var i := 0;
    while i != n
      invariant 0 <= i <= n
      invariant p1 == pairs1 + Side(bodies, Pairs(test, i), 0)
      invariant p2 == pairs2 + Side(bodies, Pairs(test, i), 1)
    {
      RowsStep(bodies, test, i);
      p1, p2 := ScanRow(bp, bodies, i, p1, p2, env, test);
      i := i + 1;
    }
  }

  /** One step of the outer loop: row i adds its pairs to both sides. */
  lemma RowsStep(bodies: seq<Body.Body>, test: (nat, nat) -> bool, i: nat)
    requires i < |bodies|
    ensures forall pre: seq<Body.Body> :: (pre + Side(bodies, Pairs(test, i + 1), 0) ==
      pre + Side(bodies, Pairs(test, i), 0) + Side(bodies, Row(test, i, i), 0))
    ensures forall pre: seq<Body.Body> :: (pre + Side(bodies, Pairs(test, i + 1), 1) ==
      pre + Side(bodies, Pairs(test, i), 1) + Side(bodies, Row(test, i, i), 1))
  {
    var done := Pairs(test, i);
    var row := Row(test, i, i);
    assert Pairs(test, i + 1) == done + row;
    SideAppend(bodies, done, row, 0);
    SideAppend(bodies, done, row, 1);
  }

  /** `collisionPairs`: for each i and each j < i, the pair passes the
      filter and then the intersection test, and is pushed onto both lists.
      The lists grow by the same pairs, in loop order (which pairs those are
      is `PairsAreExactlyTheHits`). */
  method CollisionPairs(bp: Broadphase.Broadphase, bodies: seq<Body.Body>, pairs1: seq<Body.Body>, pairs2: seq<Body.Body>, env: Body.Env)
    returns (p1: seq<Body.Body>, p2: seq<Body.Body>)
    requires AllAligned(bodies)
    ensures p1 == pairs1 + Side(bodies, Reported(bp, bodies, env), 0)
    ensures p2 == pairs2 + Side(bodies, Reported(bp, bodies, env), 1)
    ensures |p1| - |p2| == |pairs1| - |pairs2|
  {
    TestDecides(bp, bodies, env);
    p1, p2 := ScanRows(bp, bodies, pairs1, pairs2, env, Test(bp, bodies, env));
  }

  /** `aabbQuery`: appends, in world order, every body whose fresh bounds
      overlap the query, and returns the list. */
  method AabbQuery(bodies: seq<Body.Body>, q: Aabb, result0: seq<Body.Body>, env: Body.Env) returns (result: seq<Body.Body>)
    requires AllAligned(bodies)
    ensures result == result0 + Broadphase.Overlapping(bodies, q, env)
  {
    result := result0;
    var i := 0;
    while i < |bodies|
      invariant 0 <= i <= |bodies|
      invariant result == result0 + Broadphase.Overlapping(bodies[..i], q, env)
    {
      var b := bodies[i];
      assert bodies[..i + 1][..i] == bodies[..i];
      var box := if b.aabbNeedsUpdate then Body.UpdateAabb(b, env).aabb else b.aabb;
      if env.ops.overlaps(box, q) {
        result := result + [b];
      }
      i := i + 1;
    }
    assert bodies[..i] == bodies;
  }
}
