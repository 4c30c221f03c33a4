/** The sweep-and-prune broadphase: the world's bodies kept in a list
    sorted by the lower bound of their bounds on one axis, and scanned in
    that order.

    The list holds the bodies by their positions in the world's body list,
    so the bodies themselves are passed alongside. Bounds flagged stale are
    read fresh (`Broadphase.Fresh`); the source also writes them back, which
    only caches them. */
module SapBroadphase {
  import opened Vectors
  import opened Wrappers
  import Body
  import Broadphase
  import NaiveBroadphase

  datatype Sap = Sap(base: Broadphase.Broadphase, axisList: seq<nat>, axisIndex: int)

  /** Every entry of the list names one of the n bodies. */
  predicate Names(list: seq<nat>, n: nat)
  {
    forall k :: 0 <= k < |list| ==> list[k] < n
  }

  /** The bodies in list order. */
  function Listed(bodies: seq<Body.Body>, list: seq<nat>): (r: seq<Body.Body>)
    requires Names(list, |bodies|)
    ensures |r| == |list|
    ensures forall k :: 0 <= k < |r| ==> r[k] == bodies[list[k]]
  {
    seq(|list|, k requires 0 <= k < |list| => bodies[list[k]])
  }

  /** `init`: the base broadphase, an empty list and axis 0; given a world
      of n bodies, `setWorld` follows. */
  function Init(world: Option<nat>): (s: Sap)
    ensures s.axisIndex == 0 && !s.base.useBoundingBoxes && s.base.dirty
    ensures world.None? ==> s.axisList == []
    ensures world.Some? ==> |s.axisList| == world.value && forall k :: 0 <= k < world.value ==> s.axisList[k] == k
  {
    var s := Sap(Broadphase.Init(), [], 0);
    if world.Some? then SetWorld(s, world.value) else s
  }

  /** `setWorld`: the list becomes the world's n bodies in world order, and
      the list is flagged dirty. */
  function SetWorld(s: Sap, n: nat): (r: Sap)
    ensures |r.axisList| == n && forall k :: 0 <= k < n ==> r.axisList[k] == k
    ensures Names(r.axisList, n)
    ensures r.base.dirty && r.base.useBoundingBoxes == s.base.useBoundingBoxes && r.axisIndex == s.axisIndex
  {
    s.(base := s.base.(dirty := true), axisList := seq(n, k => k))
  }

  // The insertion sort, over any key.

  predicate SortedBy(s: seq<nat>, key: nat -> real)
  {
    forall p, q :: 0 <= p < q < |s| ==> key(s[p]) <= key(s[q])
  }

  /** The entries of `s` whose key is c, in order. */
  function WithKey(s: seq<nat>, key: nat -> real, c: real): (r: seq<nat>)
    ensures |r| <= |s|
  {
    if |s| == 0 then []
    else WithKey(s[..|s| - 1], key, c) + (if key(s[|s| - 1]) == c then [s[|s| - 1]] else [])
  }

  lemma {:induction false} WithKeyAppend(a: seq<nat>, b: seq<nat>, key: nat -> real, c: real)
    ensures WithKey(a + b, key, c) == WithKey(a, key, c) + WithKey(b, key, c)
  {
    if |b| == 0 {
      assert a + b == a;
    } else {
      var b' := b[..|b| - 1];
      assert (a + b)[..|a + b| - 1] == a + b';
      WithKeyAppend(a, b', key, c);
    }
  }

  /** The inner loop of `insertionSortX/Y/Z`: v moves left past every entry
      with a greater key and stops behind the first whose key is not
      greater. */
  function Insert(s: seq<nat>, v: nat, key: nat -> real): (r: seq<nat>)
    ensures |r| == |s| + 1
    ensures multiset(r) == multiset(s) + multiset{v}
  {
    if |s| == 0 then [v]
    else if key(s[|s| - 1]) <= key(v) then s + [v]
    else
      var init := s[..|s| - 1];
      assert s == init + [s[|s| - 1]];
      Insert(init, v, key) + [s[|s| - 1]]
  }

  /** Inserting into a sorted list keeps it sorted. */
  lemma {:induction false} InsertSorted(s: seq<nat>, v: nat, key: nat -> real)
    requires SortedBy(s, key)
    ensures SortedBy(Insert(s, v, key), key)
  {
    if |s| > 0 && key(v) < key(s[|s| - 1]) {
      var init := s[..|s| - 1];
      var last := s[|s| - 1];
      InsertSorted(init, v, key);
      var r0 := Insert(init, v, key);
      forall k | 0 <= k < |r0|
        ensures key(r0[k]) <= key(last)
      {
        assert r0[k] in multiset(r0);
        assert r0[k] in multiset(init) + multiset{v};
        if r0[k] != v {
          assert r0[k] in init;
        }
      }
    }
  }

  lemma WithKeyOne(v: nat, key: nat -> real, c: real)
    ensures WithKey([v], key, c) == if key(v) == c then [v] else []
  {
    assert [v][..0] == [];
  }

  /** Moving v past an entry whose key is not c leaves the filter for c
      as it was. */
  lemma SwapPastSame(r0: seq<nat>, init: seq<nat>, v: nat, last: nat, key: nat -> real, c: real)
    requires key(last) != c
    requires WithKey(r0, key, c) == WithKey(init, key, c) + WithKey([v], key, c)
    ensures WithKey(r0 + [last], key, c) == WithKey(init + [last], key, c) + WithKey([v], key, c)
  {
    WithKeyAppend(r0, [last], key, c);
    WithKeyAppend(init, [last], key, c);
    WithKeyOne(last, key, c);
  }

  /** Moving v, whose key is not c, past another entry leaves the filter
      for c as it was. */
  lemma SwapPastOther(r0: seq<nat>, init: seq<nat>, v: nat, last: nat, key: nat -> real, c: real)
    requires key(v) != c
    requires WithKey(r0, key, c) == WithKey(init, key, c) + WithKey([v], key, c)
    ensures WithKey(r0 + [last], key, c) == WithKey(init + [last], key, c) + WithKey([v], key, c)
  {
    WithKeyAppend(r0, [last], key, c);
    WithKeyAppend(init, [last], key, c);
    WithKeyOne(v, key, c);
    assert WithKey(r0, key, c) == WithKey(init, key, c);
  }

  /** Insertion keeps entries with equal keys in their order: v lands
      behind every entry with its key. */
  lemma {:induction false} InsertStable(s: seq<nat>, v: nat, key: nat -> real, c: real)
    ensures WithKey(Insert(s, v, key), key, c) == WithKey(s, key, c) + WithKey([v], key, c)
  {
    if |s| == 0 {
      assert Insert(s, v, key) == [v];
    } else if key(s[|s| - 1]) <= key(v) {
      WithKeyAppend(s, [v], key, c);
    } else {
      var init := s[..|s| - 1];
      var last := s[|s| - 1];
      InsertStable(init, v, key, c);
      assert s == init + [last];
      if key(v) == c {
        SwapPastSame(Insert(init, v, key), init, v, last, key, c);
      } else {
        SwapPastOther(Insert(init, v, key), init, v, last, key, c);
      }
    }
  }

  /** One round of the outer loop: the sorted prefix takes in the next
      entry. */
  lemma InsertStep(p: seq<nat>, q: seq<nat>, v: nat, key: nat -> real)
    requires SortedBy(p, key) && multiset(p) == multiset(q)
    requires forall c :: WithKey(p, key, c) == WithKey(q, key, c)
    ensures SortedBy(Insert(p, v, key), key)
    ensures multiset(Insert(p, v, key)) == multiset(q + [v])
    ensures forall c :: WithKey(Insert(p, v, key), key, c) == WithKey(q + [v], key, c)
  {
    InsertSorted(p, v, key);
    forall c
      ensures WithKey(Insert(p, v, key), key, c) == WithKey(q + [v], key, c)
    {
      InsertStable(p, v, key, c);
      WithKeyAppend(q, [v], key, c);
    }
  }

  lemma Splice(p: seq<nat>, q: seq<nat>)
    ensures (p + q)[..|p|] == p && (p + q)[|p|..] == q
  {
  }

  /** `insertionSortX/Y/Z` on one key: a sorted permutation in which entries
      with equal keys keep their order. */
  method InsertionSort(a: seq<nat>, key: nat -> real) returns (r: seq<nat>)
    ensures SortedBy(r, key)
    ensures multiset(r) == multiset(a)
    ensures forall c :: WithKey(r, key, c) == WithKey(a, key, c)
  {
    r := a;
    if |a| == 0 {
      return;
    }
    var i := 1;
    while i < |a|
      invariant 1 <= i <= |a| && |r| == |a|
      invariant r[i..] == a[i..]
      invariant SortedBy(r[..i], key)
      invariant multiset(r[..i]) == multiset(a[..i])
      invariant forall c :: WithKey(r[..i], key, c) == WithKey(a[..i], key, c)
    {
      var v := r[i];
      assert a[..i + 1] == a[..i] + [v];
      InsertStep(r[..i], a[..i], v, key);
      var moved, rest := Insert(r[..i], v, key), r[i + 1..];
      assert rest == a[i + 1..];
      r := moved + rest;
      Splice(moved, rest);
      i := i + 1;
    }
    assert r[..i] == r && a[..i] == a;
  }

  // Keys and bounds on an axis.

  /** The coordinate of v on axis 0, 1 or 2. */
  function Coord(v: Vec3, axis: int): real
    requires 0 <= axis <= 2
  {
    if axis == 0 then v.x else if axis == 1 then v.y else v.z
  }

  /** The sort key of the body at world position k: the lower bound of its
      fresh bounds on the axis. */
  function AxisKey(bodies: seq<Body.Body>, env: Body.Env, axis: int): nat -> real
    requires NaiveBroadphase.AllAligned(bodies) && 0 <= axis <= 2
  {
    (k: nat) => if k < |bodies| then Coord(Broadphase.Fresh(bodies[k], env).lower, axis) else 0.0
  }

  /** `sortList`: sorts the list by the lower bound on the current axis; an
      axis other than 0, 1 or 2 leaves the list as it is. */
  method SortList(s: Sap, bodies: seq<Body.Body>, env: Body.Env) returns (r: Sap)
    requires NaiveBroadphase.AllAligned(bodies) && Names(s.axisList, |bodies|)
    ensures r.base == s.base && r.axisIndex == s.axisIndex
    ensures Names(r.axisList, |bodies|) && multiset(r.axisList) == multiset(s.axisList)
    ensures 0 <= s.axisIndex <= 2 ==> SortedBy(r.axisList, AxisKey(bodies, env, s.axisIndex))
    ensures 0 <= s.axisIndex <= 2 ==> forall c :: WithKey(r.axisList, AxisKey(bodies, env, s.axisIndex), c) == WithKey(s.axisList, AxisKey(bodies, env, s.axisIndex), c)
    ensures !(0 <= s.axisIndex <= 2) ==> r == s
  {
    r := s;
    if 0 <= s.axisIndex <= 2 {
      var sorted := InsertionSort(s.axisList, AxisKey(bodies, env, s.axisIndex));
      forall k | 0 <= k < |sorted|
        ensures sorted[k] < |bodies|
      {
        assert sorted[k] in multiset(s.axisList);
      }
      r := s.(axisList := sorted);
    }
  }

  /** `checkBounds`: on axis 0, 1 or 2, the lower end of j's bounding
      sphere lies below the upper end of i's. On any other axis both
      positions are undefined, the comparison is with NaN, and the answer
      is false. */
  function CheckBounds(bi: Body.Body, bj: Body.Body, axis: int): (r: bool)
    ensures !(0 <= axis <= 2) ==> !r
    ensures 0 <= axis <= 2 ==>
      (r <==> Coord(bj.position, axis) - bj.boundingRadius < Coord(bi.position, axis) + bi.boundingRadius)
  {
    if 0 <= axis <= 2 then
      var boundA2 := Coord(bi.position, axis) + bi.boundingRadius;
      var boundB1 := Coord(bj.position, axis) - bj.boundingRadius;
      boundB1 < boundA2
    else false
  }

  lemma SquareBelow(x: real, y: real)
    requires 0.0 <= y && x * x < y * y
    ensures x < y
  {
    assert x * x - y * y == (x - y) * (x + y);
  }

  /** The prune is safe for the sphere test: two bodies whose bounding
      spheres overlap pass `checkBounds` on every axis, in either order. */
  lemma SpheresOverlapPassCheckBounds(bi: Body.Body, bj: Body.Body, axis: int)
    requires 0.0 <= bi.boundingRadius && 0.0 <= bj.boundingRadius
    requires Broadphase.SpheresOverlap(bi, bj) && 0 <= axis <= 2
    ensures CheckBounds(bi, bj, axis) && CheckBounds(bj, bi, axis)
  {
    var d := Sub(bj.position, bi.position);
    var sum := bi.boundingRadius + bj.boundingRadius;
    var da := Coord(d, axis);
    assert da * da <= NormSq(d);
    SquareBelow(da, sum);
    SquareBelow(-da, sum);
  }

  // Choosing the axis.

  /** The sum of the first n entries. */
  function Sum(xs: seq<real>, n: nat): real
    requires n <= |xs|
  {
    if n == 0 then 0.0 else Sum(xs, n - 1) + xs[n - 1]
  }

  /** The sum of the squares of the first n entries. */
  function SumSq(xs: seq<real>, n: nat): real
    requires n <= |xs|
  {
    if n == 0 then 0.0 else SumSq(xs, n - 1) + xs[n - 1] * xs[n - 1]
  }

  /** The source's form of the spread, with the reciprocal of n. */
  lemma SpreadFromSums(xs: seq<real>, sum: real, sumSq: real, invN: real)
    requires |xs| > 0 && sum == Sum(xs, |xs|) && sumSq == SumSq(xs, |xs|) && invN == 1.0 / (|xs| as real)
    ensures sumSq - sum * sum * invN == Spread(xs)
  {
    var n := |xs| as real;
    var t := sum * sum;
    assert t * (1.0 / n) == t / n;
  }

  /** The branch on the three spreads: an axis whose spread is at least
      that of both others. */
  function ChooseAxis(vx: real, vy: real, vz: real): (axis: int)
    ensures 0 <= axis <= 2
    ensures axis == 0 ==> vx >= vy && vx >= vz
    ensures axis == 1 ==> vy >= vx && vy >= vz
    ensures axis == 2 ==> vz >= vx && vz >= vy
  {
    if vx > vy then (if vx > vz then 0 else 2)
    else if vy > vz then 1
    else 2
  }

  /** n times the variance: the sum of squares less the squared sum over n. */
  function Spread(xs: seq<real>): real
    requires |xs| > 0
  {
    SumSq(xs, |xs|) - Sum(xs, |xs|) * Sum(xs, |xs|) / (|xs| as real)
  }

  /** The positions of the listed bodies on one axis. */
  function Centres(bodies: seq<Body.Body>, list: seq<nat>, axis: int): (r: seq<real>)
    requires Names(list, |bodies|) && 0 <= axis <= 2
    ensures |r| == |list|
    ensures forall k :: 0 <= k < |list| ==> r[k] == Coord(bodies[list[k]].position, axis)
  {
    seq(|list|, k requires 0 <= k < |list| => Coord(bodies[list[k]].position, axis))
  }

  /** The loop of `autoDetectAxis`: the sums and sums of squares of the
      positions on each axis. */
  method SumPositions(bodies: seq<Body.Body>, list: seq<nat>)
    returns (sumX: real, sumX2: real, sumY: real, sumY2: real, sumZ: real, sumZ2: real)
    requires Names(list, |bodies|)
    ensures sumX == Sum(Centres(bodies, list, 0), |list|) && sumX2 == SumSq(Centres(bodies, list, 0), |list|)
    ensures sumY == Sum(Centres(bodies, list, 1), |list|) && sumY2 == SumSq(Centres(bodies, list, 1), |list|)
    ensures sumZ == Sum(Centres(bodies, list, 2), |list|) && sumZ2 == SumSq(Centres(bodies, list, 2), |list|)
  {
    ghost var xs, ys, zs := Centres(bodies, list, 0), Centres(bodies, list, 1), Centres(bodies, list, 2);
    sumX, sumX2, sumY, sumY2, sumZ, sumZ2 := 0.0, 0.0, 0.0, 0.0, 0.0, 0.0;
    var i := 0;
    while i != |list|
      invariant 0 <= i <= |list|
      invariant sumX == Sum(xs, i) && sumX2 == SumSq(xs, i)
      invariant sumY == Sum(ys, i) && sumY2 == SumSq(ys, i)
      invariant sumZ == Sum(zs, i) && sumZ2 == SumSq(zs, i)
    {
      var p := bodies[list[i]].position;
      assert xs[i] == p.x && ys[i] == p.y && zs[i] == p.z;
      sumX, sumX2 := sumX + p.x, sumX2 + p.x * p.x;
      sumY, sumY2 := sumY + p.y, sumY2 + p.y * p.y;
      sumZ, sumZ2 := sumZ + p.z, sumZ2 + p.z * p.z;
      i := i + 1;
    }
  }

  /** `autoDetectAxis`: the axis along which the body positions spread the
      most. With no bodies, 1/N is infinite, every spread is NaN, every
      comparison fails, and the axis is 2. */
  method AutoDetectAxis(s: Sap, bodies: seq<Body.Body>) returns (r: Sap)
    requires Names(s.axisList, |bodies|)
    ensures r.base == s.base && r.axisList == s.axisList
    ensures 0 <= r.axisIndex <= 2
    ensures |s.axisList| == 0 ==> r.axisIndex == 2
    ensures |s.axisList| > 0 ==> forall a :: 0 <= a <= 2 ==>
      Spread(Centres(bodies, s.axisList, a)) <= Spread(Centres(bodies, s.axisList, r.axisIndex))
  {
    var list := s.axisList;
    var n := |list|;
    if n == 0 {
      return s.(axisIndex := 2);
    }
    var sumX, sumX2, sumY, sumY2, sumZ, sumZ2 := SumPositions(bodies, list);
    var invN := 1.0 / (n as real);
    var varianceX := sumX2 - sumX * sumX * invN;
    var varianceY := sumY2 - sumY * sumY * invN;
    var varianceZ := sumZ2 - sumZ * sumZ * invN;
    SpreadFromSums(Centres(bodies, list, 0), sumX, sumX2, invN);
    SpreadFromSums(Centres(bodies, list, 1), sumY, sumY2, invN);
    SpreadFromSums(Centres(bodies, list, 2), sumZ, sumZ2, invN);
    var axis := ChooseAxis(varianceX, varianceY, varianceZ);
    r := s.(axisIndex := axis);
  }

}

module SapScan {
  import opened Vectors
  import opened Wrappers
  import Body
  import Broadphase
  import NaiveBroadphase
  import SapBroadphase

  /** The three tests `collisionPairs` applies to the listed bodies at
      positions i and j: the filter, `checkBounds`, the intersection
      test. */
  datatype Tests = Tests(need: (nat, nat) -> bool, bound: (nat, nat) -> bool, hit: (nat, nat) -> bool)

  /** Row i, from position j on: j moves right over the bodies the filter
      rejects, stops at the first accepted body that fails `checkBounds`,
      and emits (i, j) for each accepted body that passes both other
      tests. */
  function Row(t: Tests, i: nat, j: nat, n: nat): (r: seq<(nat, nat)>)
    ensures forall k :: 0 <= k < |r| ==> r[k].0 == i && j <= r[k].1 < n
    decreases n - j
  {
    if j >= n then []
    else if !t.need(i, j) then Row(t, i, j + 1, n)
    else if !t.bound(i, j) then []
    else (if t.hit(i, j) then [(i, j)] else []) + Row(t, i, j + 1, n)
  }

  /** Where row i's scan from j ends: at the first accepted body that
      fails `checkBounds`, or at the end of the list. */
  function Stop(t: Tests, i: nat, j: nat, n: nat): (stop: nat)
    ensures j <= n ==> j <= stop <= n
    ensures n <= j ==> stop == j
    ensures stop < n ==> t.need(i, stop) && !t.bound(i, stop)
    decreases n - j
  {
    if j >= n then j
    else if t.need(i, j) && !t.bound(i, j) then j
    else Stop(t, i, j + 1, n)
  }

  lemma InConcat(x: (nat, nat), p: seq<(nat, nat)>, q: seq<(nat, nat)>)
    ensures x in p + q <==> x in p || x in q
  {
  }

  /** What row i emits from position j on lies in row i, at j or after. */
  lemma InRowBounds(t: Tests, i: nat, j: nat, n: nat, a: nat, b: nat)
    requires (a, b) in Row(t, i, j, n)
    ensures a == i && j <= b < n
  {
    var r := Row(t, i, j, n);
    var m :| 0 <= m < |r| && r[m] == (a, b);
  }

  /** Row i emits (i, k) exactly when k lies between j and the stop and
      passes the filter and the intersection test; if k is accepted and
      before the stop, it passes `checkBounds`. */
  lemma {:induction false} RowHitBeforeStop(t: Tests, i: nat, j: nat, n: nat, k: nat)
    requires j <= n
    ensures j <= k < Stop(t, i, j, n) && t.need(i, k) ==> t.bound(i, k)
    ensures (i, k) in Row(t, i, j, n) <==> j <= k < Stop(t, i, j, n) && t.need(i, k) && t.hit(i, k)
    decreases n - j
  {
    if j < n && !(t.need(i, j) && !t.bound(i, j)) {
      RowHitBeforeStop(t, i, j + 1, n, k);
      var rest := Row(t, i, j + 1, n);
      assert Stop(t, i, j, n) == Stop(t, i, j + 1, n);
      if (i, k) in rest {
        InRowBounds(t, i, j + 1, n, i, k);
      }
      if t.need(i, j) {
        var e := if t.hit(i, j) then [(i, j)] else [];
        assert Row(t, i, j, n) == e + rest;
        InConcat((i, k), e, rest);
      } else {
        assert Row(t, i, j, n) == rest;
      }
    }
  }

  /** The first n rows, in loop order. */
  function Pairs(t: Tests, n: nat, rows: nat): (r: seq<(nat, nat)>)
    requires rows <= n
    ensures forall k :: 0 <= k < |r| ==> r[k].0 < r[k].1 < n
  {
    if rows == 0 then [] else Pairs(t, n, rows - 1) + Row(t, rows - 1, rows, n)
  }

  /** The tests as read off the listed bodies L. */
  function Of(bp: Broadphase.Broadphase, L: seq<Body.Body>, env: Body.Env, axis: int): Tests
  {
    Tests(
      (i: nat, j: nat) => i < |L| && j < |L| && Broadphase.NeedBroadphaseCollision(L[i], L[j]),
      (i: nat, j: nat) => i < |L| && j < |L| && SapBroadphase.CheckBounds(L[i], L[j], axis),
      (i: nat, j: nat) => NaiveBroadphase.AllAligned(L) && i < |L| && j < |L| && Broadphase.Hit(bp, L[i], L[j], env))
  }

  /** `t` agrees with the three tests on the listed bodies. The link is
      drawn only where a test is mentioned, so that the loops reason about
      `t` alone. */
  predicate Decides(t: Tests, bp: Broadphase.Broadphase, L: seq<Body.Body>, env: Body.Env, axis: int)
  {
    NaiveBroadphase.AllAligned(L) &&
    (forall i: nat, j: nat {:trigger Broadphase.NeedBroadphaseCollision(L[i], L[j])} ::
      i < |L| && j < |L| ==> (t.need(i, j) <==> Broadphase.NeedBroadphaseCollision(L[i], L[j]))) &&
    (forall i: nat, j: nat {:trigger SapBroadphase.CheckBounds(L[i], L[j], axis)} ::
      i < |L| && j < |L| ==> (t.bound(i, j) <==> SapBroadphase.CheckBounds(L[i], L[j], axis))) &&
    (forall i: nat, j: nat {:trigger Broadphase.Hit(bp, L[i], L[j], env)} ::
      i < |L| && j < |L| ==> (t.hit(i, j) <==> Broadphase.Hit(bp, L[i], L[j], env)))
  }

  lemma OfDecides(bp: Broadphase.Broadphase, L: seq<Body.Body>, env: Body.Env, axis: int)
    requires NaiveBroadphase.AllAligned(L)
    ensures Decides(Of(bp, L, env, axis), bp, L, env, axis)
  {
  }

  /** One step of the inner loop: a rejected pair is skipped; an accepted
      pair that fails `checkBounds` ends the row; otherwise the
      intersection test pushes the pair when it hits. */
  method TryPair(bp: Broadphase.Broadphase, L: seq<Body.Body>, i: nat, j: nat, pairs1: seq<Body.Body>, pairs2: seq<Body.Body>,
                 env: Body.Env, axis: int, ghost t: Tests)
    returns (p1: seq<Body.Body>, p2: seq<Body.Body>, stop: bool)
    requires Decides(t, bp, L, env, axis) && i < |L| && j < |L|
    ensures stop <==> t.need(i, j) && !t.bound(i, j)
    ensures p1 == pairs1 + (if t.need(i, j) && t.bound(i, j) && t.hit(i, j) then [L[i]] else [])
    ensures p2 == pairs2 + (if t.need(i, j) && t.bound(i, j) && t.hit(i, j) then [L[j]] else [])
  {
    p1, p2, stop := pairs1, pairs2, false;
    var bi, bj := L[i], L[j];
    if !Broadphase.NeedBroadphaseCollision(bi, bj) {
      return;
    }
    if !SapBroadphase.CheckBounds(bi, bj, axis) {
      stop := true;
      return;
    }
    var pushed := Broadphase.IntersectionTest(bp, bi, bj, p1, p2, env);
    Broadphase.IntersectionTestPushesPairs(bp, bi, bj, p1, p2, env);
    p1, p2 := pushed.0, pushed.1;
  }

  /** An accepted pair that passes `checkBounds` puts its hit, if any,
      in front of the rest of the row. */
  lemma RowEmit(L: seq<Body.Body>, t: Tests, i: nat, j: nat, side: nat)
    requires i < j < |L| && side < 2 && t.need(i, j) && t.bound(i, j)
    ensures NaiveBroadphase.Side(L, Row(t, i, j, |L|), side) ==
      (if t.hit(i, j) then [L[if side == 0 then i else j]] else []) + NaiveBroadphase.Side(L, Row(t, i, j + 1, |L|), side)
  {
    var e := if t.hit(i, j) then [(i, j)] else [];
    assert Row(t, i, j, |L|) == e + Row(t, i, j + 1, |L|);
    NaiveBroadphase.SideAppend(L, e, Row(t, i, j + 1, |L|), side);
  }

  lemma Regroup(a: seq<Body.Body>, b: seq<Body.Body>, c: seq<Body.Body>)
    ensures a + (b + c) == (a + b) + c
  {
  }

  /** The loop's account of row i stays balanced across a step that does
      not stop: what was pushed plus what remains is the whole row. */
  lemma Advance(L: seq<Body.Body>, t: Tests, i: nat, j: nat, side: nat, whole: seq<Body.Body>, q: seq<Body.Body>, p: seq<Body.Body>)
    requires i < j < |L| && side < 2
    requires !(t.need(i, j) && !t.bound(i, j))
    requires p == q + (if t.need(i, j) && t.bound(i, j) && t.hit(i, j) then [L[if side == 0 then i else j]] else [])
    requires whole == q + NaiveBroadphase.Side(L, Row(t, i, j, |L|), side)
    ensures whole == p + NaiveBroadphase.Side(L, Row(t, i, j + 1, |L|), side)
  {
    if t.need(i, j) {
      RowEmit(L, t, i, j, side);
      var rest := NaiveBroadphase.Side(L, Row(t, i, j + 1, |L|), side);
      var e := if t.hit(i, j) then [L[if side == 0 then i else j]] else [];
      Regroup(q, e, rest);
    } else {
      assert Row(t, i, j, |L|) == Row(t, i, j + 1, |L|);
    }
  }

  /** Row i of the corrected `collisionPairs`. */
  method ScanRow(bp: Broadphase.Broadphase, L: seq<Body.Body>, i: nat, pairs1: seq<Body.Body>, pairs2: seq<Body.Body>,
                 env: Body.Env, axis: int, ghost t: Tests)
    returns (p1: seq<Body.Body>, p2: seq<Body.Body>)
    requires Decides(t, bp, L, env, axis) && i < |L|
    ensures p1 == pairs1 + NaiveBroadphase.Side(L, Row(t, i, i + 1, |L|), 0)
    ensures p2 == pairs2 + NaiveBroadphase.Side(L, Row(t, i, i + 1, |L|), 1)
  {
    p1, p2 := pairs1, pairs2;
    var n := |L|;
    ghost var whole1, whole2 := pairs1 + NaiveBroadphase.Side(L, Row(t, i, i + 1, n), 0), pairs2 + NaiveBroadphase.Side(L, Row(t, i, i + 1, n), 1);
    var j := i + 1;
    while j < n
      invariant i + 1 <= j <= n
      invariant whole1 == p1 + NaiveBroadphase.Side(L, Row(t, i, j, n), 0)
      invariant whole2 == p2 + NaiveBroadphase.Side(L, Row(t, i, j, n), 1)
    {
      var stop;
      ghost var q1, q2 := p1, p2;
      p1, p2, stop := TryPair(bp, L, i, j, p1, p2, env, axis, t);
      if stop {
        RowStops(t, i, j, n);
        break;
      }
      Advance(L, t, i, j, 0, whole1, q1, p1);
      Advance(L, t, i, j, 1, whole2, q2, p2);
      j := j + 1;
    }
  }

  /** A row ends at an accepted body that fails `checkBounds`. */
  lemma RowStops(t: Tests, i: nat, j: nat, n: nat)
    requires j < n && t.need(i, j) && !t.bound(i, j)
    ensures Row(t, i, j, n) == []
  {
  }

  /** The loop over the rows of the corrected `collisionPairs`. */
  method ScanRows(bp: Broadphase.Broadphase, L: seq<Body.Body>, pairs1: seq<Body.Body>, pairs2: seq<Body.Body>,
                  env: Body.Env, axis: int, ghost t: Tests)
    returns (p1: seq<Body.Body>, p2: seq<Body.Body>)
    requires Decides(t, bp, L, env, axis)
    ensures p1 == pairs1 + NaiveBroadphase.Side(L, Pairs(t, |L|, |L|), 0)
    ensures p2 == pairs2 + NaiveBroadphase.Side(L, Pairs(t, |L|, |L|), 1)
  {
    p1, p2 := pairs1, pairs2;
    var n := |L|;
    var i := 0;
    while i != n
      invariant 0 <= i <= n
      invariant p1 == pairs1 + NaiveBroadphase.Side(L, Pairs(t, n, i), 0)
      invariant p2 == pairs2 + NaiveBroadphase.Side(L, Pairs(t, n, i), 1)
    {
      ghost var q1, q2 := p1, p2;
      p1, p2 := ScanRow(bp, L, i, p1, p2, env, axis, t);
      NaiveBroadphase.SideAppend(L, Pairs(t, n, i), Row(t, i, i + 1, n), 0);
      NaiveBroadphase.SideAppend(L, Pairs(t, n, i), Row(t, i, i + 1, n), 1);
      Regroup(pairs1, NaiveBroadphase.Side(L, Pairs(t, n, i), 0), NaiveBroadphase.Side(L, Row(t, i, i + 1, n), 0));
      Regroup(pairs2, NaiveBroadphase.Side(L, Pairs(t, n, i), 1), NaiveBroadphase.Side(L, Row(t, i, i + 1, n), 1));
      i := i + 1;
    }
  }


  /** Pair (a, b) is among the first rows exactly when its row is one of
      them and emits it. */
  lemma {:induction false} PairIsInItsRow(t: Tests, n: nat, rows: nat, a: nat, b: nat)
    requires rows <= n
    ensures (a, b) in Pairs(t, n, rows) <==> a < rows && (a, b) in Row(t, a, a + 1, n)
  {
    if rows > 0 {
      var r := rows - 1;
      var before, last := Pairs(t, n, r), Row(t, r, rows, n);
      PairIsInItsRow(t, n, r, a, b);
      assert Pairs(t, n, rows) == before + last;
      InConcat((a, b), before, last);
      if a == r {
        assert (a, b) !in before;
        assert last == Row(t, a, a + 1, n);
      } else {
        if (a, b) in last {
          InRowBounds(t, r, rows, n, a, b);
          assert false;
        }
        assert (a, b) in Pairs(t, n, rows) <==> (a, b) in before;
      }
    }
  }

  /** The scan reports (a, b) exactly when a < b, the filter accepts the
      pair, the intersection test hits, and b lies before row a's stop:
      the first body after a that the filter accepts and `checkBounds`
      rejects. */
  lemma PairsAreTheHitsBeforeStop(t: Tests, n: nat)
    ensures forall a: nat, b: nat :: (a, b) in Pairs(t, n, n) <==> a < b < Stop(t, a, a + 1, n) && t.need(a, b) && t.hit(a, b)
  {
    forall a: nat, b: nat
      ensures (a, b) in Pairs(t, n, n) <==> a < b < Stop(t, a, a + 1, n) && t.need(a, b) && t.hit(a, b)
    {
      PairIsInItsRow(t, n, n, a, b);
      if a < n {
        RowHitBeforeStop(t, a, a + 1, n, b);
      }
    }
  }

  /** The list is ordered by the lower ends of the bounding spheres on the
      axis. */
  predicate SphereOrdered(L: seq<Body.Body>, axis: int)
  {
    0 <= axis <= 2 &&
    forall p, q :: 0 <= p < q < |L| ==>
      SapBroadphase.Coord(L[p].position, axis) - L[p].boundingRadius <= SapBroadphase.Coord(L[q].position, axis) - L[q].boundingRadius
  }

  /** With the sphere test, non-negative radii and the list ordered by the
      spheres' lower ends, the early stop loses nothing: every accepted
      pair whose spheres overlap is reported. */
  lemma StopLosesNoSphereHit(bp: Broadphase.Broadphase, L: seq<Body.Body>, env: Body.Env, axis: int, a: nat, b: nat)
    requires NaiveBroadphase.AllAligned(L) && 0 <= axis <= 2 && !bp.useBoundingBoxes
    requires forall k :: 0 <= k < |L| ==> 0.0 <= L[k].boundingRadius
    requires SphereOrdered(L, axis)
    requires a < b < |L| && Broadphase.NeedBroadphaseCollision(L[a], L[b]) && Broadphase.SpheresOverlap(L[a], L[b])
    ensures (a, b) in Pairs(Of(bp, L, env, axis), |L|, |L|)
  {
    var t := Of(bp, L, env, axis);
    var n := |L|;
    SapBroadphase.SpheresOverlapPassCheckBounds(L[a], L[b], axis);
    forall k | a + 1 <= k <= b && t.need(a, k)
      ensures t.bound(a, k)
    {
      BoundHoldsBefore(L, axis, a, k, b);
    }
    StopPast(t, a, a + 1, n, b);
    assert t.need(a, b);
    assert Broadphase.Hit(bp, L[a], L[b], env);
    PairIsInItsRow(t, n, n, a, b);
    RowHitBeforeStop(t, a, a + 1, n, b);
  }

  /** In a list ordered by the spheres' lower ends, a body that passes
      `checkBounds` against body a has every body between them pass it
      too. */
  lemma BoundHoldsBefore(L: seq<Body.Body>, axis: int, a: nat, k: nat, b: nat)
    requires SphereOrdered(L, axis) && a < k <= b < |L|
    requires SapBroadphase.CheckBounds(L[a], L[b], axis)
    ensures SapBroadphase.CheckBounds(L[a], L[k], axis)
  {
    if k < b {
      assert SapBroadphase.Coord(L[k].position, axis) - L[k].boundingRadius <= SapBroadphase.Coord(L[b].position, axis) - L[b].boundingRadius;
    }
  }

  /** Row a's scan from j runs past b when every accepted body from j to b
      passes `checkBounds`. */
  lemma {:induction false} StopPast(t: Tests, a: nat, j: nat, n: nat, b: nat)
    requires j <= b < n
    requires forall k: nat :: j <= k <= b && t.need(a, k) ==> t.bound(a, k)
    ensures b < Stop(t, a, j, n)
    decreases b - j
  {
    assert Stop(t, a, j, n) == Stop(t, a, j + 1, n);
    if j < b {
      StopPast(t, a, j + 1, n, b);
    }
  }

  /** The sort that `collisionPairs` and `aabbQuery` do first, and only
      when the list is dirty; the flag is then cleared. */
  method Prepare(s: SapBroadphase.Sap, bodies: seq<Body.Body>, env: Body.Env) returns (r: SapBroadphase.Sap)
    requires NaiveBroadphase.AllAligned(bodies) && SapBroadphase.Names(s.axisList, |bodies|)
    ensures !r.base.dirty && r.base.useBoundingBoxes == s.base.useBoundingBoxes && r.axisIndex == s.axisIndex
    ensures SapBroadphase.Names(r.axisList, |bodies|) && multiset(r.axisList) == multiset(s.axisList)
    ensures !s.base.dirty ==> r == s
    ensures s.base.dirty && 0 <= s.axisIndex <= 2 ==>
      SapBroadphase.SortedBy(r.axisList, SapBroadphase.AxisKey(bodies, env, s.axisIndex))
    ensures !(0 <= s.axisIndex <= 2) ==> r.axisList == s.axisList
  {
    r := s;
    if s.base.dirty {
      r := SapBroadphase.SortList(s, bodies, env);
      r := r.(base := r.base.(dirty := false));
    }
  }

  /** `collisionPairs` with `checkBounds` called on the instance: after
      the sort, the listed bodies' pairs as the scan finds them are pushed,
      first bodies onto `pairs1` and second bodies onto `pairs2`. */
  method CollisionPairs(s: SapBroadphase.Sap, bodies: seq<Body.Body>, pairs1: seq<Body.Body>, pairs2: seq<Body.Body>, env: Body.Env)
    returns (r: SapBroadphase.Sap, p1: seq<Body.Body>, p2: seq<Body.Body>)
    requires NaiveBroadphase.AllAligned(bodies) && SapBroadphase.Names(s.axisList, |bodies|)
    ensures !r.base.dirty && r.base.useBoundingBoxes == s.base.useBoundingBoxes && r.axisIndex == s.axisIndex
    ensures SapBroadphase.Names(r.axisList, |bodies|) && multiset(r.axisList) == multiset(s.axisList)
    ensures !s.base.dirty ==> r == s
    ensures var L := SapBroadphase.Listed(bodies, r.axisList);
      p1 == pairs1 + NaiveBroadphase.Side(L, Pairs(Of(r.base, L, env, r.axisIndex), |L|, |L|), 0)
    ensures var L := SapBroadphase.Listed(bodies, r.axisList);
      p2 == pairs2 + NaiveBroadphase.Side(L, Pairs(Of(r.base, L, env, r.axisIndex), |L|, |L|), 1)
  {
    r := Prepare(s, bodies, env);
    var L := SapBroadphase.Listed(bodies, r.axisList);
    OfDecides(r.base, L, env, r.axisIndex);
    p1, p2 := ScanRows(r.base, L, pairs1, pairs2, env, r.axisIndex, Of(r.base, L, env, r.axisIndex));
  }

  /** The loop of `collisionPairs` as written, over any filter: the first
      pair (i, j), i < j, that the filter accepts reaches the static call
      `SAPBroadphase.checkBounds`, which is undefined, and throws. */
  method ScanUntilAccepted(n: nat, need: (nat, nat) -> bool) returns (thrown: bool)
    ensures thrown <==> exists a: nat, b: nat :: a < b < n && need(a, b)
  {
    var i := 0;
    while i != n
      invariant 0 <= i <= n
      invariant forall a: nat, b: nat :: a < i && a < b < n ==> !need(a, b)
    {
      var j := i + 1;
      while j < n
        invariant i + 1 <= j <= n
        invariant forall b: nat :: i < b < j ==> !need(i, b)
      {
        if need(i, j) {
          return true;
        }
        j := j + 1;
      }
      i := i + 1;
    }
    return false;
  }

  /** `need` is the filter on the listed bodies. */
  predicate FilterDecides(need: (nat, nat) -> bool, L: seq<Body.Body>)
  {
    forall i: nat, j: nat {:trigger Broadphase.NeedBroadphaseCollision(L[i], L[j])} ::
      i < |L| && j < |L| ==> (need(i, j) <==> Broadphase.NeedBroadphaseCollision(L[i], L[j]))
  }

  lemma FilterLink(need: (nat, nat) -> bool, L: seq<Body.Body>)
    requires FilterDecides(need, L)
    ensures (exists a: nat, b: nat :: a < b < |L| && need(a, b)) <==>
      (exists a: nat, b: nat :: a < b < |L| && Broadphase.NeedBroadphaseCollision(L[a], L[b]))
  {
    if exists a: nat, b: nat :: a < b < |L| && need(a, b) {
      var a: nat, b: nat :| a < b < |L| && need(a, b);
      assert Broadphase.NeedBroadphaseCollision(L[a], L[b]);
    }
    if exists a: nat, b: nat :: a < b < |L| && Broadphase.NeedBroadphaseCollision(L[a], L[b]) {
      var a: nat, b: nat :| a < b < |L| && Broadphase.NeedBroadphaseCollision(L[a], L[b]);
      assert need(a, b);
    }
  }

  /** `collisionPairs` as written: it sorts and clears the flag as usual,
      then throws a TypeError at the first pair the filter accepts, before
      any pair is pushed; only a list with no accepted pair gets through,
      and then nothing is pushed. */
  method CollisionPairsAsWritten(s: SapBroadphase.Sap, bodies: seq<Body.Body>, pairs1: seq<Body.Body>, pairs2: seq<Body.Body>, env: Body.Env)
    returns (r: SapBroadphase.Sap, out: Result<(seq<Body.Body>, seq<Body.Body>)>)
    requires NaiveBroadphase.AllAligned(bodies) && SapBroadphase.Names(s.axisList, |bodies|)
    ensures !r.base.dirty && r.base.useBoundingBoxes == s.base.useBoundingBoxes && r.axisIndex == s.axisIndex
    ensures SapBroadphase.Names(r.axisList, |bodies|) && multiset(r.axisList) == multiset(s.axisList)
    ensures var L := SapBroadphase.Listed(bodies, r.axisList);
      out.Err? <==> exists a: nat, b: nat :: a < b < |L| && Broadphase.NeedBroadphaseCollision(L[a], L[b])
    ensures out.Err? ==> out.error.TypeError?
    ensures out.Ok? ==> out.value == (pairs1, pairs2)
  {
    r := Prepare(s, bodies, env);
    var L := SapBroadphase.Listed(bodies, r.axisList);
    var need := (i: nat, j: nat) => i < |L| && j < |L| && Broadphase.NeedBroadphaseCollision(L[i], L[j]);
    var thrown := ScanUntilAccepted(|L|, need);
    FilterLink(need, L);
    if thrown {
      out := Err(TypeError("SAPBroadphase.checkBounds is not a function"));
    } else {
      out := Ok((pairs1, pairs2));
    }
  }

  /** `aabbQuery`: after the sort, appends the listed bodies whose fresh
      bounds overlap the query box, in list order. */
  method AabbQuery(s: SapBroadphase.Sap, bodies: seq<Body.Body>, q: Aabb, result0: seq<Body.Body>, env: Body.Env)
    returns (r: SapBroadphase.Sap, result: seq<Body.Body>)
    requires NaiveBroadphase.AllAligned(bodies) && SapBroadphase.Names(s.axisList, |bodies|)
    ensures !r.base.dirty && r.base.useBoundingBoxes == s.base.useBoundingBoxes && r.axisIndex == s.axisIndex
    ensures SapBroadphase.Names(r.axisList, |bodies|) && multiset(r.axisList) == multiset(s.axisList)
    ensures !s.base.dirty ==> r == s
    ensures result == result0 + Broadphase.Overlapping(SapBroadphase.Listed(bodies, r.axisList), q, env)
  {
    r := Prepare(s, bodies, env);
    result := QueryList(bodies, r.axisList, q, result0, env);
  }

  /** The loop of `aabbQuery` over the sorted list. */
  method QueryList(bodies: seq<Body.Body>, list: seq<nat>, q: Aabb, result0: seq<Body.Body>, env: Body.Env)
    returns (result: seq<Body.Body>)
    requires NaiveBroadphase.AllAligned(bodies) && SapBroadphase.Names(list, |bodies|)
    ensures result == result0 + Broadphase.Overlapping(SapBroadphase.Listed(bodies, list), q, env)
  {
    var L := SapBroadphase.Listed(bodies, list);
    result := result0;
    var i := 0;
    while i < |list|
      invariant 0 <= i <= |L|
      invariant result == result0 + Broadphase.Overlapping(L[..i], q, env)
    {
      var b := bodies[list[i]];
      var box := if b.aabbNeedsUpdate then Body.UpdateAabb(b, env).aabb else b.aabb;
      OverlappingStep(L, i, q, env);
      assert b == L[i] && box == Broadphase.Fresh(b, env);
      ghost var before := Broadphase.Overlapping(L[..i], q, env);
      if env.ops.overlaps(box, q) {
        result := result + [b];
        Regroup(result0, before, [b]);
      } else {
        assert before + [] == before;
      }
      i := i + 1;
    }
    assert L[..i] == L;
  }

  /** The overlapping bodies of one more list entry: the entry is appended
      when its fresh bounds overlap the query. */
  lemma OverlappingStep(L: seq<Body.Body>, i: nat, q: Aabb, env: Body.Env)
    requires NaiveBroadphase.AllAligned(L) && i < |L|
    ensures Broadphase.Overlapping(L[..i + 1], q, env) ==
      Broadphase.Overlapping(L[..i], q, env) + (if env.ops.overlaps(Broadphase.Fresh(L[i], env), q) then [L[i]] else [])
  {
    assert L[..i + 1][..i] == L[..i];
  }

  /** A list that names every body answers the query with the same bodies
      as the naive broadphase. */
  lemma ListedOverlappingIsNaive(bodies: seq<Body.Body>, list: seq<nat>, q: Aabb, env: Body.Env)
    requires NaiveBroadphase.AllAligned(bodies) && SapBroadphase.Names(list, |bodies|)
    requires forall k :: 0 <= k < |bodies| ==> k in list
    ensures forall x :: x in Broadphase.Overlapping(SapBroadphase.Listed(bodies, list), q, env) <==> x in Broadphase.Overlapping(bodies, q, env)
  {
    var L := SapBroadphase.Listed(bodies, list);
    forall x
      ensures x in L <==> x in bodies
    {
      if x in bodies {
        var k :| 0 <= k < |bodies| && bodies[k] == x;
        assert k in list;
        var m :| 0 <= m < |list| && list[m] == k;
        assert L[m] == x;
      }
    }
  }

  /** The list `setWorld` builds names every body, and the sort keeps it
      that way. */
  lemma SetWorldNamesEveryBody(s: SapBroadphase.Sap, n: nat)
    ensures forall k :: 0 <= k < n ==> k in SapBroadphase.SetWorld(s, n).axisList
  {
    var list := SapBroadphase.SetWorld(s, n).axisList;
    forall k | 0 <= k < n
      ensures k in list
    {
      assert list[k] == k;
    }
  }
}
