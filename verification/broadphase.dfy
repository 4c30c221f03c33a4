/** The broadphase base class: the filter that decides whether a pair of
    bodies is worth testing, the bounding-sphere and bounding-box tests,
    and the stubs a subclass overrides.

    A body whose bounds are flagged stale is tested with freshly computed
    bounds (`Fresh`); the source also stores them back on the body, which
    only caches what every later reader would compute again. */
module Broadphase {
  import opened Vectors
  import opened Wrappers
  import JsNumbers
  import Body

  datatype Broadphase = Broadphase(useBoundingBoxes: bool, dirty: bool)

  /** `init`: bounding spheres, and dirty. */
  function Init(): (bp: Broadphase)
    ensures !bp.useBoundingBoxes && bp.dirty
  {
    Broadphase(false, true)
  }

  /** Static (the STATIC bit of the type is set) or sleeping. */
  predicate Inactive(b: Body.Body)
  {
    JsNumbers.And(b.bodyType, Body.STATIC) != 0 || b.sleepState == Body.Sleeping
  }

  /** Each body's group shares a bit with the other's mask. */
  predicate FiltersAccept(a: Body.Body, b: Body.Body)
  {
    JsNumbers.And(a.collisionFilterGroup, b.collisionFilterMask) != 0 &&
    JsNumbers.And(b.collisionFilterGroup, a.collisionFilterMask) != 0
  }

  /** `needBroadphaseCollision`: false when either filter rejects the pair
      or both bodies are static or sleeping, and true otherwise. */
  function NeedBroadphaseCollision(a: Body.Body, b: Body.Body): (r: bool)
    ensures r <==> FiltersAccept(a, b) && !(Inactive(a) && Inactive(b))
  {
    if JsNumbers.And(a.collisionFilterGroup, b.collisionFilterMask) == 0 ||
       JsNumbers.And(b.collisionFilterGroup, a.collisionFilterMask) == 0 then false
    else if Inactive(a) && Inactive(b) then false
    else true
  }

  /** The test does not depend on the order of the two bodies. */
  lemma NeedBroadphaseCollisionSymmetric(a: Body.Body, b: Body.Body)
    ensures NeedBroadphaseCollision(a, b) == NeedBroadphaseCollision(b, a)
  {
  }

  /** Two awake dynamic bodies with the default group 1 and mask -1 are
      always tested. */
  lemma DefaultFiltersAccept(a: Body.Body, b: Body.Body)
    requires a.collisionFilterGroup == b.collisionFilterGroup == 1
    requires a.collisionFilterMask == b.collisionFilterMask == -1
    requires a.sleepState == Body.Awake && a.bodyType == Body.DYNAMIC
    ensures NeedBroadphaseCollision(a, b)
  {
    JsNumbers.AndMinusOne(1);
    JsNumbers.AndMinusOne(Body.DYNAMIC);
    assert JsNumbers.ToInt32(1) == 1;
    JsNumbers.AndSymmetric(Body.DYNAMIC, Body.STATIC);
    DynamicNotStatic();
  }

  /** The DYNAMIC type has no STATIC bit. */
  lemma DynamicNotStatic()
    ensures JsNumbers.And(Body.DYNAMIC, Body.STATIC) == 0
  {
    assert JsNumbers.Bits(1) == 1 && JsNumbers.Bits(2) == 2;
    assert JsNumbers.AndN(1, 2, 32) == 0 by {
      assert JsNumbers.AndN(0, 1, 31) == 0 by {
        JsNumbers.AndZero(1, 31);
        JsNumbers.AndCommutes(0, 1, 31);
      }
    }
  }

  /** The bounds a test sees: recomputed when flagged stale. */
  function Fresh(b: Body.Body, env: Body.Env): (box: Aabb)
    requires Body.Aligned(b)
    ensures !b.aabbNeedsUpdate ==> box == b.aabb
    ensures b.aabbNeedsUpdate ==> box == Body.UpdateAabb(b, env).aabb
  {
    if b.aabbNeedsUpdate then Body.UpdateAabb(b, env).aabb else b.aabb
  }

  /** The body after a box test: a body flagged stale has had
      `updateAABB` run on it, which stores the fresh bounds and clears the
      flag; every other field is kept. */
  function Refresh(b: Body.Body, env: Body.Env): (r: Body.Body)
    requires Body.Aligned(b)
    ensures Body.Aligned(r) && !r.aabbNeedsUpdate
    ensures r.aabb == Fresh(b, env)
    ensures r.(aabb := b.aabb, aabbNeedsUpdate := b.aabbNeedsUpdate) == b
  {
    if b.aabbNeedsUpdate then Body.UpdateAabb(b, env) else b
  }

  /** Writing the fresh bounds back changes no later test: a refreshed
      body reads the same bounds, and refreshing it again changes nothing.
      This is why the queries may read `Fresh` without threading the
      updated bodies through. */
  lemma RefreshStable(b: Body.Body, env: Body.Env)
    requires Body.Aligned(b)
    ensures Fresh(Refresh(b, env), env) == Fresh(b, env)
    ensures Refresh(Refresh(b, env), env) == Refresh(b, env)
  {
  }

  /** The bounding spheres overlap: the squared centre distance is below
      the squared radius sum. */
  predicate SpheresOverlap(a: Body.Body, b: Body.Body)
  {
    NormSq(Sub(b.position, a.position)) < (a.boundingRadius + b.boundingRadius) * (a.boundingRadius + b.boundingRadius)
  }

  /** What `intersectionTest` decides: bounding boxes when
      `useBoundingBoxes`, bounding spheres otherwise. */
  predicate Hit(bp: Broadphase, a: Body.Body, b: Body.Body, env: Body.Env)
    requires Body.Aligned(a) && Body.Aligned(b)
  {
    if bp.useBoundingBoxes then env.ops.overlaps(Fresh(a, env), Fresh(b, env)) else SpheresOverlap(a, b)
  }

  /** `doBoundingSphereBroadphase`: pushes A and B onto the two lists when
      the spheres overlap. */
  function DoBoundingSphereBroadphase(a: Body.Body, b: Body.Body, pairs1: seq<Body.Body>, pairs2: seq<Body.Body>)
    : (r: (seq<Body.Body>, seq<Body.Body>))
    ensures SpheresOverlap(a, b) ==> r.0 == pairs1 + [a] && r.1 == pairs2 + [b]
    ensures !SpheresOverlap(a, b) ==> r.0 == pairs1 && r.1 == pairs2
  {
    var d := Sub(b.position, a.position);
    var sum := a.boundingRadius + b.boundingRadius;
    if NormSq(d) < sum * sum then (pairs1 + [a], pairs2 + [b]) else (pairs1, pairs2)
  }

  /** `doBoundingBoxBroadphase`: pushes A and B when their fresh bounds
      overlap. */
  function DoBoundingBoxBroadphase(a: Body.Body, b: Body.Body, pairs1: seq<Body.Body>, pairs2: seq<Body.Body>, env: Body.Env)
    : (r: (seq<Body.Body>, seq<Body.Body>))
    requires Body.Aligned(a) && Body.Aligned(b)
    ensures env.ops.overlaps(Fresh(a, env), Fresh(b, env)) ==> r.0 == pairs1 + [a] && r.1 == pairs2 + [b]
    ensures !env.ops.overlaps(Fresh(a, env), Fresh(b, env)) ==> r.0 == pairs1 && r.1 == pairs2
  {
    var boxA := if a.aabbNeedsUpdate then Body.UpdateAabb(a, env).aabb else a.aabb;
    var boxB := if b.aabbNeedsUpdate then Body.UpdateAabb(b, env).aabb else b.aabb;
    if env.ops.overlaps(boxA, boxB) then (pairs1 + [a], pairs2 + [b]) else (pairs1, pairs2)
  }

  /** `intersectionTest`: one of the two tests, by `useBoundingBoxes`. */
  function IntersectionTest(bp: Broadphase, a: Body.Body, b: Body.Body, pairs1: seq<Body.Body>, pairs2: seq<Body.Body>, env: Body.Env)
    : (r: (seq<Body.Body>, seq<Body.Body>))
    requires Body.Aligned(a) && Body.Aligned(b)
    ensures bp.useBoundingBoxes ==> r == DoBoundingBoxBroadphase(a, b, pairs1, pairs2, env)
    ensures !bp.useBoundingBoxes ==> r == DoBoundingSphereBroadphase(a, b, pairs1, pairs2)
  {
    if bp.useBoundingBoxes then DoBoundingBoxBroadphase(a, b, pairs1, pairs2, env)
    else DoBoundingSphereBroadphase(a, b, pairs1, pairs2)
  }

  /** Either test pushes onto both lists or onto neither, and pushes
      exactly when `Hit` holds, so the lists keep equal length. */
  lemma IntersectionTestPushesPairs(bp: Broadphase, a: Body.Body, b: Body.Body, pairs1: seq<Body.Body>, pairs2: seq<Body.Body>, env: Body.Env)
    requires Body.Aligned(a) && Body.Aligned(b)
    ensures var r := IntersectionTest(bp, a, b, pairs1, pairs2, env);
      (Hit(bp, a, b, env) ==> r == (pairs1 + [a], pairs2 + [b])) &&
      (!Hit(bp, a, b, env) ==> r == (pairs1, pairs2)) &&
      |r.0| - |r.1| == |pairs1| - |pairs2|
  {
  }

  /** The base `collisionPairs` throws. */
  function CollisionPairs(bp: Broadphase): (r: Result<(seq<Body.Body>, seq<Body.Body>)>)
    ensures r.Err? && r.error.Thrown?
  {
    Err(Thrown("collisionPairs not implemented for this BroadPhase class!"))
  }

  /** The base `aabbQuery` ignores the result list it is given and returns
      a new empty list. */
  function AabbQuery(bp: Broadphase, q: Aabb, result: seq<Body.Body>): (r: seq<Body.Body>)
    ensures r == []
  {
    []
  }

  /** `boundingSphereCheck`: the first shapes' bounding spheres, taken at
      the body positions, overlap. A body without shapes has no first
      shape, and reading its radius throws. */
  function BoundingSphereCheck(a: Body.Body, b: Body.Body): (r: Result<bool>)
    ensures r.Err? <==> |a.shapes| == 0 || |b.shapes| == 0
    ensures r.Err? ==> r.error.TypeError?
    ensures r.Ok? ==>
      var sum := a.shapes[0].boundingSphereRadius + b.shapes[0].boundingSphereRadius;
      (r.value <==> NormSq(Sub(a.position, b.position)) < sum * sum)
  {
    if |a.shapes| == 0 || |b.shapes| == 0 then Err(TypeError("Cannot read properties of undefined"))
    else
      var dist := Sub(a.position, b.position);
      var sum := a.shapes[0].boundingSphereRadius + b.shapes[0].boundingSphereRadius;
      Ok(sum * sum > NormSq(dist))
  }

  /** The bodies of `bodies` whose fresh bounds overlap the query, in
      order. */
  function Overlapping(bodies: seq<Body.Body>, q: Aabb, env: Body.Env): (r: seq<Body.Body>)
    requires forall k :: 0 <= k < |bodies| ==> Body.Aligned(bodies[k])
    ensures |r| <= |bodies|
    ensures forall x :: x in r <==> x in bodies && Body.Aligned(x) && env.ops.overlaps(Fresh(x, env), q)
  {
    if |bodies| == 0 then []
    else
      var last := bodies[|bodies| - 1];
      var rest := Overlapping(bodies[..|bodies| - 1], q, env);
      assert forall x :: x in bodies <==> x in bodies[..|bodies| - 1] || x == last;
      if env.ops.overlaps(Fresh(last, env), q) then rest + [last] else rest
  }
}
