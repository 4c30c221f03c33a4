/** Ray casting: a segment from `from` to `to` is tested against bodies
    and their shapes, and every hit a shape routine finds is reported to
    the result according to the ray's mode.

    The geometric routines of the plane, box, convex, heightfield and
    trimesh shapes are not computed here: a `probe` parameter gives, for
    a shape at its world position, the hits its routine reports, in order.
    The sphere routine is modelled (`SphereRoots`). Distances come through
    the supplied square root. */
module Ray {
  import opened Vectors
  import opened Wrappers
  import JsNumbers
  import Shape
  import Body
  import RaycastResult

  const CLOSEST: int := 1
  const ANY: int := 2
  const ALL: int := 4

  datatype Ray = Ray(
    from: Vec3,
    to: Vec3,
    direction: Vec3,
    precision: real,
    checkCollisionResponse: bool,
    skipBackfaces: bool,
    collisionFilterMask: int,
    collisionFilterGroup: int,
    mode: int,
    result: RaycastResult.Result,
    hasHit: bool)

  /** `init(options)`: the ends default to the origin; the ray starts in
      ANY mode with full filters, checking collision response and keeping
      back faces, with a fresh result and no hit. */
  function Init(from: Option<Vec3>, to: Option<Vec3>): (r: Ray)
    ensures r.from == (if from.Some? then from.value else Zero)
    ensures r.to == (if to.Some? then to.value else Zero)
    ensures r.direction == Zero && r.precision == 0.0001
    ensures r.checkCollisionResponse && !r.skipBackfaces
    ensures r.collisionFilterMask == -1 && r.collisionFilterGroup == -1
    ensures r.mode == ANY && RaycastResult.Cleared(r.result) && !r.hasHit
  {
    Ray(Body.Or(from, Zero), Body.Or(to, Zero), Zero, 0.0001, true, false, -1, -1, ANY, RaycastResult.Init(), false)
  }

  /** `getAABB`: the box spanned by the two ends. */
  function GetAabb(ray: Ray): (b: Aabb)
    ensures Inside(ray.from, b) && Inside(ray.to, b)
    ensures forall c :: Inside(ray.from, c) && Inside(ray.to, c) ==> Contains(c, b)
  {
    Aabb(Vec3(Min(ray.to.x, ray.from.x), Min(ray.to.y, ray.from.y), Min(ray.to.z, ray.from.z)),
         Vec3(Max(ray.to.x, ray.from.x), Max(ray.to.y, ray.from.y), Max(ray.to.z, ray.from.z)))
  }

  /** `updateDirection`: the unit vector from `from` to `to`. */
  function UpdateDirection(ray: Ray, ops: MathOps): (r: Ray)
    ensures r.direction == ops.normalize(Sub(ray.to, ray.from))
    ensures r.(direction := ray.direction) == ray
  {
    ray.(direction := ops.normalize(Sub(ray.to, ray.from)))
  }

  // Reporting hits.

  /** A hit as a shape routine reports it. */
  datatype Hit = Hit(normal: Vec3, point: Vec3, shape: int, body: int, faceIndex: int)

  /** `from.distanceTo(point)`. */
  function Distance(ray: Ray, point: Vec3, ops: MathOps): real
  {
    ops.sqrt(NormSq(Sub(point, ray.from)))
  }

  /** The hit passes the back-face test: back faces are kept, or the
      normal does not point along the ray. */
  predicate Facing(ray: Ray, h: Hit)
  {
    !(ray.skipBackfaces && Dot(h.normal, ray.direction) > 0.0)
  }

  /** The result records the hit: both ray ends, its normal, point,
      shape, body, face index and distance. */
  predicate Holds(res: RaycastResult.Result, ray: Ray, h: Hit, ops: MathOps)
  {
    res.hasHit && res.rayFromWorld == ray.from && res.rayToWorld == ray.to &&
    res.hitNormalWorld == h.normal && res.hitPointWorld == h.point &&
    res.shape == Some(h.shape) && res.body == Some(h.body) &&
    res.hitFaceIndex == h.faceIndex && res.distance == Distance(ray, h.point, ops)
  }

  /** The hit written into the result (`result.set`), with `hasHit`. */
  function Store(ray: Ray, h: Hit, ops: MathOps): (r: Ray)
  {
    var res := RaycastResult.Set(ray.result, ray.from, ray.to, h.normal, h.point, h.shape, h.body, Distance(ray, h.point, ops));
    ray.(hasHit := true, result := res.(hasHit := true))
  }

  /** The CLOSEST test: no hit stored yet, or this one strictly nearer. */
  predicate Nearer(ray: Ray, h: Hit, ops: MathOps)
  {
    Distance(ray, h.point, ops) < ray.result.distance || !ray.result.hasHit
  }

  /** `reportIntersection` as written: past the back-face test the face
      index is written first, whatever the mode then decides, so a CLOSEST
      ray that rejects a farther hit still takes that hit's face index. */
  function ReportAsWritten(ray: Ray, h: Hit, ops: MathOps): (r: Ray)
    ensures !Facing(ray, h) ==> r == ray
    ensures Facing(ray, h) ==> r.result.hitFaceIndex == h.faceIndex
    ensures Facing(ray, h) && ray.mode == CLOSEST && !Nearer(ray, h, ops) ==>
      r == ray.(result := ray.result.(hitFaceIndex := h.faceIndex))
    ensures Facing(ray, h) && (ray.mode == ALL || ray.mode == ANY || (ray.mode == CLOSEST && Nearer(ray, h, ops))) ==>
      Holds(r.result, ray, h, ops) && r.hasHit
  {
    if !Facing(ray, h) then ray
    else
      var marked := ray.(result := ray.result.(hitFaceIndex := h.faceIndex));
      if ray.mode == ALL then Store(marked, h, ops)
      else if ray.mode == CLOSEST then (if Nearer(ray, h, ops) then Store(marked, h, ops) else marked)
      else if ray.mode == ANY then
        var stored := Store(marked, h, ops);
        stored.(result := stored.result.(shouldStop := true))
      else marked
  }

  /** `reportIntersection` with the face index written together with the
      rest of the hit: a hit that is not stored leaves the ray as it was. */
  function Report(ray: Ray, h: Hit, ops: MathOps): (r: Ray)
    ensures r.(result := ray.result, hasHit := ray.hasHit) == ray
    ensures Stored(ray, h, ops) ==> Holds(r.result, ray, h, ops) && r.hasHit
    ensures !Stored(ray, h, ops) ==> r == ray
    ensures r.result.shouldStop <==> ray.result.shouldStop || (Stored(ray, h, ops) && ray.mode == ANY)
  {
    if !Stored(ray, h, ops) then ray
    else
      var stored := Store(ray.(result := ray.result.(hitFaceIndex := h.faceIndex)), h, ops);
      if ray.mode == ANY then stored.(result := stored.result.(shouldStop := true)) else stored
  }

  /** The hit is stored: it faces the ray and the mode takes it. */
  predicate Stored(ray: Ray, h: Hit, ops: MathOps)
  {
    Facing(ray, h) && (ray.mode == ALL || ray.mode == ANY || (ray.mode == CLOSEST && Nearer(ray, h, ops)))
  }

  /** The two versions agree on every hit they store; they differ only in
      the face index a CLOSEST ray keeps after turning a hit down. */
  lemma ReportAgrees(ray: Ray, h: Hit, ops: MathOps)
    ensures Stored(ray, h, ops) ==> ReportAsWritten(ray, h, ops) == Report(ray, h, ops)
    ensures !Facing(ray, h) ==> ReportAsWritten(ray, h, ops) == Report(ray, h, ops)
  {
  }

  /** A CLOSEST ray meets a hit at distance 1 and then one at distance 2:
      the result keeps the first hit's point but the second hit's face. */
  lemma ClosestKeepsWrongFace(ray: Ray, ops: MathOps)
    requires ray.mode == CLOSEST && !ray.skipBackfaces && RaycastResult.Cleared(ray.result)
    requires ray.from == Zero && ops.sqrt(1.0) == 1.0 && ops.sqrt(4.0) == 2.0
    ensures var near, far := Hit(UnitX, UnitX, 7, 9, 1), Hit(UnitX, Scale(2.0, UnitX), 7, 9, 2);
      var r := ReportAsWritten(ReportAsWritten(ray, near, ops), far, ops);
      r.result.hitPointWorld == near.point && r.result.hitFaceIndex == far.faceIndex &&
      !Holds(r.result, ray, near, ops) && !Holds(r.result, ray, far, ops)
  {
    var near, far := Hit(UnitX, UnitX, 7, 9, 1), Hit(UnitX, Scale(2.0, UnitX), 7, 9, 2);
    assert NormSq(Sub(near.point, ray.from)) == 1.0;
    assert NormSq(Sub(far.point, ray.from)) == 4.0;
  }

  // Casting over a list of hits.

  /** The hits reported one after another, until the result is told to
      stop: the loops over bodies, shapes, faces and roots all test the
      stop flag before going on. */
  function Cast(ray: Ray, hits: seq<Hit>, ops: MathOps): (r: Ray)
    ensures r.(result := ray.result, hasHit := ray.hasHit) == ray
    ensures ray.result.shouldStop ==> r == ray
    ensures ray.mode != ANY ==> r.result.shouldStop == ray.result.shouldStop
    decreases |hits|
  {
    if |hits| == 0 || ray.result.shouldStop then ray
    else Cast(Report(ray, hits[0], ops), hits[1..], ops)
  }

  /** Casting over two lists is casting over the first, then the second. */
  lemma {:induction false} CastAppend(ray: Ray, a: seq<Hit>, b: seq<Hit>, ops: MathOps)
    ensures Cast(ray, a + b, ops) == Cast(Cast(ray, a, ops), b, ops)
    decreases |a|
  {
    if |a| == 0 {
      assert a + b == b;
    } else if !ray.result.shouldStop {
      assert (a + b)[1..] == a[1..] + b;
      CastAppend(Report(ray, a[0], ops), a[1..], b, ops);
    }
  }

  /** The position of the first hit that faces the ray. */
  function FirstFacing(ray: Ray, hits: seq<Hit>): (r: Option<nat>)
    ensures r.None? <==> forall k :: 0 <= k < |hits| ==> !Facing(ray, hits[k])
    ensures r.Some? ==>
      r.value < |hits| && Facing(ray, hits[r.value]) && forall j :: 0 <= j < r.value ==> !Facing(ray, hits[j])
  {
    if |hits| == 0 then None
    else if Facing(ray, hits[0]) then Some(0)
    else
      var rest := FirstFacing(ray, hits[1..]);
      assert forall k :: 1 <= k < |hits| ==> hits[k] == hits[1..][k - 1];
      if rest.None? then None else Some(rest.value + 1)
  }

  /** The position of the last hit that faces the ray. */
  function LastFacing(ray: Ray, hits: seq<Hit>): (r: Option<nat>)
    ensures r.None? <==> forall k :: 0 <= k < |hits| ==> !Facing(ray, hits[k])
    ensures r.Some? ==>
      r.value < |hits| && Facing(ray, hits[r.value]) && forall j :: r.value < j < |hits| ==> !Facing(ray, hits[j])
  {
    if |hits| == 0 then None
    else
      var rest := LastFacing(ray, hits[1..]);
      assert forall k :: 1 <= k < |hits| ==> hits[k] == hits[1..][k - 1];
      if rest.Some? then Some(rest.value + 1)
      else if Facing(ray, hits[0]) then Some(0) else None
  }

  /** ANY: the first hit that faces the ray is stored and stops the cast;
      without one, nothing changes. */
  lemma {:induction false} CastAny(ray: Ray, hits: seq<Hit>, ops: MathOps)
    requires ray.mode == ANY && !ray.result.shouldStop
    ensures var r, first := Cast(ray, hits, ops), FirstFacing(ray, hits);
      (first.None? ==> r == ray) &&
      (first.Some? ==> r.result.shouldStop && r.hasHit && Holds(r.result, ray, hits[first.value], ops))
    decreases |hits|
  {
    if |hits| > 0 && !Facing(ray, hits[0]) {
      CastAny(ray, hits[1..], ops);
    }
  }

  /** ALL: every facing hit overwrites the result, so it ends holding the
      last one; the cast never stops of itself. */
  lemma {:induction false} CastAll(ray: Ray, hits: seq<Hit>, ops: MathOps)
    requires ray.mode == ALL && !ray.result.shouldStop
    ensures var r, last := Cast(ray, hits, ops), LastFacing(ray, hits);
      !r.result.shouldStop &&
      (last.None? ==> r == ray) &&
      (last.Some? ==> r.hasHit && Holds(r.result, ray, hits[last.value], ops))
    decreases |hits|
  {
    if |hits| > 0 {
      CastAll(Report(ray, hits[0], ops), hits[1..], ops);
    }
  }

  /** The position of the nearest facing hit, the earliest among equally
      near ones. */
  function Nearest(ray: Ray, hits: seq<Hit>, ops: MathOps): (r: Option<nat>)
    ensures r.None? <==> forall k :: 0 <= k < |hits| ==> !Facing(ray, hits[k])
    ensures r.Some? ==>
      r.value < |hits| && Facing(ray, hits[r.value]) &&
      (forall j :: 0 <= j < |hits| && Facing(ray, hits[j]) ==>
        Distance(ray, hits[r.value].point, ops) <= Distance(ray, hits[j].point, ops)) &&
      (forall j :: 0 <= j < r.value && Facing(ray, hits[j]) ==>
        Distance(ray, hits[r.value].point, ops) < Distance(ray, hits[j].point, ops))
  {
    if |hits| == 0 then None
    else
      var rest := Nearest(ray, hits[1..], ops);
      assert forall k :: 1 <= k < |hits| ==> hits[k] == hits[1..][k - 1];
      if !Facing(ray, hits[0]) then (if rest.None? then None else Some(rest.value + 1))
      else if rest.None? || Distance(ray, hits[0].point, ops) <= Distance(ray, hits[rest.value + 1].point, ops) then Some(0)
      else Some(rest.value + 1)
  }

  /** Which hit is nearest does not depend on what the result holds. */
  lemma {:induction false} NearestGeometry(a: Ray, c: Ray, hits: seq<Hit>, ops: MathOps)
    requires SameGeometry(a, c)
    ensures Nearest(a, hits, ops) == Nearest(c, hits, ops)
    decreases |hits|
  {
    if |hits| > 0 {
      NearestGeometry(a, c, hits[1..], ops);
    }
  }

  /** CLOSEST: the result ends holding the nearest facing hit (the
      earliest of equals) when that is nearer than what it held, and is
      otherwise left alone; the cast never stops of itself. */
  lemma {:induction false} CastClosest(ray: Ray, hits: seq<Hit>, ops: MathOps)
    requires ray.mode == CLOSEST && !ray.result.shouldStop
    ensures var r, n := Cast(ray, hits, ops), Nearest(ray, hits, ops);
      !r.result.shouldStop &&
      (n.None? ==> r == ray) &&
      (n.Some? && Nearer(ray, hits[n.value], ops) ==> r.hasHit && Holds(r.result, ray, hits[n.value], ops)) &&
      (n.Some? && !Nearer(ray, hits[n.value], ops) ==> r == ray)
    decreases |hits|
  {
    if |hits| > 0 {
      var h, rest := hits[0], hits[1..];
      var r1 := Report(ray, h, ops);
      assert Cast(ray, hits, ops) == Cast(r1, rest, ops);
      NearestGeometry(r1, ray, rest, ops);
      CastClosest(r1, rest, ops);
      var m := Nearest(ray, rest, ops);
      if m.Some? {
        assert rest[m.value] == hits[m.value + 1];
      }
    }
  }

  // The body and shape loops.

  /** The filters of `intersectBody`: a body that does not respond to
      collisions (when that is checked) or fails the group and mask test
      either way round is skipped. */
  predicate Admits(ray: Ray, b: Body.Body)
  {
    !(ray.checkCollisionResponse && !b.collisionResponse) &&
    JsNumbers.And(ray.collisionFilterGroup, b.collisionFilterMask) != 0 &&
    JsNumbers.And(b.collisionFilterGroup, ray.collisionFilterMask) != 0
  }

  /** A shape the shape loop skips: it does not respond to collisions and
      that is checked. */
  predicate SkipsShape(ray: Ray, s: Shape.Shape)
  {
    ray.checkCollisionResponse && !s.collisionResponse
  }

  /** `distanceFromIntersection`: how far the point lies from its foot on
      the ray's line. */
  function LineDistance(ray: Ray, p: Vec3, ops: MathOps): real
  {
    var foot := Add(Scale(Dot(Sub(p, ray.from), ray.direction), ray.direction), ray.from);
    ops.sqrt(NormSq(Sub(p, foot)))
  }

  /** The hits `intersectShape` reports for shape i of the body: none when
      the ray's line passes outside the shape's bounding sphere, otherwise
      what the shape's routine finds at the shape's world position and
      orientation. The probe sees the ray's two ends and direction. */
  function ShapeHits(ray: Ray, b: Body.Body, i: nat, probe: (Vec3, Vec3, Vec3, Shape.Shape, Quat, Vec3, int) -> seq<Hit>,
      ops: MathOps): seq<Hit>
    requires Body.Aligned(b) && i < |b.shapes|
  {
    var x := Add(ops.rotate(b.quaternion, b.shapeOffsets[i]), b.position);
    var q := ops.mult(b.quaternion, b.shapeOrientations[i]);
    if LineDistance(ray, x, ops) > b.shapes[i].boundingSphereRadius then []
    else probe(ray.from, ray.to, ray.direction, b.shapes[i], q, x, b.id)
  }

  /** The shape loop of `intersectBody` from shape i on: skipped shapes
      are passed over, and the loop breaks once the result is told to
      stop. */
  function ShapeLoop(ray: Ray, b: Body.Body, i: nat, probe: (Vec3, Vec3, Vec3, Shape.Shape, Quat, Vec3, int) -> seq<Hit>,
      ops: MathOps): (r: Ray)
    requires Body.Aligned(b) && i <= |b.shapes|
    ensures r.(result := ray.result, hasHit := ray.hasHit) == ray
    decreases |b.shapes| - i
  {
    if i == |b.shapes| then ray
    else if SkipsShape(ray, b.shapes[i]) then ShapeLoop(ray, b, i + 1, probe, ops)
    else
      var r := Cast(ray, ShapeHits(ray, b, i, probe, ops), ops);
      if r.result.shouldStop then r else ShapeLoop(r, b, i + 1, probe, ops)
  }

  /** `intersectBody`: nothing for a body the filters skip, otherwise the
      shape loop. */
  function IntersectBody(ray: Ray, b: Body.Body, probe: (Vec3, Vec3, Vec3, Shape.Shape, Quat, Vec3, int) -> seq<Hit>,
      ops: MathOps): (r: Ray)
    requires Body.Aligned(b)
    ensures !Admits(ray, b) ==> r == ray
    ensures r.(result := ray.result, hasHit := ray.hasHit) == ray
  {
    if !Admits(ray, b) then ray else ShapeLoop(ray, b, 0, probe, ops)
  }

  predicate AllAligned(bodies: seq<Body.Body>)
  {
    forall k :: 0 <= k < |bodies| ==> Body.Aligned(bodies[k])
  }

  /** `intersectBodies` from body k on: the loop tests the stop flag before
      each body. */
  function IntersectBodies(ray: Ray, bodies: seq<Body.Body>, k: nat,
      probe: (Vec3, Vec3, Vec3, Shape.Shape, Quat, Vec3, int) -> seq<Hit>, ops: MathOps): (r: Ray)
    requires AllAligned(bodies) && k <= |bodies|
    ensures r.(result := ray.result, hasHit := ray.hasHit) == ray
    decreases |bodies| - k
  {
    if ray.result.shouldStop || k == |bodies| then ray
    else IntersectBodies(IntersectBody(ray, bodies[k], probe, ops), bodies, k + 1, probe, ops)
  }

  /** The hits of shape i on: those of every shape not skipped, in order. */
  function ShapesHits(ray: Ray, b: Body.Body, i: nat, probe: (Vec3, Vec3, Vec3, Shape.Shape, Quat, Vec3, int) -> seq<Hit>,
      ops: MathOps): seq<Hit>
    requires Body.Aligned(b) && i <= |b.shapes|
    decreases |b.shapes| - i
  {
    if i == |b.shapes| then []
    else (if SkipsShape(ray, b.shapes[i]) then [] else ShapeHits(ray, b, i, probe, ops)) + ShapesHits(ray, b, i + 1, probe, ops)
  }

  /** Every hit the loops could report, body by body and shape by shape,
      the filtered bodies and shapes left out. */
  function Candidates(ray: Ray, bodies: seq<Body.Body>, k: nat,
      probe: (Vec3, Vec3, Vec3, Shape.Shape, Quat, Vec3, int) -> seq<Hit>, ops: MathOps): seq<Hit>
    requires AllAligned(bodies) && k <= |bodies|
    decreases |bodies| - k
  {
    if k == |bodies| then []
    else (if Admits(ray, bodies[k]) then ShapesHits(ray, bodies[k], 0, probe, ops) else []) + Candidates(ray, bodies, k + 1, probe, ops)
  }

  /** Rays that agree on everything but their result and `hasHit` see the
      same shapes and the same hits. */
  predicate SameGeometry(a: Ray, b: Ray)
  {
    a.(result := b.result, hasHit := b.hasHit) == b
  }

  lemma {:induction false} ShapesHitsGeometry(a: Ray, c: Ray, b: Body.Body, i: nat,
      probe: (Vec3, Vec3, Vec3, Shape.Shape, Quat, Vec3, int) -> seq<Hit>, ops: MathOps)
    requires Body.Aligned(b) && i <= |b.shapes| && SameGeometry(a, c)
    ensures ShapesHits(a, b, i, probe, ops) == ShapesHits(c, b, i, probe, ops)
    decreases |b.shapes| - i
  {
    if i < |b.shapes| {
      ShapesHitsGeometry(a, c, b, i + 1, probe, ops);
    }
  }

  lemma {:induction false} CandidatesGeometry(a: Ray, c: Ray, bodies: seq<Body.Body>, k: nat,
      probe: (Vec3, Vec3, Vec3, Shape.Shape, Quat, Vec3, int) -> seq<Hit>, ops: MathOps)
    requires AllAligned(bodies) && k <= |bodies| && SameGeometry(a, c)
    ensures Candidates(a, bodies, k, probe, ops) == Candidates(c, bodies, k, probe, ops)
    decreases |bodies| - k
  {
    if k < |bodies| {
      ShapesHitsGeometry(a, c, bodies[k], 0, probe, ops);
      CandidatesGeometry(a, c, bodies, k + 1, probe, ops);
    }
  }

  /** The shape loop is a cast over the hits of the shapes it does not
      skip. */
  lemma {:induction false} ShapeLoopIsCast(ray: Ray, b: Body.Body, i: nat,
      probe: (Vec3, Vec3, Vec3, Shape.Shape, Quat, Vec3, int) -> seq<Hit>, ops: MathOps)
    requires Body.Aligned(b) && i <= |b.shapes|
    ensures ShapeLoop(ray, b, i, probe, ops) == Cast(ray, ShapesHits(ray, b, i, probe, ops), ops)
    decreases |b.shapes| - i
  {
    if i < |b.shapes| {
      var here := if SkipsShape(ray, b.shapes[i]) then [] else ShapeHits(ray, b, i, probe, ops);
      var rest := ShapesHits(ray, b, i + 1, probe, ops);
      CastAppend(ray, here, rest, ops);
      var r := Cast(ray, here, ops);
      if SkipsShape(ray, b.shapes[i]) {
        assert here + rest == rest;
        ShapeLoopIsCast(ray, b, i + 1, probe, ops);
      } else if !r.result.shouldStop {
        ShapeLoopIsCast(r, b, i + 1, probe, ops);
        ShapesHitsGeometry(r, ray, b, i + 1, probe, ops);
      }
    }
  }

  /** The nested loops of `intersectBodies` are one cast over all the
      candidate hits: the stop flag ends every loop at once. */
  lemma {:induction false} IntersectBodiesIsCast(ray: Ray, bodies: seq<Body.Body>, k: nat,
      probe: (Vec3, Vec3, Vec3, Shape.Shape, Quat, Vec3, int) -> seq<Hit>, ops: MathOps)
    requires AllAligned(bodies) && k <= |bodies|
    ensures IntersectBodies(ray, bodies, k, probe, ops) == Cast(ray, Candidates(ray, bodies, k, probe, ops), ops)
    decreases |bodies| - k
  {
    if k < |bodies| {
      var b := bodies[k];
      var here := if Admits(ray, b) then ShapesHits(ray, b, 0, probe, ops) else [];
      var rest := Candidates(ray, bodies, k + 1, probe, ops);
      CastAppend(ray, here, rest, ops);
      if !ray.result.shouldStop {
        var r := IntersectBody(ray, b, probe, ops);
        if Admits(ray, b) {
          ShapeLoopIsCast(ray, b, 0, probe, ops);
        } else {
          assert here + rest == rest;
        }
        IntersectBodiesIsCast(r, bodies, k + 1, probe, ops);
        CandidatesGeometry(r, ray, bodies, k + 1, probe, ops);
      }
    }
  }

  // The sphere routine.

  /** `lerp`: the point a fraction t of the way from `from` to `to`. */
  function Lerp(from: Vec3, to: Vec3, t: real): Vec3
  {
    Add(from, Scale(t, Sub(to, from)))
  }

  /** The coefficients of a t^2 + b t + c, zero exactly where the point a
      fraction t along the segment lies on the sphere. */
  datatype Quadratic = Quadratic(a: real, b: real, c: real)

  function Delta(q: Quadratic): real
  {
    q.b * q.b - 4.0 * q.a * q.c
  }

  function SphereQuadratic(from: Vec3, to: Vec3, center: Vec3, radius: real): Quadratic
  {
    var d := Sub(to, from);
    var f := Sub(from, center);
    Quadratic(NormSq(d), 2.0 * Dot(d, f), NormSq(f) - radius * radius)
  }

  lemma SquareAlong(f: real, d: real, t: real)
    ensures (f + t * d) * (f + t * d) == t * t * (d * d) + t * (2.0 * (d * f)) + f * f
  {
  }

  /** The squared length of f + t d as a quadratic in t. */
  lemma {:induction false} NormAlong(f: Vec3, d: Vec3, t: real)
    ensures NormSq(Add(f, Scale(t, d))) == t * t * NormSq(d) + t * (2.0 * Dot(d, f)) + NormSq(f)
  {
    SquareAlong(f.x, d.x, t);
    SquareAlong(f.y, d.y, t);
    SquareAlong(f.z, d.z, t);
  }

  /** The point at t is on the sphere exactly when t is a root of the
      sphere's quadratic. */
  lemma {:induction false} OnSphereIffRoot(from: Vec3, to: Vec3, center: Vec3, radius: real, t: real)
    ensures var q := SphereQuadratic(from, to, center, radius);
      NormSq(Sub(Lerp(from, to, t), center)) == radius * radius <==> q.a * t * t + q.b * t + q.c == 0.0
  {
    var d := Sub(to, from);
    var f := Sub(from, center);
    var u := Scale(t, d);
    assert Sub(Lerp(from, to, t), center) == Add(f, u);
    NormAlong(f, d, t);
  }

  /** A JavaScript quotient that is a finite number: dividing by zero gives
      an infinity or NaN, and neither passes a range test. */
  function Quotient(n: real, d: real): Option<real>
  {
    if d == 0.0 then None else Some(n / d)
  }

  /** The root kept when it is a number in [0, 1]. */
  function InUnit(t: Option<real>): (ts: seq<real>)
    ensures |ts| <= 1
    ensures ts != [] <==> t.Some? && 0.0 <= t.value <= 1.0
    ensures ts != [] ==> ts == [t.value]
  {
    if t.Some? && 0.0 <= t.value <= 1.0 then [t.value] else []
  }

  /** The two roots of a positive discriminant, smaller one first when a > 0,
      each kept when it lies on the segment. */
  function TwoRoots(q: Quadratic, ops: MathOps): seq<real>
  {
    var s := ops.sqrt(Delta(q));
    InUnit(Quotient(-q.b - s, 2.0 * q.a)) + InUnit(Quotient(-q.b + s, 2.0 * q.a))
  }

  /** The fractions along the segment at which `_intersectSphere` reports a
      hit, as written: a zero discriminant reports the point at the
      fraction given by the discriminant itself, that is, the ray's start. */
  function SphereRootsAsWritten(q: Quadratic, ops: MathOps): (ts: seq<real>)
    ensures Delta(q) < 0.0 ==> ts == []
    ensures Delta(q) == 0.0 ==> ts == [0.0]
    ensures Delta(q) > 0.0 ==> ts == TwoRoots(q, ops)
  {
    var delta := Delta(q);
    if delta < 0.0 then [] else if delta == 0.0 then [delta] else TwoRoots(q, ops)
  }

  /** The roots as evidently intended: a zero discriminant reports the
      double root -b / 2a, kept like the others only on the segment. */
  function SphereRoots(q: Quadratic, ops: MathOps): (ts: seq<real>)
    ensures |ts| <= 2
    ensures forall i :: 0 <= i < |ts| ==> 0.0 <= ts[i] <= 1.0
    ensures Delta(q) < 0.0 ==> ts == []
  {
    var delta := Delta(q);
    if delta < 0.0 then [] else if delta == 0.0 then InUnit(Quotient(-q.b, 2.0 * q.a)) else TwoRoots(q, ops)
  }

  /** The two definitions part only at a zero discriminant. */
  lemma SphereRootsAgree(q: Quadratic, ops: MathOps)
    ensures Delta(q) != 0.0 ==> SphereRoots(q, ops) == SphereRootsAsWritten(q, ops)
  {
  }

  /** The square root the sphere routine takes on trust: non-negative,
      and squaring back to its argument. */
  ghost predicate ExactSqrt(ops: MathOps)
  {
    forall x: real :: x >= 0.0 ==> ops.sqrt(x) >= 0.0 && ops.sqrt(x) * ops.sqrt(x) == x
  }

  lemma {:induction false} CompletedSquare(q: Quadratic, t: real)
    requires q.a != 0.0
    ensures (2.0 * q.a * t + q.b) * (2.0 * q.a * t + q.b) == Delta(q) <==> q.a * t * t + q.b * t + q.c == 0.0
  {
    var e := q.a * t * t + q.b * t + q.c;
    assert (2.0 * q.a * t + q.b) * (2.0 * q.a * t + q.b) - Delta(q) == 4.0 * q.a * e;
    if 4.0 * q.a * e == 0.0 {
      assert e == 0.0;
    }
  }

  /** Every fraction the corrected routine reports solves the quadratic. */
  /** A fraction kept from the quotient (e - b) / 2a, where e squares to
      the discriminant, is a root. */
  lemma {:induction false} KeptRootSolves(q: Quadratic, t: real, e: real)
    requires e * e == Delta(q) && t in InUnit(Quotient(-q.b + e, 2.0 * q.a))
    ensures q.a * t * t + q.b * t + q.c == 0.0
  {
    assert q.a != 0.0 && t == (-q.b + e) / (2.0 * q.a);
    assert 2.0 * q.a * t + q.b == e;
    CompletedSquare(q, t);
  }

  lemma {:induction false} TwoRootsSolve(q: Quadratic, ops: MathOps, i: nat)
    requires ops.sqrt(Delta(q)) * ops.sqrt(Delta(q)) == Delta(q) && i < |TwoRoots(q, ops)|
    ensures var t := TwoRoots(q, ops)[i]; q.a * t * t + q.b * t + q.c == 0.0
  {
    var s := ops.sqrt(Delta(q));
    var lo := InUnit(Quotient(-q.b - s, 2.0 * q.a));
    var hi := InUnit(Quotient(-q.b + s, 2.0 * q.a));
    var t := TwoRoots(q, ops)[i];
    if i < |lo| {
      assert t == lo[i];
      assert -q.b - s == -q.b + -s;
      KeptRootSolves(q, t, -s);
    } else {
      assert t == hi[i - |lo|];
      KeptRootSolves(q, t, s);
    }
  }

  /** Every fraction the corrected routine reports solves the quadratic. */
  lemma {:induction false} SphereRootsSolve(q: Quadratic, ops: MathOps, i: nat)
    requires ExactSqrt(ops) && i < |SphereRoots(q, ops)|
    ensures var t := SphereRoots(q, ops)[i]; q.a * t * t + q.b * t + q.c == 0.0
  {
    if Delta(q) > 0.0 {
      TwoRootsSolve(q, ops, i);
    } else {
      var t := SphereRoots(q, ops)[i];
      assert t in InUnit(Quotient(-q.b + 0.0, 2.0 * q.a));
      KeptRootSolves(q, t, 0.0);
    }
  }

  lemma ZeroProduct(x: real, y: real)
    requires x * y == 0.0
    ensures x == 0.0 || y == 0.0
  {
  }

  lemma Solved(n: real, d: real, t: real)
    requires d != 0.0 && d * t == n
    ensures t == n / d
  {
  }

  lemma {:induction false} DoubleRootReported(q: Quadratic, ops: MathOps, t: real)
    requires q.a != 0.0 && Delta(q) == 0.0 && 0.0 <= t <= 1.0
    requires (2.0 * q.a * t + q.b) * (2.0 * q.a * t + q.b) == 0.0
    ensures t in SphereRoots(q, ops)
  {
    ZeroProduct(2.0 * q.a * t + q.b, 2.0 * q.a * t + q.b);
    Solved(-q.b, 2.0 * q.a, t);
    assert SphereRoots(q, ops) == InUnit(Quotient(-q.b, 2.0 * q.a));
  }

  lemma {:induction false} RootReported(q: Quadratic, ops: MathOps, t: real, sign: real)
    requires q.a != 0.0 && 0.0 <= t <= 1.0 && (sign == 1.0 || sign == -1.0)
    requires 2.0 * q.a * t + q.b == sign * ops.sqrt(Delta(q))
    ensures t in TwoRoots(q, ops)
  {
    var s := ops.sqrt(Delta(q));
    Solved(-q.b + sign * s, 2.0 * q.a, t);
    if sign == 1.0 {
      assert InUnit(Quotient(-q.b + s, 2.0 * q.a)) == [t];
    } else {
      assert InUnit(Quotient(-q.b - s, 2.0 * q.a)) == [t];
    }
  }

  lemma {:induction false} SimpleRootReported(q: Quadratic, ops: MathOps, t: real)
    requires q.a != 0.0 && Delta(q) > 0.0 && 0.0 <= t <= 1.0
    requires ops.sqrt(Delta(q)) * ops.sqrt(Delta(q)) == Delta(q)
    requires (2.0 * q.a * t + q.b) * (2.0 * q.a * t + q.b) == Delta(q)
    ensures t in SphereRoots(q, ops)
  {
    var e := 2.0 * q.a * t + q.b;
    var s := ops.sqrt(Delta(q));
    DifferenceOfSquares(e, s);
    ZeroProduct(e - s, e + s);
    if e == s {
      RootReported(q, ops, t, 1.0);
    } else {
      RootReported(q, ops, t, -1.0);
    }
  }

  lemma DifferenceOfSquares(e: real, s: real)
    ensures (e - s) * (e + s) == e * e - s * s
  {
  }

  lemma SquareNonNegative(e: real)
    ensures e * e >= 0.0
  {
  }

  /** And every root on the segment is reported. */
  lemma {:induction false} SphereRootsComplete(q: Quadratic, ops: MathOps, t: real)
    requires ExactSqrt(ops) && q.a != 0.0
    requires 0.0 <= t <= 1.0 && q.a * t * t + q.b * t + q.c == 0.0
    ensures t in SphereRoots(q, ops)
  {
    CompletedSquare(q, t);
    SquareNonNegative(2.0 * q.a * t + q.b);
    if Delta(q) == 0.0 {
      DoubleRootReported(q, ops, t);
    } else {
      SimpleRootReported(q, ops, t);
    }
  }

  /** The hits at the given fractions along the segment: the point there,
      the outward normal from the sphere's centre, face index -1. */
  function SphereHitsAt(from: Vec3, to: Vec3, center: Vec3, ts: seq<real>, shape: int, body: int, ops: MathOps): (hs: seq<Hit>)
    ensures |hs| == |ts|
    ensures forall i :: 0 <= i < |ts| ==> hs[i].point == Lerp(from, to, ts[i])
  {
    seq(|ts|, i requires 0 <= i < |ts| =>
      Hit(ops.normalize(Sub(Lerp(from, to, ts[i]), center)), Lerp(from, to, ts[i]), shape, body, -1))
  }

  /** `_intersectSphere` with the corrected tangent case. The routine's
      stop test between the two roots is the cast's own. */
  function SphereHits(from: Vec3, to: Vec3, center: Vec3, radius: real, shape: int, body: int, ops: MathOps): (hs: seq<Hit>)
    ensures |hs| <= 2
  {
    SphereHitsAt(from, to, center, SphereRoots(SphereQuadratic(from, to, center, radius), ops), shape, body, ops)
  }

  /** The point at every reported fraction is on the sphere. */
  lemma {:induction false} RootPointOnSphere(from: Vec3, to: Vec3, center: Vec3, radius: real, ops: MathOps, i: nat)
    requires ExactSqrt(ops) && i < |SphereRoots(SphereQuadratic(from, to, center, radius), ops)|
    ensures NormSq(Sub(Lerp(from, to, SphereRoots(SphereQuadratic(from, to, center, radius), ops)[i]), center)) == radius * radius
  {
    var q := SphereQuadratic(from, to, center, radius);
    SphereRootsSolve(q, ops, i);
    OnSphereIffRoot(from, to, center, radius, SphereRoots(q, ops)[i]);
  }

  /** Every hit the corrected sphere routine reports lies on the sphere and
      on the segment. */
  lemma {:induction false} SphereHitsOnSphere(from: Vec3, to: Vec3, center: Vec3, radius: real, shape: int, body: int, ops: MathOps, i: nat)
    requires ExactSqrt(ops) && i < |SphereHits(from, to, center, radius, shape, body, ops)|
    ensures var h := SphereHits(from, to, center, radius, shape, body, ops)[i];
      NormSq(Sub(h.point, center)) == radius * radius &&
      exists t :: 0.0 <= t <= 1.0 && h.point == Lerp(from, to, t)
  {
    var ts := SphereRoots(SphereQuadratic(from, to, center, radius), ops);
    RootPointOnSphere(from, to, center, radius, ops, i);
    assert SphereHits(from, to, center, radius, shape, body, ops)[i].point == Lerp(from, to, ts[i]);
  }

  lemma TangentQuadratic()
    ensures SphereQuadratic(Vec3(-2.0, 1.0, 0.0), Vec3(0.0, 1.0, 0.0), Zero, 1.0) == Quadratic(4.0, -8.0, 4.0)
  {
    var from, to := Vec3(-2.0, 1.0, 0.0), Vec3(0.0, 1.0, 0.0);
    var d := Sub(to, from);
    assert d == Vec3(2.0, 0.0, 0.0);
    assert Sub(from, Zero) == from;
    assert NormSq(d) == 4.0;
    assert Dot(d, from) == -4.0;
    assert NormSq(from) == 5.0;
  }

  lemma SubZero(v: Vec3)
    ensures Sub(v, Zero) == v
  {
  }

  lemma TangentNorms()
    ensures NormSq(Vec3(-2.0, 1.0, 0.0)) == 5.0 && NormSq(Vec3(0.0, 1.0, 0.0)) == 1.0
  {
  }

  /** The fractions 0 and 1 are the segment's ends. */
  lemma LerpEnds(from: Vec3, to: Vec3)
    ensures Lerp(from, to, 0.0) == from && Lerp(from, to, 1.0) == to
  {
  }

  lemma TangentRoots(ops: MathOps)
    ensures SphereRootsAsWritten(Quadratic(4.0, -8.0, 4.0), ops) == [0.0]
    ensures SphereRoots(Quadratic(4.0, -8.0, 4.0), ops) == [1.0]
  {
    Solved(8.0, 8.0, 1.0);
  }

  /** The tangent case as written: a ray from (-2, 1, 0) that ends where it
      touches the unit sphere, at (0, 1, 0), is reported as hitting the
      sphere at its start, which is not on the sphere; the corrected
      routine reports the point of contact. */
  lemma TangentRootMissesSphere(ops: MathOps)
    ensures var from, to := Vec3(-2.0, 1.0, 0.0), Vec3(0.0, 1.0, 0.0);
      var q := SphereQuadratic(from, to, Zero, 1.0);
      SphereRootsAsWritten(q, ops) == [0.0] &&
      Lerp(from, to, 0.0) == from && NormSq(Sub(from, Zero)) != 1.0 &&
      SphereRoots(q, ops) == [1.0] && Lerp(from, to, 1.0) == to && NormSq(Sub(to, Zero)) == 1.0
  {
    TangentQuadratic();
    TangentRoots(ops);
    LerpEnds(Vec3(-2.0, 1.0, 0.0), Vec3(0.0, 1.0, 0.0));
    SubZero(Vec3(-2.0, 1.0, 0.0));
    SubZero(Vec3(0.0, 1.0, 0.0));
    TangentNorms();
  }
  // Casting against a world.

  /** The options `intersectWorld` reads; `None` is a property the options
      lack. A mode of 0 counts as missing. */
  datatype CastOptions = CastOptions(
    mode: Option<int>,
    skipBackfaces: Option<bool>,
    collisionFilterMask: Option<int>,
    collisionFilterGroup: Option<int>,
    checkCollisionResponse: Option<bool>,
    from: Option<Vec3>,
    to: Option<Vec3>)

  /** The set-up half of `intersectWorld`: the options are read (a missing
      or zero mode means ANY, missing filters mean -1, collision response
      is checked unless told otherwise, back faces are kept unless told
      otherwise), the ends are replaced when given, and the ray starts
      over with no hit, a reset result and its direction brought up to
      date. The precision is the ray's own. */
  function Configure(ray: Ray, o: CastOptions, ops: MathOps): (r: Ray)
    ensures r.mode == (if o.mode.Some? && o.mode.value != 0 then o.mode.value else ANY)
    ensures r.skipBackfaces == (o.skipBackfaces == Some(true))
    ensures r.collisionFilterMask == Body.Or(o.collisionFilterMask, -1)
    ensures r.collisionFilterGroup == Body.Or(o.collisionFilterGroup, -1)
    ensures r.checkCollisionResponse == Body.Or(o.checkCollisionResponse, true)
    ensures r.from == Body.Or(o.from, ray.from) && r.to == Body.Or(o.to, ray.to)
    ensures r.direction == ops.normalize(Sub(r.to, r.from))
    ensures !r.hasHit && RaycastResult.Cleared(r.result) && r.precision == ray.precision
  {
    var mode := if o.mode.Some? && o.mode.value != 0 then o.mode.value else ANY;
    var ready := ray.(mode := mode, skipBackfaces := o.skipBackfaces == Some(true),
      collisionFilterMask := Body.Or(o.collisionFilterMask, -1),
      collisionFilterGroup := Body.Or(o.collisionFilterGroup, -1),
      checkCollisionResponse := Body.Or(o.checkCollisionResponse, true),
      from := Body.Or(o.from, ray.from), to := Body.Or(o.to, ray.to),
      hasHit := false, result := RaycastResult.Reset(ray.result));
    UpdateDirection(ready, ops)
  }

  /** A cast given both ends forgets everything of the ray but its
      precision: two rays with the same precision are set up alike. */
  lemma ConfigureForgets(a: Ray, b: Ray, o: CastOptions, ops: MathOps)
    requires o.from.Some? && o.to.Some? && a.precision == b.precision
    ensures Configure(a, o, ops) == Configure(b, o, ops)
  {
    RaycastResult.ResetIsInit(a.result);
    RaycastResult.ResetIsInit(b.result);
  }

  /** `intersectWorld`: the ray is set up, the broadphase is asked for the
      bodies whose boxes meet the ray's box (the `query`), and those
      bodies are intersected. `hasHit` of the ray returned is the value
      the source returns. */
  function IntersectWorld(ray: Ray, o: CastOptions, query: Aabb -> seq<Body.Body>,
      probe: (Vec3, Vec3, Vec3, Shape.Shape, Quat, Vec3, int) -> seq<Hit>, ops: MathOps): (r: Ray)
    requires AllAligned(query(GetAabb(Configure(ray, o, ops))))
    ensures SameGeometry(r, Configure(ray, o, ops))
  {
    var c := Configure(ray, o, ops);
    IntersectBodies(c, query(GetAabb(c)), 0, probe, ops)
  }

  /** In each of the three modes, `intersectWorld` reports a hit exactly
      when some candidate hit faces the ray. */
  lemma IntersectWorldHasHit(ray: Ray, o: CastOptions, query: Aabb -> seq<Body.Body>,
      probe: (Vec3, Vec3, Vec3, Shape.Shape, Quat, Vec3, int) -> seq<Hit>, ops: MathOps)
    requires AllAligned(query(GetAabb(Configure(ray, o, ops))))
    requires var c := Configure(ray, o, ops); c.mode == ANY || c.mode == ALL || c.mode == CLOSEST
    ensures var c := Configure(ray, o, ops);
      var hits := Candidates(c, query(GetAabb(c)), 0, probe, ops);
      IntersectWorld(ray, o, query, probe, ops).hasHit <==> exists k :: 0 <= k < |hits| && Facing(c, hits[k])
  {
    var c := Configure(ray, o, ops);
    var bodies := query(GetAabb(c));
    var hits := Candidates(c, bodies, 0, probe, ops);
    IntersectBodiesIsCast(c, bodies, 0, probe, ops);
    if c.mode == ANY {
      CastAny(c, hits, ops);
    } else if c.mode == ALL {
      CastAll(c, hits, ops);
    } else {
      CastClosest(c, hits, ops);
      var n := Nearest(c, hits, ops);
      if n.Some? {
        assert Nearer(c, hits[n.value], ops);
      }
    }
  }

  // The triangle test.

  /** `pointInTriangle`: the barycentric test, with u and v the
      coordinates scaled by the Gram determinant. */
  predicate PointInTriangle(p: Vec3, a: Vec3, b: Vec3, c: Vec3)
  {
    var v0 := Sub(c, a);
    var v1 := Sub(b, a);
    var v2 := Sub(p, a);
    var dot00 := Dot(v0, v0);
    var dot01 := Dot(v0, v1);
    var dot02 := Dot(v0, v2);
    var dot11 := Dot(v1, v1);
    var dot12 := Dot(v1, v2);
    var u := dot11 * dot02 - dot01 * dot12;
    var v := dot00 * dot12 - dot01 * dot02;
    u >= 0.0 && v >= 0.0 && u + v < dot00 * dot11 - dot01 * dot01
  }

  /** The Gram determinant of the triangle's two edges: positive exactly
      when the triangle is not degenerate. */
  function Gram(a: Vec3, b: Vec3, c: Vec3): real
  {
    var v0 := Sub(c, a);
    var v1 := Sub(b, a);
    Dot(v0, v0) * Dot(v1, v1) - Dot(v0, v1) * Dot(v0, v1)
  }

  lemma {:induction false} DotAlong(w: Vec3, v0: Vec3, v1: Vec3, s: real, t: real)
    ensures Dot(w, Add(Scale(s, v0), Scale(t, v1))) == s * Dot(w, v0) + t * Dot(w, v1)
  {
    assert w.x * (s * v0.x + t * v1.x) == s * (w.x * v0.x) + t * (w.x * v1.x);
    assert w.y * (s * v0.y + t * v1.y) == s * (w.y * v0.y) + t * (w.y * v1.y);
    assert w.z * (s * v0.z + t * v1.z) == s * (w.z * v0.z) + t * (w.z * v1.z);
  }

  lemma {:induction false} Barycentric(d00: real, d01: real, d11: real, d02: real, d12: real, d: real, s: real, t: real)
    requires d02 == s * d00 + t * d01 && d12 == s * d01 + t * d11 && d == d00 * d11 - d01 * d01
    ensures d11 * d02 - d01 * d12 == s * d
    ensures d00 * d12 - d01 * d02 == t * d
  {
    assert d11 * d02 == s * (d00 * d11) + t * (d01 * d11);
    assert d01 * d12 == s * (d01 * d01) + t * (d01 * d11);
    assert d00 * d12 == s * (d00 * d01) + t * (d00 * d11);
    assert d01 * d02 == s * (d00 * d01) + t * (d01 * d01);
  }

  lemma ScaledSign(x: real, d: real)
    requires d > 0.0
    ensures x * d >= 0.0 <==> x >= 0.0
  {
    if x < 0.0 {
      assert x * d < 0.0;
    }
  }

  /** The scaled coordinates pass the test exactly when the coordinates
      themselves do. */
  lemma Unscaled(u: real, v: real, s: real, t: real, d: real)
    requires d > 0.0 && u == s * d && v == t * d
    ensures u >= 0.0 && v >= 0.0 && u + v < d <==> s >= 0.0 && t >= 0.0 && s + t < 1.0
  {
    ScaledSign(s, d);
    ScaledSign(t, d);
    ScaledSign(s + t - 1.0, d);
    assert u + v - d == (s + t - 1.0) * d;
    if s + t - 1.0 < 0.0 {
      assert (s + t - 1.0) * d < 0.0;
    }
  }

  /** Against a non-degenerate triangle the test accepts the point
      a + s (c - a) + t (b - a) exactly when s and t are non-negative and
      s + t < 1: the triangle without its edge from b to c. */
  lemma {:induction false} PointInTriangleIff(a: Vec3, b: Vec3, c: Vec3, s: real, t: real)
    requires Gram(a, b, c) > 0.0
    ensures PointInTriangle(Add(a, Add(Scale(s, Sub(c, a)), Scale(t, Sub(b, a)))), a, b, c) <==>
      s >= 0.0 && t >= 0.0 && s + t < 1.0
  {
    var v0, v1 := Sub(c, a), Sub(b, a);
    var w := Add(Scale(s, v0), Scale(t, v1));
    var p := Add(a, w);
    assert Sub(p, a) == w;
    DotAlong(v0, v0, v1, s, t);
    DotAlong(v1, v0, v1, s, t);
    assert Dot(v1, v0) == Dot(v0, v1);
    var d := Gram(a, b, c);
    var d00, d01, d11 := Dot(v0, v0), Dot(v0, v1), Dot(v1, v1);
    var d02, d12 := Dot(v0, Sub(p, a)), Dot(v1, Sub(p, a));
    assert d02 == s * d00 + t * d01;
    assert d12 == s * d01 + t * d11;
    TestOnCoordinates(d00, d01, d11, d02, d12, s, t);
  }

  /** The test on the dot products, for a point with coordinates s and t
      along the two sides. */
  lemma TestOnCoordinates(d00: real, d01: real, d11: real, d02: real, d12: real, s: real, t: real)
    requires d00 * d11 - d01 * d01 > 0.0
    requires d02 == s * d00 + t * d01 && d12 == s * d01 + t * d11
    ensures var u, v := d11 * d02 - d01 * d12, d00 * d12 - d01 * d02;
      u >= 0.0 && v >= 0.0 && u + v < d00 * d11 - d01 * d01 <==> s >= 0.0 && t >= 0.0 && s + t < 1.0
  {
    var d := d00 * d11 - d01 * d01;
    Barycentric(d00, d01, d11, d02, d12, d, s, t);
    var u := d11 * d02 - d01 * d12;
    var v := d00 * d12 - d01 * d02;
    assert u == s * d && v == t * d;
    Unscaled(u, v, s, t, d);
  }
}
