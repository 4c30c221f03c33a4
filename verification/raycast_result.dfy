/** The record a ray cast fills in: the ray, the hit's normal and point,
    the shape and body hit (by `_id`, `None` for null), the face index, the
    distance from the ray's start, and the flag that stops the cast. */
module RaycastResult {
  import opened Vectors
  import opened Wrappers

  datatype Result = Result(
    rayFromWorld: Vec3,
    rayToWorld: Vec3,
    hitNormalWorld: Vec3,
    hitPointWorld: Vec3,
    hasHit: bool,
    shape: Option<int>,
    body: Option<int>,
    hitFaceIndex: int,
    distance: real,
    shouldStop: bool)

  /** The state of a result holding no hit. */
  predicate Cleared(r: Result)
  {
    r.rayFromWorld == Zero && r.rayToWorld == Zero && r.hitNormalWorld == Zero && r.hitPointWorld == Zero &&
    !r.hasHit && r.shape == None && r.body == None && r.hitFaceIndex == -1 && r.distance == -1.0 && !r.shouldStop
  }

  /** `init`: four zero vectors, no hit, no shape or body, face index and
      distance -1, not stopped. */
  function Init(): (r: Result)
    ensures Cleared(r)
  {
    Result(Zero, Zero, Zero, Zero, false, None, None, -1, -1.0, false)
  }

  /** `reset`: the vectors are zeroed in place and every other field is
      given its `init` value, whatever the result held. */
  function Reset(res: Result): (r: Result)
    ensures Cleared(r)
  {
    res.(rayFromWorld := Zero, rayToWorld := Zero, hitNormalWorld := Zero, hitPointWorld := Zero,
         hasHit := false, shape := None, body := None, hitFaceIndex := -1, distance := -1.0, shouldStop := false)
  }

  /** A cleared result is determined: `reset` gives what `init` gives, and
      resetting twice is resetting once. */
  lemma ResetIsInit(res: Result)
    ensures Reset(res) == Init()
    ensures Reset(Reset(res)) == Reset(res)
    ensures forall a: Result, b: Result :: Cleared(a) && Cleared(b) ==> a == b
  {
  }

  /** `abort`: only the stop flag changes, and it is set. */
  function Abort(res: Result): (r: Result)
    ensures r.shouldStop
    ensures r.(shouldStop := res.shouldStop) == res
  {
    res.(shouldStop := true)
  }

  /** `set`: the two ray ends, the normal and the point are copied, the
      shape, body and distance stored; `hasHit`, the face index and the
      stop flag are left as they were. */
  function Set(res: Result, from: Vec3, to: Vec3, normal: Vec3, point: Vec3, shape: int, body: int, distance: real): (r: Result)
    ensures r.rayFromWorld == from && r.rayToWorld == to && r.hitNormalWorld == normal && r.hitPointWorld == point
    ensures r.shape == Some(shape) && r.body == Some(body) && r.distance == distance
    ensures r.hasHit == res.hasHit && r.hitFaceIndex == res.hitFaceIndex && r.shouldStop == res.shouldStop
  {
    res.(rayFromWorld := from, rayToWorld := to, hitNormalWorld := normal, hitPointWorld := point,
         shape := Some(shape), body := Some(body), distance := distance)
  }

  /** A later `set` overwrites all of an earlier one, and `set` and
      `abort` commute. */
  lemma SetOverwrites(res: Result, from: Vec3, to: Vec3, normal: Vec3, point: Vec3, shape: int, body: int, distance: real,
      from2: Vec3, to2: Vec3, normal2: Vec3, point2: Vec3, shape2: int, body2: int, distance2: real)
    ensures Set(Set(res, from, to, normal, point, shape, body, distance), from2, to2, normal2, point2, shape2, body2, distance2) ==
      Set(res, from2, to2, normal2, point2, shape2, body2, distance2)
    ensures Abort(Set(res, from, to, normal, point, shape, body, distance)) ==
      Set(Abort(res), from, to, normal, point, shape, body, distance)
  {
  }
}
