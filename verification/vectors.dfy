/** Exact vector algebra over the reals, standing in for Vec3, Quaternion
    and AABB, and the uninterpreted mathematics the engine leans on.

    Floating-point rounding is not modelled. Operations that need square
    roots, trigonometry or a quaternion rotation are not computed here:
    they come in through a `MathOps` record of functions the caller
    supplies. */
module Vectors {

  datatype Vec3 = Vec3(x: real, y: real, z: real)

  datatype Quat = Quat(x: real, y: real, z: real, w: real)

  /** A 3x3 matrix by its rows. */
  datatype Mat3 = Mat3(r0: Vec3, r1: Vec3, r2: Vec3)

  /** An axis-aligned box by its two corners. */
  datatype Aabb = Aabb(lower: Vec3, upper: Vec3)

  const Zero: Vec3 := Vec3(0.0, 0.0, 0.0)
  const UnitX: Vec3 := Vec3(1.0, 0.0, 0.0)
  const UnitY: Vec3 := Vec3(0.0, 1.0, 0.0)
  const UnitZ: Vec3 := Vec3(0.0, 0.0, 1.0)
  const Identity: Quat := Quat(0.0, 0.0, 0.0, 1.0)

  /** JavaScript's Number.MAX_VALUE, (2 - 2^-52) * 2^1023, written out exactly. */
  const MaxValue: real := 179769313486231570814527423731704356798070567525844996598917476803157260780028538760589558632766878171540458953514382464234321326889464182768467546703537516986049910576551282076245490090389328944075868508455133942304583236903222948165808559332123348274797826204144723168738177180919299881250404026184124858368.0

  function Add(a: Vec3, b: Vec3): Vec3
  {
    Vec3(a.x + b.x, a.y + b.y, a.z + b.z)
  }

  function Sub(a: Vec3, b: Vec3): Vec3
  {
    Vec3(a.x - b.x, a.y - b.y, a.z - b.z)
  }

  function Neg(a: Vec3): Vec3
  {
    Vec3(-a.x, -a.y, -a.z)
  }

  function Scale(s: real, a: Vec3): Vec3
  {
    Vec3(s * a.x, s * a.y, s * a.z)
  }

  /** Adding s1 u then s2 u adds (s1 + s2) u. */
  lemma AddScaled(v: Vec3, u: Vec3, s1: real, s2: real)
    ensures Add(Add(v, Scale(s1, u)), Scale(s2, u)) == Add(v, Scale(s1 + s2, u))
  {
  }

  /** Componentwise product (`vmul`). */
  function Mul(a: Vec3, b: Vec3): Vec3
  {
    Vec3(a.x * b.x, a.y * b.y, a.z * b.z)
  }

  function Dot(a: Vec3, b: Vec3): real
  {
    a.x * b.x + a.y * b.y + a.z * b.z
  }

  function Cross(a: Vec3, b: Vec3): Vec3
  {
    Vec3(a.y * b.z - a.z * b.y, a.z * b.x - a.x * b.z, a.x * b.y - a.y * b.x)
  }

  /** The conjugate quaternion: the inverse rotation of a unit quaternion. */
  function Conjugate(q: Quat): Quat
  {
    Quat(-q.x, -q.y, -q.z, q.w)
  }

  /** Matrix times vector (`vmult`). */
  function MatVec(m: Mat3, v: Vec3): Vec3
  {
    Vec3(Dot(m.r0, v), Dot(m.r1, v), Dot(m.r2, v))
  }

  const ZeroMat: Mat3 := Mat3(Zero, Zero, Zero)

  function NormSq(a: Vec3): real
  {
    Dot(a, a)
  }

  function Min(a: real, b: real): real
  {
    if a < b then a else b
  }

  function Max(a: real, b: real): real
  {
    if a > b then a else b
  }

  function Abs(a: real): real
  {
    if a < 0.0 then -a else a
  }

  /** Componentwise `a <= b`. */
  predicate LessEq(a: Vec3, b: Vec3)
  {
    a.x <= b.x && a.y <= b.y && a.z <= b.z
  }

  /** Grows a box to take in a point, one axis at a time. */
  function Extend(b: Aabb, p: Vec3): Aabb
  {
    Aabb(Vec3(Min(b.lower.x, p.x), Min(b.lower.y, p.y), Min(b.lower.z, p.z)),
         Vec3(Max(b.upper.x, p.x), Max(b.upper.y, p.y), Max(b.upper.z, p.z)))
  }

  predicate Inside(p: Vec3, b: Aabb)
  {
    LessEq(b.lower, p) && LessEq(p, b.upper)
  }

  /** The bounds of `first` and `points`, scanned left to right starting
      from the degenerate box at `first`: every point lies inside, and each
      of the six bounds is some point's coordinate. */
  function BoundsOf(first: Vec3, points: seq<Vec3>): (b: Aabb)
    ensures Inside(first, b)
    ensures forall k :: 0 <= k < |points| ==> Inside(points[k], b)
    ensures b.lower.x == first.x || exists k :: 0 <= k < |points| && b.lower.x == points[k].x
    ensures b.lower.y == first.y || exists k :: 0 <= k < |points| && b.lower.y == points[k].y
    ensures b.lower.z == first.z || exists k :: 0 <= k < |points| && b.lower.z == points[k].z
    ensures b.upper.x == first.x || exists k :: 0 <= k < |points| && b.upper.x == points[k].x
    ensures b.upper.y == first.y || exists k :: 0 <= k < |points| && b.upper.y == points[k].y
    ensures b.upper.z == first.z || exists k :: 0 <= k < |points| && b.upper.z == points[k].z
  {
    if |points| == 0 then Aabb(first, first)
    else
      var prefix := points[..|points| - 1];
      var b0 := BoundsOf(first, prefix);
      assert forall k :: 0 <= k < |prefix| ==> prefix[k] == points[k];
      Extend(b0, points[|points| - 1])
  }

  /** When two of the points are the corners of a box holding them all,
      their bounds are that box. */
  lemma BoundsOfTight(first: Vec3, points: seq<Vec3>, box: Aabb, lo: nat, hi: nat)
    requires Inside(first, box) && forall k :: 0 <= k < |points| ==> Inside(points[k], box)
    requires lo <= |points| && hi <= |points|
    requires ([first] + points)[lo] == box.lower && ([first] + points)[hi] == box.upper
    ensures BoundsOf(first, points) == box
  {
    var b := BoundsOf(first, points);
    var all := [first] + points;
    assert forall k :: 0 < k <= |points| ==> all[k] == points[k - 1];
    assert Inside(all[lo], b) && Inside(all[hi], b);
    assert b.lower == box.lower;
    assert b.upper == box.upper;
  }

  /** `a` holds `b`. */
  predicate Contains(a: Aabb, b: Aabb)
  {
    LessEq(a.lower, b.lower) && LessEq(b.upper, a.upper)
  }

  /** `extend`: the smallest box holding both boxes, axis by axis. */
  function Union(a: Aabb, b: Aabb): (r: Aabb)
    ensures Contains(r, a) && Contains(r, b)
    ensures forall c :: Contains(c, a) && Contains(c, b) ==> Contains(c, r)
  {
    Aabb(Vec3(Min(a.lower.x, b.lower.x), Min(a.lower.y, b.lower.y), Min(a.lower.z, b.lower.z)),
         Vec3(Max(a.upper.x, b.upper.x), Max(a.upper.y, b.upper.y), Max(a.upper.z, b.upper.z)))
  }

  /** The uninterpreted mathematics: the square root, the cosine and sine,
      normalisation, quaternion rotation, quaternion integration over a
      time step (with the optional renormalisation), the AABB relations,
      the pair of tangents orthogonal to a normal, the quaternion product,
      and the world-frame inverse inertia R diag(I) R^T of a rotation and
      a diagonal. */
  datatype MathOps = MathOps(
    sqrt: real -> real,
    cos: real -> real,
    sin: real -> real,
    normalize: Vec3 -> Vec3,
    rotate: (Quat, Vec3) -> Vec3,
    integrate: (Quat, Vec3, real, Vec3, bool, bool) -> Quat,
    contains: (Aabb, Aabb) -> bool,
    overlaps: (Aabb, Aabb) -> bool,
    tangents: Vec3 -> (Vec3, Vec3),
    mult: (Quat, Quat) -> Quat,
    inertiaWorld: (Quat, Vec3) -> Mat3)
}
