/** The triangle mesh: flat arrays of vertex coordinates, triangle indices
    and face normals, read through a per-axis scale.

    A read past the end of a typed array yields `undefined` and so a NaN
    vector or number in the source; the model returns `None` for it. A
    normals array holds `None` where the source stores the normal of such
    a vector, whatever `Vec3.normalize` makes of it. */
module Trimesh {
  import opened Vectors
  import opened Wrappers
  import Box
  import Octree
  import JsNumbers

  datatype Mesh = Mesh(vertices: seq<real>, indices: seq<int>, normals: seq<Option<real>>, scale: Vec3)

  /** The number of whole vertices. */
  function VertexCount(m: Mesh): nat
  {
    |m.vertices| / 3
  }

  /** `_getUnscaledVertex(i)`: the raw coordinate triple at 3i. */
  function UnscaledVertex(m: Mesh, i: int): (r: Option<Vec3>)
    ensures r.Some? <==> 0 <= i && 3 * i + 2 < |m.vertices|
    ensures r.Some? ==> r.value == Vec3(m.vertices[3 * i], m.vertices[3 * i + 1], m.vertices[3 * i + 2])
  {
    if 0 <= i && 3 * i + 2 < |m.vertices| then
      Some(Vec3(m.vertices[3 * i], m.vertices[3 * i + 1], m.vertices[3 * i + 2]))
    else None
  }

  /** `getVertex(i)`: the raw triple multiplied by the scale, axis by axis. */
  function GetVertex(m: Mesh, i: int): (r: Option<Vec3>)
    ensures r.Some? <==> 0 <= i < VertexCount(m)
    ensures r.Some? ==>
      r.value.x == m.vertices[3 * i] * m.scale.x &&
      r.value.y == m.vertices[3 * i + 1] * m.scale.y &&
      r.value.z == m.vertices[3 * i + 2] * m.scale.z
  {
    match UnscaledVertex(m, i)
    case None => None
    case Some(v) => Some(Mul(v, m.scale))
  }

  /** Under the unit scale a vertex is its raw triple, and under any scale
      with no zero axis the raw triple is recovered by dividing back. */
  lemma GetVertexUnscales(m: Mesh, i: int)
    requires GetVertex(m, i).Some?
    ensures m.scale == Vec3(1.0, 1.0, 1.0) ==> GetVertex(m, i) == UnscaledVertex(m, i)
    ensures m.scale.x != 0.0 && m.scale.y != 0.0 && m.scale.z != 0.0 ==>
      var v := GetVertex(m, i).value;
      UnscaledVertex(m, i) == Some(Vec3(v.x / m.scale.x, v.y / m.scale.y, v.z / m.scale.z))
  {
    var s := m.scale;
    if s.x != 0.0 && s.y != 0.0 && s.z != 0.0 {
      var p := UnscaledVertex(m, i).value;
      var v := GetVertex(m, i).value;
      assert v == Mul(p, s);
      assert v.x / s.x == p.x;
      assert v.y / s.y == p.y;
      assert v.z / s.z == p.z;
      assert UnscaledVertex(m, i) == Some(p);
    }
  }

  /** The scaled vertices in index order. */
  function Vertices(m: Mesh): (vs: seq<Vec3>)
    ensures |vs| == VertexCount(m)
    ensures forall k :: 0 <= k < |vs| ==> GetVertex(m, k) == Some(vs[k])
  {
    seq(VertexCount(m), k requires 0 <= k < VertexCount(m) => GetVertex(m, k).value)
  }

  /** `getTriangleVertices(i)`: the vertices named by indices 3i, 3i+1 and
      3i+2; `None` when the triangle or one of its vertices is missing. */
  function GetTriangleVertices(m: Mesh, i: int): (r: Option<(Vec3, Vec3, Vec3)>)
    ensures r.Some? <==>
      0 <= i && 3 * i + 2 < |m.indices| &&
      GetVertex(m, m.indices[3 * i]).Some? && GetVertex(m, m.indices[3 * i + 1]).Some? &&
      GetVertex(m, m.indices[3 * i + 2]).Some?
    ensures r.Some? ==>
      Some(r.value.0) == GetVertex(m, m.indices[3 * i]) &&
      Some(r.value.1) == GetVertex(m, m.indices[3 * i + 1]) &&
      Some(r.value.2) == GetVertex(m, m.indices[3 * i + 2])
  {
    if 0 <= i && 3 * i + 2 < |m.indices| then
      var a := GetVertex(m, m.indices[3 * i]);
      var b := GetVertex(m, m.indices[3 * i + 1]);
      var c := GetVertex(m, m.indices[3 * i + 2]);
      if a.Some? && b.Some? && c.Some? then Some((a.value, b.value, c.value)) else None
    else None
  }

  /** `getNormal(i)`: the stored normal of triangle i; `None` when one of its
      three numbers is NaN or lies past the end of the array. */
  function GetNormal(m: Mesh, i: int): (r: Option<Vec3>)
    ensures r.Some? <==>
      0 <= i && 3 * i + 2 < |m.normals| &&
      m.normals[3 * i].Some? && m.normals[3 * i + 1].Some? && m.normals[3 * i + 2].Some?
    ensures r.Some? ==>
      r.value == Vec3(m.normals[3 * i].value, m.normals[3 * i + 1].value, m.normals[3 * i + 2].value)
  {
    if 0 <= i && 3 * i + 2 < |m.normals| &&
       m.normals[3 * i].Some? && m.normals[3 * i + 1].Some? && m.normals[3 * i + 2].Some?
    then Some(Vec3(m.normals[3 * i].value, m.normals[3 * i + 1].value, m.normals[3 * i + 2].value))
    else None
  }

  /** `computeNormal(va, vb, vc)`: (vc - vb) x (vb - va), normalised unless
      it is the zero vector. */
  function ComputeNormal(va: Vec3, vb: Vec3, vc: Vec3, ops: MathOps): (n: Vec3)
    ensures Cross(Sub(vc, vb), Sub(vb, va)) == Zero ==> n == Zero
    ensures Cross(Sub(vc, vb), Sub(vb, va)) != Zero ==> n == ops.normalize(Cross(Sub(vc, vb), Sub(vb, va)))
  {
    var raw := Cross(Sub(vc, vb), Sub(vb, va));
    if raw == Zero then Zero else ops.normalize(raw)
  }

  /** Before normalisation the normal is orthogonal to both triangle sides
      it is built from, and a triangle with two equal corners has the zero
      normal. */
  lemma NormalOrthogonal(va: Vec3, vb: Vec3, vc: Vec3, ops: MathOps)
    ensures Dot(Cross(Sub(vc, vb), Sub(vb, va)), Sub(vb, va)) == 0.0
    ensures Dot(Cross(Sub(vc, vb), Sub(vb, va)), Sub(vc, vb)) == 0.0
    ensures va == vb || vb == vc ==> ComputeNormal(va, vb, vc, ops) == Zero
  {
  }


  /** Every index names one of the mesh's vertices. */
  predicate IndicesValid(m: Mesh)
  {
    forall k :: 0 <= k < |m.indices| ==> 0 <= m.indices[k] < VertexCount(m)
  }

  /** Every index is a 16-bit integer, as an `Int16Array` holds it. */
  predicate Int16Indices(m: Mesh)
  {
    forall k :: 0 <= k < |m.indices| ==> -0x8000 <= m.indices[k] < 0x8000
  }

  function Component(v: Vec3, axis: nat): real
    requires axis < 3
  {
    if axis == 0 then v.x else if axis == 1 then v.y else v.z
  }

  /** The loop condition `i < indices.length / 3` of `updateNormals` and
      `updateEdges`, whose division is exact. */
  predicate InLoop(i: nat, n: nat)
  {
    (i as real) < (n as real) / 3.0
  }

  /** The number of rounds of those loops: a partial last triangle gets a
      round of its own. */
  function Rounds(n: nat): (r: nat)
    ensures forall i: nat :: InLoop(i, n) <==> i < r
  {
    var r := (n + 2) / 3;
    forall i: nat
      ensures InLoop(i, n) <==> i < r
    {
      assert (3 * i) as real == 3.0 * (i as real);
    }
    r
  }

  /** The normal of triangle t as `updateNormals` computes it; note the
      first two corners are passed to `computeNormal` swapped. When the
      triangle names a missing vertex or is cut short by the end of the
      index list the cross product is NaN and is handed to `normalize`;
      `None` stands for whatever `normalize` makes of it. */
  function TriangleNormal(m: Mesh, t: nat, ops: MathOps): (n: Option<Vec3>)
    ensures n.Some? <==> GetTriangleVertices(m, t).Some?
  {
    match GetTriangleVertices(m, t)
    case None => None
    case Some(tri) => Some(ComputeNormal(tri.1, tri.0, tri.2, ops))
  }

  /** The number `updateNormals` writes at position p: component p % 3 of
      the normal of triangle p / 3, or `None` for a normalised NaN normal. */
  function NormalSlot(m: Mesh, p: nat, ops: MathOps): Option<real>
  {
    match TriangleNormal(m, p / 3, ops)
    case None => None
    case Some(n) => Some(Component(n, p % 3))
  }

  /** `updateNormals`: the normal of triangle t is written at 3t for every
      round of the loop; a write past the end of the `Float32Array` is
      dropped, and the positions no round reaches keep their numbers. */
  function UpdateNormals(m: Mesh, ops: MathOps): (r: Mesh)
    ensures r.vertices == m.vertices && r.indices == m.indices && r.scale == m.scale
    ensures |r.normals| == |m.normals|
    ensures forall t: nat :: t < Rounds(|m.indices|) && 3 * t + 2 < |m.normals| ==>
      GetNormal(r, t) == TriangleNormal(m, t, ops)
    ensures forall p :: 3 * (|m.indices| / 3) <= p < |m.indices| && p < |m.normals| ==> r.normals[p].None?
    ensures forall p :: 3 * Rounds(|m.indices|) <= p < |m.normals| ==> r.normals[p] == m.normals[p]
  {
    var r := m.(normals := Rewritten(m, ops));
    forall t: nat | t < Rounds(|m.indices|) && 3 * t + 2 < |m.normals|
      ensures GetNormal(r, t) == TriangleNormal(m, t, ops)
    {
      RewrittenNormal(m, ops, t);
    }
    forall p | 3 * (|m.indices| / 3) <= p < |m.indices| && p < |m.normals|
      ensures r.normals[p].None?
    {
      LastThird(p, |m.indices|);
    }
    r
  }

  /** The normals array after the loop of `updateNormals`. */
  function Rewritten(m: Mesh, ops: MathOps): (s: seq<Option<real>>)
    ensures |s| == |m.normals|
    ensures forall p :: 0 <= p < |s| ==>
      s[p] == if p < 3 * Rounds(|m.indices|) then NormalSlot(m, p, ops) else m.normals[p]
  {
    var written := 3 * Rounds(|m.indices|);
    seq(|m.normals|, p requires 0 <= p < |m.normals| => if p < written then NormalSlot(m, p, ops) else m.normals[p])
  }

  /** One round of `updateNormals` writes the normal of its triangle. */
  lemma RewrittenNormal(m: Mesh, ops: MathOps, t: nat)
    requires t < Rounds(|m.indices|) && 3 * t + 2 < |m.normals|
    ensures GetNormal(m.(normals := Rewritten(m, ops)), t) == TriangleNormal(m, t, ops)
  {
    Thirds(t);
  }

  /** The three positions of triangle t hold its three components. */
  lemma Thirds(t: nat)
    ensures (3 * t) / 3 == t && (3 * t + 1) / 3 == t && (3 * t + 2) / 3 == t
    ensures (3 * t) % 3 == 0 && (3 * t + 1) % 3 == 1 && (3 * t + 2) % 3 == 2
  {
  }

  /** A position in the cut-short tail of a list of length n belongs to the
      triangle n / 3. */
  lemma LastThird(p: nat, n: nat)
    requires 3 * (n / 3) <= p < n
    ensures p / 3 == n / 3
  {
  }

  /** On a mesh whose indices all name vertices and come in whole
      triangles, every triangle gets a number normal, the one
      `computeNormal` gives for its corners (the first two swapped). */
  lemma WholeMeshNormals(m: Mesh, ops: MathOps, t: nat)
    requires IndicesValid(m) && |m.indices| % 3 == 0 && |m.normals| == |m.indices|
    requires 3 * t + 2 < |m.indices|
    ensures var tri := GetTriangleVertices(m, t).value;
      GetNormal(UpdateNormals(m, ops), t) == Some(ComputeNormal(tri.1, tri.0, tri.2, ops))
  {
    assert InLoop(t, |m.indices|) by {
      assert (3 * t) as real == 3.0 * (t as real);
    }
    assert GetTriangleVertices(m, t).Some?;
  }

  /** `init`: the index list is stored through an `Int16Array`, the normals
      array is as long as the index list, the scale is the unit scale, and
      `updateNormals` fills the normals. */
  function Init(vertices: seq<real>, indices: seq<int>, ops: MathOps): (m: Mesh)
    ensures Int16Indices(m)
    ensures m.vertices == vertices && m.scale == Vec3(1.0, 1.0, 1.0)
    ensures |m.indices| == |indices| && |m.normals| == |indices|
    ensures forall k :: 0 <= k < |indices| ==> m.indices[k] == JsNumbers.ToInt16(indices[k])
    ensures forall k :: 0 <= k < |indices| && -0x8000 <= indices[k] < 0x8000 ==> m.indices[k] == indices[k]
    ensures forall t: nat :: 3 * t + 2 < |indices| ==> GetNormal(m, t) == TriangleNormal(m, t, ops)
  {
    var stored := seq(|indices|, k requires 0 <= k < |indices| => JsNumbers.ToInt16(indices[k]));
    var m := UpdateNormals(Mesh(vertices, stored, seq(|indices|, _ => Some(0.0)), Vec3(1.0, 1.0, 1.0)), ops);
    forall t: nat | 3 * t + 2 < |indices|
      ensures t < Rounds(|indices|)
    {
      assert InLoop(t, |indices|) by {
        assert (3 * t) as real == 3.0 * (t as real);
      }
    }
    m
  }

  /** An index of 32768 or more does not survive the 16-bit store: 32768
      comes back as -32768, which names no vertex, so a mesh with more than
      32768 vertices cannot reach its last ones. */
  lemma LargeIndexWraps(vertices: seq<real>, indices: seq<int>, ops: MathOps, k: nat)
    requires k < |indices| && indices[k] == 0x8000
    ensures Init(vertices, indices, ops).indices[k] == -0x8000
    ensures GetVertex(Init(vertices, indices, ops), Init(vertices, indices, ops).indices[k]).None?
  {
    assert JsNumbers.ToInt16(0x8000) == -0x8000;
  }

  /** One end of a triangle side: an index, or the `undefined` that a
      partial last triangle reads past the end of the index list. */
  datatype End = Index(i: int) | Undefined

  /** `this.indices[p]`. */
  function IndexAt(indices: seq<int>, p: int): (e: End)
    ensures e.Index? <==> 0 <= p < |indices|
    ensures e.Index? ==> e.i == indices[p]
  {
    if 0 <= p < |indices| then Index(indices[p]) else Undefined
  }

  /** The key of a side, `a < b ? a_b : b_a`: the smaller index first when
      both ends are numbers; a comparison with `undefined` is false, so
      then the second end comes first. The string key and the pair name
      the same side, since a decimal numeral holds no underscore. */
  function SideKey(a: End, b: End): (k: (End, End))
    ensures k == (a, b) || k == (b, a)
    ensures a.Index? && b.Index? ==> k.0.i <= k.1.i
    ensures a.Undefined? || b.Undefined? ==> k == (b, a)
  {
    if a.Index? && b.Index? && a.i < b.i then (a, b) else (b, a)
  }

  /** The sides of the first `t` rounds, three per round in the order
      (a, b), (b, c), (c, a). */
  function Sides(indices: seq<int>, t: nat): (s: seq<(End, End)>)
    ensures |s| == 3 * t
  {
    if t == 0 then []
    else
      var a, b, c := IndexAt(indices, 3 * t - 3), IndexAt(indices, 3 * t - 2), IndexAt(indices, 3 * t - 1);
      Sides(indices, t - 1) + [SideKey(a, b), SideKey(b, c), SideKey(c, a)]
  }

  /** Every key whose ends are both numbers has its smaller index first. */
  predicate Ordered(edges: seq<(End, End)>)
  {
    forall k :: 0 <= k < |edges| && edges[k].0.Index? && edges[k].1.Index? ==> edges[k].0.i <= edges[k].1.i
  }

  /** No key is listed twice. */
  predicate Distinct(edges: seq<(End, End)>)
  {
    forall p, q :: 0 <= p < q < |edges| ==> edges[p] != edges[q]
  }

  /** Appends a key unless it is already listed, as assigning `true` to an
      object property does. */
  function AddKey(edges: seq<(End, End)>, key: (End, End)): (r: seq<(End, End)>)
    ensures forall e :: e in r <==> e in edges || e == key
    ensures r == edges || r == edges + [key]
    ensures Distinct(edges) ==> Distinct(r)
    ensures Ordered(edges) && (key.0.Index? && key.1.Index? ==> key.0.i <= key.1.i) ==> Ordered(r)
  {
    if key in edges then edges else edges + [key]
  }

  /** Adds the three sides of the triangle (a, b, c). */
  function AddTriangle(edges: seq<(End, End)>, a: End, b: End, c: End): (r: seq<(End, End)>)
    requires Ordered(edges) && Distinct(edges)
    ensures forall e :: e in r <==> e in edges || e == SideKey(a, b) || e == SideKey(b, c) || e == SideKey(c, a)
    ensures Ordered(r) && Distinct(r)
  {
    var r1 := AddKey(edges, SideKey(a, b));
    var r2 := AddKey(r1, SideKey(b, c));
    AddKey(r2, SideKey(c, a))
  }

  /** `updateEdges`: every side met in every round of the loop, stored once,
      in the order the sides are first met; a partial last triangle
      contributes sides with an `undefined` end. */
  method UpdateEdges(indices: seq<int>) returns (edges: seq<(End, End)>)
    ensures forall e :: e in edges <==> e in Sides(indices, Rounds(|indices|))
    ensures Ordered(edges) && Distinct(edges)
  {
    edges := [];
    var n := Rounds(|indices|);
    var i := 0;
    while i < n
      invariant i <= n
      invariant forall e :: e in edges <==> e in Sides(indices, i)
      invariant Ordered(edges) && Distinct(edges)
    {
      SidesNext(indices, i);
      edges := AddTriangle(edges, IndexAt(indices, 3 * i), IndexAt(indices, 3 * i + 1), IndexAt(indices, 3 * i + 2));
      i := i + 1;
    }
  }

  /** The number `parseInt` gives for an end, as an `Int16Array` stores it:
      an index is kept when it is a 16-bit integer, and `undefined` parses
      to NaN, which is stored as 0. */
  function EdgeValue(e: End): (v: int)
    ensures -0x8000 <= v < 0x8000
    ensures e.Undefined? ==> v == 0
    ensures e.Index? && -0x8000 <= e.i < 0x8000 ==> v == e.i
  {
    match e
    case Undefined => 0
    case Index(i) => JsNumbers.ToInt16(i)
  }

  /** The flat `Int16Array` the edge list is stored in. */
  function EdgeArray(edges: seq<(End, End)>): (r: seq<int>)
    ensures |r| == 2 * |edges|
    ensures forall k :: 0 <= k < |edges| ==> r[2 * k] == EdgeValue(edges[k].0) && r[2 * k + 1] == EdgeValue(edges[k].1)
  {
    if |edges| == 0 then []
    else
      var rest := EdgeArray(edges[..|edges| - 1]);
      rest + [EdgeValue(edges[|edges| - 1].0), EdgeValue(edges[|edges| - 1].1)]
  }

  /** The sides of one more round. */
  lemma SidesNext(indices: seq<int>, t: nat)
    ensures Sides(indices, t + 1) == Sides(indices, t) +
      [SideKey(IndexAt(indices, 3 * t), IndexAt(indices, 3 * t + 1)),
       SideKey(IndexAt(indices, 3 * t + 1), IndexAt(indices, 3 * t + 2)),
       SideKey(IndexAt(indices, 3 * t + 2), IndexAt(indices, 3 * t))]
  {
    assert 3 * (t + 1) - 3 == 3 * t;
  }

  /** Each of the three sides of every round is among the sides
      `updateEdges` collects. */
  lemma SideOfTriangle(indices: seq<int>, t: nat)
    requires t < Rounds(|indices|)
    ensures var a, b, c := IndexAt(indices, 3 * t), IndexAt(indices, 3 * t + 1), IndexAt(indices, 3 * t + 2);
      var sides := Sides(indices, Rounds(|indices|));
      SideKey(a, b) in sides && SideKey(b, c) in sides && SideKey(c, a) in sides
  {
    SideInRun(indices, t, Rounds(|indices|));
  }

  /** The sides of round `t` appear at positions `3t` to `3t + 2` of any
      longer run. */
  lemma SideInRun(indices: seq<int>, t: nat, n: nat)
    requires t < n
    ensures var sides := Sides(indices, n);
      sides[3 * t] == SideKey(IndexAt(indices, 3 * t), IndexAt(indices, 3 * t + 1)) &&
      sides[3 * t + 1] == SideKey(IndexAt(indices, 3 * t + 1), IndexAt(indices, 3 * t + 2)) &&
      sides[3 * t + 2] == SideKey(IndexAt(indices, 3 * t + 2), IndexAt(indices, 3 * t))
  {
    var k := 3 * t;
    var sides := Sides(indices, n);
    var before := Sides(indices, t);
    var head := Sides(indices, t + 1);
    SidesNext(indices, t);
    SidesPrefix(indices, t + 1, n);
    assert |before| == k;
    PrefixAt(sides, head, k);
    PrefixAt(sides, head, k + 1);
    PrefixAt(sides, head, k + 2);
  }

  /** An element below the length of a prefix is that prefix's element. */
  lemma PrefixAt<T>(s: seq<T>, h: seq<T>, k: nat)
    requires |h| <= |s| && s[..|h|] == h && k < |h|
    ensures s[k] == h[k]
  {
    assert h[k] == s[..|h|][k];
  }

  /** A longer run of rounds extends the sides of a shorter one. */
  lemma {:induction false} SidesPrefix(indices: seq<int>, t: nat, n: nat)
    requires t <= n
    ensures Sides(indices, n)[..3 * t] == Sides(indices, t)
    decreases n - t
  {
    if t < n {
      SidesPrefix(indices, t, n - 1);
      assert Sides(indices, n)[..3 * (n - 1)] == Sides(indices, n - 1);
      assert Sides(indices, n)[..3 * t] == Sides(indices, n)[..3 * (n - 1)][..3 * t];
    }
  }

  /** Every side of the first t rounds has both ends defined when those
      rounds read only inside the index list. */
  lemma {:induction false} SidesDefined(indices: seq<int>, t: nat)
    requires 3 * t <= |indices|
    ensures forall e :: e in Sides(indices, t) ==> e.0.Index? && e.1.Index?
  {
    if t > 0 {
      SidesDefined(indices, t - 1);
    }
  }

  /** A whole list of triangles gives sides with number ends only, and a
      list cut short gives the side (a, undefined), a being the first index
      of the partial triangle. */
  lemma PartialTriangleSide(indices: seq<int>)
    ensures |indices| % 3 == 0 ==>
      forall e :: e in Sides(indices, Rounds(|indices|)) ==> e.0.Index? && e.1.Index?
    ensures |indices| % 3 != 0 ==>
      (Index(indices[3 * (|indices| / 3)]), Undefined) in Sides(indices, Rounds(|indices|))
  {
    var n := |indices|;
    if n % 3 == 0 {
      assert 3 * Rounds(n) == n;
      SidesDefined(indices, Rounds(n));
    } else {
      var t := n / 3;
      assert InLoop(t, n) by {
        assert (3 * t) as real == 3.0 * (t as real);
      }
      SideOfTriangle(indices, t);
    }
  }

  /** Whole vertex triples only. */
  predicate WholeVertices(m: Mesh)
  {
    |m.vertices| % 3 == 0
  }

  /** Each of the six bounds is some vertex's coordinate. */
  predicate Attained(b: Aabb, vs: seq<Vec3>)
  {
    (exists k :: 0 <= k < |vs| && b.lower.x == vs[k].x) &&
    (exists k :: 0 <= k < |vs| && b.lower.y == vs[k].y) &&
    (exists k :: 0 <= k < |vs| && b.lower.z == vs[k].z) &&
    (exists k :: 0 <= k < |vs| && b.upper.x == vs[k].x) &&
    (exists k :: 0 <= k < |vs| && b.upper.y == vs[k].y) &&
    (exists k :: 0 <= k < |vs| && b.upper.z == vs[k].z)
  }

  lemma BoundsOfStep(first: Vec3, vs: seq<Vec3>, i: nat)
    requires i < |vs|
    ensures BoundsOf(first, vs[..i + 1]) == Extend(BoundsOf(first, vs[..i]), vs[i])
  {
    assert vs[..i + 1][..i] == vs[..i];
  }

  /** One round of `computeLocalAABB`'s loop: each axis moves its lower
      bound down to the vertex, or else its upper bound up to it. */
  method Widen(l: Vec3, u: Vec3, v: Vec3) returns (l2: Vec3, u2: Vec3)
    requires LessEq(l, u)
    ensures Aabb(l2, u2) == Extend(Aabb(l, u), v)
  {
    var lx, ux := l.x, u.x;
    if v.x < lx { lx := v.x; } else if v.x > ux { ux := v.x; }
    var ly, uy := l.y, u.y;
    if v.y < ly { ly := v.y; } else if v.y > uy { uy := v.y; }
    var lz, uz := l.z, u.z;
    if v.z < lz { lz := v.z; } else if v.z > uz { uz := v.z; }
    l2, u2 := Vec3(lx, ly, lz), Vec3(ux, uy, uz);
  }

  /** `computeLocalAABB`: starts from vertex 0 and widens the box vertex by
      vertex. The loop runs over the float count rather than the vertex
      count; the reads past the last vertex are NaN and change nothing.
      `None` stands for the NaN box of a mesh without vertices. */
  method ComputeLocalAabb(m: Mesh) returns (r: Option<Aabb>)
    requires WholeVertices(m)
    ensures r.Some? <==> VertexCount(m) > 0
    ensures r.Some? ==> forall k :: 0 <= k < VertexCount(m) ==> Inside(Vertices(m)[k], r.value)
    ensures r.Some? ==> Attained(r.value, Vertices(m))
    ensures r.Some? ==> r.value == BoundsOf(Vertices(m)[0], Vertices(m))
  {
    var vs := Vertices(m);
    var first := GetVertex(m, 0);
    if first.None? {
      return None;
    }
    var v0 := first.value;
    var l, u := v0, v0;
    var n := |m.vertices|;
    var i := 0;
    while i != n
      invariant 0 <= i <= n
      invariant i <= |vs| ==> Aabb(l, u) == BoundsOf(v0, vs[..i])
      invariant i > |vs| ==> Aabb(l, u) == BoundsOf(v0, vs)
      decreases n - i
    {
      var vi := GetVertex(m, i);
      if vi.Some? {
        assert Inside(v0, Aabb(l, u));
        BoundsOfStep(v0, vs, i);
        l, u := Widen(l, u, vi.value);
      } else {
        assert i >= |vs|;
        assert i == |vs| ==> vs[..i] == vs;
      }
      i := i + 1;
    }
    assert vs[..|vs|] == vs;
    var box := BoundsOf(v0, vs);
    assert vs[0] == v0;
    r := Some(box);
  }

  /** `updateBoundingSphereRadius`: the square root of the largest squared
      norm of a scaled vertex, or of 0 when there is none. Both the square
      and the radius are returned. */
  method UpdateBoundingSphereRadius(m: Mesh, ops: MathOps) returns (radius: real, max2: real)
    requires WholeVertices(m)
    ensures max2 >= 0.0
    ensures forall k :: 0 <= k < VertexCount(m) ==> NormSq(Vertices(m)[k]) <= max2
    ensures max2 == 0.0 || exists k :: 0 <= k < VertexCount(m) && NormSq(Vertices(m)[k]) == max2
    ensures radius == ops.sqrt(max2)
  {
    var vs := Vertices(m);
    max2 := 0.0;
    var n := VertexCount(m);
    var i := 0;
    while i != n
      invariant 0 <= i <= n
      invariant max2 >= 0.0
      invariant forall k :: 0 <= k < i ==> NormSq(vs[k]) <= max2
      invariant max2 == 0.0 || exists k :: 0 <= k < i && NormSq(vs[k]) == max2
    {
      var v := GetVertex(m, i).value;
      var norm2 := NormSq(v);
      if norm2 > max2 {
        max2 := norm2;
      }
      i := i + 1;
    }
    radius := ops.sqrt(max2);
  }

  /** `calculateLocalInertia`: the box formula applied to the extents of
      the local box (upper minus lower, used where a box uses its half
      extents). `None` for a mesh without vertices. */
  method CalculateLocalInertia(m: Mesh, mass: real) returns (r: Option<Vec3>)
    requires WholeVertices(m)
    ensures r.Some? <==> VertexCount(m) > 0
    ensures r.Some? ==>
      var b := BoundsOf(Vertices(m)[0], Vertices(m));
      r.value == Box.CalculateInertia(Sub(b.upper, b.lower), mass)
  {
    var box := ComputeLocalAabb(m);
    if box.None? {
      return None;
    }
    var b := box.value;
    r := Some(Box.CalculateInertia(Sub(b.upper, b.lower), mass));
  }

  /** The inertia of a mesh is never negative for a non-negative mass. */
  lemma InertiaNonNegative(e: Vec3, mass: real)
    requires mass >= 0.0
    ensures var i := Box.CalculateInertia(e, mass); i.x >= 0.0 && i.y >= 0.0 && i.z >= 0.0
  {
    var i := Box.CalculateInertia(e, mass);
    assert e.x * e.x >= 0.0 && e.y * e.y >= 0.0 && e.z * e.z >= 0.0;
    assert i.x == mass * ((4.0 * e.y * e.y + 4.0 * e.z * e.z) / 12.0);
    assert i.y == mass * ((4.0 * e.x * e.x + 4.0 * e.z * e.z) / 12.0);
    assert i.z == mass * ((4.0 * e.y * e.y + 4.0 * e.x * e.x) / 12.0);
  }

  /** The query box divided by the scale, axis by axis. */
  function UnscaleAabb(q: Aabb, s: Vec3): (r: Aabb)
    requires s.x != 0.0 && s.y != 0.0 && s.z != 0.0
    ensures Mul(r.lower, s) == q.lower && Mul(r.upper, s) == q.upper
  {
    Aabb(Vec3(q.lower.x / s.x, q.lower.y / s.y, q.lower.z / s.z),
         Vec3(q.upper.x / s.x, q.upper.y / s.y, q.upper.z / s.z))
  }

  /** `getTrianglesInAABB`: queries the octree of unscaled triangles with
      the query box brought into unscaled coordinates. */
  method GetTrianglesInAabb(m: Mesh, tree: Octree.Node<int>, q: Aabb, result0: seq<int>, overlaps: (Aabb, Aabb) -> bool)
    returns (result: seq<int>)
    requires m.scale.x != 0.0 && m.scale.y != 0.0 && m.scale.z != 0.0
    ensures |result| >= |result0| && result[..|result0|] == result0
    ensures multiset(result) == multiset(result0) + Octree.Query(tree, UnscaleAabb(q, m.scale), overlaps)
  {
    result := Octree.AabbQuery(tree, UnscaleAabb(q, m.scale), result0, overlaps);
  }

  lemma ScaledBound(p: real, s: real, b: real)
    requires s > 0.0
    ensures b / s <= p <==> b <= p * s
    ensures p <= b / s <==> p * s <= b
  {
    assert (b / s) * s == b;
    if b / s <= p {
      assert (b / s) * s <= p * s;
    }
    if b <= p * s {
      assert b / s <= (p * s) / s;
    }
    if p <= b / s {
      assert p * s <= (b / s) * s;
    }
    if p * s <= b {
      assert (p * s) / s <= b / s;
    }
  }

  /** Under a positive scale, an unscaled vertex lies in the unscaled query
      exactly when the scaled vertex lies in the query itself. */
  lemma UnscaledQueryMatchesScaledVertex(m: Mesh, q: Aabb, i: int)
    requires m.scale.x > 0.0 && m.scale.y > 0.0 && m.scale.z > 0.0
    requires GetVertex(m, i).Some?
    ensures Inside(UnscaledVertex(m, i).value, UnscaleAabb(q, m.scale)) <==> Inside(GetVertex(m, i).value, q)
  {
    var p := UnscaledVertex(m, i).value;
    var s := m.scale;
    ScaledBound(p.x, s.x, q.lower.x);
    ScaledBound(p.y, s.y, q.lower.y);
    ScaledBound(p.z, s.z, q.lower.z);
    ScaledBound(p.x, s.x, q.upper.x);
    ScaledBound(p.y, s.y, q.upper.y);
    ScaledBound(p.z, s.z, q.upper.z);
  }
}
