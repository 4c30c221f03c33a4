/** The cylinder shape: a convex polyhedron of `numSegments` side faces.

    The vertex coordinates depend on sines and cosines and are not computed;
    each vertex is named by its ring (bottom or top) and its step around the
    axis, vertex `2i` being bottom step `i` and `2i+1` top step `i`. Each
    side axis is named by the half step it is perpendicular to. */
module Cylinder {
  import opened Wrappers

  datatype CylVertex = CylVertex(top: bool, step: nat)

  datatype CylAxis = Side(halfStep: nat) | Up

  datatype Polyhedron = Polyhedron(vertices: seq<CylVertex>, faces: seq<seq<int>>, axes: seq<CylAxis>)

  datatype Cylinder = Cylinder(radiusTop: real, radiusBottom: real, height: real, numSegments: nat, hull: Polyhedron)

  /** The side face of segment `i`; the last one closes the ring onto the
      first pair of vertices. */
  function SideFace(i: nat, n: nat): seq<int>
  {
    if i + 1 < n then [2 * i, 2 * i + 1, 2 * i + 3, 2 * i + 2] else [2 * i, 2 * i + 1, 1, 0]
  }

  /** How many vertex pairs the first `i` segments have added. */
  function PairsAdded(i: nat, n: nat): nat
  {
    if i < n then i else if n == 0 then 0 else n - 1
  }

  /** How many side axes are kept: all of them for an odd count, half for an
      even one (opposite faces share an axis). */
  function SideAxisCount(n: nat): nat
  {
    if n % 2 == 1 then n else n / 2
  }

  /** The loop of `init` over the segments: the vertex pairs, the bottom
      and top rings' indices, the side faces and the side axes. */
  method BuildSides(n: nat) returns (vertices: seq<CylVertex>, bottom: seq<int>, top: seq<int>, faces: seq<seq<int>>, axes: seq<CylAxis>)
    ensures |vertices| == (if n == 0 then 2 else 2 * n)
    ensures forall k :: 0 <= k < |vertices| ==> vertices[k] == CylVertex(k % 2 == 1, k / 2)
    ensures |bottom| == |top| == |vertices| / 2
    ensures forall k :: 0 <= k < |bottom| ==> bottom[k] == 2 * k && top[k] == 2 * k + 1
    ensures |faces| == n && forall f :: 0 <= f < n ==> faces[f] == SideFace(f, n)
    ensures |axes| == SideAxisCount(n)
    ensures forall k :: 0 <= k < |axes| ==> axes[k] == Side(k)
  {
    vertices := [CylVertex(false, 0), CylVertex(true, 0)];
    bottom := [0];
    top := [1];
    faces := [];
    axes := [];
    var i := 0;
    while i < n
      invariant 0 <= i <= n
      invariant |vertices| == 2 + 2 * PairsAdded(i, n)
      invariant forall k :: 0 <= k < |vertices| ==> vertices[k] == CylVertex(k % 2 == 1, k / 2)
      invariant |bottom| == |top| == 1 + PairsAdded(i, n)
      invariant forall k :: 0 <= k < |bottom| ==> bottom[k] == 2 * k && top[k] == 2 * k + 1
      invariant |faces| == i && forall f :: 0 <= f < i ==> faces[f] == SideFace(f, n)
      invariant |axes| == (if i < SideAxisCount(n) then i else SideAxisCount(n))
      invariant forall k :: 0 <= k < |axes| ==> axes[k] == Side(k)
    {
      if i < n - 1 {
        vertices := vertices + [CylVertex(false, i + 1), CylVertex(true, i + 1)];
        bottom := bottom + [2 * i + 2];
        top := top + [2 * i + 3];
        faces := faces + [[2 * i, 2 * i + 1, 2 * i + 3, 2 * i + 2]];
      } else {
        faces := faces + [[2 * i, 2 * i + 1, 1, 0]];
      }
      if n % 2 == 1 || i < n / 2 {
        axes := axes + [Side(i)];
      }
      i := i + 1;
    }
  }

  /** The top ring's indices in reverse order. */
  method Reverse(top: seq<int>) returns (reversed: seq<int>)
    ensures |reversed| == |top|
    ensures forall k :: 0 <= k < |top| ==> reversed[k] == top[|top| - k - 1]
  {
    reversed := [];
    var j := 0;
    while j < |top|
      invariant 0 <= j <= |top|
      invariant |reversed| == j
      invariant forall k :: 0 <= k < j ==> reversed[k] == top[|top| - k - 1]
    {
      reversed := reversed + [top[|top| - j - 1]];
      j := j + 1;
    }
  }

  /** Every index of every face names a vertex. */
  predicate FacesInRange(faces: seq<seq<int>>, count: nat)
  {
    forall f, k :: 0 <= f < |faces| && 0 <= k < |faces[f]| ==> 0 <= faces[f][k] < count
  }

  /** The side faces and both caps index only the vertices there are. */
  lemma HullFacesInRange(n: nat, sides: seq<seq<int>>, bottom: seq<int>, reversed: seq<int>, count: nat)
    requires count == (if n == 0 then 2 else 2 * n) && |sides| == n
    requires forall f :: 0 <= f < n ==> sides[f] == SideFace(f, n)
    requires |bottom| == |reversed| == count / 2
    requires forall k :: 0 <= k < |bottom| ==> bottom[k] == 2 * k
    requires forall k :: 0 <= k < |reversed| ==> reversed[k] == count - 1 - 2 * k
    ensures FacesInRange(sides + [bottom] + [reversed], count)
  {
    var faces := sides + [bottom] + [reversed];
    forall f, k | 0 <= f < |faces| && 0 <= k < |faces[f]|
      ensures 0 <= faces[f][k] < count
    {
      if f < n {
        assert faces[f] == SideFace(f, n);
      } else if f == n {
        assert faces[f] == bottom;
      } else {
        assert faces[f] == reversed;
      }
    }
  }

  /** The polyhedron `init` builds for `n` segments. */
  method BuildHull(n: nat) returns (h: Polyhedron)
    ensures |h.vertices| == (if n == 0 then 2 else 2 * n)
    ensures forall k :: 0 <= k < |h.vertices| ==> h.vertices[k] == CylVertex(k % 2 == 1, k / 2)
    ensures |h.faces| == n + 2
    ensures forall i :: 0 <= i < n ==> h.faces[i] == SideFace(i, n)
    ensures |h.faces[n]| == |h.faces[n + 1]| == |h.vertices| / 2
    ensures forall k :: 0 <= k < |h.faces[n]| ==> h.faces[n][k] == 2 * k
    ensures forall k :: 0 <= k < |h.faces[n + 1]| ==> h.faces[n + 1][k] == |h.vertices| - 1 - 2 * k
    ensures FacesInRange(h.faces, |h.vertices|)
    ensures |h.axes| == SideAxisCount(n) + 1
    ensures forall k :: 0 <= k < SideAxisCount(n) ==> h.axes[k] == Side(k)
    ensures h.axes[SideAxisCount(n)] == Up
  {
    var vertices, bottom, top, sides, axes := BuildSides(n);
    var reversed := Reverse(top);
    assert forall k :: 0 <= k < |reversed| ==> reversed[k] == |vertices| - 1 - 2 * k;
    HullFacesInRange(n, sides, bottom, reversed, |vertices|);
    var faces := sides + [bottom] + [reversed];
    assert faces[n] == bottom && faces[n + 1] == reversed;
    h := Polyhedron(vertices, faces, axes + [Up]);
  }

  /** `init(options)`: radii and height default to 1 and the segment count
      to 8; a negative radius throws, the top radius being checked first. */
  method Init(radiusTop: Option<real>, radiusBottom: Option<real>, height: Option<real>, numSegments: Option<nat>)
    returns (r: Result<Cylinder>)
    ensures var top := if radiusTop.Some? then radiusTop.value else 1.0;
      var bottom := if radiusBottom.Some? then radiusBottom.value else 1.0;
      (r.Err? <==> top < 0.0 || bottom < 0.0) &&
      (top < 0.0 ==> r == Err(Thrown("The cylinder radiusTop cannot be negative."))) &&
      (r.Ok? ==> r.value.radiusTop == top && r.value.radiusBottom == bottom)
    ensures r.Ok? ==> r.value.height == (if height.Some? then height.value else 1.0)
    ensures r.Ok? ==> r.value.numSegments == (if numSegments.Some? then numSegments.value else 8)
    ensures r.Ok? ==> |r.value.hull.faces| == r.value.numSegments + 2
  {
    var top := if radiusTop.Some? then radiusTop.value else 1.0;
    var bottom := if radiusBottom.Some? then radiusBottom.value else 1.0;
    var h := if height.Some? then height.value else 1.0;
    var n := if numSegments.Some? then numSegments.value else 8;
    if top < 0.0 {
      return Err(Thrown("The cylinder radiusTop cannot be negative."));
    }
    if bottom < 0.0 {
      return Err(Thrown("The cylinder radiusBottom cannot be negative."));
    }
    var hull := BuildHull(n);
    r := Ok(Cylinder(top, bottom, h, n, hull));
  }
}
