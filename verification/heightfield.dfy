/** The heightfield shape: a matrix of heights `data[xi][yi]` sampled every
    `elementSize` along x and y, split into lower and upper triangles, with
    a cache of the triangular pillars the convex routines collide against.

    A height left unset (`null`, or `undefined` read from an empty row) is
    `None`. Pillar cache keys are the strings `${xi}_${yi}_${0|1}`; for
    integer indices that string names the triple, which is the key here. */
module Heightfield {
  import opened Wrappers
  import opened Vectors
  import Shape

  datatype PillarKey = PillarKey(xi: int, yi: int, upper: bool)

  /** A triangular pillar: six vertices relative to `offset`, five faces. */
  datatype Pillar = Pillar(vertices: seq<Vec3>, faces: seq<seq<int>>, offset: Vec3)

  datatype Heightfield = Heightfield(
    base: Shape.Shape,
    data: seq<seq<real>>,
    minValue: Option<real>,
    maxValue: Option<real>,
    elementSize: real,
    cacheEnabled: bool,
    pillar: Pillar,
    cache: map<PillarKey, Pillar>)

  predicate CellIn(data: seq<seq<real>>, i: int, j: int)
  {
    0 <= i < |data| && 0 <= j < |data[i]|
  }

  /** `m` is at most (or, for `max`, at least) every height in rows `0..rows`. */
  predicate Bounds(m: real, data: seq<seq<real>>, rows: int, max: bool)
    requires rows <= |data|
  {
    forall i, j :: 0 <= i < rows && 0 <= j < |data[i]| ==> (if max then data[i][j] <= m else m <= data[i][j])
  }

  /** `m` is one of the heights. */
  predicate Attained(m: real, data: seq<seq<real>>)
  {
    exists i, j :: 0 <= i < |data| && 0 <= j < |data[i]| && data[i][j] == m
  }

  /** The scan shared by `updateMinValue` and `updateMaxValue`: start from
      `data[0][0]` and keep every strictly smaller (larger) height. An empty
      matrix throws; an empty first row leaves the start `undefined`, which no
      comparison replaces. */
  method ScanExtreme(data: seq<seq<real>>, max: bool) returns (r: Result<Option<real>>)
    ensures r.Err? <==> |data| == 0
    ensures r.Ok? ==> (r.value.None? <==> |data[0]| == 0)
    ensures r.Ok? && r.value.Some? ==> Bounds(r.value.value, data, |data|, max) && Attained(r.value.value, data)
  {
    if |data| == 0 {
      return Err(TypeError("Cannot read properties of undefined (reading '0')"));
    }
    if |data[0]| == 0 {
      return Ok(None);
    }
    var m := data[0][0];
    var i := 0;
    while i != |data|
      invariant 0 <= i <= |data|
      invariant Bounds(m, data, i, max) && Attained(m, data)
    {
      var j := 0;
      while j != |data[i]|
        invariant 0 <= j <= |data[i]|
        invariant Bounds(m, data, i, max) && Attained(m, data)
        invariant forall k :: 0 <= k < j ==> (if max then data[i][k] <= m else m <= data[i][k])
      {
        var v := data[i][j];
        if (max && v > m) || (!max && v < m) {
          m := v;
        }
        j := j + 1;
      }
      i := i + 1;
    }
    r := Ok(Some(m));
  }

  /** `updateMinValue`: the smallest height. */
  method UpdateMinValue(h: Heightfield) returns (r: Result<Heightfield>)
    ensures r.Err? <==> |h.data| == 0
    ensures r.Ok? ==> r.value == h.(minValue := r.value.minValue)
    ensures r.Ok? && |h.data[0]| > 0 ==>
      r.value.minValue.Some? && Bounds(r.value.minValue.value, h.data, |h.data|, false) && Attained(r.value.minValue.value, h.data)
  {
    var m := ScanExtreme(h.data, false);
    if m.Err? {
      return Err(m.error);
    }
    r := Ok(h.(minValue := m.value));
  }

  /** `updateMaxValue`: the largest height. */
  method UpdateMaxValue(h: Heightfield) returns (r: Result<Heightfield>)
    ensures r.Err? <==> |h.data| == 0
    ensures r.Ok? ==> r.value == h.(maxValue := r.value.maxValue)
    ensures r.Ok? && |h.data[0]| > 0 ==>
      r.value.maxValue.Some? && Bounds(r.value.maxValue.value, h.data, |h.data|, true) && Attained(r.value.maxValue.value, h.data)
  {
    var m := ScanExtreme(h.data, true);
    if m.Err? {
      return Err(m.error);
    }
    r := Ok(h.(maxValue := m.value));
  }

  /** The rectangle `[iMinX, iMaxX] x [iMinY, iMaxY]` (inclusive). */
  predicate InRect(i: int, j: int, iMinX: int, iMinY: int, iMaxX: int, iMaxY: int)
  {
    iMinX <= i <= iMaxX && iMinY <= j <= iMaxY
  }

  /** `getRectMinMax`: the minimum is `minValue` as stored; the maximum
      starts there and takes in every height of the rectangle. A row index
      outside the matrix throws as soon as it is read; a column past the end
      of a row reads `undefined` and changes nothing. */
  method GetRectMinMax(h: Heightfield, iMinX: int, iMinY: int, iMaxX: int, iMaxY: int)
    returns (r: Result<(Option<real>, Option<real>)>)
    ensures r.Err? <==> iMinY <= iMaxY && iMinX <= iMaxX && (iMinX < 0 || iMaxX >= |h.data|)
    ensures r.Ok? ==> r.value.0 == h.minValue
    ensures r.Ok? && h.minValue.None? ==> r.value.1 == None
    ensures r.Ok? && h.minValue.Some? ==> r.value.1.Some? && h.minValue.value <= r.value.1.value
    ensures r.Ok? && h.minValue.Some? ==>
      forall i, j :: InRect(i, j, iMinX, iMinY, iMaxX, iMaxY) && CellIn(h.data, i, j) ==> h.data[i][j] <= r.value.1.value
    ensures r.Ok? && h.minValue.Some? ==> (r.value.1.value == h.minValue.value ||
      exists i, j :: InRect(i, j, iMinX, iMinY, iMaxX, iMaxY) && CellIn(h.data, i, j) && h.data[i][j] == r.value.1.value)
  {
    var max := h.minValue;
    if iMinY > iMaxY || iMinX > iMaxX {
      return Ok((h.minValue, max));
    }
    var i := iMinX;
    while i <= iMaxX
      invariant iMinX <= i <= iMaxX + 1
      invariant i > iMinX ==> 0 <= iMinX && i <= |h.data|
      invariant max.None? <==> h.minValue.None?
      invariant max.Some? ==> h.minValue.value <= max.value
      invariant max.Some? ==> forall a, b :: InRect(a, b, iMinX, iMinY, i - 1, iMaxY) && CellIn(h.data, a, b) ==> h.data[a][b] <= max.value
      invariant max.Some? ==> (max.value == h.minValue.value ||
        exists a, b :: InRect(a, b, iMinX, iMinY, iMaxX, iMaxY) && CellIn(h.data, a, b) && h.data[a][b] == max.value)
    {
      if !(0 <= i < |h.data|) {
        return Err(TypeError("Cannot read properties of undefined"));
      }
      var j := iMinY;
      while j <= iMaxY
        invariant iMinY <= j <= iMaxY + 1
        invariant 0 <= iMinX <= i < |h.data|
        invariant max.None? <==> h.minValue.None?
        invariant max.Some? ==> h.minValue.value <= max.value
        invariant max.Some? ==> forall a, b :: InRect(a, b, iMinX, iMinY, i - 1, iMaxY) && CellIn(h.data, a, b) ==> h.data[a][b] <= max.value
        invariant max.Some? ==> forall b :: iMinY <= b < j && CellIn(h.data, i, b) ==> h.data[i][b] <= max.value
        invariant max.Some? ==> (max.value == h.minValue.value ||
          exists a, b :: InRect(a, b, iMinX, iMinY, iMaxX, iMaxY) && CellIn(h.data, a, b) && h.data[a][b] == max.value)
      {
        if 0 <= j < |h.data[i]| && max.Some? && h.data[i][j] > max.value {
          max := Some(h.data[i][j]);
        }
        j := j + 1;
      }
      assert max.Some? ==> forall a, b :: InRect(a, b, iMinX, iMinY, i, iMaxY) && CellIn(h.data, a, b) ==> h.data[a][b] <= max.value by {
        if max.Some? {
          forall a, b | InRect(a, b, iMinX, iMinY, i, iMaxY) && CellIn(h.data, a, b)
            ensures h.data[a][b] <= max.value
          {
            if a < i {
              assert InRect(a, b, iMinX, iMinY, i - 1, iMaxY);
            }
          }
        }
      }
      i := i + 1;
    }
    r := Ok((h.minValue, max));
  }

  /** `getIndexOfPosition(x, y, result, clamp)`: the indices written to
      `result` are the unclamped floors; the answer says whether the
      (possibly clamped) rectangle lies inside the grid. Every built
      heightfield has a first row (construction reads it). */
  function GetIndexOfPosition(h: Heightfield, x: real, y: real, clamp: bool): (r: ((int, int), bool))
    requires |h.data| >= 1 && h.elementSize != 0.0
    ensures r.0 == ((x / h.elementSize).Floor, (y / h.elementSize).Floor)
  {
    var w := h.elementSize;
    var xi0 := (x / w).Floor;
    var yi0 := (y / w).Floor;
    var xi1 := if clamp && xi0 < 0 then 0 else xi0;
    var yi1 := if clamp && yi0 < 0 then 0 else yi0;
    var xi := if clamp && xi1 >= |h.data| - 1 then |h.data| - 1 else xi1;
    var yi := if clamp && yi1 >= |h.data[0]| - 1 then |h.data[0]| - 1 else yi1;
    ((xi0, yi0), !(xi < 0 || yi < 0 || xi >= |h.data| - 1 || yi >= |h.data[0]| - 1))
  }

  /** Without clamping a position is on the grid iff both floors index a
      rectangle. With clamping, positions before the first row or column are
      pulled onto the grid, but positions past the last one are pulled onto
      the last row, which the bail-out test then rejects: clamping rescues
      only the low side, and a grid narrower than two samples has no
      rectangle at all. */
  lemma GetIndexOfPositionOnGrid(h: Heightfield, x: real, y: real, clamp: bool)
    requires |h.data| >= 1 && h.elementSize != 0.0
    ensures var r := GetIndexOfPosition(h, x, y, clamp);
      var (xi, yi) := r.0;
      (!clamp ==> (r.1 <==> 0 <= xi < |h.data| - 1 && 0 <= yi < |h.data[0]| - 1)) &&
      (clamp ==> (r.1 <==> |h.data| >= 2 && |h.data[0]| >= 2 && xi < |h.data| - 1 && yi < |h.data[0]| - 1))
  {
  }

  /** The rectangle at (xi, yi) has all four corners in the matrix. */
  predicate TriangleIn(data: seq<seq<real>>, xi: int, yi: int)
  {
    0 <= xi && xi + 1 < |data| && 0 <= yi && yi + 1 < |data[xi]| && yi + 1 < |data[xi + 1]|
  }

  /** The sample at (i, j) as a point. */
  function GridPoint(h: Heightfield, i: int, j: int): Vec3
    requires CellIn(h.data, i, j)
  {
    Vec3(i as real * h.elementSize, j as real * h.elementSize, h.data[i][j])
  }

  /** `getTriangle(xi, yi, upper, a, b, c)`: the lower triangle has the right
      angle at (xi, yi), the upper one at (xi+1, yi+1); both are listed
      anticlockwise seen from above. */
  function GetTriangle(h: Heightfield, xi: int, yi: int, upper: bool): (t: (Vec3, Vec3, Vec3))
    requires TriangleIn(h.data, xi, yi)
    ensures !upper ==> t.0 == GridPoint(h, xi, yi) && t.1 == GridPoint(h, xi + 1, yi) && t.2 == GridPoint(h, xi, yi + 1)
    ensures upper ==> t.0 == GridPoint(h, xi + 1, yi + 1) && t.1 == GridPoint(h, xi, yi + 1) && t.2 == GridPoint(h, xi + 1, yi)
  {
    var w := h.elementSize;
    var data := h.data;
    if upper then
      (Vec3((xi + 1) as real * w, (yi + 1) as real * w, data[xi + 1][yi + 1]),
       Vec3(xi as real * w, (yi + 1) as real * w, data[xi][yi + 1]),
       Vec3((xi + 1) as real * w, yi as real * w, data[xi + 1][yi]))
    else
      (Vec3(xi as real * w, yi as real * w, data[xi][yi]),
       Vec3((xi + 1) as real * w, yi as real * w, data[xi + 1][yi]),
       Vec3(xi as real * w, (yi + 1) as real * w, data[xi][yi + 1]))
  }

  /** The vertical centre of a pillar: halfway between `minValue` and the
      lowest of the rectangle's four corners. */
  function PillarCentre(h: Heightfield, xi: int, yi: int): real
    requires TriangleIn(h.data, xi, yi) && h.minValue.Some?
  {
    var lowest := Min(Min(Min(h.data[xi][yi], h.data[xi + 1][yi]), h.data[xi][yi + 1]), h.data[xi + 1][yi + 1]);
    (lowest - h.minValue.value) / 2.0 + h.minValue.value
  }

  /** The pillar `getConvexTrianglePillar` builds under a triangle: the
      triangle on top, a flat bottom at depth -|h| - 1, relative to an
      offset a quarter of a cell in from the right-angle corner. */
  function BuildPillar(h: Heightfield, xi: int, yi: int, upper: bool): (p: Pillar)
    requires TriangleIn(h.data, xi, yi) && h.minValue.Some?
    ensures |p.vertices| == 6 && |p.faces| == 5
    ensures forall f, k :: 0 <= f < 5 && 0 <= k < |p.faces[f]| ==> 0 <= p.faces[f][k] < 6
  {
    var w := h.elementSize;
    var data := h.data;
    var c := PillarCentre(h, xi, yi);
    var bottom := -Abs(c) - 1.0;
    if !upper then
      Pillar(
        [Vec3(-0.25 * w, -0.25 * w, data[xi][yi] - c),
         Vec3(0.75 * w, -0.25 * w, data[xi + 1][yi] - c),
         Vec3(-0.25 * w, 0.75 * w, data[xi][yi + 1] - c),
         Vec3(-0.25 * w, -0.25 * w, bottom),
         Vec3(0.75 * w, -0.25 * w, bottom),
         Vec3(-0.25 * w, 0.75 * w, bottom)],
        [[0, 1, 2], [5, 4, 3], [0, 2, 5, 3], [1, 0, 3, 4], [4, 5, 2, 1]],
        Vec3((xi as real + 0.25) * w, (yi as real + 0.25) * w, c))
    else
      Pillar(
        [Vec3(0.25 * w, 0.25 * w, data[xi + 1][yi + 1] - c),
         Vec3(-0.75 * w, 0.25 * w, data[xi][yi + 1] - c),
         Vec3(0.25 * w, -0.75 * w, data[xi + 1][yi] - c),
         Vec3(0.25 * w, 0.25 * w, bottom),
         Vec3(-0.75 * w, 0.25 * w, bottom),
         Vec3(0.25 * w, -0.75 * w, bottom)],
        [[0, 1, 2], [5, 4, 3], [2, 5, 3, 0], [3, 4, 1, 0], [1, 4, 5, 2]],
        Vec3((xi as real + 0.75) * w, (yi as real + 0.75) * w, c))
  }

  /** Moved by its offset, the top face of a pillar is exactly the triangle
      `getTriangle` reports for the same rectangle and half. */
  lemma PillarTopIsTriangle(h: Heightfield, xi: int, yi: int, upper: bool)
    requires TriangleIn(h.data, xi, yi) && h.minValue.Some?
    ensures var p := BuildPillar(h, xi, yi, upper);
      var t := GetTriangle(h, xi, yi, upper);
      Add(p.offset, p.vertices[0]) == t.0 && Add(p.offset, p.vertices[1]) == t.1 && Add(p.offset, p.vertices[2]) == t.2
  {
  }

  /** When `minValue` is at most the four corner heights, the bottom of the
      pillar lies strictly below every corner of its top face. */
  lemma PillarBottomBelowTop(h: Heightfield, xi: int, yi: int, upper: bool)
    requires TriangleIn(h.data, xi, yi) && h.minValue.Some?
    requires h.minValue.value <= h.data[xi][yi] && h.minValue.value <= h.data[xi + 1][yi]
    requires h.minValue.value <= h.data[xi][yi + 1] && h.minValue.value <= h.data[xi + 1][yi + 1]
    ensures var p := BuildPillar(h, xi, yi, upper);
      forall top, bot :: 0 <= top < 3 && 3 <= bot < 6 ==> p.vertices[bot].z < p.vertices[top].z
  {
  }

  /** Every cached pillar is what a fresh build would give for its key. */
  predicate CacheCoherent(h: Heightfield)
  {
    h.minValue.Some? &&
    forall k :: k in h.cache ==> TriangleIn(h.data, k.xi, k.yi) && h.cache[k] == BuildPillar(h, k.xi, k.yi, k.upper)
  }

  /** `getConvexTrianglePillar(xi, yi, upper)`: with the cache on, a cached
      pillar is reused as is; otherwise a new one is built and, whether the
      cache is on or not, stored under its key. */
  function GetConvexTrianglePillar(h: Heightfield, xi: int, yi: int, upper: bool): (r: Heightfield)
    requires TriangleIn(h.data, xi, yi) && h.minValue.Some?
    ensures var key := PillarKey(xi, yi, upper);
      key in r.cache && r.cache[key] == r.pillar &&
      (h.cacheEnabled && key in h.cache ==> r == h.(pillar := h.cache[key])) &&
      (!(h.cacheEnabled && key in h.cache) ==> r.pillar == BuildPillar(h, xi, yi, upper)) &&
      (forall k :: k != key ==> (k in r.cache <==> k in h.cache) && (k in r.cache ==> r.cache[k] == h.cache[k]))
    ensures r.data == h.data && r.minValue == h.minValue && r.elementSize == h.elementSize
  {
    var key := PillarKey(xi, yi, upper);
    if h.cacheEnabled && key in h.cache then h.(pillar := h.cache[key])
    else
      var p := BuildPillar(h, xi, yi, upper);
      h.(pillar := p, cache := h.cache[key := p])
  }

  /** On a coherent cache the pillar handed back is always the fresh one,
      and the cache stays coherent. */
  lemma GetConvexTrianglePillarCoherent(h: Heightfield, xi: int, yi: int, upper: bool)
    requires TriangleIn(h.data, xi, yi) && CacheCoherent(h)
    ensures var r := GetConvexTrianglePillar(h, xi, yi, upper);
      r.pillar == BuildPillar(h, xi, yi, upper) && CacheCoherent(r)
  {
    var r := GetConvexTrianglePillar(h, xi, yi, upper);
    forall k | k in r.cache
      ensures TriangleIn(r.data, k.xi, k.yi) && r.cache[k] == BuildPillar(r, k.xi, k.yi, k.upper)
    {
      SameGridSamePillar(h, r, k.xi, k.yi, k.upper);
    }
  }

  /** A pillar depends only on the heights, `minValue` and the element size. */
  lemma SameGridSamePillar(h: Heightfield, r: Heightfield, xi: int, yi: int, upper: bool)
    requires TriangleIn(h.data, xi, yi) && h.minValue.Some?
    requires r.data == h.data && r.minValue == h.minValue && r.elementSize == h.elementSize
    ensures BuildPillar(r, xi, yi, upper) == BuildPillar(h, xi, yi, upper)
  {
  }

  /** The four corners of the rectangle a key's pillar reads. */
  predicate ReadsCell(k: PillarKey, i: int, j: int)
  {
    k.xi <= i <= k.xi + 1 && k.yi <= j <= k.yi + 1
  }

  /** The three corners of a key's triangle. */
  predicate TriangleReadsCell(k: PillarKey, i: int, j: int)
  {
    if k.upper then (i, j) == (k.xi + 1, k.yi + 1) || (i, j) == (k.xi, k.yi + 1) || (i, j) == (k.xi + 1, k.yi)
    else (i, j) == (k.xi, k.yi) || (i, j) == (k.xi + 1, k.yi) || (i, j) == (k.xi, k.yi + 1)
  }

  /** The keys `setHeightValueAtIndex` clears. */
  function EvictedKeys(xi: int, yi: int): set<PillarKey>
  {
    {PillarKey(xi, yi, false)} +
    (if xi > 0 then {PillarKey(xi - 1, yi, true), PillarKey(xi - 1, yi, false)} else {}) +
    (if yi > 0 then {PillarKey(xi, yi - 1, true), PillarKey(xi, yi - 1, false)} else {}) +
    (if yi > 0 && xi > 0 then {PillarKey(xi - 1, yi - 1, true)} else {})
  }

  /** `setHeightValueAtIndex(xi, yi, value)`: writes the height and clears
      the cached pillars listed by `EvictedKeys`. */
  function SetHeightValueAtIndex(h: Heightfield, xi: int, yi: int, value: real): (r: Heightfield)
    requires CellIn(h.data, xi, yi)
    ensures |r.data| == |h.data| && CellIn(r.data, xi, yi) && r.data[xi][yi] == value
    ensures forall i, j :: CellIn(h.data, i, j) ==> CellIn(r.data, i, j) && ((i, j) != (xi, yi) ==> r.data[i][j] == h.data[i][j])
    ensures forall k :: k in r.cache <==> k in h.cache && k !in EvictedKeys(xi, yi)
    ensures forall k :: k in r.cache ==> r.cache[k] == h.cache[k]
    ensures r.minValue == h.minValue && r.maxValue == h.maxValue && r.elementSize == h.elementSize
  {
    h.(data := h.data[xi := h.data[xi][yi := value]], cache := h.cache - EvictedKeys(xi, yi))
  }

  /** For keys with non-negative indices (the only ones a successful
      `getConvexTrianglePillar` stores), a pillar is evicted exactly when
      its top triangle reads the cell that changed. */
  lemma EvictedIffTriangleReadsCell(xi: int, yi: int, k: PillarKey)
    requires xi >= 0 && yi >= 0 && k.xi >= 0 && k.yi >= 0
    ensures k in EvictedKeys(xi, yi) <==> TriangleReadsCell(k, xi, yi)
  {
  }

  /** A pillar also reads the fourth corner of its rectangle, through the
      vertical centre. `setHeightValueAtIndex` keeps the pillar of the upper
      triangle at the changed cell, though that centre moves: here a 2 x 2
      field of height 2 over `minValue` 0 has its upper pillar at (0, 0)
      cached, and setting height (0, 0) to 0 leaves a pillar with centre 1
      where a fresh build has centre 0. */
  lemma SetHeightValueLeavesStalePillar()
    ensures var base := Shape.Init(0, Shape.NoOptions);
      var p := Pillar([], [], Zero);
      var h0 := Heightfield(base, [[2.0, 2.0], [2.0, 2.0]], Some(0.0), Some(2.0), 1.0, true, p, map[]);
      var h1 := GetConvexTrianglePillar(h0, 0, 0, true);
      var h2 := SetHeightValueAtIndex(h1, 0, 0, 0.0);
      CacheCoherent(h1) && PillarKey(0, 0, true) in h2.cache && !CacheCoherent(h2)
  {
    var base := Shape.Init(0, Shape.NoOptions);
    var p := Pillar([], [], Zero);
    var h0 := Heightfield(base, [[2.0, 2.0], [2.0, 2.0]], Some(0.0), Some(2.0), 1.0, true, p, map[]);
    var h1 := GetConvexTrianglePillar(h0, 0, 0, true);
    var h2 := SetHeightValueAtIndex(h1, 0, 0, 0.0);
    var key := PillarKey(0, 0, true);
    assert h1.cache.Keys == {key};
    assert PillarKey(0, 0, true) !in EvictedKeys(0, 0);
    assert PillarCentre(h1, 0, 0) == 1.0;
    assert h2.data[0] == [0.0, 2.0] && h2.data[1] == [2.0, 2.0];
    assert PillarCentre(h2, 0, 0) == 0.0;
    assert h2.cache[key].offset.z == 1.0;
    assert BuildPillar(h2, 0, 0, true).offset.z == 0.0;
  }

  /** Every key whose pillar reads the cell, through its triangle or its
      centre: both halves of the four rectangles around it. */
  function StaleKeys(xi: int, yi: int): set<PillarKey>
  {
    set a, b, u | a in {xi - 1, xi} && b in {yi - 1, yi} && u in {false, true} :: PillarKey(a, b, u)
  }

  /** `setHeightValueAtIndex` clearing every pillar that reads the cell. */
  function SetHeightValueAtIndexCoherent(h: Heightfield, xi: int, yi: int, value: real): (r: Heightfield)
    requires CellIn(h.data, xi, yi)
    ensures |r.data| == |h.data| && CellIn(r.data, xi, yi) && r.data[xi][yi] == value
    ensures forall i, j :: CellIn(h.data, i, j) ==> CellIn(r.data, i, j) && ((i, j) != (xi, yi) ==> r.data[i][j] == h.data[i][j])
    ensures forall k :: k in r.cache <==> k in h.cache && k !in StaleKeys(xi, yi)
    ensures forall k :: k in r.cache ==> r.cache[k] == h.cache[k]
    ensures r.minValue == h.minValue && r.maxValue == h.maxValue && r.elementSize == h.elementSize
  {
    h.(data := h.data[xi := h.data[xi][yi := value]], cache := h.cache - StaleKeys(xi, yi))
  }

  /** With every reader of the cell cleared, a coherent cache stays coherent. */
  lemma SetHeightValueAtIndexKeepsCacheCoherent(h: Heightfield, xi: int, yi: int, value: real)
    requires CellIn(h.data, xi, yi) && CacheCoherent(h)
    ensures CacheCoherent(SetHeightValueAtIndexCoherent(h, xi, yi, value))
  {
    var r := SetHeightValueAtIndexCoherent(h, xi, yi, value);
    forall k | k in r.cache
      ensures TriangleIn(r.data, k.xi, k.yi) && r.cache[k] == BuildPillar(r, k.xi, k.yi, k.upper)
    {
      assert k !in StaleKeys(xi, yi);
      assert !ReadsCell(k, xi, yi);
      UntouchedCornersSamePillar(h, r, k.xi, k.yi, k.upper);
    }
  }

  /** A pillar whose four corners did not change is built the same. */
  lemma UntouchedCornersSamePillar(h: Heightfield, r: Heightfield, a: int, b: int, upper: bool)
    requires TriangleIn(h.data, a, b) && h.minValue.Some?
    requires |r.data| == |h.data| && forall i :: 0 <= i < |h.data| ==> |r.data[i]| == |h.data[i]|
    requires r.data[a][b] == h.data[a][b] && r.data[a + 1][b] == h.data[a + 1][b]
    requires r.data[a][b + 1] == h.data[a][b + 1] && r.data[a + 1][b + 1] == h.data[a + 1][b + 1]
    requires r.minValue == h.minValue && r.elementSize == h.elementSize
    ensures TriangleIn(r.data, a, b) && BuildPillar(r, a, b, upper) == BuildPillar(h, a, b, upper)
  {
  }

  /** `barycentricWeights(x, y, ax, ay, bx, by, cx, cy)`: the weights of the
      point (x, y) with respect to the triangle a, b, c. A degenerate
      triangle divides yb zero; its (non-finite) weights are `None`. */
  function BarycentricWeights(x: real, y: real, xa: real, ya: real, xb: real, yb: real, xc: real, yc: real): (w: Option<Vec3>)
    ensures w.None? <==> (yb - yc) * (xa - xc) + (xc - xb) * (ya - yc) == 0.0
    ensures w.Some? ==> w.value.x + w.value.y + w.value.z == 1.0
  {
    var d := (yb - yc) * (xa - xc) + (xc - xb) * (ya - yc);
    if d == 0.0 then None
    else
      var wx := ((yb - yc) * (x - xc) + (xc - xb) * (y - yc)) / d;
      var wy := ((yc - ya) * (x - xc) + (xa - xc) * (y - yc)) / d;
      Some(Vec3(wx, wy, 1.0 - wx - wy))
  }

  /** The weights rebuild the point from the triangle's corners. */
  lemma {:induction false} BarycentricRebuildsPoint(x: real, y: real, xa: real, ya: real, xb: real, yb: real, xc: real, yc: real)
    requires (yb - yc) * (xa - xc) + (xc - xb) * (ya - yc) != 0.0
    ensures var w := BarycentricWeights(x, y, xa, ya, xb, yb, xc, yc).value;
      w.x * xa + w.y * xb + w.z * xc == x && w.x * ya + w.y * yb + w.z * yc == y
  {
    var d := (yb - yc) * (xa - xc) + (xc - xb) * (ya - yc);
    var nx := (yb - yc) * (x - xc) + (xc - xb) * (y - yc);
    var ny := (yc - ya) * (x - xc) + (xa - xc) * (y - yc);
    var w := BarycentricWeights(x, y, xa, ya, xb, yb, xc, yc).value;
    assert w.x == nx / d && w.y == ny / d;
    assert nx * (xa - xc) + ny * (xb - xc) == d * (x - xc);
    assert nx * (ya - yc) + ny * (yb - yc) == d * (y - yc);
    assert w.x * xa + w.y * xb + w.z * xc == xc + (nx * (xa - xc) + ny * (xb - xc)) / d;
    assert w.x * ya + w.y * yb + w.z * yc == yc + (nx * (ya - yc) + ny * (yb - yc)) / d;
  }
}
