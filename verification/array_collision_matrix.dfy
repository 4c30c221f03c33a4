/** The array collision matrix: one number per unordered pair of body
    indices, kept in a JavaScript array laid out as a lower triangle.

    A JavaScript array is modelled as its `length` and the cells written so
    far. A cell key that is not an array index (the slot -1 the pair (0, 0)
    maps to) is an ordinary object property: it neither counts towards
    `length` nor is it cut off when `length` shrinks. */
module ArrayCollisionMatrix {
  import opened Wrappers
  import opened JsNumbers

  /** JavaScript array indices are the integers in [0, 2^32 - 1). */
  predicate IsIndex(k: int)
  {
    0 <= k < Two32 - 1
  }

  datatype Matrix = Matrix(cells: map<int, int>, length: nat)

  /** No array index at or beyond `length` holds a value. */
  predicate Valid(m: Matrix)
  {
    forall k :: k in m.cells && IsIndex(k) ==> k < m.length
  }

  function Init(): (m: Matrix)
    ensures Valid(m) && m.length == 0 && m.cells == map[]
  {
    Matrix(map[], 0)
  }

  /** The slot of a pair: `((i * (i + 1)) >> 1) + j - 1` with i the larger index. */
  function Slot(bi: int, bj: int): int
  {
    var i := if bj > bi then bj else bi;
    var j := if bj > bi then bi else bj;
    ShiftRight1(i * (i + 1)) + j - 1
  }

  /** `get`: the number stored for the pair, `None` where JavaScript reads `undefined`. */
  function Get(m: Matrix, bi: int, bj: int): Option<int>
  {
    var k := Slot(bi, bj);
    if k in m.cells then Some(m.cells[k]) else None
  }

  /** `set`: stores 1 for a truthy value and 0 otherwise; writing an array
      index at or past the end grows the array. */
  function Set(m: Matrix, bi: int, bj: int, value: bool): (r: Matrix)
    requires Valid(m)
    ensures Valid(r)
    ensures Get(r, bi, bj) == Some(if value then 1 else 0)
    ensures forall i, j :: Slot(i, j) != Slot(bi, bj) ==> Get(r, i, j) == Get(m, i, j)
    ensures r.length >= m.length
    ensures IsIndex(Slot(bi, bj)) ==> Slot(bi, bj) < r.length
    ensures r.length == m.length || (IsIndex(Slot(bi, bj)) && r.length == Slot(bi, bj) + 1)
  {
    var k := Slot(bi, bj);
    var length := if IsIndex(k) && k >= m.length then k + 1 else m.length;
    Matrix(m.cells[k := if value then 1 else 0], length)
  }

  /** `reset`: writes 0 into every index below `length`. */
  method Reset(m: Matrix) returns (r: Matrix)
    requires Valid(m)
    ensures Valid(r) && r.length == m.length
    ensures forall k :: 0 <= k < m.length ==> k in r.cells && r.cells[k] == 0
    ensures forall k :: !(0 <= k < m.length) ==> (k in r.cells <==> k in m.cells)
    ensures forall k :: !(0 <= k < m.length) && k in m.cells ==> r.cells[k] == m.cells[k]
  {
    r := m;
    var i := 0;
    while i != m.length
      invariant 0 <= i <= m.length && r.length == m.length && Valid(r)
      invariant forall k :: 0 <= k < i ==> k in r.cells && r.cells[k] == 0
      invariant forall k :: !(0 <= k < i) ==> (k in r.cells <==> k in m.cells)
      invariant forall k :: !(0 <= k < i) && k in m.cells ==> r.cells[k] == m.cells[k]
    {
      r := r.(cells := r.cells[i := 0]);
      i := i + 1;
    }
  }

  /** `setNumObjects(n)`: `length = (n * (n - 1)) >> 1`; a negative length is
      a RangeError, and shrinking drops every index past the new end. */
  function SetNumObjects(m: Matrix, n: int): (r: Result<Matrix>)
    requires Valid(m)
    ensures r.Ok? <==> ShiftRight1(n * (n - 1)) >= 0
    ensures r.Ok? ==> Valid(r.value) && r.value.length == ShiftRight1(n * (n - 1))
    ensures r.Ok? ==> forall k :: k in r.value.cells <==> k in m.cells && (!IsIndex(k) || k < r.value.length)
    ensures r.Ok? ==> forall k :: k in r.value.cells ==> r.value.cells[k] == m.cells[k]
  {
    var length := ShiftRight1(n * (n - 1));
    if length < 0 then Err(RangeError("Invalid array length"))
    else Ok(Matrix(map k | k in m.cells && (!IsIndex(k) || k < length) :: m.cells[k], length))
  }

  /** For a realistic body count the length is n(n-1)/2. */
  lemma SetNumObjectsLength(m: Matrix, n: int)
    requires Valid(m) && 0 <= n <= 46340
    ensures SetNumObjects(m, n).Ok? && SetNumObjects(m, n).value.length == n * (n - 1) / 2
  {
    var p := n * (n - 1);
    if n > 0 {
      MulMonotone(n, 46340, n - 1);
    }
    assert 0 <= p < Two31;
    assert ShiftRight1(p) == p / 2;
  }

  /** `get` does not depend on the order of the two bodies. */
  lemma GetSymmetric(m: Matrix, bi: int, bj: int)
    ensures Get(m, bi, bj) == Get(m, bj, bi)
  {
  }

  /** `set` reaches the same slot whichever order the bodies come in. */
  lemma SetSymmetric(m: Matrix, bi: int, bj: int, value: bool)
    requires Valid(m)
    ensures Set(m, bi, bj, value) == Set(m, bj, bi, value)
  {
  }

  /** The triangular number `i(i+1)/2` for the indices where JavaScript's
      32-bit shift is exact. */
  lemma SlotValue(bi: int, bj: int)
    requires 0 <= bi <= 46339 && 0 <= bj <= 46339
    ensures var i := if bj > bi then bj else bi;
            var j := if bj > bi then bi else bj;
            Slot(bi, bj) == i * (i + 1) / 2 + j - 1
  {
    var i := if bj > bi then bj else bi;
    MulMonotone(i, 46339, i + 1);
  }

  /** The rows of the triangle do not overlap: row i spans the slots
      [i(i+1)/2 - 1, (i+1)(i+2)/2 - 1). */
  lemma {:induction false} RowsDisjoint(i1: int, j1: int, i2: int, j2: int)
    requires 0 <= j1 <= i1 < i2 && 0 <= j2 <= i2
    ensures i1 * (i1 + 1) / 2 + j1 - 1 < i2 * (i2 + 1) / 2 + j2 - 1
  {
    assert (i1 + 1) * (i1 + 2) == i1 * (i1 + 1) + 2 * (i1 + 1);
    assert (i1 + 1) * (i1 + 2) / 2 == i1 * (i1 + 1) / 2 + (i1 + 1) by {
      ModUnique((i1 + 1) * (i1 + 2), 2, i1 * (i1 + 1) / 2 + (i1 + 1), 0) by {
        EvenProduct(i1);
      }
    }
    TriangleMonotone(i1 + 1, i2);
  }

  lemma EvenProduct(i: int)
    requires i >= 0
    ensures i * (i + 1) % 2 == 0 && (i + 1) * (i + 2) == 2 * (i * (i + 1) / 2 + (i + 1))
  {
    var q := i / 2;
    if i % 2 == 0 {
      assert i == 2 * q;
      assert i * (i + 1) == 2 * (q * (i + 1));
      ModUnique(i * (i + 1), 2, q * (i + 1), 0);
    } else {
      assert i + 1 == 2 * (q + 1);
      assert i * (i + 1) == 2 * (i * (q + 1));
      ModUnique(i * (i + 1), 2, i * (q + 1), 0);
    }
  }

  lemma {:induction false} TriangleMonotone(a: int, b: int)
    requires 0 <= a <= b
    ensures a * (a + 1) / 2 <= b * (b + 1) / 2
    decreases b - a
  {
    if a < b {
      TriangleMonotone(a + 1, b);
      EvenProduct(a);
      assert a * (a + 1) <= (a + 1) * (a + 2);
    }
  }

  /** Distinct unordered pairs of indices below 46340 get distinct slots. */
  lemma SlotInjective(bi: int, bj: int, ci: int, cj: int)
    requires 0 <= bi <= 46339 && 0 <= bj <= 46339 && 0 <= ci <= 46339 && 0 <= cj <= 46339
    requires Slot(bi, bj) == Slot(ci, cj)
    ensures {bi, bj} == {ci, cj}
  {
    SlotValue(bi, bj);
    SlotValue(ci, cj);
    var i1 := if bj > bi then bj else bi;
    var j1 := if bj > bi then bi else bj;
    var i2 := if cj > ci then cj else ci;
    var j2 := if cj > ci then ci else cj;
    if i1 < i2 {
      RowsDisjoint(i1, j1, i2, j2);
    } else if i2 < i1 {
      RowsDisjoint(i2, j2, i1, j1);
    }
  }

  /** Setting one pair never changes what `get` reads for another pair. */
  lemma SetOtherPair(m: Matrix, bi: int, bj: int, value: bool, ci: int, cj: int)
    requires Valid(m)
    requires 0 <= bi <= 46339 && 0 <= bj <= 46339 && 0 <= ci <= 46339 && 0 <= cj <= 46339
    requires {bi, bj} != {ci, cj}
    ensures Get(Set(m, bi, bj, value), ci, cj) == Get(m, ci, cj)
  {
    if Slot(bi, bj) == Slot(ci, cj) {
      SlotInjective(bi, bj, ci, cj);
    }
  }
}
