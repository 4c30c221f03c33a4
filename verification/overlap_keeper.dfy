/** The overlap keeper: the set of id pairs in contact during the current
    step and the previous step, each kept as a strictly ascending list of
    packed 32-bit keys, and the difference between the two generations. */
module OverlapKeeper {
  import opened JsNumbers

  /** A packed key holds the smaller id in the high 16 bits and the larger
      in the low 16 bits: JavaScript's `(min << 16) | max`. */
  function GetKey(i: int, j: int): int
  {
    var lo := if j < i then j else i;
    var hi := if j < i then i else j;
    Or(ShiftLeft16(lo), hi)
  }

  /** The two ids a key unpacks to: `(key & 0xffff0000) >> 16` and `key & 0xffff`. */
  function Unpack(key: int): seq<int>
  {
    [ShiftRight16(And(key, 0xffff_0000)), And(key, 0xffff)]
  }

  predicate StrictlyAscending(s: seq<int>)
  {
    forall p, q :: 0 <= p < q < |s| ==> s[p] < s[q]
  }

  datatype Keeper = Keeper(current: seq<int>, previous: seq<int>)

  /** Both generations stay strictly ascending. */
  predicate Valid(k: Keeper)
  {
    StrictlyAscending(k.current) && StrictlyAscending(k.previous)
  }

  function Init(): (k: Keeper)
    ensures Valid(k) && k.current == [] && k.previous == []
  {
    Keeper([], [])
  }

  /** The key does not depend on the order of the two ids. */
  lemma GetKeySymmetric(i: int, j: int)
    ensures GetKey(i, j) == GetKey(j, i)
  {
  }

  /** For ids below 2^15 the key is `min * 65536 + max`. */
  lemma {:induction false} GetKeyValue(i: int, j: int)
    requires 0 <= i < 0x8000 && 0 <= j < 0x8000
    ensures GetKey(i, j) == (if j < i then j else i) * Two16 + (if j < i then i else j)
  {
    var lo := if j < i then j else i;
    var hi := if j < i then i else j;
    Pow2Of32();
    assert lo * Two16 < Two31;
    assert ShiftLeft16(lo) == lo * Two16;
    assert Bits(lo * Two16) == lo * Pow2(16);
    assert Bits(hi) == hi;
    assert lo * Pow2(16) < Pow2(32);
    OrShifted(lo, hi, 16, 32);
  }

  /** Unpacking a key gives back the two ids, smaller first, for ids below 2^15. */
  lemma UnpackGetKey(i: int, j: int)
    requires 0 <= i < 0x8000 && 0 <= j < 0x8000
    ensures Unpack(GetKey(i, j)) == [if j < i then j else i, if j < i then i else j]
  {
    GetKeyHalves(i, j);
    UnpackHalves(GetKey(i, j));
  }

  /** For ids below 2^15 the key is a non-negative 31-bit number whose high
      half is the smaller id and whose low half is the larger. */
  lemma GetKeyHalves(i: int, j: int)
    requires 0 <= i < 0x8000 && 0 <= j < 0x8000
    ensures 0 <= GetKey(i, j) < Two31
    ensures GetKey(i, j) / Two16 == (if j < i then j else i) && GetKey(i, j) % Two16 == (if j < i then i else j)
  {
    GetKeyValue(i, j);
    var key := PackedKey(if j < i then j else i, if j < i then i else j);
  }

  /** `lo * 2^16 + hi` is a non-negative 31-bit key whose high half is
      `lo` and whose low 16 bits are `hi`. */
  lemma PackedKey(lo: int, hi: int) returns (key: int)
    requires 0 <= lo < 0x8000 && 0 <= hi < Two16
    ensures key == lo * Two16 + hi && 0 <= key < Two31 && key / Two16 == lo && key % Two16 == hi
  {
    key := lo * Two16 + hi;
    assert lo * Two16 <= 0x7fff * Two16;
    ModUnique(key, Two16, lo, hi);
  }

  /** A non-negative 31-bit key unpacks to its high and low halves. */
  lemma UnpackHalves(key: int)
    requires 0 <= key < Two31
    ensures Unpack(key) == [key / Two16, key % Two16]
  {
    HighHalf(key);
    LowHalf(key);
  }

  /** `(key & 0xffff0000) >> 16` is the high half of a non-negative 31-bit
      key. */
  lemma HighHalf(key: int)
    requires 0 <= key < Two31
    ensures ShiftRight16(And(key, 0xffff_0000)) == key / Two16
  {
    Pow2Of32();
    assert Bits(key) == key;
    assert Bits(0xffff_0000) == Pow2(32) - Pow2(16);
    AndHighMask(key, 16, 32);
    var cleared := key - key % Two16;
    assert And(key, 0xffff_0000) == cleared;
    ModUnique(cleared, Two16, key / Two16, 0);
  }

  /** `key & 0xffff` is the low 16 bits of a non-negative 31-bit key. */
  lemma LowHalf(key: int)
    requires 0 <= key < Two31
    ensures And(key, 0xffff) == key % Two16
  {
    Pow2Of32();
    assert Bits(key) == key;
    assert Bits(0xffff) == Pow2(16) - 1;
    AndLowMask(key, 16, 32);
  }

  /** The position the source's scan stops at: the first entry not below `key`. */
  function ScanIndex(s: seq<int>, key: int, index: nat): (r: nat)
    requires index <= |s|
    ensures index <= r <= |s|
    ensures r < |s| ==> key <= s[r]
    ensures forall t :: index <= t < r ==> s[t] < key
    decreases |s| - index
  {
    if index < |s| && key > s[index] then ScanIndex(s, key, index + 1) else index
  }

  /** `set(i, j)`: insert the pair's key into `current` unless it is there. */
  function Set(k: Keeper, i: int, j: int): Keeper
  {
    Insert(k, GetKey(i, j))
  }

  /** The insertion `set` performs, for any key: the scan finds the first
      entry not below the key, and the key goes there unless it is that
      entry. */
  function Insert(k: Keeper, key: int): Keeper
  {
    var index := ScanIndex(k.current, key, 0);
    if index < |k.current| && k.current[index] == key then k
    else k.(current := k.current[..index] + [key] + k.current[index..])
  }

  /** `set` keeps `current` strictly ascending and touches nothing else. */
  lemma SetValid(k: Keeper, i: int, j: int)
    requires Valid(k)
    ensures Valid(Set(k, i, j))
    ensures Set(k, i, j).previous == k.previous
  {
    InsertValid(k, GetKey(i, j));
  }

  lemma InsertValid(k: Keeper, key: int)
    requires Valid(k)
    ensures Valid(Insert(k, key)) && Insert(k, key).previous == k.previous
  {
    var s := k.current;
    var index := ScanIndex(s, key, 0);
    if !(index < |s| && s[index] == key) {
      var r := s[..index] + [key] + s[index..];
      forall p, q | 0 <= p < q < |r|
        ensures r[p] < r[q]
      {
        if q < index {
        } else if q == index {
        } else if p < index {
          assert r[q] == s[q - 1];
        } else if p == index {
          assert r[q] == s[q - 1];
          assert key < s[index] || index == q - 1;
        } else {
          assert r[p] == s[p - 1] && r[q] == s[q - 1];
        }
      }
    }
  }

  /** Setting a pair that is already present changes nothing. */
  lemma SetPresent(k: Keeper, i: int, j: int)
    requires Valid(k) && GetKey(i, j) in k.current
    ensures Set(k, i, j) == k
  {
    InsertPresent(k, GetKey(i, j));
  }

  lemma InsertPresent(k: Keeper, key: int)
    requires Valid(k) && key in k.current
    ensures Insert(k, key) == k
  {
    var s := k.current;
    var index := ScanIndex(s, key, 0);
    var t :| 0 <= t < |s| && s[t] == key;
    assert !(t < index);
  }

  /** Setting a new pair adds exactly its key and keeps every old key. */
  lemma SetAbsent(k: Keeper, i: int, j: int)
    requires Valid(k) && GetKey(i, j) !in k.current
    ensures |Set(k, i, j).current| == |k.current| + 1
    ensures multiset(Set(k, i, j).current) == multiset(k.current) + multiset{GetKey(i, j)}
  {
    InsertAbsent(k, GetKey(i, j));
  }

  lemma InsertAbsent(k: Keeper, key: int)
    requires key !in k.current
    ensures |Insert(k, key).current| == |k.current| + 1
    ensures multiset(Insert(k, key).current) == multiset(k.current) + multiset{key}
  {
    var s := k.current;
    var index := ScanIndex(s, key, 0);
    assert s == s[..index] + s[index..];
  }

  /** `set` leaves its pair's key in the current generation and keeps
      every key already there. */
  lemma SetHas(k: Keeper, i: int, j: int)
    ensures GetKey(i, j) in Set(k, i, j).current
    ensures forall x :: x in k.current ==> x in Set(k, i, j).current
  {
    InsertHas(k, GetKey(i, j));
  }

  lemma InsertHas(k: Keeper, key: int)
    ensures key in Insert(k, key).current
    ensures forall x :: x in k.current ==> x in Insert(k, key).current
  {
    var s := k.current;
    var index := ScanIndex(s, key, 0);
    assert s == s[..index] + s[index..];
  }

  /** `tick`: the current generation becomes the previous one and a fresh,
      empty generation starts. */
  function Tick(k: Keeper): (r: Keeper)
    ensures Valid(k) ==> Valid(r)
    ensures r.previous == k.current && r.current == []
  {
    Keeper([], k.current)
  }

  /** Keys of `a` that are not in `b`, in the order of `a`. */
  function Missing(a: seq<int>, b: seq<int>): seq<int>
  {
    if |a| == 0 then []
    else Missing(a[..|a| - 1], b) + (if a[|a| - 1] in b then [] else [a[|a| - 1]])
  }

  lemma MissingSnoc(a: seq<int>, b: seq<int>, i: nat)
    requires i < |a|
    ensures Missing(a[..i + 1], b) == Missing(a[..i], b) + (if a[i] in b then [] else [a[i]])
  {
    assert a[..i + 1][..i] == a[..i];
  }

  /** The keys `Missing` keeps are exactly the set difference, still ascending. */
  lemma {:induction false} MissingIsDifference(a: seq<int>, b: seq<int>)
    requires StrictlyAscending(a)
    ensures forall x :: x in Missing(a, b) <==> x in a && x !in b
    ensures StrictlyAscending(Missing(a, b))
    ensures forall x :: x in Missing(a, b) ==> |a| > 0 && x <= a[|a| - 1]
  {
    if |a| > 0 {
      var a' := a[..|a| - 1];
      var last := a[|a| - 1];
      MissingIsDifference(a', b);
      forall x | x in a
        ensures x in a' || x == last
      {
        var t :| 0 <= t < |a| && a[t] == x;
        if t < |a| - 1 { assert a'[t] == x; }
      }
      var m' := Missing(a', b);
      forall x | x in m'
        ensures x < last
      {
        var t :| 0 <= t < |a'| && a'[t] == x;
      }
      var m := Missing(a, b);
      assert m == m' + (if last in b then [] else [last]);
      forall p, q | 0 <= p < q < |m|
        ensures m[p] < m[q]
      {
        if q < |m'| {
        } else {
          assert m[p] in m';
        }
      }
    }
  }

  /** Nothing is missing from a list that holds every key. */
  lemma {:induction false} MissingNone(a: seq<int>, b: seq<int>)
    requires forall x :: x in a ==> x in b
    ensures Missing(a, b) == []
  {
    if |a| > 0 {
      var a' := a[..|a| - 1];
      forall x | x in a'
        ensures x in b
      {
        var t :| 0 <= t < |a'| && a'[t] == x;
        assert a[t] == x;
      }
      MissingNone(a', b);
      var last := a[|a| - 1];
      assert last in a;
      assert last in b;
      assert Missing(a, b) == Missing(a', b) + [];
    }
  }

  /** Each key unpacked to its two ids, in order. */
  function UnpackAll(keys: seq<int>): (r: seq<int>)
    ensures |r| == 2 * |keys|
  {
    if |keys| == 0 then [] else UnpackAll(keys[..|keys| - 1]) + Unpack(keys[|keys| - 1])
  }

  /** `getDiff`: appends the ids of every pair of `current` that is not in
      `previous` to `additions`, and of every pair of `previous` not in
      `current` to `removals`; both merge scans rely on ascending order. */
  method GetDiff(k: Keeper, additions0: seq<int>, removals0: seq<int>)
    returns (additions: seq<int>, removals: seq<int>)
    requires Valid(k)
    ensures additions == additions0 + UnpackAll(Missing(k.current, k.previous))
    ensures removals == removals0 + UnpackAll(Missing(k.previous, k.current))
  {
    var added := DiffScan(k.current, k.previous);
    additions := additions0 + UnpackAll(added);
    var removed := DiffScan(k.previous, k.current);
    removals := removals0 + UnpackAll(removed);
  }

  /** One merge scan of `getDiff`, collecting the keys of `a` that `b` lacks;
      the cursor `j` into `b` only moves forward. */
  method DiffScan(a: seq<int>, b: seq<int>) returns (out: seq<int>)
    requires StrictlyAscending(a) && StrictlyAscending(b)
    ensures out == Missing(a, b)
  {
    out := [];
    var j := 0;
    var i := 0;
    while i < |a|
      invariant 0 <= i <= |a| && 0 <= j <= |b|
      invariant forall t :: 0 <= t < j ==> i > 0 && b[t] < a[i - 1]
      invariant out == Missing(a[..i], b)
    {
      var keyA := a[i];
      while j < |b| && keyA > b[j]
        invariant 0 <= j <= |b|
        invariant forall t :: 0 <= t < j ==> b[t] < keyA
      {
        j := j + 1;
      }
      var found := j < |b| && keyA == b[j];
      FoundIff(b, j, keyA);
      MissingSnoc(a, b, i);
      if !found {
        out := out + [keyA];
      }
      i := i + 1;
    }
    assert a[..i] == a;
  }

  /** Once the scan has passed every smaller entry, the key is in `b` iff it is at the cursor. */
  lemma FoundIff(b: seq<int>, j: int, key: int)
    requires StrictlyAscending(b) && 0 <= j <= |b|
    requires forall t :: 0 <= t < j ==> b[t] < key
    requires j < |b| ==> key <= b[j]
    ensures (j < |b| && key == b[j]) <==> key in b
  {
    if key in b {
      var t :| 0 <= t < |b| && b[t] == key;
      assert j <= t;
      assert b[j] <= b[t];
    }
  }

  /** Sets every pair of the list, in order. */
  function SetAll(k: Keeper, pairs: seq<(int, int)>): Keeper
  {
    if |pairs| == 0 then k
    else Set(SetAll(k, pairs[..|pairs| - 1]), pairs[|pairs| - 1].0, pairs[|pairs| - 1].1)
  }

  lemma {:induction false} SetAllValid(k: Keeper, pairs: seq<(int, int)>)
    requires Valid(k)
    ensures Valid(SetAll(k, pairs)) && SetAll(k, pairs).previous == k.previous
  {
    if |pairs| > 0 {
      SetAllValid(k, pairs[..|pairs| - 1]);
      SetValid(SetAll(k, pairs[..|pairs| - 1]), pairs[|pairs| - 1].0, pairs[|pairs| - 1].1);
    }
  }

  /** Setting a list of pairs keeps every key that was current. */
  lemma {:induction false} SetAllKeeps(k: Keeper, pairs: seq<(int, int)>)
    ensures forall x :: x in k.current ==> x in SetAll(k, pairs).current
  {
    if |pairs| > 0 {
      var init := pairs[..|pairs| - 1];
      var last := pairs[|pairs| - 1];
      SetAllKeeps(k, init);
      SetHas(SetAll(k, init), last.0, last.1);
    }
  }

  /** Setting a pair adds its key and nothing else. */
  lemma SetOnly(k: Keeper, i: int, j: int)
    ensures forall x :: x in Set(k, i, j).current ==> x in k.current || x == GetKey(i, j)
  {
    var s := k.current;
    var key := GetKey(i, j);
    var index := ScanIndex(s, key, 0);
    assert s == s[..index] + s[index..];
  }

  /** Setting a list of pairs adds their keys and nothing else. */
  lemma SetAllOnly(k: Keeper, pairs: seq<(int, int)>)
    ensures forall x :: x in SetAll(k, pairs).current ==>
      x in k.current || exists n :: 0 <= n < |pairs| && x == GetKey(pairs[n].0, pairs[n].1)
  {
    forall x | x in SetAll(k, pairs).current && x !in k.current
      ensures exists n :: 0 <= n < |pairs| && x == GetKey(pairs[n].0, pairs[n].1)
    {
      var n := SetAllOnlyAt(k, pairs, x);
    }
  }

  /** A key that setting a list of pairs adds is the key of one of them,
      at the position returned. */
  lemma {:induction false} SetAllOnlyAt(k: Keeper, pairs: seq<(int, int)>, x: int) returns (n: nat)
    requires x in SetAll(k, pairs).current && x !in k.current
    ensures n < |pairs| && x == GetKey(pairs[n].0, pairs[n].1)
  {
    if |pairs| == 0 {
      assert false;
    } else {
      var init := pairs[..|pairs| - 1];
      var last := pairs[|pairs| - 1];
      SetOnly(SetAll(k, init), last.0, last.1);
      if x == GetKey(last.0, last.1) {
        n := |pairs| - 1;
      } else {
        n := SetAllOnlyAt(k, init, x);
        assert init[n] == pairs[n];
      }
    }
  }

  /** After setting a list of pairs, every pair's key is current. */
  lemma SetAllHas(k: Keeper, pairs: seq<(int, int)>)
    ensures forall p :: p in pairs ==> GetKey(p.0, p.1) in SetAll(k, pairs).current
  {
    forall p | p in pairs
      ensures GetKey(p.0, p.1) in SetAll(k, pairs).current
    {
      var n :| 0 <= n < |pairs| && pairs[n] == p;
      SetAllHasAt(k, pairs, n);
    }
  }

  /** The key of the pair at position n is current after the whole list is set. */
  lemma {:induction false} SetAllHasAt(k: Keeper, pairs: seq<(int, int)>, n: nat)
    requires n < |pairs|
    ensures GetKey(pairs[n].0, pairs[n].1) in SetAll(k, pairs).current
  {
    var init := pairs[..|pairs| - 1];
    var last := pairs[|pairs| - 1];
    var before := SetAll(k, init);
    var after := Set(before, last.0, last.1);
    assert SetAll(k, pairs).current == after.current;
    SetHas(before, last.0, last.1);
    if n < |init| {
      SetAllHasAt(k, init, n);
      assert init[n] == pairs[n];
    } else {
      assert n == |pairs| - 1;
    }
  }

  /** The current generation depends only on where it started and on the pairs set. */
  lemma {:induction false} SetAllCurrent(k1: Keeper, k2: Keeper, pairs: seq<(int, int)>)
    requires k1.current == k2.current
    ensures SetAll(k1, pairs).current == SetAll(k2, pairs).current
  {
    if |pairs| > 0 {
      SetAllCurrent(k1, k2, pairs[..|pairs| - 1]);
    }
  }

  /** Two steps that set the same pairs report no additions and no removals. */
  lemma SameContactsEmptyDiff(k: Keeper, pairs: seq<(int, int)>)
    requires Valid(k)
    ensures var k2 := SetAll(Tick(SetAll(Tick(k), pairs)), pairs);
      Valid(k2) && Missing(k2.current, k2.previous) == [] && Missing(k2.previous, k2.current) == []
  {
    var k1 := SetAll(Tick(k), pairs);
    SetAllValid(Tick(k), pairs);
    var k2 := SetAll(Tick(k1), pairs);
    SetAllValid(Tick(k1), pairs);
    SetAllCurrent(Tick(k), Tick(k1), pairs);
    assert k2.current == k1.current == k2.previous;
    MissingNone(k2.current, k2.previous);
  }
}
