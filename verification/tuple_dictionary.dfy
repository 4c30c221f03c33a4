/** The tuple dictionary: a map keyed by an unordered pair of numbers, with
    the list of keys it has handed out so that `reset` can delete them.

    The source keys a plain object by `${i}-${j}` with the smaller number
    first; the model keys a map by that ordered pair. Stored values are of
    any type `V`; whether one counts as truthy in JavaScript is passed in as
    `truthy`. */
module TupleDictionary {
  import opened Wrappers

  datatype Dict<V> = Dict(data: map<(int, int), V>, keys: seq<(int, int)>)

  /** Every stored entry has its key listed, smaller number first. */
  predicate Valid<V>(d: Dict<V>)
  {
    (forall k :: k in d.data ==> k in d.keys) &&
    (forall n :: 0 <= n < |d.keys| ==> d.keys[n].0 <= d.keys[n].1)
  }

  function Init<V>(): (d: Dict<V>)
    ensures Valid(d) && d.data == map[] && d.keys == []
  {
    Dict(map[], [])
  }

  /** The key of a pair: the smaller number first. */
  function Key(i: int, j: int): (k: (int, int))
    ensures k.0 <= k.1 && {k.0, k.1} == {i, j}
  {
    if i > j then (j, i) else (i, j)
  }

  /** `get`: the value stored for the pair, `None` for `undefined`. */
  function Get<V>(d: Dict<V>, i: int, j: int): Option<V>
  {
    var k := Key(i, j);
    if k in d.data then Some(d.data[k]) else None
  }

  /** `set`: stores the value, and lists the key unless a truthy value is
      already stored under it. */
  function Set<V>(d: Dict<V>, i: int, j: int, value: V, truthy: V -> bool): (r: Dict<V>)
    requires Valid(d)
    ensures Valid(r)
    ensures Get(r, i, j) == Some(value)
    ensures forall a, b :: Key(a, b) != Key(i, j) ==> Get(r, a, b) == Get(d, a, b)
    ensures r.keys == d.keys || r.keys == d.keys + [Key(i, j)]
    ensures r.keys == d.keys <==> (Get(d, i, j).Some? && truthy(Get(d, i, j).value))
  {
    var k := Key(i, j);
    var existing := Get(d, i, j);
    var keys := if existing.Some? && truthy(existing.value) then d.keys else d.keys + [k];
    Dict(d.data[k := value], keys)
  }

  /** `reset`: pops every listed key and deletes its entry. */
  method Reset<V>(d: Dict<V>) returns (r: Dict<V>)
    ensures r.keys == []
    ensures forall k :: k in r.data <==> k in d.data && k !in d.keys
    ensures forall k :: k in r.data ==> r.data[k] == d.data[k]
    ensures Valid(d) ==> r.data == map[]
  {
    r := d;
    while |r.keys| > 0
      invariant r.keys == d.keys[..|r.keys|]
      invariant forall k :: k in r.data <==> k in d.data && k !in d.keys[|r.keys|..]
      invariant forall k :: k in r.data ==> r.data[k] == d.data[k]
    {
      var n := |r.keys| - 1;
      var key := r.keys[n];
      assert d.keys[n..] == [key] + d.keys[n + 1..];
      r := Dict(r.data - {key}, r.keys[..n]);
    }
    if Valid(d) {
      ResetEmpties(d, r);
    }
  }

  /** On a dictionary every `set` built, `reset` empties it. */
  lemma ResetEmpties<V>(d: Dict<V>, r: Dict<V>)
    requires Valid(d)
    requires forall k :: k in r.data <==> k in d.data && k !in d.keys
    ensures r.data == map[]
  {
    assert r.data.Keys == {};
  }

  /** `get` does not depend on the order of the two numbers. */
  lemma GetSymmetric<V>(d: Dict<V>, i: int, j: int)
    ensures Get(d, i, j) == Get(d, j, i)
  {
  }
}
