/** The object collision matrix: the set of unordered body pairs marked as
    colliding, keyed by the two `_id`s, larger first.

    The source keys a plain object by the string `${i}-${j}`; distinct id
    pairs give distinct strings, so the model keys a set by the ordered
    pair itself. */
module ObjectCollisionMatrix {

  datatype Matrix = Matrix(pairs: set<(int, int)>)

  /** Every stored key has its larger id first. */
  predicate Valid(m: Matrix)
  {
    forall p :: p in m.pairs ==> p.0 >= p.1
  }

  function Init(): (m: Matrix)
    ensures Valid(m) && m.pairs == {}
  {
    Matrix({})
  }

  /** The key of a pair: the larger `_id` first. */
  function Key(i: int, j: int): (k: (int, int))
    ensures k.0 >= k.1 && {k.0, k.1} == {i, j}
  {
    if j > i then (j, i) else (i, j)
  }

  /** `get`: whether the pair is marked. */
  function Get(m: Matrix, i: int, j: int): bool
  {
    Key(i, j) in m.pairs
  }

  /** `set`: a truthy value marks the pair, a falsy one deletes its key. */
  function Set(m: Matrix, i: int, j: int, value: bool): (r: Matrix)
    requires Valid(m)
    ensures Valid(r)
    ensures Get(r, i, j) == value
    ensures forall a, b :: {a, b} != {i, j} ==> Get(r, a, b) == Get(m, a, b)
  {
    if value then Matrix(m.pairs + {Key(i, j)}) else Matrix(m.pairs - {Key(i, j)})
  }

  /** `reset`: a fresh empty object. */
  function Reset(m: Matrix): (r: Matrix)
    ensures Valid(r)
    ensures forall i, j :: !Get(r, i, j)
  {
    Matrix({})
  }

  /** `setNumObjects` is empty in this matrix kind. */
  function SetNumObjects(m: Matrix, n: int): (r: Matrix)
    ensures forall i, j :: Get(r, i, j) == Get(m, i, j)
  {
    m
  }

  /** `get` does not depend on the order of the two bodies. */
  lemma GetSymmetric(m: Matrix, i: int, j: int)
    ensures Get(m, i, j) == Get(m, j, i)
  {
  }

  /** The key determines the unordered pair. */
  lemma KeyInjective(a: int, b: int, i: int, j: int)
    requires Key(a, b) == Key(i, j)
    ensures {a, b} == {i, j}
  {
  }
}
