/** The object pool: a last-in, first-out free list.

    The base class cannot construct objects (its `constructObject` throws);
    a subclass such as the vector pool makes a fresh object. The model
    passes the kind of pool in: `Base`, or `Subclass(made)` whose
    constructor returns `made`. */
module Pool {
  import opened Wrappers

  datatype Kind<T> = Base | Subclass(made: T)

  datatype Pool<T> = Pool(objects: seq<T>, kind: Kind<T>)

  function Init<T>(kind: Kind<T>): (p: Pool<T>)
    ensures p.objects == [] && p.kind == kind
  {
    Pool([], kind)
  }

  /** `constructObject`: the base pool throws, a subclass builds an object. */
  function ConstructObject<T>(p: Pool<T>): (r: Result<T>)
    ensures r.Err? <==> p.kind.Base?
    ensures p.kind.Subclass? ==> r == Ok(p.kind.made)
  {
    match p.kind
    case Base => Err(Thrown("constructObject() not implemented in this Pool subclass yet!"))
    case Subclass(made) => Ok(made)
  }

  /** `release(a1, ..., an)`: pushes the arguments in order and returns the pool. */
  method Release<T>(p: Pool<T>, args: seq<T>) returns (r: Pool<T>)
    ensures r.objects == p.objects + args && r.kind == p.kind
  {
    r := p;
    var i := 0;
    while i != |args|
      invariant 0 <= i <= |args|
      invariant r.objects == p.objects + args[..i] && r.kind == p.kind
    {
      r := r.(objects := r.objects + [args[i]]);
      i := i + 1;
    }
    assert args[..i] == args;
  }

  /** `get`: pops the most recently released object, or constructs one when
      the pool is empty. */
  function Get<T>(p: Pool<T>): (r: Result<(Pool<T>, T)>)
    ensures |p.objects| == 0 ==> r.Err? == p.kind.Base?
    ensures |p.objects| == 0 && r.Ok? ==> r.value.0 == p && r.value.1 == p.kind.made
    ensures |p.objects| > 0 ==> r.Ok? && r.value.0.objects + [r.value.1] == p.objects
    ensures r.Ok? ==> r.value.0.kind == p.kind
  {
    if |p.objects| == 0 then
      var o :- ConstructObject(p);
      Ok((p, o))
    else
      Ok((p.(objects := p.objects[..|p.objects| - 1]), p.objects[|p.objects| - 1]))
  }

  /** `resize(size)`: pops down to `size`, or pushes constructed objects up
      to `size`; the base pool throws as soon as it has to grow. */
  method Resize<T>(p: Pool<T>, size: nat) returns (r: Result<Pool<T>>)
    ensures r.Err? <==> p.kind.Base? && |p.objects| < size
    ensures r.Ok? ==> |r.value.objects| == size && r.value.kind == p.kind
    ensures r.Ok? && size <= |p.objects| ==> r.value.objects == p.objects[..size]
    ensures r.Ok? && size > |p.objects| ==>
      r.value.objects[..|p.objects|] == p.objects && p.kind.Subclass? &&
      forall n :: |p.objects| <= n < size ==> r.value.objects[n] == p.kind.made
  {
    var objects := p.objects;
    while |objects| > size
      invariant |objects| <= |p.objects| && objects == p.objects[..|objects|]
      invariant size <= |p.objects| ==> |objects| >= size
      invariant size > |p.objects| ==> objects == p.objects
    {
      objects := objects[..|objects| - 1];
    }
    while |objects| < size
      invariant size <= |p.objects| ==> objects == p.objects[..size]
      invariant size > |p.objects| ==> |p.objects| <= |objects| <= size && objects[..|p.objects|] == p.objects
      invariant size > |p.objects| && |objects| > |p.objects| ==> p.kind.Subclass?
      invariant p.kind.Subclass? ==> forall n :: |p.objects| <= n < |objects| ==> objects[n] == p.kind.made
      invariant p.kind.Base? ==> objects == p.objects[..|objects|]
      decreases size - |objects|
    {
      var o := ConstructObject(p);
      if o.Err? {
        return Err(o.error);
      }
      objects := objects + [o.value];
    }
    r := Ok(Pool(objects, p.kind));
  }

  /** Releasing an object and getting one back returns that same object and
      restores the pool. */
  lemma ReleaseGetRoundTrip<T>(p: Pool<T>, o: T)
    ensures Get(p.(objects := p.objects + [o])) == Ok((p, o))
  {
    assert (p.objects + [o])[..|p.objects|] == p.objects;
  }
}
