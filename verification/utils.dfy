/** `Utils.defaults`: fills the keys an options object lacks from an object
    of default values.

    Objects are maps from property names to values. The for-in loop visits
    the keys of `defaults` in some order, given as `order`; the result does
    not depend on it. An omitted `options` argument (`None`) starts from a
    fresh empty object. */
module Utils {
  import opened Wrappers

  /** `order` lists every key of `defaults` exactly once. */
  predicate Enumerates<V>(order: seq<string>, defaults: map<string, V>)
  {
    (forall n :: 0 <= n < |order| ==> order[n] in defaults) &&
    (forall k :: k in defaults ==> k in order) &&
    (forall p, q :: 0 <= p < q < |order| ==> order[p] != order[q])
  }

  /** `defaults(options, defaults)`. */
  function Defaults<V>(options: Option<map<string, V>>, defaults: map<string, V>, order: seq<string>): (r: map<string, V>)
    requires Enumerates(order, defaults)
    ensures forall k :: k in r <==> (options.Some? && k in options.value) || k in defaults
    ensures options.Some? ==> forall k :: k in options.value ==> r[k] == options.value[k]
    ensures forall k :: k in defaults && (options.None? || k !in options.value) ==> r[k] == defaults[k]
  {
    var start := if options.Some? then options.value else map[];
    FillFrom(start, defaults, order)
  }

  /** The for-in loop: visits the listed keys one after another. */
  function FillFrom<V>(options: map<string, V>, defaults: map<string, V>, order: seq<string>): (r: map<string, V>)
    requires forall n :: 0 <= n < |order| ==> order[n] in defaults
    ensures forall k :: k in r <==> k in options || k in order
    ensures forall k :: k in options ==> r[k] == options[k]
    ensures forall k :: k in order && k !in options ==> r[k] == defaults[k]
  {
    if |order| == 0 then options
    else
      var rest := FillFrom(options, defaults, order[..|order| - 1]);
      var key := order[|order| - 1];
      assert forall k :: k in order ==> k in order[..|order| - 1] || k == key;
      if key !in rest then rest[key := defaults[key]] else rest
  }

  /** Applying `defaults` a second time changes nothing. */
  lemma DefaultsIdempotent<V>(options: Option<map<string, V>>, defaults: map<string, V>, order: seq<string>)
    requires Enumerates(order, defaults)
    ensures Defaults(Some(Defaults(options, defaults, order)), defaults, order) == Defaults(options, defaults, order)
  {
    var once := Defaults(options, defaults, order);
    var twice := Defaults(Some(once), defaults, order);
    assert twice.Keys == once.Keys;
  }

  /** The result does not depend on the order the keys are visited in. */
  lemma DefaultsOrderIndependent<V>(options: Option<map<string, V>>, defaults: map<string, V>, order1: seq<string>, order2: seq<string>)
    requires Enumerates(order1, defaults) && Enumerates(order2, defaults)
    ensures Defaults(options, defaults, order1) == Defaults(options, defaults, order2)
  {
    var r1 := Defaults(options, defaults, order1);
    var r2 := Defaults(options, defaults, order2);
    assert r1.Keys == r2.Keys;
  }
}
