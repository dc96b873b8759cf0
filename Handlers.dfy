/** The per-node decisions the traversal handlers make
    (src/module/rewriter.js:105-169), on one parent node at a time: the
    FILTER keep/remove rule, the SORT limit truncation, and the guard of the
    synchronous `rewrite` entry. How the traversal finds the node and its
    parent is not part of this model. */
module Handlers {
  import opened Sequences
  import opened Plugins

  /** What a FILTER callback returned, as far as the comparison `=== true`
      can tell: the value `true`, another truthy value (`1`, `"yes"`, an
      object), or a falsy one. */
  datatype Returned = StrictTrue | OtherTruthy | Falsy

  /** `matchedBy.some((m) => fn(...) === true)`, over the values the
      callbacks of the matching targets return, in `matchedBy` order. */
  function Keep(results: seq<Returned>): (r: bool)
    ensures r <==> exists i :: 0 <= i < |results| && results[i] == StrictTrue
  {
    if results == [] then false
    else if results[0] == StrictTrue then true
    else
      var rest := Keep(results[1..]);
      assert forall i :: 1 <= i < |results| ==> results[i] == results[1..][i - 1];
      rest
  }

  /** `s.splice(k, 1)` for an index `k >= 0`: removes the element at `k`,
      and removes nothing when `k` is past the end. */
  function SpliceOne<T>(s: seq<T>, k: nat): (r: seq<T>)
    ensures k < |s| ==> |r| == |s| - 1
    ensures k >= |s| ==> r == s
    ensures forall i :: 0 <= i < |r| && i < k ==> r[i] == s[i]
    ensures forall i :: k <= i < |r| ==> r[i] == s[i + 1]
  {
    if k < |s| then s[..k] + s[k + 1..] else s
  }

  /** Splicing at an index in range removes exactly one copy of the element
      there and leaves every other element in the array. */
  lemma SpliceOneRemovesOne<T>(s: seq<T>, k: nat)
    requires k < |s|
    ensures multiset(SpliceOne(s, k)) + multiset{s[k]} == multiset(s)
  {
    MultisetRemove(s, k);
  }

  /** `s.splice(m)` for `m >= 0`: keeps the first `m` elements. */
  function Truncated<T>(s: seq<T>, m: nat): (r: seq<T>)
    ensures |r| == if m < |s| then m else |s|
    ensures r <= s
  {
    if m < |s| then s[..m] else s
  }

  /** A plugin whose `limit` callback exists and returns something other
      than `undefined`. */
  predicate DefinesLimit(p: Plugin) {
    p.limit.Some? && p.limit.value != Undefined
  }

  /** `Number.isInteger(l) && l >= 0`. */
  predicate NonNegativeInteger(l: LimitResult) {
    l.Int? && l.n >= 0
  }

  /** `plugins.filter((p) => p.limit !== undefined).map((p) => p.limit(...))
      .filter((l) => l !== undefined)`, in plugin order. */
  function LimitResults(ps: seq<Plugin>): (r: seq<LimitResult>)
    ensures forall l :: l in r <==> exists p :: p in ps && DefinesLimit(p) && p.limit.value == l
    ensures |r| <= |ps|
  {
    if ps == [] then []
    else
      var rest := LimitResults(ps[1..]);
      assert forall p :: p in ps <==> p == ps[0] || p in ps[1..];
      (if DefinesLimit(ps[0]) then [ps[0].limit.value] else []) + rest
  }

  /** `Math.min(...limits)` over limits already known to be non-negative
      integers. */
  function MinLimit(limits: seq<LimitResult>): (m: nat)
    requires |limits| > 0
    requires forall l :: l in limits ==> NonNegativeInteger(l)
    ensures Int(m) in limits
    ensures forall l :: l in limits ==> l.Int? && m <= l.n
  {
    assert NonNegativeInteger(limits[0]) by { assert limits[0] in limits; }
    if |limits| == 1 then limits[0].n
    else
      assert forall l :: l in limits <==> l == limits[0] || l in limits[1..];
      var rest := MinLimit(limits[1..]);
      if limits[0].n <= rest then limits[0].n else rest
  }

  /** The failing assertion of the SORT handler: a defined limit that is not
      a non-negative integer. */
  datatype SortError = InvalidLimit

  /** Where the SORT handler truncates the array of the plugins `ps`: nowhere
      when no plugin defines a limit, at the least defined limit when all are
      non-negative integers, and an error otherwise. */
  function EffectiveLimit(ps: seq<Plugin>): (r: Result<Option<nat>, SortError>)
    ensures r.Failure? <==> exists p :: p in ps && DefinesLimit(p) && !NonNegativeInteger(p.limit.value)
    ensures r == Success(None) <==> forall p :: p in ps ==> !DefinesLimit(p)
    ensures r.Success? && r.value.Some? ==>
      && (exists p :: p in ps && DefinesLimit(p) && p.limit.value == Int(r.value.value))
      && (forall p :: p in ps && DefinesLimit(p) ==> r.value.value <= p.limit.value.n)
  {
    var limits := LimitResults(ps);
    assert forall p :: p in ps && DefinesLimit(p) ==> p.limit.value in limits;
    if |limits| == 0 then
      Success(None)
    else if forall l :: l in limits ==> NonNegativeInteger(l) then
      Success(Some(MinLimit(limits)))
    else
      Failure(InvalidLimit)
  }

  /** The array `s` after truncation at `limit`, if there is one. */
  function Limited<T>(s: seq<T>, limit: Option<nat>): (r: seq<T>)
    ensures r <= s
    ensures limit.Some? ==> |r| == if limit.value < |s| then limit.value else |s|
    ensures limit.None? ==> r == s
  {
    match limit
    case None => s
    case Some(m) => Truncated(s, m)
  }

  /** One array in the tree being rewritten: the `parent` of a FILTER match
      and `parents[0]` of a SORT match. */
  class ArrayNode<T> {
    var elems: seq<T>

    constructor(elems0: seq<T>)
      ensures elems == elems0
    {
      elems := elems0;
    }

    /** The FILTER handler for the element at index `key`: keep it when some
        callback returned `true`, otherwise splice it out. The result is what
        the handler returns to the traversal. */
    method FilterElement(key: nat, results: seq<Returned>) returns (keep: bool)
      modifies this
      ensures keep <==> exists i :: 0 <= i < |results| && results[i] == StrictTrue
      ensures keep ==> elems == old(elems)
      ensures !keep ==> elems == SpliceOne(old(elems), key)
    {
      keep := Keep(results);
      if !keep {
        elems := SpliceOne(elems, key);
      }
    }

    /** The truncation step of the SORT handler, run once the array is
        sorted, with `ps` the plugins of the matched target. */
    method ApplyLimits(ps: seq<Plugin>) returns (r: Result<(), SortError>)
      modifies this
      ensures r.Failure? <==> EffectiveLimit(ps).Failure?
      ensures r.Failure? ==> elems == old(elems)
      ensures r.Success? ==> elems == Limited(old(elems), EffectiveLimit(ps).value)
    {
      var limits := LimitResults(ps);
      if |limits| != 0 {
        if !forall l :: l in limits ==> NonNegativeInteger(l) {
          return Failure(InvalidLimit);
        }
        elems := Truncated(elems, MinLimit(limits));
      }
      r := Success(());
    }
  }

  /** One object in the tree being rewritten: the `parent` of a FILTER match. */
  class ObjectNode<V> {
    var props: map<string, V>

    constructor(props0: map<string, V>)
      ensures props == props0
    {
      props := props0;
    }

    /** The FILTER handler for the property `key`: keep it when some callback
        returned `true`, otherwise delete it; no other property changes. */
    method FilterEntry(key: string, results: seq<Returned>) returns (keep: bool)
      modifies this
      ensures keep <==> exists i :: 0 <= i < |results| && results[i] == StrictTrue
      ensures keep ==> props == old(props)
      ensures !keep ==> props.Keys == old(props).Keys - {key}
      ensures forall k :: k in props ==> props[k] == old(props)[k]
    {
      keep := Keep(results);
      if !keep {
        props := props - {key};
      }
    }
  }

  /** Applying the limits never lengthens the array, and with a defined
      limit the array is at most that long and keeps its leading elements. */
  lemma LimitedShortens<T>(s: seq<T>, ps: seq<Plugin>)
    requires EffectiveLimit(ps).Success?
    ensures Limited(s, EffectiveLimit(ps).value) <= s
    ensures forall p :: p in ps && DefinesLimit(p) ==> |Limited(s, EffectiveLimit(ps).value)| <= p.limit.value.n
    ensures (forall p :: p in ps ==> !DefinesLimit(p)) ==> Limited(s, EffectiveLimit(ps).value) == s
  {
  }

  /** The synchronous `rewrite` refuses inputs whose INJECT stage produced
      asynchronous work. */
  datatype RewriteError = AsyncLogicInSyncRewrite

  /** `rewrite(input, context)`: `afterInject` is the input once the INJECT
      stage has run and `promises` the thunks it collected; `finish` is the
      FILTER, SORT and retain stage. */
  function Rewrite<S, P>(afterInject: S, promises: seq<P>, finish: S -> S): (r: Result<S, RewriteError>)
    ensures r.Success? <==> |promises| == 0
    ensures r.Success? ==> r.value == finish(afterInject)
  {
    if |promises| != 0 then Failure(AsyncLogicInSyncRewrite) else Success(finish(afterInject))
  }
}
