/**
 * The fluent rule builder `handle` (index.js). JavaScript arrays are shared
 * by reference, so the model keeps an explicit store of the rule arrays the
 * builder pushes into; a chain object remembers which array it closes over.
 */
module Builder {
  import opened Wrappers
  import opened Rules

  /** `arrays[a]` is the current content of rule array number `a`. */
  datatype Store<V> = Store(arrays: seq<seq<Rule<V>>>)

  /** The object `handle` returns; its `handle` and `create` both use array number `target`. */
  datatype Chain = Chain(target: nat)

  /** The store after a call of `handle`, and the chain that call returned. */
  datatype Built<V> = Built(store: Store<V>, chain: Chain)

  /**
   * `handle(pattern, handler, handlers)`: push one rule onto `handlers`, or
   * onto a fresh empty array when none is given, and return a chain over
   * that array.
   */
  function Handle<V>(store: Store<V>, pattern: string, handler: Handler<V>, handlers: Option<nat>): (r: Built<V>)
    requires handlers.Some? ==> handlers.value < |store.arrays|
    ensures r.chain.target < |r.store.arrays|
    ensures handlers.Some? ==> r.chain.target == handlers.value && |r.store.arrays| == |store.arrays|
    ensures handlers.None? ==> r.chain.target == |store.arrays| && |r.store.arrays| == |store.arrays| + 1
    ensures r.store.arrays[r.chain.target] ==
      (if handlers.Some? then store.arrays[handlers.value] else []) + [Rule(pattern, handler)]
    ensures forall a :: 0 <= a < |store.arrays| && a != r.chain.target ==> r.store.arrays[a] == store.arrays[a]
  {
    var (s, a) := if handlers.Some? then (store, handlers.value) else (Store(store.arrays + [[]]), |store.arrays|);
    Built(Store(s.arrays[a := s.arrays[a] + [Rule(pattern, handler)]]), Chain(a))
  }

  /** `chain.handle(pattern, handler)`: push onto the chain's own array. */
  function ChainHandle<V>(store: Store<V>, chain: Chain, pattern: string, handler: Handler<V>): (r: Built<V>)
    requires chain.target < |store.arrays|
    ensures r.chain == chain && |r.store.arrays| == |store.arrays|
    ensures Create(r.store, chain) == Create(store, chain) + [Rule(pattern, handler)]
    ensures forall a :: 0 <= a < |store.arrays| && a != chain.target ==> r.store.arrays[a] == store.arrays[a]
  {
    Handle(store, pattern, handler, Some(chain.target))
  }

  /** `chain.create()`: the chain's array itself, not a copy. */
  function Create<V>(store: Store<V>, chain: Chain): (r: seq<Rule<V>>)
    requires chain.target < |store.arrays|
    ensures r in store.arrays
  {
    store.arrays[chain.target]
  }

  /** The rules that a run of `handle` calls pushes, in call order. */
  function RulesOf<V>(calls: seq<(string, Handler<V>)>): (rules: seq<Rule<V>>)
    decreases |calls|
  {
    if calls == [] then [] else [Rule(calls[0].0, calls[0].1)] + RulesOf(calls[1..])
  }

  /** `RulesOf` holds one rule per call, the i-th built from the i-th call. */
  lemma {:induction false} OneRulePerCall<V>(calls: seq<(string, Handler<V>)>)
    ensures |RulesOf(calls)| == |calls|
    ensures forall i :: 0 <= i < |calls| ==> RulesOf(calls)[i] == Rule(calls[i].0, calls[i].1)
    decreases |calls|
  {
    if calls != [] {
      OneRulePerCall(calls[1..]);
    }
  }

  /**
   * `chain.handle(p1, h1).handle(p2, h2)...`: the chain's array ends with the
   * rules in call order, the same chain is returned, and no other array
   * changes.
   */
  function HandleAll<V>(store: Store<V>, chain: Chain, calls: seq<(string, Handler<V>)>): (r: Built<V>)
    requires chain.target < |store.arrays|
    ensures r.chain == chain && |r.store.arrays| == |store.arrays|
    ensures Create(r.store, chain) == Create(store, chain) + RulesOf(calls)
    ensures forall a :: 0 <= a < |store.arrays| && a != chain.target ==> r.store.arrays[a] == store.arrays[a]
    decreases |calls|
  {
    if calls == [] then Built(store, chain)
    else
      var next := ChainHandle(store, chain, calls[0].0, calls[0].1);
      HandleAll(next.store, next.chain, calls[1..])
  }

  /**
   * `handle(p1, h1).handle(p2, h2).create()` lists the two rules in call
   * order, and the first chain link sees the second push: both links share
   * one array.
   */
  lemma TwoHandlesInCallOrder<V>(store: Store<V>, p1: string, h1: Handler<V>, p2: string, h2: Handler<V>)
    ensures
      var first := Handle(store, p1, h1, None);
      var second := ChainHandle(first.store, first.chain, p2, h2);
      && Create(second.store, second.chain) == [Rule(p1, h1), Rule(p2, h2)]
      && Create(second.store, first.chain) == Create(second.store, second.chain)
  {
  }

  /**
   * A session snapshots the array when it starts; pushes made later through
   * the same chain only extend the builder's array, and the snapshot stays a
   * prefix of it.
   */
  lemma LaterPushesExtendSnapshot<V>(store: Store<V>, chain: Chain, calls: seq<(string, Handler<V>)>)
    requires chain.target < |store.arrays|
    ensures
      var snapshot := Create(store, chain);
      var later := Create(HandleAll(store, chain, calls).store, chain);
      |later| == |snapshot| + |calls| && later[..|snapshot|] == snapshot
  {
    OneRulePerCall(calls);
  }
}
