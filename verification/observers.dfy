/** The observer registry's entries and what a callback invocation looks like
    from the engine's side. */
module Observers {
  import opened Objects
  import opened Values

  /** A queued trailing-call entry: a falsy value, or a function known by its identity. */
  datatype Call = Falsy | Fn(id: nat)

  /** What a callback returns: nothing truthy, one function, or an array of entries. */
  datatype Returned = Nothing | One(id: nat) | Many(entries: seq<Call>)

  /** What one callback invocation hands back to the pass: the arguments of its
      `trailingCall` calls in order, the shallow merge of its `trailingCommit`
      arguments, and its return value. */
  datatype Reaction<V> = Reaction(calls: seq<Call>, commits: Data<V>, returned: Returned)

  /** A watcher's callback of `(newVal, oldVal)`; the third argument is the store
      as the callback would read it through `get`. `Absent` is a falsy callback. */
  datatype Callback<!V> = Absent | Present(run: (Snapshot<V>, Snapshot<V>, Snapshot<V>) -> Reaction<V>)

  /** An entry of `watchers`: the callback and the declared properties. */
  datatype Observer<!V> = Observer(callback: Callback<V>, props: seq<string>)

  /** One callback invocation, with the objects it received. */
  datatype Notification<V> = Notification(id: nat, newVal: Snapshot<V>, oldVal: Snapshot<V>)

  /** `dispatches`: observer id to its change object, in first-change order. */
  type Dispatches<V> = Object<nat, Snapshot<V>>

  /** Every dispatch entry names a registered observer that declares the
      property, and every declared property lists its observer. */
  predicate Indexed<V>(watchers: map<nat, Observer<V>>, dispatchers: map<string, seq<nat>>) {
    && (forall k, id :: k in dispatchers && id in dispatchers[k] ==> id in watchers && k in watchers[id].props)
    && (forall id, k :: id in watchers && k in watchers[id].props ==> k in dispatchers && id in dispatchers[k])
  }

  /** A callback's return value queued "as if passed to `trailingCall`". */
  function Queued(returned: Returned): (r: seq<Call>)
    ensures r == [] <==> returned.Nothing? || (returned.Many? && returned.entries == [])
    ensures returned.One? ==> r == [Fn(returned.id)]
    ensures returned.Many? ==> r == returned.entries
  {
    match returned
    case Nothing => []
    case One(id) => [Fn(id)]
    case Many(entries) => entries
  }
}
