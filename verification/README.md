# A verified model of the `Watcher` property store

`Watcher` (index.js) is a batched, dependency-aware property store. `commit`
writes several named values at once. Before it stores them it runs the
registered computation rules over them: "from" rules registered with
`computed`, "to" rules registered with `computing`. It then stores every value
that differs (`!==`) from the stored one. Each observer registered with
`watch` is invoked at most once per pass, and only when one of its properties
changed. The invocation receives `newVal`/`oldVal` objects over the
observer's declared properties. Observers may queue trailing calls and
trailing data. A trailing call runs once, at its last occurrence in the
queue. Trailing data is shallow-merged and committed again.

The model follows the source's own form:

- The `Watcher` class is a Dafny class, `Store.Watcher`. Its fields are
  `id`, `watchers`, `dispatchers`, `values` and `computations`. Every loop
  of the source is a method with a `while` loop and its invariants.
- Each method is proved against a specification function on values.
- The properties the source promises are proved as lemmas about those
  functions.

Modules:

- `Objects`: JavaScript objects and Maps whose key insertion order is
  observable: `Obj` (keys in order plus a map), `Put` (`o[k] = v`), `Assign`
  (`Object.assign`).
- `Values`: property values; `Undefined` is also what a missing key reads as.
- `Observers`: the observer registry's entries, callbacks as functions,
  trailing-call entries, and the `Indexed` agreement between `watchers` and
  `dispatchers`.
- `Registration`: the dispatch-entry loop of `watch`.
- `Rules`: the computation registry and `_compute`.
- `Diffs`: the diff loop of `commit`.
- `Notifications`: the dispatch loop, the `newVal`/`oldVal` projections, and
  the trailing calls and trailing data the callbacks leave.
- `TrailingCalls`: the deduplicated run of the trailing calls.
- `Chains`: the chain of trailing commits, followed for at most `fuel`
  nested commits.
- `Commits`: one commit as a function of the registry and the store, with the
  properties of a pass.
- `Store`: the class.

Callbacks are pure functions of their arguments. A "from" or "to" compute
function receives the working snapshot. An observer callback receives
`newVal`, `oldVal` and the store as `get` would read it. It returns a
`Reaction`, which holds:

- the arguments of its `trailingCall` calls, in order;
- the shallow merge of its `trailingCommit` arguments;
- its return value.

A function is known by its identity, a number. Whatever a commit does outside
the store is appended to the field `events`: each observer invocation
(`Notified`) and each trailing function run (`Ran`).

## Model

| member | source | states |
|---|---|---|
| Objects.Put | index.js:74 | setting a key stores the value under it; an existing key keeps its place and a new key goes last |
| Objects.UnseenOrder | index.js:127 | the keys a map does not hold are taken from a key list at increasing positions, exactly the positions of those keys |
| Objects.Assign | index.js:127 | `Object.assign`: the result holds both objects' entries with the second winning, and the first object's keys stay first in their order |
| Objects.AssignOrder | index.js:127 | the keys `Object.assign` appends after the first object's are the second object's keys read at increasing positions, exactly those the first object lacks: they keep the second object's order |
| Objects.AssignToEmpty | index.js:64 | copying an object into `{}` gives the same keys in the same order with the same values |
| Observers.Queued | index.js:166-167 | a falsy return value queues nothing, a function queues itself, an array queues its entries in order; nothing is queued exactly for a falsy value or an empty array |
| Registration.Names | index.js:182 | a single property name is treated as a list holding only it; a list is kept as given |
| Registration.SubscribeLists | index.js:184-191 | after `watch`, a property has a dispatch entry iff it had one or is declared; the entry is the old one followed by the new id, once per declaration |
| Registration.SubscribeIndexed | index.js:181-192 | registering an observer under an unused id keeps every dispatch entry in agreement with the observers' declared properties, in both directions |
| Rules.OthersFilter | index.js:102-104 | the deleting loop keeps every rule outside the new rule's slot and no other, at most one per slot |
| Rules.OthersOrder | index.js:102-104 | the kept rules are the old list read at increasing positions, and those positions are exactly the ones outside the slot: the kept rules keep their relative order |
| Rules.RegisterReplaces | index.js:101-117 | `computed`/`computing` leave one rule per slot: the new rule is last, and the rules before it are the old rules outside the slot, all of them, in their relative order |
| Rules.StartCoherent | index.js:64-66 | `_compute` starts from a copy of the data equal to it, and every derived entry agrees with the data |
| Rules.AnyChangedExists | index.js:72-73 | a "from" rule's loop finds a trigger iff some source property is a key of the data with a value other than the store's |
| Rules.FromPropsEffect | index.js:72-79 | the source-property loop leaves the state unchanged when no source changed; otherwise it changes the data and the derived entries at the computed property only, and the working snapshot becomes the old one overlaid with the new data |
| Rules.FromPropsSplit | index.js:72-79 | the source-property loop over `a + b` is the loop over `a` followed by the loop over `b` on the state `a` left |
| Rules.FromPropsLast | index.js:72-78 | when some source changed, the value derived is the one computed for the last source found changed (each checked against the data the earlier ones left), on the working snapshot as it stood then |
| Rules.FromBothChanged | index.js:72-78 | with two changed sources the value is computed twice, and the second computation sees a snapshot already holding the first result |
| Rules.AbsorbPut | index.js:74-77 | recording one derived value puts it into the derived entries and the data, at that key only |
| Rules.AbsorbAssign | index.js:84-86 | merging a "to" rule's result puts its entries over both the data and the derived entries |
| Rules.FromRule | index.js:68-79 | a "from" rule is skipped when its computed property is already in the data; otherwise it runs iff a source property changed, and then it derives exactly its computed property, overlays the snapshot with the new data, and leaves the value computed for the last changed source on the snapshot of that moment |
| Rules.ToRule | index.js:80-88 | a "to" rule runs iff its trigger is in the data with a changed value, merges only a truthy result, and then the result wins over the data and the derived entries |
| Rules.DerivedAtTrans | index.js:72-79 | running a "from" rule again at the same computed property still changes the state at that property only, with the snapshot overlaid with the data |
| Rules.ApplyCoherent | index.js:67-89 | each rule keeps every derived entry equal to the data's value and never removes a key of the data |
| Rules.DeriveCoherent | index.js:67-90 | all rules together keep every derived entry in the data and only add keys to the data |
| Rules.DeriveSplit | index.js:67 | rules run in registration order, each on what the earlier ones left |
| Rules.CommittedPropNotDerived | index.js:69-70 | a "from" rule whose computed property is a key of the committed data never runs |
| Diffs.GroupEffect | index.js:136-145 | grouping a changed key adds it, with its new value, to the change object of every listed observer (creating the object when missing) and leaves every other object as it was; observers already in `dispatches` keep their place |
| Diffs.FirstMet | index.js:138-143 | the ids of a list that are not yet dispatched are listed once each, and no other id |
| Diffs.GroupKeys | index.js:138-143 | grouping keeps the observers already in `dispatches` in place and appends the new ones, once each, in the order the dispatch entry first lists them |
| Diffs.GroupedStep | index.js:138-144 | one iteration of the grouping loop is the grouping of one observer |
| Diffs.DiffKeyValues | index.js:130-135 | one key of the diff loop keeps the store and `oldValues` in step with the keys diffed so far |
| Diffs.DiffKeyStep | index.js:130-147 | one key of the diff loop keeps the store, `oldValues` and the change objects in step |
| Diffs.DiffEffect | index.js:130-147 | the diff loop over distinct keys keeps that agreement and never drops an observer from `dispatches` |
| Diffs.DiffAllStore | index.js:130-135 | after the diff loop every merged key holds its merged value and every other key keeps its value; `oldValues` holds the prior value of exactly the keys whose value changed |
| Diffs.DiffAllGroups | index.js:130-147 | after the diff loop an observer has a change object iff a property listing it changed; the object holds exactly those properties, with their new values, and is never empty |
| Diffs.GroupedEntry | index.js:136-143 | every entry of a change object is a changed property whose dispatch entry lists the observer |
| Diffs.GroupedChange | index.js:136-143 | every changed property is in the change object of every observer its dispatch entry lists |
| Diffs.GroupedSome | index.js:139-143 | a change object has at least one entry |
| Notifications.ProjectNew | index.js:155-164 | `newVal` holds exactly the declared properties: the changed value when the property is in the change object, otherwise the stored value |
| Notifications.ProjectOld | index.js:155-164 | `oldVal` holds exactly the declared properties: the old value when the property is in the change object, otherwise the stored value |
| Notifications.ProjectEffect | index.js:155-164 | both projections together, over any starting objects |
| Notifications.Listening | index.js:153-154 | the observers with a truthy callback among the given ids, in order, without repetition when the ids are distinct |
| Notifications.NotesEffect | index.js:152-169 | the dispatch loop invokes exactly the observers with a truthy callback, in `dispatches` order, each with the projections of its own change object |
| Notifications.NotesIds | index.js:152-154 | the invoked ids are the listening ids in order |
| Notifications.NotesEach | index.js:153-164 | each invocation is of a dispatched observer, with its own projections |
| Notifications.NotesInvoked | index.js:153-154 | every invocation is of a registered observer with a truthy callback |
| Notifications.LastCommitter | index.js:150 | the index of the last invocation whose trailing commit holds a key; no later invocation commits that key |
| Notifications.GatheredEffect | index.js:148-150 | the trailing data holds the keys of every trailing commit; each key takes the value of the last invocation that committed it |
| TrailingCalls.LastIndexOf | index.js:171 | `lastIndexOf`: -1 iff the entry is absent; otherwise the entry is at that index and at no later one |
| TrailingCalls.ExecutedUpToMembers | index.js:171 | after `n` entries, a function has run iff it is queued and its last occurrence is before `n` |
| TrailingCalls.ExecutedUpToOrder | index.js:171 | the functions run in the order of their last occurrences |
| TrailingCalls.TrailingCallsOnce | index.js:171 | each function queued at least once runs exactly once, in the order of last occurrences; falsy entries never run |
| Chains.After | index.js:172 | what one pass did comes first, followed by the outcome of the nested commit |
| Chains.MoreFuel | index.js:172 | a chain of trailing commits that ended within the fuel ends the same way with one more unit of fuel |
| Chains.EnoughFuel | index.js:172 | a chain that ended within the fuel ends the same way with any larger fuel |
| Commits.Resolve | index.js:123-124 | a function argument is called with the store and its result is what is committed; an object is committed as given; no argument commits nothing |
| Commits.Merge | index.js:127 | the merged data keeps the committed keys first, in order; a derived entry wins over a committed one |
| Commits.MergeOrder | index.js:127 | after the committed keys the merged data lists the derived keys that were not committed, in the order `_compute` derived them |
| Commits.DispatchedRegistered | index.js:153 | every observer with a change object is registered |
| Commits.PassStore | index.js:127-135 | after a pass every merged key holds its merged value (a derived entry wins) and every other key keeps its value; `oldValues` holds the prior value of exactly the changed keys |
| Commits.PassNotifies | index.js:128-154 | the observers invoked are exactly those with a truthy callback that declare a property whose value changed; each is invoked once, in `dispatches` order |
| Commits.PassProjections | index.js:155-164 | each invocation gets, for every declared property and no other, the value after the pass in `newVal` and the value before the commit in `oldVal` |
| Commits.ProjectionOf | index.js:155-164 | the same, for one dispatched observer |
| Commits.ChangeAgrees | index.js:158-162 | a declared property in the change object holds the stored value and was recorded with its prior value; a declared property outside it did not change |
| Commits.QuietPass | index.js:130-147 | when no merged value differs from the store's, the pass changes nothing, invokes no one and leaves no trailing work |
| Commits.RunResolved | index.js:122-172 | a commit of data with keys runs one pass and its trailing calls, then commits the trailing data on the new store while fuel remains |
| Commits.RunMoreFuel | index.js:172 | a commit that settled within the fuel has the same outcome with more fuel |
| Commits.Run | index.js:122-175 | a falsy argument, a falsy result of a function argument, or data without keys leaves the store as it was and notifies no one |
| Store.Watcher.constructor | index.js:47-53 | a new store has no observers, dispatch entries, values or rules, and id 0 |
| Store.Watcher.Get | index.js:198-200 | `get` returns the stored value, or `Undefined` for a key never stored |
| Store.Watcher.ToObject | index.js:54-58 | `_map2obj` copies every entry of the store |
| Store.Watcher.Compute | index.js:63-92 | `_compute` returns the derived entries of the rules run in order over the data |
| Store.Watcher.RunRule | index.js:67-89 | one iteration of the rule loop is the rule's step on the working state |
| Store.Watcher.Install | index.js:101-117 | registration deletes the rules in the new rule's slot, adds the new rule last, and keeps the store valid |
| Store.Watcher.Unslotted | index.js:102-104 | the deleting loop keeps the rules outside the slot, in order |
| Store.Watcher.Computed | index.js:101-106 | `computed` registers a "from" rule in place of the one for the same computed property |
| Store.Watcher.Computing | index.js:112-117 | `computing` registers a "to" rule in place of the one for the same trigger |
| Store.Watcher.Watch | index.js:181-193 | `watch` registers the observer under the next id, pushes the id on the dispatch entry of each declared property, and keeps the store valid |
| Store.Watcher.Commit | index.js:122-175 | `commit` has the outcome of `Run`: the store, what it did, and whether the trailing commits ended within the fuel |
| Store.Watcher.CommitData | index.js:125-172 | commit of resolved data: nothing happens for data without keys; otherwise one pass runs, then the trailing data is committed while fuel remains |
| Store.Watcher.Pass | index.js:127-171 | one pass: the store, what it did and the trailing data, as the pass function gives them |
| Store.Watcher.Record | index.js:128-147 | the diff loop leaves the store, `oldValues` and `dispatches` that the diff specification gives |
| Store.Watcher.RecordKey | index.js:131-146 | one key of the diff loop |
| Store.Watcher.GroupChange | index.js:136-145 | the grouping loop adds the changed key to each listed observer's change object |
| Store.Watcher.Views | index.js:155-164 | `newVal`/`oldVal` hold exactly the declared properties, with the changed and prior values for changed ones and the stored value otherwise |
| Store.Watcher.Dispatch | index.js:152-169 | the dispatch loop makes the invocations of `Notes` and leaves the trailing calls of `Emitted` and the trailing data of `Gathered` |
| Store.Watcher.Invoke | index.js:153-168 | one observer: a falsy callback is skipped; a truthy one is invoked with its projections, and its queued calls, return value and trailing commit are collected |
| Store.Watcher.RunTrailingCalls | index.js:171 | the `forEach` runs the trailing functions `Executed` names, in order |

## Left out

- The `module.exports` factory (index.js:203) is not modelled. It only constructs a `Watcher`.
- Exceptions are not modelled. Neither is re-entrant use of the store from inside a callback (a callback calling `commit` or `watch`).
- Callback side effects other than the `Reaction` (the trailing calls, the trailing commit and the return value) are left out. So are the side effects of trailing functions; their runs are recorded in `events`.
- A callback that calls `trailingCommit` several times is represented by the shallow merge of its arguments. `Object.assign` onto the same target makes the two equal.
- A truthy return value that is neither a function nor an array is not modelled. Such a value is queued and then called as a function, which throws.
- Functions are known by an identity number. The model does not cover JavaScript's reference identity of objects and closures.
- `NaN` and `±0` are not modelled. Values are compared with Dafny's equality, which is `!==` without those two cases.
- JavaScript's `in` (index.js:70, 73, 81, 158) also finds inherited names such as `toString` or `constructor`. The model treats every key as an own key, so such a name is present only when it was stored.
- The integer-like key ordering of JavaScript objects is not modelled. Keys keep insertion order.
- `trailingCalls.length = 0` (index.js:173) is left out. Nothing reads the array afterwards.
- Store.Watcher.Commit: the recursive `this.commit(trailingCommitter)` is followed for at most `fuel` nested commits. `settled` says whether the chain ended within that bound. A chain that never settles, which loops forever in JavaScript, is not modelled.
- Store.Watcher.Commit: a function argument receives the store as a map value. The source passes the live `Map`, and a function that mutates it is not modelled.
- Store.Watcher.CommitData: its ghost `step` and `reg` parameters stand for the pass of the current registry. They are a proof device. `Commit` passes the real pass, so its contract is stated in terms of `Run` alone.
- The `events` field is not part of the source. It records, in order, the invocations and trailing-function runs a commit makes.
- The "from" rule's loop over its source properties has no `break` (index.js:72-79). Every changed source property recomputes the value on the current snapshot, so the last computation wins. The model follows the code. The model does not stop at the first changed source property.
- Trailing calls run in the order of their last occurrences in the queue, as `lastIndexOf` in index.js:171 makes them. The model follows this. It does not use plain queue order.
