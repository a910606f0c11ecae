/** The dispatch loop of a commit pass: which observers are invoked, with what
    `newVal`/`oldVal`, and the trailing calls and trailing commit they leave. */
module Notifications {
  import opened Objects
  import opened Values
  import opened Observers

  /** The `newVal`/`oldVal` loop: a watched property with a recorded change gets
      its new value and its value before the commit; any other watched property
      reads the store in both. */
  function Project<V>(props: seq<string>, change: Snapshot<V>, oldValues: Snapshot<V>, values: Snapshot<V>,
                      newVal: Snapshot<V>, oldVal: Snapshot<V>): (Snapshot<V>, Snapshot<V>)
  {
    if props == [] then (newVal, oldVal)
    else
      var p := props[0];
      if p in change then Project(props[1..], change, oldValues, values, newVal[p := change[p]], oldVal[p := Read(oldValues, p)])
      else Project(props[1..], change, oldValues, values, newVal[p := Read(values, p)], oldVal[p := Read(values, p)])
  }

  lemma ProjectEffect<V>(props: seq<string>, change: Snapshot<V>, oldValues: Snapshot<V>,
                         values: Snapshot<V>, newVal: Snapshot<V>, oldVal: Snapshot<V>)
    ensures var r := Project(props, change, oldValues, values, newVal, oldVal);
      && (forall p :: p in r.0 <==> p in newVal || p in props)
      && (forall p :: p in r.1 <==> p in oldVal || p in props)
      && (forall p :: p in props ==> p in r.0 && r.0[p] == (if p in change then change[p] else Read(values, p)))
      && (forall p :: p in props ==> p in r.1 && r.1[p] == (if p in change then Read(oldValues, p) else Read(values, p)))
      && (forall p :: p in newVal && p !in props ==> r.0[p] == newVal[p])
      && (forall p :: p in oldVal && p !in props ==> r.1[p] == oldVal[p])
  {
    ProjectNew(props, change, oldValues, values, newVal, oldVal);
    ProjectOld(props, change, oldValues, values, newVal, oldVal);
  }

  lemma {:induction false} ProjectNew<V>(props: seq<string>, change: Snapshot<V>, oldValues: Snapshot<V>,
                                         values: Snapshot<V>, newVal: Snapshot<V>, oldVal: Snapshot<V>)
    ensures var r := Project(props, change, oldValues, values, newVal, oldVal).0;
      && (forall p :: p in r <==> p in newVal || p in props)
      && (forall p :: p in props ==> r[p] == (if p in change then change[p] else Read(values, p)))
      && (forall p :: p in newVal && p !in props ==> r[p] == newVal[p])
  {
    if props != [] {
      var p := props[0];
      if p in change {
        ProjectNew(props[1..], change, oldValues, values, newVal[p := change[p]], oldVal[p := Read(oldValues, p)]);
      } else {
        ProjectNew(props[1..], change, oldValues, values, newVal[p := Read(values, p)], oldVal[p := Read(values, p)]);
      }
      assert forall x :: x in props ==> x == p || x in props[1..];
    }
  }

  lemma {:induction false} ProjectOld<V>(props: seq<string>, change: Snapshot<V>, oldValues: Snapshot<V>,
                                         values: Snapshot<V>, newVal: Snapshot<V>, oldVal: Snapshot<V>)
    ensures var r := Project(props, change, oldValues, values, newVal, oldVal).1;
      && (forall p :: p in r <==> p in oldVal || p in props)
      && (forall p :: p in props ==> r[p] == (if p in change then Read(oldValues, p) else Read(values, p)))
      && (forall p :: p in oldVal && p !in props ==> r[p] == oldVal[p])
  {
    if props != [] {
      var p := props[0];
      if p in change {
        ProjectOld(props[1..], change, oldValues, values, newVal[p := change[p]], oldVal[p := Read(oldValues, p)]);
      } else {
        ProjectOld(props[1..], change, oldValues, values, newVal[p := Read(values, p)], oldVal[p := Read(values, p)]);
      }
      assert forall x :: x in props ==> x == p || x in props[1..];
    }
  }

  /** The invocation of observer `id`, with the projections of its change object. */
  function Note<V>(watchers: map<nat, Observer<V>>, ds: Dispatches<V>, oldValues: Snapshot<V>, values: Snapshot<V>,
                   id: nat): Notification<V>
    requires id in ds.vals && id in watchers
  {
    var views := Project(watchers[id].props, ds.vals[id], oldValues, values, map[], map[]);
    Notification(id, views.0, views.1)
  }

  /** The invocations the dispatch loop makes over the observers `ids`: one for
      each observer whose callback is truthy, in the order of `ids`. */
  function Notes<V>(watchers: map<nat, Observer<V>>, ds: Dispatches<V>, oldValues: Snapshot<V>, values: Snapshot<V>,
                    ids: seq<nat>): seq<Notification<V>>
    requires forall id :: id in ids ==> id in ds.vals && id in watchers
  {
    if ids == [] then []
    else
      var id := ids[|ids| - 1];
      Notes(watchers, ds, oldValues, values, ids[..|ids| - 1])
        + (if watchers[id].callback.Present? then [Note(watchers, ds, oldValues, values, id)] else [])
  }

  /** The ids of a sequence of invocations. */
  function Ids<V>(notes: seq<Notification<V>>): (r: seq<nat>)
    ensures |r| == |notes|
  {
    if notes == [] then [] else Ids(notes[..|notes| - 1]) + [notes[|notes| - 1].id]
  }

  /** The ids whose observer has a truthy callback, in their order. */
  function Listening<V>(watchers: map<nat, Observer<V>>, ids: seq<nat>): (r: seq<nat>)
    requires forall id :: id in ids ==> id in watchers
    ensures forall id :: id in r ==> id in ids && watchers[id].callback.Present?
    ensures forall id :: id in ids && watchers[id].callback.Present? ==> id in r
    ensures Distinct(ids) ==> Distinct(r)
  {
    if ids == [] then []
    else
      var id := ids[|ids| - 1];
      var init := ids[..|ids| - 1];
      assert Distinct(ids) ==> id !in init;
      Listening(watchers, init) + (if watchers[id].callback.Present? then [id] else [])
  }

  /** The dispatch loop invokes exactly the observers of `ids` whose callback is
      truthy, each once and in the order of `ids`, and hands each the
      projections of its own change object. */
  lemma NotesEffect<V>(watchers: map<nat, Observer<V>>, ds: Dispatches<V>,
                       oldValues: Snapshot<V>, values: Snapshot<V>, ids: seq<nat>)
    requires forall id :: id in ids ==> id in ds.vals && id in watchers
    ensures var notes := Notes(watchers, ds, oldValues, values, ids);
      && Ids(notes) == Listening(watchers, ids)
      && forall i :: 0 <= i < |notes| ==> notes[i].id in ids && notes[i] == Note(watchers, ds, oldValues, values, notes[i].id)
  {
    NotesIds(watchers, ds, oldValues, values, ids);
    NotesEach(watchers, ds, oldValues, values, ids);
    assert NotedFrom(watchers, ds, oldValues, values, ids, Notes(watchers, ds, oldValues, values, ids));
  }

  lemma {:induction false} NotesIds<V>(watchers: map<nat, Observer<V>>, ds: Dispatches<V>,
                                       oldValues: Snapshot<V>, values: Snapshot<V>, ids: seq<nat>)
    requires forall id :: id in ids ==> id in ds.vals && id in watchers
    ensures Ids(Notes(watchers, ds, oldValues, values, ids)) == Listening(watchers, ids)
  {
    if ids != [] {
      var init := ids[..|ids| - 1];
      NotesIds(watchers, ds, oldValues, values, init);
      var prev := Notes(watchers, ds, oldValues, values, init);
      if watchers[ids[|ids| - 1]].callback.Present? {
        var n := Note(watchers, ds, oldValues, values, ids[|ids| - 1]);
        assert (prev + [n])[..|prev|] == prev;
      } else {
        assert prev + [] == prev;
      }
    }
  }

  /** Each invocation is of one of `ids`, with the projections of its own change object. */
  ghost predicate NotedFrom<V>(watchers: map<nat, Observer<V>>, ds: Dispatches<V>, oldValues: Snapshot<V>,
                               values: Snapshot<V>, ids: seq<nat>, notes: seq<Notification<V>>)
    requires forall id :: id in ids ==> id in ds.vals && id in watchers
  {
    forall i :: 0 <= i < |notes| ==> notes[i].id in ids && notes[i] == Note(watchers, ds, oldValues, values, notes[i].id)
  }

  lemma {:induction false} NotesEach<V>(watchers: map<nat, Observer<V>>, ds: Dispatches<V>,
                                        oldValues: Snapshot<V>, values: Snapshot<V>, ids: seq<nat>)
    requires forall id :: id in ids ==> id in ds.vals && id in watchers
    ensures NotedFrom(watchers, ds, oldValues, values, ids, Notes(watchers, ds, oldValues, values, ids))
  {
    if ids != [] {
      var init := ids[..|ids| - 1];
      NotesEach(watchers, ds, oldValues, values, init);
      var prev := Notes(watchers, ds, oldValues, values, init);
      if watchers[ids[|ids| - 1]].callback.Present? {
        var n := Note(watchers, ds, oldValues, values, ids[|ids| - 1]);
        assert forall i :: 0 <= i < |prev| ==> (prev + [n])[i] == prev[i];
      } else {
        assert prev + [] == prev;
      }
    }
  }

  /** Every invocation is of a registered observer with a truthy callback. */
  predicate Invoked<V>(watchers: map<nat, Observer<V>>, notes: seq<Notification<V>>) {
    forall i :: 0 <= i < |notes| ==> notes[i].id in watchers && watchers[notes[i].id].callback.Present?
  }

  lemma {:induction false} NotesInvoked<V>(watchers: map<nat, Observer<V>>, ds: Dispatches<V>,
                                           oldValues: Snapshot<V>, values: Snapshot<V>, ids: seq<nat>)
    requires forall id :: id in ids ==> id in ds.vals && id in watchers
    ensures Invoked(watchers, Notes(watchers, ds, oldValues, values, ids))
  {
    if ids != [] {
      NotesInvoked(watchers, ds, oldValues, values, ids[..|ids| - 1]);
    }
  }

  /** A truthy callback's reaction to one of its invocations; it reads the store `values`. */
  function Reacted<V>(watchers: map<nat, Observer<V>>, values: Snapshot<V>, n: Notification<V>): Reaction<V>
    requires n.id in watchers && watchers[n.id].callback.Present?
  {
    watchers[n.id].callback.run(n.newVal, n.oldVal, values)
  }

  /** The entries the invocations push on `trailingCalls`: for each, its
      `trailingCall` arguments and then its return value. */
  function Emitted<V>(watchers: map<nat, Observer<V>>, values: Snapshot<V>, notes: seq<Notification<V>>): seq<Call>
    requires Invoked(watchers, notes)
  {
    if notes == [] then []
    else
      var r := Reacted(watchers, values, notes[|notes| - 1]);
      Emitted(watchers, values, notes[..|notes| - 1]) + r.calls + Queued(r.returned)
  }

  /** `trailingCommitter` after the invocations, starting from `acc`: each
      invocation's trailing commit is shallow-merged over the earlier ones. */
  function Gathered<V>(watchers: map<nat, Observer<V>>, values: Snapshot<V>, acc: Data<V>,
                       notes: seq<Notification<V>>): Data<V>
    requires Invoked(watchers, notes)
  {
    if notes == [] then acc
    else
      var last := notes[|notes| - 1];
      Assign(Gathered(watchers, values, acc, notes[..|notes| - 1]), Reacted(watchers, values, last).commits)
  }

  /** The index of the last invocation whose trailing commit holds `k`, or -1. */
  function LastCommitter<V>(watchers: map<nat, Observer<V>>, values: Snapshot<V>,
                            notes: seq<Notification<V>>, k: string): (r: int)
    requires Invoked(watchers, notes)
    ensures -1 <= r < |notes|
    ensures 0 <= r ==> k in Reacted(watchers, values, notes[r]).commits.vals
    ensures forall j :: r < j < |notes| ==> k !in Reacted(watchers, values, notes[j]).commits.vals
  {
    if notes == [] then -1
    else if k in Reacted(watchers, values, notes[|notes| - 1]).commits.vals then |notes| - 1
    else LastCommitter(watchers, values, notes[..|notes| - 1], k)
  }

  /** The trailing commit holds the keys of `acc` and of every invocation's
      trailing commit; a key takes the value the last invocation committing it
      gave, and keeps its `acc` value when no invocation commits it. */
  lemma {:induction false} GatheredEffect<V>(watchers: map<nat, Observer<V>>, values: Snapshot<V>, acc: Data<V>,
                                             notes: seq<Notification<V>>, k: string)
    requires Invoked(watchers, notes)
    ensures var g := Gathered(watchers, values, acc, notes);
      var i := LastCommitter(watchers, values, notes, k);
      && (k in g.vals <==> k in acc.vals || 0 <= i)
      && (0 <= i ==> g.vals[k] == Reacted(watchers, values, notes[i]).commits.vals[k])
      && (i < 0 && k in acc.vals ==> g.vals[k] == acc.vals[k])
  {
    if notes != [] {
      GatheredEffect(watchers, values, acc, notes[..|notes| - 1], k);
    }
  }
}
