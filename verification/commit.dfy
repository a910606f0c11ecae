/** One call of `commit`: resolve the argument, merge the derived entries into
    the data, diff against the store, notify the observers, run the trailing
    calls, and commit the trailing data again. */
module Commits {
  import opened Objects
  import opened Values
  import opened Rules
  import opened Observers
  import opened Diffs
  import opened Notifications
  import opened TrailingCalls
  import opened Chains

  /** What a commit reads besides the store: the observers, the dispatch
      entries and the rules, none of which a commit changes. */
  datatype Tables<!V> = Tables(watchers: map<nat, Observer<V>>, dispatchers: map<string, seq<nat>>,
                               rules: seq<Rule<V>>)

  /** Tables whose observers and dispatch entries agree, as `watch` keeps them. */
  type Registry<!V> = t: Tables<V> | Indexed(t.watchers, t.dispatchers) witness Tables(map[], map[], [])

  /** The argument of `commit`: falsy, an object, or a function of the store
      whose result is the data (`None` for a falsy result). */
  datatype Input<!V> = NoData | Given(data: Data<V>) | Producer(produce: Snapshot<V> -> Option<Data<V>>)

  /** What a commit does that can be observed outside the store: a callback
      invocation, or the run of a trailing function. */
  datatype Event<V> = Notified(note: Notification<V>) | Ran(id: nat)

  /** One pass: the diff loop's state, the invocations, the trailing calls queued and the trailing commit gathered. */
  datatype Round<V> = Round(pending: Pending<V>, notes: seq<Notification<V>>, calls: seq<Call>, commits: Data<V>)

  /** `if (typeof data === 'function') data = data(this.values)`. */
  function Resolve<V>(input: Input<V>, store: Snapshot<V>): (r: Option<Data<V>>)
    ensures input.NoData? ==> r.None?
    ensures input.Given? ==> r == Some(input.data)
    ensures input.Producer? ==> r == input.produce(store)
  {
    match input
    case NoData => None
    case Given(data) => Some(data)
    case Producer(produce) => produce(store)
  }

  /** `Object.assign({}, data, this._compute(data))`: the merged data keeps the
      committed keys first, in their order; a derived entry wins over a committed one. */
  function Merge<V(==)>(rules: seq<Rule<V>>, store: Snapshot<V>, data: Data<V>): (r: Data<V>)
    ensures r.vals == data.vals + ComputedEntries(rules, store, data).vals
    ensures data.keys <= r.keys
  {
    AssignToEmpty(data);
    Assign(Assign(Empty(), data), ComputedEntries(rules, store, data))
  }

  /** The derived keys appended after the committed ones are the derived
      entries' keys outside the data, in the order `_compute` produced them. */
  lemma MergeOrder<V>(rules: seq<Rule<V>>, store: Snapshot<V>, data: Data<V>) returns (idx: seq<nat>)
    ensures var derived := ComputedEntries(rules, store, data).keys;
      && Subsequence(Merge(rules, store, data).keys[|data.keys|..], derived, idx)
      && forall i :: i in idx <==> 0 <= i < |derived| && derived[i] !in data.vals
  {
    AssignToEmpty(data);
    idx := AssignOrder(data, ComputedEntries(rules, store, data));
  }

  /** Every observer with a change object is registered. */
  lemma DispatchedRegistered<V>(watchers: map<nat, Observer<V>>, dispatchers: map<string, seq<nat>>,
                                store: Snapshot<V>, merged: Data<V>)
    requires Indexed(watchers, dispatchers)
    ensures var ds := DiffAll(dispatchers, store, merged).dispatches;
      forall id :: id in ds.keys ==> id in ds.vals && id in watchers
  {
    var ds := DiffAll(dispatchers, store, merged).dispatches;
    assert ds.Valid();
    forall id | id in ds.keys ensures id in ds.vals && id in watchers {
      var k := GroupedSome(dispatchers, store, merged, id);
      GroupedEntry(dispatchers, store, merged, id, k);
    }
  }

  /** One pass of `commit` over the merged data: the diff loop, then the dispatch loop. */
  function Pass<V(==)>(watchers: map<nat, Observer<V>>, dispatchers: map<string, seq<nat>>,
                       store: Snapshot<V>, merged: Data<V>): Round<V>
    requires Indexed(watchers, dispatchers)
  {
    var p := DiffAll(dispatchers, store, merged);
    DispatchedRegistered(watchers, dispatchers, store, merged);
    var notes := Notes(watchers, p.dispatches, p.oldValues, p.values, p.dispatches.keys);
    NotesInvoked(watchers, p.dispatches, p.oldValues, p.values, p.dispatches.keys);
    Round(p, notes, Emitted(watchers, p.values, notes), Gathered(watchers, p.values, Empty(), notes))
  }

  /** The invocations as events. */
  function Log<V>(notes: seq<Notification<V>>): seq<Event<V>> {
    if notes == [] then [] else Log(notes[..|notes| - 1]) + [Notified(notes[|notes| - 1])]
  }

  /** One more observer through the dispatch loop: a falsy callback adds
      nothing; a truthy one adds its invocation, appends what it queues to the
      trailing calls and merges what it commits over the trailing data. */
  lemma {:induction false} NotesStep<V>(watchers: map<nat, Observer<V>>, ds: Dispatches<V>, oldValues: Snapshot<V>,
                                        values: Snapshot<V>, ids: seq<nat>, i: nat)
    requires i < |ids| && forall id :: id in ids ==> id in ds.vals && id in watchers
    ensures var notes := Notes(watchers, ds, oldValues, values, ids[..i]);
      var next := Notes(watchers, ds, oldValues, values, ids[..i + 1]);
      var id := ids[i];
      && Invoked(watchers, notes) && Invoked(watchers, next)
      && (watchers[id].callback.Absent? ==> next == notes)
      && (watchers[id].callback.Present? ==>
            var n := Note(watchers, ds, oldValues, values, id);
            var r := Reacted(watchers, values, n);
            && next == notes + [n]
            && Emitted(watchers, values, next) == Emitted(watchers, values, notes) + r.calls + Queued(r.returned)
            && Gathered(watchers, values, Empty(), next) == Assign(Gathered(watchers, values, Empty(), notes), r.commits)
            && Log(next) == Log(notes) + [Notified(n)])
  {
    assert ids[..i + 1][..i] == ids[..i];
    NotesInvoked(watchers, ds, oldValues, values, ids[..i]);
    NotesInvoked(watchers, ds, oldValues, values, ids[..i + 1]);
    var notes := Notes(watchers, ds, oldValues, values, ids[..i]);
    if watchers[ids[i]].callback.Absent? {
      assert notes + [] == notes;
    } else {
      var n := Note(watchers, ds, oldValues, values, ids[i]);
      assert (notes + [n])[..|notes|] == notes;
    }
  }

  /** The trailing functions run, as events. */
  function Runs<V>(ids: seq<nat>): seq<Event<V>> {
    if ids == [] then [] else Runs(ids[..|ids| - 1]) + [Ran(ids[|ids| - 1])]
  }

  /** One pass over the committed data, then the trailing calls; the trailing
      data is what is committed next. */
  function Stepped<V(==)>(reg: Registry<V>, store: Snapshot<V>, data: Data<V>): Stage<Snapshot<V>, Data<V>, Event<V>> {
    var r := Pass(reg.watchers, reg.dispatchers, store, Merge(reg.rules, store, data));
    Stage(r.pending.values, Log(r.notes) + Runs(Executed(r.calls)), r.commits)
  }

  function Step<V(==)>(reg: Registry<V>): (Snapshot<V>, Data<V>) -> Stage<Snapshot<V>, Data<V>, Event<V>> {
    (store: Snapshot<V>, data: Data<V>) => Stepped(reg, store, data)
  }

  /** `if (!data || !Object.keys(data).length) return`. */
  predicate Blank<V>(data: Data<V>) {
    data.keys == []
  }

  /** `commit`, with `fuel` bounding the nested trailing commits. A falsy
      argument, a falsy result of the function, or an object without keys
      leaves the store as it was and notifies no one. */
  function Run<V(==)>(reg: Registry<V>, store: Snapshot<V>, input: Input<V>, fuel: nat): (r: Outcome<Snapshot<V>, Event<V>>)
    ensures Resolve(input, store).None? || Resolve(input, store).value.keys == [] ==> r == Outcome(store, [], true)
  {
    match Resolve(input, store)
    case None => Outcome(store, [], true)
    case Some(data) => Chain(Step(reg), Blank, store, data, fuel)
  }

  /** After a pass every key of the merged data holds its merged value and every
      other key keeps its value; `oldValues` holds the value before the pass of
      exactly the keys whose value changed. */
  lemma PassStore<V>(reg: Registry<V>, store: Snapshot<V>, data: Data<V>)
    ensures var merged := Merge(reg.rules, store, data);
      var p := Pass(reg.watchers, reg.dispatchers, store, merged).pending;
      && merged.vals == data.vals + ComputedEntries(reg.rules, store, data).vals
      && (forall k :: Read(p.values, k) == if k in merged.vals then merged.vals[k] else Read(store, k))
      && (forall k :: k in p.oldValues <==> Read(p.values, k) != Read(store, k))
      && (forall k :: k in p.oldValues ==> p.oldValues[k] == Read(store, k))
  {
    DiffAllStore(reg.dispatchers, store, Merge(reg.rules, store, data));
  }

  /** The observers invoked are those with a truthy callback that declare a
      property whose value the pass changed: each exactly once, in the order in
      which they first appear in `dispatches`. */
  lemma PassNotifies<V>(watchers: map<nat, Observer<V>>, dispatchers: map<string, seq<nat>>,
                        store: Snapshot<V>, merged: Data<V>)
    requires Indexed(watchers, dispatchers)
    ensures var r := Pass(watchers, dispatchers, store, merged);
      forall id :: id in r.pending.dispatches.keys ==> id in watchers
    ensures var r := Pass(watchers, dispatchers, store, merged);
      && Ids(r.notes) == Listening(watchers, r.pending.dispatches.keys)
      && Distinct(Ids(r.notes))
      && forall id :: id in Ids(r.notes) <==>
           && id in watchers && watchers[id].callback.Present?
           && exists k :: k in watchers[id].props && Read(r.pending.values, k) != Read(store, k)
  {
    var p := DiffAll(dispatchers, store, merged);
    var ds := p.dispatches;
    DispatchedRegistered(watchers, dispatchers, store, merged);
    NotesEffect(watchers, ds, p.oldValues, p.values, ds.keys);
    assert ds.Valid();
    forall id ensures id in ds.keys <==>
      id in watchers && exists k :: k in watchers[id].props && Read(p.values, k) != Read(store, k)
    {
      if id in ds.keys {
        var k := GroupedSome(dispatchers, store, merged, id);
        GroupedEntry(dispatchers, store, merged, id, k);
        assert k in watchers[id].props && Read(p.values, k) != Read(store, k);
      }
      if id in watchers && exists k :: k in watchers[id].props && Read(p.values, k) != Read(store, k) {
        var k :| k in watchers[id].props && Read(p.values, k) != Read(store, k);
        GroupedChange(dispatchers, store, merged, id, k);
        ElemsContains(ds.keys, id);
      }
    }
  }

  /** Each invocation receives, for every property its observer declares and no
      other, the value after the pass in `newVal` and the value before the
      commit in `oldVal`; an unchanged property has the same value in both. */
  lemma PassProjections<V>(watchers: map<nat, Observer<V>>, dispatchers: map<string, seq<nat>>,
                           store: Snapshot<V>, merged: Data<V>)
    requires Indexed(watchers, dispatchers)
    ensures var r := Pass(watchers, dispatchers, store, merged);
      forall i :: 0 <= i < |r.notes| ==>
        var n := r.notes[i];
        && n.id in watchers
        && (forall prop :: prop in n.newVal <==> prop in watchers[n.id].props)
        && (forall prop :: prop in n.oldVal <==> prop in watchers[n.id].props)
        && (forall prop :: prop in watchers[n.id].props ==>
              n.newVal[prop] == Read(r.pending.values, prop) && n.oldVal[prop] == Read(store, prop))
  {
    var p := DiffAll(dispatchers, store, merged);
    var ds := p.dispatches;
    var notes := Pass(watchers, dispatchers, store, merged).notes;
    DispatchedRegistered(watchers, dispatchers, store, merged);
    NotesEffect(watchers, ds, p.oldValues, p.values, ds.keys);
    forall i | 0 <= i < |notes|
      ensures NoteProjects(watchers, dispatchers, store, merged, notes[i])
    {
      ProjectionOf(watchers, dispatchers, store, merged, notes[i].id);
    }
  }

  ghost predicate NoteProjects<V>(watchers: map<nat, Observer<V>>, dispatchers: map<string, seq<nat>>,
                                      store: Snapshot<V>, merged: Data<V>, n: Notification<V>)
  {
    var values := DiffAll(dispatchers, store, merged).values;
    && n.id in watchers
    && (forall prop :: prop in n.newVal <==> prop in watchers[n.id].props)
    && (forall prop :: prop in n.oldVal <==> prop in watchers[n.id].props)
    && (forall prop :: prop in watchers[n.id].props ==>
          n.newVal[prop] == Read(values, prop) && n.oldVal[prop] == Read(store, prop))
  }

  lemma ProjectionOf<V>(watchers: map<nat, Observer<V>>, dispatchers: map<string, seq<nat>>,
                        store: Snapshot<V>, merged: Data<V>, id: nat)
    requires Indexed(watchers, dispatchers)
    requires id in DiffAll(dispatchers, store, merged).dispatches.vals && id in watchers
    ensures var p := DiffAll(dispatchers, store, merged);
      NoteProjects(watchers, dispatchers, store, merged, Note(watchers, p.dispatches, p.oldValues, p.values, id))
  {
    var p := DiffAll(dispatchers, store, merged);
    var props := watchers[id].props;
    var change := p.dispatches.vals[id];
    ProjectEffect(props, change, p.oldValues, p.values, map[], map[]);
    forall prop | prop in props
      ensures prop in change ==> change[prop] == Read(p.values, prop) && Read(p.oldValues, prop) == Read(store, prop)
      ensures prop !in change ==> Read(p.values, prop) == Read(store, prop)
    {
      ChangeAgrees(watchers, dispatchers, store, merged, id, prop);
    }
  }

  /** A declared property in an observer's change object holds the value the
      pass stored and was recorded with its value before the pass; a declared
      property outside it did not change. */
  lemma ChangeAgrees<V>(watchers: map<nat, Observer<V>>, dispatchers: map<string, seq<nat>>,
                        store: Snapshot<V>, merged: Data<V>, id: nat, prop: string)
    requires Indexed(watchers, dispatchers)
    requires id in DiffAll(dispatchers, store, merged).dispatches.vals && id in watchers
    requires prop in watchers[id].props
    ensures var p := DiffAll(dispatchers, store, merged);
      var change := p.dispatches.vals[id];
      && (prop in change ==> change[prop] == Read(p.values, prop) && Read(p.oldValues, prop) == Read(store, prop))
      && (prop !in change ==> Read(p.values, prop) == Read(store, prop))
  {
    var p := DiffAll(dispatchers, store, merged);
    DiffAllStore(dispatchers, store, merged);
    if prop in p.dispatches.vals[id] {
      GroupedEntry(dispatchers, store, merged, id, prop);
    } else if Read(p.values, prop) != Read(store, prop) {
      GroupedChange(dispatchers, store, merged, id, prop);
    }
  }

  /** A pass in which no merged value differs from the store's changes no
      value, invokes no callback and leaves no trailing work. */
  lemma QuietPass<V>(watchers: map<nat, Observer<V>>, dispatchers: map<string, seq<nat>>,
                     store: Snapshot<V>, merged: Data<V>)
    requires Indexed(watchers, dispatchers)
    requires forall k :: k in merged.vals ==> merged.vals[k] == Read(store, k)
    ensures var r := Pass(watchers, dispatchers, store, merged);
      && (forall k :: Read(r.pending.values, k) == Read(store, k))
      && r.notes == [] && r.calls == [] && r.commits == Empty()
  {
    var p := DiffAll(dispatchers, store, merged);
    DiffAllStore(dispatchers, store, merged);
    assert p.dispatches.Valid();
    forall id ensures id !in p.dispatches.vals {
      if id in p.dispatches.vals {
        var k := GroupedSome(dispatchers, store, merged, id);
        GroupedEntry(dispatchers, store, merged, id, k);
        assert false;
      }
    }
    NoEntries(p.dispatches);
  }

  /** One pass and its trailing calls, piece by piece. */
  lemma SteppedPieces<V>(reg: Registry<V>, store: Snapshot<V>, data: Data<V>)
    ensures var merged := Merge(reg.rules, store, data);
      var p := DiffAll(reg.dispatchers, store, merged);
      && (forall id :: id in p.dispatches.keys ==> id in p.dispatches.vals && id in reg.watchers)
      && var notes := Notes(reg.watchers, p.dispatches, p.oldValues, p.values, p.dispatches.keys);
      && Invoked(reg.watchers, notes)
      && Stepped(reg, store, data)
         == Stage(p.values, Log(notes) + Runs(Executed(Emitted(reg.watchers, p.values, notes))),
                  Gathered(reg.watchers, p.values, Empty(), notes))
  {
    var merged := Merge(reg.rules, store, data);
    var p := DiffAll(reg.dispatchers, store, merged);
    DispatchedRegistered(reg.watchers, reg.dispatchers, store, merged);
    NotesInvoked(reg.watchers, p.dispatches, p.oldValues, p.values, p.dispatches.keys);
  }

  /** A commit of data with keys runs one pass and its trailing calls, then,
      while fuel remains, commits the trailing data on the resulting store. */
  lemma RunResolved<V>(reg: Registry<V>, store: Snapshot<V>, input: Input<V>, data: Data<V>, fuel: nat)
    requires Resolve(input, store) == Some(data) && data.keys != []
    ensures var st := Stepped(reg, store, data);
      Run(reg, store, input, fuel) ==
        if fuel == 0 then Outcome(st.store, st.events, st.next.keys == [])
        else After(st.events, Run(reg, st.store, Given(st.next), fuel - 1))
  {
    var st := Step(reg)(store, data);
    assert st == Stepped(reg, store, data);
  }

  /** A chain of trailing commits that ended within the fuel ends the same way
      with more fuel. */
  lemma RunMoreFuel<V>(reg: Registry<V>, store: Snapshot<V>, input: Input<V>, fuel: nat)
    requires Run(reg, store, input, fuel).settled
    ensures Run(reg, store, input, fuel + 1) == Run(reg, store, input, fuel)
  {
    if Resolve(input, store).Some? {
      MoreFuel(Step(reg), Blank, store, Resolve(input, store).value, fuel);
    }
  }
}
