/** The `Watcher` object: a store of property values, the computation rules,
    and the observers with their dispatch entries; `commit` updates the store
    and notifies the observers in place. What a commit does outside the store
    (callback invocations, trailing calls) is appended to `events`. */
module Store {
  import opened Objects
  import opened Values
  import opened Rules
  import opened Observers
  import opened Diffs
  import opened Notifications
  import opened TrailingCalls
  import opened Registration
  import opened Chains
  import opened Commits

  class Watcher<V(==,!new)> {
    /** `_id`: the last id handed to an observer. */
    var id: nat
    /** `watchers`: observer id to its callback and declared properties. */
    var watchers: map<nat, Observer<V>>
    /** `dispatchers`: property name to the ids of the observers that declare it. */
    var dispatchers: map<string, seq<nat>>
    /** `values`: the store. */
    var values: Snapshot<V>
    /** `computations`: the rules, in insertion order. */
    var computations: seq<Rule<V>>
    /** Everything the commits so far did besides updating the store, in order. */
    var events: seq<Event<V>>

    /** The observers and dispatch entries agree, every observer id was handed
        out by `watch`, and each rule slot holds at most one rule. */
    ghost predicate Valid()
      reads this`id, this`watchers, this`dispatchers, this`computations
    {
      && Indexed(watchers, dispatchers)
      && (forall i :: i in watchers ==> 0 < i <= id)
      && Unique(computations)
    }

    /** What a commit reads besides the store. */
    function Registered(): (reg: Registry<V>)
      reads this`watchers, this`dispatchers, this`computations
      requires Indexed(watchers, dispatchers)
      ensures reg.watchers == watchers && reg.dispatchers == dispatchers && reg.rules == computations
    {
      Tables(watchers, dispatchers, computations)
    }

    constructor()
      ensures Valid()
      ensures id == 0 && watchers == map[] && dispatchers == map[] && computations == []
      ensures values == map[] && events == []
    {
      id := 0;
      watchers := map[];
      dispatchers := map[];
      values := map[];
      computations := [];
      events := [];
    }

    /** `get(key)`: the stored value, `Undefined` for a key never committed. */
    function Get(key: string): (v: Val<V>)
      reads this`values
      ensures key in values ==> v == values[key]
      ensures key !in values ==> v == Undefined
    {
      Read(values, key)
    }

    /** `_map2obj(this.values)`: a copy of the store, entry by entry. */
    method ToObject() returns (obj: Snapshot<V>)
      ensures obj == values
    {
      obj := map[];
      var rest := values.Keys;
      while rest != {}
        invariant rest <= values.Keys
        invariant obj.Keys == values.Keys - rest
        invariant forall k :: k in obj ==> obj[k] == values[k]
        decreases rest
      {
        var key :| key in rest;
        obj := obj[key := values[key]];
        rest := rest - {key};
      }
    }

    /** `_compute(data)`: run the rules in insertion order over a copy of the
        data and the store overlaid with it, and return the derived entries. */
    method Compute(data: Data<V>) returns (computed: Data<V>)
      ensures computed == ComputedEntries(computations, values, data)
    {
      var d := Assign(Empty(), data);
      var vs := ToObject();
      vs := vs + d.vals;
      computed := Empty();
      var i := 0;
      while i < |computations|
        invariant i <= |computations|
        invariant Derive(computations[i..], values, Work(d, vs, computed))
               == Derive(computations, values, Start(values, data))
      {
        assert computations[i..][1..] == computations[i + 1..];
        d, vs, computed := RunRule(computations[i], d, vs, computed);
        i := i + 1;
      }
    }

    /** One iteration of the loop of `_compute`: the rule updates the data, the
        snapshot the rules read and the derived entries. */
    method RunRule(rule: Rule<V>, d0: Data<V>, vs0: Snapshot<V>, computed0: Data<V>)
      returns (d: Data<V>, vs: Snapshot<V>, computed: Data<V>)
      ensures Work(d, vs, computed) == Apply(rule, values, Work(d0, vs0, computed0))
    {
      d, vs, computed := d0, vs0, computed0;
      match rule {
        case From(cp, props, f) =>
          if cp !in d.vals {
            var j := 0;
            while j < |props|
              invariant j <= |props|
              invariant FromProps(cp, props[j..], f, values, Work(d, vs, computed))
                     == FromProps(cp, props, f, values, Work(d0, vs0, computed0))
            {
              var prop := props[j];
              if prop in d.vals && Read(values, prop) != d.vals[prop] {
                computed := Put(computed, cp, f(vs));
                d := Assign(d, computed);
                vs := vs + d.vals;
              }
              j := j + 1;
            }
          }
        case To(t, g) =>
          if t in d.vals && d.vals[t] != Read(values, t) {
            var r := g(vs);
            if r.Some? {
              computed := Assign(computed, r.value);
              d := Assign(d, computed);
              vs := vs + d.vals;
            }
          }
      }
    }

    /** The common loop of `computed` and `computing`: delete the rules in the
        new rule's slot, then add the new rule last. */
    method Install(rule: Rule<V>)
      requires Valid()
      modifies this`computations
      ensures Valid()
      ensures computations == Register(old(computations), rule)
    {
      var kept := Unslotted(computations, rule);
      ghost var positions := RegisterReplaces(computations, rule);
      computations := kept + [rule];
    }

    /** The rules of `rules` outside `rule`'s slot, kept in order by one pass. */
    static method Unslotted(rules: seq<Rule<V>>, rule: Rule<V>) returns (kept: seq<Rule<V>>)
      ensures kept == Others(rules, rule)
    {
      kept := [];
      var i := 0;
      while i < |rules|
        invariant i <= |rules|
        invariant kept + Others(rules[i..], rule) == Others(rules, rule)
      {
        assert rules[i..][1..] == rules[i + 1..];
        if !SameSlot(rule, rules[i]) {
          assert Others(rules[i..], rule) == [rules[i]] + Others(rules[i + 1..], rule);
          AppendAssoc(kept, [rules[i]], Others(rules[i + 1..], rule));
          kept := kept + [rules[i]];
        } else {
          assert Others(rules[i..], rule) == [] + Others(rules[i + 1..], rule);
        }
        i := i + 1;
      }
      assert rules[i..] == [];
    }

    /** `computed(computedProp, props, compute)`: a "from" rule replaces the
        "from" rule of the same computed property. */
    method Computed(computedProp: string, props: seq<string>, compute: Snapshot<V> -> Val<V>)
      requires Valid()
      modifies this`computations
      ensures Valid()
      ensures computations == Register(old(computations), From(computedProp, props, compute))
    {
      Install(From(computedProp, props, compute));
    }

    /** `computing(triggeringProp, compute)`: a "to" rule replaces the "to" rule
        of the same trigger property. */
    method Computing(triggeringProp: string, compute: Snapshot<V> -> Option<Data<V>>)
      requires Valid()
      modifies this`computations
      ensures Valid()
      ensures computations == Register(old(computations), To(triggeringProp, compute))
    {
      Install(To(triggeringProp, compute));
    }

    /** `watch(props, dispatch)`: register the observer under the next id and
        push that id on the dispatch entry of each declared property. */
    method Watch(props: Props, dispatch: Callback<V>)
      requires Valid()
      modifies this`id, this`watchers, this`dispatchers
      ensures Valid()
      ensures id == old(id) + 1
      ensures watchers == old(watchers)[id := Observer(dispatch, Names(props))]
      ensures dispatchers == Subscribe(old(dispatchers), Names(props), id)
    {
      var names := Names(props);
      id := id + 1;
      watchers := watchers[id := Observer(dispatch, names)];
      var j := 0;
      while j < |names|
        invariant j <= |names|
        invariant id == old(id) + 1 && watchers == old(watchers)[id := Observer(dispatch, names)]
        invariant Subscribe(dispatchers, names[j..], id) == Subscribe(old(dispatchers), names, id)
      {
        assert names[j..][1..] == names[j + 1..];
        var prop := names[j];
        var dispatcher := if prop in dispatchers then dispatchers[prop] else [];
        dispatchers := dispatchers[prop := dispatcher + [id]];
        j := j + 1;
      }
      assert names[j..] == [];
      SubscribeIndexed(old(watchers), old(dispatchers), id, Observer(dispatch, names));
    }

    /** `commit(data)`: resolve a function argument against the store, then
        commit the result, following at most `fuel` nested trailing commits. */
    method Commit(input: Input<V>, fuel: nat) returns (settled: bool)
      requires Valid()
      modifies this`values, this`events
      ensures var o := Run(old(Registered()), old(values), input, fuel);
        values == o.store && events == old(events) + o.events && settled == o.settled
    {
      var data: Option<Data<V>>;
      match input {
        case NoData => data := None;
        case Given(d) => data := Some(d);
        case Producer(produce) => data := produce(values);
      }
      if data.None? {
        return true;
      }
      settled := CommitData(Registered(), Step(Registered()), data.value, fuel);
    }

    /** The rest of `commit` once the argument is an object: nothing happens
        when it has no keys; otherwise one pass and its trailing calls run,
        and the trailing data is committed in turn, following at most `fuel`
        nested trailing commits. `step` stands for the pass of the current
        registry. */
    method CommitData(ghost reg: Registry<V>, ghost step: (Snapshot<V>, Data<V>) -> Stage<Snapshot<V>, Data<V>, Event<V>>, data: Data<V>, fuel: nat)
      returns (settled: bool)
      requires Valid() && Registered() == reg
      requires forall store, data {:trigger Stepped(reg, store, data)} :: step(store, data) == Stepped(reg, store, data)
      modifies this`values, this`events
      ensures var o := Chain(step, Blank, old(values), data, fuel);
        values == o.store && events == old(events) + o.events && settled == o.settled
      decreases fuel
    {
      if data.keys == [] {
        return true;
      }
      ghost var store := values;
      ghost var before := events;
      var commits := Pass(reg, step, data);
      assert watchers == reg.watchers && dispatchers == reg.dispatchers && computations == reg.rules;
      assert Registered() == reg;
      ghost var st := step(store, data);
      assert values == st.store && commits == st.next && events == before + st.events;
      if fuel == 0 {
        settled := commits.keys == [];
      } else {
        settled := CommitData(reg, step, commits, fuel - 1);
        assert watchers == reg.watchers && dispatchers == reg.dispatchers && computations == reg.rules;
        AppendAssoc(before, st.events, Chain(step, Blank, st.store, st.next, fuel - 1).events);
      }
    }

    /** One pass of `commit` over data with keys: merge the derived entries,
        diff against the store, notify the observers, run the trailing calls;
        the result is the trailing data. */
    method Pass(ghost reg: Registry<V>, ghost step: (Snapshot<V>, Data<V>) -> Stage<Snapshot<V>, Data<V>, Event<V>>, data: Data<V>)
      returns (commits: Data<V>)
      requires Valid() && Registered() == reg
      requires forall store, data {:trigger Stepped(reg, store, data)} :: step(store, data) == Stepped(reg, store, data)
      modifies this`values, this`events
      ensures var st := step(old(values), data);
        values == st.store && events == old(events) + st.events && commits == st.next
    {
      ghost var store := values;
      ghost var before := events;
      var computed := Compute(data);
      assert watchers == reg.watchers && dispatchers == reg.dispatchers && computations == reg.rules;
      assert computed == ComputedEntries(reg.rules, store, data);
      var merged := Assign(Assign(Empty(), data), computed);
      var oldValues, dispatches := Record(merged);
      assert watchers == reg.watchers && dispatchers == reg.dispatchers && computations == reg.rules;
      ghost var p := DiffAll(reg.dispatchers, store, merged);
      assert values == p.values && oldValues == p.oldValues && dispatches == p.dispatches;
      SteppedPieces(reg, store, data);
      ghost var notes := Notes(reg.watchers, p.dispatches, p.oldValues, p.values, p.dispatches.keys);
      var calls;
      calls, commits := Dispatch(dispatches, oldValues);
      assert watchers == reg.watchers && dispatchers == reg.dispatchers && computations == reg.rules;
      assert values == p.values;
      assert calls == Emitted(reg.watchers, p.values, notes);
      assert commits == Gathered(reg.watchers, p.values, Empty(), notes);
      assert events == before + Log(notes);
      RunTrailingCalls(calls);
      assert watchers == reg.watchers && dispatchers == reg.dispatchers && computations == reg.rules;
      AppendAssoc(before, Log(notes), Runs(Executed(calls)));
      assert Registered() == reg;
      ghost var st := Stepped(reg, store, data);
      assert step(store, data) == st;
      assert values == st.store;
      assert commits == st.next;
      assert events == before + st.events;
    }

    /** The diff loop of `commit`: every key of the merged data whose value
        differs (`!==`) from the store's is stored, its old value remembered,
        and the change grouped per observer listed in its dispatch entry. */
    method Record(merged: Data<V>) returns (oldValues: Snapshot<V>, dispatches: Dispatches<V>)
      modifies this`values
      ensures var p := DiffAll(dispatchers, old(values), merged);
        values == p.values && oldValues == p.oldValues && dispatches == p.dispatches
    {
      oldValues := map[];
      dispatches := Empty();
      assert merged.Valid();
      var i := 0;
      while i < |merged.keys|
        invariant i <= |merged.keys|
        invariant Diff(dispatchers, merged, merged.keys[i..], Pending(values, oldValues, dispatches))
               == DiffAll(dispatchers, old(values), merged)
      {
        assert merged.keys[i..][1..] == merged.keys[i + 1..];
        oldValues, dispatches := RecordKey(merged, merged.keys[i], oldValues, dispatches);
        i := i + 1;
      }
    }

    /** One turn of the diff loop, for `key`: when the merged value differs
        from the stored one, remember the old value, store the new one and
        group the change per observer. */
    method RecordKey(merged: Data<V>, key: string, oldValues0: Snapshot<V>, dispatches0: Dispatches<V>)
      returns (oldValues: Snapshot<V>, dispatches: Dispatches<V>)
      requires key in merged.vals
      modifies this`values
      ensures Pending(values, oldValues, dispatches)
           == DiffKey(dispatchers, merged, key, Pending(old(values), oldValues0, dispatches0))
    {
      oldValues, dispatches := oldValues0, dispatches0;
      var oldVal := Read(values, key);
      var newVal := merged.vals[key];
      if oldVal != newVal {
        oldValues := oldValues[key := oldVal];
        values := values[key := newVal];
        if key in dispatchers {
          dispatches := GroupChange(dispatchers[key], key, newVal, dispatches);
        }
      }
    }

    /** The loop over a changed key's dispatch entry: add the key to each
        listed observer's change object, creating the object when missing. */
    method GroupChange(ids: seq<nat>, key: string, newVal: Val<V>, ds: Dispatches<V>) returns (dispatches: Dispatches<V>)
      ensures dispatches.vals == Grouped(ids, key, newVal, ds.vals)
      ensures dispatches == Group(ids, key, newVal, ds)
    {
      dispatches := ds;
      var j := 0;
      while j < |ids|
        invariant j <= |ids|
        invariant Group(ids[j..], key, newVal, dispatches) == Group(ids, key, newVal, ds)
      {
        assert ids[j..][1..] == ids[j + 1..];
        var dispatcher := ids[j];
        if dispatcher in dispatches.vals {
          var e := dispatches.vals[dispatcher];
          dispatches := Put(dispatches, dispatcher, e[key := newVal]);
        } else {
          dispatches := Put(dispatches, dispatcher, map[key := newVal]);
        }
        j := j + 1;
      }
      GroupEffect(ids, key, newVal, ds);
    }

    /** The `newVal`/`oldVal` objects handed to an observer declaring `props`,
        given its change object. */
    method Views(props: seq<string>, change: Snapshot<V>, oldValues: Snapshot<V>)
      returns (newVal: Snapshot<V>, oldVal: Snapshot<V>)
      ensures (newVal, oldVal) == Project(props, change, oldValues, values, map[], map[])
      ensures forall p :: p in newVal <==> p in props
      ensures forall p :: p in props ==> newVal[p] == (if p in change then change[p] else Read(values, p))
      ensures forall p :: p in oldVal <==> p in props
      ensures forall p :: p in props ==> oldVal[p] == (if p in change then Read(oldValues, p) else Read(values, p))
    {
      newVal, oldVal := map[], map[];
      var j := 0;
      while j < |props|
        invariant j <= |props|
        invariant Project(props[j..], change, oldValues, values, newVal, oldVal)
               == Project(props, change, oldValues, values, map[], map[])
      {
        assert props[j..][1..] == props[j + 1..];
        var prop := props[j];
        if prop in change {
          newVal := newVal[prop := change[prop]];
          oldVal := oldVal[prop := Read(oldValues, prop)];
        } else {
          var v := Read(values, prop);
          newVal := newVal[prop := v];
          oldVal := oldVal[prop := v];
        }
        j := j + 1;
      }
      ProjectEffect(props, change, oldValues, values, map[], map[]);
    }

    /** The dispatch loop of `commit`: each observer with a change object, in
        `dispatches` order, is invoked when its callback is truthy; what it
        queues goes on the trailing calls and what it commits is merged into
        the trailing data. */
    method Dispatch(ds: Dispatches<V>, oldValues: Snapshot<V>) returns (calls: seq<Call>, commits: Data<V>)
      requires forall id :: id in ds.keys ==> id in ds.vals && id in watchers
      modifies this`events
      ensures Invoked(watchers, Notes(watchers, ds, oldValues, values, ds.keys))
      ensures var notes := Notes(watchers, ds, oldValues, values, ds.keys);
        && calls == Emitted(watchers, values, notes)
        && commits == Gathered(watchers, values, Empty(), notes)
        && events == old(events) + Log(notes)
    {
      ghost var (table, store) := (watchers, values);
      NotesInvoked(table, ds, oldValues, store, ds.keys);
      calls, commits := [], Empty();
      var i := 0;
      while i < |ds.keys|
        invariant i <= |ds.keys| && watchers == table && values == store
        invariant Invoked(table, Notes(table, ds, oldValues, store, ds.keys[..i]))
        invariant var notes := Notes(table, ds, oldValues, store, ds.keys[..i]);
          && calls == Emitted(table, store, notes)
          && commits == Gathered(table, store, Empty(), notes)
          && events == old(events) + Log(notes)
      {
        NotesStep(table, ds, oldValues, store, ds.keys, i);
        ghost var notes := Notes(table, ds, oldValues, store, ds.keys[..i]);
        calls, commits := Invoke(ds, oldValues, ds.keys[i], calls, commits);
        if table[ds.keys[i]].callback.Present? {
          AppendAssoc(old(events), Log(notes), [Notified(Note(table, ds, oldValues, store, ds.keys[i]))]);
        }
        i := i + 1;
      }
      assert ds.keys[..i] == ds.keys;
    }

    /** One turn of the dispatch loop, for observer `id`: a falsy callback is
        skipped; a truthy one is invoked with the projections of its change
        object, what it queues is appended to `calls` and what it commits is
        merged over `commits`. */
    method Invoke(ds: Dispatches<V>, oldValues: Snapshot<V>, id: nat, calls0: seq<Call>, commits0: Data<V>)
      returns (calls: seq<Call>, commits: Data<V>)
      requires id in ds.vals && id in watchers
      modifies this`events
      ensures watchers[id].callback.Absent? ==> calls == calls0 && commits == commits0 && events == old(events)
      ensures watchers[id].callback.Present? ==>
        var n := Note(watchers, ds, oldValues, values, id);
        var r := Reacted(watchers, values, n);
        && calls == calls0 + r.calls + Queued(r.returned)
        && commits == Assign(commits0, r.commits)
        && events == old(events) + [Notified(n)]
    {
      calls, commits := calls0, commits0;
      var observer := watchers[id];
      match observer.callback {
        case Absent =>
        case Present(dispatch) =>
          var newVal, oldVal := Views(observer.props, ds.vals[id], oldValues);
          var n := Notification(id, newVal, oldVal);
          var reaction := dispatch(newVal, oldVal, values);
          events := events + [Notified(n)];
          commits := Assign(commits, reaction.commits);
          calls := calls + reaction.calls;
          match reaction.returned {
            case Nothing =>
            case One(f) => calls := calls + [Fn(f)];
            case Many(entries) => calls := calls + entries;
          }
      }
    }

    /** The `forEach` over the trailing calls: a truthy entry runs when its
        index is the last one holding the same function. */
    method RunTrailingCalls(calls: seq<Call>)
      modifies this`events
      ensures events == old(events) + Runs(Executed(calls))
    {
      var i := 0;
      while i < |calls|
        invariant i <= |calls|
        invariant events == old(events) + Runs(ExecutedUpTo(calls, i))
      {
        var call := calls[i];
        ghost var ran := ExecutedUpTo(calls, i);
        if call.Fn? && LastIndexOf(calls, call) == i {
          events := events + [Ran(call.id)];
          assert (ran + [call.id])[..|ran|] == ran;
        } else {
          assert ran + [] == ran;
        }
        i := i + 1;
      }
    }
  }
}