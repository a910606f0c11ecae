/** The diff loop of a commit pass: compare each key of the merged data with
    the store, update the store, remember the old value and group the change
    per observer. */
module Diffs {
  import opened Objects
  import opened Values
  import opened Observers

  /** The state the diff loop updates: the store, `oldValues` and `dispatches`. */
  datatype Pending<V> = Pending(values: Snapshot<V>, oldValues: Snapshot<V>, dispatches: Dispatches<V>)

  /** Record `k := v` in the change object of every id in `ids`, creating it at
      the end of `dispatches` the first time an observer is met. */
  function Group<V>(ids: seq<nat>, k: string, v: Val<V>, ds: Dispatches<V>): Dispatches<V> {
    if ids == [] then ds
    else
      var id := ids[0];
      var next := if id in ds.vals then Put(ds, id, ds.vals[id][k := v]) else Put(ds, id, map[k := v]);
      Group(ids[1..], k, v, next)
  }

  /** One key of the merged data: compare with `!==`, and on a change record the
      old value, update the store and group the change per observer. */
  function DiffKey<V(==)>(dispatchers: map<string, seq<nat>>, data: Data<V>, k: string, p: Pending<V>): Pending<V>
    requires k in data.vals
  {
    var before := Read(p.values, k);
    var after := data.vals[k];
    if before == after then p
    else
      var ds := if k in dispatchers then Group(dispatchers[k], k, after, p.dispatches) else p.dispatches;
      Pending(p.values[k := after], p.oldValues[k := before], ds)
  }

  function Diff<V(==)>(dispatchers: map<string, seq<nat>>, data: Data<V>, ks: seq<string>, p: Pending<V>): Pending<V>
    requires forall k :: k in ks ==> k in data.vals
  {
    if ks == [] then p else Diff(dispatchers, data, ks[1..], DiffKey(dispatchers, data, ks[0], p))
  }

  /** The change objects after `Group`: every id of `ids` gains `k := v`. */
  function Grouped<V>(ids: seq<nat>, k: string, v: Val<V>, m: map<nat, Snapshot<V>>): map<nat, Snapshot<V>> {
    var targets := Elems(ids);
    map id | id in m.Keys + targets :: if id in targets || id !in m then (if id in m then m[id] else map[])[k := v] else m[id]
  }

  /** One id of `Group` on the change objects alone. */
  function GroupOne<V>(id: nat, k: string, v: Val<V>, m: map<nat, Snapshot<V>>): map<nat, Snapshot<V>> {
    m[id := (if id in m then m[id] else map[])[k := v]]
  }

  lemma GroupedStep<V>(ids: seq<nat>, k: string, v: Val<V>, m: map<nat, Snapshot<V>>)
    requires ids != []
    ensures Grouped(ids[1..], k, v, GroupOne(ids[0], k, v, m)) == Grouped(ids, k, v, m)
  {
    var id := ids[0];
    var lhs := Grouped(ids[1..], k, v, GroupOne(id, k, v, m));
    var rhs := Grouped(ids, k, v, m);
    assert Elems(ids) == {id} + Elems(ids[1..]);
    assert lhs.Keys == rhs.Keys;
    forall x | x in lhs ensures lhs[x] == rhs[x] {
      if x == id && x in Elems(ids[1..]) {
        var base := if id in m then m[id] else map[];
        assert base[k := v][k := v] == base[k := v];
      }
    }
  }

  lemma {:induction false} GroupEffect<V>(ids: seq<nat>, k: string, v: Val<V>, ds: Dispatches<V>)
    ensures Group(ids, k, v, ds).vals == Grouped(ids, k, v, ds.vals)
    ensures ds.keys <= Group(ids, k, v, ds).keys
  {
    if ids == [] {
      assert Elems(ids) == {};
      assert Grouped(ids, k, v, ds.vals) == ds.vals;
    } else {
      var id := ids[0];
      var next := if id in ds.vals then Put(ds, id, ds.vals[id][k := v]) else Put(ds, id, map[k := v]);
      assert next.vals == GroupOne(id, k, v, ds.vals);
      GroupEffect(ids[1..], k, v, next);
      GroupedStep(ids, k, v, ds.vals);
    }
  }

  /** The ids of `ids` outside `seen`, each once, in the order they are first met. */
  function FirstMet(ids: seq<nat>, seen: set<nat>): (r: seq<nat>)
    ensures Distinct(r)
    ensures forall id :: id in r <==> id in ids && id !in seen
  {
    if ids == [] then []
    else if ids[0] in seen then FirstMet(ids[1..], seen)
    else [ids[0]] + FirstMet(ids[1..], seen + {ids[0]})
  }

  /** `Group` keeps the observers already dispatched in place and appends the
      new ones, each once, in the order `ids` first lists them. */
  lemma {:induction false} GroupKeys<V>(ids: seq<nat>, k: string, v: Val<V>, ds: Dispatches<V>)
    ensures Group(ids, k, v, ds).keys == ds.keys + FirstMet(ids, ds.vals.Keys)
  {
    if ids != [] {
      var id := ids[0];
      var next := if id in ds.vals then Put(ds, id, ds.vals[id][k := v]) else Put(ds, id, map[k := v]);
      GroupKeys(ids[1..], k, v, next);
      if id in ds.vals {
        assert next.vals.Keys == ds.vals.Keys;
      } else {
        assert next.vals.Keys == ds.vals.Keys + {id};
        AppendAssoc(ds.keys, [id], FirstMet(ids[1..], ds.vals.Keys + {id}));
      }
    }
  }

  /** The store after the diff of the keys in `done`, against the store `before` the pass. */
  ghost predicate StoreTracks<V>(data: Data<V>, before: Snapshot<V>, done: set<string>, values: Snapshot<V>) {
    && done <= data.vals.Keys
    && forall k :: Read(values, k) == if k in done then data.vals[k] else Read(before, k)
  }

  /** `oldValues` holds the prior value of exactly the changed keys done so far. */
  ghost predicate OldTracks<V>(data: Data<V>, before: Snapshot<V>, done: set<string>, oldValues: Snapshot<V>) {
    && (forall k :: k in oldValues ==> k in done && Changed(before, data, k) && oldValues[k] == Read(before, k))
    && (forall k :: k in done && Changed(before, data, k) ==> k in oldValues)
  }

  /** The change object of an observer holds exactly the changed keys done so far
      whose dispatch entry lists it, with their new values, and is never empty. */
  ghost predicate GroupTracks<V>(dispatchers: map<string, seq<nat>>, data: Data<V>, before: Snapshot<V>,
                                 done: set<string>, ds: map<nat, Snapshot<V>>)
  {
    && (forall id, k :: id in ds && k in ds[id] ==>
          k in done && Changed(before, data, k) && k in dispatchers && id in dispatchers[k] && ds[id][k] == data.vals[k])
    && (forall id, k :: k in done && Changed(before, data, k) && k in dispatchers && id in dispatchers[k] ==>
          id in ds && k in ds[id])
    && (forall id :: id in ds ==> exists k :: k in ds[id])
  }

  /** What the diff has established after the keys in `done`. */
  ghost predicate Tracks<V>(dispatchers: map<string, seq<nat>>, data: Data<V>, before: Snapshot<V>,
                            done: set<string>, p: Pending<V>)
  {
    && StoreTracks(data, before, done, p.values)
    && OldTracks(data, before, done, p.oldValues)
    && GroupTracks(dispatchers, data, before, done, p.dispatches.vals)
  }

  lemma DiffStart<V>(dispatchers: map<string, seq<nat>>, data: Data<V>, before: Snapshot<V>)
    ensures Tracks(dispatchers, data, before, {}, Pending(before, map[], Empty()))
  {
  }

  lemma GroupStep<V>(dispatchers: map<string, seq<nat>>, data: Data<V>, before: Snapshot<V>,
                     done: set<string>, k: string, ds: map<nat, Snapshot<V>>)
    requires GroupTracks(dispatchers, data, before, done, ds)
    requires k !in done && Changed(before, data, k) && k in dispatchers
    ensures GroupTracks(dispatchers, data, before, done + {k}, Grouped(dispatchers[k], k, data.vals[k], ds))
  {
    ElemsMembers(dispatchers[k]);
    GroupStepSound(dispatchers, data, before, done, k, ds);
    GroupStepFilled(dispatchers, data, before, done, k, ds);
  }

  lemma GroupStepSound<V>(dispatchers: map<string, seq<nat>>, data: Data<V>, before: Snapshot<V>,
                          done: set<string>, k: string, ds: map<nat, Snapshot<V>>)
    requires GroupTracks(dispatchers, data, before, done, ds)
    requires k !in done && Changed(before, data, k) && k in dispatchers
    ensures var r := Grouped(dispatchers[k], k, data.vals[k], ds);
      forall id, j :: id in r && j in r[id] ==>
        j in done + {k} && Changed(before, data, j) && j in dispatchers && id in dispatchers[j] && r[id][j] == data.vals[j]
  {
    var ids := dispatchers[k];
    var r := Grouped(ids, k, data.vals[k], ds);
    forall id, j | id in r && j in r[id]
      ensures j in done + {k} && Changed(before, data, j) && j in dispatchers && id in dispatchers[j] && r[id][j] == data.vals[j]
    {
      ElemsContains(ids, id);
      if j != k || id !in Elems(ids) {
        assert j in ds[id];
      }
    }
  }

  lemma GroupStepFilled<V>(dispatchers: map<string, seq<nat>>, data: Data<V>, before: Snapshot<V>,
                           done: set<string>, k: string, ds: map<nat, Snapshot<V>>)
    requires GroupTracks(dispatchers, data, before, done, ds)
    requires k !in done && Changed(before, data, k) && k in dispatchers
    ensures var r := Grouped(dispatchers[k], k, data.vals[k], ds);
      forall id :: id in r ==> exists j :: j in r[id]
  {
    var ids := dispatchers[k];
    var r := Grouped(ids, k, data.vals[k], ds);
    forall id | id in r ensures exists j :: j in r[id] {
      if id in Elems(ids) {
        assert k in r[id];
      } else {
        var j :| j in ds[id];
        assert j in r[id];
      }
    }
  }

  lemma GroupSkip<V>(dispatchers: map<string, seq<nat>>, data: Data<V>, before: Snapshot<V>,
                     done: set<string>, k: string, ds: map<nat, Snapshot<V>>)
    requires GroupTracks(dispatchers, data, before, done, ds)
    requires !Changed(before, data, k) || k !in dispatchers
    ensures GroupTracks(dispatchers, data, before, done + {k}, ds)
  {
  }

  lemma DiffKeyStep<V>(dispatchers: map<string, seq<nat>>, data: Data<V>, before: Snapshot<V>,
                           done: set<string>, k: string, p: Pending<V>)
    requires Tracks(dispatchers, data, before, done, p)
    requires k in data.vals && k !in done
    ensures Tracks(dispatchers, data, before, done + {k}, DiffKey(dispatchers, data, k, p))
    ensures p.dispatches.keys <= DiffKey(dispatchers, data, k, p).dispatches.keys
  {
    DiffKeyValues(dispatchers, data, before, done, k, p);
    assert Read(p.values, k) == Read(before, k);
    if Changed(before, data, k) && k in dispatchers {
      GroupEffect(dispatchers[k], k, data.vals[k], p.dispatches);
      GroupStep(dispatchers, data, before, done, k, p.dispatches.vals);
    } else {
      GroupSkip(dispatchers, data, before, done, k, p.dispatches.vals);
    }
  }

  /** One key of the diff loop keeps the store and `oldValues` in step. */
  lemma DiffKeyValues<V>(dispatchers: map<string, seq<nat>>, data: Data<V>, before: Snapshot<V>,
                         done: set<string>, k: string, p: Pending<V>)
    requires StoreTracks(data, before, done, p.values) && OldTracks(data, before, done, p.oldValues)
    requires k in data.vals && k !in done
    ensures var r := DiffKey(dispatchers, data, k, p);
      StoreTracks(data, before, done + {k}, r.values) && OldTracks(data, before, done + {k}, r.oldValues)
  {
    assert Read(p.values, k) == Read(before, k);
  }

  /** The diff loop, run over distinct keys not yet done, keeps `Tracks`. */
  lemma {:induction false} DiffEffect<V>(dispatchers: map<string, seq<nat>>, data: Data<V>, before: Snapshot<V>,
                                             done: set<string>, ks: seq<string>, p: Pending<V>)
    requires Tracks(dispatchers, data, before, done, p)
    requires Distinct(ks) && forall k :: k in ks ==> k in data.vals && k !in done
    ensures Tracks(dispatchers, data, before, done + Elems(ks), Diff(dispatchers, data, ks, p))
    ensures p.dispatches.keys <= Diff(dispatchers, data, ks, p).dispatches.keys
    decreases |ks|
  {
    if ks == [] {
      assert done + Elems(ks) == done;
    } else {
      var k := ks[0];
      DiffKeyStep(dispatchers, data, before, done, k, p);
      assert forall j :: j in ks[1..] ==> j != k by {
        forall j | j in ks[1..] ensures j != k {
          var i :| 0 <= i < |ks[1..]| && ks[1..][i] == j;
          assert ks[i + 1] == j;
        }
      }
      DiffEffect(dispatchers, data, before, done + {k}, ks[1..], DiffKey(dispatchers, data, k, p));
      assert done + {k} + Elems(ks[1..]) == done + Elems(ks);
    }
  }

  // ---------------------------------------------------------------------------
  // The whole diff loop of a pass

  /** The diff loop over every key of the merged data, from the store before the pass. */
  function DiffAll<V(==)>(dispatchers: map<string, seq<nat>>, store: Snapshot<V>, merged: Data<V>): Pending<V> {
    Diff(dispatchers, merged, merged.keys, Pending(store, map[], Empty()))
  }

  lemma DiffAllTracks<V>(dispatchers: map<string, seq<nat>>, store: Snapshot<V>, merged: Data<V>)
    ensures Tracks(dispatchers, merged, store, merged.vals.Keys, DiffAll(dispatchers, store, merged))
  {
    DiffStart(dispatchers, merged, store);
    DiffEffect(dispatchers, merged, store, {}, merged.keys, Pending(store, map[], Empty()));
    ElemsMembers(merged.keys);
    assert {} + Elems(merged.keys) == merged.vals.Keys;
  }

  /** After the diff loop every key of the merged data holds its merged value,
      every other key keeps its value, and `oldValues` holds the value before
      the pass of exactly the keys whose value changed. */
  lemma DiffAllStore<V>(dispatchers: map<string, seq<nat>>, store: Snapshot<V>, merged: Data<V>)
    ensures var p := DiffAll(dispatchers, store, merged);
      && (forall k :: Read(p.values, k) == if k in merged.vals then merged.vals[k] else Read(store, k))
      && (forall k :: k in p.oldValues <==> Read(p.values, k) != Read(store, k))
      && (forall k :: k in p.oldValues ==> p.oldValues[k] == Read(store, k))
  {
    DiffAllTracks(dispatchers, store, merged);
  }

  /** After the diff loop an observer has a change object exactly when a
      property whose dispatch entry lists it changed; the object holds exactly
      those properties, with their new values, and is never empty. */
  lemma DiffAllGroups<V>(dispatchers: map<string, seq<nat>>, store: Snapshot<V>, merged: Data<V>)
    ensures var p := DiffAll(dispatchers, store, merged);
      var ds := p.dispatches.vals;
      && (forall id, k :: id in ds && k in ds[id] ==>
            Read(p.values, k) != Read(store, k) && k in dispatchers && id in dispatchers[k] && ds[id][k] == Read(p.values, k))
      && (forall id, k :: Read(p.values, k) != Read(store, k) && k in dispatchers && id in dispatchers[k] ==>
            id in ds && k in ds[id])
      && (forall id :: id in ds ==> exists k :: k in ds[id])
  {
    DiffAllTracks(dispatchers, store, merged);
    DiffAllStore(dispatchers, store, merged);
  }

  /** A change object entry is a changed property whose dispatch entry lists the observer. */
  lemma GroupedEntry<V>(dispatchers: map<string, seq<nat>>, store: Snapshot<V>, merged: Data<V>, id: nat, k: string)
    requires var ds := DiffAll(dispatchers, store, merged).dispatches.vals; id in ds && k in ds[id]
    ensures var p := DiffAll(dispatchers, store, merged);
      && Read(p.values, k) != Read(store, k) && k in dispatchers && id in dispatchers[k]
      && p.dispatches.vals[id][k] == Read(p.values, k)
  {
    DiffAllGroups(dispatchers, store, merged);
  }

  /** A changed property is in the change object of every observer its dispatch entry lists. */
  lemma GroupedChange<V>(dispatchers: map<string, seq<nat>>, store: Snapshot<V>, merged: Data<V>, id: nat, k: string)
    requires Read(DiffAll(dispatchers, store, merged).values, k) != Read(store, k)
    requires k in dispatchers && id in dispatchers[k]
    ensures var ds := DiffAll(dispatchers, store, merged).dispatches.vals; id in ds && k in ds[id]
  {
    DiffAllGroups(dispatchers, store, merged);
  }

  /** An observer with a change object has at least one changed property in it. */
  lemma GroupedSome<V>(dispatchers: map<string, seq<nat>>, store: Snapshot<V>, merged: Data<V>, id: nat)
    returns (k: string)
    requires id in DiffAll(dispatchers, store, merged).dispatches.vals
    ensures k in DiffAll(dispatchers, store, merged).dispatches.vals[id]
  {
    DiffAllGroups(dispatchers, store, merged);
    k :| k in DiffAll(dispatchers, store, merged).dispatches.vals[id];
  }
}
