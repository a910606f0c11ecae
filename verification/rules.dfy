/** The computation registry: "from" rules (a computed property derived from
    source properties) and "to" rules (a trigger property mapped to a partial
    object of derived values), kept in registration order, and how `_compute`
    evaluates them against the data of one commit. */
module Rules {
  import opened Objects
  import opened Values

  datatype Rule<!V> =
    | From(computedProp: string, props: seq<string>, compute: Snapshot<V> -> Val<V>)
      /** `None` stands for a falsy result, which merges nothing. */
    | To(triggeringProp: string, derive: Snapshot<V> -> Option<Data<V>>)

  /** Same kind and same name: registering one rule removes the other. */
  predicate SameSlot<V>(a: Rule<V>, b: Rule<V>) {
    match a
    case From(p, _, _) => b.From? && b.computedProp == p
    case To(t, _) => b.To? && b.triggeringProp == t
  }

  /** At most one rule per kind and name. */
  predicate Unique<V>(rules: seq<Rule<V>>) {
    forall i, j :: 0 <= i < j < |rules| ==> !SameSlot(rules[i], rules[j])
  }

  /** The rules outside `rule`'s slot, in their registration order. */
  function Others<V>(rules: seq<Rule<V>>, rule: Rule<V>): (r: seq<Rule<V>>)
    ensures |r| <= |rules|
  {
    if rules == [] then []
    else (if SameSlot(rule, rules[0]) then [] else [rules[0]]) + Others(rules[1..], rule)
  }

  /** `computed` / `computing`: delete the rules in the slot, then add the new rule last. */
  function Register<V>(rules: seq<Rule<V>>, rule: Rule<V>): seq<Rule<V>> {
    Others(rules, rule) + [rule]
  }

  /** Registration keeps one rule per slot, puts the new rule last, and keeps
      every other rule, in its order, exactly when it is outside the slot.
      The rules before the new one are those of `rules` at the positions
      `idx`, which increase and are exactly the positions outside the slot. */
  lemma {:induction false} RegisterReplaces<V>(rules: seq<Rule<V>>, rule: Rule<V>) returns (idx: seq<nat>)
    requires Unique(rules)
    ensures var r := Register(rules, rule);
      && Unique(r)
      && r[|r| - 1] == rule
      && (forall i :: 0 <= i < |r| - 1 ==> !SameSlot(rule, r[i]))
      && (forall i :: 0 <= i < |rules| && !SameSlot(rule, rules[i]) ==> rules[i] in r[..|r| - 1])
      && (forall x :: x in r[..|r| - 1] ==> x in rules)
      && Subsequence(r[..|r| - 1], rules, idx)
      && (forall i :: i in idx <==> 0 <= i < |rules| && !SameSlot(rule, rules[i]))
  {
    OthersFilter(rules, rule);
    idx := OthersOrder(rules, rule);
    var r := Register(rules, rule);
    assert r[..|r| - 1] == Others(rules, rule);
  }

  /** The rules outside the slot keep their relative order: `Others` reads
      `rules` at increasing positions, which are all the positions outside the slot. */
  lemma {:induction false} OthersOrder<V>(rules: seq<Rule<V>>, rule: Rule<V>) returns (idx: seq<nat>)
    ensures Subsequence(Others(rules, rule), rules, idx)
    ensures forall i :: i in idx <==> 0 <= i < |rules| && !SameSlot(rule, rules[i])
  {
    if rules == [] {
      idx := [];
    } else {
      var tail := OthersOrder(rules[1..], rule);
      var shifted := Shifted(tail);
      var take := !SameSlot(rule, rules[0]);
      idx := if take then [0] + shifted else shifted;
      if take {
        SubsequenceTake(Others(rules[1..], rule), rules, tail);
      } else {
        SubsequenceSkip(Others(rules[1..], rule), rules, tail);
      }
      forall i ensures i in idx <==> 0 <= i < |rules| && !SameSlot(rule, rules[i]) {
        ShiftedMembers(tail, i);
        assert i in idx <==> (take && i == 0) || i in shifted;
        if 1 <= i < |rules| { assert rules[1..][i - 1] == rules[i]; }
      }
    }
  }

  lemma {:induction false} OthersFilter<V>(rules: seq<Rule<V>>, rule: Rule<V>)
    requires Unique(rules)
    ensures var o := Others(rules, rule);
      && Unique(o)
      && (forall i :: 0 <= i < |o| ==> !SameSlot(rule, o[i]))
      && (forall i :: 0 <= i < |rules| && !SameSlot(rule, rules[i]) ==> rules[i] in o)
      && (forall x :: x in o ==> x in rules)
  {
    if rules != [] {
      OthersFilter(rules[1..], rule);
      var tail := Others(rules[1..], rule);
      var head := if SameSlot(rule, rules[0]) then [] else [rules[0]];
      assert Others(rules, rule) == head + tail;
      forall i | 0 <= i < |rules| && !SameSlot(rule, rules[i])
        ensures rules[i] in Others(rules, rule)
      {
        if i > 0 { assert rules[i] == rules[1..][i - 1]; }
      }
      if !SameSlot(rule, rules[0]) {
        forall j | 0 <= j < |tail| ensures !SameSlot(rules[0], tail[j]) {
          var x := tail[j];
          assert x in rules[1..];
          var k :| 0 <= k < |rules[1..]| && rules[1..][k] == x;
          assert rules[k + 1] == x;
        }
        UniqueCons(rules[0], tail);
      }
    }
  }

  lemma UniqueCons<V>(x: Rule<V>, s: seq<Rule<V>>)
    requires Unique(s) && forall j :: 0 <= j < |s| ==> !SameSlot(x, s[j])
    ensures Unique([x] + s)
  {
    forall i, j | 0 <= i < j < |[x] + s| ensures !SameSlot(([x] + s)[i], ([x] + s)[j]) {
      if i > 0 { assert ([x] + s)[i] == s[i - 1]; }
      assert ([x] + s)[j] == s[j - 1];
    }
  }

  /** The three objects `_compute` evolves: the proposed data, the working
      snapshot the rules read, and the entries derived so far. */
  datatype Work<V> = Work(data: Data<V>, values: Snapshot<V>, computed: Data<V>)

  /** `Object.assign(data, computed); Object.assign(values, data)` after `computed` grew. */
  function Absorb<V>(w: Work<V>, computed: Data<V>): Work<V> {
    var data := Assign(w.data, computed);
    Work(data, w.values + data.vals, computed)
  }

  /** The inner loop of a "from" rule: every changed source property runs the
      rule again on the current snapshot (the loop does not stop at the first). */
  function FromProps<V(==)>(cp: string, props: seq<string>, f: Snapshot<V> -> Val<V>,
                            store: Snapshot<V>, w: Work<V>): Work<V>
  {
    if props == [] then w
    else
      var next := if Changed(store, w.data, props[0]) then Absorb(w, Put(w.computed, cp, f(w.values))) else w;
      FromProps(cp, props[1..], f, store, next)
  }

  /** One rule of the loop in `_compute`. */
  function Apply<V(==)>(rule: Rule<V>, store: Snapshot<V>, w: Work<V>): Work<V> {
    match rule
    case From(cp, props, f) =>
      if cp in w.data.vals then w else FromProps(cp, props, f, store, w)
    case To(t, g) =>
      if Changed(store, w.data, t) then
        match g(w.values)
        case None => w
        case Some(r) => Absorb(w, Assign(w.computed, r))
      else w
  }

  /** The rules applied in registration order. */
  function Derive<V(==)>(rules: seq<Rule<V>>, store: Snapshot<V>, w: Work<V>): Work<V> {
    if rules == [] then w else Derive(rules[1..], store, Apply(rules[0], store, w))
  }

  /** The state `_compute` starts from: a copy of the data, and the store overlaid with it. */
  function Start<V>(store: Snapshot<V>, data: Data<V>): Work<V> {
    var copy := Assign(Empty(), data);
    Work(copy, store + copy.vals, Empty())
  }

  /** What `_compute` returns: only the derived entries. */
  function ComputedEntries<V(==)>(rules: seq<Rule<V>>, store: Snapshot<V>, data: Data<V>): Data<V> {
    Derive(rules, store, Start(store, data)).computed
  }

  /** Every derived entry is also in the evolving data, with the same value. */
  predicate Coherent<V(==)>(w: Work<V>) {
    forall k :: k in w.computed.vals ==> k in w.data.vals && w.data.vals[k] == w.computed.vals[k]
  }

  lemma StartCoherent<V>(store: Snapshot<V>, data: Data<V>)
    ensures Coherent(Start(store, data))
    ensures Start(store, data).data == data
  {
    AssignToEmpty(data);
  }

  /** Deriving one more entry changes the data and the derived entries at that key only. */
  lemma AbsorbPut<V>(w: Work<V>, cp: string, v: Val<V>)
    requires Coherent(w)
    ensures var w1 := Absorb(w, Put(w.computed, cp, v));
      && w1.data.vals == w.data.vals[cp := v]
      && w1.computed.vals == w.computed.vals[cp := v]
      && Coherent(w1)
  {
    var c := Put(w.computed, cp, v);
    var d := Assign(w.data, c);
    assert d.vals == w.data.vals + c.vals;
    forall k ensures k in d.vals <==> k in w.data.vals[cp := v] {}
    forall k | k in d.vals ensures d.vals[k] == w.data.vals[cp := v][k] {}
    assert c.vals == w.computed.vals[cp := v];
    forall k | k in c.vals ensures k in d.vals && d.vals[k] == c.vals[k] {}
    assert Absorb(w, c) == Work(d, w.values + d.vals, c);
  }

  /** Some source property is a key of the data with a value other than the store's. */
  predicate AnyChanged<V(==)>(store: Snapshot<V>, data: Data<V>, props: seq<string>) {
    props != [] && (Changed(store, data, props[0]) || AnyChanged(store, data, props[1..]))
  }

  lemma {:induction false} AnyChangedExists<V>(store: Snapshot<V>, data: Data<V>, props: seq<string>)
    ensures AnyChanged(store, data, props) <==> exists p :: p in props && Changed(store, data, p)
  {
    if props != [] {
      AnyChangedExists(store, data, props[1..]);
      assert forall p :: p in props <==> p == props[0] || p in props[1..];
    }
  }

  /** `r` differs from `w` by a derived value at `cp`, in the data and in the
      derived entries, and its working snapshot is `w`'s overlaid with its data. */
  ghost predicate DerivedAt<V>(w: Work<V>, r: Work<V>, cp: string) {
    && cp in r.computed.vals
    && r.computed.vals == w.computed.vals[cp := r.computed.vals[cp]]
    && r.data.vals == w.data.vals[cp := r.computed.vals[cp]]
    && r.values == w.values + r.data.vals
  }

  lemma DerivedAtTrans<V>(w: Work<V>, w1: Work<V>, r: Work<V>, cp: string)
    requires DerivedAt(w, w1, cp) && DerivedAt(w1, r, cp)
    ensures DerivedAt(w, r, cp)
  {
    var x := r.computed.vals[cp];
    UpdatedTwice(w.computed.vals, w1.computed.vals, r.computed.vals, cp, w1.computed.vals[cp], x);
    UpdatedTwice(w.data.vals, w1.data.vals, r.data.vals, cp, w1.computed.vals[cp], x);
    Overridden(w.values, w1.data.vals, r.data.vals);
  }

  lemma UpdatedTwice<K, T>(m0: map<K, T>, m1: map<K, T>, m2: map<K, T>, k: K, x: T, y: T)
    requires m1 == m0[k := x] && m2 == m1[k := y]
    ensures m2 == m0[k := y]
  {
  }

  /** Overlaying `b` and then `c` is overlaying `c` alone when `c` covers `b`'s keys. */
  lemma Overridden<K, T>(a: map<K, T>, b: map<K, T>, c: map<K, T>)
    requires b.Keys <= c.Keys
    ensures (a + b) + c == a + c
  {
  }

  lemma {:induction false} FromPropsEffect<V>(cp: string, props: seq<string>, f: Snapshot<V> -> Val<V>,
                                              store: Snapshot<V>, w: Work<V>)
    requires Coherent(w)
    ensures var r := FromProps(cp, props, f, store, w);
      && Coherent(r)
      && (!AnyChanged(store, w.data, props) ==> r == w)
      && (AnyChanged(store, w.data, props) ==> DerivedAt(w, r, cp))
  {
    if props != [] {
      if Changed(store, w.data, props[0]) {
        var w1 := Absorb(w, Put(w.computed, cp, f(w.values)));
        AbsorbPut(w, cp, f(w.values));
        FromPropsEffect(cp, props[1..], f, store, w1);
        if AnyChanged(store, w1.data, props[1..]) {
          DerivedAtTrans(w, w1, FromProps(cp, props[1..], f, store, w1), cp);
        }
      } else {
        FromPropsEffect(cp, props[1..], f, store, w);
      }
    }
  }

  /** Running the sources `a` and then `b` is running `a + b`. */
  lemma {:induction false} FromPropsSplit<V>(cp: string, a: seq<string>, b: seq<string>,
                                             f: Snapshot<V> -> Val<V>, store: Snapshot<V>, w: Work<V>)
    ensures FromProps(cp, a + b, f, store, w) == FromProps(cp, b, f, store, FromProps(cp, a, f, store, w))
  {
    if a == [] {
      assert a + b == b;
    } else {
      assert (a + b)[0] == a[0] && (a + b)[1..] == a[1..] + b;
      var next := if Changed(store, w.data, a[0]) then Absorb(w, Put(w.computed, cp, f(w.values))) else w;
      FromPropsSplit(cp, a[1..], b, f, store, next);
    }
  }

  /** Source `i` is the last one that finds its property changed, each source
      being checked against the data the earlier ones left. */
  ghost predicate LastTrigger<V>(cp: string, props: seq<string>, f: Snapshot<V> -> Val<V>,
                                     store: Snapshot<V>, w: Work<V>, i: int) {
    && 0 <= i < |props|
    && Changed(store, FromProps(cp, props[..i], f, store, w).data, props[i])
    && forall j :: i < j < |props| ==> !Changed(store, FromProps(cp, props[..j], f, store, w).data, props[j])
  }

  /** When a "from" rule runs, the value it leaves is the one computed for the
      last changed source, on the working snapshot as it was at that point:
      `f(w.values)` when that source is the first to change, otherwise a
      snapshot already holding the earlier results. */
  lemma {:induction false} FromPropsLast<V>(cp: string, props: seq<string>, f: Snapshot<V> -> Val<V>,
                                            store: Snapshot<V>, w: Work<V>) returns (i: int)
    requires Coherent(w) && cp !in w.data.vals
    requires exists p :: p in props && Changed(store, w.data, p)
    ensures LastTrigger(cp, props, f, store, w, i)
    ensures cp in FromProps(cp, props, f, store, w).computed.vals
    ensures FromProps(cp, props, f, store, w).computed.vals[cp] == f(FromProps(cp, props[..i], f, store, w).values)
  {
    var p :| p in props && Changed(store, w.data, p);
    var n := |props|;
    var init, last := props[..n - 1], props[n - 1];
    var mid := FromProps(cp, init, f, store, w);
    assert props == init + [last];
    FromPropsSplit(cp, init, [last], f, store, w);
    assert [last][1..] == [];
    if Changed(store, mid.data, last) {
      i := n - 1;
      FromPropsEffect(cp, init, f, store, w);
    } else {
      assert p in init by {
        var k :| 0 <= k < n && props[k] == p;
        if k == n - 1 {
          ChangedElsewhere(cp, init, f, store, w, p);
          assert false;
        }
        assert init[k] == p;
      }
      i := FromPropsLast(cp, init, f, store, w);
      LastTriggerExtended(cp, init, last, f, store, w, i);
      assert props[..i] == init[..i];
      assert FromProps(cp, props, f, store, w) == mid;
    }
  }

  /** With two changed sources the rule runs twice, the second time on the
      snapshot that already holds the first result. */
  lemma FromBothChanged<V>(cp: string, a: string, b: string, f: Snapshot<V> -> Val<V>,
                           store: Snapshot<V>, w: Work<V>)
    requires Coherent(w) && cp !in w.data.vals && a != cp && b != cp
    requires Changed(store, w.data, a) && Changed(store, w.data, b)
    ensures var first := Absorb(w, Put(w.computed, cp, f(w.values)));
      && cp in FromProps(cp, [a, b], f, store, w).computed.vals
      && FromProps(cp, [a, b], f, store, w).computed.vals[cp] == f(first.values)
  {
    var props := [a, b];
    assert a in props;
    var i := FromPropsLast(cp, props, f, store, w);
    ChangedElsewhere(cp, props[..1], f, store, w, b);
    assert props[..1] == [a] && [a][1..] == [];
    assert i == 1;
  }

  /** Running a "from" rule leaves the data unchanged away from its computed property. */
  lemma ChangedElsewhere<V>(cp: string, props: seq<string>, f: Snapshot<V> -> Val<V>,
                            store: Snapshot<V>, w: Work<V>, p: string)
    requires Coherent(w) && p != cp
    ensures Changed(store, FromProps(cp, props, f, store, w).data, p) == Changed(store, w.data, p)
  {
    FromPropsEffect(cp, props, f, store, w);
  }

  /** A last trigger stays the last one when a source that does not fire is appended. */
  lemma LastTriggerExtended<V>(cp: string, init: seq<string>, last: string, f: Snapshot<V> -> Val<V>,
                               store: Snapshot<V>, w: Work<V>, i: int)
    requires LastTrigger(cp, init, f, store, w, i)
    requires !Changed(store, FromProps(cp, init, f, store, w).data, last)
    ensures LastTrigger(cp, init + [last], f, store, w, i)
  {
    var props := init + [last];
    assert props[..i] == init[..i];
    forall j | i < j < |props|
      ensures !Changed(store, FromProps(cp, props[..j], f, store, w).data, props[j])
    {
      if j < |init| { assert props[..j] == init[..j]; } else { assert props[..j] == init; }
    }
  }

  /** A "from" rule is skipped when its computed property is already a key of
      the data; otherwise it runs exactly when some source property is a key of
      the data with a value other than the store's, and then it changes the data
      and the derived entries at the computed property only. */
  lemma FromRule<V>(cp: string, props: seq<string>, f: Snapshot<V> -> Val<V>,
                        store: Snapshot<V>, w: Work<V>)
    requires Coherent(w)
    ensures var r := Apply(From(cp, props, f), store, w);
      && Coherent(r)
      && (cp in w.data.vals ==> r == w)
      && ((forall p :: p in props ==> !Changed(store, w.data, p)) ==> r == w)
      && (cp !in w.data.vals && (exists p :: p in props && Changed(store, w.data, p)) ==>
            && cp in r.computed.vals
            && r.computed.vals == w.computed.vals[cp := r.computed.vals[cp]]
            && r.data.vals == w.data.vals[cp := r.computed.vals[cp]]
            && r.values == w.values + r.data.vals
            && exists i :: LastTrigger(cp, props, f, store, w, i)
                 && r.computed.vals[cp] == f(FromProps(cp, props[..i], f, store, w).values))
  {
    AnyChangedExists(store, w.data, props);
    if cp !in w.data.vals {
      FromPropsEffect(cp, props, f, store, w);
      if exists p :: p in props && Changed(store, w.data, p) {
        var i := FromPropsLast(cp, props, f, store, w);
      }
    }
  }

  /** A "to" rule runs only when its trigger is a key of the data with a value
      other than the store's, and merges its result only when that is truthy;
      the result's entries then win over both the data and the derived entries. */
  lemma ToRule<V>(t: string, g: Snapshot<V> -> Option<Data<V>>, store: Snapshot<V>, w: Work<V>)
    requires Coherent(w)
    ensures var r := Apply(To(t, g), store, w);
      && Coherent(r)
      && (!Changed(store, w.data, t) || g(w.values).None? ==> r == w)
      && (Changed(store, w.data, t) && g(w.values).Some? ==>
            && r.computed.vals == w.computed.vals + g(w.values).value.vals
            && r.data.vals == w.data.vals + g(w.values).value.vals
            && r.values == w.values + r.data.vals)
  {
    if Changed(store, w.data, t) && g(w.values).Some? {
      AbsorbAssign(w, g(w.values).value);
    }
  }

  /** Deriving a partial object: its entries win over the data and the derived entries. */
  lemma AbsorbAssign<V>(w: Work<V>, out: Data<V>)
    requires Coherent(w)
    ensures var w1 := Absorb(w, Assign(w.computed, out));
      && w1.data.vals == w.data.vals + out.vals
      && w1.computed.vals == w.computed.vals + out.vals
      && Coherent(w1)
  {
    var c := Assign(w.computed, out);
    var d := Assign(w.data, c);
    assert w.data.vals + w.computed.vals == w.data.vals;
    assert d.vals == (w.data.vals + w.computed.vals) + out.vals;
    assert Absorb(w, c) == Work(d, w.values + d.vals, c);
  }

  lemma {:induction false} ApplyCoherent<V>(rule: Rule<V>, store: Snapshot<V>, w: Work<V>)
    requires Coherent(w)
    ensures Coherent(Apply(rule, store, w))
    ensures w.data.vals.Keys <= Apply(rule, store, w).data.vals.Keys
  {
    match rule
    case From(cp, props, f) => FromRule(cp, props, f, store, w);
    case To(t, g) => ToRule(t, g, store, w);
  }

  /** The derived entries always agree with the evolving data, and the data
      only gains keys while the rules run. */
  lemma {:induction false} DeriveCoherent<V>(rules: seq<Rule<V>>, store: Snapshot<V>, w: Work<V>)
    requires Coherent(w)
    ensures Coherent(Derive(rules, store, w))
    ensures w.data.vals.Keys <= Derive(rules, store, w).data.vals.Keys
  {
    if rules != [] {
      ApplyCoherent(rules[0], store, w);
      DeriveCoherent(rules[1..], store, Apply(rules[0], store, w));
    }
  }

  /** Rules run in registration order, each on what the earlier ones left: the
      first `i` rules produce the state the rest start from, whatever the rest are. */
  lemma {:induction false} DeriveSplit<V>(rules: seq<Rule<V>>, i: nat, store: Snapshot<V>, w: Work<V>)
    requires i <= |rules|
    ensures Derive(rules, store, w) == Derive(rules[i..], store, Derive(rules[..i], store, w))
  {
    if i > 0 {
      assert rules[..i][1..] == rules[1..][..i - 1];
      assert rules[i..] == rules[1..][i - 1..];
      DeriveSplit(rules[1..], i - 1, store, Apply(rules[0], store, w));
    }
  }

  /** A "from" rule whose computed property is a key of the committed data
      never runs: its step leaves the state unchanged. */
  lemma CommittedPropNotDerived<V>(rules: seq<Rule<V>>, i: nat, store: Snapshot<V>, data: Data<V>)
    requires i < |rules| && rules[i].From? && rules[i].computedProp in data.vals
    ensures Derive(rules[..i + 1], store, Start(store, data)) == Derive(rules[..i], store, Start(store, data))
  {
    var prefix := rules[..i + 1];
    DeriveSplit(prefix, i, store, Start(store, data));
    assert prefix[..i] == rules[..i];
    assert prefix[i..] == [rules[i]];
    StartCoherent(store, data);
    DeriveCoherent(rules[..i], store, Start(store, data));
  }
}
