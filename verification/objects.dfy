/** Plain JavaScript objects and Maps as the engine uses them: a finite map
    whose keys also have an insertion order, which `Object.keys` and Map
    iteration follow. */
module Objects {

  /** The keys in insertion order, and the value stored under each key. */
  datatype Obj<K(==), T> = Obj(keys: seq<K>, vals: map<K, T>)
  {
    /** Every key is listed once, and exactly the listed keys hold a value. */
    predicate Valid() {
      && Distinct(keys)
      && (forall k :: k in keys ==> k in vals)
      && vals.Keys <= Elems(keys)
    }
  }

  type Object<K(==), T> = o: Obj<K, T> | o.Valid() witness Obj([], map[])

  /** The set of elements of a sequence. */
  function Elems<K>(s: seq<K>): set<K> {
    if s == [] then {} else {s[0]} + Elems(s[1..])
  }

  lemma {:induction false} ElemsContains<K>(s: seq<K>, k: K)
    ensures k in Elems(s) <==> k in s
  {
    if s != [] { ElemsContains(s[1..], k); }
  }

  lemma ElemsMembers<K>(s: seq<K>)
    ensures forall k :: k in Elems(s) <==> k in s
  {
    forall k ensures k in Elems(s) <==> k in s {
      ElemsContains(s, k);
    }
  }

  lemma {:induction false} ElemsAppend<K>(s: seq<K>, t: seq<K>)
    ensures Elems(s + t) == Elems(s) + Elems(t)
  {
    if s != [] {
      assert (s + t)[1..] == s[1..] + t;
      ElemsAppend(s[1..], t);
    } else {
      assert s + t == t;
    }
  }

  lemma AppendAssoc<K>(a: seq<K>, b: seq<K>, c: seq<K>)
    ensures a + b + c == a + (b + c)
  {
  }

  predicate Distinct<K(==)>(s: seq<K>) {
    forall i, j :: 0 <= i < j < |s| ==> s[i] != s[j]
  }

  /** An object without entries lists no keys. */
  lemma NoEntries<K, T>(o: Object<K, T>)
    requires forall k :: k !in o.vals
    ensures o.keys == []
  {
    FirstKey(o);
  }

  lemma FirstKey<K, T>(o: Object<K, T>)
    ensures o.keys != [] ==> o.keys[0] in o.vals
  {
    assert o.Valid();
  }

  /** `{}` or `new Map()`. */
  function Empty<K(==), T>(): Object<K, T> {
    Obj([], map[])
  }

  /** `o[k] = v` or `m.set(k, v)`: an existing key keeps its place, a new key goes last. */
  function Put<K(==), T>(o: Object<K, T>, k: K, v: T): (r: Object<K, T>)
    ensures r.vals == o.vals[k := v]
    ensures k in o.vals ==> r.keys == o.keys
    ensures k !in o.vals ==> r.keys == o.keys + [k]
  {
    if k in o.vals then Obj(o.keys, o.vals[k := v])
    else
      ElemsAppend(o.keys, [k]);
      Obj(o.keys + [k], o.vals[k := v])
  }

  /** The keys of `ks` that `m` does not hold, in their order in `ks`. */
  function Unseen<K(==), T>(ks: seq<K>, m: map<K, T>): (r: seq<K>)
    ensures forall k :: k in r ==> k in ks && k !in m
    ensures forall k :: k in ks && k !in m ==> k in r
    ensures Distinct(ks) ==> Distinct(r)
  {
    if ks == [] then []
    else (if ks[0] in m then [] else [ks[0]]) + Unseen(ks[1..], m)
  }

  /** `Unseen` reads `ks` at increasing positions, which are exactly the
      positions of the keys `m` does not hold. */
  lemma {:induction false} UnseenOrder<K, T>(ks: seq<K>, m: map<K, T>) returns (idx: seq<nat>)
    ensures Subsequence(Unseen(ks, m), ks, idx)
    ensures forall i :: i in idx <==> 0 <= i < |ks| && ks[i] !in m
  {
    if ks == [] {
      idx := [];
    } else {
      var tail := UnseenOrder(ks[1..], m);
      var shifted := Shifted(tail);
      var take := ks[0] !in m;
      idx := if take then [0] + shifted else shifted;
      if take {
        SubsequenceTake(Unseen(ks[1..], m), ks, tail);
      } else {
        SubsequenceSkip(Unseen(ks[1..], m), ks, tail);
      }
      forall i ensures i in idx <==> 0 <= i < |ks| && ks[i] !in m {
        ShiftedMembers(tail, i);
        assert i in idx <==> (take && i == 0) || i in shifted;
        if 1 <= i < |ks| { assert ks[1..][i - 1] == ks[i]; }
      }
    }
  }

  /** `sub` is `s` read at the increasing positions `idx`. */
  ghost predicate Subsequence<T>(sub: seq<T>, s: seq<T>, idx: seq<nat>) {
    && |idx| == |sub|
    && (forall k :: 0 <= k < |idx| ==> idx[k] < |s| && sub[k] == s[idx[k]])
    && (forall k, l :: 0 <= k < l < |idx| ==> idx[k] < idx[l])
  }

  /** Positions shifted past one more leading element. */
  function Shifted(idx: seq<nat>): (r: seq<nat>)
    ensures |r| == |idx| && forall k :: 0 <= k < |idx| ==> r[k] == idx[k] + 1
  {
    if idx == [] then [] else [idx[0] + 1] + Shifted(idx[1..])
  }

  lemma SubsequenceSkip<T>(sub: seq<T>, s: seq<T>, idx: seq<nat>)
    requires s != [] && Subsequence(sub, s[1..], idx)
    ensures Subsequence(sub, s, Shifted(idx))
  {
  }

  lemma SubsequenceTake<T>(sub: seq<T>, s: seq<T>, idx: seq<nat>)
    requires s != [] && Subsequence(sub, s[1..], idx)
    ensures Subsequence([s[0]] + sub, s, [0] + Shifted(idx))
  {
    var r, ix := [s[0]] + sub, [0] + Shifted(idx);
    forall k | 0 <= k < |ix| ensures ix[k] < |s| && r[k] == s[ix[k]] {
      if k > 0 { assert r[k] == sub[k - 1] && ix[k] == idx[k - 1] + 1; }
    }
  }

  /** Shifted positions of a tail's chosen positions are the chosen positions past the head. */
  lemma ShiftedMembers(idx: seq<nat>, i: int)
    ensures i in Shifted(idx) <==> i >= 1 && i - 1 in idx
  {
    var sh := Shifted(idx);
    if i in sh {
      var k :| 0 <= k < |sh| && sh[k] == i;
      assert idx[k] == i - 1;
    }
    if i >= 1 && i - 1 in idx {
      var k :| 0 <= k < |idx| && idx[k] == i - 1;
      assert sh[k] == i;
    }
  }

  /** `Object.assign(a, b)`: the entries of `b` overwrite those of `a`, and the
      keys `a` lacks are appended in the order `b` lists them. */
  function Assign<K(==), T>(a: Object<K, T>, b: Object<K, T>): (r: Object<K, T>)
    ensures r.vals == a.vals + b.vals
    ensures a.keys <= r.keys
  {
    var added := Unseen(b.keys, a.vals);
    AssignValid(a, b, added);
    Obj(a.keys + added, a.vals + b.vals)
  }

  /** The keys `Object.assign` appends are `b`'s keys read at increasing
      positions, exactly the positions of the keys `a` lacks: they keep `b`'s order. */
  lemma AssignOrder<K, T>(a: Object<K, T>, b: Object<K, T>) returns (idx: seq<nat>)
    ensures Assign(a, b).keys[|a.keys|..] == Unseen(b.keys, a.vals)
    ensures Subsequence(Assign(a, b).keys[|a.keys|..], b.keys, idx)
    ensures forall i :: i in idx <==> 0 <= i < |b.keys| && b.keys[i] !in a.vals
  {
    idx := UnseenOrder(b.keys, a.vals);
  }

  lemma AssignValid<K, T>(a: Object<K, T>, b: Object<K, T>, added: seq<K>)
    requires added == Unseen(b.keys, a.vals)
    ensures Obj(a.keys + added, a.vals + b.vals).Valid()
  {
    DistinctAppend(a.keys, added);
    ElemsAppend(a.keys, added);
    forall k | k in b.vals ensures k in Elems(a.keys) + Elems(added) {
      ElemsContains(b.keys, k);
      ElemsContains(a.keys, k);
      ElemsContains(added, k);
    }
  }

  lemma DistinctAppend<K>(s: seq<K>, t: seq<K>)
    requires Distinct(s) && Distinct(t) && forall k :: k in t ==> k !in s
    ensures Distinct(s + t)
  {
    forall i, j | 0 <= i < j < |s + t| ensures (s + t)[i] != (s + t)[j] {
      if j >= |s| {
        assert (s + t)[j] == t[j - |s|] && t[j - |s|] in t;
        if i >= |s| {
          assert (s + t)[i] == t[i - |s|];
        }
      }
    }
  }

  /** Copying into an empty object keeps every key in its place. */
  lemma {:induction false} AssignToEmpty<K, T>(o: Object<K, T>)
    ensures Assign(Empty(), o) == o
  {
    var e: Object<K, T> := Empty();
    UnseenOfEmpty(o.keys, e.vals);
    assert e.vals + o.vals == o.vals;
  }

  lemma {:induction false} UnseenOfEmpty<K, T>(ks: seq<K>, m: map<K, T>)
    requires m == map[]
    ensures Unseen(ks, m) == ks
  {
    if ks != [] {
      UnseenOfEmpty(ks[1..], m);
      assert ks == [ks[0]] + ks[1..];
    }
  }
}
