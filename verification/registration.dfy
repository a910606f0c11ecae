/** `watch`: how an observer is added to the registry and to the dispatch entries. */
module Registration {
  import opened Observers

  /** How `watch` is given its properties: one name, or an array of names. */
  datatype Props = Prop(name: string) | PropList(names: seq<string>)

  /** `if (!Array.isArray(props)) props = [props]`. */
  function Names(props: Props): (r: seq<string>)
    ensures props.Prop? ==> r == [props.name]
    ensures props.PropList? ==> r == props.names
  {
    match props
    case Prop(name) => [name]
    case PropList(names) => names
  }

  /** The ids a property's dispatch entry lists, none when it has no entry. */
  function Listed(dispatchers: map<string, seq<nat>>, k: string): seq<nat> {
    if k in dispatchers then dispatchers[k] else []
  }

  /** The loop of `watch`: push `id` on the dispatch entry of each name, creating the entry when missing. */
  function Subscribe(dispatchers: map<string, seq<nat>>, names: seq<string>, id: nat): map<string, seq<nat>>
    decreases |names|
  {
    if names == [] then dispatchers
    else Subscribe(dispatchers[names[0] := Listed(dispatchers, names[0]) + [id]], names[1..], id)
  }

  /** How many times `k` occurs in `names`. */
  function Count(names: seq<string>, k: string): (r: nat)
    ensures r > 0 <==> k in names
  {
    if names == [] then 0 else (if names[0] == k then 1 else 0) + Count(names[1..], k)
  }

  /** After `watch`, a property has a dispatch entry when it had one or is
      declared, and its entry is the old one followed by the new id, once for
      each time the property is declared. */
  lemma {:induction false} SubscribeLists(dispatchers: map<string, seq<nat>>, names: seq<string>, id: nat, k: string)
    ensures var r := Subscribe(dispatchers, names, id);
      && (k in r <==> k in dispatchers || k in names)
      && Listed(r, k) == Listed(dispatchers, k) + seq(Count(names, k), _ => id)
    decreases |names|
  {
    if names != [] {
      var next := dispatchers[names[0] := Listed(dispatchers, names[0]) + [id]];
      SubscribeLists(next, names[1..], id, k);
      var c := Count(names[1..], k);
      if names[0] == k {
        assert [id] + seq(c, _ => id) == seq(c + 1, _ => id);
      } else {
        assert Listed(next, k) == Listed(dispatchers, k);
      }
    }
  }

  /** Registering a new observer under an id not yet in use keeps the dispatch
      entries in agreement with the observers' declared properties. */
  lemma SubscribeIndexed<V>(watchers: map<nat, Observer<V>>, dispatchers: map<string, seq<nat>>,
                            id: nat, observer: Observer<V>)
    requires Indexed(watchers, dispatchers) && id !in watchers
    ensures Indexed(watchers[id := observer], Subscribe(dispatchers, observer.props, id))
  {
    var w := watchers[id := observer];
    var d := Subscribe(dispatchers, observer.props, id);
    forall k, x | k in d && x in d[k] ensures x in w && k in w[x].props {
      SubscribeLists(dispatchers, observer.props, id, k);
      assert x in Listed(d, k);
      if x != id {
        assert x in Listed(dispatchers, k);
      } else {
        assert Count(observer.props, k) > 0;
      }
    }
    forall x, k | x in w && k in w[x].props ensures k in d && x in d[k] {
      SubscribeLists(dispatchers, observer.props, id, k);
      if x == id {
        var c := Count(observer.props, k);
        assert Listed(d, k)[|Listed(dispatchers, k)|] == id;
      } else {
        assert x in Listed(dispatchers, k);
        assert Listed(dispatchers, k) <= Listed(d, k);
      }
    }
  }
}
