/** Property values and the snapshots and data objects built from them. */
module Values {
  import opened Objects

  datatype Option<T> = None | Some(value: T)

  /** A property value. `Undefined` is also what reading a missing key gives. */
  datatype Val<V> = Undefined | Defined(value: V)

  /** A view of the whole store: property name to value (key order is not observed). */
  type Snapshot<V> = map<string, Val<V>>

  /** A plain object of property values whose key order is observed (`Object.keys`). */
  type Data<V> = Object<string, Val<V>>

  /** `map.get(k)` or `obj[k]`: a missing key reads as `Undefined`. */
  function Read<V>(s: Snapshot<V>, k: string): Val<V> {
    if k in s then s[k] else Undefined
  }

  /** The data holds `k`, with a value other than the store's (`!==`). */
  predicate Changed<V(==)>(store: Snapshot<V>, data: Data<V>, k: string) {
    k in data.vals && data.vals[k] != Read(store, k)
  }
}
