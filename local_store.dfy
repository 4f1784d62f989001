/**
 * The host's local storage as a map from key to stored text, and the three
 * mutation primitives the bridge wraps, as they behave unwrapped.
 */
module LocalStore {

  type Store = map<string, string>

  /** A call on one of the three wrapped primitives: `setItem(k, v)`, `removeItem(k)`, `clear()`. */
  datatype LocalOp = SetOp(key: string, text: string) | RemoveOp(key: string) | ClearOp

  /** Local storage after the unwrapped primitive: set stores the text, remove drops the key, clear empties. */
  function After(m: Store, op: LocalOp): (r: Store)
    ensures op.SetOp? ==> r.Keys == m.Keys + {op.key} && r[op.key] == op.text
    ensures op.RemoveOp? ==> r.Keys == m.Keys - {op.key}
    ensures op.ClearOp? ==> |r| == 0
    ensures !op.ClearOp? ==> forall j | j in m && j != op.key :: j in r && r[j] == m[j]
  {
    match op
    case SetOp(k, v) => m[k := v]
    case RemoveOp(k) => m - {k}
    case ClearOp => map[]
  }
}
