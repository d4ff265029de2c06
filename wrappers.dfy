/** Small value types shared by the other modules. */
module Wrappers {

  /** A value that may be missing: a failed external step, or an absent entry. */
  datatype Option<+T> = None | Some(value: T)

  /** A dictionary lookup with a fallback, as Python's `dict.get(key, default)` does it:
      the stored value when the key is present, the fallback otherwise. */
  function Get<K, V>(m: map<K, V>, key: K, default: V): (v: V)
    ensures key in m ==> v == m[key]
    ensures key !in m ==> v == default
  {
    if key in m then m[key] else default
  }
}
