/**
 * The engine's persistent key/value store (Unity's PlayerPrefs), restricted to
 * the integer entries this game uses, as an in-memory map.
 */
module Prefs {

  type Store = map<string, int>

  /** The stored value for `key`, or `default` when the key has never been written. */
  function GetInt(store: Store, key: string, default: int): int {
    if key in store then store[key] else default
  }

  /** Writes `value` under `key`, overwriting any earlier value. */
  function SetInt(store: Store, key: string, value: int): (r: Store)
    ensures GetInt(r, key, 0) == value
    ensures forall k, d :: k != key ==> GetInt(r, k, d) == GetInt(store, k, d)
  {
    store[key := value]
  }
}
