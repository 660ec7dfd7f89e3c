/** Stock types, and maps cut down to some of their keys. */
module Wrappers {
  datatype Option<+T> = None | Some(value: T)

  function Only<K, V>(m: map<K, V>, keys: seq<K>): map<K, V>
    requires forall k :: k in keys ==> k in m
  {
    map k | k in keys :: m[k]
  }

  lemma {:induction false} OverrideFirst<K, V>(got: map<K, V>, m: map<K, V>, keys: seq<K>)
    requires keys != [] && forall k :: k in keys ==> k in m
    ensures got[keys[0] := m[keys[0]]] + Only(m, keys[1..]) == got + Only(m, keys)
  {
    assert keys == [keys[0]] + keys[1..];
  }
}
