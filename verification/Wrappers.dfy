/** What several modules need and no module owns. */
module Wrappers {

  datatype Option<T> = None | Some(value: T)

  function MapWithout<K, V>(m: map<K, V>, k: K): (r: map<K, V>)
    ensures r.Keys == m.Keys - {k} && forall x | x in r :: r[x] == m[x]
  {
    map x | x in m && x != k :: m[x]
  }

  function RemoveAt<T>(s: seq<T>, i: nat): (r: seq<T>)
    requires i < |s|
    ensures |r| == |s| - 1
  {
    s[..i] + s[i + 1..]
  }
}
