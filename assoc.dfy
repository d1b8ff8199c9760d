/**
 * Ordered association lists: the model of a JavaScript object whose key order
 * matters (`Object.keys`, `for ... in` and `Object.entries` all follow it).
 */
module Assoc {
  import opened Wrappers

  type Assoc<V> = seq<(string, V)>

  /** `Object.keys(m)`: the keys in insertion order. */
  function Keys<V>(m: Assoc<V>): (ks: seq<string>)
    ensures |ks| == |m|
    ensures forall i :: 0 <= i < |m| ==> ks[i] == m[i].0
  {
    seq(|m|, i requires 0 <= i < |m| => m[i].0)
  }

  /** A JavaScript object never holds the same key twice. */
  predicate UniqueKeys<V>(m: Assoc<V>) {
    forall i, j :: 0 <= i < j < |m| ==> m[i].0 != m[j].0
  }

  /** The position of the property `k`, if `m` has one. */
  function IndexOf<V>(m: Assoc<V>, k: string): (r: Option<nat>)
    ensures r.None? ==> forall i :: 0 <= i < |m| ==> m[i].0 != k
    ensures r.Some? ==> r.value < |m| && m[r.value].0 == k
    ensures r.Some? ==> forall i :: 0 <= i < r.value ==> m[i].0 != k
  {
    if m == [] then None
    else if m[0].0 == k then Some(0)
    else match IndexOf(m[1..], k)
      case None => None
      case Some(i) => Some(i + 1)
  }

  /** `m[k]`: the value under `k`, or `None` for an absent property. */
  function Get<V>(m: Assoc<V>, k: string): (r: Option<V>)
    ensures r.Some? <==> k in Keys(m)
  {
    match IndexOf(m, k)
    case None => None
    case Some(i) => Some(m[i].1)
  }

  /** `Object.keys(m)[0]`, which is `undefined` for an empty object. */
  function FirstKey<V>(m: Assoc<V>): (r: Option<string>)
    ensures r.Some? <==> |m| > 0
    ensures r.Some? ==> r.value == Keys(m)[0]
  {
    if m == [] then None else Some(m[0].0)
  }

  /**
   * `m[k] = v`: an existing property keeps its position and takes the new value,
   * a new property is appended.
   */
  function Put<V>(m: Assoc<V>, k: string, v: V): (r: Assoc<V>)
    ensures k in Keys(m) ==> Keys(r) == Keys(m)
    ensures k !in Keys(m) ==> r == m + [(k, v)]
  {
    match IndexOf(m, k)
    case None => m + [(k, v)]
    case Some(i) => m[i := (k, v)]
  }

  /** After `m[k] = v`, reading `k` gives `v` and every other key reads as before. */
  lemma GetAfterPut<V>(m: Assoc<V>, k: string, v: V, k': string)
    ensures Get(Put(m, k, v), k') == if k' == k then Some(v) else Get(m, k')
  {
    var r := Put(m, k, v);
    if k' != k {
      match IndexOf(m, k')
      case None =>
        assert forall i :: 0 <= i < |r| ==> r[i].0 != k';
      case Some(j) =>
        assert r[j] == m[j];
        assert IndexOf(r, k') == Some(j);
    } else {
      match IndexOf(m, k)
      case None =>
        assert r[|m|].0 == k;
        assert IndexOf(r, k) == Some(|m|);
      case Some(i) =>
        assert r[i].0 == k;
        assert IndexOf(r, k) == Some(i);
    }
  }

  /** In an object, the value found under the key at position `i` is the one stored there. */
  lemma GetAtUniqueKey<V>(m: Assoc<V>, i: nat)
    requires UniqueKeys(m)
    requires i < |m|
    ensures IndexOf(m, m[i].0) == Some(i)
    ensures Get(m, m[i].0) == Some(m[i].1)
  {
  }
}
