/**
 * String-keyed tables that keep insertion order, the way Python dicts and
 * JavaScript objects iterate. A well-formed table has distinct keys.
 */
module Tables {
  import opened Wrappers

  type Table<V> = seq<(string, V)>

  predicate DistinctKeys<V>(t: Table<V>)
  {
    forall i, j :: 0 <= i < j < |t| ==> t[i].0 != t[j].0
  }

  predicate HasKey<V>(t: Table<V>, k: string)
  {
    exists i :: 0 <= i < |t| && t[i].0 == k
  }

  /** `d.get(k)`: the value of the first entry with key `k`. */
  function Get<V>(t: Table<V>, k: string): (r: Option<V>)
    ensures r.None? <==> !HasKey(t, k)
    ensures r.Some? ==> exists i :: 0 <= i < |t| && t[i] == (k, r.value)
    ensures DistinctKeys(t) ==> forall i :: 0 <= i < |t| && t[i].0 == k ==> r == Some(t[i].1)
  {
    if t == [] then None
    else if t[0].0 == k then Some(t[0].1)
    else Get(t[1..], k)
  }

  /** The value stored under an existing key. */
  function Lookup<V>(t: Table<V>, k: string): (v: V)
    requires HasKey(t, k)
    ensures Get(t, k) == Some(v)
  {
    Get(t, k).value
  }

  /** The value under `k`, or `default` (`d.get(k, default)`). */
  function GetOr<V>(t: Table<V>, k: string, default: V): (v: V)
    ensures HasKey(t, k) ==> Get(t, k) == Some(v)
    ensures !HasKey(t, k) ==> v == default
  {
    Get(t, k).GetOr(default)
  }

  /** `t[k] = v` for an existing key: the value changes in place, the order stays. */
  function SetValue<V>(t: Table<V>, k: string, v: V): (r: Table<V>)
    ensures |r| == |t|
    ensures forall i :: 0 <= i < |t| ==> r[i].0 == t[i].0 && (r[i].1 == if t[i].0 == k then v else t[i].1)
  {
    if t == [] then []
    else [(t[0].0, if t[0].0 == k then v else t[0].1)] + SetValue(t[1..], k, v)
  }

  /** `d[k] = v`: replace an existing key's value in place, or append a new key at the end. */
  function Put<V>(t: Table<V>, k: string, v: V): (r: Table<V>)
    ensures HasKey(t, k) ==> r == SetValue(t, k, v)
    ensures !HasKey(t, k) ==> r == t + [(k, v)]
  {
    if HasKey(t, k) then SetValue(t, k, v) else t + [(k, v)]
  }

  /** After `d[k] = v`, `k` holds `v`, every other key keeps its value, and the keys stay distinct. */
  lemma PutGet<V>(t: Table<V>, k: string, v: V, other: string)
    requires DistinctKeys(t)
    ensures DistinctKeys(Put(t, k, v))
    ensures Get(Put(t, k, v), k) == Some(v)
    ensures other != k ==> Get(Put(t, k, v), other) == Get(t, other)
  {
    var r := Put(t, k, v);
    if HasKey(t, k) {
      var i :| 0 <= i < |t| && t[i].0 == k;
      assert r[i] == (k, v);
    } else {
      assert r[|t|] == (k, v);
    }
    if other != k && HasKey(t, other) {
      var i :| 0 <= i < |t| && t[i].0 == other;
      assert r[i] == t[i];
    }
    if other != k && HasKey(r, other) {
      var i :| 0 <= i < |r| && r[i].0 == other;
      assert i < |t| && t[i].0 == other;
    }
  }

  function Keys<V>(t: Table<V>): (r: seq<string>)
    ensures |r| == |t| && forall i :: 0 <= i < |t| ==> r[i] == t[i].0
  {
    seq(|t|, i requires 0 <= i < |t| => t[i].0)
  }

  /** The keys whose value satisfies `p`, in table order. */
  function KeysWhere<V>(t: Table<V>, p: V -> bool): (r: seq<string>)
    ensures forall k :: k in r <==> exists i :: 0 <= i < |t| && t[i].0 == k && p(t[i].1)
  {
    if t == [] then []
    else (if p(t[0].1) then [t[0].0] else []) + KeysWhere(t[1..], p)
  }
}
