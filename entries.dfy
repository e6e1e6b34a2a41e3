/**
 * Association lists with distinct keys: the model of a Java `Map` seen through
 * its iteration order.  `Put` is `LinkedHashMap.put`: an existing key keeps
 * its position and takes the new value, a new key goes to the end.
 */
module Entries {
  import opened Wrappers

  predicate DistinctKeys<V>(s: seq<(string, V)>) {
    forall i, j | 0 <= i < j < |s| :: s[i].0 != s[j].0
  }

  /** The keys in iteration order (`keySet()` copied into a list). */
  function Keys<V>(s: seq<(string, V)>): (ks: seq<string>)
    ensures |ks| == |s|
    ensures forall i | 0 <= i < |s| :: ks[i] == s[i].0
  {
    if s == [] then [] else [s[0].0] + Keys(s[1..])
  }

  /** `Map.get`: the value stored under `k`, or `None`. */
  function Get<V>(s: seq<(string, V)>, k: string): (r: Option<V>)
    ensures r.Some? <==> k in Keys(s)
    ensures r.Some? ==> exists i | 0 <= i < |s| :: s[i] == (k, r.value)
  {
    if s == [] then None
    else if s[0].0 == k then Some(s[0].1)
    else Get(s[1..], k)
  }

  /** A key at a known position is found with the value stored there. */
  lemma {:induction false} GetAt<V>(s: seq<(string, V)>, i: nat)
    requires DistinctKeys(s)
    requires i < |s|
    ensures Get(s, s[i].0) == Some(s[i].1)
  {
    if i > 0 {
      assert s[1..][i - 1] == s[i];
      GetAt(s[1..], i - 1);
    }
  }

  /** `Map.put` on an insertion-ordered map. */
  function Put<V>(s: seq<(string, V)>, k: string, v: V): (r: seq<(string, V)>)
    requires DistinctKeys(s)
    ensures DistinctKeys(r)
    ensures k in Keys(s) ==> Keys(r) == Keys(s)
    ensures k !in Keys(s) ==> Keys(r) == Keys(s) + [k]
  {
    if s == [] then [(k, v)]
    else if s[0].0 == k then
      assert k !in Keys(s[1..]);
      var r := [(k, v)] + s[1..];
      assert r[1..] == s[1..];
      r
    else
      var tail := Put(s[1..], k, v);
      var r := [s[0]] + tail;
      assert r[1..] == tail;
      assert Keys(s) == [s[0].0] + Keys(s[1..]);
      assert Keys(r) == [s[0].0] + Keys(tail);
      assert s[0].0 !in Keys(s[1..]);
      DistinctCons(s[0], tail);
      r
  }

  lemma DistinctCons<V>(x: (string, V), tail: seq<(string, V)>)
    requires DistinctKeys(tail) && x.0 !in Keys(tail)
    ensures DistinctKeys([x] + tail)
  {
    var r := [x] + tail;
    forall i, j | 0 <= i < j < |r| ensures r[i].0 != r[j].0 {
      if i == 0 {
        assert r[j].0 == Keys(tail)[j - 1];
      } else {
        assert r[i] == tail[i - 1] && r[j] == tail[j - 1];
      }
    }
  }

  /** After `Put(s, k, v)` the key `k` holds `v` and every other key holds what it held. */
  lemma {:induction false} PutGet<V>(s: seq<(string, V)>, k: string, v: V, other: string)
    requires DistinctKeys(s)
    ensures Get(Put(s, k, v), k) == Some(v)
    ensures other != k ==> Get(Put(s, k, v), other) == Get(s, other)
  {
    var r := Put(s, k, v);
    if s == [] {
      assert r[1..] == [];
    } else if s[0].0 == k {
      assert r[0] == (k, v) && r[1..] == s[1..];
    } else {
      var tail := s[1..];
      assert r[0] == s[0] && r[1..] == Put(tail, k, v);
      PutGet(tail, k, v, other);
      assert Get(r, k) == Get(Put(tail, k, v), k);
      if other != k && s[0].0 != other {
        assert Get(r, other) == Get(Put(tail, k, v), other);
        assert Get(s, other) == Get(tail, other);
      }
    }
  }

  /** `new HashMap<>(m)` as a Dafny map: the same keys, the same values. */
  function ToMap<V>(s: seq<(string, V)>): (m: map<string, V>)
    ensures m.Keys == set i | 0 <= i < |s| :: s[i].0
    ensures forall k | k in m :: Get(s, k) == Some(m[k])
  {
    if s == [] then map[]
    else
      var rest := ToMap(s[1..]);
      assert forall k | k in rest :: k in Keys(s[1..]);
      rest[s[0].0 := s[0].1]
  }
}
