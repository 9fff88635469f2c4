/**
 * Association lists: a sequence of (key, value) pairs read from the front.
 * They stand for both an object literal's own entries, read with `obj[key]`,
 * and an ECMAScript `Map`, whose iteration order is the order in which keys
 * were first set.
 */
module Assoc {

  import opened Wrappers

  type Entries<K, V> = seq<(K, V)>

  /** The keys, in order. */
  function Keys<K, V>(m: Entries<K, V>): (ks: seq<K>)
    ensures |ks| == |m|
    ensures forall i :: 0 <= i < |m| ==> ks[i] == m[i].0
  {
    seq(|m|, i requires 0 <= i < |m| => m[i].0)
  }

  /** The values, in order. */
  function Values<K, V>(m: Entries<K, V>): (vs: seq<V>)
    ensures |vs| == |m|
    ensures forall i :: 0 <= i < |m| ==> vs[i] == m[i].1
  {
    seq(|m|, i requires 0 <= i < |m| => m[i].1)
  }

  /** No key occurs twice, as in every `Map`. */
  predicate DistinctKeys<K(==), V>(m: Entries<K, V>) {
    forall i, j :: 0 <= i < j < |m| ==> m[i].0 != m[j].0
  }

  /** `obj[key]` or `map.get(key)`: the value beside the first occurrence of the key; `None` stands for `undefined`. */
  function Get<K(==), V>(m: Entries<K, V>, key: K): Option<V> {
    GetFrom(m, key, 0)
  }

  /** The value beside the first occurrence of the key at or after index `i`. */
  function GetFrom<K(==), V>(m: Entries<K, V>, key: K, i: nat): Option<V>
    requires i <= |m|
    decreases |m| - i
  {
    if i == |m| then None
    else if m[i].0 == key then Some(m[i].1)
    else GetFrom(m, key, i + 1)
  }

  lemma {:induction false} GetFromFound<K, V>(m: Entries<K, V>, key: K, i: nat)
    requires i <= |m| && GetFrom(m, key, i).Some?
    ensures exists k :: i <= k < |m| && m[k] == (key, GetFrom(m, key, i).value)
    decreases |m| - i
  {
    if m[i].0 != key {
      GetFromFound(m, key, i + 1);
    }
  }

  /** A value read stands beside its key. */
  lemma GetFound<K, V>(m: Entries<K, V>, key: K)
    requires Get(m, key).Some?
    ensures exists k :: 0 <= k < |m| && m[k] == (key, Get(m, key).value)
  {
    GetFromFound(m, key, 0);
  }

  lemma {:induction false} GetFromMissing<K, V>(m: Entries<K, V>, key: K, i: nat)
    requires i <= |m|
    ensures GetFrom(m, key, i).None? <==> forall k :: i <= k < |m| ==> m[k].0 != key
    decreases |m| - i
  {
    if i < |m| {
      GetFromMissing(m, key, i + 1);
    }
  }

  /** The read is `undefined` exactly when no entry has the key. */
  lemma GetMissing<K, V>(m: Entries<K, V>, key: K)
    ensures Get(m, key).None? <==> key !in Keys(m)
  {
    GetFromMissing(m, key, 0);
  }

  lemma {:induction false} GetFromFirst<K, V>(m: Entries<K, V>, key: K, i: nat, k: nat)
    requires i <= k < |m| && m[k].0 == key
    requires forall j :: i <= j < k ==> m[j].0 != key
    ensures GetFrom(m, key, i) == Some(m[k].1)
    decreases k - i
  {
    if i < k {
      GetFromFirst(m, key, i + 1, k);
    }
  }

  /** The value read is the one beside the first occurrence of the key. */
  lemma GetFirst<K, V>(m: Entries<K, V>, k: nat, key: K)
    requires k < |m| && m[k].0 == key
    requires forall j :: 0 <= j < k ==> m[j].0 != key
    ensures Get(m, key) == Some(m[k].1)
  {
    GetFromFirst(m, key, 0, k);
  }

  /** With distinct keys, the value read at the key of entry `k` is that entry's value. */
  lemma GetDistinct<K, V>(m: Entries<K, V>, k: nat)
    requires DistinctKeys(m) && k < |m|
    ensures Get(m, m[k].0) == Some(m[k].1)
  {
    GetFirst(m, k, m[k].0);
  }

  /** `map.set(key, value)`: the entry of an existing key is updated in place, a new key is appended. */
  function Set<K(==), V>(m: Entries<K, V>, key: K, value: V): Entries<K, V> {
    SetFrom(m, key, value, 0)
  }

  function SetFrom<K(==), V>(m: Entries<K, V>, key: K, value: V, i: nat): Entries<K, V>
    requires i <= |m|
    decreases |m| - i
  {
    if i == |m| then m + [(key, value)]
    else if m[i].0 == key then m[i := (key, value)]
    else SetFrom(m, key, value, i + 1)
  }

  lemma {:induction false} SetFromShape<K, V>(m: Entries<K, V>, key: K, value: V, i: nat)
    requires i <= |m|
    requires forall j :: 0 <= j < i ==> m[j].0 != key
    ensures key in Keys(m) ==> exists k :: 0 <= k < |m| && m[k].0 == key && SetFrom(m, key, value, i) == m[k := (key, value)]
    ensures key !in Keys(m) ==> SetFrom(m, key, value, i) == m + [(key, value)]
    decreases |m| - i
  {
    if i < |m| && m[i].0 != key {
      SetFromShape(m, key, value, i + 1);
    }
  }

  /**
   * What `set` does to the keys and values: the keys gain `key` at the end when
   * it is new and are unchanged otherwise; `key` now reads `value`, and every
   * other key reads what it read before.
   */
  lemma SetEffect<K, V>(m: Entries<K, V>, key: K, value: V)
    requires DistinctKeys(m)
    ensures Keys(Set(m, key, value)) == if key in Keys(m) then Keys(m) else Keys(m) + [key]
    ensures DistinctKeys(Set(m, key, value))
    ensures var r := Set(m, key, value);
      forall j :: 0 <= j < |r| && r[j].0 != key ==> Get(m, r[j].0) == Some(r[j].1)
    ensures var r := Set(m, key, value);
      forall j :: 0 <= j < |r| && r[j].0 == key ==> r[j].1 == value
  {
    SetFromShape(m, key, value, 0);
    var r := Set(m, key, value);
    forall j | 0 <= j < |r| && r[j].0 != key
      ensures Get(m, r[j].0) == Some(r[j].1)
    {
      assert r[j] == m[j];
      GetDistinct(m, j);
    }
  }
}
