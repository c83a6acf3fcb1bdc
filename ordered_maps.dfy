/** A JavaScript `Map`: a finite map that also remembers the order in which its keys were
    first set. `set` on a present key replaces the value and keeps the key's place, and
    `Array.from(m.values())` lists the values in that order. */
module OrderedMaps {
  import opened Wrappers

  datatype OMap<K(==), V> = OMap(keys: seq<K>, entries: map<K, V>) {

    /** The keys are distinct and are exactly the keys of `entries`. */
    ghost predicate Valid() {
      && (forall i, j :: 0 <= i < j < |keys| ==> keys[i] != keys[j])
      && (forall k :: k in entries ==> k in keys)
      && (forall i :: 0 <= i < |keys| ==> keys[i] in entries)
    }

    /** `m.get(k)`: `undefined` for an absent key. */
    function Get(k: K): Option<V> {
      if k in entries then Some(entries[k]) else None
    }

    /** `m.set(k, v)`. */
    function Set(k: K, v: V): (r: OMap<K, V>)
      requires Valid()
      ensures r.Valid()
    {
      OMap(if k in entries then keys else keys + [k], entries[k := v])
    }

    /** `Array.from(m.values())`. */
    function Values(): (vs: seq<V>)
      requires Valid()
      ensures |vs| == |keys|
      ensures forall i :: 0 <= i < |keys| ==> vs[i] == entries[keys[i]]
    {
      seq(|keys|, i requires 0 <= i < |keys| => entries[keys[i]])
    }
  }

  function Empty<K(==), V>(): (m: OMap<K, V>)
    ensures m.Valid() && m.keys == []
  {
    OMap([], map[])
  }

  /** The map built by setting each value under its key, left to right (`forEach` + `set`). */
  function FromSeq<K(==), V>(vs: seq<V>, key: V -> K): (m: OMap<K, V>)
    ensures m.Valid()
    decreases |vs|
  {
    if vs == [] then Empty() else FromSeq(vs[..|vs| - 1], key).Set(key(vs[|vs| - 1]), vs[|vs| - 1])
  }

  /** After `set`, the key holds the new value and every other key keeps its value. */
  lemma SetGet<K, V>(m: OMap<K, V>, k: K, v: V, k': K)
    requires m.Valid()
    ensures m.Set(k, v).Get(k) == Some(v)
    ensures k' != k ==> m.Set(k, v).Get(k') == m.Get(k')
  {
  }

  /** Setting a new key appends its value to the listing. */
  lemma SetNewKeyAppends<K, V>(m: OMap<K, V>, k: K, v: V)
    requires m.Valid() && k !in m.entries
    ensures m.Set(k, v).Values() == m.Values() + [v]
  {
  }

  /** Setting a present key replaces its value in place: the listing keeps its length and
      changes only at that key's position. */
  lemma SetPresentKeyReplaces<K, V>(m: OMap<K, V>, k: K, v: V)
    requires m.Valid() && k in m.entries
    ensures |m.Set(k, v).Values()| == |m.Values()|
    ensures forall i :: 0 <= i < |m.keys| ==>
      m.Set(k, v).Values()[i] == if m.keys[i] == k then v else m.Values()[i]
  {
  }

  /** The value stored under a key appears in the listing. */
  lemma ValueListed<K, V>(m: OMap<K, V>, k: K)
    requires m.Valid() && k in m.entries
    ensures m.entries[k] in m.Values()
  {
    var i :| 0 <= i < |m.keys| && m.keys[i] == k;
    assert m.Values()[i] == m.entries[k];
  }

  /** Everything in the listing is stored under some key. */
  lemma ListedValueStored<K, V>(m: OMap<K, V>, v: V)
    requires m.Valid() && v in m.Values()
    ensures exists k :: k in m.entries && m.entries[k] == v
  {
    var i :| 0 <= i < |m.Values()| && m.Values()[i] == v;
    assert m.keys[i] in m.entries;
  }

  /** Building from values with distinct keys keeps every value, in order. */
  lemma {:induction false} FromDistinctSeqValues<K, V>(vs: seq<V>, key: V -> K)
    requires forall i, j :: 0 <= i < j < |vs| ==> key(vs[i]) != key(vs[j])
    ensures FromSeq(vs, key).Values() == vs
    decreases |vs|
  {
    if vs != [] {
      var init := vs[..|vs| - 1];
      var last := vs[|vs| - 1];
      FromDistinctSeqValues(init, key);
      var m := FromSeq(init, key);
      KeysOfDistinctSeq(init, key);
      assert forall i :: 0 <= i < |m.keys| ==> m.keys[i] != key(last) by {
        forall i | 0 <= i < |m.keys| ensures m.keys[i] != key(last) {
          assert m.keys[i] == key(vs[i]);
        }
      }
      SetNewKeyAppends(m, key(last), last);
    }
  }

  /** Building from values with distinct keys lists their keys in order. */
  lemma {:induction false} KeysOfDistinctSeq<K, V>(vs: seq<V>, key: V -> K)
    requires forall i, j :: 0 <= i < j < |vs| ==> key(vs[i]) != key(vs[j])
    ensures |FromSeq(vs, key).keys| == |vs|
    ensures forall i :: 0 <= i < |vs| ==> FromSeq(vs, key).keys[i] == key(vs[i])
    decreases |vs|
  {
    if vs != [] {
      var init := vs[..|vs| - 1];
      KeysOfDistinctSeq(init, key);
      var m := FromSeq(init, key);
      var last := vs[|vs| - 1];
      assert forall i :: 0 <= i < |m.keys| ==> m.keys[i] != key(last) by {
        forall i | 0 <= i < |m.keys| ensures m.keys[i] != key(last) {
          assert m.keys[i] == key(vs[i]);
        }
      }
    }
  }
}
