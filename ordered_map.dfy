/**
 * An insertion-ordered dictionary, as Python's OrderedDict: a sequence of
 * distinct keys in insertion order and the map from each key to its value.
 */
module OrderedMaps {

  /** No element comes twice: the keys of a dictionary, the members of a set enumerated. */
  ghost predicate Distinct<T>(s: seq<T>)
  {
    forall i, j :: 0 <= i < j < |s| ==> s[i] != s[j]
  }

  datatype OrderedMap<K(!new), V> = OrderedMap(keys: seq<K>, entries: map<K, V>) {

    /** The keys are distinct and are exactly the keys of the map. */
    ghost predicate Valid() {
      && Distinct(keys)
      && (forall k :: k in entries <==> k in keys)
    }

    /**
     * `d[k] = v`: `k` now maps to `v`; every other entry and the order of
     * the existing keys are unchanged, and a new key goes to the end.
     */
    function Set(k: K, v: V): OrderedMap<K, V>
    {
      OrderedMap(if k in keys then keys else keys + [k], entries[k := v])
    }

    /** `d.values()`: the values in key order. */
    function Values(): (vs: seq<V>)
      requires Valid()
      ensures |vs| == |keys|
      ensures forall i :: 0 <= i < |keys| ==> vs[i] == entries[keys[i]]
    {
      seq(|keys|, i requires 0 <= i < |keys| => entries[keys[i]])
    }
  }

  function Empty<K(!new), V>(): (r: OrderedMap<K, V>)
    ensures r.Valid() && r.keys == [] && r.entries == map[]
  {
    OrderedMap([], map[])
  }

  /**
   * What `d[k] = v` promises: `k` maps to `v`, every other key keeps its
   * value, the existing keys keep their order, and a new key goes to the end.
   */
  lemma SetSpec<K(!new), V>(d: OrderedMap<K, V>, k: K, v: V)
    ensures var r := d.Set(k, v);
            && k in r.keys && k in r.entries && r.entries[k] == v
            && |d.keys| <= |r.keys| <= |d.keys| + 1 && r.keys[..|d.keys|] == d.keys
            && (k !in d.keys ==> r.keys == d.keys + [k])
            && (forall k' :: k' != k ==> (k' in r.entries <==> k' in d.entries))
            && (forall k' :: k' != k && k' in d.entries ==> r.entries[k'] == d.entries[k'])
  {
  }

  /** Assignment keeps the keys distinct and in step with the map. */
  lemma SetValid<K(!new), V>(d: OrderedMap<K, V>, k: K, v: V)
    requires d.Valid()
    ensures d.Set(k, v).Valid()
  {
  }

  /** Assigning a key twice is the same as assigning it once, with the second value. */
  lemma SetTwice<K(!new), V>(d: OrderedMap<K, V>, k: K, a: V, b: V)
    requires d.Valid()
    ensures d.Set(k, a).Set(k, b) == d.Set(k, b)
  {
    assert d.entries[k := a][k := b] == d.entries[k := b];
  }
}
