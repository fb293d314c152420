/**
 A Python dict as the Gantt scripts use it: a mapping that also remembers the
 order in which its keys were first inserted (iteration order, and the `len`
 the scripts read to pick the next lane slot or colour rank).
 */
module PyDict {
  import opened FirstSeen

  datatype Dict<K(==), V> = Dict(keys: seq<K>, entries: map<K, V>)
  {
    /** Each key is listed once, and exactly the mapped keys are listed. */
    ghost predicate Valid()
    {
      && Distinct(keys)
      && (forall k :: k in entries ==> k in keys)
      && (forall k :: k in keys ==> k in entries)
    }

    /** `len(d)`: the number of entries, which is also the length of the key order. */
    function Len(): (n: nat)
      requires Valid()
      ensures n == |keys|
    {
      SizeIsLength(this);
      |entries|
    }

    /** `d[k] = v`: a new key is appended to the order, an existing key keeps its place. */
    function Put(k: K, v: V): (d: Dict<K, V>)
      requires Valid()
      ensures d.Valid()
      ensures d.keys == Remember(keys, k)
      ensures d.entries == entries[k := v]
    {
      RememberDistinct(keys, k);
      Dict(Remember(keys, k), entries[k := v])
    }
  }

  /** A valid dict has one entry per listed key. */
  lemma SizeIsLength<K, V>(d: Dict<K, V>)
    requires d.Valid()
    ensures |d.entries| == |d.keys|
  {
    DistinctCardinality(d.keys);
    assert d.entries.Keys == set k | k in d.keys;
  }

  /** Assigning the same key twice leaves only the second value. */
  lemma PutPut<K, V>(d: Dict<K, V>, k: K, a: V, b: V)
    requires d.Valid()
    ensures d.Put(k, a).Put(k, b) == d.Put(k, b)
  {
    assert d.Put(k, a).Put(k, b).entries == d.Put(k, b).entries;
  }

  /** `{}`. */
  function Empty<K(==), V>(): (d: Dict<K, V>)
    ensures d.Valid() && d.keys == []
  {
    Dict([], map[])
  }
}
