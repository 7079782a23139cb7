/** A Python dict with string keys: a value per key, iterated in first-insertion order. */
module PyDicts {

  datatype Dict<V> = Dict(keys: seq<string>, values: map<string, V>) {

    /** Keys are listed once each, and exactly the keys that hold a value are listed. */
    ghost predicate Valid()
    {
      (forall i, j :: 0 <= i < j < |keys| ==> keys[i] != keys[j])
      && (forall k :: k in values <==> k in keys)
    }

    /**
     * d[k] = v: a new key goes to the end of the iteration order, an existing
     * key keeps its place and only its value changes.
     */
    function Put(k: string, v: V): (d: Dict<V>)
      ensures Valid() ==> d.Valid()
      ensures k in d.values && d.values[k] == v
      ensures forall k' :: k' != k ==> (k' in d.values <==> k' in values) && (k' in values ==> d.values[k'] == values[k'])
      ensures |keys| <= |d.keys| <= |keys| + 1 && d.keys[..|keys|] == keys
      ensures Valid() ==> (|d.keys| == |keys| + 1 <==> k !in values)
    {
      if k in values then Dict(keys, values[k := v]) else Dict(keys + [k], values[k := v])
    }
  }

  function Empty<V>(): (d: Dict<V>)
    ensures d.Valid() && d.keys == []
  {
    Dict([], map[])
  }
}
