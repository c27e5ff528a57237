/** Python's `dict`: a finite map that remembers the order in which keys were first inserted. */
module Dict {

  datatype Dict<K(==), V> = Dict(keys: seq<K>, values: map<K, V>) {

    /** Keys are listed once each, and exactly the mapped keys are listed. */
    ghost predicate Valid() {
      && (forall i, j | 0 <= i < j < |keys| :: keys[i] != keys[j])
      && (forall k | k in values :: k in keys)
      && (forall i | 0 <= i < |keys| :: keys[i] in values)
    }

    /** `len(d)` */
    function Len(): nat {
      |keys|
    }

    /**
     * `d[k] = v`: a new key goes to the end of the order; an existing key keeps
     * its place and gets the new value.
     */
    function Put(k: K, v: V): (d: Dict<K, V>)
      requires Valid()
      ensures d.Valid()
      ensures d.values == values[k := v]
      ensures k in values ==> d.keys == keys
      ensures k !in values ==> d.keys == keys + [k]
    {
      if k in values then Dict(keys, values[k := v]) else Dict(keys + [k], values[k := v])
    }

    /** `list(d.values())`, in key order. */
    function Values(): (r: seq<V>)
      requires Valid()
      ensures |r| == |keys|
      ensures forall i | 0 <= i < |keys| :: r[i] == values[keys[i]]
    {
      seq(|keys|, i requires 0 <= i < |keys| => values[keys[i]])
    }
  }

  /** `{}` */
  function Empty<K(==), V>(): (d: Dict<K, V>)
    ensures d.Valid() && d.keys == [] && d.values == map[]
  {
    Dict([], map[])
  }
}
