/** Python's built-in `dict`, as far as the drift report uses it: a finite
    mapping whose keys also carry the order in which they were inserted,
    since iteration over a dict visits its keys in that order. */
module PyDict {

  /** `order` lists the keys in insertion order; `entries` maps each key to
      its value. */
  datatype Dict<K, V> = Dict(order: seq<K>, entries: map<K, V>) {

    /** Every key is listed exactly once, and nothing else is listed. */
    ghost predicate Valid() {
      && (forall i, j :: 0 <= i < j < |order| ==> order[i] != order[j])
      && entries.Keys == set k | k in order
    }
  }

  /** The dictionaries a Python program can actually hold. */
  type PyDict<K, V> = d: Dict<K, V> | d.Valid() witness Dict([], map[])

  /** `{}`: the empty dictionary. */
  function Empty<K, V>(): (d: PyDict<K, V>)
    ensures d.order == [] && d.entries == map[]
  {
    Dict([], map[])
  }

  /** `d[k] = v`: a new key goes to the end of the iteration order, an
      existing key keeps its place and only its value changes. */
  function SetItem<K, V>(d: PyDict<K, V>, k: K, v: V): (r: PyDict<K, V>)
    ensures r.entries == d.entries[k := v]
    ensures k in d.entries ==> r.order == d.order
    ensures k !in d.entries ==> r.order == d.order + [k]
  {
    if k in d.entries then Dict(d.order, d.entries[k := v])
    else
      var r := Dict(d.order + [k], d.entries[k := v]);
      assert forall i :: 0 <= i < |d.order| ==> d.order[i] in d.entries;
      r
  }

  /** A dictionary has no keys exactly when it has nothing to iterate over. */
  lemma EmptyIffNoOrder<K, V>(d: PyDict<K, V>)
    ensures d.entries == map[] <==> d.order == []
  {
    if d.order != [] {
      assert d.order[0] in d.entries;
    }
  }
}
