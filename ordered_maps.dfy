/** The Python `dict` semantics the fire-support stage relies on: assignment
    to a new key appends it to the iteration order, assignment to an existing
    key replaces its value and keeps its place. */
module OrderedMaps {

  datatype OrderedMap<K(==), V> = OrderedMap(keys: seq<K>, entries: map<K, V>)

  /** The iteration order lists each key of the dictionary exactly once. */
  ghost predicate Valid<K, V>(d: OrderedMap<K, V>)
  {
    && (forall i, j :: 0 <= i < j < |d.keys| ==> d.keys[i] != d.keys[j])
    && d.entries.Keys == KeySet(d)
  }

  /** The keys listed in the iteration order, as a set. */
  ghost function KeySet<K, V>(d: OrderedMap<K, V>): set<K>
  {
    set i | 0 <= i < |d.keys| :: d.keys[i]
  }

  function Empty<K, V>(): (d: OrderedMap<K, V>)
    ensures Valid(d) && d.keys == [] && d.entries == map[]
  {
    OrderedMap([], map[])
  }

  /** `d[k] = v` */
  function Put<K, V>(d: OrderedMap<K, V>, k: K, v: V): (d': OrderedMap<K, V>)
    requires Valid(d)
    ensures Valid(d')
    ensures d'.entries == d.entries[k := v]
    ensures k in d.entries ==> d'.keys == d.keys
    ensures k !in d.entries ==> d'.keys == d.keys + [k]
  {
    if k in d.entries then OrderedMap(d.keys, d.entries[k := v])
    else
      var d' := OrderedMap(d.keys + [k], d.entries[k := v]);
      assert KeySet(d') == KeySet(d) + {k} by {
        assert forall i :: 0 <= i < |d.keys| ==> d'.keys[i] == d.keys[i];
        assert d'.keys[|d.keys|] == k;
      }
      d'
  }

  lemma {:induction false} ValidSize<K, V>(d: OrderedMap<K, V>)
    requires Valid(d)
    ensures |d.entries| == |d.keys|
    decreases |d.keys|
  {
    if d.keys != [] {
      var k := d.keys[|d.keys| - 1];
      var rest := OrderedMap(d.keys[..|d.keys| - 1], d.entries - {k});
      assert forall i :: 0 <= i < |rest.keys| ==> rest.keys[i] == d.keys[i];
      assert forall x :: x in rest.keys ==> x != k;
      assert KeySet(d) == KeySet(rest) + {k};
      ValidSize(rest);
      assert d.entries.Keys == rest.entries.Keys + {k};
    }
  }
}
