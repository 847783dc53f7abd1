/**
 * A JavaScript `Map`: a finite map that remembers the order in which its keys
 * were first inserted. `set` on a present key replaces the value and keeps the
 * key's position; iteration (`entries()`, `values()`) follows insertion order.
 */
module JsMaps {
  import opened Wrappers

  datatype JsMap<K(==), V> = JsMap(keys: seq<K>, m: map<K, V>) {

    /** The keys are distinct and are exactly the keys of the map. */
    ghost predicate Valid() {
      && (forall i, j :: 0 <= i < j < |keys| ==> keys[i] != keys[j])
      && (forall k | k in m :: k in keys)
      && (forall i | 0 <= i < |keys| :: keys[i] in m)
    }

    predicate Has(k: K) {
      k in m
    }

    function Get(k: K): (r: Option<V>)
      ensures r.Some? <==> k in m
      ensures r.Some? ==> r.value == m[k]
    {
      if k in m then Some(m[k]) else None
    }

    /** `map.set(k, v)`. */
    function Set(k: K, v: V): (r: JsMap<K, V>)
      ensures Valid() ==> r.Valid()
      ensures r.m == m[k := v]
      ensures r.keys == if k in m then keys else keys + [k]
    {
      var r := JsMap(if k in m then keys else keys + [k], m[k := v]);
      assert Valid() ==> r.Valid() by {
        if Valid() && k !in m {
          assert forall i :: 0 <= i < |keys| ==> keys[i] != k;
        }
      }
      r
    }

    /** The pairs `map.entries()` yields, in insertion order. */
    function Entries(): (r: seq<(K, V)>)
      requires Valid()
      ensures |r| == |keys|
      ensures forall i :: 0 <= i < |r| ==> r[i].0 == keys[i] && r[i].1 == m[keys[i]]
    {
      seq(|keys|, i requires 0 <= i < |keys| => (keys[i], m[keys[i]]))
    }

    /** The values `map.values()` yields, in insertion order. */
    function Values(): (r: seq<V>)
      requires Valid()
      ensures |r| == |keys|
      ensures forall i :: 0 <= i < |r| ==> r[i] == m[keys[i]]
    {
      seq(|keys|, i requires 0 <= i < |keys| => m[keys[i]])
    }
  }

  /** `new Map()`. */
  function Empty<K(==), V>(): (r: JsMap<K, V>)
    ensures r.Valid() && r.keys == [] && r.m == map[]
  {
    JsMap([], map[])
  }
}
