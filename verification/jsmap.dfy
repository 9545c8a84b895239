/**
 * A JavaScript `Map` with string keys: a dictionary that also remembers
 * the order in which keys were first inserted. `set` on a present key keeps
 * its position, `delete` removes it, and `values()` iterates in that order.
 */
module JsMap {
  import opened Wrappers

  /** `keys` without the key `k`, the others in their original order. */
  function RemoveKey(keys: seq<string>, k: string): (r: seq<string>)
    ensures forall x :: x in r <==> x in keys && x != k
    ensures |r| <= |keys|
    ensures k !in keys ==> r == keys
    ensures Distinct(keys) ==> Distinct(r)
  {
    if keys == [] then []
    else if keys[0] == k then RemoveKey(keys[1..], k)
    else
      var rest := RemoveKey(keys[1..], k);
      assert Distinct(keys) ==> keys[0] !in keys[1..];
      [keys[0]] + rest
  }

  predicate Distinct(keys: seq<string>)
  {
    forall i, j :: 0 <= i < j < |keys| ==> keys[i] != keys[j]
  }

  /** The values stored under `keys`, in that order. */
  function ValuesOf<V>(keys: seq<string>, entries: map<string, V>): (r: seq<V>)
    requires forall k :: k in keys ==> k in entries
    ensures |r| == |keys|
    ensures forall i :: 0 <= i < |keys| ==> r[i] == entries[keys[i]]
  {
    if keys == [] then [] else [entries[keys[0]]] + ValuesOf(keys[1..], entries)
  }

  datatype JsMap<V> = JsMap(keys: seq<string>, entries: map<string, V>) {

    /** The insertion order lists every key exactly once. */
    ghost predicate Valid()
    {
      && Distinct(keys)
      && (forall k :: k in entries <==> k in keys)
      && (forall i :: 0 <= i < |keys| ==> keys[i] in entries)
    }

    /** `m.get(k)`. */
    function Get(k: string): (r: Option<V>)
      ensures r.Some? <==> k in entries
      ensures r.Some? ==> r.value == entries[k]
    {
      if k in entries then Some(entries[k]) else None
    }

    /** `m.set(k, v)`: a new key goes to the end, a present key keeps its place. */
    function Set(k: string, v: V): (r: JsMap<V>)
      requires Valid()
      ensures r.Valid()
      ensures r.entries == entries[k := v]
      ensures k in entries ==> r.keys == keys
      ensures k !in entries ==> r.keys == keys + [k]
    {
      if k in entries then JsMap(keys, entries[k := v]) else JsMap(keys + [k], entries[k := v])
    }

    /** `m.delete(k)`: the key leaves both the dictionary and the order. */
    function Delete(k: string): (r: JsMap<V>)
      requires Valid()
      ensures r.Valid()
      ensures r.entries == entries - {k}
      ensures r.keys == RemoveKey(keys, k)
      ensures k !in entries ==> r == this
    {
      JsMap(RemoveKey(keys, k), entries - {k})
    }

    /** `Array.from(m.values())`. */
    function Values(): (r: seq<V>)
      requires Valid()
      ensures |r| == |keys|
      ensures forall i :: 0 <= i < |keys| ==> r[i] == entries[keys[i]]
      ensures forall k :: k in entries ==> entries[k] in r
      ensures forall x :: x in r ==> exists k :: k in entries && entries[k] == x
    {
      var r := ValuesOf(keys, entries);
      assert forall k :: k in entries ==> entries[k] in r by {
        forall k | k in entries ensures entries[k] in r {
          var i :| 0 <= i < |keys| && keys[i] == k;
          assert r[i] == entries[k];
        }
      }
      r
    }
  }

  function Empty<V>(): (m: JsMap<V>)
    ensures m.Valid() && m.entries == map[]
  {
    JsMap([], map[])
  }
}
