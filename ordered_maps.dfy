/**
 * JavaScript's `Map`: a finite map whose iteration order is the order in which
 * keys were first inserted. `set` on a key that is already present replaces its
 * value and keeps its position; `delete` removes the key and closes the gap.
 * Every accumulator of the game server (the roster, the night and day votes,
 * the vote counts, the room registry) is such a map.
 */
module OrderedMaps {
  import opened Options

  datatype OrderedMap<K(==,!new), V> = OrderedMap(keys: seq<K>, vals: map<K, V>) {

    /** The keys are distinct and are exactly the domain of the lookup map. */
    ghost predicate Valid() {
      && Distinct(keys)
      && (forall k :: k in vals <==> k in keys)
    }

    /** `map.size` */
    function Size(): nat { |keys| }

    /** `map.has(k)` */
    predicate Has(k: K) { k in vals }

    /** `map.get(k)`, with `undefined` as `None` */
    function Get(k: K): (r: Option<V>)
      ensures r.Some? <==> k in vals
      ensures r.Some? ==> r.value == vals[k]
    {
      if k in vals then Some(vals[k]) else None
    }

    /** `map.set(k, v)` */
    function Put(k: K, v: V): (m: OrderedMap<K, V>)
      ensures m.vals == vals[k := v]
      ensures k in vals ==> m.keys == keys
      ensures k !in vals ==> m.keys == keys + [k]
    {
      if k in vals then OrderedMap(keys, vals[k := v])
      else OrderedMap(keys + [k], vals[k := v])
    }

    /** `map.delete(k)` */
    function Delete(k: K): (m: OrderedMap<K, V>)
      ensures m.vals == vals - {k}
      ensures m.keys == RemoveAll(keys, k)
    {
      OrderedMap(RemoveAll(keys, k), vals - {k})
    }

    /** `[...map.values()]`: the values in key order */
    function Values(): (vs: seq<V>)
      requires Valid()
      ensures |vs| == |keys|
      ensures forall i :: 0 <= i < |keys| ==> vs[i] == vals[keys[i]]
    {
      ValuesOf(keys, vals)
    }
  }

  function Empty<K(==,!new), V>(): (m: OrderedMap<K, V>)
    ensures m.Valid() && m.keys == [] && m.vals == map[]
  {
    OrderedMap([], map[])
  }

  /** `keys` with every occurrence of `k` taken out, the others kept in order. */
  function RemoveAll<K(==,!new)>(keys: seq<K>, k: K): (r: seq<K>)
    ensures forall x :: x in r <==> x in keys && x != k
    ensures |r| <= |keys|
  {
    if keys == [] then []
    else if keys[0] == k then RemoveAll(keys[1..], k)
    else [keys[0]] + RemoveAll(keys[1..], k)
  }

  function ValuesOf<K, V>(keys: seq<K>, vals: map<K, V>): (vs: seq<V>)
    requires forall k :: k in keys ==> k in vals
    ensures |vs| == |keys|
    ensures forall i :: 0 <= i < |keys| ==> vs[i] == vals[keys[i]]
  {
    if keys == [] then [] else [vals[keys[0]]] + ValuesOf(keys[1..], vals)
  }

  /** No element occurs twice. */
  ghost predicate Distinct<K(!new)>(s: seq<K>) {
    forall i, j :: 0 <= i < j < |s| ==> s[i] != s[j]
  }

  /** Removing a key from a duplicate-free sequence keeps it duplicate-free. */
  lemma {:induction false} RemoveAllDistinct<K(!new)>(keys: seq<K>, k: K)
    requires Distinct(keys)
    ensures Distinct(RemoveAll(keys, k))
  {
    if keys != [] {
      RemoveAllDistinct(keys[1..], k);
      var rest := RemoveAll(keys[1..], k);
      assert keys[0] !in keys[1..] by {
        forall j | 0 <= j < |keys[1..]| ensures keys[1..][j] != keys[0] { assert keys[1..][j] == keys[j + 1]; }
      }
      if keys[0] != k {
        var r := [keys[0]] + rest;
        forall i, j | 0 <= i < j < |r| ensures r[i] != r[j] {
          assert r[j] == rest[j - 1] && rest[j - 1] in rest;
          if i > 0 {
            assert r[i] == rest[i - 1];
            assert rest[i - 1] != rest[j - 1];
          }
        }
      }
    }
  }

  /** The values of a well-formed map are exactly the values stored under its keys. */
  lemma ValuesExactly<K(!new), V>(m: OrderedMap<K, V>)
    requires m.Valid()
    ensures forall v :: v in m.Values() <==> exists k :: k in m.vals && m.vals[k] == v
  {
    var vs := m.Values();
    forall v | v in vs ensures exists k :: k in m.vals && m.vals[k] == v {
      var i :| 0 <= i < |vs| && vs[i] == v;
      assert m.keys[i] in m.vals;
    }
    forall k | k in m.vals ensures m.vals[k] in vs {
      var i :| 0 <= i < |m.keys| && m.keys[i] == k;
      assert vs[i] == m.vals[k];
    }
  }

  /** `set` keeps the map well formed, stores the value and leaves every other key alone. */
  lemma PutValid<K(!new), V>(m: OrderedMap<K, V>, k: K, v: V)
    requires m.Valid()
    ensures m.Put(k, v).Valid()
    ensures m.Put(k, v).Get(k) == Some(v)
    ensures forall k' :: k' != k ==> m.Put(k, v).Get(k') == m.Get(k')
    ensures m.Put(k, v).Size() == if m.Has(k) then m.Size() else m.Size() + 1
  {
  }

  /** `delete` keeps the map well formed, drops exactly that key and shrinks the size by one when it was present. */
  lemma {:induction false} DeleteValid<K(!new), V>(m: OrderedMap<K, V>, k: K)
    requires m.Valid()
    ensures m.Delete(k).Valid()
    ensures m.Delete(k).Get(k) == None
    ensures forall k' :: k' != k ==> m.Delete(k).Get(k') == m.Get(k')
    ensures m.Delete(k).Size() == if m.Has(k) then m.Size() - 1 else m.Size()
  {
    RemoveAllDistinct(m.keys, k);
    RemoveAllSize(m.keys, k);
  }

  lemma {:induction false} RemoveAllSize<K(!new)>(keys: seq<K>, k: K)
    requires Distinct(keys)
    ensures |RemoveAll(keys, k)| == if k in keys then |keys| - 1 else |keys|
  {
    if keys != [] {
      RemoveAllSize(keys[1..], k);
      if keys[0] == k {
        assert k !in keys[1..] by {
          forall j | 0 <= j < |keys[1..]| ensures keys[1..][j] != k { assert keys[1..][j] == keys[j + 1]; }
        }
      }
    }
  }
}
