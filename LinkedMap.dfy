/**
 * Kotlin's default mutable map (a LinkedHashMap) as a value: the keys in first
 * insertion order beside the key-to-value map. Writing an existing key replaces its
 * value and keeps its place; a new key goes last. `toMap` over pairs is the same
 * fold, so a repeated key keeps its first place and its last value.
 */
module LinkedMap {

  datatype LinkedMap<K, V> = LinkedMap(keys: seq<K>, values: map<K, V>)

  /** Every key once, and exactly the keys of the map. */
  predicate Valid<K, V>(m: LinkedMap<K, V>) {
    (forall i, j :: 0 <= i < j < |m.keys| ==> m.keys[i] != m.keys[j]) &&
    (forall k :: k in m.values ==> k in m.keys) &&
    (forall i :: 0 <= i < |m.keys| ==> m.keys[i] in m.values)
  }

  function Empty<K, V>(): (r: LinkedMap<K, V>)
    ensures Valid(r) && |r.keys| == 0
  {
    LinkedMap([], map[])
  }

  /** `m[k] = v`. */
  function Put<K, V>(m: LinkedMap<K, V>, k: K, v: V): (r: LinkedMap<K, V>)
    requires Valid(m)
    ensures Valid(r)
    ensures k in r.values && r.values[k] == v
    ensures forall k' :: k' in r.values ==> k' == k || k' in m.values
    ensures forall k' :: k' in m.values ==> k' in r.values
    ensures forall k' :: k' != k && k' in m.values ==> r.values[k'] == m.values[k']
    ensures k in m.values ==> r.keys == m.keys
    ensures k !in m.values ==> r.keys == m.keys + [k]
  {
    LinkedMap(if k in m.values then m.keys else m.keys + [k], m.values[k := v])
  }

  /** The values in key order (`m.values` in Kotlin). */
  function Values<K, V>(m: LinkedMap<K, V>): (r: seq<V>)
    requires Valid(m)
    ensures |r| == |m.keys|
    ensures forall i :: 0 <= i < |r| ==> r[i] == m.values[m.keys[i]]
  {
    seq(|m.keys|, i requires 0 <= i < |m.keys| => m.values[m.keys[i]])
  }

  /** `pairs.toMap()`. */
  function FromPairs<K, V>(pairs: seq<(K, V)>): (r: LinkedMap<K, V>)
    ensures Valid(r)
    decreases |pairs|
  {
    if pairs == [] then Empty()
    else Put(FromPairs(pairs[..|pairs| - 1]), pairs[|pairs| - 1].0, pairs[|pairs| - 1].1)
  }

  lemma FromPairsSnoc<K, V>(pairs: seq<(K, V)>, p: (K, V))
    ensures FromPairs(pairs + [p]) == Put(FromPairs(pairs), p.0, p.1)
  {
    assert (pairs + [p])[..|pairs|] == pairs;
  }

  lemma FromPairsLastStep<K, V>(pairs: seq<(K, V)>)
    requires pairs != []
    ensures FromPairs(pairs) == Put(FromPairs(pairs[..|pairs| - 1]), pairs[|pairs| - 1].0, pairs[|pairs| - 1].1)
  {
  }

  /** A key is in `toMap` exactly when some pair carries it. */
  lemma {:induction false} FromPairsHas<K, V>(pairs: seq<(K, V)>, k: K)
    ensures k in FromPairs(pairs).values <==> exists i :: 0 <= i < |pairs| && pairs[i].0 == k
    decreases |pairs|
  {
    if pairs != [] {
      var n := |pairs| - 1;
      var init := pairs[..n];
      FromPairsHas(init, k);
      if pairs[n].0 != k {
        if i :| 0 <= i < |pairs| && pairs[i].0 == k {
          assert init[i].0 == k;
        }
      }
    }
  }

  /** The value `toMap` keeps for a key is the one of the last pair that carries it. */
  lemma {:induction false} FromPairsLast<K, V>(pairs: seq<(K, V)>, k: K, i: nat)
    requires i < |pairs| && pairs[i].0 == k
    requires forall j :: i < j < |pairs| ==> pairs[j].0 != k
    ensures k in FromPairs(pairs).values && FromPairs(pairs).values[k] == pairs[i].1
    decreases |pairs|
  {
    var n := |pairs| - 1;
    var init, last := pairs[..n], pairs[n];
    FromPairsLastStep(pairs);
    if i < n {
      assert init[i] == pairs[i];
      forall j | i < j < |init| ensures init[j].0 != k {
        assert init[j] == pairs[j];
      }
      FromPairsLast(init, k, i);
    }
  }

  /** The second components of the pairs whose first component is `k`, in order. */
  function Select<K(==), V>(pairs: seq<(K, V)>, k: K): seq<V>
    decreases |pairs|
  {
    if pairs == [] then []
    else
      var last := pairs[|pairs| - 1];
      Select(pairs[..|pairs| - 1], k) + (if last.0 == k then [last.1] else [])
  }

  /** `pairs.groupBy({ it.first }, { it.second })`: a key's list grows by each pair carrying it. */
  function GroupPairs<K, V>(pairs: seq<(K, V)>): (r: LinkedMap<K, seq<V>>)
    ensures Valid(r)
    decreases |pairs|
  {
    if pairs == [] then Empty()
    else
      var m := GroupPairs(pairs[..|pairs| - 1]);
      var last := pairs[|pairs| - 1];
      Put(m, last.0, (if last.0 in m.values then m.values[last.0] else []) + [last.1])
  }

  /**
   * A key is grouped exactly when some pair carries it, and its group is the values
   * of the pairs that carry it, in order.
   */
  lemma {:induction false} GroupPairsSelect<K, V>(pairs: seq<(K, V)>, k: K)
    ensures k in GroupPairs(pairs).values <==> Select(pairs, k) != []
    ensures k in GroupPairs(pairs).values ==> GroupPairs(pairs).values[k] == Select(pairs, k)
    decreases |pairs|
  {
    if pairs != [] {
      GroupPairsSelect(pairs[..|pairs| - 1], k);
    }
  }

  lemma {:induction false} SelectAppend<K, V>(a: seq<(K, V)>, b: seq<(K, V)>, k: K)
    ensures Select(a + b, k) == Select(a, k) + Select(b, k)
    decreases |b|
  {
    if b == [] {
      assert a + b == a;
    } else {
      var n := |b| - 1;
      assert (a + b)[..|a + b| - 1] == a + b[..n];
      SelectAppend(a, b[..n], k);
    }
  }

  /** Some pair carries the key exactly when its selection is not empty. */
  lemma {:induction false} SelectEmpty<K, V>(pairs: seq<(K, V)>, k: K)
    ensures Select(pairs, k) != [] <==> exists i :: 0 <= i < |pairs| && pairs[i].0 == k
    decreases |pairs|
  {
    if pairs != [] {
      var n := |pairs| - 1;
      var init := pairs[..n];
      SelectEmpty(init, k);
      if i :| 0 <= i < |pairs| && pairs[i].0 == k {
        if i < n {
          assert init[i].0 == k;
        }
      }
      if i :| 0 <= i < n && init[i].0 == k {
        assert pairs[i].0 == k;
      }
    }
  }
}
