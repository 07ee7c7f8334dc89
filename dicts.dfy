/** The insertion-ordered dictionary the centrality scores are collected in:
    the keys in the order they were first inserted, and the key-value map. */
module Dicts {

  datatype Dict<K, V> = Dict(keys: seq<K>, entries: map<K, V>) {

    /** Keys are listed once each, and exactly the keys of the map. */
    ghost predicate Valid() {
      (forall a, b :: 0 <= a < b < |keys| ==> keys[a] != keys[b]) &&
      (forall k :: k in entries ==> k in keys) &&
      (forall t :: 0 <= t < |keys| ==> keys[t] in entries)
    }

    /** d[k] = v: a new key goes to the end of the order, an existing key
        keeps its place and only its value changes. */
    function Insert(k: K, v: V): (d: Dict<K, V>)
      ensures d.keys == if k in entries then keys else keys + [k]
      ensures d.entries == entries[k := v]
    {
      Dict(if k in entries then keys else keys + [k], entries[k := v])
    }
  }

  /** Insertion keeps every key listed exactly once. */
  lemma InsertValid<K, V>(d: Dict<K, V>, k: K, v: V)
    requires d.Valid()
    ensures d.Insert(k, v).Valid()
  {
    var e := d.Insert(k, v);
    if k !in d.entries {
      assert k !in d.keys;
    }
  }

  function Empty<K, V>(): (d: Dict<K, V>)
    ensures d.Valid() && d.keys == []
  {
    Dict([], map[])
  }

  /** The dictionary built by inserting keys[t] := values[t] for t = 0, 1, ...
      in order: it is well formed, its keys are exactly the keys inserted, and
      the last key inserted maps to the last value. */
  function InsertAll<K(==), V>(keys: seq<K>, values: seq<V>): (d: Dict<K, V>)
    requires |keys| == |values|
    ensures d.Valid()
    ensures forall t :: 0 <= t < |keys| ==> keys[t] in d.entries
    ensures forall k :: k in d.entries ==> k in keys
    ensures keys != [] ==> d.entries[keys[|keys| - 1]] == values[|values| - 1]
  {
    if keys == [] then Empty()
    else
      var d := InsertAll(keys[..|keys| - 1], values[..|values| - 1]);
      InsertValid(d, keys[|keys| - 1], values[|values| - 1]);
      InsertKeepsKeys(d, keys, keys[..|keys| - 1], values[|values| - 1]);
      d.Insert(keys[|keys| - 1], values[|values| - 1])
  }

  /** Inserting the last of `keys` into a dictionary holding the others gives
      one holding all of them. */
  lemma InsertKeepsKeys<K, V>(d: Dict<K, V>, keys: seq<K>, pre: seq<K>, v: V)
    requires keys != [] && pre == keys[..|keys| - 1]
    requires forall t :: 0 <= t < |pre| ==> pre[t] in d.entries
    ensures forall t :: 0 <= t < |keys| ==> keys[t] in d.Insert(keys[|keys| - 1], v).entries
  {
    forall t | 0 <= t < |keys| - 1
      ensures keys[t] in d.entries
    {
      assert keys[t] == pre[t];
    }
  }

  /** The dictionary after j insertions is the one after j - 1 insertions with
      the j-th pair inserted. */
  lemma InsertAllStep<K, V>(keys: seq<K>, values: seq<V>, j: nat)
    requires |keys| == |values| && 0 < j <= |keys|
    ensures InsertAll(keys[..j], values[..j]) ==
      InsertAll(keys[..j - 1], values[..j - 1]).Insert(keys[j - 1], values[j - 1])
  {
    assert keys[..j][..j - 1] == keys[..j - 1];
    assert values[..j][..j - 1] == values[..j - 1];
  }

  /** Inserting distinct keys in order gives a dictionary that lists them in
      that order and maps each to its own value. */
  lemma {:induction false} InsertAllContents<K, V>(keys: seq<K>, values: seq<V>)
    requires |keys| == |values|
    requires forall a, b :: 0 <= a < b < |keys| ==> keys[a] != keys[b]
    ensures InsertAll(keys, values).Valid()
    ensures InsertAll(keys, values).keys == keys
    ensures forall t :: 0 <= t < |keys| ==>
      keys[t] in InsertAll(keys, values).entries && InsertAll(keys, values).entries[keys[t]] == values[t]
  {
    if keys != [] {
      var pre, vs := keys[..|keys| - 1], values[..|values| - 1];
      InsertAllContents(pre, vs);
      var d := InsertAll(pre, vs);
      forall t | 0 <= t < |keys| - 1
        ensures keys[t] in d.entries && d.entries[keys[t]] == values[t]
      {
        assert keys[t] == pre[t] && values[t] == vs[t];
      }
      InsertNewKey(d, keys, values);
    }
  }

  /** Inserting the last of `keys` into a dictionary that lists the others in
      order with their values gives one that lists all of `keys` in order
      with theirs. */
  lemma InsertNewKey<K, V>(d: Dict<K, V>, keys: seq<K>, values: seq<V>)
    requires |keys| == |values| && keys != []
    requires forall a, b :: 0 <= a < b < |keys| ==> keys[a] != keys[b]
    requires d.Valid() && d.keys == keys[..|keys| - 1]
    requires forall t :: 0 <= t < |keys| - 1 ==> keys[t] in d.entries && d.entries[keys[t]] == values[t]
    ensures d.Insert(keys[|keys| - 1], values[|values| - 1]).keys == keys
    ensures forall t :: 0 <= t < |keys| ==>
      keys[t] in d.Insert(keys[|keys| - 1], values[|values| - 1]).entries &&
      d.Insert(keys[|keys| - 1], values[|values| - 1]).entries[keys[t]] == values[t]
  {
    var n := |keys|;
    assert keys == keys[..n - 1] + [keys[n - 1]];
    assert keys[n - 1] !in d.keys;
  }

  /** Distinct keys assigned in order give the dictionary that lists them in
      that order over the map taking each to its own value. */
  lemma InsertAllIsDict<K, V>(keys: seq<K>, values: seq<V>, m: map<K, V>)
    requires |keys| == |values|
    requires forall a, b :: 0 <= a < b < |keys| ==> keys[a] != keys[b]
    requires forall t :: 0 <= t < |keys| ==> keys[t] in m && m[keys[t]] == values[t]
    requires forall k :: k in m ==> k in keys
    ensures InsertAll(keys, values) == Dict(keys, m)
  {
    InsertAllContents(keys, values);
    SameKeysSameValues(InsertAll(keys, values), keys, values, m);
  }

  /** A well-formed dictionary listing `keys` with `values` is the one over
      any map that takes the same keys to the same values. */
  lemma SameKeysSameValues<K, V>(d: Dict<K, V>, keys: seq<K>, values: seq<V>, m: map<K, V>)
    requires |keys| == |values| && d.Valid() && d.keys == keys
    requires forall t :: 0 <= t < |keys| ==> keys[t] in d.entries && d.entries[keys[t]] == values[t]
    requires forall t :: 0 <= t < |keys| ==> keys[t] in m && m[keys[t]] == values[t]
    requires forall k :: k in m ==> k in keys
    ensures d == Dict(keys, m)
  {
    forall k | k in m
      ensures k in d.entries && d.entries[k] == m[k]
    {
      var t :| 0 <= t < |keys| && keys[t] == k;
    }
    assert d.entries == m;
  }
}
