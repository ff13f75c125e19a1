/** Python's `dict` as the catalog code uses it: insertion-ordered, so that iterating a dict
    visits keys in the order they were first added; plus `list.index`. */
module PyDict {
  import opened Wrappers
  import Lists

  /** `xs.index(x)`: the first position of `x`. */
  function IndexOf<T(==)>(xs: seq<T>, x: T): (i: nat)
    requires x in xs
    ensures i < |xs| && xs[i] == x
    ensures forall j :: 0 <= j < i ==> xs[j] != x
  {
    if xs[0] == x then 0 else 1 + IndexOf(xs[1..], x)
  }

  /** A dict: `keys` in first-insertion order, `values` the current mapping. */
  datatype Dict<K(==), V> = Dict(keys: seq<K>, values: map<K, V>) {

    /** Each key is listed once, and exactly the mapped keys are listed. */
    ghost predicate Valid() {
      && (forall i, j :: 0 <= i < j < |keys| ==> keys[i] != keys[j])
      && (forall k :: k in values ==> k in keys)
      && (forall i :: 0 <= i < |keys| ==> keys[i] in values)
    }

    /** `d[k] = v`: a new key goes last; an existing key keeps its place and takes the new value. */
    function Set(k: K, v: V): (d: Dict<K, V>)
      ensures d.values == values[k := v]
      ensures k in values ==> d.keys == keys
      ensures k !in values ==> d.keys == keys + [k]
    {
      if k in values then Dict(keys, values[k := v]) else Dict(keys + [k], values[k := v])
    }
  }

  /** `d.items()`: the pairs in key order. */
  function Items<K(==), V>(d: Dict<K, V>): (r: seq<(K, V)>)
    requires d.Valid()
    ensures |r| == |d.keys|
    ensures forall i :: 0 <= i < |r| ==> r[i].0 == d.keys[i] && r[i].1 == d.values[d.keys[i]]
  {
    seq(|d.keys|, i requires 0 <= i < |d.keys| => (d.keys[i], d.values[d.keys[i]]))
  }

  function Empty<K(==), V>(): Dict<K, V> {
    Dict([], map[])
  }

  /** The keys of `entries`, in order, repeats included. */
  function KeysOf<K, V>(entries: seq<(K, V)>): (r: seq<K>)
    ensures |r| == |entries| && forall i :: 0 <= i < |entries| ==> r[i] == entries[i].0
  {
    if entries == [] then [] else KeysOf(entries[..|entries| - 1]) + [entries[|entries| - 1].0]
  }

  /** The dict built by `d[k] = v` for each entry in turn, starting from `{}`. */
  function InsertAll<K(==), V>(entries: seq<(K, V)>): Dict<K, V> {
    if entries == [] then Empty()
    else
      var (k, v) := entries[|entries| - 1];
      InsertAll(entries[..|entries| - 1]).Set(k, v)
  }

  /** Inserting keeps a valid dict valid. */
  lemma SetValid<K, V>(d: Dict<K, V>, k: K, v: V)
    requires d.Valid()
    ensures d.Set(k, v).Valid()
  {
  }

  /** The keys of the built dict are exactly the keys of the entries, each listed once. */
  lemma {:induction false} InsertAllKeys<K, V>(entries: seq<(K, V)>)
    ensures InsertAll(entries).Valid()
    ensures forall k :: k in InsertAll(entries).values <==> k in KeysOf(entries)
  {
    if entries != [] {
      var init := entries[..|entries| - 1];
      InsertAllKeys(init);
      SetValid(InsertAll(init), entries[|entries| - 1].0, entries[|entries| - 1].1);
      assert KeysOf(entries) == KeysOf(init) + [entries[|entries| - 1].0];
    }
  }

  lemma InsertAllKeysMember<K, V>(entries: seq<(K, V)>, k: K)
    ensures k in InsertAll(entries).values <==> k in KeysOf(entries)
  {
    InsertAllKeys(entries);
  }

  /** Last writer wins: a key maps to the value of its last entry. */
  lemma {:induction false} InsertAllLastWins<K, V>(entries: seq<(K, V)>, i: nat)
    requires i < |entries|
    requires forall j :: i < j < |entries| ==> entries[j].0 != entries[i].0
    ensures entries[i].0 in InsertAll(entries).values
    ensures InsertAll(entries).values[entries[i].0] == entries[i].1
  {
    if i < |entries| - 1 {
      var init := entries[..|entries| - 1];
      InsertAllLastWins(init, i);
    }
  }

  /** `x` and `y` both occur in `ks`, `x` first. */
  ghost predicate Before<K>(ks: seq<K>, x: K, y: K) {
    x in ks && y in ks && IndexOf(ks, x) < IndexOf(ks, y)
  }

  /** `keys` lists its elements in the order of their first positions in `ks`. */
  ghost predicate FirstSeenOrder<K>(keys: seq<K>, ks: seq<K>) {
    forall a, b :: 0 <= a < b < |keys| ==> Before(ks, keys[a], keys[b])
  }

  /** First writer fixes the place: keys are listed in the order of their first entries. */
  lemma {:induction false} InsertAllOrder<K, V>(entries: seq<(K, V)>)
    ensures FirstSeenOrder(InsertAll(entries).keys, KeysOf(entries))
  {
    if entries != [] {
      var n := |entries| - 1;
      var init := entries[..n];
      var k := entries[n].0;
      InsertAllOrder(init);
      InsertAllKeys(init);
      assert KeysOf(entries) == KeysOf(init) + [k];
      var d0 := InsertAll(init);
      forall a | 0 <= a < |d0.keys| ensures d0.keys[a] in KeysOf(init) {
        assert d0.keys[a] in d0.values;
        InsertAllKeysMember(init, d0.keys[a]);
      }
      if k in d0.values {
        FirstSeenOrderExtend(d0.keys, KeysOf(init), k);
      } else {
        FirstSeenOrderAppend(d0.keys, KeysOf(init), k);
      }
    }
  }

  /** A later entry whose key is already listed changes no first position. */
  lemma FirstSeenOrderExtend<K>(keys: seq<K>, ks: seq<K>, k: K)
    requires FirstSeenOrder(keys, ks)
    ensures FirstSeenOrder(keys, ks + [k])
  {
    forall a, b | 0 <= a < b < |keys| ensures Before(ks + [k], keys[a], keys[b]) {
      assert Before(ks, keys[a], keys[b]);
      IndexOfPrefix(ks, [k], keys[a]);
      IndexOfPrefix(ks, [k], keys[b]);
    }
  }

  /** A new key is first seen after every key listed so far. */
  lemma FirstSeenOrderAppend<K>(keys: seq<K>, ks: seq<K>, k: K)
    requires FirstSeenOrder(keys, ks)
    requires forall a :: 0 <= a < |keys| ==> keys[a] in ks
    requires k !in ks
    ensures FirstSeenOrder(keys + [k], ks + [k])
  {
    var ks' := ks + [k];
    forall x | x in ks ensures x in ks' && IndexOf(ks', x) == IndexOf(ks, x) {
      IndexOfPrefix(ks, [k], x);
    }
    assert IndexOf(ks', k) == |ks| by {
      assert forall m :: 0 <= m < |ks| ==> ks'[m] == ks[m];
    }
    var keys' := keys + [k];
    forall a, b | 0 <= a < b < |keys'| ensures Before(ks', keys'[a], keys'[b]) {
      assert keys'[a] == keys[a];
      if b < |keys| {
        assert keys'[b] == keys[b];
        assert Before(ks, keys[a], keys[b]);
      } else {
        assert keys'[b] == k && keys[a] in ks;
      }
    }
  }

  /** Appending to a list does not move the first position of anything already in it. */
  lemma IndexOfPrefix<T>(xs: seq<T>, ys: seq<T>, x: T)
    requires x in xs
    ensures x in xs + ys && IndexOf(xs + ys, x) == IndexOf(xs, x)
  {
    assert forall m :: 0 <= m < |xs| ==> (xs + ys)[m] == xs[m];
  }

  /** A dict filled from the entries a per-item parse accepts holds exactly their keys. */
  lemma FilterMapKeys<A, K, V>(f: A -> Option<(K, V)>, xs: seq<A>, k: K)
    ensures k in InsertAll(Lists.FilterMap(f, xs)).values <==>
      exists i :: 0 <= i < |xs| && f(xs[i]).Some? && f(xs[i]).value.0 == k
  {
    var entries := Lists.FilterMap(f, xs);
    InsertAllKeysMember(entries, k);
    if k in KeysOf(entries) {
      var j :| 0 <= j < |entries| && entries[j].0 == k;
      Lists.FilterMapMember(f, xs, entries[j]);
    }
    if exists i :: 0 <= i < |xs| && f(xs[i]).Some? && f(xs[i]).value.0 == k {
      var i :| 0 <= i < |xs| && f(xs[i]).Some? && f(xs[i]).value.0 == k;
      Lists.FilterMapMember(f, xs, f(xs[i]).value);
      var j :| 0 <= j < |entries| && entries[j] == f(xs[i]).value;
      assert KeysOf(entries)[j] == k;
    }
  }

  /** The value of a key is the one parsed from the last item that carries it. */
  lemma FilterMapLastWins<A, K, V>(f: A -> Option<(K, V)>, before: seq<A>, x: A, after: seq<A>)
    requires f(x).Some?
    requires forall y :: y in after ==> f(y).None? || f(y).value.0 != f(x).value.0
    ensures var d := InsertAll(Lists.FilterMap(f, before + [x] + after));
      f(x).value.0 in d.values && d.values[f(x).value.0] == f(x).value.1
  {
    var e := f(x).value;
    Lists.FilterMapAppend(f, before + [x], after);
    Lists.FilterMapSnoc(f, before, x);
    var tail := Lists.FilterMap(f, after);
    var entries := Lists.FilterMap(f, before) + [e] + tail;
    var i := |Lists.FilterMap(f, before)|;
    assert entries[i] == e;
    forall j | i < j < |entries| ensures entries[j].0 != e.0 {
      assert entries[j] == tail[j - i - 1];
      Lists.FilterMapMember(f, after, entries[j]);
    }
    InsertAllLastWins(entries, i);
  }
}
