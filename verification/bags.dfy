/**
 Maps read as bags of their values, and iteration orders of a map's keys.
 Used to state what a map-to-list conversion produces when the order in
 which the map is visited is not fixed.
 */
module Bags {

  /** `order` lists every key of `keys` exactly once: one possible
      iteration order of a map with these keys. */
  predicate Enumerates<K>(order: seq<K>, keys: set<K>) {
    multiset(order) == multiset(keys)
  }

  /** Some key of a non-empty map: the one a bag takes out first. */
  ghost function Pick<K, V>(m: map<K, V>): (k: K)
    requires m != map[]
    ensures k in m
  {
    var k :| k in m; k
  }

  /** The values of `m`, each counted once per key that maps to it. */
  ghost function Bag<K, V>(m: map<K, V>): multiset<V>
    decreases |m|
  {
    if m == map[] then multiset{}
    else multiset{m[Pick(m)]} + Bag(m - {Pick(m)})
  }

  /** Removing a key of a map shrinks it by one. */
  lemma RemoveSize<K, V>(m: map<K, V>, k: K)
    requires k in m
    ensures |m - {k}| == |m| - 1
  {
    assert (m - {k}).Keys == m.Keys - {k};
  }

  /** Removing two keys one after the other does not depend on the order. */
  lemma RemoveCommutes<K, V>(m: map<K, V>, j: K, k: K)
    ensures (m - {j}) - {k} == (m - {k}) - {j}
  {
    var a, b := (m - {j}) - {k}, (m - {k}) - {j};
    assert a.Keys == m.Keys - {j, k} == b.Keys;
    assert forall x :: x in a ==> a[x] == m[x] == b[x];
  }

  /** Taking any one key out first gives the same bag. */
  lemma {:induction false} BagRemove<K, V>(m: map<K, V>, k: K)
    requires k in m
    ensures Bag(m) == multiset{m[k]} + Bag(m - {k})
    decreases |m|
  {
    var j := Pick(m);
    if j != k {
      var mj, mk := m - {j}, m - {k};
      RemoveSize(m, j);
      RemoveSize(m, k);
      assert k in mj && mj[k] == m[k];
      BagRemove(mj, k);
      assert j in mk && mk[j] == m[j];
      BagRemove(mk, j);
      RemoveCommutes(m, j, k);
      calc {
        Bag(m);
        multiset{m[j]} + Bag(mj);
        multiset{m[j]} + (multiset{m[k]} + Bag(mj - {k}));
        multiset{m[k]} + (multiset{m[j]} + Bag(mk - {j}));
        multiset{m[k]} + Bag(mk);
      }
    }
  }

  /** Two keys with equal values put that value in the bag twice. */
  lemma BagRepeated<K, V>(m: map<K, V>, k1: K, k2: K)
    requires k1 in m && k2 in m && k1 != k2 && m[k1] == m[k2]
    ensures Bag(m)[m[k1]] >= 2
  {
    var m1 := m - {k1};
    assert k2 in m1 && m1[k2] == m[k1];
    BagRemove(m, k1);
    BagRemove(m1, k2);
  }

  /** An empty enumeration enumerates only the empty set. */
  lemma EnumeratesEmpty<K>(keys: set<K>)
    requires Enumerates([], keys)
    ensures keys == {}
  {
    assert forall k :: k in keys ==> k in multiset(keys);
  }

  /** Every key of the set occurs somewhere in an enumeration of it. */
  lemma EnumeratesHas<K>(order: seq<K>, keys: set<K>, k: K)
    requires Enumerates(order, keys)
    requires k in keys
    ensures exists i :: 0 <= i < |order| && order[i] == k
  {
    assert k in multiset(keys);
    assert k in multiset(order);
  }

  /** Removing the first key of an enumeration leaves an enumeration of the
      remaining keys. */
  lemma EnumeratesTail<K, V>(m: map<K, V>, order: seq<K>)
    requires order != []
    requires Enumerates(order, m.Keys)
    ensures order[0] in m
    ensures Enumerates(order[1..], (m - {order[0]}).Keys)
  {
    var k := order[0];
    assert order == [k] + order[1..];
    assert multiset(order) == multiset{k} + multiset(order[1..]);
    assert k in multiset(m.Keys);
    assert (m - {k}).Keys == m.Keys - {k};
    assert multiset(m.Keys - {k}) == multiset(m.Keys) - multiset{k};
  }

  /** `m` with every entry `k := v` rewritten to `k := f(k, v)`. */
  function Image<K, V, W>(m: map<K, V>, f: (K, V) -> W): (r: map<K, W>)
    ensures r.Keys == m.Keys
    ensures forall k :: k in m ==> r[k] == f(k, m[k])
  {
    map k | k in m :: f(k, m[k])
  }

  /** Rewriting commutes with removing a key. */
  lemma ImageRemove<K, V, W>(m: map<K, V>, f: (K, V) -> W, k: K)
    ensures Image(m - {k}, f) == Image(m, f) - {k}
  {
    var a, b := Image(m - {k}, f), Image(m, f) - {k};
    assert a.Keys == b.Keys;
    forall x | x in a
      ensures a[x] == b[x]
    {
      assert (m - {k})[x] == m[x];
    }
  }

  /** Visiting the first key of `order` and then the rest of the keys in
      the rest of `order` visits every position of `order` in turn. */
  lemma ConsInOrder<K, V, W>(m: map<K, V>, order: seq<K>, f: (K, V) -> W, rest: seq<W>)
    requires order != [] && order[0] in m
    requires |rest| == |order| - 1
    requires forall i :: 0 <= i < |rest| ==>
      order[1..][i] in m - {order[0]} && rest[i] == f(order[1..][i], (m - {order[0]})[order[1..][i]])
    ensures var ws := [f(order[0], m[order[0]])] + rest;
      forall i :: 0 <= i < |ws| ==> order[i] in m && ws[i] == f(order[i], m[order[i]])
  {
    var k := order[0];
    var ws := [f(k, m[k])] + rest;
    forall i | 0 <= i < |ws|
      ensures order[i] in m && ws[i] == f(order[i], m[order[i]])
    {
      if i > 0 {
        var x := order[1..][i - 1];
        assert x == order[i] && ws[i] == rest[i - 1];
        assert (m - {k})[x] == m[x];
      }
    }
  }

  /** Visits the keys of `m` in `order` and collects `f(k, m[k])` for each:
      one result per key, in visiting order, and as a bag the values of
      `Image(m, f)` whatever the order. */
  function MapInOrder<K, V, W>(m: map<K, V>, order: seq<K>, f: (K, V) -> W): (ws: seq<W>)
    requires Enumerates(order, m.Keys)
    ensures |ws| == |order| == |m|
    ensures forall i :: 0 <= i < |ws| ==> order[i] in m && ws[i] == f(order[i], m[order[i]])
    ensures multiset(ws) == Bag(Image(m, f))
    decreases |order|
  {
    if order == [] then
      EnumeratesEmpty(m.Keys);
      assert Image(m, f) == map[];
      []
    else
      var k := order[0];
      EnumeratesTail(m, order);
      RemoveSize(m, k);
      ImageRemove(m, f, k);
      BagRemove(Image(m, f), k);
      var rest := MapInOrder(m - {k}, order[1..], f);
      var ws := [f(k, m[k])] + rest;
      ConsInOrder(m, order, f, rest);
      assert multiset(ws) == multiset{f(k, m[k])} + multiset(rest);
      ws
  }
}
