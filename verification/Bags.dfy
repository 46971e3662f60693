/** Multisets collected from the values of a map, for conservation arguments. */
module Bags {

  function Drop<K, V>(m: map<K, V>, ks: set<K>): (r: map<K, V>)
    ensures r.Keys == m.Keys - ks
    ensures forall k :: k in r ==> r[k] == m[k]
  {
    m - ks
  }

  function Without<K, V>(m: map<K, V>, k: K): (r: map<K, V>)
    ensures r.Keys == m.Keys - {k}
    ensures forall j :: j in r ==> r[j] == m[j]
    ensures k in m ==> |r| == |m| - 1
  {
    assert Drop(m, {k}).Keys == m.Keys - {k};
    Drop(m, {k})
  }

  /** Everything the values at `ks` hold, counted with multiplicity. */
  ghost function BagOver<K, V, T>(ks: set<K>, m: map<K, V>, f: V -> multiset<T>): multiset<T>
    requires ks <= m.Keys
  {
    if ks == {} then multiset{}
    else var k :| k in ks; f(m[k]) + BagOver(ks - {k}, m, f)
  }

  ghost function Bag<K, V, T>(m: map<K, V>, f: V -> multiset<T>): multiset<T> {
    BagOver(m.Keys, m, f)
  }

  lemma {:induction false} BagWithout<K, V, T>(ks: set<K>, m: map<K, V>, f: V -> multiset<T>, k: K)
    requires ks <= m.Keys && k in ks
    ensures BagOver(ks, m, f) == f(m[k]) + BagOver(ks - {k}, m, f)
  {
    var j :| j in ks && BagOver(ks, m, f) == f(m[j]) + BagOver(ks - {j}, m, f);
    if j != k {
      BagWithout(ks - {j}, m, f, k);
      BagWithout(ks - {k}, m, f, j);
      assert ks - {j} - {k} == ks - {k} - {j};
    }
  }

  lemma BagOne<K, V, T>(k: K, m: map<K, V>, f: V -> multiset<T>)
    requires k in m
    ensures BagOver({k}, m, f) == f(m[k])
  {
    BagWithout({k}, m, f, k);
    assert {k} - {k} == {};
  }

  /** Only the values at `ks` matter. */
  lemma {:induction false} BagFrame<K, V, T>(ks: set<K>, m: map<K, V>, m': map<K, V>, f: V -> multiset<T>)
    requires ks <= m.Keys && ks <= m'.Keys
    requires forall k :: k in ks ==> f(m[k]) == f(m'[k])
    ensures BagOver(ks, m, f) == BagOver(ks, m', f)
  {
    if ks != {} {
      var k :| k in ks;
      BagWithout(ks, m, f, k);
      BagWithout(ks, m', f, k);
      BagFrame(ks - {k}, m, m', f);
    }
  }

  lemma BagSet<K, V, T>(m: map<K, V>, f: V -> multiset<T>, k: K, v: V)
    ensures Bag(m[k := v], f) == f(v) + BagOver(m.Keys - {k}, m, f)
  {
    var m' := m[k := v];
    BagWithout(m'.Keys, m', f, k);
    assert m'.Keys - {k} == m.Keys - {k};
    BagFrame(m.Keys - {k}, m', m, f);
  }

  lemma BagAdd<K, V, T>(m: map<K, V>, f: V -> multiset<T>, k: K, v: V)
    requires k !in m
    ensures Bag(m[k := v], f) == f(v) + Bag(m, f)
  {
    BagSet(m, f, k, v);
    assert m.Keys - {k} == m.Keys;
  }

  lemma BagRemove<K, V, T>(m: map<K, V>, f: V -> multiset<T>, k: K)
    requires k in m
    ensures Bag(m, f) == f(m[k]) + Bag(Without(m, k), f)
  {
    BagWithout(m.Keys, m, f, k);
    BagFrame(m.Keys - {k}, m, Without(m, k), f);
  }

  lemma BagReplace<K, V, T>(m: map<K, V>, f: V -> multiset<T>, k: K, v: V)
    requires k in m
    ensures Bag(m[k := v], f) + f(m[k]) == Bag(m, f) + f(v)
  {
    BagSet(m, f, k, v);
    BagWithout(m.Keys, m, f, k);
  }

  lemma {:induction false} BagSplit<K, V, T>(ks: set<K>, part: set<K>, m: map<K, V>, f: V -> multiset<T>)
    requires part <= ks <= m.Keys
    ensures BagOver(ks, m, f) == BagOver(part, m, f) + BagOver(ks - part, m, f)
  {
    if part == {} {
      assert ks - part == ks;
    } else {
      var k :| k in part;
      BagWithout(ks, m, f, k);
      BagWithout(part, m, f, k);
      BagSplit(ks - {k}, part - {k}, m, f);
      assert ks - {k} - (part - {k}) == ks - part;
    }
  }

  lemma Cancel<T>(x: multiset<T>, y: multiset<T>, z: multiset<T>)
    requires x + z == y + z
    ensures x == y
  {
    forall t ensures x[t] == y[t] {
      assert (x + z)[t] == (y + z)[t];
    }
  }

  lemma {:induction false} BagMember<K, V, T>(m: map<K, V>, f: V -> multiset<T>, k: K)
    requires k in m
    ensures f(m[k]) <= Bag(m, f)
  {
    BagWithout(m.Keys, m, f, k);
  }

  // ---------------------------------------------------------------- sweeping a map

  lemma DropBag<K, V, T>(m: map<K, V>, ks: set<K>, f: V -> multiset<T>)
    requires ks <= m.Keys
    ensures Bag(m, f) == Bag(Drop(m, ks), f) + BagOver(ks, m, f)
  {
    BagSplit(m.Keys, ks, m, f);
    BagFrame(m.Keys - ks, m, Drop(m, ks), f);
  }

  lemma DropSize<K, V>(m: map<K, V>, ks: set<K>)
    ensures |Drop(m, ks)| <= |m|
  {
    assert |m.Keys - ks| + |m.Keys * ks| == |m.Keys|;
  }

  lemma DropAgain<K, V>(m: map<K, V>, k: K, ks: set<K>)
    ensures Drop(Without(m, k), ks) == Drop(m, {k} + ks)
  {
  }

  /** What the keys `done` held has been moved from the map into a bag. */
  ghost predicate Moved<K, V, T>(m: map<K, V>, kept: map<K, V>, done: set<K>, f: V -> multiset<T>,
                                 was: multiset<T>, gone: multiset<T>)
  {
    done <= m.Keys && kept == Drop(m, done) && gone + Bag(kept, f) == was + Bag(m, f)
  }

  lemma MoveNone<K, V, T>(m: map<K, V>, f: V -> multiset<T>, was: multiset<T>)
    ensures Moved(m, m, {}, f, was, was)
  {
    assert m == Drop(m, {});
  }

  lemma MoveOne<K, V, T>(m: map<K, V>, kept: map<K, V>, done: set<K>, f: V -> multiset<T>,
                         was: multiset<T>, gone: multiset<T>, key: K)
    requires Moved(m, kept, done, f, was, gone) && key in kept
    ensures Moved(m, Without(kept, key), done + {key}, f, was, gone + f(kept[key]))
  {
    BagRemove(kept, f, key);
    assert Without(kept, key) == Drop(m, done + {key});
  }

  lemma MovedBag<K, V, T>(m: map<K, V>, kept: map<K, V>, done: set<K>, f: V -> multiset<T>,
                          was: multiset<T>, gone: multiset<T>)
    requires Moved(m, kept, done, f, was, gone)
    ensures kept == Drop(m, done)
    ensures gone == was + BagOver(done, m, f)
  {
    DropBag(m, done, f);
    Cancel(gone, was + BagOver(done, m, f), Bag(kept, f));
  }
}
