/** An insertion-ordered map: what a json-c object is to its callers. */
module OrderedMap {
  datatype Pair<+K, +V> = Pair(key: K, value: V)

  /** The position of a key, or -1. */
  function Find<K(==), V>(m: seq<Pair<K, V>>, k: K): (i: int)
    ensures -1 <= i < |m|
    ensures i >= 0 ==> m[i].key == k
    ensures i < 0 ==> forall j :: 0 <= j < |m| ==> m[j].key != k
  {
    if m == [] then -1
    else if m[|m| - 1].key == k then |m| - 1
    else Find(m[..|m| - 1], k)
  }

  ghost predicate UniqueKeys<K, V>(m: seq<Pair<K, V>>) {
    forall i, j :: 0 <= i < j < |m| ==> m[i].key != m[j].key
  }

  /** A known key keeps its place and gets the new value; a new key goes last. */
  function Add<K(==), V>(m: seq<Pair<K, V>>, k: K, v: V): seq<Pair<K, V>> {
    var i := Find(m, k);
    if i >= 0 then m[i := Pair(k, v)] else m + [Pair(k, v)]
  }

  function Remove<K(==), V>(m: seq<Pair<K, V>>, k: K): seq<Pair<K, V>> {
    var i := Find(m, k);
    if i >= 0 then m[..i] + m[i + 1..] else m
  }

  lemma FindUnique<K, V>(m: seq<Pair<K, V>>, k: K, i: nat)
    requires UniqueKeys(m) && i < |m| && m[i].key == k
    ensures Find(m, k) == i
  {
    var j := Find(m, k);
    assert m[j].key == m[i].key;
  }

  // ----- what the operations mean to a caller

  /** p comes before q. */
  ghost predicate Precedes<K, V>(m: seq<Pair<K, V>>, p: Pair<K, V>, q: Pair<K, V>) {
    exists i, j :: 0 <= i < j < |m| && m[i] == p && m[j] == q
  }

  /** After adding, the key has the new value and every other key what it had; a key that was
      there keeps its place, a new one goes last, and the others keep their order. */
  lemma AddLaws<K, V>(m: seq<Pair<K, V>>, k: K, v: V)
    requires UniqueKeys(m)
    ensures UniqueKeys(Add(m, k, v))
    ensures forall p: Pair<K, V> :: p in Add(m, k, v) <==> p == Pair(k, v) || (p in m && p.key != k)
    ensures forall p: Pair<K, V>, q: Pair<K, V> :: p.key != k && q.key != k ==> (Precedes(Add(m, k, v), p, q) <==> Precedes(m, p, q))
    ensures (forall p <- m :: p.key != k) ==> forall p <- m :: Precedes(Add(m, k, v), p, Pair(k, v))
    ensures forall w: V, q: Pair<K, V> :: Pair(k, w) in m && q.key != k ==>
              (Precedes(Add(m, k, v), Pair(k, v), q) <==> Precedes(m, Pair(k, w), q))
  {
    var r, n := Add(m, k, v), Find(m, k);
    if n >= 0 {
      KeepsPlace(m, r, n, k, v);
    } else {
      assert forall i :: 0 <= i < |m| ==> r[i] == m[i];
      assert r[|m|] == Pair(k, v);
      forall p <- m ensures Precedes(r, p, Pair(k, v)) {
        var i :| 0 <= i < |m| && m[i] == p;
        assert r[i] == p;
      }
    }
  }

  lemma KeepsPlace<K, V>(m: seq<Pair<K, V>>, r: seq<Pair<K, V>>, n: nat, k: K, v: V)
    requires UniqueKeys(m) && n < |m| && m[n].key == k && r == m[n := Pair(k, v)]
    ensures UniqueKeys(r)
    ensures forall p: Pair<K, V> :: p in r <==> p == Pair(k, v) || (p in m && p.key != k)
    ensures forall p: Pair<K, V>, q: Pair<K, V> :: p.key != k && q.key != k ==> (Precedes(r, p, q) <==> Precedes(m, p, q))
    ensures forall w: V, q: Pair<K, V> :: Pair(k, w) in m && q.key != k ==> (Precedes(r, Pair(k, v), q) <==> Precedes(m, Pair(k, w), q))
  {
    assert r[n] == Pair(k, v) && forall i :: 0 <= i < |m| && i != n ==> r[i] == m[i] && m[i].key != k;
    forall p: Pair<K, V> | p in m && p.key != k ensures p in r {
      var i :| 0 <= i < |m| && m[i] == p;
      assert r[i] == p;
    }
  }

  /** After removing, the key is gone, every other key has what it had, in the same order. */
  lemma RemoveLaws<K, V>(m: seq<Pair<K, V>>, k: K)
    requires UniqueKeys(m)
    ensures UniqueKeys(Remove(m, k))
    ensures forall p: Pair<K, V> :: p in Remove(m, k) <==> p in m && p.key != k
    ensures forall p: Pair<K, V>, q: Pair<K, V> :: p.key != k && q.key != k ==> (Precedes(Remove(m, k), p, q) <==> Precedes(m, p, q))
  {
    var n := Find(m, k);
    if n >= 0 {
      OthersStay(m, n);
      forall p: Pair<K, V>, q: Pair<K, V> | p.key != k && q.key != k ensures Precedes(Remove(m, k), p, q) <==> Precedes(m, p, q) {
        OrderStays(m, n, p, q);
      }
    }
  }

  lemma OthersStay<K, V>(m: seq<Pair<K, V>>, n: nat)
    requires UniqueKeys(m) && n < |m|
    ensures var r := m[..n] + m[n + 1..];
            UniqueKeys(r) && forall p: Pair<K, V> :: p in r <==> p in m && p.key != m[n].key
  {
    var r := m[..n] + m[n + 1..];
    assert forall i :: 0 <= i < |r| ==> r[i] == m[if i < n then i else i + 1];
    forall p | p in m && p.key != m[n].key ensures p in r {
      var i :| 0 <= i < |m| && m[i] == p;
      assert r[if i < n then i else i - 1] == p;
    }
  }

  lemma OrderStays<K, V>(m: seq<Pair<K, V>>, n: nat, p: Pair<K, V>, q: Pair<K, V>)
    requires n < |m| && p.key != m[n].key && q.key != m[n].key
    ensures Precedes(m[..n] + m[n + 1..], p, q) <==> Precedes(m, p, q)
  {
    var r := m[..n] + m[n + 1..];
    if Precedes(m, p, q) {
      var i, j :| 0 <= i < j < |m| && m[i] == p && m[j] == q;
      assert r[if i < n then i else i - 1] == p && r[if j < n then j else j - 1] == q;
    }
    if Precedes(r, p, q) {
      var i, j :| 0 <= i < j < |r| && r[i] == p && r[j] == q;
      assert m[if i < n then i else i + 1] == p && m[if j < n then j else j + 1] == q;
    }
  }
}
