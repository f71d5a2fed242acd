/**
 The slots of an open-addressing hash table threaded by a doubly linked list, as values:
 when they represent an insertion-ordered map, and what inserting and deleting do to them.
 */
module LinkHashSpec {
  import opened Bytes
  import opened OrderedMap

  /** The key field of a slot: LH_EMPTY, LH_FREED or a key. */
  datatype Cell<+K> = Empty | Freed | Used(k: K)

  /** A slot; the links are slot numbers, NIL for NULL. */
  datatype Entry<+K, +V> = Entry(cell: Cell<K>, v: Option<V>, next: int, prev: int)

  const NIL: int := -1

  // ----- probing

  /** The slot d steps behind slot h. */
  function SlotAt(size: nat, h: nat, d: nat): nat
    requires h < size && d < size
  {
    if h + d < size then h + d else h + d - size
  }

  /** How many steps lead from slot h to slot s. */
  function Dist(size: nat, h: nat, s: nat): nat
    requires h < size && s < size
  {
    if h <= s then s - h else s - h + size
  }

  function Home<K>(hash: K -> nat, k: K, size: nat): nat
    requires size > 0
  {
    hash(k) % size
  }

  /** A search for the key in slot s that starts at its home slot meets no empty slot. */
  ghost predicate Reached<K, V>(e: seq<Entry<K, V>>, hash: K -> nat, s: nat)
    requires s < |e| && e[s].cell.Used?
  {
    var h := Home(hash, e[s].cell.k, |e|);
    forall d :: 0 <= d < Dist(|e|, h, s) ==> e[SlotAt(|e|, h, d)].cell != Empty
  }

  ghost predicate ProbesOk<K, V>(e: seq<Entry<K, V>>, hash: K -> nat) {
    forall s :: 0 <= s < |e| && e[s].cell.Used? ==> Reached(e, hash, s)
  }

  // ----- the list

  function NextOf(order: seq<nat>, i: nat): int
    requires i < |order|
  {
    if i + 1 < |order| then order[i + 1] else NIL
  }

  function PrevOf(order: seq<nat>, i: nat): int
    requires i < |order|
  {
    if i > 0 then order[i - 1] else NIL
  }

  ghost predicate LinkOk<K, V>(e: seq<Entry<K, V>>, order: seq<nat>, i: nat)
    requires i < |order|
  {
    && order[i] < |e| && e[order[i]].cell.Used? && e[order[i]].v.Some?
    && e[order[i]].next == NextOf(order, i) && e[order[i]].prev == PrevOf(order, i)
  }

  ghost predicate Distinct(order: seq<nat>) {
    forall i, j :: 0 <= i < j < |order| ==> order[i] != order[j]
  }

  /** `order` are the used slots in list order; the links agree with it. */
  ghost predicate ListOk<K, V>(e: seq<Entry<K, V>>, order: seq<nat>) {
    && Distinct(order)
    && (forall i :: 0 <= i < |order| ==> LinkOk(e, order, i))
    && (forall s :: 0 <= s < |e| && e[s].cell.Used? ==> s in order)
  }

  function First(order: seq<nat>): int {
    if order == [] then NIL else order[0]
  }

  function Last(order: seq<nat>): int {
    if order == [] then NIL else order[|order| - 1]
  }

  ghost function Contents<K, V>(e: seq<Entry<K, V>>, order: seq<nat>): (m: seq<Pair<K, V>>)
    requires ListOk(e, order)
    ensures |m| == |order|
  {
    seq(|order|, i requires 0 <= i < |order| =>
      assert LinkOk(e, order, i); Pair(e[order[i]].cell.k, e[order[i]].v.value))
  }

  // ----- counting slots

  /** The slot numbers below n. */
  ghost function Below(n: nat): (s: set<nat>)
    ensures |s| == n && forall x :: x in s <==> 0 <= x < n
  {
    if n == 0 then {} else Below(n - 1) + {n - 1}
  }

  ghost function Elements(order: seq<nat>): (s: set<nat>)
    requires Distinct(order)
    ensures |s| == |order| && forall x :: x in s <==> x in order
  {
    if order == [] then {}
    else
      var n := |order| - 1;
      assert order == order[..n] + [order[n]];
      assert order[n] !in order[..n];
      Elements(order[..n]) + {order[n]}
  }

  lemma {:induction false} CardMono<T>(a: set<T>, b: set<T>)
    requires a <= b
    ensures |a| <= |b|
    decreases |a|
  {
    if a != {} {
      var x :| x in a;
      CardMono(a - {x}, b - {x});
    }
  }

  /** There are never more keys than slots. */
  lemma KeysFit<K, V>(e: seq<Entry<K, V>>, order: seq<nat>)
    requires ListOk(e, order)
    ensures |order| <= |e|
  {
    forall x | x in order ensures x in Below(|e|) {
      var i :| 0 <= i < |order| && order[i] == x;
      assert LinkOk(e, order, i);
    }
    CardMono(Elements(order), Below(|e|));
  }

  /** A table with fewer keys than slots has a slot that is not used. */
  lemma FreeSlot<K, V>(e: seq<Entry<K, V>>, order: seq<nat>) returns (s: nat)
    requires ListOk(e, order) && |order| < |e|
    ensures s < |e| && !e[s].cell.Used?
  {
    if forall x :: 0 <= x < |e| ==> e[x].cell.Used? {
      CardMono(Below(|e|), Elements(order));
    }
    s :| 0 <= s < |e| && !e[s].cell.Used?;
  }

  // ----- inserting

  /** Fill slot n and append it to the list. */
  function Inserted<K, V>(e: seq<Entry<K, V>>, tail: int, n: nat, k: K, v: V): seq<Entry<K, V>>
    requires n < |e| && NIL <= tail < |e|
  {
    var e' := if tail == NIL then e else e[tail := e[tail].(next := n)];
    e'[n := Entry(Used(k), Some(v), NIL, tail)]
  }

  lemma InsertedList<K, V>(e: seq<Entry<K, V>>, order: seq<nat>, n: nat, k: K, v: V)
    requires ListOk(e, order) && n < |e| && !e[n].cell.Used? && Last(order) < |e|
    ensures var e' := Inserted(e, Last(order), n, k, v);
            ListOk(e', order + [n]) && Contents(e', order + [n]) == Contents(e, order) + [Pair(k, v)]
  {
    var e', order' := Inserted(e, Last(order), n, k, v), order + [n];
    forall i | 0 <= i < |order| ensures order[i] != n {
      assert LinkOk(e, order, i);
    }
    forall i | 0 <= i < |order'| ensures LinkOk(e', order', i) {
      if i < |order| {
        assert LinkOk(e, order, i);
      }
    }
    forall s | 0 <= s < |e'| && e'[s].cell.Used? ensures s in order' {
      if s != n {
        assert e[s].cell.Used? && s in order;
        assert order <= order';
      } else {
        assert order'[|order|] == n;
      }
    }
    forall i | 0 <= i < |order| ensures Contents(e', order')[i] == Contents(e, order)[i] {
      assert LinkOk(e, order, i);
    }
  }

  /** The new key is found if the search that chose its slot met no empty one. */
  lemma InsertedProbes<K, V>(e: seq<Entry<K, V>>, tail: int, hash: K -> nat, n: nat, k: K, v: V)
    requires ProbesOk(e, hash) && n < |e| && NIL <= tail < |e| && !e[n].cell.Used?
    requires var h := Home(hash, k, |e|);
             forall d :: 0 <= d < Dist(|e|, h, n) ==> e[SlotAt(|e|, h, d)].cell != Empty
    ensures ProbesOk(Inserted(e, tail, n, k, v), hash)
  {
    var e' := Inserted(e, tail, n, k, v);
    assert forall s :: 0 <= s < |e| && e[s].cell != Empty ==> e'[s].cell != Empty;
    forall s | 0 <= s < |e'| && e'[s].cell.Used? ensures Reached(e', hash, s) {
      if s != n {
        assert Reached(e, hash, s);
      }
    }
  }

  // ----- deleting

  predicate LinksIn<K, V>(e: seq<Entry<K, V>>, n: nat) {
    n < |e| && NIL <= e[n].prev < |e| && NIL <= e[n].next < |e|
  }

  /** Unlink slot n and leave a tombstone. */
  function Deleted<K, V>(e: seq<Entry<K, V>>, n: nat): seq<Entry<K, V>>
    requires LinksIn(e, n)
  {
    var p, q := e[n].prev, e[n].next;
    var e1 := if p == NIL then e else e[p := e[p].(next := q)];
    var e2 := if q == NIL then e1 else e1[q := e1[q].(prev := p)];
    e2[n := Entry(Freed, None, NIL, NIL)]
  }

  lemma LinksInRange<K, V>(e: seq<Entry<K, V>>, order: seq<nat>, i: nat)
    requires ListOk(e, order) && i < |order|
    ensures LinkOk(e, order, i) && LinksIn(e, order[i])
  {
    assert LinkOk(e, order, i);
    if i > 0 {
      assert LinkOk(e, order, i - 1);
    }
    if i + 1 < |order| {
      assert LinkOk(e, order, i + 1);
    }
  }

  function Without<T>(s: seq<T>, i: nat): seq<T>
    requires i < |s|
  {
    s[..i] + s[i + 1..]
  }

  lemma DeletedLinks<K, V>(e: seq<Entry<K, V>>, order: seq<nat>, i: nat, j: nat)
    requires ListOk(e, order) && i < |order| && j < |order| - 1
    requires LinksIn(e, order[i])
    ensures LinkOk(Deleted(e, order[i]), Without(order, i), j)
    ensures Deleted(e, order[i])[Without(order, i)[j]].cell == e[Without(order, i)[j]].cell
    ensures Deleted(e, order[i])[Without(order, i)[j]].v == e[Without(order, i)[j]].v
  {
    assert LinkOk(e, order, i);
    var x := if j < i then j else j + 1;
    assert LinkOk(e, order, x);
    assert Without(order, i)[j] == order[x];
    assert x != i && order[x] != order[i];
    if i > 0 {
      assert LinkOk(e, order, i - 1);
    }
    if i + 1 < |order| {
      assert LinkOk(e, order, i + 1);
    }
  }

  lemma DeletedList<K, V>(e: seq<Entry<K, V>>, order: seq<nat>, i: nat)
    requires ListOk(e, order) && i < |order|
    requires LinksIn(e, order[i])
    ensures var e', order' := Deleted(e, order[i]), Without(order, i);
            ListOk(e', order') && Contents(e', order') == Without(Contents(e, order), i)
  {
    var e', order' := Deleted(e, order[i]), Without(order, i);
    forall j | 0 <= j < |order'| ensures LinkOk(e', order', j) {
      DeletedLinks(e, order, i, j);
    }
    forall s | 0 <= s < |e'| && e'[s].cell.Used? ensures s in order' {
      assert e[s].cell.Used? && s in order;
      var x :| 0 <= x < |order| && order[x] == s;
      assert x != i;
      assert order'[if x < i then x else x - 1] == s;
    }
    forall a, b | 0 <= a < b < |order'| ensures order'[a] != order'[b] {
    }
    forall j | 0 <= j < |order'| ensures Contents(e', order')[j] == Without(Contents(e, order), i)[j] {
      DeletedLinks(e, order, i, j);
      assert LinkOk(e, order, if j < i then j else j + 1);
    }
  }

  lemma DeletedProbes<K, V>(e: seq<Entry<K, V>>, hash: K -> nat, n: nat)
    requires ProbesOk(e, hash) && LinksIn(e, n)
    ensures ProbesOk(Deleted(e, n), hash)
  {
    var e' := Deleted(e, n);
    assert forall s :: 0 <= s < |e| && s != n ==> e'[s].cell == e[s].cell;
    forall s | 0 <= s < |e'| && e'[s].cell.Used? ensures Reached(e', hash, s) {
      assert Reached(e, hash, s);
    }
  }
}
