/**
 The hash table of json-c (linkhash): open addressing with tombstones, doubled when two
 thirds full, threaded by a doubly linked list in insertion order. The class is shown to be
 an insertion-ordered map; the hash function is arbitrary.
 */
module LinkHash {
  import opened Bytes
  import opened OrderedMap
  import opened LinkHashSpec

  // ----- searching

  /** Where a key that is present must be met by the search. */
  lemma KeyIsMet<K, V>(e: seq<Entry<K, V>>, hash: K -> nat, k: K, c: nat)
    requires ProbesOk(e, hash) && |e| > 0 && c <= |e|
    requires var h := Home(hash, k, |e|);
             && (forall d :: 0 <= d < c ==> e[SlotAt(|e|, h, d)].cell != Used(k))
             && (c < |e| ==> e[SlotAt(|e|, h, c)].cell == Empty)
    ensures forall s :: 0 <= s < |e| ==> e[s].cell != Used(k)
  {
    var h := Home(hash, k, |e|);
    forall s | 0 <= s < |e| ensures e[s].cell != Used(k) {
      var d := Dist(|e|, h, s);
      assert SlotAt(|e|, h, d) == s;
      assert e[s].cell.Used? ==> Reached(e, hash, s);
    }
  }

  /** The slot of a key and its place in the map. */
  lemma SlotOfKey<K, V>(e: seq<Entry<K, V>>, order: seq<nat>, k: K, s: nat)
    requires ListOk(e, order) && UniqueKeys(Contents(e, order)) && s < |e| && e[s].cell == Used(k)
    ensures var i := Find(Contents(e, order), k);
            i >= 0 && order[i] == s
  {
    assert s in order;
    var i :| 0 <= i < |order| && order[i] == s;
    assert Contents(e, order)[i].key == k;
    FindUnique(Contents(e, order), k, i);
  }

  lemma NoSlotNoKey<K, V>(e: seq<Entry<K, V>>, order: seq<nat>, k: K)
    requires ListOk(e, order) && forall s :: 0 <= s < |e| ==> e[s].cell != Used(k)
    ensures Find(Contents(e, order), k) < 0
  {
    var m := Contents(e, order);
    forall i | 0 <= i < |m| ensures m[i].key != k {
      assert LinkOk(e, order, i);
    }
  }

  lemma AppendUnique<K, V>(m: seq<Pair<K, V>>, k: K, v: V)
    requires UniqueKeys(m) && Find(m, k) < 0
    ensures UniqueKeys(m + [Pair(k, v)])
  {
  }

  lemma WithoutUnique<K, V>(m: seq<Pair<K, V>>, i: nat)
    requires UniqueKeys(m) && i < |m|
    ensures UniqueKeys(Without(m, i))
  {
    var m' := Without(m, i);
    forall a, b | 0 <= a < b < |m'| ensures m'[a].key != m'[b].key {
      assert m'[a] == m[if a < i then a else a + 1] && m'[b] == m[if b < i then b else b + 1];
    }
  }

  lemma TailInRange<K, V>(e: seq<Entry<K, V>>, order: seq<nat>)
    requires ListOk(e, order)
    ensures NIL <= Last(order) < |e|
  {
    if order != [] {
      assert LinkOk(e, order, |order| - 1);
    }
  }

  /** Overwriting a value leaves keys and links alone. */
  lemma ReplacedOk<K, V>(e: seq<Entry<K, V>>, order: seq<nat>, hash: K -> nat, i: nat, v: V)
    requires ListOk(e, order) && ProbesOk(e, hash) && i < |order| && order[i] < |e|
    ensures var e' := e[order[i] := e[order[i]].(v := Some(v))];
            && ListOk(e', order) && ProbesOk(e', hash)
            && Contents(e', order) == Contents(e, order)[i := Pair(Contents(e, order)[i].key, v)]
  {
    var e' := e[order[i] := e[order[i]].(v := Some(v))];
    forall j | 0 <= j < |order| ensures LinkOk(e', order, j) {
      assert LinkOk(e, order, j);
    }
    assert forall s :: 0 <= s < |e| ==> e'[s].cell == e[s].cell;
    forall s | 0 <= s < |e'| && e'[s].cell.Used? ensures Reached(e', hash, s) {
      assert Reached(e, hash, s);
    }
    var m := Contents(e, order);
    forall j | 0 <= j < |order| ensures Contents(e', order)[j] == m[i := Pair(m[i].key, v)][j] {
      assert LinkOk(e, order, j);
    }
  }

  class Table<K(==), V> {
    const hash: K -> nat
    var size: nat
    var count: nat
    var table: array<Entry<K, V>>
    var head: int
    var tail: int
    /** The used slots in list order. */
    ghost var order: seq<nat>

    ghost predicate Valid()
      reads this, table
    {
      && size > 0 && table.Length == size && count == |order|
      && ListOk(table[..], order) && head == First(order) && tail == Last(order)
      && ProbesOk(table[..], hash)
      && UniqueKeys(Contents(table[..], order))
    }

    /** The map the table stands for. */
    ghost function Model(): seq<Pair<K, V>>
      reads this, table
      requires Valid()
    {
      Contents(table[..], order)
    }

    /** LH_LOAD_FACTOR is 0.66. */
    predicate Loaded()
      reads this
    {
      100 * count >= 66 * size
    }

    constructor (size: nat, hash: K -> nat)
      requires size > 0
      ensures Valid() && Model() == [] && this.size == size && this.hash == hash && fresh(table)
    {
      this.hash := hash;
      this.size, count, head, tail, order := size, 0, NIL, NIL, [];
      table := new Entry<K, V>[size](_ => Entry(Empty, None, NIL, NIL));
    }

    /** The probe loop of insert: the first slot that is empty or freed. */
    method FindSlot(h: nat, ghost k: K) returns (n: nat)
      requires Valid() && count < size && h == hash(k)
      ensures n < size && !table[n].cell.Used?
      ensures forall d :: 0 <= d < Dist(size, Home(hash, k, size), n) ==>
                table[SlotAt(size, Home(hash, k, size), d)].cell.Used?
    {
      n := h % size;
      ghost var home, d := n, 0;
      ghost var free := FreeSlot(table[..], order);
      ghost var bound := Dist(size, home, free);
      assert SlotAt(size, home, bound) == free;
      while true
        invariant d <= bound && n == SlotAt(size, home, d)
        invariant forall c :: 0 <= c < d ==> table[SlotAt(size, home, c)].cell.Used?
        decreases bound - d
      {
        if table[n].cell.Empty? || table[n].cell.Freed? {
          break;
        }
        n := n + 1;
        if n == size { n := 0; }
        d := d + 1;
      }
      assert Dist(size, home, n) == d;
    }

    /** lh_table_insert_w_hash: the caller has checked that the key is new. */
    method Insert(k: K, v: V, h: nat)
      requires Valid() && h == hash(k) && Find(Model(), k) < 0
      modifies this, table
      ensures Valid() && Model() == old(Model()) + [Pair(k, v)]
      ensures size == if old(Loaded()) then 2 * old(size) else old(size)
      ensures table == old(table) || fresh(table)
      decreases if Loaded() then 4 else 0
    {
      KeysFit(table[..], order);
      if 100 * count >= 66 * size {
        Resize(size * 2);
      }
      Place(k, v, h);
    }

    method Place(k: K, v: V, h: nat)
      requires Valid() && h == hash(k) && Find(Model(), k) < 0 && count < size
      modifies this, table
      ensures Valid() && Model() == old(Model()) + [Pair(k, v)]
      ensures size == old(size) && table == old(table)
      decreases 0
    {
      var n := FindSlot(h, k);
      ghost var e, m := table[..], Model();
      TailInRange(e, order);
      InsertedList(e, order, n, k, v);
      InsertedProbes(e, tail, hash, n, k, v);
      AppendUnique(m, k, v);
      if head == NIL {
        table[n] := Entry(Used(k), Some(v), NIL, NIL);
        head, tail := n, n;
      } else {
        table[tail] := table[tail].(next := n);
        table[n] := Entry(Used(k), Some(v), NIL, tail);
        tail := n;
      }
      assert table[..] == Inserted(e, Last(order), n, k, v);
      count := count + 1;
      order := order + [n];
    }

    /** Rehash into a table of twice the size, in list order. No insertion on the way can
        ask for another resize: the measures of the calls say so. */
    method Resize(newSize: nat)
      requires Valid() && newSize == 2 * size
      modifies this
      ensures Valid() && Model() == old(Model()) && size == newSize && count == old(count) && fresh(table)
      decreases 3
    {
      hide ListOk, ProbesOk, UniqueKeys, Contents, Find;
      var nt := Rehash(newSize);
      table, size, head, tail, order := nt.table, newSize, nt.head, nt.tail, nt.order;
    }

    /** The pairs of this table in a new one. */
    method Rehash(newSize: nat) returns (nt: Table<K, V>)
      requires Valid() && newSize == 2 * size
      ensures fresh(nt) && fresh(nt.table) && nt.Valid() && nt.hash == hash && nt.size == newSize && nt.Model() == Model()
      decreases 2
    {
      KeysFit(table[..], order);
      hide ListOk, ProbesOk, UniqueKeys, Contents, Find;
      nt := new Table<K, V>(newSize, hash);
      var ent := head;
      ghost var i := 0;
      while ent != NIL
        invariant fresh(nt) && fresh(nt.table) && nt.Valid() && nt.hash == hash && nt.size == newSize
        invariant 0 <= i <= |order| && ent == if i < |order| then order[i] else NIL
        invariant nt.Model() == Model()[..i]
        decreases |order| - i
      {
        ent := CopyPair(nt, ent, i);
        i := i + 1;
      }
      assert Model()[..i] == Model();
    }

    /** Insert one pair into the new table; the next entry. */
    method CopyPair(nt: Table<K, V>, ent: int, ghost i: nat) returns (next: int)
      requires Valid() && nt.Valid() && nt != this && nt.table != table && nt.hash == hash && nt.size == 2 * size
      requires i < |order| <= size && ent == order[i] && nt.Model() == Model()[..i]
      modifies nt, nt.table
      ensures nt.Valid() && nt.size == old(nt.size) && (nt.table == old(nt.table) || fresh(nt.table))
      ensures nt.Model() == Model()[..i + 1] && next == if i + 1 < |order| then order[i + 1] else NIL
      decreases 1
    {
      EntryAt(table[..], order, i);
      ghost var m := Model();
      KeyIsNew(m, i);
      hide ListOk, ProbesOk, UniqueKeys, Contents, Find;
      var k, v := table[ent].cell.k, table[ent].v.value;
      nt.Insert(k, v, nt.hash(k));
      assert m[..i] + [m[i]] == m[..i + 1];
      next := table[ent].next;
    }

    /** The slot of a key, or NIL. */
    method LookupEntry(k: K, h: nat) returns (n: int)
      requires Valid() && h == hash(k)
      ensures n >= 0 ==> Find(Model(), k) >= 0 && order[Find(Model(), k)] == n
      ensures n < 0 ==> n == NIL && Find(Model(), k) < 0
    {
      n := h % size;
      ghost var home := n;
      var c := 0;
      while c < size
        invariant c <= size && (c < size ==> n == SlotAt(size, home, c))
        invariant forall d :: 0 <= d < c ==> table[SlotAt(size, home, d)].cell != Used(k)
      {
        if table[n].cell.Empty? {
          KeyIsMet(table[..], hash, k, c);
          NoSlotNoKey(table[..], order, k);
          return NIL;
        }
        if table[n].cell.Used? && table[n].cell.k == k {
          SlotOfKey(table[..], order, k, n);
          return n;
        }
        n := n + 1;
        if n == size { n := 0; }
        c := c + 1;
      }
      KeyIsMet(table[..], hash, k, size);
      NoSlotNoKey(table[..], order, k);
      return NIL;
    }

    method Lookup(k: K) returns (r: Option<V>)
      requires Valid()
      ensures r == var i := Find(Model(), k); if i >= 0 then Some(Model()[i].value) else None
    {
      var n := LookupEntry(k, hash(k));
      if n == NIL {
        return None;
      }
      assert LinkOk(table[..], order, Find(Model(), k));
      return Some(table[n].v.value);
    }

    /** lh_table_delete_entry: -2 and -1 for a pointer that is not at a live entry. */
    method DeleteEntry(n: int) returns (status: int)
      requires Valid() && n < size
      modifies this, table
      ensures Valid() && size == old(size) && table == old(table)
      ensures status != 0 ==> Model() == old(Model()) && (n < 0 || !old(table[n].cell.Used?))
      ensures status == 0 ==> n >= 0 && n in old(order)
      ensures forall i :: 0 <= i < |old(order)| && old(order)[i] == n ==>
                status == 0 && Model() == Without(old(Model()), i)
    {
      if n < 0 {
        return -2;
      }
      if table[n].cell.Empty? || table[n].cell.Freed? {
        forall i | 0 <= i < |order| ensures order[i] != n {
          assert LinkOk(table[..], order, i);
        }
        return -1;
      }
      ghost var i :| 0 <= i < |order| && order[i] == n;
      ghost var e := table[..];
      LinksInRange(e, order, i);
      DeletedList(e, order, i);
      DeletedProbes(e, hash, n);
      WithoutUnique(Model(), i);
      count := count - 1;
      Unlink(n, i);
      order := Without(order, i);
      return 0;
    }

    /** The four cases of the list surgery. */
    method Unlink(n: nat, ghost i: nat)
      requires table.Length == size && ListOk(table[..], order) && head == First(order) && tail == Last(order)
      requires i < |order| && order[i] == n && LinksIn(table[..], n)
      modifies this`head, this`tail, table
      ensures table[..] == old(Deleted(table[..], n))
      ensures head == First(Without(order, i)) && tail == Last(Without(order, i))
    {
      assert LinkOk(table[..], order, i);
      ghost var e := table[..];
      if i > 0 { assert LinkOk(e, order, i - 1); }
      if i + 1 < |order| { assert LinkOk(e, order, i + 1); }
      EndsDiffer(order, i);
      table[n] := table[n].(v := None, cell := Freed);
      if tail == n && head == n {
        head, tail := NIL, NIL;
      } else if head == n {
        var q := table[head].next;
        table[q] := table[q].(prev := NIL);
        head := q;
      } else if tail == n {
        var p := table[tail].prev;
        table[p] := table[p].(next := NIL);
        tail := p;
      } else {
        var p, q := table[n].prev, table[n].next;
        table[p] := table[p].(next := q);
        table[q] := table[q].(prev := p);
      }
      table[n] := table[n].(next := NIL, prev := NIL);
    }

    method Delete(k: K) returns (status: int)
      requires Valid()
      modifies this, table
      ensures Valid() && Model() == Remove(old(Model()), k)
      ensures status == if Find(old(Model()), k) >= 0 then 0 else -1
      ensures table == old(table)
    {
      var n := LookupEntry(k, hash(k));
      if n == NIL {
        return -1;
      }
      ghost var i := Find(Model(), k);
      assert LinkOk(table[..], order, i);
      status := DeleteEntry(n);
    }

    /** json_object_object_add_ex: an existing key keeps its entry and gets the new value. */
    method ObjectAdd(k: K, v: V)
      requires Valid()
      modifies this, table
      ensures Valid() && Model() == Add(old(Model()), k, v)
      ensures table == old(table) || fresh(table)
    {
      var h := hash(k);
      var n := LookupEntry(k, h);
      if n == NIL {
        Insert(k, v, h);
      } else {
        ghost var i, e := Find(Model(), k), table[..];
        assert LinkOk(e, order, i);
        ReplacedOk(e, order, hash, i, v);
        table[n] := table[n].(v := Some(v));
        assert table[..] == e[n := e[n].(v := Some(v))];
      }
    }

    /** lh_foreach: the list from head along next visits exactly the entries, in order. */
    method Entries() returns (m: seq<Pair<K, V>>)
      requires Valid()
      ensures m == Model()
    {
      m := [];
      var ent := head;
      ghost var i := 0;
      while ent != NIL
        invariant 0 <= i <= |order| && ent == if i < |order| then order[i] else NIL
        invariant m == Model()[..i]
        decreases |order| - i
      {
        assert LinkOk(table[..], order, i);
        m := m + [Pair(table[ent].cell.k, table[ent].v.value)];
        ent := table[ent].next;
        i := i + 1;
      }
    }
  }

  lemma EntryAt<K, V>(e: seq<Entry<K, V>>, order: seq<nat>, i: nat)
    requires ListOk(e, order) && i < |order|
    ensures LinkOk(e, order, i) && Contents(e, order)[i] == Pair(e[order[i]].cell.k, e[order[i]].v.value)
  {
  }

  lemma KeyIsNew<K, V>(m: seq<Pair<K, V>>, i: nat)
    requires UniqueKeys(m) && i < |m|
    ensures Find(m[..i], m[i].key) < 0
  {
    var u := m[..i];
    assert forall j :: 0 <= j < i ==> u[j].key == m[j].key != m[i].key;
  }

  lemma EndsDiffer(order: seq<nat>, i: nat)
    requires Distinct(order) && i < |order|
    ensures order[i] == First(order) <==> i == 0
    ensures order[i] == Last(order) <==> i == |order| - 1
  {
  }

  // ----- whole runs

  datatype Op<+K, +V> = Put(k: K, v: V) | Drop(k: K) | Get(k: K)

  /** What the operations leave, and what the lookups among them answer, by the map. */
  function RunOps<K(==), V>(m: seq<Pair<K, V>>, ops: seq<Op<K, V>>): (seq<Pair<K, V>>, seq<Option<V>>) {
    if ops == [] then (m, [])
    else
      var (m', answers) := RunOps(m, ops[..|ops| - 1]);
      match ops[|ops| - 1]
      case Put(k, v) => (Add(m', k, v), answers)
      case Drop(k) => (Remove(m', k), answers)
      case Get(k) =>
        var i := Find(m', k);
        (m', answers + [if i >= 0 then Some(m'[i].value) else None])
  }

  /** Every run on a table of any initial size agrees with the run on the map. */
  method Run<K(==), V>(size: nat, hash: K -> nat, ops: seq<Op<K, V>>)
    returns (m: seq<Pair<K, V>>, answers: seq<Option<V>>)
    requires size > 0
    ensures (m, answers) == RunOps([], ops)
  {
    var t := new Table<K, V>(size, hash);
    answers := [];
    for i := 0 to |ops|
      invariant fresh(t) && fresh(t.table) && t.Valid()
      invariant (t.Model(), answers) == RunOps([], ops[..i])
    {
      assert ops[..i + 1][..i] == ops[..i];
      match ops[i]
      case Put(k, v) => t.ObjectAdd(k, v);
      case Drop(k) => var _ := t.Delete(k);
      case Get(k) =>
        var r := t.Lookup(k);
        answers := answers + [r];
    }
    assert ops[..|ops|] == ops;
    m := t.Entries();
  }
}
