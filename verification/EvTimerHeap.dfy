/**
 The timer heap of libev as a value: entries hold a watcher and its cached time. What
 upheap, downheap, adjustheap and reheap make of it, and why the result is a heap again.
 */
module EvTimerHeap {
  import opened EvHeap

  class Watcher {
    /** The heap slot of a running timer, 0 otherwise. */
    var active: nat
    var at: real
    var repeat: real
    /** One more than the slot in the pending queue, 0 when not pending. */
    var pending: nat
    /** ABSPRI: the priority counted from the lowest. */
    const pri: nat

    constructor (after: real, repeat: real, pri: nat)
      ensures active == 0 && at == after && this.repeat == repeat && pending == 0 && this.pri == pri
    {
      active, at, this.repeat, pending, this.pri := 0, after, repeat, 0, pri;
    }
  }

  /** A heap entry with the cached time of its watcher. */
  datatype Anhe = Anhe(at: real, w: Watcher)

  datatype Anpending = Anpending(w: Watcher, events: bv32)

  function Keys(h: seq<Anhe>): (a: seq<real>)
    ensures |a| == |h|
  {
    seq(|h|, i requires 0 <= i < |h| => h[i].at)
  }

  ghost function Watchers(h: seq<Anhe>): set<Watcher> {
    set e | e in h :: e.w
  }

  ghost predicate DistinctW(h: seq<Anhe>) {
    forall i, j :: 0 <= i < j < |h| ==> h[i].w != h[j].w
  }

  /** The heap holds watchers of ws, and every entry but one knows its slot. */
  ghost predicate Indexed(h: seq<Anhe>, hole: int, ws: set<Watcher>)
    reads ws`active
  {
    forall i :: 0 <= i < |h| ==> h[i].w in ws && (i != hole ==> h[i].w.active == i + HEAP0)
  }

  lemma KeysSwap(h: seq<Anhe>, i: nat, j: nat)
    requires i < |h| && j < |h|
    ensures Keys(Swap(h, i, j)) == Swap(Keys(h), i, j)
  {
  }

  /** The same entries in another order, each watcher once. */
  ghost predicate Permuted(g: seq<Anhe>, h: seq<Anhe>) {
    && |g| == |h| && DistinctW(g) && multiset(g) == multiset(h)
  }

  lemma SwapPermutes(h: seq<Anhe>, i: nat, j: nat)
    requires i < |h| && j < |h| && DistinctW(h)
    ensures Permuted(Swap(h, i, j), h)
  {
  }

  /** Permuted heaps have the same entries and watchers. */
  lemma SameEntries(g: seq<Anhe>, h: seq<Anhe>)
    requires Permuted(g, h)
    ensures forall i :: 0 <= i < |g| ==> g[i] in h && g[i].w in Watchers(h)
    ensures forall i :: 0 <= i < |h| ==> h[i] in g && h[i].w in Watchers(g)
    ensures Watchers(g) == Watchers(h)
  {
    forall i | 0 <= i < |g| ensures g[i] in h {
      assert g[i] in multiset(g);
    }
    forall i | 0 <= i < |h| ensures h[i] in g {
      assert h[i] in multiset(h);
    }
  }

  lemma SwapDistinct(h: seq<Anhe>, i: nat, j: nat)
    requires i < |h| && j < |h| && DistinctW(h)
    ensures DistinctW(Swap(h, i, j))
  {
  }

  lemma KeysPrefix(h: seq<Anhe>, n: nat)
    requires n <= |h|
    ensures Keys(h[..n]) == Keys(h)[..n]
  {
  }

  /** Let entry j rise as long as its parent is later. */
  function UpFix(g: seq<Anhe>, j: nat): seq<Anhe>
    requires j < |g|
    decreases j
  {
    if j == 0 || g[Parent(j)].at <= g[j].at then g else UpFix(Swap(g, j, Parent(j)), Parent(j))
  }

  function Earlier(g: seq<Anhe>, c: nat, i: nat): nat
    requires c < |g|
  {
    if i < |g| && g[i].at < g[c].at then i else c
  }

  /** The first of the earliest children of entry j, or 0 when it has none. */
  function LeastChild(g: seq<Anhe>, j: nat): nat {
    var pos := DHEAP * j + 1;
    if pos >= |g| then 0
    else Earlier(g, Earlier(g, Earlier(g, pos, pos + 1), pos + 2), pos + 3)
  }

  /** Let entry j sink as long as a child is earlier. */
  function DownFix(g: seq<Anhe>, j: nat): seq<Anhe>
    requires j < |g|
    decreases |g| - j
  {
    var c := LeastChild(g, j);
    if c == 0 || g[j].at <= g[c].at then g else DownFix(Swap(g, j, c), c)
  }

  lemma UpFixUnfold(g: seq<Anhe>, j: nat)
    requires j < |g|
    ensures UpFix(g, j) == if j == 0 || g[Parent(j)].at <= g[j].at then g else UpFix(Swap(g, j, Parent(j)), Parent(j))
  {
  }

  lemma DownFixUnfold(g: seq<Anhe>, j: nat, c: nat)
    requires j < |g| && c == LeastChild(g, j) && c < |g|
    ensures DownFix(g, j) == if c == 0 || g[j].at <= g[c].at then g else DownFix(Swap(g, j, c), c)
  {
  }

  lemma {:induction false} UpFixPermutes(g: seq<Anhe>, j: nat)
    requires j < |g| && DistinctW(g)
    ensures Permuted(UpFix(g, j), g)
    decreases j
  {
    if j > 0 && g[j].at < g[Parent(j)].at {
      SwapPermutes(g, j, Parent(j));
      UpFixPermutes(Swap(g, j, Parent(j)), Parent(j));
    }
  }

  lemma {:induction false} UpFixOrders(g: seq<Anhe>, n: nat, j: nat)
    requires j < |g| && UpHole(Keys(g), n, j)
    ensures |UpFix(g, j)| == |g| && Ordered(Keys(UpFix(g, j)), n)
    decreases j
  {
    if j > 0 && g[j].at < g[Parent(j)].at {
      UpStep(Keys(g), n, j);
      KeysSwap(g, j, Parent(j));
      UpFixOrders(Swap(g, j, Parent(j)), n, Parent(j));
    } else {
      UpDone(Keys(g), n, j);
    }
  }

  lemma LeastChildIsLeast(g: seq<Anhe>, j: nat)
    requires j < |g|
    ensures var c := LeastChild(g, j);
            && c < |g| && (c > 0 ==> Parent(c) == j)
            && forall i :: 0 < i < |g| && Parent(i) == j ==> c > 0 && g[c].at <= g[i].at
  {
    var pos := DHEAP * j + 1;
    assert forall i :: 0 < i < |g| && Parent(i) == j ==> i == pos || i == pos + 1 || i == pos + 2 || i == pos + 3;
  }

  lemma {:induction false} DownFixPermutes(g: seq<Anhe>, j: nat)
    requires j < |g| && DistinctW(g)
    ensures Permuted(DownFix(g, j), g)
    decreases |g| - j
  {
    var c := LeastChild(g, j);
    if c > 0 && g[c].at < g[j].at {
      SwapPermutes(g, j, c);
      DownFixPermutes(Swap(g, j, c), c);
    }
  }

  lemma {:induction false} DownFixOrders(g: seq<Anhe>, j: nat)
    requires j < |g| && DownHole(Keys(g), |g|, j)
    ensures |DownFix(g, j)| == |g| && Ordered(Keys(DownFix(g, j)), |g|)
    decreases |g| - j
  {
    LeastChildIsLeast(g, j);
    var c := LeastChild(g, j);
    if c > 0 && g[c].at < g[j].at {
      DownStep(Keys(g), |g|, j, c);
      KeysSwap(g, j, c);
      hide LeastChild;
      DownFixOrders(Swap(g, j, c), c);
    } else {
      DownDone(Keys(g), |g|, j);
    }
  }

  /** adjustheap: replace entry j by any other and let it rise or sink. */
  function Adjusted(g: seq<Anhe>, j: nat): seq<Anhe>
    requires j < |g|
  {
    if j > 0 && g[j].at <= g[Parent(j)].at then UpFix(g, j) else DownFix(g, j)
  }

  lemma AdjustedIsHeap(g: seq<Anhe>, j: nat, was: real)
    requires j < |g| && DistinctW(g) && Ordered(Keys(g)[j := was], |g|)
    ensures Permuted(Adjusted(g, j), g) && Ordered(Keys(Adjusted(g, j)), |g|)
  {
    var a := Keys(g);
    Replaced(a[j := was], |g|, j, a[j]);
    assert a[j := was][j := a[j]] == a;
    if j > 0 && g[j].at <= g[Parent(j)].at {
      UpFixPermutes(g, j);
      UpFixOrders(g, |g|, j);
    } else {
      DownFixPermutes(g, j);
      DownFixOrders(g, j);
    }
  }

  lemma RisenIsHeap(g: seq<Anhe>, j: nat)
    requires j < |g| && DistinctW(g) && UpHole(Keys(g), |g|, j)
    ensures Permuted(UpFix(g, j), g) && Ordered(Keys(UpFix(g, j)), |g|) && Watchers(UpFix(g, j)) == Watchers(g)
  {
    UpFixPermutes(g, j);
    UpFixOrders(g, |g|, j);
    hide UpFix, Permuted, Watchers;
    SameEntries(UpFix(g, j), g);
  }

  /** reheap: let the entries rise one after the other. */
  function Reheaped(g: seq<Anhe>, n: nat): (h: seq<Anhe>)
    requires n <= |g|
    ensures |h| == |g|
  {
    if n == 0 then g else UpFixLength(Reheaped(g, n - 1), n - 1); UpFix(Reheaped(g, n - 1), n - 1)
  }

  lemma {:induction false} UpFixLength(g: seq<Anhe>, j: nat)
    requires j < |g|
    ensures |UpFix(g, j)| == |g|
    decreases j
  {
    if j > 0 && g[j].at < g[Parent(j)].at {
      UpFixLength(Swap(g, j, Parent(j)), Parent(j));
    }
  }

  /** A heap from any order whatsoever. */
  lemma {:induction false} ReheapedIsHeap(g: seq<Anhe>, n: nat)
    requires n <= |g| && DistinctW(g)
    ensures Permuted(Reheaped(g, n), g) && Ordered(Keys(Reheaped(g, n)), n)
  {
    if n > 0 {
      ReheapedIsHeap(g, n - 1);
      var h := Reheaped(g, n - 1);
      Appended(Keys(h), n - 1);
      UpFixPermutes(h, n - 1);
      UpFixOrders(h, n, n - 1);
    }
  }

  // ----- entries that come and go

  lemma OrderedPrefix(h: seq<Anhe>, n: nat)
    requires n <= |h| && Ordered(Keys(h), |h|)
    ensures Ordered(Keys(h[..n]), n)
  {
    forall i | 0 < i < n ensures InOrder(Keys(h[..n]), i) {
      assert InOrder(Keys(h), i);
    }
  }

  lemma AppendedHeap(h: seq<Anhe>, e: Anhe)
    requires DistinctW(h) && Ordered(Keys(h), |h|) && forall i :: 0 <= i < |h| ==> h[i].w != e.w
    ensures DistinctW(h + [e]) && UpHole(Keys(h + [e]), |h| + 1, |h|)
  {
    var g := h + [e];
    assert g[..|h|] == h;
    KeysPrefix(g, |h|);
    forall i | 0 < i < |h| ensures InOrder(Keys(g), i) {
      assert InOrder(Keys(h), i);
    }
    Appended(Keys(g), |h|);
  }

  lemma AppendedWatchers(h: seq<Anhe>, e: Anhe)
    ensures Watchers(h + [e]) == Watchers(h) + {e.w}
  {
    forall x | x in h ensures x in h + [e] {
    }
    assert e in h + [e];
  }

  /** Dropping the last entry, or moving it to entry j. */
  lemma RemovedHeap(h: seq<Anhe>, j: nat)
    requires DistinctW(h) && Ordered(Keys(h), |h|) && j < |h|
    ensures var n := |h| - 1;
            && DistinctW(h[..n]) && Ordered(Keys(h[..n]), n) && Watchers(h[..n]) == Watchers(h) - {h[n].w}
            && (j < n ==>
                  var g := h[..n][j := h[n]];
                  && DistinctW(g) && Ordered(Keys(g)[j := h[j].at], n) && Watchers(g) == Watchers(h) - {h[j].w})
  {
    var n := |h| - 1;
    OrderedPrefix(h, n);
    DroppedLast(h);
    if j < n {
      LastMoved(h, j);
      assert Keys(h[..n][j := h[n]])[j := h[j].at] == Keys(h[..n]);
    }
  }

  lemma DroppedLast(h: seq<Anhe>)
    requires DistinctW(h) && h != []
    ensures var g := h[..|h| - 1];
            DistinctW(g) && Watchers(g) == Watchers(h) - {h[|h| - 1].w}
  {
    var n := |h| - 1;
    forall e | e in h[..n] ensures e in h && e.w != h[n].w {
    }
    forall e | e in h && e.w != h[n].w ensures e in h[..n] {
      var i :| 0 <= i < |h| && h[i] == e;
      assert h[..n][i] == e;
    }
  }

  lemma LastMoved(h: seq<Anhe>, j: nat)
    requires DistinctW(h) && j < |h| - 1
    ensures var g := h[..|h| - 1][j := h[|h| - 1]];
            DistinctW(g) && Watchers(g) == Watchers(h) - {h[j].w}
  {
    var n := |h| - 1;
    var g := h[..n][j := h[n]];
    forall e | e in g ensures e in h && e.w != h[j].w {
      var i :| 0 <= i < |g| && g[i] == e;
    }
    forall e | e in h && e.w != h[j].w ensures e in g {
      var i :| 0 <= i < |h| && h[i] == e;
      assert g[if i == n then j else i] == e;
    }
  }

  /** One entry gets another time. */
  lemma RekeyedHeap(h: seq<Anhe>, j: nat, at: real)
    requires DistinctW(h) && Ordered(Keys(h), |h|) && j < |h|
    ensures var g := h[j := Anhe(at, h[j].w)];
            DistinctW(g) && Ordered(Keys(g)[j := h[j].at], |g|) && Watchers(g) == Watchers(h)
  {
    var g := h[j := Anhe(at, h[j].w)];
    assert Keys(g)[j := h[j].at] == Keys(h);
    forall e | e in h ensures e.w in Watchers(g) {
      var i :| 0 <= i < |h| && h[i] == e;
      assert g[i] in g && g[i].w == e.w;
    }
    forall e | e in g ensures e.w in Watchers(h) {
      var i :| 0 <= i < |g| && g[i] == e;
      assert h[i] in h && h[i].w == e.w;
    }
  }

  lemma RootHole(g: seq<Anhe>, was: real)
    requires |g| > 0 && Ordered(Keys(g)[0 := was], |g|)
    ensures DownHole(Keys(g), |g|, 0)
  {
    var a := Keys(g);
    Replaced(a[0 := was], |g|, 0, a[0]);
    assert a[0 := was][0 := a[0]] == a;
  }

  lemma Shifted(h: seq<Anhe>, g: seq<Anhe>, d: real)
    requires |g| == |h| && DistinctW(h) && Ordered(Keys(h), |h|)
    requires forall i :: 0 <= i < |h| ==> g[i] == Anhe(h[i].at + d, h[i].w)
    ensures DistinctW(g) && Ordered(Keys(g), |g|)
  {
    ShiftedStaysOrdered(Keys(h), Keys(g), |h|, d);
  }
}
