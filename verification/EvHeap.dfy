/**
 Order in the 4-ary heap of libev, over plain sequences of keys. Entry j of the sequence is
 heap slot HEAP0 + j. `Hole` conditions describe a heap in which one entry may be out of
 place: too small for its parents (UpHole) or too large for its children (DownHole).
 */
module EvHeap {
  const DHEAP: nat := 4
  const HEAP0: nat := 3

  /** Division that truncates towards zero, as in C. */
  function CDiv(a: int, b: int): int
    requires b > 0
  {
    if a >= 0 then a / b else -(-a / b)
  }

  /** The parent slot; slot HEAP0 is its own parent because -1 / 4 is 0. */
  function HParent(k: int): int {
    CDiv(k - HEAP0 - 1, DHEAP) + HEAP0
  }

  /** The parent of entry j > 0. */
  function Parent(j: int): int {
    (j - 1) / 4
  }

  lemma ParentOfSlot(k: int)
    requires k >= HEAP0
    ensures HParent(k) == if k == HEAP0 then HEAP0 else Parent(k - HEAP0) + HEAP0
    ensures k > HEAP0 ==> HEAP0 <= HParent(k) < k
  {
  }

  ghost predicate InOrder(a: seq<real>, i: int)
    requires 0 < i < |a|
  {
    a[Parent(i)] <= a[i]
  }

  /** Heap order among the first n entries. */
  ghost predicate Ordered(a: seq<real>, n: nat) {
    n <= |a| && forall i :: 0 < i < n ==> InOrder(a, i)
  }

  function Swap<T>(a: seq<T>, i: nat, j: nat): seq<T>
    requires i < |a| && j < |a|
  {
    a[i := a[j]][j := a[i]]
  }

  /** The parent of entry j is no larger than the children of j. */
  ghost predicate Bridged(a: seq<real>, i: int)
    requires 0 < i < |a| && Parent(i) > 0
  {
    a[Parent(Parent(i))] <= a[i]
  }

  ghost predicate UpHole(a: seq<real>, n: nat, j: nat) {
    && j < n <= |a|
    && (forall i :: 0 < i < n && i != j ==> InOrder(a, i))
    && (forall i :: 0 < i < n && Parent(i) == j && j > 0 ==> Bridged(a, i))
  }

  ghost predicate DownHole(a: seq<real>, n: nat, j: nat) {
    && j < n <= |a|
    && (forall i :: 0 < i < n && Parent(i) != j ==> InOrder(a, i))
    && (forall i :: 0 < i < n && Parent(i) == j && j > 0 ==> Bridged(a, i))
  }

  /** The hole moves to the parent. */
  lemma UpStep(a: seq<real>, n: nat, j: nat)
    requires UpHole(a, n, j) && j > 0 && a[j] < a[Parent(j)]
    ensures UpHole(Swap(a, j, Parent(j)), n, Parent(j))
  {
    var p := Parent(j);
    var b := Swap(a, j, p);
    assert p > 0 ==> InOrder(a, p);
    forall i | 0 < i < n && i != p ensures InOrder(b, i) {
      if i != j {
        assert InOrder(a, i);
        if Parent(i) == j {
          assert Bridged(a, i);
        }
      }
    }
    forall i | 0 < i < n && Parent(i) == p && p > 0 ensures Bridged(b, i) {
      if i != j {
        assert InOrder(a, i);
      }
    }
  }

  lemma UpDone(a: seq<real>, n: nat, j: nat)
    requires UpHole(a, n, j) && (j == 0 || a[Parent(j)] <= a[j])
    ensures Ordered(a, n)
  {
  }

  /** The hole moves to the smallest child c. */
  lemma DownStep(a: seq<real>, n: nat, j: nat, c: nat)
    requires DownHole(a, n, j) && 0 < c < n && Parent(c) == j && a[c] < a[j]
    requires forall i :: 0 < i < n && Parent(i) == j ==> a[c] <= a[i]
    ensures DownHole(Swap(a, j, c), n, c)
  {
    var b := Swap(a, j, c);
    assert j > 0 ==> InOrder(a, j);
    assert j > 0 ==> Bridged(a, c);
    forall i | 0 < i < n && Parent(i) != c ensures InOrder(b, i) {
      if Parent(i) != j {
        assert InOrder(a, i);
      }
    }
    forall i | 0 < i < n && Parent(i) == c && c > 0 ensures Bridged(b, i) {
      assert InOrder(a, i);
    }
  }

  lemma DownDone(a: seq<real>, n: nat, j: nat)
    requires DownHole(a, n, j)
    requires forall i :: 0 < i < n && Parent(i) == j ==> a[j] <= a[i]
    ensures Ordered(a, n)
  {
    forall i | 0 < i < n ensures InOrder(a, i) {
      if Parent(i) == j {
        assert a[j] <= a[i];
      }
    }
  }

  /** An entry replaced anywhere leaves one kind of hole or the other. */
  lemma Replaced(a: seq<real>, n: nat, j: nat, x: real)
    requires Ordered(a, n) && j < n
    ensures var b := a[j := x];
            if j > 0 && x <= b[Parent(j)] then UpHole(b, n, j) else DownHole(b, n, j)
  {
    var b := a[j := x];
    forall i | 0 < i < n && i != j && Parent(i) != j ensures InOrder(b, i) {
      assert InOrder(a, i);
    }
    if j > 0 {
      assert InOrder(a, j);
    }
    forall i | 0 < i < n && Parent(i) == j && j > 0 ensures Bridged(b, i) {
      assert InOrder(a, i) && InOrder(a, j);
    }
    if j > 0 && x <= b[Parent(j)] {
      forall i | 0 < i < n && i != j ensures InOrder(b, i) {
        if Parent(i) == j {
          assert InOrder(a, i) && InOrder(a, j);
        }
      }
    } else {
      forall i | 0 < i < n && Parent(i) != j ensures InOrder(b, i) {
      }
    }
  }

  /** A shorter prefix is a heap; a new last entry is at most an UpHole. */
  lemma Appended(a: seq<real>, j: nat)
    requires j < |a| && Ordered(a, j)
    ensures UpHole(a, j + 1, j)
  {
  }

  /** The root is the minimum. */
  lemma {:induction false} RootIsMin(a: seq<real>, n: nat, i: nat)
    requires Ordered(a, n) && i < n
    ensures a[0] <= a[i]
    decreases i
  {
    if i > 0 {
      assert InOrder(a, i);
      RootIsMin(a, n, Parent(i));
    }
  }

  lemma ShiftedStaysOrdered(a: seq<real>, b: seq<real>, n: nat, d: real)
    requires Ordered(a, n) && |b| == |a| && forall i :: 0 <= i < n ==> b[i] == a[i] + d
    ensures Ordered(b, n)
  {
    forall i | 0 < i < n ensures InOrder(b, i) {
      assert InOrder(a, i);
    }
  }
}
