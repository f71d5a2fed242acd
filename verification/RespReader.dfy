/**
 The incremental reply reader of hiredis: a byte buffer with a cursor, a fixed stack of
 nine read tasks and a reply built in place. `Future(e)` is what the reader still has to
 deliver if the bytes `e` arrive after the ones it holds; every operation is specified by
 what it does to that.
 */
module RespReader {
  import opened Bytes
  import opened RespSpec
  import opened RespTree

  /** `idx` is the position of the item in its parent array. */
  datatype Task = Task(typ: ItemType, elements: int, idx: int)

  /** Task j works on an element of the array opened by task j - 1. */
  ghost predicate LinkOk(st: seq<Task>, j: int)
    requires 1 <= j < |st|
  {
    st[j - 1].typ == TArray && 0 <= st[j].idx < st[j - 1].elements
  }

  /** That array holds the elements before idx, and the current one once it is created. */
  ghost predicate LevelOk(st: seq<Task>, t: Reply, stored: bool, j: int)
    requires 1 <= j < |st|
  {
    HasSpine(t, j) && Filled(t, j) == st[j].idx + if stored || j < |st| - 1 then 1 else 0
  }

  ghost predicate Linked(st: seq<Task>) {
    |st| > 0 && forall j :: 1 <= j < |st| ==> LinkOk(st, j)
  }

  /** The open tasks, outermost first, fit the reply under construction. `stored` says
      whether the current item was already hung into its parent. */
  ghost predicate StackOk(st: seq<Task>, t: Reply, stored: bool) {
    && |st| <= MAX_LEVEL + 1
    && Linked(st)
    && HasSpine(t, |st| - 1)
    && (forall j :: 1 <= j < |st| ==> LevelOk(st, t, stored, j))
  }

  /** How many items are missing behind the current one, level by level. */
  ghost function Todo(st: seq<Task>): (todo: seq<nat>)
    requires Linked(st)
    ensures |todo| == |st| - 1
  {
    if |st| == 1 then []
    else
      var n := |st| - 1;
      assert LinkOk(st, n);
      LinkedPop(st);
      Todo(st[..n]) + [st[n - 1].elements - st[n].idx - 1]
  }

  ghost function Item(t: ItemType, s: seq<byte>, level: nat): Parsed<Reply> {
    if t == Unset then ParseItem(s, level) else ParseTyped(t, s, level)
  }

  /** What the recursive parser makes of the reply in progress. */
  ghost function Denote(st: seq<Task>, t: Reply, s: seq<byte>): Parsed<Reply>
    requires StackOk(st, t, false)
  {
    Resume(Item(st[|st| - 1].typ, s, |st| - 1), t, Todo(st))
  }

  lemma LinkedPop(st: seq<Task>)
    requires Linked(st) && |st| > 1
    ensures Linked(st[..|st| - 1])
  {
    var u := st[..|st| - 1];
    forall j | 1 <= j < |u| ensures LinkOk(u, j) {
      assert LinkOk(st, j);
    }
  }

  /** The last task may change as long as it stays inside its parent. */
  lemma LinkedLast(st: seq<Task>, k: Task)
    requires Linked(st) && (|st| > 1 ==> 0 <= k.idx < st[|st| - 2].elements)
    ensures Linked(st[|st| - 1 := k])
  {
    var st' := st[|st| - 1 := k];
    forall j | 1 <= j < |st'| ensures LinkOk(st', j) {
      assert LinkOk(st, j);
    }
  }

  lemma PopMeaning(st: seq<Task>, t: Reply)
    requires StackOk(st, t, true) && |st| > 1 && st[|st| - 1].idx == st[|st| - 2].elements - 1
    ensures StackOk(st[..|st| - 1], t, true)
    ensures forall s :: Finish(t, Todo(st), s) == Finish(t, Todo(st[..|st| - 1]), s)
  {
    hide Filled, HasSpine, Finish;
    var n := |st| - 1;
    LinkedPop(st);
    SpineAbove(t, n);
    var u := st[..n];
    forall j | 1 <= j < n ensures LevelOk(u, t, true, j) {
      assert LevelOk(st, t, true, j);
    }
    forall s ensures Finish(t, Todo(st), s) == Finish(t, Todo(st[..n]), s) {
      FinishClose(t, Todo(st[..n]), s);
    }
  }

  lemma StackLinked(st: seq<Task>, t: Reply, stored: bool)
    requires StackOk(st, t, stored)
    ensures Linked(st)
  {
  }

  lemma AdvanceTodo(st: seq<Task>, st': seq<Task>)
    requires Linked(st) && |st| > 1 && st[|st| - 1].idx < st[|st| - 2].elements - 1
    requires st' == st[|st| - 1 := Task(Unset, -1, st[|st| - 1].idx + 1)]
    ensures Linked(st[..|st| - 1]) && Linked(st') && st[|st| - 2].elements - st[|st| - 1].idx - 2 >= 0
    ensures Todo(st) == Todo(st[..|st| - 1]) + [st[|st| - 2].elements - st[|st| - 1].idx - 1]
    ensures Todo(st') == Todo(st[..|st| - 1]) + [st[|st| - 2].elements - st[|st| - 1].idx - 2]
  {
    assert LinkOk(st, |st| - 1);
    LinkedLast(st, Task(Unset, -1, st[|st| - 1].idx + 1));
    LinkedPop(st);
    assert st'[..|st| - 1] == st[..|st| - 1];
  }

  lemma AdvanceStack(st: seq<Task>, t: Reply, st': seq<Task>)
    requires StackOk(st, t, true) && |st| > 1 && Linked(st')
    requires st' == st[|st| - 1 := Task(Unset, -1, st[|st| - 1].idx + 1)]
    ensures StackOk(st', t, false) && HasSpine(t, |st| - 1)
  {
    hide Filled, HasSpine, Linked;
    forall j | 1 <= j < |st| ensures LevelOk(st', t, false, j) {
      assert LevelOk(st, t, true, j);
    }
  }

  lemma AdvanceDenotes(st: seq<Task>, t: Reply, st': seq<Task>, s: seq<byte>)
    requires StackOk(st, t, true) && |st| > 1
    requires st[|st| - 1].idx < st[|st| - 2].elements - 1
    requires st' == st[|st| - 1 := Task(Unset, -1, st[|st| - 1].idx + 1)]
    ensures StackOk(st', t, false)
    ensures Denote(st', t, s) == Finish(t, Todo(st), s)
  {
    hide Filled, HasSpine, Finish, ParseItem, Resume, Todo, StackOk, Linked;
    StackLinked(st, t, true);
    AdvanceTodo(st, st');
    AdvanceStack(st, t, st');
    var k := st[|st| - 2].elements - st[|st| - 1].idx - 2;
    FinishNext(t, Todo(st[..|st| - 1]), k, s);
  }

  lemma StoredOk(st: seq<Task>, t: Reply, r: Reply)
    requires StackOk(st, t, false)
    ensures StackOk(st, Put(t, |st| - 1, r), true)
  {
    hide Put, Filled, HasSpine;
    var u := Put(t, |st| - 1, r);
    forall j | 1 <= j < |st| ensures LevelOk(st, u, true, j) {
      assert LevelOk(st, t, false, j);
      FilledPut(t, |st| - 1, r, j);
    }
  }

  lemma OpenStack(st: seq<Task>, t: Reply, n: nat, st': seq<Task>)
    requires StackOk(st, t, false) && n > 0 && |st| <= MAX_LEVEL && st[|st| - 1].typ == TArray
    requires st' == st[|st| - 1 := st[|st| - 1].(elements := n)] + [Task(Unset, -1, 0)]
    ensures StackOk(st', Put(t, |st| - 1, Array(n, [])), false)
    ensures Todo(st') == Todo(st) + [n - 1]
  {
    hide Put, Filled, HasSpine;
    var u := Put(t, |st| - 1, Array(n, []));
    StoredOk(st, t, Array(n, []));
    FilledBelow(t, |st| - 1, n);
    forall j | 1 <= j < |st'| ensures LinkOk(st', j) {
      if j < |st| {
        assert LinkOk(st, j);
      }
    }
    forall j | 1 <= j < |st'| ensures LevelOk(st', u, false, j) {
      if j < |st| {
        assert LevelOk(st, u, true, j);
      }
    }
    assert st'[..|st|] == st[|st| - 1 := st[|st| - 1].(elements := n)];
    TodoLast(st, st[|st| - 1].(elements := n));
  }

  /** Only the index of the last task counts. */
  lemma TodoLast(st: seq<Task>, k: Task)
    requires Linked(st) && k.idx == st[|st| - 1].idx
    ensures Linked(st[|st| - 1 := k]) && Todo(st[|st| - 1 := k]) == Todo(st)
  {
    if |st| > 1 {
      assert LinkOk(st, |st| - 1);
      LinkedLast(st, k);
      assert st[|st| - 1 := k][..|st| - 1] == st[..|st| - 1];
    }
  }

  /** Reading the header of a non-empty array keeps the meaning of the stack. */
  lemma OpenDenotes(st: seq<Task>, t: Reply, n: nat, st': seq<Task>, s: seq<byte>, i: nat)
    requires StackOk(st, t, false) && n > 0 && |st| <= MAX_LEVEL && st[|st| - 1].typ == TArray
    requires st' == st[|st| - 1 := st[|st| - 1].(elements := n)] + [Task(Unset, -1, 0)]
    requires Newline(s) == i && LongLong(s[..i]) == n
    ensures StackOk(st', Put(t, |st| - 1, Array(n, [])), false)
    ensures Denote(st', Put(t, |st| - 1, Array(n, [])), s[i + 2..]) == Denote(st, t, s)
  {
    hide Finish, Put, HasSpine, Filled, ParseItem, ParseElems, LongLong, Todo;
    OpenStack(st, t, n, st');
    var todo := Todo(st);
    var u := Put(t, |st| - 1, Array(n, []));
    FinishNext(u, todo, n - 1, s[i + 2..]);
    FinishOpen(t, todo, n, s[i + 2..]);
    hide StackOk;
    assert ParseTyped(TArray, s, |st| - 1) == ParseMulti(s, i, |st| - 1);
  }

  // ----- the meaning of a reader state

  ghost function TreeOf(reply: Option<Reply>): Reply {
    if reply.Some? then reply.value else Nil
  }

  ghost predicate CoreOk(err: bool, st: seq<Task>, reply: Option<Reply>) {
    && (err ==> st == [] && reply == None)
    && (|st| == 1 ==> reply == None)
    && (|st| > 1 ==> reply.Some?)
    && (st != [] ==> StackOk(st, TreeOf(reply), false))
  }

  /** What is still delivered from the unread bytes s. */
  ghost function FutureOf(err: bool, st: seq<Task>, reply: Option<Reply>, s: seq<byte>): Stream
    requires CoreOk(err, st, reply)
  {
    if err then Stream([], true)
    else if st != [] then Continue(Denote(st, TreeOf(reply), s))
    else if reply.Some? then Replies(s).Prepend([reply.value])
    else Replies(s)
  }

  lemma FutureDone(st: seq<Task>, reply: Option<Reply>, r: Reply, s: seq<byte>, rest: seq<byte>)
    requires CoreOk(false, st, reply) && st != []
    requires Item(st[|st| - 1].typ, s, |st| - 1) == Done(r, rest)
    ensures FutureOf(false, st, reply, s)
            == Continue(Finish(Put(TreeOf(reply), |st| - 1, r), Todo(st), rest))
  {
  }

  lemma LastClosed(st: seq<Task>, t: Reply)
    requires StackOk(st, t, true) && |st| == 1
    ensures CoreOk(false, [], Some(t))
    ensures forall s :: FutureOf(false, [], Some(t), s) == Continue(Finish(t, Todo(st), s))
  {
    assert Todo(st) == [];
  }

  lemma Advanced(st: seq<Task>, t: Reply, st': seq<Task>)
    requires StackOk(st, t, true) && |st| > 1
    requires st[|st| - 1].idx < st[|st| - 2].elements - 1
    requires st' == st[|st| - 1 := Task(Unset, -1, st[|st| - 1].idx + 1)]
    ensures CoreOk(false, st', Some(t))
    ensures forall s :: FutureOf(false, st', Some(t), s) == Continue(Finish(t, Todo(st), s))
  {
    hide Put, Filled, HasSpine, Finish, Denote, Continue;
    AdvanceTodo(st, st');
    AdvanceStack(st, t, st');
    forall s ensures FutureOf(false, st', Some(t), s) == Continue(Finish(t, Todo(st), s)) {
      AdvanceDenotes(st, t, st', s);
    }
  }

  lemma FutureStuck(st: seq<Task>, reply: Option<Reply>, s: seq<byte>)
    requires CoreOk(false, st, reply) && st != []
    requires Item(st[|st| - 1].typ, s, |st| - 1) == Need
    ensures FutureOf(false, st, reply, s) == Stream([], false)
  {
  }

  /** With an empty buffer nothing is due. */
  lemma NothingUnread(st: seq<Task>, reply: Option<Reply>)
    requires CoreOk(false, st, reply) && (st == [] ==> reply == None)
    requires |st| == MAX_LEVEL + 1 ==> st[MAX_LEVEL].typ != TArray
    ensures FutureOf(false, st, reply, []) == Stream([], false)
  {
    if st != [] {
      FutureStuck(st, reply, []);
    }
  }

  lemma AfterError(s: seq<byte>)
    ensures FutureOf(true, [], None, s) == Stream([], true)
  {
  }

  lemma Emitted(r: Reply, s: seq<byte>)
    ensures CoreOk(false, [], None) && CoreOk(false, [], Some(r))
    ensures FutureOf(false, [], Some(r), s) == FutureOf(false, [], None, s).Prepend([r])
  {
  }

  lemma FutureBad(st: seq<Task>, reply: Option<Reply>, s: seq<byte>)
    requires CoreOk(false, st, reply) && st != []
    requires Item(st[|st| - 1].typ, s, |st| - 1) == Bad
    ensures FutureOf(false, st, reply, s) == Stream([], true)
  {
  }

  lemma FutureStart(s: seq<byte>)
    ensures CoreOk(false, [Task(Unset, -1, -1)], None)
    ensures FutureOf(false, [Task(Unset, -1, -1)], None, s) == FutureOf(false, [], None, s)
  {
    assert Todo([Task(Unset, -1, -1)]) == [];
  }

  lemma TypeKnown(st: seq<Task>, reply: Option<Reply>, st': seq<Task>, s: seq<byte>)
    requires CoreOk(false, st, reply) && st != [] && st[|st| - 1].typ == Unset
    requires s != [] && TypeOf(s[0]) != Unset
    requires st' == st[|st| - 1 := st[|st| - 1].(typ := TypeOf(s[0]))]
    ensures CoreOk(false, st', reply)
    ensures FutureOf(false, st', reply, s[1..]) == FutureOf(false, st, reply, s)
  {
    hide Finish, Put, Continue, Filled, HasSpine;
    TodoLast(st, st'[|st| - 1]);
    if |st| > 1 {
      forall j | 1 <= j < |st| ensures LevelOk(st', TreeOf(reply), false, j) {
        assert LevelOk(st, TreeOf(reply), false, j);
      }
    }
  }

  // ----- scanning a line

  method SeekNewline(s: seq<byte>) returns (r: int)
    ensures r == Newline(s)
  {
    var pos: nat, last: int := 0, |s| - 1;
    while pos < last
      invariant pos <= |s|
      invariant forall j :: 0 <= j < pos ==> !CrlfAt(s, j)
    {
      while pos < last && s[pos] != CR
        invariant 0 <= pos <= last
        invariant forall j :: 0 <= j < pos ==> !CrlfAt(s, j)
      {
        pos := pos + 1;
      }
      if s[pos] != CR {
        return -1;
      } else if At(s, pos + 1) == LF {
        assert CrlfAt(s, pos);
        return pos;
      } else {
        pos := pos + 1;
      }
    }
    return -1;
  }

  /** `s` holds a CR at `n`; the number is read up to the first one. */
  method ReadLongLong(s: seq<byte>, ghost n: nat) returns (v: int)
    requires n < |s| && s[n] == CR
    ensures v == LongLong(s[..n])
  {
    var i: nat, mult: int, w: nat := 0, 1, 0;
    if s[0] == '-' as int {
      mult, i := -1, 1;
    } else if s[0] == '+' as int {
      mult, i := 1, 1;
    }
    ghost var body := s[i..n];
    assert n > 0 ==> s[..n][1..] == s[1..n];
    assert i == 0 ==> s[..n] == body;
    while s[i] != CR
      invariant 0 <= i <= n && w >= 0
      invariant Accumulate(s[i..n], w) == Accumulate(body, 0)
      decreases n - i
    {
      assert s[i..n][1..] == s[i + 1..n];
      var dec: int := s[i] as int - 48;
      if 0 <= dec < 10 {
        w := w * 10 + dec;
      } else {
        return -1;
      }
      i := i + 1;
    }
    return mult * w;
  }

  class Reader {
    var err: bool
    var buf: seq<byte>
    var pos: nat
    const rstack: array<Task>
    var ridx: int
    var reply: Option<Reply>

    ghost function Unread(): seq<byte>
      reads this
      requires pos <= |buf|
    {
      buf[pos..]
    }

    ghost function Stack(): seq<Task>
      reads this, rstack
      requires rstack.Length == MAX_LEVEL + 1 && -1 <= ridx <= MAX_LEVEL
    {
      rstack[..ridx + 1]
    }

    ghost predicate Valid()
      reads this, rstack
    {
      && rstack.Length == MAX_LEVEL + 1
      && -1 <= ridx <= MAX_LEVEL
      && pos <= |buf|
      && CoreOk(err, Stack(), reply)
    }

    /** Between two calls. No array waits in the last slot: that is an error at once. */
    ghost predicate Ready()
      reads this, rstack
    {
      && Valid()
      && (ridx == -1 ==> reply == None)
      && (ridx == MAX_LEVEL ==> rstack[ridx].typ != TArray)
    }

    /** What will be delivered when the bytes `e` follow those in the buffer. */
    ghost function Future(e: seq<byte>): Stream
      reads this, rstack
      requires Valid()
    {
      FutureOf(err, Stack(), reply, Unread() + e)
    }

    constructor ()
      ensures Ready() && !err && fresh(rstack)
      ensures forall e :: Future(e) == Replies(e)
    {
      err, buf, pos, ridx, reply := false, [], 0, -1, None;
      rstack := new Task[MAX_LEVEL + 1](_ => Task(Unset, -1, -1));
      new;
      assert forall e: seq<byte> :: [] + e == e;
    }

    method SetError()
      requires Valid()
      modifies this
      ensures Valid() && err && ridx == -1 && Unread() == []
      ensures forall e :: Future(e) == Stream([], true)
    {
      reply, buf, pos, ridx, err := None, [], 0, -1, true;
    }

    /** Leave the finished item: close full arrays, stop at the next missing item. */
    method MoveToNextTask(ghost t: Reply, ghost todo: seq<nat>)
      requires rstack.Length == MAX_LEVEL + 1 && 0 <= ridx <= MAX_LEVEL
      requires StackOk(Stack(), t, true) && todo == Todo(Stack())
      modifies this`ridx, rstack
      ensures -1 <= ridx <= MAX_LEVEL
      ensures ridx >= 0 ==> ridx > 0 && rstack[ridx].typ == Unset
      ensures CoreOk(false, Stack(), Some(t))
      ensures forall s :: FutureOf(false, Stack(), Some(t), s) == Continue(Finish(t, todo, s))
    {
      hide Continue, Denote, Replies, Filled, HasSpine, Finish, FutureOf;
      while ridx >= 0
        invariant 0 <= ridx <= MAX_LEVEL
        invariant StackOk(Stack(), t, true)
        invariant forall s :: Finish(t, todo, s) == Finish(t, Todo(Stack()), s)
      {
        ghost var st := Stack();
        assert ridx > 0 ==> LinkOk(st, ridx);
        if ridx == 0 {
          ridx := ridx - 1;
          LastClosed(st, t);
          return;
        }
        if rstack[ridx].idx == rstack[ridx - 1].elements - 1 {
          PopMeaning(st, t);
          ridx := ridx - 1;
          assert Stack() == st[..|st| - 1];
        } else {
          rstack[ridx] := Task(Unset, -1, rstack[ridx].idx + 1);
          Advanced(st, t, Stack());
          return;
        }
      }
    }

    /** The create*Object functions: the root becomes the reply, any other object is stored
        in its parent at the index of its task. */
    method Create(r: Reply)
      requires Valid() && !err && ridx >= 0
      modifies this`reply
      ensures reply == Some(Put(TreeOf(old(reply)), ridx, r))
      ensures StackOk(Stack(), reply.value, true)
    {
      StoredOk(Stack(), TreeOf(reply), r);
      if ridx == 0 {
        reply := Some(r);
      } else {
        assert LevelOk(Stack(), reply.value, false, ridx);
        assert Filled(reply.value, ridx) == rstack[ridx].idx;
        reply := Some(Put(reply.value, ridx, r));
      }
    }

    /** Finish the current item with object r, consuming n bytes. */
    method Complete(r: Reply, n: nat)
      requires Valid() && !err && ridx >= 0 && pos + n <= |buf|
      requires rstack[ridx].typ != Unset
      requires forall e :: ParseTyped(rstack[ridx].typ, Unread() + e, ridx) == Done(r, buf[pos + n..] + e)
      modifies this, rstack
      ensures Valid() && !err && (ridx >= 0 ==> rstack[ridx].typ == Unset)
      ensures ridx == -1 ==> reply.Some?
      ensures forall e :: Future(e) == old(Future(e))
      ensures |Unread()| == old(|Unread()|) - n
    {
      hide Continue, FutureOf, Denote, Finish, ParseTyped, Put;
      ghost var st, was, s := Stack(), reply, Unread();
      ghost var t := Put(TreeOf(was), ridx, r);
      Create(r);
      pos := pos + n;
      forall e ensures FutureOf(false, st, was, s + e) == Continue(Finish(t, Todo(st), Unread() + e)) {
        FutureDone(st, was, r, s + e, Unread() + e);
      }
      MoveToNextTask(t, Todo(st));
    }

    method ProcessLineItem() returns (ok: bool)
      requires Valid() && !err && ridx >= 0 && rstack[ridx].typ in {TInteger, TStatus, TError}
      modifies this, rstack
      ensures Valid() && !err && (ok && ridx >= 0 ==> rstack[ridx].typ == Unset)
      ensures ok && ridx == -1 ==> reply.Some?
      ensures forall e :: Future(e) == old(Future(e))
      ensures ok ==> |Unread()| < old(|Unread()|)
      ensures !ok ==> unchanged(this) && unchanged(rstack) && Future([]) == Stream([], false)
    {
      hide FutureOf, StackOk, LongLong, ParseTyped, Replies;
      var i := SeekNewline(buf[pos..]);
      if i < 0 {
        assert Unread() + [] == Unread();
        LineNeeds(rstack[ridx].typ, Unread(), ridx);
        FutureStuck(Stack(), reply, Unread());
        return false;
      }
      var r := LineObject(rstack[ridx].typ, buf[pos..], i, ridx);
      assert buf[pos..][i + 2..] == buf[pos + i + 2..];
      Complete(r, i + 2);
      return true;
    }

    method ProcessBulkItem() returns (ok: bool)
      requires Valid() && !err && ridx >= 0 && rstack[ridx].typ == TString
      modifies this, rstack
      ensures Valid() && !err && (ok && ridx >= 0 ==> rstack[ridx].typ == Unset)
      ensures ok && ridx == -1 ==> reply.Some?
      ensures forall e :: Future(e) == old(Future(e))
      ensures ok ==> |Unread()| < old(|Unread()|)
      ensures !ok ==> unchanged(this) && unchanged(rstack) && Future([]) == Stream([], false)
    {
      hide FutureOf, StackOk, LongLong, ParseTyped, Replies;
      ghost var s := Unread();
      assert s + [] == s;
      var i := SeekNewline(buf[pos..]);
      if i < 0 {
        LineNeeds(TString, s, ridx);
        FutureStuck(Stack(), reply, s);
        return false;
      }
      var r, bytelen;
      ok, r, bytelen := BulkObject(buf[pos..], i, ridx);
      if !ok {
        FutureStuck(Stack(), reply, s);
        return;
      }
      assert s[bytelen..] == buf[pos + bytelen..];
      Complete(r, bytelen);
    }

    method ProcessMultiBulkItem() returns (ok: bool)
      requires Valid() && !err && ridx >= 0 && rstack[ridx].typ == TArray
      modifies this, rstack
      ensures Valid() && (ok ==> !err) && (ok && ridx >= 0 ==> rstack[ridx].typ == Unset)
      ensures ok && ridx == -1 ==> reply.Some?
      ensures forall e :: Future(e) == old(Future(e))
      ensures ok ==> |Unread()| < old(|Unread()|)
      ensures !ok && !err ==> unchanged(this) && unchanged(rstack) && Future([]) == Stream([], false)
      ensures !ok && !err ==> ridx < MAX_LEVEL
      ensures |Unread()| <= old(|Unread()|)
    {
      hide FutureOf, StackOk, LongLong, ParseTyped, Replies;
      if ridx == 8 {
        ghost var s := Unread();
        forall e ensures Future(e) == Stream([], true) {
          MultiBad(s + e);
          FutureBad(Stack(), reply, s + e);
        }
        SetError();
        return false;
      }
      ok := ProcessArrayHeader();
    }

    /** The length of an array below the depth limit. */
    method ProcessArrayHeader() returns (ok: bool)
      requires Valid() && !err && 0 <= ridx < MAX_LEVEL && rstack[ridx].typ == TArray
      modifies this, rstack
      ensures Valid() && !err && (ok && ridx >= 0 ==> rstack[ridx].typ == Unset)
      ensures ok && ridx == -1 ==> reply.Some?
      ensures forall e :: Future(e) == old(Future(e))
      ensures ok ==> |Unread()| < old(|Unread()|)
      ensures !ok ==> unchanged(this) && unchanged(rstack) && Future([]) == Stream([], false)
    {
      hide FutureOf, StackOk, LongLong, ParseTyped, Replies;
      ghost var s := Unread();
      assert s + [] == s;
      var i := SeekNewline(buf[pos..]);
      if i < 0 {
        LineNeeds(TArray, s, ridx);
        FutureStuck(Stack(), reply, s);
        return false;
      }
      var elements := ReadLongLong(buf[pos..], i);
      if elements <= 0 {
        var r := if elements == -1 then Nil else Array(elements, []);
        assert s[i + 2..] == buf[pos + i + 2..];
        MultiDone(s, ridx, elements);
        Complete(r, i + 2);
      } else {
        OpenArray(elements, i);
      }
      return true;
    }

    /** Push a task for the first element. */
    method OpenArray(elements: nat, i: nat)
      requires Valid() && !err && 0 <= ridx < MAX_LEVEL && rstack[ridx].typ == TArray
      requires elements > 0 && Newline(Unread()) == i && LongLong(Unread()[..i]) == elements
      modifies this, rstack
      ensures Valid() && !err && ridx >= 0 && rstack[ridx].typ == Unset
      ensures forall e :: Future(e) == old(Future(e))
      ensures |Unread()| < old(|Unread()|)
    {
      hide LongLong, StackOk, Denote, Continue, Put;
      ghost var st, t, s := Stack(), TreeOf(reply), Unread();
      Create(Array(elements, []));
      pos := pos + i + 2;
      rstack[ridx] := rstack[ridx].(elements := elements);
      rstack[ridx + 1] := Task(Unset, -1, 0);
      ridx := ridx + 1;
      assert Stack() == st[|st| - 1 := st[|st| - 1].(elements := elements)] + [Task(Unset, -1, 0)];
      assert Unread() == s[i + 2..];
      HeaderStable(s, i, []);
      OpenDenotes(st, t, elements, Stack(), s + [], i);
      forall e ensures Future(e) == old(Future(e)) {
        HeaderStable(s, i, e);
        OpenDenotes(st, t, elements, Stack(), s + e, i);
      }
    }

    /** Read the type byte if it is missing, then the item. */
    method ProcessItem() returns (ok: bool)
      requires Valid() && !err && ridx >= 0
      requires ridx == MAX_LEVEL ==> rstack[ridx].typ != TArray
      modifies this, rstack
      ensures Valid() && (ok ==> !err) && (ok && ridx >= 0 ==> rstack[ridx].typ == Unset)
      ensures ok && ridx == -1 ==> reply.Some?
      ensures forall e :: Future(e) == old(Future(e))
      ensures ok ==> |Unread()| < old(|Unread()|)
      ensures !ok && !err ==> ridx >= 0 && Future([]) == Stream([], false)
      ensures !ok && !err && ridx == MAX_LEVEL ==> rstack[ridx].typ != TArray
      ensures |Unread()| <= old(|Unread()|)
    {
      hide FutureOf, StackOk;
      if rstack[ridx].typ == Unset {
        if pos == |buf| {
          assert Unread() + [] == [];
          FutureStuck(Stack(), reply, []);
          return false;
        }
        var t := TypeOf(buf[pos]);
        if t == Unset {
          forall e ensures Future(e) == Stream([], true) {
            assert (Unread() + e)[0] == buf[pos];
            FutureBad(Stack(), reply, Unread() + e);
          }
          SetError();
          return false;
        }
        SetType(t);
      }
      if rstack[ridx].typ == TString {
        ok := ProcessBulkItem();
      } else if rstack[ridx].typ == TArray {
        ok := ProcessMultiBulkItem();
      } else {
        ok := ProcessLineItem();
      }
    }

    method SetType(t: ItemType)
      requires Valid() && !err && ridx >= 0 && rstack[ridx].typ == Unset
      requires pos < |buf| && t == TypeOf(buf[pos]) && t != Unset
      modifies this`pos, rstack
      ensures Valid() && rstack[ridx].typ == t && |Unread()| == old(|Unread()|) - 1
      ensures forall e :: Future(e) == old(Future(e))
    {
      hide FutureOf, CoreOk;
      ghost var st, s := Stack(), Unread();
      pos := pos + 1;
      rstack[ridx] := rstack[ridx].(typ := t);
      assert Stack() == st[|st| - 1 := st[|st| - 1].(typ := t)];
      TypeKnown(st, reply, Stack(), s);
      forall e ensures FutureOf(err, Stack(), reply, Unread() + e) == FutureOf(err, st, reply, s + e) {
        assert (s + e)[0] == s[0] && (s + e)[1..] == Unread() + e;
        TypeKnown(st, reply, Stack(), s + e);
      }
    }

    method Feed(chunk: seq<byte>)
      requires Ready()
      modifies this`buf
      ensures Ready()
      ensures forall e :: Future(e) == old(Future(chunk + e))
    {
      ghost var s := Unread();
      if !err && |chunk| >= 1 {
        buf := buf + chunk;
        assert Unread() == s + chunk;
        assert forall e :: s + chunk + e == s + (chunk + e);
      } else {
        assert forall e :: !err ==> chunk + e == e;
      }
    }

    /** Deliver the next reply, if the buffer completes one. */
    method GetReply() returns (r: Option<Reply>)
      requires Ready()
      modifies this, rstack
      ensures Ready()
      ensures r.Some? ==> !err && forall e :: old(Future(e)) == Future(e).Prepend([r.value])
      ensures r.Some? ==> |Unread()| < old(|Unread()|)
      ensures r.None? ==> forall e :: Future(e) == old(Future(e))
      ensures r.None? ==> Future([]) == Stream([], err)
    {
      hide FutureOf, StackOk;
      if err {
        assert Stack() == [];
        AfterError(Unread() + []);
        return None;
      }
      if |buf| == 0 {
        assert Unread() + [] == [];
        NothingUnread(Stack(), reply);
        return None;
      }
      if ridx == -1 {
        rstack[0] := Task(Unset, -1, -1);
        ridx := 0;
        assert Stack() == [Task(Unset, -1, -1)];
        FutureStart([]);
        forall e ensures FutureOf(false, Stack(), None, Unread() + e) == FutureOf(false, [], None, Unread() + e) {
          FutureStart(Unread() + e);
        }
      }
      var ok := true;
      while ridx >= 0 && ok
        invariant Valid() && (ok ==> !err)
        invariant ok && ridx == -1 ==> reply.Some?
        invariant forall e :: Future(e) == old(Future(e))
        invariant |Unread()| <= old(|Unread()|) && (ridx == -1 && !err ==> |Unread()| < old(|Unread()|))
        invariant !ok && !err ==> ridx >= 0 && Future([]) == Stream([], false)
        invariant !err && ridx == MAX_LEVEL ==> rstack[ridx].typ != TArray
        decreases ok, |Unread()|
      {
        ok := ProcessItem();
      }
      if err {
        assert Stack() == [];
        AfterError(Unread() + []);
        return None;
      }
      Discard();
      if ridx == -1 {
        assert Stack() == [];
        Emitted(reply.value, []);
        forall e ensures FutureOf(false, [], reply, Unread() + e)
                         == FutureOf(false, [], None, Unread() + e).Prepend([reply.value]) {
          Emitted(reply.value, Unread() + e);
        }
        r := reply;
        reply := None;
      } else {
        r := None;
      }
    }

    /** sdsrange(buf, pos, -1) once at least 1k was consumed. */
    method Discard()
      requires Valid()
      modifies this`buf, this`pos
      ensures Valid() && Unread() == old(Unread())
      ensures forall e :: Future(e) == old(Future(e))
    {
      hide FutureOf, CoreOk;
      if pos >= 1024 {
        buf := buf[pos..];
        pos := 0;
      }
    }
  }

  lemma LineNeeds(t: ItemType, s: seq<byte>, level: nat)
    requires t != Unset && !(t == TArray && level == MAX_LEVEL) && Newline(s) < 0
    ensures ParseTyped(t, s, level) == Need
  {
  }

  lemma LineDone(t: ItemType, s: seq<byte>, level: nat, e: seq<byte>)
    requires t in {TInteger, TStatus, TError} && Newline(s) >= 0
    ensures ParseTyped(t, s + e, level) == Done(LineReply(t, s[..Newline(s)]), s[Newline(s) + 2..] + e)
  {
    HeaderStable(s, Newline(s), e);
  }

  /** The object for the line at the front of s. */
  method LineObject(t: ItemType, s: seq<byte>, i: nat, ghost level: nat) returns (r: Reply)
    requires t in {TInteger, TStatus, TError} && Newline(s) == i
    ensures forall e :: ParseTyped(t, s + e, level) == Done(r, s[i + 2..] + e)
  {
    if t == TInteger {
      var v := ReadLongLong(s, i);
      r := Integer(v);
    } else {
      r := if t == TStatus then Status(s[..i]) else Err(s[..i]);
    }
    hide ParseTyped, LongLong;
    forall e ensures ParseTyped(t, s + e, level) == Done(r, s[i + 2..] + e) {
      LineDone(t, s, level, e);
    }
  }

  /** The bulk string at the front of s, if all of it is there, and its length with the header. */
  method BulkObject(s: seq<byte>, i: nat, ghost level: nat) returns (ok: bool, r: Reply, bytelen: nat)
    requires Newline(s) == i
    ensures ok ==> 2 <= bytelen <= |s| && forall e :: ParseTyped(TString, s + e, level) == Done(r, s[bytelen..] + e)
    ensures !ok ==> ParseTyped(TString, s, level) == Need
  {
    hide LongLong, ParseTyped;
    var len := ReadLongLong(s, i);
    ok, r, bytelen := true, Nil, i + 2;
    if len >= 0 {
      bytelen := bytelen + len + 2;
      if bytelen > |s| {
        BulkNeeds(s, level, len);
        ok := false;
        return;
      }
      r := Str(s[i + 2..i + 2 + len]);
    }
    forall e ensures ParseTyped(TString, s + e, level) == Done(r, s[bytelen..] + e) {
      BulkDone(s, level, e, len);
    }
  }

  lemma MultiBad(s: seq<byte>)
    ensures ParseTyped(TArray, s, MAX_LEVEL) == Bad
  {
  }

  lemma MultiDone(s: seq<byte>, level: nat, n: int)
    requires Newline(s) >= 0 && LongLong(s[..Newline(s)]) == n && n <= 0 && level < MAX_LEVEL
    ensures forall e :: ParseTyped(TArray, s + e, level)
                        == Done(if n == -1 then Nil else Array(n, []), s[Newline(s) + 2..] + e)
  {
    hide LongLong;
    forall e ensures ParseTyped(TArray, s + e, level)
                     == Done(if n == -1 then Nil else Array(n, []), s[Newline(s) + 2..] + e) {
      HeaderStable(s, Newline(s), e);
    }
  }

  lemma BulkDone(s: seq<byte>, level: nat, e: seq<byte>, n: int)
    requires Newline(s) >= 0 && LongLong(s[..Newline(s)]) == n
    requires n >= 0 ==> Newline(s) + 2 + n + 2 <= |s|
    ensures n < 0 ==> ParseTyped(TString, s + e, level) == Done(Nil, s[Newline(s) + 2..] + e)
    ensures n >= 0 ==> ParseTyped(TString, s + e, level)
                       == Done(Str(s[Newline(s) + 2..Newline(s) + 2 + n]), s[Newline(s) + 2 + n + 2..] + e)
  {
    var i := Newline(s);
    HeaderStable(s, i, e);
    if n >= 0 {
      assert (s + e)[i + 2..i + 2 + n] == s[i + 2..i + 2 + n];
      assert (s + e)[i + 2 + n + 2..] == s[i + 2 + n + 2..] + e;
    }
  }

  lemma BulkNeeds(s: seq<byte>, level: nat, n: int)
    requires Newline(s) >= 0 && LongLong(s[..Newline(s)]) == n && n >= 0
    requires Newline(s) + 2 + n + 2 > |s|
    ensures ParseTyped(TString, s, level) == Need
  {
  }

  lemma HeaderStable(s: seq<byte>, i: nat, e: seq<byte>)
    requires CrlfAt(s, i) && Newline(s) == i
    ensures CrlfAt(s + e, i) && Newline(s + e) == i
    ensures (s + e)[..i] == s[..i] && (s + e)[i + 2..] == s[i + 2..] + e
  {
    NewlineStable(s, e);
  }

  // ----- whole runs

  /** What was delivered after each chunk is what the bytes up to there denote. */
  ghost predicate Served(chunks: seq<seq<byte>>, log: seq<Stream>) {
    |log| <= |chunks| && forall k :: 0 <= k < |log| ==> log[k] == Replies(Flatten(chunks[..k + 1]))
  }

  lemma ServedNext(chunks: seq<seq<byte>>, log: seq<Stream>, next: Stream)
    requires |log| < |chunks| && Served(chunks, log) && next == Replies(Flatten(chunks[..|log|]) + chunks[|log|])
    ensures Served(chunks, log + [next]) && Flatten(chunks[..|log| + 1]) == Flatten(chunks[..|log|]) + chunks[|log|]
  {
    hide Replies, Flatten;
    FlattenNext(chunks, |log|);
  }

  /** Feed the chunks one by one and take every reply that is ready after each. After k
      chunks the replies taken and the error flag are those of the recursive parser on the
      first k chunks joined: how the stream is cut is not observable. */
  method Serve(chunks: seq<seq<byte>>) returns (log: seq<Stream>)
    ensures |log| == |chunks| && Served(chunks, log)
  {
    assert Flatten(chunks[..0]) == [] && Served(chunks, []);
    hide CoreOk, Replies, Flatten, Tracks, Served;
    var r := Open();
    var taken: seq<Reply> := [];
    ghost var fed := [];
    log := [];
    for k := 0 to |chunks|
      invariant r.Ready() && fresh(r) && fresh(r.rstack)
      invariant fed == Flatten(chunks[..k]) && Tracks(r, fed, taken)
      invariant |log| == k && Served(chunks, log)
    {
      taken := Step(r, chunks[k], taken, fed);
      fed := fed + chunks[k];
      ServedNext(chunks, log, Stream(taken, r.err));
      log := log + [Stream(taken, r.err)];
    }
  }

  /** The replies taken so far are those of the bytes fed so far, and the reader owes the rest. */
  ghost predicate Tracks(r: Reader, fed: seq<byte>, taken: seq<Reply>)
    reads r, r.rstack
    requires r.Ready()
  {
    forall e :: Replies(fed + e) == r.Future(e).Prepend(taken)
  }

  method Open() returns (r: Reader)
    ensures r.Ready() && fresh(r) && fresh(r.rstack) && Tracks(r, [], [])
  {
    r := new Reader();
    hide FutureOf, CoreOk, Replies;
    forall e ensures Replies([] + e) == r.Future(e).Prepend([]) {
      assert [] + e == e;
      assert [] + r.Future(e).replies == r.Future(e).replies;
    }
  }

  method Step(r: Reader, chunk: seq<byte>, taken: seq<Reply>, ghost fed: seq<byte>) returns (taken': seq<Reply>)
    requires r.Ready() && Tracks(r, fed, taken)
    modifies r, r.rstack
    ensures r.Ready() && Tracks(r, fed + chunk, taken')
    ensures Replies(fed + chunk) == Stream(taken', r.err)
  {
    hide FutureOf, CoreOk, Replies;
    r.Feed(chunk);
    assert forall e :: fed + chunk + e == fed + (chunk + e);
    taken' := Drain(r, taken, fed + chunk);
    assert fed + chunk + [] == fed + chunk;
  }

  method Drain(r: Reader, taken: seq<Reply>, ghost fed: seq<byte>) returns (taken': seq<Reply>)
    requires r.Ready() && Tracks(r, fed, taken)
    modifies r, r.rstack
    ensures r.Ready() && Tracks(r, fed, taken')
    ensures Replies(fed + []) == Stream(taken', r.err)
  {
    hide FutureOf, CoreOk, Replies;
    taken' := taken;
    var next := r.GetReply();
    while next.Some?
      invariant r.Ready()
      invariant next.Some? ==> !r.err && forall e :: Replies(fed + e) == r.Future(e).Prepend([next.value]).Prepend(taken')
      invariant next.None? ==> forall e :: Replies(fed + e) == r.Future(e).Prepend(taken')
      invariant next.None? ==> r.Future([]) == Stream([], r.err)
      decreases next.Some?, |r.Unread()|
    {
      forall e ensures r.Future(e).Prepend([next.value]).Prepend(taken') == r.Future(e).Prepend(taken' + [next.value]) {
        assert taken' + ([next.value] + r.Future(e).replies) == taken' + [next.value] + r.Future(e).replies;
      }
      taken' := taken' + [next.value];
      next := r.GetReply();
    }
  }
}
