/**
 A multi bulk reply under construction. The reader creates each array when its header is
 read, hangs it into its parent at once, and fills it later; so the arrays still open are
 the last elements of one another. `Put` is the store `parent->element[idx] = r` at a given
 level, `Finish` is what a recursive parser would still have to do.
 */
module RespTree {
  import opened Bytes
  import opened RespSpec

  /** Levels 1..level of t are arrays, each the last element of the one above. */
  predicate HasSpine(t: Reply, level: nat)
    decreases level
  {
    level == 0 || (t.Array? && (level == 1 || (t.elems != [] && HasSpine(t.elems[|t.elems| - 1], level - 1))))
  }

  /** The number of elements stored at the given level so far. */
  function Filled(t: Reply, level: nat): nat
    requires level > 0 && HasSpine(t, level)
    decreases level
  {
    if level == 1 then |t.elems| else Filled(t.elems[|t.elems| - 1], level - 1)
  }

  function Put(t: Reply, level: nat, r: Reply): (u: Reply)
    requires HasSpine(t, level)
    ensures HasSpine(u, level)
    decreases level
  {
    if level == 0 then r
    else if level == 1 then Array(t.count, t.elems + [r])
    else
      var n := |t.elems| - 1;
      Array(t.count, t.elems[..n] + [Put(t.elems[n], level - 1, r)])
  }

  function Fill(t: Reply, level: nat, rs: seq<Reply>): (u: Reply)
    requires level > 0 && HasSpine(t, level)
    ensures HasSpine(u, level)
    decreases |rs|
  {
    if rs == [] then t else Fill(Put(t, level, rs[0]), level, rs[1..])
  }

  /** Parse the elements still missing at every open level, innermost first. */
  function Finish(t: Reply, todo: seq<nat>, s: seq<byte>): Parsed<Reply>
    requires HasSpine(t, |todo|)
    decreases |todo|
  {
    if todo == [] then Done(t, s)
    else
      var n := |todo| - 1;
      match ParseElems(todo[n], s, |todo|)
      case Need => Need
      case Bad => Bad
      case Done(rs, rest) =>
        SpineAbove(Fill(t, |todo|, rs), |todo|);
        Finish(Fill(t, |todo|, rs), todo[..n], rest)
  }

  /** The same, when the current item is still to be completed. */
  function Resume(p: Parsed<Reply>, t: Reply, todo: seq<nat>): Parsed<Reply>
    requires HasSpine(t, |todo|)
  {
    match p
    case Need => Need
    case Bad => Bad
    case Done(r, rest) => Finish(Put(t, |todo|, r), todo, rest)
  }

  lemma {:induction false} SpineAbove(t: Reply, level: nat)
    requires level > 0 && HasSpine(t, level)
    ensures HasSpine(t, level - 1)
    decreases level
  {
    if level > 1 {
      SpineAbove(t.elems[|t.elems| - 1], level - 1);
    }
  }

  lemma {:induction false} SpineBelow(t: Reply, level: nat, n: int)
    requires HasSpine(t, level)
    ensures HasSpine(Put(t, level, Array(n, [])), level + 1)
    decreases level
  {
    if level > 1 {
      SpineBelow(t.elems[|t.elems| - 1], level - 1, n);
    }
  }

  lemma {:induction false} FilledPut(t: Reply, level: nat, r: Reply, j: nat)
    requires 0 < j <= level && HasSpine(t, level) && HasSpine(t, j)
    ensures HasSpine(Put(t, level, r), j)
    ensures Filled(Put(t, level, r), j) == Filled(t, j) + if j == level then 1 else 0
    decreases level
  {
    if level > 1 && j > 1 {
      FilledPut(t.elems[|t.elems| - 1], level - 1, r, j - 1);
    }
  }

  lemma {:induction false} FilledBelow(t: Reply, level: nat, n: int)
    requires HasSpine(t, level)
    ensures HasSpine(Put(t, level, Array(n, [])), level + 1)
    ensures Filled(Put(t, level, Array(n, [])), level + 1) == 0
    decreases level
  {
    if level > 1 {
      FilledBelow(t.elems[|t.elems| - 1], level - 1, n);
    }
  }

  /** Storing into the array just hung at `level` stores into its element list. */
  lemma {:induction false} PutBelow(t: Reply, level: nat, n: int, rs: seq<Reply>, r: Reply)
    requires HasSpine(t, level)
    ensures HasSpine(Put(t, level, Array(n, rs)), level + 1)
    ensures Put(Put(t, level, Array(n, rs)), level + 1, r) == Put(t, level, Array(n, rs + [r]))
    decreases level
  {
    if level > 1 {
      PutBelow(t.elems[|t.elems| - 1], level - 1, n, rs, r);
    }
  }

  /** Filling an array after hanging it equals hanging it filled. */
  lemma {:induction false} FillBelow(t: Reply, level: nat, n: int, done: seq<Reply>, rs: seq<Reply>)
    requires HasSpine(t, level)
    ensures HasSpine(Put(t, level, Array(n, done)), level + 1)
    ensures Fill(Put(t, level, Array(n, done)), level + 1, rs) == Put(t, level, Array(n, done + rs))
    decreases |rs|
  {
    PutBelow(t, level, n, done, Nil);
    if rs == [] {
      assert done + rs == done;
    } else {
      PutBelow(t, level, n, done, rs[0]);
      FillBelow(t, level, n, done + [rs[0]], rs[1..]);
      assert done + [rs[0]] + rs[1..] == done + rs;
    }
  }

  /** One more element at the innermost level is one more item to parse. */
  lemma FinishNext(t: Reply, todo: seq<nat>, k: nat, s: seq<byte>)
    requires HasSpine(t, |todo| + 1)
    ensures Finish(t, todo + [k + 1], s) == Resume(ParseItem(s, |todo| + 1), t, todo + [k])
  {
    var level := |todo| + 1;
    assert (todo + [k + 1])[..|todo|] == todo == (todo + [k])[..|todo|];
    match ParseItem(s, level)
    case Need =>
    case Bad =>
    case Done(r, rest) =>
      match ParseElems(k, rest, level)
      case Need =>
      case Bad =>
      case Done(rs, rest') =>
        assert ([r] + rs)[1..] == rs;
        assert Fill(t, level, [r] + rs) == Fill(Put(t, level, r), level, rs);
  }

  /** A level with nothing left is closed without input. */
  lemma FinishClose(t: Reply, todo: seq<nat>, s: seq<byte>)
    requires HasSpine(t, |todo| + 1)
    ensures HasSpine(t, |todo|) && Finish(t, todo + [0], s) == Finish(t, todo, s)
  {
    SpineAbove(t, |todo| + 1);
    assert (todo + [0])[..|todo|] == todo;
  }

  /** Reading an array header opens a level: the stack machine and the recursion agree. */
  lemma FinishOpen(t: Reply, todo: seq<nat>, n: nat, s: seq<byte>)
    requires HasSpine(t, |todo|) && n > 0
    ensures HasSpine(Put(t, |todo|, Array(n, [])), |todo| + 1)
    ensures Finish(Put(t, |todo|, Array(n, [])), todo + [n], s)
            == match ParseElems(n, s, |todo| + 1)
               case Need => Need
               case Bad => Bad
               case Done(rs, rest) => Finish(Put(t, |todo|, Array(n, rs)), todo, rest)
  {
    hide ParseElems, Put, HasSpine;
    SpineBelow(t, |todo|, n);
    var u, p := Put(t, |todo|, Array(n, [])), ParseElems(n, s, |todo| + 1);
    assert (todo + [n])[..|todo|] == todo;
    if p.Done? {
      FillBelow(t, |todo|, n, [], p.value);
      assert [] + p.value == p.value;
    }
  }
}
