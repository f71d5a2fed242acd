/**
 The tokener reads back what the serializer writes, however the text is cut into chunks.

 `Go` follows the machine over a text as if every character came in a call of its own, and
 refuses any character whose effect could depend on where the chunks are cut, or that would
 come after a complete document. So a text `Go` accepts is chunk-independent.
 */
module JsonStreaming {
  import opened Bytes
  import opened OrderedMap
  import opened JsonValue
  import opened JsonTokener

  // ----- following a text

  /** Characters that consult the per-call locals of the number state. */
  predicate Calm(c: byte) {
    Lower(c) != 101 && Lower(c) != 105 && c != MINUS
  }

  predicate Robust(t: Tok, c: byte) {
    c != 0 && !Done(t) && (t.top.state == Number ==> Calm(c))
  }

  function Go(cfg: Config, t: Tok, s: seq<byte>): (r: Option<Tok>)
    requires Inv(cfg, t)
    ensures r.Some? ==> Inv(cfg, r.value) && Begin(r.value) == r.value
    decreases |s|
  {
    if s == [] then Some(Begin(t))
    else if !Robust(t, s[0]) then None
    else
      var o := Redo(cfg, Begin(t), s[0]);
      if o.Halt? then None else Go(cfg, o.t, s[1..])
  }

  lemma {:induction false} GoConcat(cfg: Config, t: Tok, a: seq<byte>, b: seq<byte>)
    requires Inv(cfg, t)
    ensures Go(cfg, t, a).Some? ==> Go(cfg, t, a + b) == Go(cfg, Go(cfg, t, a).value, b)
    ensures Go(cfg, t, a).None? ==> Go(cfg, t, a + b).None?
    decreases |a|
  {
    BeginKeepsInv(cfg, t);
    hide MidInv, Redo, Robust;
    if a == [] {
      assert a + b == b;
      GoBegin(cfg, t, b);
    } else {
      assert (a + b)[0] == a[0] && (a + b)[1..] == a[1..] + b;
      var o := Redo(cfg, Begin(t), a[0]);
      if Robust(t, a[0]) && !o.Halt? {
        GoConcat(cfg, o.t, a[1..], b);
      }
    }
  }

  lemma GoBegin(cfg: Config, t: Tok, s: seq<byte>)
    requires Inv(cfg, t)
    ensures Go(cfg, Begin(t), s) == Go(cfg, t, s)
  {
    hide Redo;
    assert Begin(Begin(t)) == Begin(t);
  }

  /** One consumed character in front of a text. */
  lemma GoCons(cfg: Config, t: Tok, c: byte, u: Tok, s: seq<byte>)
    requires Inv(cfg, t) && Robust(t, c) && Redo(cfg, Begin(t), c) == Eat(u)
    ensures Go(cfg, t, [c] + s) == Go(cfg, u, s)
  {
    hide Redo;
    assert ([c] + s)[1..] == s;
  }

  lemma GoOne(cfg: Config, t: Tok, c: byte, u: Tok)
    requires Inv(cfg, t) && Robust(t, c) && Redo(cfg, Begin(t), c) == Eat(u)
    ensures Go(cfg, t, [c]) == Some(Begin(u))
  {
    hide Redo;
    GoCons(cfg, t, c, u, []);
    assert [c] + [] == [c];
  }

  /** Two states that treat the first character alike treat a text alike. */
  lemma GoSame(cfg: Config, t: Tok, u: Tok, s: seq<byte>)
    requires Inv(cfg, t) && Inv(cfg, u) && s != []
    requires Robust(t, s[0]) && Robust(u, s[0])
    requires Redo(cfg, Begin(t), s[0]) == Redo(cfg, Begin(u), s[0])
    ensures Go(cfg, t, s) == Go(cfg, u, s)
  {
    hide Redo;
  }

  lemma RedoAgain(cfg: Config, t: Tok, c: byte, u: Tok)
    requires MidInv(cfg, t) && Micro(cfg, t, c) == Again(u)
    ensures MidInv(cfg, u) && Redo(cfg, t, c) == Redo(cfg, u, c)
  {
    MicroKeepsInv(cfg, t, c);
  }

  lemma RedoEat(cfg: Config, t: Tok, c: byte, u: Tok)
    requires MidInv(cfg, t) && Micro(cfg, t, c) == Eat(u)
    ensures Redo(cfg, t, c) == Eat(u) && Inv(cfg, u)
  {
    MicroKeepsInv(cfg, t, c);
  }

  // ----- the locals of a call do not matter

  /** Equal up to the locals, which agree wherever they are about to be used. */
  predicate Similar(t: Tok, u: Tok, c: byte) {
    && Begin(t) == Begin(u)
    && (t.top.state in {ArrayAdd, ObjectValueAdd} ==> t.obj == u.obj)
    && (t.top.state == Number ==> t.num == u.num || Calm(c))
  }

  predicate SameOutcome(o: Outcome, p: Outcome, c: byte) {
    && o.Again? == p.Again? && o.Eat? == p.Eat?
    && (o.Halt? ==> o.err == p.err)
    && (if o.Again? then Similar(o.t, p.t, c) else Begin(o.t) == Begin(p.t))
  }

  lemma NumberSimilar(cfg: Config, t: Tok, u: Tok, c: byte)
    requires MidInv(cfg, t) && MidInv(cfg, u) && Similar(t, u, c) && t.top.state == Number
    ensures SameOutcome(Micro(cfg, t, c), Micro(cfg, u, c), c)
  {
    hide ParseInt64, Lower;
  }

  lemma WordSimilar(cfg: Config, t: Tok, u: Tok, c: byte)
    requires MidInv(cfg, t) && MidInv(cfg, u) && Similar(t, u, c)
    requires t.top.state in {Inf, NullWord, BooleanWord}
    ensures SameOutcome(Micro(cfg, t, c), Micro(cfg, u, c), c)
  {
    hide SameWord, Lower, MidInv, Min, Unsigned;
  }

  lemma StartSimilar(cfg: Config, t: Tok, u: Tok, c: byte)
    requires MidInv(cfg, t) && MidInv(cfg, u) && Similar(t, u, c) && t.top.state == Start
    ensures SameOutcome(Micro(cfg, t, c), Micro(cfg, u, c), c)
  {
    hide Lower, MidInv, IsDigit;
  }

  lemma PlainSimilar(cfg: Config, t: Tok, u: Tok, c: byte)
    requires MidInv(cfg, t) && MidInv(cfg, u) && Similar(t, u, c)
    requires t.top.state in {EatWs, Finish}
    ensures SameOutcome(Micro(cfg, t, c), Micro(cfg, u, c), c)
  {
    hide Lower, IsSpace;
  }

  lemma TextSimilar(cfg: Config, t: Tok, u: Tok, c: byte)
    requires MidInv(cfg, t) && MidInv(cfg, u) && Similar(t, u, c)
    requires t.top.state in {String, StringEscape, EscapeUnicode, Field}
    ensures SameOutcome(Micro(cfg, t, c), Micro(cfg, u, c), c)
  {
    hide CString, Utf8, Lower, HexValue;
  }

  lemma ContainerSimilar(cfg: Config, t: Tok, u: Tok, c: byte)
    requires MidInv(cfg, t) && MidInv(cfg, u) && Similar(t, u, c) && !InComment(t.top.state)
    requires t.top.state !in {EatWs, Start, Finish, Inf, NullWord, BooleanWord, Number, String, StringEscape,
                              EscapeUnicode, Field}
    ensures SameOutcome(Micro(cfg, t, c), Micro(cfg, u, c), c)
  {
    hide Add, Lower;
  }

  lemma CommentSimilar(cfg: Config, t: Tok, u: Tok, c: byte)
    requires MidInv(cfg, t) && MidInv(cfg, u) && Similar(t, u, c) && InComment(t.top.state)
    ensures SameOutcome(Micro(cfg, t, c), Micro(cfg, u, c), c)
  {
    hide MidInv;
  }

  lemma MicroSimilar(cfg: Config, t: Tok, u: Tok, c: byte)
    requires MidInv(cfg, t) && MidInv(cfg, u) && Similar(t, u, c)
    ensures SameOutcome(Micro(cfg, t, c), Micro(cfg, u, c), c)
  {
    hide MidInv, Micro, SameOutcome;
    if t.top.state == Number {
      NumberSimilar(cfg, t, u, c);
    } else if t.top.state == Start {
      StartSimilar(cfg, t, u, c);
    } else if t.top.state in {EatWs, Finish} {
      PlainSimilar(cfg, t, u, c);
    } else if t.top.state in {Inf, NullWord, BooleanWord} {
      WordSimilar(cfg, t, u, c);
    } else if t.top.state in {String, StringEscape, EscapeUnicode, Field} {
      TextSimilar(cfg, t, u, c);
    } else if InComment(t.top.state) {
      CommentSimilar(cfg, t, u, c);
    } else {
      ContainerSimilar(cfg, t, u, c);
    }
  }

  lemma {:induction false} RedoSimilar(cfg: Config, t: Tok, u: Tok, c: byte)
    requires MidInv(cfg, t) && MidInv(cfg, u) && Similar(t, u, c)
    ensures var o, p := Redo(cfg, t, c), Redo(cfg, u, c);
            o.Eat? == p.Eat? && Begin(o.t) == Begin(p.t) && (o.Halt? ==> o.err == p.err)
    decreases Rank(t)
  {
    MicroSimilar(cfg, t, u, c);
    MicroKeepsInv(cfg, t, c);
    MicroKeepsInv(cfg, u, c);
    var o, p := Micro(cfg, t, c), Micro(cfg, u, c);
    if o.Again? {
      MicroLowersRank(cfg, t, c);
      hide Micro, Similar, MidInv, Rank;
      RedoSimilar(cfg, o.t, p.t, c);
    }
  }

  /** Inside one call the machine goes where `Go` goes. */
  lemma {:induction false} RunGoes(cfg: Config, t: Tok, s: seq<byte>)
    requires Inv(cfg, t) && Go(cfg, t, s).Some?
    ensures Run(cfg, t, s).Paused? && Begin(Run(cfg, t, s).t) == Go(cfg, t, s).value
    decreases |s|
  {
    if s != [] {
      RedoSimilar(cfg, t, Begin(t), s[0]);
      hide Redo;
      var o, p := Redo(cfg, t, s[0]), Redo(cfg, Begin(t), s[0]);
      GoBegin(cfg, o.t, s[1..]);
      GoBegin(cfg, p.t, s[1..]);
      RunGoes(cfg, o.t, s[1..]);
    }
  }

  // ----- cutting a document into chunks

  /** The results of successive calls of one tokener, as long as its state is well-formed. */
  function Calls(cfg: Config, t: Tok, chunks: seq<seq<byte>>): (rs: seq<Parsed>)
    requires Inv(cfg, t)
    ensures |rs| <= |chunks|
    decreases |chunks|
  {
    if chunks == [] then []
    else
      var p := ParseEx(cfg, t, chunks[0]);
      [p] + if Inv(cfg, p.t) then Calls(cfg, p.t, chunks[1..]) else []
  }

  /** A text after which the machine has read exactly the document v. */
  ghost predicate Reads(cfg: Config, t: Tok, s: seq<byte>, v: Value)
    requires Inv(cfg, t)
  {
    var g := Go(cfg, t, s);
    s != [] && g.Some? && Done(g.value) && g.value.top.current == v
  }

  ghost predicate Delivered(p: Parsed, v: Value) {
    p.err == Success && p.ret == Some(v) && p.t.below == [] && p.t.top == FRESH
  }

  lemma CallInside(cfg: Config, t: Tok, chunk: seq<byte>, rest: seq<byte>, v: Value)
    requires Inv(cfg, t) && rest != [] && Reads(cfg, t, chunk + rest, v)
    ensures var p := ParseEx(cfg, t, chunk);
            && p.err == Continue && p.ret == None && Inv(cfg, p.t) && Reads(cfg, p.t, rest, v)
  {
    BeginKeepsInv(cfg, t);
    hide Inv, Redo;
    GoConcat(cfg, t, chunk, rest);
    GoBegin(cfg, t, chunk);
    RunGoes(cfg, Begin(t), chunk);
    ParseExKeepsInv(cfg, t, chunk);
    var r := Run(cfg, Begin(t), chunk);
    GoBegin(cfg, r.t, rest);
    NotDoneYet(cfg, r.t, rest);
  }

  lemma NotDoneYet(cfg: Config, t: Tok, rest: seq<byte>)
    requires Inv(cfg, t) && rest != [] && Go(cfg, t, rest).Some?
    ensures !Done(t) && !(t.top.state == Finish && t.below == [])
  {
  }

  lemma CallLast(cfg: Config, t: Tok, chunk: seq<byte>, v: Value)
    requires Inv(cfg, t) && Reads(cfg, t, chunk, v)
    ensures Delivered(ParseEx(cfg, t, chunk), v)
  {
    BeginKeepsInv(cfg, t);
    hide Inv, Redo;
    GoBegin(cfg, t, chunk);
    RunGoes(cfg, Begin(t), chunk);
  }

  lemma {:induction false} ReadsInChunks(cfg: Config, t: Tok, chunks: seq<seq<byte>>, v: Value)
    requires Inv(cfg, t) && chunks != [] && chunks[|chunks| - 1] != []
    requires Reads(cfg, t, Flatten(chunks), v)
    ensures var rs := Calls(cfg, t, chunks);
            && |rs| == |chunks|
            && (forall i :: 0 <= i < |rs| - 1 ==> rs[i].err == Continue && rs[i].ret == None)
            && Delivered(rs[|rs| - 1], v)
    decreases |chunks|
  {
    hide Inv, Go, ParseEx;
    var rest := chunks[1..];
    if rest == [] {
      assert chunks[0] + Flatten(rest) == chunks[0];
      CallLast(cfg, t, chunks[0], v);
    } else {
      FlattenNonEmpty(rest);
      CallInside(cfg, t, chunks[0], Flatten(rest), v);
      ReadsInChunks(cfg, ParseEx(cfg, t, chunks[0]).t, rest, v);
    }
  }

  lemma {:induction false} FlattenNonEmpty(chunks: seq<seq<byte>>)
    requires chunks != [] && chunks[|chunks| - 1] != []
    ensures Flatten(chunks) != []
    decreases |chunks|
  {
    if |chunks| > 1 {
      FlattenNonEmpty(chunks[1..]);
    }
  }
}
