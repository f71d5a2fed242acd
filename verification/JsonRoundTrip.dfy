/** What the tokener makes of each piece of serialized text, up to whole documents. */
module JsonRoundTrip {
  import opened Bytes
  import opened Unicode
  import opened OrderedMap
  import opened JsonValue
  import opened JsonTokener
  import opened JsonSerializer
  import opened JsonStreaming

  /** The text of v was read at this level; a number or a word still waits for the
      character that ends it. */
  predicate Ends(t: Tok, v: Value) {
    || (t.top.state == EatWs && t.top.saved == Finish && t.top.current == v)
    || (t.top.state == NullWord && t.pb == NULL_WORD && t.stPos == 4 && v == Null)
    || (t.top.state == BooleanWord && v.Bool? && t.pb == BoolText(v.b) && t.stPos == |t.pb|)
    || (t.top.state == Number && v.Int? && t.pb == IntText(v.i) && !t.isDouble)
  }

  /** What can follow a value in serialized text. */
  predicate Delimiter(c: byte) {
    IsSpace(c) || c == COMMA || c == RBRACKET || c == RBRACE
  }

  predicate AllSpace(s: seq<byte>) {
    forall i :: 0 <= i < |s| ==> IsSpace(s[i])
  }

  // ----- white space

  lemma SpaceGo(cfg: Config, t: Tok, c: byte)
    requires Inv(cfg, t) && t.top.state == EatWs && !Done(t) && IsSpace(c)
    ensures Go(cfg, t, [c]) == Some(Begin(t))
  {
    RedoEat(cfg, Begin(t), c, Begin(t));
    GoOne(cfg, t, c, Begin(t));
  }

  lemma {:induction false} SpacesGo(cfg: Config, t: Tok, s: seq<byte>)
    requires Inv(cfg, t) && t.top.state == EatWs && !Done(t) && AllSpace(s)
    ensures Go(cfg, t, s) == Some(Begin(t))
    decreases |s|
  {
    if s != [] {
      SpaceGo(cfg, t, s[0]);
      assert s == [s[0]] + s[1..];
      GoConcat(cfg, t, [s[0]], s[1..]);
      SpacesGo(cfg, Begin(t), s[1..]);
    }
  }

  lemma FormattingIsSpace(fl: Flags, level: nat, had: bool)
    ensures AllSpace(Open(fl)) && AllSpace(Before(fl, level)) && AllSpace(Closing(fl, level, had))
    ensures AllSpace(When(fl.spaced, [SPACE]))
  {
  }

  // ----- the end of a value

  lemma {:induction false} LeadingAll(d: seq<byte>)
    requires forall i :: 0 <= i < |d| ==> IsDigit(d[i])
    ensures LeadingDigits(d) == d
  {
    if d != [] {
      assert IsDigit(d[0]);
      LeadingAll(d[1..]);
    }
  }

  /** Reading an integer back is exact over the whole 64-bit range. */
  lemma IntTextParses(i: int)
    requires INT64_MIN <= i <= INT64_MAX
    ensures ParseInt64(IntText(i)) == Some(i)
  {
    var s := IntText(i);
    var d := if i < 0 then Digits(-i) else Digits(i);
    assert IsDigit(d[0]);
    LeadingAll(d);
    NatOfDigits(if i < 0 then -i else i);
    assert i < 0 ==> s[1..] == d;
  }

  /** Integers beyond the range are cut to its ends. */
  lemma BigIntsSaturate(n: nat)
    ensures n > INT64_MAX ==> ParseInt64(Digits(n)) == Some(INT64_MAX)
    ensures n > -INT64_MIN ==> ParseInt64([45] + Digits(n)) == Some(INT64_MIN)
  {
    var d := Digits(n);
    assert IsDigit(d[0]) && ([45] + d)[1..] == d;
    LeadingAll(d);
    NatOfDigits(n);
    hide Digits, NatOf, LeadingDigits;
  }

  lemma IntTextZero(i: int)
    ensures IntText(i)[0] == 48 ==> i == 0
  {
    assert i < 0 ==> IntText(i)[0] == 45;
  }

  /** A delimiter first completes the value. */
  lemma SettleValue(cfg: Config, t: Tok, v: Value, c: byte) returns (u: Tok)
    requires Inv(cfg, t) && Ends(t, v) && Delimiter(c) && Storable(v)
    ensures MidInv(cfg, u) && u.below == t.below && u.top == Settle(t.top, v)
    ensures Redo(cfg, Begin(t), c) == Redo(cfg, u, c)
  {
    var b := Begin(t);
    if t.top.state == EatWs {
      u := b;
    } else if t.top.state == Number {
      IntTextParses(v.i);
      IntTextZero(v.i);
      u := b.(top := Settle(t.top, v));
      hide ParseInt64, IntText;
      RedoAgain(cfg, b, c, u);
    } else {
      u := b.(pb := t.pb + [c], top := Settle(t.top, v));
      WordEnds(cfg, b, v, c);
      RedoAgain(cfg, b, c, u);
    }
  }

  lemma WordEnds(cfg: Config, t: Tok, v: Value, c: byte)
    requires MidInv(cfg, t) && Ends(t, v) && t.top.state in {NullWord, BooleanWord}
    ensures Micro(cfg, t, c) == Again(t.(pb := t.pb + [c], top := Settle(t.top, v)))
  {
    var pb := t.pb + [c];
    if v == Bool(false) {
      assert pb[0] == 102 && TRUE_WORD[0] == 116;
      assert !SameWord(cfg.strict, TRUE_WORD, pb, 4);
      assert SameWord(cfg.strict, FALSE_WORD, pb, 5);
    } else if v == Null {
      assert SameWord(cfg.strict, NULL_WORD, pb, 4);
    } else {
      assert SameWord(cfg.strict, TRUE_WORD, pb, 4);
    }
  }

  lemma EndsRobust(t: Tok, v: Value, c: byte)
    requires Ends(t, v) && t.below != [] && Delimiter(c)
    ensures Robust(t, c)
  {
  }

  lemma SpaceAfterValue(cfg: Config, t: Tok, v: Value, c: byte)
    requires Inv(cfg, t) && Ends(t, v) && t.below != [] && IsSpace(c) && Storable(v)
    ensures var g := Go(cfg, t, [c]);
            g.Some? && g.value.below == t.below && Ends(g.value, v)
  {
    var u := SettleValue(cfg, t, v, c);
    RedoEat(cfg, u, c, u);
    EndsRobust(t, v, c);
    GoOne(cfg, t, c, u);
  }

  lemma {:induction false} SpacesAfterValue(cfg: Config, t: Tok, v: Value, s: seq<byte>)
    requires Inv(cfg, t) && Ends(t, v) && t.below != [] && AllSpace(s) && Storable(v)
    ensures var g := Go(cfg, t, s);
            g.Some? && g.value.below == t.below && Ends(g.value, v)
    decreases |s|
  {
    if s != [] {
      SpaceAfterValue(cfg, t, v, s[0]);
      assert s == [s[0]] + s[1..];
      GoConcat(cfg, t, [s[0]], s[1..]);
      hide Go;
      SpacesAfterValue(cfg, Go(cfg, t, [s[0]]).value, v, s[1..]);
    }
  }

  /** Leaving the level of a finished value, down to the level that takes it. */
  lemma Leave(cfg: Config, u: Tok, v: Value, c: byte) returns (w: Tok)
    requires MidInv(cfg, u) && u.below != [] && u.top.state == EatWs && u.top.saved == Finish && u.top.current == v
    requires Delimiter(c) && !IsSpace(c)
    ensures MidInv(cfg, w) && Redo(cfg, u, c) == Redo(cfg, w, c)
    ensures w.below == u.below[..|u.below| - 1] && w.top == u.below[|u.below| - 1] && w.obj == v
  {
    var n := |u.below| - 1;
    var u1 := u.(top := u.top.(state := Finish));
    RedoAgain(cfg, u, c, u1);
    w := u1.(below := u.below[..n], top := u.below[n], obj := v);
    RedoAgain(cfg, u1, c, w);
  }

  /** The comma or bracket behind an array element. */
  lemma ItemEnds(cfg: Config, t: Tok, v: Value, c: byte)
    requires Inv(cfg, t) && Ends(t, v) && Storable(v) && c in {COMMA, RBRACKET}
    requires t.below != [] && t.below[|t.below| - 1].state == ArrayAdd
    ensures var g, l := Go(cfg, t, [c]), t.below[|t.below| - 1];
            && l.current.Arr? && g.Some? && g.value.below == t.below[..|t.below| - 1]
            && g.value.top == Level(EatWs, if c == COMMA then ArrayAfterSep else Finish,
                                    Arr(l.current.items + [v]), l.field)
  {
    var l := t.below[|t.below| - 1];
    assert Waiting(l);
    var u := SettleValue(cfg, t, v, c);
    var w := Leave(cfg, u, v, c);
    var w1 := w.(top := Level(EatWs, ArraySep, Arr(l.current.items + [v]), l.field));
    RedoAgain(cfg, w, c, w1);
    var w3 := AfterItem(cfg, w1, c);
    EndsRobust(t, v, c);
    hide Redo, MidInv, Ends;
    GoOne(cfg, t, c, w3);
  }

  /** What follows an item that was added to its array. */
  lemma AfterItem(cfg: Config, w1: Tok, c: byte) returns (w3: Tok)
    requires MidInv(cfg, w1) && w1.top.state == EatWs && w1.top.saved == ArraySep && c in {COMMA, RBRACKET}
    ensures Redo(cfg, w1, c) == Eat(w3)
    ensures w3 == w1.(top := Wait(w1.top.(state := ArraySep), if c == COMMA then ArrayAfterSep else Finish))
  {
    var w2 := w1.(top := w1.top.(state := ArraySep));
    RedoAgain(cfg, w1, c, w2);
    w3 := w2.(top := Wait(w2.top, if c == COMMA then ArrayAfterSep else Finish));
    RedoEat(cfg, w2, c, w3);
  }

  /** The comma or brace behind a field with a new key. */
  lemma FieldEnds(cfg: Config, t: Tok, v: Value, c: byte)
    requires Inv(cfg, t) && Ends(t, v) && Storable(v) && c in {COMMA, RBRACE}
    requires t.below != [] && t.below[|t.below| - 1].state == ObjectValueAdd
    ensures var g, l := Go(cfg, t, [c]), t.below[|t.below| - 1];
            && l.current.Obj? && l.field.Some? && g.Some? && g.value.below == t.below[..|t.below| - 1]
            && g.value.top == Level(EatWs, if c == COMMA then FieldStartAfterSep else Finish,
                                    Obj(Add(l.current.fields, l.field.value, v)), None)
  {
    hide Add, Go, Redo, Robust;
    var l := t.below[|t.below| - 1];
    assert Waiting(l);
    var u := SettleValue(cfg, t, v, c);
    var w := Leave(cfg, u, v, c);
    var w1 := w.(top := Level(EatWs, ObjectSep, Obj(Add(l.current.fields, l.field.value, v)), None));
    RedoAgain(cfg, w, c, w1);
    var w3 := AfterField(cfg, w1, c);
    EndsRobust(t, v, c);
    hide MidInv, Ends, Micro;
    GoOne(cfg, t, c, w3);
  }

  /** What follows a field that was added to its object. */
  lemma AfterField(cfg: Config, w1: Tok, c: byte) returns (w3: Tok)
    requires MidInv(cfg, w1) && w1.top.state == EatWs && w1.top.saved == ObjectSep && c in {COMMA, RBRACE}
    ensures Redo(cfg, w1, c) == Eat(w3)
    ensures w3 == w1.(top := Wait(w1.top.(state := ObjectSep), if c == COMMA then FieldStartAfterSep else Finish))
  {
    var w2 := w1.(top := w1.top.(state := ObjectSep));
    RedoAgain(cfg, w1, c, w2);
    w3 := w2.(top := Wait(w2.top, if c == COMMA then FieldStartAfterSep else Finish));
    RedoEat(cfg, w2, c, w3);
  }

  // ----- words and numbers

  /** The first character of a value, at a fresh level. */
  lemma ToStart(cfg: Config, t: Tok, c: byte)
    requires Inv(cfg, t) && t.top == FRESH && !IsSpace(c) && c != SLASH
    ensures MidInv(cfg, Begin(t).(top := FRESH.(state := Start)))
    ensures Redo(cfg, Begin(t), c) == Redo(cfg, Begin(t).(top := FRESH.(state := Start)), c)
  {
    RedoAgain(cfg, Begin(t), c, Begin(t).(top := FRESH.(state := Start)));
  }

  predicate WordState(t: Tok, w: seq<byte>, n: nat) {
    && n <= |w| && t.pb == w[..n] && t.stPos == n
    && ((t.top.state == NullWord && w == NULL_WORD) || (t.top.state == BooleanWord && w in {TRUE_WORD, FALSE_WORD}))
  }

  lemma WordStep(cfg: Config, t: Tok, w: seq<byte>, n: nat)
    requires MidInv(cfg, t) && n < |w| && WordState(t, w, n)
    ensures Micro(cfg, t, w[n]) == Eat(t.(pb := w[..n + 1], stPos := n + 1))
  {
    var pb := t.pb + [w[n]];
    assert pb == w[..n + 1];
    assert SameWord(cfg.strict, w, pb, n + 1);
    if w == FALSE_WORD {
      assert pb[0] == 102 && TRUE_WORD[0] == 116;
      assert !SameWord(cfg.strict, TRUE_WORD, pb, Min(n + 1, 4));
    }
  }

  lemma {:induction false} WordGoes(cfg: Config, t: Tok, w: seq<byte>, n: nat)
    requires Inv(cfg, t) && WordState(t, w, n) && 0 < n
    ensures var g := Go(cfg, t, w[n..]);
            g.Some? && g.value.below == t.below && g.value.top == t.top && WordState(g.value, w, |w|)
    decreases |w| - n
  {
    if n == |w| {
      assert w[n..] == [];
    } else {
      var b := Begin(t);
      var u := b.(pb := w[..n + 1], stPos := n + 1);
      WordStep(cfg, b, w, n);
      RedoEat(cfg, b, w[n], u);
      assert w[n..] == [w[n]] + w[n + 1..];
      GoCons(cfg, t, w[n], u, w[n + 1..]);
      hide Go;
      WordGoes(cfg, u, w, n + 1);
    }
  }

  lemma ScalarWordGoes(cfg: Config, t: Tok, w: seq<byte>, v: Value)
    requires Inv(cfg, t) && t.top == FRESH
    requires (w == NULL_WORD && v == Null) || (v.Bool? && w == BoolText(v.b))
    ensures var g := Go(cfg, t, w);
            g.Some? && g.value.below == t.below && Ends(g.value, v)
  {
    hide Redo, MidInv, Go, Robust;
    var u := FirstOfWord(cfg, t, w, v);
    assert w == [w[0]] + w[1..];
    GoCons(cfg, t, w[0], u, w[1..]);
    WordGoes(cfg, u, w, 1);
  }

  lemma FirstOfWord(cfg: Config, t: Tok, w: seq<byte>, v: Value) returns (u: Tok)
    requires Inv(cfg, t) && t.top == FRESH
    requires (w == NULL_WORD && v == Null) || (v.Bool? && w == BoolText(v.b))
    ensures u == Token(Begin(t).(top := FRESH.(state := Start)), if v == Null then NullWord else BooleanWord).(pb := w[..1], stPos := 1)
    ensures Redo(cfg, Begin(t), w[0]) == Eat(u) && Inv(cfg, u) && Robust(t, w[0])
  {
    var c := w[0];
    var s := Begin(t).(top := FRESH.(state := Start));
    ToStart(cfg, t, c);
    var u0 := Token(s, if v == Null then NullWord else BooleanWord);
    RedoAgain(cfg, s, c, u0);
    u := u0.(pb := w[..1], stPos := 1);
    hide Redo, Lower;
    WordStep(cfg, u0, w, 0);
    hide Micro;
    RedoEat(cfg, u0, c, u);
  }

  lemma {:induction false} DigitsGo(cfg: Config, t: Tok, d: seq<byte>)
    requires Inv(cfg, t) && t.top.state == Number && !t.isDouble
    requires forall i :: 0 <= i < |d| ==> IsDigit(d[i])
    ensures var g := Go(cfg, t, d);
            g.Some? && g.value.below == t.below && g.value.top == t.top && g.value.pb == t.pb + d
            && !g.value.isDouble
    decreases |d|
  {
    hide Go, Inv;
    if d == [] {
      NothingGoes(cfg, t);
      assert t.pb + d == t.pb;
    } else {
      var u := DigitStep(cfg, t, d[0], d[1..]);
      DigitsGo(cfg, u, d[1..]);
      Append(t.pb, [d[0]], d[1..]);
      assert [d[0]] + d[1..] == d;
    }
  }

  lemma NothingGoes(cfg: Config, t: Tok)
    requires Inv(cfg, t)
    ensures Go(cfg, t, []) == Some(Begin(t))
  {
  }

  /** A digit of a number, before a rest s. */
  lemma DigitStep(cfg: Config, t: Tok, c: byte, s: seq<byte>) returns (u: Tok)
    requires Inv(cfg, t) && t.top.state == Number && !t.isDouble && IsDigit(c)
    ensures Inv(cfg, u) && Go(cfg, t, [c] + s) == Go(cfg, u, s)
    ensures u.below == t.below && u.top == t.top && u.pb == t.pb + [c] && !u.isDouble
  {
    u := Begin(t).(pb := t.pb + [c], num := NumLocals(1, false, 1));
    RedoEat(cfg, Begin(t), c, u);
    hide Go, Redo;
    GoCons(cfg, t, c, u, s);
  }

  lemma IntGoes(cfg: Config, t: Tok, i: int)
    requires Inv(cfg, t) && t.top == FRESH
    ensures var g := Go(cfg, t, IntText(i));
            g.Some? && g.value.below == t.below && Ends(g.value, Int(i))
  {
    var w := IntText(i);
    assert w[0] == MINUS || IsDigit(w[0]);
    assert forall k :: 1 <= k < |w| ==> IsDigit(w[k]);
    assert w == [w[0]] + w[1..];
    hide Go, Inv, IntText;
    var u := FirstOfInt(cfg, t, w[0], w[1..]);
    DigitsGo(cfg, u, w[1..]);
  }

  lemma FirstOfInt(cfg: Config, t: Tok, c: byte, rest: seq<byte>) returns (u: Tok)
    requires Inv(cfg, t) && t.top == FRESH && (c == MINUS || IsDigit(c))
    ensures Inv(cfg, u) && u.below == t.below && u.top == FRESH.(state := Number) && u.pb == [c] && !u.isDouble
    ensures Go(cfg, t, [c] + rest) == Go(cfg, u, rest)
  {
    var s := Begin(t).(top := FRESH.(state := Start));
    ToStart(cfg, t, c);
    hide Go, Redo, Micro;
    u := IntBegins(cfg, s, c);
    GoCons(cfg, t, c, u, rest);
  }

  /** A sign or a digit where a value starts. */
  lemma IntBegins(cfg: Config, s: Tok, c: byte) returns (u: Tok)
    requires MidInv(cfg, s) && s.top == FRESH.(state := Start) && (c == MINUS || IsDigit(c))
    ensures Inv(cfg, u) && u.below == s.below && u.top == FRESH.(state := Number) && u.pb == [c] && !u.isDouble
    ensures Redo(cfg, s, c) == Eat(u)
  {
    var u0 := s.(top := FRESH.(state := Number), pb := [], isDouble := false, num := NUM0);
    RedoAgain(cfg, s, c, u0);
    u := u0.(pb := [c], num := NumLocals(1, false, 1));
    RedoEat(cfg, u0, c, u);
    hide Redo, Micro;
  }

  // ----- strings

  /** Reading text into the buffer, as a value or as a key. */
  predicate Reading(t: Tok, st: State) {
    st in {String, Field} && t.top.state == st && t.quote == QUOTE
  }

  predicate ReadMore(t: Tok, u: Tok, st: State, s: seq<byte>) {
    && Reading(u, st) && u.below == t.below && u.pb == t.pb + s
    && u.top.current == t.top.current && u.top.field == t.top.field
  }

  lemma PlainGo(cfg: Config, t: Tok, st: State, b: byte)
    requires Inv(cfg, t) && Reading(t, st) && b != 0 && b != QUOTE && b != BACKSLASH
    ensures var g := Go(cfg, t, [b]);
            g.Some? && ReadMore(t, g.value, st, [b])
  {
    var u := Begin(t).(pb := t.pb + [b]);
    RedoEat(cfg, Begin(t), b, u);
    GoOne(cfg, t, b, u);
  }

  lemma BackslashGo(cfg: Config, t: Tok, st: State, s: seq<byte>) returns (u: Tok)
    requires Inv(cfg, t) && Reading(t, st)
    ensures Inv(cfg, u) && Go(cfg, t, [BACKSLASH] + s) == Go(cfg, u, s)
    ensures u == Begin(t).(top := t.top.(saved := st, state := StringEscape))
  {
    u := Begin(t).(top := t.top.(saved := st, state := StringEscape));
    RedoEat(cfg, Begin(t), BACKSLASH, u);
    GoCons(cfg, t, BACKSLASH, u, s);
  }

  lemma LetterGo(cfg: Config, t: Tok, st: State, l: byte, b: byte)
    requires Inv(cfg, t) && Reading(t, st) && Unescaped(l) == Some(b)
    ensures var g := Go(cfg, t, [BACKSLASH, l]);
            g.Some? && ReadMore(t, g.value, st, [b])
  {
    hide Go, Redo;
    var u := BackslashGo(cfg, t, st, [l]);
    assert [BACKSLASH] + [l] == [BACKSLASH, l];
    var w := u.(pb := t.pb + [b], top := u.top.(state := st));
    RedoEat(cfg, Begin(u), l, w);
    GoOne(cfg, u, l, w);
  }

  /** The code point after one more hexadecimal digit. */
  function NextUcs(ucs: nat, d: nat, stPos: nat): nat
    requires stPos < 4
  {
    ucs + d * HexWeight(stPos)
  }

  lemma HexStep(cfg: Config, t: Tok, c: byte, d: nat, s: seq<byte>) returns (u: Tok)
    requires Inv(cfg, t) && t.top.state == EscapeUnicode && t.stPos < 3 && Spells(c, d)
    ensures Inv(cfg, u) && Go(cfg, t, [c] + s) == Go(cfg, u, s)
    ensures u == Begin(t).(ucs := NextUcs(t.ucs, d, t.stPos), stPos := t.stPos + 1)
  {
    SpelledIsHex(c, d);
    u := Begin(t).(ucs := NextUcs(t.ucs, d, t.stPos), stPos := t.stPos + 1);
    hide Spells;
    RedoEat(cfg, Begin(t), c, u);
    hide Go, Redo;
    GoCons(cfg, t, c, u, s);
  }

  lemma UnicodeGo(cfg: Config, t: Tok, s: seq<byte>) returns (u: Tok)
    requires Inv(cfg, t) && t.top.state == StringEscape
    ensures Inv(cfg, u) && Go(cfg, t, [117] + s) == Go(cfg, u, s)
    ensures u == Begin(t).(ucs := 0, stPos := 0, top := t.top.(state := EscapeUnicode))
  {
    u := Begin(t).(ucs := 0, stPos := 0, top := t.top.(state := EscapeUnicode));
    RedoEat(cfg, Begin(t), 117, u);
    GoCons(cfg, t, 117, u, s);
  }

  /** The bytes of a code unit on its own. */
  function UnitBytes(u: nat): seq<byte>
    requires u < 0x10000 && !High(u)
  {
    if Low(u) then REPLACEMENT else Utf8(u)
  }

  /** The state behind the last digit of the code unit u. */
  function UnitRead(t: Tok, u: nat): Tok
    requires u < 0x10000 && !High(u)
  {
    Begin(t).(ucs := u, stPos := 4, pb := t.pb + UnitBytes(u), top := t.top.(state := t.top.saved))
  }

  lemma LastDigit(t: Tok, c: byte, d: nat, u: nat)
    requires t.top.state == EscapeUnicode && t.stPos == 3 && Spells(c, d)
    requires t.ucs + d == u < 0x10000 && !High(u)
    ensures StepUnicode(Begin(t), c) == Eat(UnitRead(t, u))
  {
    SpelledIsHex(c, d);
    hide Spells, Utf8, IsHex, HexValue;
    assert HexWeight(3) == 1;
  }

  lemma UnicodeMicro(cfg: Config, t: Tok, c: byte)
    requires MidInv(cfg, t) && t.top.state == EscapeUnicode
    ensures Micro(cfg, Begin(t), c) == StepUnicode(Begin(t), c)
  {
    hide StepUnicode;
  }

  lemma HexLast(cfg: Config, t: Tok, c: byte, d: nat, u: nat)
    requires Inv(cfg, t) && t.top.state == EscapeUnicode && t.stPos == 3 && Spells(c, d)
    requires t.ucs + d == u < 0x10000 && !High(u)
    ensures Go(cfg, t, [c]) == Some(UnitRead(t, u))
  {
    LastDigit(t, c, d, u);
    UnicodeMicro(cfg, t, c);
    assert Robust(t, c) by {
      SpelledIsHex(c, d);
    }
    assert Begin(UnitRead(t, u)) == UnitRead(t, u);
    hide Spells, Micro, StepUnicode, Go, Redo, UnitRead, UnitBytes;
    RedoEat(cfg, Begin(t), c, UnitRead(t, u));
    GoOne(cfg, t, c, UnitRead(t, u));
  }

  /** The characters \u in front of four digits. */
  lemma UnicodeHead(cfg: Config, t: Tok, st: State, s: seq<byte>) returns (u: Tok)
    requires Inv(cfg, t) && Reading(t, st)
    ensures Inv(cfg, u) && Go(cfg, t, [BACKSLASH, 117] + s) == Go(cfg, u, s)
    ensures u == Begin(t).(ucs := 0, stPos := 0, top := t.top.(saved := st, state := EscapeUnicode))
  {
    hide Go, MidInv;
    assert [BACKSLASH, 117] + s == [BACKSLASH] + ([117] + s);
    var v := BackslashGo(cfg, t, st, [117] + s);
    u := UnicodeGo(cfg, v, s);
  }

  /** Any code unit that is no high surrogate comes back from its four digits. */
  lemma UnitGo(cfg: Config, t: Tok, st: State, h: seq<byte>, u: nat)
    requires Inv(cfg, t) && Reading(t, st) && SpellsCode(h, u) && !High(u)
    ensures var g := Go(cfg, t, [BACKSLASH, 117] + h);
            g.Some? && ReadMore(t, g.value, st, UnitBytes(u))
  {
    hide Go, MidInv, Spells;
    var a, b, c, d := u / 4096, u / 256 % 16, u / 16 % 16, u % 16;
    assert h == [h[0]] + ([h[1]] + ([h[2]] + [h[3]]));
    var t0 := UnicodeHead(cfg, t, st, h);
    var t1 := HexStep(cfg, t0, h[0], a, [h[1]] + ([h[2]] + [h[3]]));
    var t2 := HexStep(cfg, t1, h[1], b, [h[2]] + [h[3]]);
    var t3 := HexStep(cfg, t2, h[2], c, [h[3]]);
    UnitSum(u);
    assert t3.ucs == a * 4096 + b * 256 + c * 16;
    HexLast(cfg, t3, h[3], d, u);
  }

  lemma UnitSum(u: nat)
    ensures u == u / 4096 * 4096 + u / 256 % 16 * 256 + u / 16 % 16 * 16 + u % 16
  {
    LowDigit(u);
    LowDigit(u / 16);
    LowDigit(u / 256);
    assert u / 16 / 16 == u / 256 && u / 256 / 16 == u / 4096;
  }

  lemma LowDigit(u: nat)
    ensures u == 16 * (u / 16) + u % 16
  {
  }

  /** The four-digit escape of a character, in digits of either case, adds bytes that a reader
      of UTF-8 takes for that character. */
  lemma EscapeDecodes(cfg: Config, t: Tok, st: State, h: seq<byte>, u: nat) returns (b: seq<byte>)
    requires Inv(cfg, t) && Reading(t, st) && SpellsCode(h, u) && Scalar(u)
    ensures var g := Go(cfg, t, [BACKSLASH, 117] + h);
            g.Some? && ReadMore(t, g.value, st, b) && Decode(b) == Some(u)
  {
    hide Go, Decode, Utf8, MidInv, Spells;
    b := Utf8(u);
    UnitGo(cfg, t, st, h, u);
    Utf8Decodes(u);
  }

  /** A control character comes back from its \u00XX form. */
  lemma ControlGo(cfg: Config, t: Tok, st: State, b: byte)
    requires Inv(cfg, t) && Reading(t, st) && b < 32
    ensures var g := Go(cfg, t, [92, 117, 48, 48, HexDigit(b / 16), HexDigit(b % 16)]);
            g.Some? && ReadMore(t, g.value, st, [b])
  {
    var h := [48, 48, HexDigit(b / 16), HexDigit(b % 16)];
    ControlSpelled(b);
    hide Go, MidInv, HexDigit, SpellsCode;
    UnitGo(cfg, t, st, h, b);
    assert [BACKSLASH, 117] + h == [92, 117, 48, 48, HexDigit(b / 16), HexDigit(b % 16)];
  }

  lemma ControlSpelled(b: byte)
    requires b < 32
    ensures SpellsCode([48, 48, HexDigit(b / 16), HexDigit(b % 16)], b)
  {
    HexIsSpelled(48, b / 16);
    HexIsSpelled(48, b % 16);
  }

  lemma ByteGo(cfg: Config, t: Tok, st: State, fl: Flags, b: byte)
    requires Inv(cfg, t) && Reading(t, st)
    ensures var g := Go(cfg, t, EscapeByte(fl, b));
            g.Some? && ReadMore(t, g.value, st, [b])
  {
    if Letter(fl, b).Some? {
      LetterGo(cfg, t, st, Letter(fl, b).value, b);
    } else if b < 32 {
      ControlGo(cfg, t, st, b);
    } else {
      PlainGo(cfg, t, st, b);
    }
  }

  /** Escaping is undone byte by byte. */
  lemma {:induction false} EscapedGo(cfg: Config, t: Tok, st: State, fl: Flags, s: seq<byte>)
    requires Inv(cfg, t) && Reading(t, st)
    ensures var g := Go(cfg, t, Escape(fl, s));
            g.Some? && ReadMore(t, g.value, st, s)
    decreases |s|
  {
    if s == [] {
      assert t.pb + s == t.pb;
    } else {
      hide Go, EscapeByte, MidInv;
      var n := |s| - 1;
      var head := Escape(fl, s[..n]);
      EscapedGo(cfg, t, st, fl, s[..n]);
      GoConcat(cfg, t, head, EscapeByte(fl, s[n]));
      assert Escape(fl, s) == head + EscapeByte(fl, s[n]);
      hide Escape;
      var u := Go(cfg, t, head).value;
      ByteGo(cfg, u, st, fl, s[n]);
      assert s[..n] + [s[n]] == s;
      Append(t.pb, s[..n], [s[n]]);
    }
  }

  lemma StringGoes(cfg: Config, t: Tok, fl: Flags, s: seq<byte>)
    requires Inv(cfg, t) && t.top == FRESH
    ensures var g := Go(cfg, t, Quoted(fl, s));
            g.Some? && g.value.below == t.below && Ends(g.value, Str(s))
  {
    hide Go, Escape;
    var b := Begin(t).(top := FRESH.(state := Start));
    ToStart(cfg, t, QUOTE);
    var u := b.(top := FRESH.(state := String), pb := [], quote := QUOTE);
    RedoEat(cfg, b, QUOTE, u);
    assert Quoted(fl, s) == [QUOTE] + (Escape(fl, s) + [QUOTE]);
    GoCons(cfg, t, QUOTE, u, Escape(fl, s) + [QUOTE]);
    EscapedGo(cfg, u, String, fl, s);
    GoConcat(cfg, u, Escape(fl, s), [QUOTE]);
    var w := Go(cfg, u, Escape(fl, s)).value;
    assert [] + s == s;
    var z := w.(top := Settle(w.top, Str(s)));
    RedoEat(cfg, Begin(w), QUOTE, z);
    GoOne(cfg, w, QUOTE, z);
  }
}
