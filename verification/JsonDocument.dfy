/** Arrays and objects, by recursion over the value; then the streaming theorem. */
module JsonDocument {
  import opened Bytes
  import opened OrderedMap
  import opened JsonValue
  import opened JsonTokener
  import opened JsonSerializer
  import opened JsonStreaming
  import opened JsonRoundTrip

  /** The first character of the text of any value. */
  predicate ValueStart(c: byte) {
    IsDigit(c) || c in {34, 45, 91, 102, 110, 116, 123}
  }

  lemma TextStarts(fl: Flags, v: Value, level: nat)
    requires Storable(v)
    ensures Text(fl, v, level) != [] && ValueStart(Text(fl, v, level)[0])
  {
    match v
    case Int(i) => assert IsDigit(Digits(if i < 0 then -i else i)[0]);
    case _ =>
  }

  function Opened(t: Tok, s: State): Tok {
    Begin(t).(below := t.below + [t.top.(state := s)], top := FRESH)
  }

  /** Where a value may start: behind `[`, behind a comma, behind a colon. */
  predicate AwaitsValue(t: Tok, s: State) {
    && t.top.state == EatWs
    && ((s == ArrayAdd && t.top.saved in {Array, ArrayAfterSep}) || (s == ObjectValueAdd && t.top.saved == ObjectValue))
  }

  /** The first character of a value opens a level and is looked at again there. */
  lemma ValueOpens(cfg: Config, t: Tok, s: State, text: seq<byte>)
    requires Inv(cfg, t) && AwaitsValue(t, s) && |t.below| + 1 < cfg.maxDepth
    requires text != [] && ValueStart(text[0])
    ensures Inv(cfg, Opened(t, s)) && Go(cfg, t, text) == Go(cfg, Opened(t, s), text)
  {
    LevelOpens(cfg, t, s, text[0]);
    hide Redo, Inv, Go;
    assert Begin(Opened(t, s)) == Opened(t, s);
    GoSame(cfg, t, Opened(t, s), text);
  }

  lemma LevelOpens(cfg: Config, t: Tok, s: State, c: byte)
    requires Inv(cfg, t) && AwaitsValue(t, s) && |t.below| + 1 < cfg.maxDepth && ValueStart(c)
    ensures Inv(cfg, Opened(t, s)) && Redo(cfg, Begin(t), c) == Redo(cfg, Opened(t, s), c)
    ensures Robust(t, c) && Robust(Opened(t, s), c)
  {
    hide Lower;
    var b := Begin(t);
    var b1 := b.(top := b.top.(state := b.top.saved));
    RedoAgain(cfg, b, c, b1);
    ContainerPushes(cfg, b1, s, c);
    assert Push(b1, s) == Opened(t, s);
  }

  lemma ContainerPushes(cfg: Config, t: Tok, s: State, c: byte)
    requires MidInv(cfg, t) && |t.below| + 1 < cfg.maxDepth && ValueStart(c)
    requires (s == ArrayAdd && t.top.state in {Array, ArrayAfterSep}) || (s == ObjectValueAdd && t.top.state == ObjectValue)
    ensures Inv(cfg, Push(t, s)) && Redo(cfg, t, c) == Redo(cfg, Push(t, s), c)
  {
    RedoAgain(cfg, t, c, Push(t, s));
  }

  /** The state after the text of a value read at the level opened over l. */
  ghost predicate ValueRead(t: Tok, below: seq<Level>, l: Level, v: Value) {
    t.below == below + [l] && Ends(t, v)
  }

  /** The elements read so far: the last one at the level above the array. */
  ghost predicate ItemsRead(t: Tok, below: seq<Level>, items: seq<Value>) {
    var n := |items| - 1;
    && n >= 0 && |t.below| == |below| + 1 && t.below[..|below|] == below
    && t.below[|below|].state == ArrayAdd && t.below[|below|].current == Arr(items[..n])
    && t.below[|below|].field == None
    && Ends(t, items[n])
  }

  ghost predicate FieldsRead(t: Tok, below: seq<Level>, fields: seq<Pair<Key, Value>>) {
    var n := |fields| - 1;
    && n >= 0
    && t.below == below + [Level(ObjectValueAdd, ObjectValue, Obj(fields[..n]), Some(fields[n].key))]
    && Ends(t, fields[n].value)
  }

  lemma ItemParts(items: seq<Value>, d: nat)
    requires Storable(Arr(items)) && Nested(Arr(items), d) && items != []
    ensures d > 0 && forall i :: 0 <= i < |items| ==> Storable(items[i]) && Nested(items[i], d - 1)
    ensures Storable(Arr(items[..|items| - 1])) && Nested(Arr(items[..|items| - 1]), d)
  {
    assert forall i :: 0 <= i < |items| ==> items[i] in items;
    assert forall x :: x in items[..|items| - 1] ==> x in items;
  }

  lemma FieldParts(fields: seq<Pair<Key, Value>>, d: nat)
    requires Storable(Obj(fields)) && Nested(Obj(fields), d) && fields != []
    ensures d > 0 && forall i :: 0 <= i < |fields| ==>
              0 !in fields[i].key && Storable(fields[i].value) && Nested(fields[i].value, d - 1)
    ensures Storable(Obj(fields[..|fields| - 1])) && Nested(Obj(fields[..|fields| - 1]), d)
  {
    assert forall i :: 0 <= i < |fields| ==> fields[i] in fields;
    assert forall f :: f in fields[..|fields| - 1] ==> f in fields;
  }

  lemma FirstItemText(fl: Flags, items: seq<Value>, level: nat)
    requires |items| == 1
    ensures ItemsText(fl, items, level) == Before(fl, level) + Text(fl, items[0], level)
  {
    hide Before, Text;
    assert items[..0] == [];
    NoText(fl, level);
  }

  lemma NextItemText(fl: Flags, items: seq<Value>, level: nat)
    requires |items| > 1
    ensures var n := |items| - 1;
            ItemsText(fl, items, level)
            == ItemsText(fl, items[..n], level) + ([COMMA] + (Open(fl) + Before(fl, level) + Text(fl, items[n], level)))
  {
    hide Before, Text, Open;
    var n := |items| - 1;
    Regroup(ItemsText(fl, items[..n], level), [COMMA], Open(fl), Before(fl, level), Text(fl, items[n], level));
  }

  lemma FirstFieldText(fl: Flags, fields: seq<Pair<Key, Value>>, level: nat)
    requires |fields| == 1
    ensures FieldsText(fl, fields, level) == Before(fl, level) + FieldText(fl, fields[0], level)
  {
    hide Before, Text, FieldText;
    assert fields[..0] == [];
    NoText(fl, level);
  }

  lemma NextFieldText(fl: Flags, fields: seq<Pair<Key, Value>>, level: nat)
    requires |fields| > 1
    ensures var n := |fields| - 1;
            FieldsText(fl, fields, level)
            == FieldsText(fl, fields[..n], level) + ([COMMA] + (Open(fl) + Before(fl, level) + FieldText(fl, fields[n], level)))
  {
    hide Before, Text, FieldText, Open;
    var n := |fields| - 1;
    Regroup(FieldsText(fl, fields[..n], level), [COMMA], Open(fl), Before(fl, level), FieldText(fl, fields[n], level));
  }

  // ----- the recursion

  ghost predicate Good(cfg: Config, t: Tok, v: Value) {
    Inv(cfg, t) && Storable(v) && Nested(v, cfg.maxDepth - 1 - |t.below|)
  }

  ghost predicate Goes(cfg: Config, t: Tok, text: seq<byte>, v: Value)
    requires Inv(cfg, t)
  {
    var g := Go(cfg, t, text);
    g.Some? && g.value.below == t.below && Ends(g.value, v)
  }

  /** The text of a value, read at a fresh level, leaves that value. */
  lemma {:induction false} ValueGoes(cfg: Config, t: Tok, fl: Flags, v: Value, level: nat)
    requires Inv(cfg, t) && Good(cfg, t, v) && t.top == FRESH
    ensures Goes(cfg, t, Text(fl, v, level), v)
    decreases v, 0
  {
    match v
    case Null => ScalarWordGoes(cfg, t, NULL_WORD, Null);
    case Bool(b) => ScalarWordGoes(cfg, t, BoolText(b), v);
    case Int(i) => IntGoes(cfg, t, i);
    case Str(s) => StringGoes(cfg, t, fl, s);
    case Arr(items) => ArrayGoes(cfg, t, fl, items, level);
    case Obj(fields) => ObjectGoes(cfg, t, fl, fields, level);
  }

  /** A separator and white space, then a value at a new level. */
  lemma {:induction false} ValueAfterSpace(
    cfg: Config, t: Tok, s: State, fl: Flags, space: seq<byte>, v: Value, level: nat)
    requires Inv(cfg, t) && AwaitsValue(t, s) && |t.below| + 1 < cfg.maxDepth && AllSpace(space)
    requires Storable(v) && Nested(v, cfg.maxDepth - 2 - |t.below|)
    ensures var g := Go(cfg, t, space + Text(fl, v, level));
            g.Some? && ValueRead(g.value, t.below, t.top.(state := s), v)
    decreases v, 1
  {
    hide Go, MidInv, Text, Ends, Storable, Nested;
    SpacesGo(cfg, t, space);
    TextStarts(fl, v, level);
    ValueOpens(cfg, Begin(t), s, Text(fl, v, level));
    GoConcat(cfg, t, space, Text(fl, v, level));
    ValueGoes(cfg, Opened(t, s), fl, v, level);
  }

  lemma {:induction false} ItemsGo(cfg: Config, t: Tok, fl: Flags, items: seq<Value>, level: nat)
    requires Inv(cfg, t) && items != [] && t.top == Level(EatWs, Array, Arr([]), None)
    requires Storable(Arr(items)) && Nested(Arr(items), cfg.maxDepth - 1 - |t.below|)
    ensures var g := Go(cfg, t, ItemsText(fl, items, level));
            g.Some? && ItemsRead(g.value, t.below, items)
    decreases items, 2
  {
    hide Go, Text, Before, ItemsText, MidInv, Ends;
    var n := |items| - 1;
    ItemParts(items, cfg.maxDepth - 1 - |t.below|);
    hide Storable, Nested;
    FormattingIsSpace(fl, level, true);
    if n == 0 {
      FirstItemText(fl, items, level);
      ValueAfterSpace(cfg, t, ArrayAdd, fl, Before(fl, level), items[0], level);
    } else {
      ItemsGo(cfg, t, fl, items[..n], level);
      NextItem(cfg, t, Go(cfg, t, ItemsText(fl, items[..n], level)).value, fl, items, level);
    }
  }

  /** One more element behind the ones read. */
  lemma {:induction false} NextItem(cfg: Config, t: Tok, u: Tok, fl: Flags, items: seq<Value>, level: nat)
    requires Inv(cfg, t) && |items| > 1
    requires Storable(Arr(items)) && Nested(Arr(items), cfg.maxDepth - 1 - |t.below|)
    requires Go(cfg, t, ItemsText(fl, items[..|items| - 1], level)) == Some(u)
    requires ItemsRead(u, t.below, items[..|items| - 1])
    ensures var g := Go(cfg, t, ItemsText(fl, items, level));
            g.Some? && ItemsRead(g.value, t.below, items)
    decreases items, 1
  {
    hide Go, Text, Before, Open, ItemsText, MidInv, Ends;
    var n := |items| - 1;
    ItemParts(items, cfg.maxDepth - 1 - |t.below|);
    hide Storable, Nested;
    FormattingIsSpace(fl, level, true);
    var head, space, last := ItemsText(fl, items[..n], level), Open(fl) + Before(fl, level), Text(fl, items[n], level);
    NextItemText(fl, items, level);
    ItemEnds(cfg, u, items[n - 1], COMMA);
    assert items[..n][..n - 1] + [items[n - 1]] == items[..n];
    var w := Go(cfg, u, [COMMA]).value;
    ValueAfterSpace(cfg, w, ArrayAdd, fl, space, items[n], level);
    GoConcat(cfg, t, head, [COMMA] + (space + last));
    GoConcat(cfg, u, [COMMA], space + last);
  }

  /** An opening bracket at a fresh level. */
  lemma BracketGo(cfg: Config, t: Tok, c: byte, s: seq<byte>, rest: seq<byte>) returns (u: Tok)
    requires Inv(cfg, t) && t.top == FRESH && c in {LBRACKET, LBRACE} && AllSpace(s)
    ensures Inv(cfg, u) && u.below == t.below
    ensures u.top == if c == LBRACKET then Level(EatWs, Array, Arr([]), None) else Level(EatWs, FieldStart, Obj([]), None)
    ensures Go(cfg, t, [c] + s + rest) == Go(cfg, u, rest)
  {
    var b := Begin(t).(top := FRESH.(state := Start));
    ToStart(cfg, t, c);
    u := b.(top := if c == LBRACKET then Level(EatWs, Array, Arr([]), None) else Level(EatWs, FieldStart, Obj([]), None));
    RedoEat(cfg, b, c, u);
    SpacesGo(cfg, u, s);
    Append([c], s, rest);
    GoCons(cfg, t, c, u, s + rest);
    GoConcat(cfg, u, s, rest);
    GoBegin(cfg, u, rest);
  }

  /** An empty container closes at once. */
  lemma EmptyGo(cfg: Config, u: Tok, c: byte, s: seq<byte>)
    requires Inv(cfg, u) && AllSpace(s)
    requires (c == RBRACKET && u.top == Level(EatWs, Array, Arr([]), None))
             || (c == RBRACE && u.top == Level(EatWs, FieldStart, Obj([]), None))
    ensures var g := Go(cfg, u, s + [c]);
            g.Some? && g.value.below == u.below
            && Ends(g.value, if c == RBRACKET then Arr([]) else Obj([]))
  {
    hide Go, Ends, MidInv;
    SpacesGo(cfg, u, s);
    GoConcat(cfg, u, s, [c]);
    EmptyCloses(cfg, Begin(u), c);
  }

  lemma EmptyCloses(cfg: Config, b: Tok, c: byte)
    requires Inv(cfg, b) && Begin(b) == b
    requires (c == RBRACKET && b.top == Level(EatWs, Array, Arr([]), None))
             || (c == RBRACE && b.top == Level(EatWs, FieldStart, Obj([]), None))
    ensures var g := Go(cfg, b, [c]);
            g.Some? && g.value.below == b.below
            && Ends(g.value, if c == RBRACKET then Arr([]) else Obj([]))
  {
    var w := EmptyRedo(cfg, b, c);
    hide Redo, MidInv;
    GoOne(cfg, b, c, w);
  }

  lemma EmptyRedo(cfg: Config, b: Tok, c: byte) returns (w: Tok)
    requires Inv(cfg, b)
    requires (c == RBRACKET && b.top == Level(EatWs, Array, Arr([]), None))
             || (c == RBRACE && b.top == Level(EatWs, FieldStart, Obj([]), None))
    ensures Redo(cfg, b, c) == Eat(w) && w == b.(top := Wait(b.top, Finish))
  {
    hide MidInv;
    var b1 := b.(top := b.top.(state := b.top.saved));
    RedoAgain(cfg, b, c, b1);
    w := b1.(top := Wait(b1.top, Finish));
    RedoEat(cfg, b1, c, w);
  }

  lemma {:induction false} ArrayGoes(cfg: Config, t: Tok, fl: Flags, items: seq<Value>, level: nat)
    requires Inv(cfg, t) && Good(cfg, t, Arr(items)) && t.top == FRESH
    ensures Goes(cfg, t, Text(fl, Arr(items), level), Arr(items))
    decreases items, 4
  {
    hide Text, ItemsText, MidInv, Open, Closing, Go, Ends, Storable, Nested, AllSpace;
    var open, body, close := Open(fl), ItemsText(fl, items, level + 1), Closing(fl, level, items != []);
    ArrayText(fl, items, level);
    FormattingIsSpace(fl, level, items != []);
    var u := BracketGo(cfg, t, LBRACKET, open, body + (close + [RBRACKET]));
    ArrayBodyGoes(cfg, u, fl, items, level);
  }

  lemma {:induction false} ArrayBodyGoes(cfg: Config, u: Tok, fl: Flags, items: seq<Value>, level: nat)
    requires Inv(cfg, u) && Good(cfg, u, Arr(items)) && u.top == Level(EatWs, Array, Arr([]), None)
    ensures Goes(cfg, u, ItemsText(fl, items, level + 1) + (Closing(fl, level, items != []) + [RBRACKET]), Arr(items))
    decreases items, 3
  {
    hide ItemsText, Closing, MidInv, Go, Ends;
    var body, close := ItemsText(fl, items, level + 1), Closing(fl, level, items != []);
    FormattingIsSpace(fl, level, items != []);
    if items == [] {
      NoText(fl, level + 1);
      EmptyGo(cfg, u, RBRACKET, close);
      assert body + (close + [RBRACKET]) == close + [RBRACKET];
    } else {
      ItemsGo(cfg, u, fl, items, level + 1);
      ItemParts(items, cfg.maxDepth - 1 - |u.below|);
      hide Storable, Nested;
      ArrayCloses(cfg, u, body, close, items);
    }
  }

  lemma ArrayText(fl: Flags, items: seq<Value>, level: nat)
    ensures Text(fl, Arr(items), level)
            == [LBRACKET] + Open(fl)
               + (ItemsText(fl, items, level + 1) + (Closing(fl, level, items != []) + [RBRACKET]))
  {
    hide ItemsText, Open, Closing;
  }

  lemma ObjectText(fl: Flags, fields: seq<Pair<Key, Value>>, level: nat)
    ensures Text(fl, Obj(fields), level)
            == [LBRACE] + Open(fl)
               + (FieldsText(fl, fields, level + 1) + (Closing(fl, level, fields != []) + [RBRACE]))
  {
    hide FieldsText, Open, Closing;
  }

  lemma ArrayCloses(cfg: Config, u: Tok, body: seq<byte>, close: seq<byte>, items: seq<Value>)
    requires Inv(cfg, u) && items != [] && Storable(items[|items| - 1]) && AllSpace(close)
    requires var g := Go(cfg, u, body);
             g.Some? && ItemsRead(g.value, u.below, items)
    ensures Goes(cfg, u, body + (close + [RBRACKET]), Arr(items))
  {
    hide Go, MidInv, Storable;
    var n := |items| - 1;
    var w := Go(cfg, u, body).value;
    SpacesAfterValue(cfg, w, items[n], close);
    var x := Go(cfg, w, close).value;
    ItemEnds(cfg, x, items[n], RBRACKET);
    assert items[..n] + [items[n]] == items;
    GoConcat(cfg, u, body, close + [RBRACKET]);
    GoConcat(cfg, w, close, [RBRACKET]);
  }

  // ----- objects

  lemma {:induction false} CStringWhole(s: seq<byte>)
    requires 0 !in s
    ensures CString(s) == s
  {
    if s != [] {
      assert s[0] in s;
      CStringWhole(s[1..]);
    }
  }

  /** A quotation mark where a key may start. */
  lemma KeyOpens(cfg: Config, t: Tok, text: seq<byte>) returns (u: Tok)
    requires Inv(cfg, t) && t.top.state == EatWs && t.top.saved in {FieldStart, FieldStartAfterSep}
    ensures Inv(cfg, u) && Reading(u, Field) && u.below == t.below && u.pb == [] && u.top.current == t.top.current
    ensures Go(cfg, t, [QUOTE] + text) == Go(cfg, u, text)
  {
    var b := Begin(t);
    var b1 := b.(top := b.top.(state := b.top.saved));
    RedoAgain(cfg, b, QUOTE, b1);
    u := b1.(top := b1.top.(state := Field), pb := [], quote := QUOTE);
    RedoEat(cfg, b1, QUOTE, u);
    GoCons(cfg, t, QUOTE, u, text);
  }

  /** A key and its colon. */
  lemma KeyGo(cfg: Config, t: Tok, fl: Flags, key: Key, space: seq<byte>)
    requires Inv(cfg, t) && t.top.state == EatWs && t.top.saved in {FieldStart, FieldStartAfterSep}
    requires 0 !in key && AllSpace(space)
    ensures var g := Go(cfg, t, space + (Quoted(fl, key) + [COLON]));
            && g.Some? && g.value.below == t.below
            && g.value.top == Level(EatWs, ObjectValue, t.top.current, Some(key))
  {
    SpacesGo(cfg, t, space);
    hide Escape, Go, MidInv;
    var tail := Escape(fl, key) + ([QUOTE] + [COLON]);
    assert Quoted(fl, key) + [COLON] == [QUOTE] + tail;
    GoConcat(cfg, t, space, [QUOTE] + tail);
    var u := KeyOpens(cfg, Begin(t), tail);
    EscapedGo(cfg, u, Field, fl, key);
    GoConcat(cfg, u, Escape(fl, key), [QUOTE] + [COLON]);
    KeyCloses(cfg, u, Go(cfg, u, Escape(fl, key)).value, key);
  }

  lemma KeyCloses(cfg: Config, u: Tok, w: Tok, key: Key)
    requires Inv(cfg, w) && u.pb == [] && ReadMore(u, w, Field, key) && 0 !in key
    ensures var g := Go(cfg, w, [QUOTE] + [COLON]);
            && g.Some? && g.value.below == u.below
            && g.value.top == Level(EatWs, ObjectValue, u.top.current, Some(key))
  {
    CStringWhole(key);
    assert w.pb == key;
    hide CString;
    var x := Begin(w).(top := Level(EatWs, FieldEnd, w.top.current, Some(key)));
    RedoEat(cfg, Begin(w), QUOTE, x);
    hide Go, Redo, Micro;
    GoCons(cfg, w, QUOTE, x, [COLON]);
    ColonGo(cfg, x);
  }

  lemma ColonGo(cfg: Config, x: Tok)
    requires Inv(cfg, x) && Begin(x) == x && x.top.state == EatWs && x.top.saved == FieldEnd
    ensures Go(cfg, x, [COLON]) == Some(x.(top := x.top.(saved := ObjectValue)))
  {
    var y := x.(top := x.top.(state := FieldEnd));
    RedoAgain(cfg, x, COLON, y);
    var z := y.(top := Wait(y.top, ObjectValue));
    RedoEat(cfg, y, COLON, z);
    hide Go, Redo, Micro;
    GoOne(cfg, x, COLON, z);
  }

  /** A whole field: white space, key, colon, value at a new level. */
  lemma {:induction false} FieldGoes(
    cfg: Config, t: Tok, fl: Flags, space: seq<byte>, f: Pair<Key, Value>, level: nat)
    requires Inv(cfg, t) && t.top.state == EatWs && t.top.saved in {FieldStart, FieldStartAfterSep}
    requires |t.below| + 1 < cfg.maxDepth && AllSpace(space)
    requires 0 !in f.key && Storable(f.value) && Nested(f.value, cfg.maxDepth - 2 - |t.below|)
    ensures var g := Go(cfg, t, space + FieldText(fl, f, level));
            g.Some? && ValueRead(g.value, t.below, Level(ObjectValueAdd, ObjectValue, t.top.current, Some(f.key)), f.value)
    decreases f, 2
  {
    FormattingIsSpace(fl, level, true);
    var gap, tail := When(fl.spaced, [SPACE]), Text(fl, f.value, level);
    var head := space + (Quoted(fl, f.key) + [COLON]);
    assert space + FieldText(fl, f, level) == head + (gap + tail) by {
      hide Text, Quoted;
    }
    hide Go, Text, MidInv, Quoted, FieldText, Ends;
    KeyGo(cfg, t, fl, f.key, space);
    var u := Go(cfg, t, head).value;
    ValueAfterSpace(cfg, u, ObjectValueAdd, fl, gap, f.value, level);
    GoConcat(cfg, t, head, gap + tail);
  }

  lemma {:induction false} FieldsGo(cfg: Config, t: Tok, fl: Flags, fields: seq<Pair<Key, Value>>, level: nat)
    requires Inv(cfg, t) && fields != [] && t.top == Level(EatWs, FieldStart, Obj([]), None)
    requires Storable(Obj(fields)) && Nested(Obj(fields), cfg.maxDepth - 1 - |t.below|)
    ensures var g := Go(cfg, t, FieldsText(fl, fields, level));
            g.Some? && FieldsRead(g.value, t.below, fields)
    decreases fields, 2
  {
    hide Go, Text, FieldText, Before, FieldsText, MidInv, Ends;
    var n := |fields| - 1;
    FieldParts(fields, cfg.maxDepth - 1 - |t.below|);
    hide Storable, Nested;
    FormattingIsSpace(fl, level, true);
    if n == 0 {
      FirstFieldText(fl, fields, level);
      FieldGoes(cfg, t, fl, Before(fl, level), fields[0], level);
    } else {
      FieldsGo(cfg, t, fl, fields[..n], level);
      NextField(cfg, t, Go(cfg, t, FieldsText(fl, fields[..n], level)).value, fl, fields, level);
    }
  }

  lemma {:induction false} NextField(
    cfg: Config, t: Tok, u: Tok, fl: Flags, fields: seq<Pair<Key, Value>>, level: nat)
    requires Inv(cfg, t) && |fields| > 1
    requires Storable(Obj(fields)) && Nested(Obj(fields), cfg.maxDepth - 1 - |t.below|)
    requires Go(cfg, t, FieldsText(fl, fields[..|fields| - 1], level)) == Some(u)
    requires FieldsRead(u, t.below, fields[..|fields| - 1])
    ensures var g := Go(cfg, t, FieldsText(fl, fields, level));
            g.Some? && FieldsRead(g.value, t.below, fields)
    decreases fields, 1
  {
    FieldsSoFar(cfg, t, u, fields);
    hide Go, Text, Before, Open, FieldText, FieldsText, MidInv, Ends, Add, Storable, Nested, UniqueKeys, FieldsRead;
    var n := |fields| - 1;
    FormattingIsSpace(fl, level, true);
    var head, space, last := FieldsText(fl, fields[..n], level), Open(fl) + Before(fl, level), FieldText(fl, fields[n], level);
    NextFieldText(fl, fields, level);
    var w := Go(cfg, u, [COMMA]).value;
    FieldGoes(cfg, w, fl, space, fields[n], level);
    GoConcat(cfg, t, head, [COMMA] + (space + last));
    GoConcat(cfg, u, [COMMA], space + last);
    FieldReadLast(Go(cfg, w, space + last).value, t.below, fields);
  }

  lemma FieldReadLast(t: Tok, below: seq<Level>, fields: seq<Pair<Key, Value>>)
    requires fields != []
    requires var n := |fields| - 1;
             ValueRead(t, below, Level(ObjectValueAdd, ObjectValue, Obj(fields[..n]), Some(fields[n].key)), fields[n].value)
    ensures FieldsRead(t, below, fields)
  {
  }

  /** The comma adds the last field read, and the next one fits. */
  lemma FieldsSoFar(cfg: Config, t: Tok, u: Tok, fields: seq<Pair<Key, Value>>)
    requires Inv(cfg, t) && Inv(cfg, u) && |fields| > 1
    requires Storable(Obj(fields)) && Nested(Obj(fields), cfg.maxDepth - 1 - |t.below|)
    requires FieldsRead(u, t.below, fields[..|fields| - 1])
    ensures var n, g := |fields| - 1, Go(cfg, u, [COMMA]);
            && g.Some? && g.value.below == t.below
            && g.value.top == Level(EatWs, FieldStartAfterSep, Obj(fields[..n]), None)
            && |t.below| + 1 < cfg.maxDepth && 0 !in fields[n].key && Storable(fields[n].value)
            && Nested(fields[n].value, cfg.maxDepth - 2 - |t.below|)
  {
    assert |t.below| < cfg.maxDepth;
    hide Go, MidInv, Ends, Add, Storable, Nested, UniqueKeys;
    var n := |fields| - 1;
    KeysOfObject(fields);
    AddNew(fields, n - 1);
    FieldParts(fields, cfg.maxDepth - 1 - |t.below|);
    assert fields[..n][..n - 1] == fields[..n - 1];
    FieldsEnd(cfg, u, t.below, fields[..n], COMMA);
  }

  lemma KeysOfObject(fields: seq<Pair<Key, Value>>)
    requires Storable(Obj(fields))
    ensures UniqueKeys(fields)
  {
  }

  /** A key not seen before is appended. */
  lemma AddNew(fields: seq<Pair<Key, Value>>, n: nat)
    requires UniqueKeys(fields) && n < |fields|
    ensures Add(fields[..n], fields[n].key, fields[n].value) == fields[..n + 1]
  {
    var m := fields[..n];
    assert forall j :: 0 <= j < |m| ==> m[j].key == fields[j].key != fields[n].key;
  }

  lemma {:induction false} ObjectGoes(cfg: Config, t: Tok, fl: Flags, fields: seq<Pair<Key, Value>>, level: nat)
    requires Inv(cfg, t) && Good(cfg, t, Obj(fields)) && t.top == FRESH
    ensures Goes(cfg, t, Text(fl, Obj(fields), level), Obj(fields))
    decreases fields, 4
  {
    hide Text, FieldsText, MidInv, Open, Closing, Go, Ends, Storable, Nested, AllSpace;
    var open, body, close := Open(fl), FieldsText(fl, fields, level + 1), Closing(fl, level, fields != []);
    ObjectText(fl, fields, level);
    FormattingIsSpace(fl, level, fields != []);
    var u := BracketGo(cfg, t, LBRACE, open, body + (close + [RBRACE]));
    ObjectBodyGoes(cfg, u, fl, fields, level);
  }

  lemma {:induction false} ObjectBodyGoes(
    cfg: Config, u: Tok, fl: Flags, fields: seq<Pair<Key, Value>>, level: nat)
    requires Inv(cfg, u) && Good(cfg, u, Obj(fields)) && u.top == Level(EatWs, FieldStart, Obj([]), None)
    ensures Goes(cfg, u, FieldsText(fl, fields, level + 1) + (Closing(fl, level, fields != []) + [RBRACE]), Obj(fields))
    decreases fields, 3
  {
    hide FieldsText, Closing, MidInv, Go, Ends, Add;
    var body, close := FieldsText(fl, fields, level + 1), Closing(fl, level, fields != []);
    FormattingIsSpace(fl, level, fields != []);
    if fields == [] {
      NoText(fl, level + 1);
      EmptyGo(cfg, u, RBRACE, close);
      assert body + (close + [RBRACE]) == close + [RBRACE];
    } else {
      FieldsGo(cfg, u, fl, fields, level + 1);
      FieldParts(fields, cfg.maxDepth - 1 - |u.below|);
      AddNew(fields, |fields| - 1);
      hide Storable, Nested, UniqueKeys;
      ObjectCloses(cfg, u, body, close, fields);
    }
  }

  /** The delimiter behind the last field read adds it to the object. */
  lemma FieldsEnd(cfg: Config, u: Tok, below: seq<Level>, fields: seq<Pair<Key, Value>>, c: byte)
    requires Inv(cfg, u) && FieldsRead(u, below, fields) && c in {COMMA, RBRACE}
    requires var n := |fields| - 1;
             Storable(fields[n].value) && Add(fields[..n], fields[n].key, fields[n].value) == fields
    ensures var g := Go(cfg, u, [c]);
            && g.Some? && g.value.below == below
            && g.value.top == Level(EatWs, if c == COMMA then FieldStartAfterSep else Finish, Obj(fields), None)
  {
    hide Go, MidInv, Storable, Add, Ends;
    FieldEnds(cfg, u, fields[|fields| - 1].value, c);
    assert u.below[..|u.below| - 1] == below;
  }

  lemma ObjectCloses(cfg: Config, u: Tok, body: seq<byte>, close: seq<byte>, fields: seq<Pair<Key, Value>>)
    requires Inv(cfg, u) && fields != [] && Storable(fields[|fields| - 1].value) && AllSpace(close)
    requires var g := Go(cfg, u, body);
             g.Some? && FieldsRead(g.value, u.below, fields)
    requires var n := |fields| - 1;
             Add(fields[..n], fields[n].key, fields[n].value) == fields[..n + 1]
    ensures Goes(cfg, u, body + (close + [RBRACE]), Obj(fields))
  {
    hide Go, MidInv, Storable, Add;
    var n := |fields| - 1;
    var w := Go(cfg, u, body).value;
    SpacesAfterValue(cfg, w, fields[n].value, close);
    var x := Go(cfg, w, close).value;
    assert fields[..n + 1] == fields;
    FieldsEnd(cfg, x, u.below, fields, RBRACE);
    GoConcat(cfg, u, body, close + [RBRACE]);
    GoConcat(cfg, w, close, [RBRACE]);
  }

  // ----- the theorem

  /** Any array or object that fits the depth limit, written under any flags and fed in any
      chunks to a tokener at rest: every call but the last asks for more, the last one
      returns the value and leaves the tokener at rest again. */
  lemma StreamingRoundTrip(cfg: Config, t: Tok, fl: Flags, v: Value, chunks: seq<seq<byte>>)
    requires Inv(cfg, t) && t.below == [] && t.top == FRESH
    requires (v.Arr? || v.Obj?) && Storable(v) && cfg.maxDepth > 0 && Nested(v, cfg.maxDepth - 1)
    requires chunks != [] && chunks[|chunks| - 1] != [] && Flatten(chunks) == Text(fl, v, 0)
    ensures var rs := Calls(cfg, t, chunks);
            && |rs| == |chunks|
            && (forall i :: 0 <= i < |rs| - 1 ==> rs[i].err == Continue && rs[i].ret == None)
            && Delivered(rs[|rs| - 1], v)
  {
    TextReads(cfg, t, fl, v);
    hide Reads, Text, Inv;
    ReadsInChunks(cfg, t, chunks, v);
  }

  /** The text of a container is read as a whole document. */
  lemma TextReads(cfg: Config, t: Tok, fl: Flags, v: Value)
    requires Inv(cfg, t) && t.below == [] && t.top == FRESH
    requires (v.Arr? || v.Obj?) && Storable(v) && cfg.maxDepth > 0 && Nested(v, cfg.maxDepth - 1)
    ensures Reads(cfg, t, Text(fl, v, 0), v) && Text(fl, v, 0) != []
  {
    ValueGoes(cfg, t, fl, v, 0);
    TextStarts(fl, v, 0);
    ContainerSettles(cfg, t, fl, v);
    hide Go, Text, MidInv;
  }

  /** A container ends with its bracket, not with the character behind it. */
  lemma ContainerSettles(cfg: Config, t: Tok, fl: Flags, v: Value)
    requires Inv(cfg, t) && (v.Arr? || v.Obj?) && t.below == [] && Goes(cfg, t, Text(fl, v, 0), v)
    ensures Done(Go(cfg, t, Text(fl, v, 0)).value) && Go(cfg, t, Text(fl, v, 0)).value.top.current == v
  {
    hide Go, Text;
  }
}
