/** Parsing what was printed, formatted or not, gives the tree back. */
module CJsonRoundTrip {
  import opened Bytes
  import opened CJsonParse
  import opened CJsonText

  /** What follows does not continue a number. */
  predicate Stops(rest: seq<byte>) {
    var c := At(rest, 0);
    !IsDigit(c) && c != 46 && c != 101 && c != 69
  }

  // ----- numbers

  lemma {:induction false} RunOf(d: seq<byte>, rest: seq<byte>)
    requires (forall i :: 0 <= i < |d| ==> IsDigit(d[i])) && !IsDigit(At(rest, 0))
    ensures Run(d + rest) == |d|
  {
    if d == [] {
      assert d + rest == rest;
    } else {
      assert (d + rest)[1..] == d[1..] + rest;
      RunOf(d[1..], rest);
    }
  }

  lemma DigitsRead(n: nat, rest: seq<byte>)
    requires Stops(rest)
    ensures IsDigit(At(Digits(n) + rest, 0)) && Magnitude(Digits(n) + rest) == (n, rest)
  {
    var d := Digits(n);
    var t := d + rest;
    assert t[0] == d[0] && IsDigit(t[0]);
    NatOfDigits(n);
    if n == 0 {
      assert d == [48] && t[1..] == rest && rest[0..] == rest;
    } else {
      hide Digits, NatOf;
      RunOf(d, rest);
      assert t[..|d|] == d && t[|d|..] == rest;
    }
  }

  // ----- strings

  /** An escaped byte is read back in one step. */
  lemma ByteReads(c: byte, rest: seq<byte>)
    requires c != 0
    ensures StepOf(EscapeByte(c) + rest) == Step([c], |EscapeByte(c)|)
  {
    HexOfByte(c);
    var e := EscapeByte(c);
    var s := e + rest;
    assert s[0] == e[0] && (|e| > 1 ==> s[1] == e[1]);
    if |e| == 6 {
      assert s[2] == 48 && s[3] == 48 && s[4] == e[4] && s[5] == e[5];
      assert Hex4(s, 2) == c;
    }
  }

  lemma {:induction false} CharsRead(x: seq<byte>, out: seq<byte>, rest: seq<byte>)
    requires 0 !in x
    ensures ParseChars(Escape(x) + ([QUOTE] + rest), out) == Ok(out + x, rest)
    decreases x
  {
    var tail := [QUOTE] + rest;
    var s := Escape(x) + tail;
    if x == [] {
      assert s == tail && out + x == out && s[1..] == rest;
    } else {
      var e := EscapeByte(x[0]);
      Append(e, Escape(x[1..]), tail);
      ByteReads(x[0], Escape(x[1..]) + tail);
      hide StepOf;
      assert s[|e|..] == Escape(x[1..]) + tail;
      CharsRead(x[1..], out + [x[0]], rest);
      Append(out, [x[0]], x[1..]);
      assert [x[0]] + x[1..] == x;
    }
  }

  lemma StringReads(x: seq<byte>, rest: seq<byte>)
    requires 0 !in x
    ensures At(Quoted(x) + rest, 0) == QUOTE && ParseString(Quoted(x) + rest) == Ok(x, rest)
  {
    var s := Quoted(x) + rest;
    Append([QUOTE], Escape(x), [QUOTE]);
    Append([QUOTE], Escape(x) + [QUOTE], rest);
    Append(Escape(x), [QUOTE], rest);
    assert s[1..] == Escape(x) + ([QUOTE] + rest);
    CharsRead(x, [], rest);
    assert [] + x == x;
  }

  /** Escaped bytes up to the end of the text. */
  lemma {:induction false} CharsReadToEnd(x: seq<byte>, out: seq<byte>)
    requires 0 !in x
    ensures ParseChars(Escape(x), out) == Ok(out + x, [])
    decreases x
  {
    if x == [] {
      assert out + x == out;
    } else {
      var e := EscapeByte(x[0]);
      ByteReads(x[0], Escape(x[1..]));
      hide StepOf;
      assert Escape(x)[|e|..] == Escape(x[1..]);
      CharsReadToEnd(x[1..], out + [x[0]]);
      Append(out, [x[0]], x[1..]);
      assert [x[0]] + x[1..] == x;
    }
  }

  /** A missing closing quote is accepted: the printed form of any C string is read as the
      string without it, too. */
  lemma OpenStringReads(x: seq<byte>)
    requires 0 !in x
    ensures Parse([QUOTE] + Escape(x), true) == Ok(String(x), [])
  {
    var s := [QUOTE] + Escape(x);
    assert s[0] == QUOTE && s[1..] == Escape(x);
    CharsReadToEnd(x, []);
    NothingToSkip();
    assert [] + x == x;
    SkipNone(s);
    NoWord(s);
    hide Escape, ParseChars, Starts, Skip;
  }

  /** A sign without digits is read as 0. */
  lemma LoneMinusReads(s: seq<byte>)
    requires |s| == 1 && s[0] == 45
    ensures Parse(s, true) == Ok(Number(0), [])
  {
    LoneMinusIsZero(s);
    NothingToSkip();
    SkipNone(s);
    NoWord(s);
    hide Starts, ParseNumber, Skip;
  }

  lemma LoneMinusIsZero(s: seq<byte>)
    requires |s| == 1 && s[0] == 45
    ensures ParseNumber(s) == Ok(Number(0), [])
  {
    assert s[1..] == [] && Magnitude(s[1..]) == (0, []);
  }

  lemma NothingToSkip()
    ensures Skip([]) == []
  {
  }

  // ----- what follows the value

  /** Nothing but blanks up to the end or a zero byte. */
  ghost predicate NothingElse(s: seq<byte>) {
    exists k :: EndsAt(s, k)
  }

  predicate EndsAt(s: seq<byte>, k: int) {
    0 <= k <= |s| && (forall i :: 0 <= i < k ==> 0 < s[i] <= 32) && (k == |s| || s[k] == 0)
  }

  lemma {:induction false} SkipEnds(s: seq<byte>)
    ensures At(Skip(s), 0) == 0 <==> NothingElse(s)
  {
    if s != [] && 0 < s[0] <= 32 {
      SkipEnds(s[1..]);
      forall k ensures EndsAt(s, k + 1) <==> EndsAt(s[1..], k) {
        OneLater(s, k);
      }
      assert !EndsAt(s, 0);
      if NothingElse(s) {
        var k :| EndsAt(s, k);
        assert EndsAt(s[1..], k - 1);
      }
      if NothingElse(s[1..]) {
        var k :| EndsAt(s[1..], k);
        assert EndsAt(s, k + 1);
      }
    } else {
      assert At(s, 0) == 0 ==> EndsAt(s, 0);
    }
  }

  lemma OneLater(s: seq<byte>, k: int)
    requires s != [] && 0 < s[0] <= 32
    ensures EndsAt(s, k + 1) <==> EndsAt(s[1..], k)
  {
    if EndsAt(s[1..], k) {
      assert forall i :: 0 <= i < k + 1 ==> s[i] == if i == 0 then s[0] else s[1..][i - 1];
    }
    if EndsAt(s, k + 1) && k >= 0 {
      assert forall i :: 0 <= i < k ==> s[1..][i] == s[i + 1];
    }
    assert k == -1 ==> !EndsAt(s, 0);
  }

  /** With the flag a text is taken exactly if it is taken without it and nothing but blanks
      follows its value; the value is the same. */
  lemma FlagRefusesMore(s: seq<byte>)
    ensures var r, w := Parse(s, false), Parse(s, true);
            && (w.Ok? <==> r.Ok? && NothingElse(r.rest))
            && (w.Ok? ==> w.value == r.value)
            && (!r.Ok? ==> w == r)
  {
    var r := Parse(s, false);
    if r.Ok? {
      SkipEnds(r.rest);
    }
    hide ParseValue, NothingElse;
  }

  // ----- blanks

  lemma SkipNone(s: seq<byte>)
    requires At(s, 0) > 32
    ensures Skip(s) == s
  {
  }

  lemma {:induction false} SkipBlanks(b: seq<byte>, s: seq<byte>)
    requires forall i :: 0 <= i < |b| ==> 0 < b[i] <= 32
    ensures Skip(b + s) == Skip(s)
  {
    if b == [] {
      assert b + s == s;
    } else {
      assert (b + s)[1..] == b[1..] + s;
      SkipBlanks(b[1..], s);
    }
  }

  /** The first byte of a text. */
  lemma TextStarts(v: Node, depth: nat, fmt: bool, rest: seq<byte>)
    ensures var s := Text(v, depth, fmt) + rest;
            At(s, 0) > 32 && At(s, 0) != CLOSE && At(s, 0) != RBRACE
  {
    var t := Text(v, depth, fmt);
    assert |t| > 0 && (t + rest)[0] == t[0];
  }

  // ----- values

  lemma FirstOfWord(s: seq<byte>, w: seq<byte>)
    requires w != []
    ensures Starts(s, w) ==> At(s, 0) == w[0]
  {
    if Starts(s, w) {
      assert s[..|w|][0] == s[0];
    }
  }

  lemma WordsRead(rest: seq<byte>)
    ensures ParseValue(NULL_WORD + rest) == Ok(Null, rest)
    ensures ParseValue(FALSE_WORD + rest) == Ok(False, rest)
    ensures ParseValue(TRUE_WORD + rest) == Ok(True, rest)
  {
    var n, f, t := NULL_WORD + rest, FALSE_WORD + rest, TRUE_WORD + rest;
    assert n[..4] == NULL_WORD && n[4..] == rest;
    assert f[..5] == FALSE_WORD && f[5..] == rest && f[0] == 102;
    assert t[..4] == TRUE_WORD && t[4..] == rest && t[0] == 116;
    FirstOfWord(f, NULL_WORD);
    FirstOfWord(t, NULL_WORD);
    FirstOfWord(t, FALSE_WORD);
  }

  /** Anything that starts with another byte is none of the three words. */
  lemma NoWord(s: seq<byte>)
    requires At(s, 0) != 110 && At(s, 0) != 102 && At(s, 0) != 116
    ensures !Starts(s, NULL_WORD) && !Starts(s, FALSE_WORD) && !Starts(s, TRUE_WORD)
  {
    FirstOfWord(s, NULL_WORD);
    FirstOfWord(s, FALSE_WORD);
    FirstOfWord(s, TRUE_WORD);
  }

  lemma NumberReads(n: int, rest: seq<byte>)
    requires Stops(rest)
    ensures ParseValue(NumberText(n) + rest) == Ok(Number(n), rest)
  {
    hide Digits, Magnitude;
    var s := NumberText(n) + rest;
    var m := if n < 0 then -n else n;
    DigitsRead(m, rest);
    assert n < 0 ==> s[0] == 45 && s[1..] == Digits(m) + rest;
    NoWord(s);
  }

  lemma QuotedReads(x: seq<byte>, rest: seq<byte>)
    requires 0 !in x
    ensures ParseValue(Quoted(x) + rest) == Ok(String(x), rest)
  {
    StringReads(x, rest);
    NoWord(Quoted(x) + rest);
  }

  lemma {:induction false} ValueReads(v: Node, depth: nat, fmt: bool, rest: seq<byte>)
    requires Plain(v) && Stops(rest)
    ensures ParseValue(Text(v, depth, fmt) + rest) == Ok(v, rest)
    decreases v, 0
  {
    match v
    case Null => WordsRead(rest);
    case False => WordsRead(rest);
    case True => WordsRead(rest);
    case Number(n) => NumberReads(n, rest);
    case String(s) => QuotedReads(s, rest);
    case Array(items) => ArrayReads(items, depth, fmt, rest);
    case Object(fields) => ObjectReads(fields, depth, fmt, rest);
  }

  lemma {:induction false} ArrayReads(items: seq<Node>, depth: nat, fmt: bool, rest: seq<byte>)
    requires Stops(rest) && forall x <- items :: Plain(x)
    ensures ParseValue(Text(Array(items), depth, fmt) + rest) == Ok(Array(items), rest)
    decreases items, 1
  {
    var end := [CLOSE] + rest;
    var t := ItemsText(items, depth + 1, fmt) + end;
    ArrayShape(items, depth, fmt, rest);
    ArrayOpens(t);
    if items == [] {
      assert t == end && t[1..] == rest;
      SkipNone(t);
    } else {
      ItemsStart(items, depth + 1, fmt, end);
      SkipNone(t);
      ItemsRead(items, depth + 1, fmt, rest, []);
      hide ParseValue, ParseItems, Text, ItemsText;
      assert [] + items == items;
    }
  }

  lemma ArrayShape(items: seq<Node>, depth: nat, fmt: bool, rest: seq<byte>)
    ensures Text(Array(items), depth, fmt) + rest == [OPEN] + (ItemsText(items, depth + 1, fmt) + ([CLOSE] + rest))
  {
    hide Text, ItemsText;
    ArrayText(items, depth, fmt);
    var inner := ItemsText(items, depth + 1, fmt);
    Append([OPEN], inner, [CLOSE]);
    Append([OPEN], inner + [CLOSE], rest);
    Append(inner, [CLOSE], rest);
  }

  lemma ArrayOpens(t: seq<byte>)
    ensures ParseValue([OPEN] + t)
            == var u := Skip(t);
               if At(u, 0) == CLOSE then Ok(Array([]), u[1..]) else ParseItems(u, [])
  {
    var s := [OPEN] + t;
    assert s[0] == OPEN && s[1..] == t;
    NoWord(s);
    hide Starts, Skip, ParseItems;
  }

  lemma ItemsStart(items: seq<Node>, depth: nat, fmt: bool, rest: seq<byte>)
    requires items != []
    ensures var s := ItemsText(items, depth, fmt) + rest;
            At(s, 0) > 32 && At(s, 0) != CLOSE
  {
    var x := Text(items[0], depth, fmt);
    TextStarts(items[0], depth, fmt, []);
    assert x + [] == x;
    assert (ItemsText(items, depth, fmt) + rest)[0] == x[0];
  }

  lemma {:induction false} ItemsRead(items: seq<Node>, depth: nat, fmt: bool, rest: seq<byte>, done: seq<Node>)
    requires items != [] && forall x <- items :: Plain(x)
    ensures ParseItems(ItemsText(items, depth, fmt) + ([CLOSE] + rest), done) == Ok(Array(done + items), rest)
    decreases items, 0
  {
    var end := [CLOSE] + rest;
    if |items| == 1 {
      ItemReads(items[0], depth, fmt, end, done);
      SkipNone(end);
      assert items == [items[0]] && end[1..] == rest;
    } else {
      var gap, more := If(fmt, [32]), ItemsText(items[1..], depth, fmt) + end;
      var tail := [COMMA] + (gap + more);
      ItemsShape(items, depth, fmt, end);
      ItemReads(items[0], depth, fmt, tail, done);
      ItemsRead(items[1..], depth, fmt, rest, done + [items[0]]);
      GapSkipped(gap, more, done + [items[0]]);
      hide ItemsText, ParseItems, Text, Plain;
      SkipNone(tail);
      assert tail[1..] == gap + more;
      Append(done, [items[0]], items[1..]);
      assert [items[0]] + items[1..] == items;
    }
  }

  lemma ItemsShape(items: seq<Node>, depth: nat, fmt: bool, end: seq<byte>)
    requires |items| > 1
    ensures ItemsText(items, depth, fmt) + end
            == Text(items[0], depth, fmt) + ([COMMA] + (If(fmt, [32]) + (ItemsText(items[1..], depth, fmt) + end)))
  {
    var x, gap, more := Text(items[0], depth, fmt), If(fmt, [32]), ItemsText(items[1..], depth, fmt);
    assert ItemsText(items, depth, fmt) == x + [COMMA] + gap + more;
    hide ItemsText, Text;
    Append(x + [COMMA] + gap, more, end);
    Append(x, [COMMA], gap);
    Append(x, [COMMA] + gap, more + end);
    Append([COMMA], gap, more + end);
  }

  /** One item, up to what follows it. */
  lemma {:induction false} ItemReads(v: Node, depth: nat, fmt: bool, tail: seq<byte>, done: seq<Node>)
    requires Plain(v) && Stops(tail)
    ensures ParseItems(Text(v, depth, fmt) + tail, done)
            == var t, all := Skip(tail), done + [v];
               if At(t, 0) == COMMA then ParseItems(t[1..], all)
               else if At(t, 0) == CLOSE then Ok(Array(all), t[1..])
               else Fail
    decreases v, 1
  {
    TextStarts(v, depth, fmt, tail);
    SkipNone(Text(v, depth, fmt) + tail);
    ValueReads(v, depth, fmt, tail);
    hide ParseValue, Text;
  }

  /** Blanks in front of an item do not matter. */
  lemma GapSkipped(gap: seq<byte>, s: seq<byte>, done: seq<Node>)
    requires forall i :: 0 <= i < |gap| ==> 0 < gap[i] <= 32
    ensures ParseItems(gap + s, done) == ParseItems(s, done)
  {
    SkipBlanks(gap, s);
  }

  lemma GapSkippedInFields(gap: seq<byte>, s: seq<byte>, done: seq<Field>)
    requires forall i :: 0 <= i < |gap| ==> 0 < gap[i] <= 32
    ensures ParseFields(gap + s, done) == ParseFields(s, done)
  {
    SkipBlanks(gap, s);
  }

  lemma EmptyObjectReads(depth: nat, fmt: bool, rest: seq<byte>)
    ensures ParseValue(Text(Object([]), depth, fmt) + rest) == Ok(Object([]), rest)
  {
    var s := Text(Object([]), depth, fmt) + rest;
    var end := [RBRACE] + rest;
    var gap := If(fmt, [NEWLINE] + Tabs(depth - 1));
    Append([LBRACE], gap, [RBRACE]);
    Append([LBRACE], gap + [RBRACE], rest);
    Append(gap, [RBRACE], rest);
    assert s == [LBRACE] + (gap + end);
    assert s[0] == LBRACE && s[1..] == gap + end && end[1..] == rest;
    NoWord(s);
    SkipBlanks(gap, end);
    SkipNone(end);
  }

  /** After its brace, an object that starts with a name is read field by field. */
  lemma BraceReads(t: seq<byte>)
    requires At(Skip(t), 0) == QUOTE
    ensures ParseValue([LBRACE] + t) == ParseFields(Skip(t), [])
  {
    var s := [LBRACE] + t;
    assert s[0] == LBRACE && s[1..] == t;
    NoWord(s);
  }

  lemma {:induction false} ObjectReads(fields: seq<Field>, depth: nat, fmt: bool, rest: seq<byte>)
    requires Stops(rest) && forall f <- fields :: PlainField(f)
    ensures ParseValue(Text(Object(fields), depth, fmt) + rest) == Ok(Object(fields), rest)
    decreases fields, 2
  {
    if fields == [] {
      EmptyObjectReads(depth, fmt, rest);
    } else {
      var nl, inner, close := If(fmt, [NEWLINE]), FieldsText(fields, depth + 1, fmt), If(fmt, Tabs(depth));
      var t := inner + (close + ([RBRACE] + rest));
      Regrouped([LBRACE], nl, inner, close, [RBRACE], rest);
      assert Text(Object(fields), depth, fmt) + rest == [LBRACE] + (nl + t);
      FieldsRead(fields, depth + 1, fmt, close, rest, []);
      FieldsStart(fields, depth + 1, fmt, close + ([RBRACE] + rest));
      hide FieldsText, Text, ParseValue, ParseFields;
      SkipBlanks(nl, t);
      BraceReads(nl + t);
      SkipTwice(t, []);
      assert [] + fields == fields;
    }
  }

  lemma Regrouped(a: seq<byte>, b: seq<byte>, c: seq<byte>, d: seq<byte>, e: seq<byte>, f: seq<byte>)
    ensures a + b + c + d + e + f == a + (b + (c + (d + (e + f))))
  {
    Append(a + b + c + d, e, f);
    Append(a + b + c, d, e + f);
    Append(a + b, c, d + (e + f));
    Append(a, b, c + (d + (e + f)));
  }

  /** What follows the value of the first field. */
  function Tail(fields: seq<Field>, depth: nat, fmt: bool, rest: seq<byte>): seq<byte>
    requires fields != []
  {
    (if |fields| == 1 then [] else [COMMA]) + (If(fmt, [NEWLINE]) + (FieldsText(fields[1..], depth, fmt) + rest))
  }

  function FieldWith(f: Field, depth: nat, fmt: bool, tail: seq<byte>): seq<byte> {
    If(fmt, Tabs(depth)) + (Quoted(f.name) + ([COLON] + (If(fmt, [TAB]) + (Text(f.value, depth, fmt) + tail))))
  }

  lemma FieldsShape(fields: seq<Field>, depth: nat, fmt: bool, rest: seq<byte>)
    requires fields != []
    ensures FieldsText(fields, depth, fmt) + rest == FieldWith(fields[0], depth, fmt, Tail(fields, depth, fmt, rest))
  {
    var f := fields[0];
    var a, b, c, d, e := If(fmt, Tabs(depth)), Quoted(f.name), [COLON], If(fmt, [TAB]), Text(f.value, depth, fmt);
    var g, h, more := if |fields| == 1 then [] else [COMMA], If(fmt, [NEWLINE]), FieldsText(fields[1..], depth, fmt);
    assert FieldsText(fields, depth, fmt) == a + b + c + d + e + g + h + more;
    hide Text, FieldsText, FieldText, Quoted;
    Append(a + b + c + d + e + g + h, more, rest);
    Append(a + b + c + d + e + g, h, more + rest);
    Regrouped(a, b, c, d, e, g + (h + (more + rest)));
    Append(a + b + c + d + e, g, h + (more + rest));
  }

  /** After blanks, the fields begin with a quote. */
  lemma FieldsStart(fields: seq<Field>, depth: nat, fmt: bool, rest: seq<byte>)
    requires fields != []
    ensures At(Skip(FieldsText(fields, depth, fmt) + rest), 0) == QUOTE
  {
    FieldsShape(fields, depth, fmt, rest);
    var f := fields[0];
    var name := Quoted(f.name) + ([COLON] + (If(fmt, [TAB]) + (Text(f.value, depth, fmt) + Tail(fields, depth, fmt, rest))));
    SkipBlanks(If(fmt, Tabs(depth)), name);
    assert name[0] == QUOTE;
    SkipNone(name);
  }

  /** Skipping blanks first changes nothing for the fields. */
  lemma SkipTwice(s: seq<byte>, done: seq<Field>)
    ensures ParseFields(Skip(s), done) == ParseFields(s, done)
  {
    SkipIdempotent(s);
  }

  lemma {:induction false} SkipIdempotent(s: seq<byte>)
    ensures Skip(Skip(s)) == Skip(s)
  {
    if s != [] && 0 < s[0] <= 32 {
      SkipIdempotent(s[1..]);
    }
  }

  /** One field, up to what follows its value. */
  lemma {:induction false} FieldReads(f: Field, depth: nat, fmt: bool, tail: seq<byte>, done: seq<Field>)
    requires PlainField(f) && Stops(tail)
    ensures ParseFields(FieldWith(f, depth, fmt, tail), done)
            == var t, all := Skip(tail), done + [f];
               if At(t, 0) == COMMA then ParseFields(t[1..], all)
               else if At(t, 0) == RBRACE then Ok(Object(all), t[1..])
               else Fail
    decreases f, 0
  {
    var value := Text(f.value, depth, fmt) + tail;
    var gap := If(fmt, [TAB]);
    var colon := [COLON] + (gap + value);
    var name := Quoted(f.name) + colon;
    SkipBlanks(If(fmt, Tabs(depth)), name);
    StringReads(f.name, colon);
    SkipNone(name);
    SkipNone(colon);
    assert colon[1..] == gap + value;
    SkipBlanks(gap, value);
    TextStarts(f.value, depth, fmt, tail);
    SkipNone(value);
    ValueReads(f.value, depth, fmt, tail);
  }

  lemma {:induction false} FieldsRead(fields: seq<Field>, depth: nat, fmt: bool, close: seq<byte>, rest: seq<byte>, done: seq<Field>)
    requires fields != [] && (forall f <- fields :: PlainField(f)) && forall i :: 0 <= i < |close| ==> 0 < close[i] <= 32
    ensures ParseFields(FieldsText(fields, depth, fmt) + (close + ([RBRACE] + rest)), done) == Ok(Object(done + fields), rest)
    decreases fields, 1
  {
    var f, brace := fields[0], [RBRACE] + rest;
    var end := close + brace;
    var nl, more := If(fmt, [NEWLINE]), FieldsText(fields[1..], depth, fmt) + end;
    var tail := Tail(fields, depth, fmt, end);
    FieldsShape(fields, depth, fmt, end);
    SkipBlanks(nl, more);
    SkipBlanks(close, brace);
    SkipNone(brace);
    if |fields| == 1 {
      assert fields[1..] == [] && more == end && tail == nl + end && fields == [f];
      assert Stops(tail) by { BlanksStop(nl, close, brace); }
      FieldReads(f, depth, fmt, tail, done);
      assert brace[1..] == rest;
    } else {
      assert tail == [COMMA] + (nl + more);
      FieldReads(f, depth, fmt, tail, done);
      SkipNone(tail);
      assert tail[1..] == nl + more;
      FieldsRead(fields[1..], depth, fmt, close, rest, done + [f]);
      GapSkippedInFields(nl, more, done + [f]);
      Append(done, [f], fields[1..]);
      assert [f] + fields[1..] == fields;
    }
  }

  lemma BlanksStop(a: seq<byte>, b: seq<byte>, s: seq<byte>)
    requires forall i :: 0 <= i < |a| ==> 0 < a[i] <= 32
    requires forall i :: 0 <= i < |b| ==> 0 < b[i] <= 32
    requires Stops(s)
    ensures Stops(a + (b + s))
  {
    var t := a + (b + s);
    if a != [] {
      assert t[0] == a[0];
    } else if b != [] {
      assert t[0] == b[0];
    } else {
      assert t == s;
    }
  }

  /** cJSON_Parse undoes cJSON_Print and cJSON_PrintUnformatted, and consumes all of the text. */
  lemma ParseUndoesPrint(v: Node, fmt: bool, whole: bool)
    requires Plain(v)
    ensures Parse(Text(v, 0, fmt), whole) == Ok(v, [])
  {
    var s := Text(v, 0, fmt);
    assert s + [] == s;
    TextStarts(v, 0, fmt, []);
    SkipNone(s);
    ValueReads(v, 0, fmt, []);
  }
}
