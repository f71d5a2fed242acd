/**
 cJSON_Minify: blanks and comments outside of strings go away, in place. The text of a tree
 loses exactly its layout.
 */
module CJsonMinify {
  import opened Bytes
  import opened CJsonParse
  import opened CJsonText

  predicate IsBlank(c: byte) {
    c == 32 || c == 9 || c == 13 || c == 10
  }

  /** What is left from the end of the line on. */
  function AfterLine(s: seq<byte>): (r: seq<byte>)
    ensures |r| <= |s| && (At(s, 0) != 0 && At(s, 0) != 10 ==> |r| < |s|)
  {
    if At(s, 0) == 0 || At(s, 0) == 10 then s else AfterLine(s[1..])
  }

  /** What is left after the end of a comment; there is nothing to go on with without one. */
  function AfterBlock(s: seq<byte>): (r: Option<seq<byte>>)
    ensures r.Some? ==> |r.value| < |s|
  {
    if At(s, 0) == 0 then None
    else if At(s, 0) == 42 && At(s, 1) == 47 then Some(s[2..])
    else AfterBlock(s[1..])
  }

  /** The length of a string after its opening quote, with the closing one. */
  function StringLength(s: seq<byte>): (n: Option<nat>)
    ensures n.Some? ==> 0 < n.value <= |s|
  {
    if At(s, 0) == 0 then None
    else if At(s, 0) == QUOTE then Some(1)
    else if At(s, 0) == BACKSLASH then
      if At(s, 1) == 0 then None else Longer(2, StringLength(s[2..]))
    else Longer(1, StringLength(s[1..]))
  }

  function Longer(k: nat, n: Option<nat>): Option<nat> {
    if n.None? then None else Some(k + n.value)
  }

  function Prepend(a: seq<byte>, r: Option<seq<byte>>): Option<seq<byte>> {
    if r.None? then None else Some(a + r.value)
  }

  /** The minified text; None when a string or a comment is not closed, and cJSON_Minify runs
      past the end of the text. */
  function Minified(s: seq<byte>): Option<seq<byte>>
    decreases |s|
  {
    var c := At(s, 0);
    if c == 0 then Some([])
    else if IsBlank(c) then Minified(s[1..])
    else if c == 47 && At(s, 1) == 47 then Minified(AfterLine(s))
    else if c == 47 && At(s, 1) == 42 then
      var r := AfterBlock(s);
      if r.None? then None else Minified(r.value)
    else if c == QUOTE then
      var n := StringLength(s[1..]);
      if n.None? then None else Prepend(s[..n.value + 1], Minified(s[n.value + 1..]))
    else Prepend([c], Minified(s[1..]))
  }

  lemma PrependTwice(a: seq<byte>, b: seq<byte>, r: Option<seq<byte>>)
    ensures Prepend(a, Prepend(b, r)) == Prepend(a + b, r)
  {
    if r.Some? {
      Append(a, b, r.value);
    }
  }

  lemma PrependNone(r: Option<seq<byte>>)
    ensures Prepend([], r) == r
  {
    if r.Some? {
      assert [] + r.value == r.value;
    }
  }

  // ----- the text of a tree

  lemma {:induction false} BlanksGo(b: seq<byte>, rest: seq<byte>)
    requires forall i :: 0 <= i < |b| ==> IsBlank(b[i])
    ensures Minified(b + rest) == Minified(rest)
  {
    if b == [] {
      assert b + rest == rest;
    } else {
      var s := b + rest;
      assert s[0] == b[0] && s[1..] == b[1..] + rest;
      BlanksGo(b[1..], rest);
    }
  }

  // ----- comments

  lemma {:induction false} LineSkipped(body: seq<byte>, rest: seq<byte>)
    requires 0 !in body && 10 !in body && (At(rest, 0) == 0 || At(rest, 0) == 10)
    ensures AfterLine(body + rest) == rest
  {
    if body == [] {
      assert body + rest == rest;
    } else {
      assert (body + rest)[0] == body[0] && body[0] in body && (body + rest)[1..] == body[1..] + rest;
      LineSkipped(body[1..], rest);
    }
  }

  /** A comment of two slashes goes away, with its line. */
  lemma LineCommentGoes(body: seq<byte>, rest: seq<byte>)
    requires 0 !in body && 10 !in body
    ensures Minified([47, 47] + body + ([10] + rest)) == Minified(rest)
    ensures Minified([47, 47] + body) == Some([])
  {
    var c := [47, 47] + body;
    LineSkipped(c, [10] + rest);
    LineSkipped(c, []);
    assert c + [] == c && c[0] == 47 && c[1] == 47;
    var s := c + ([10] + rest);
    assert s[0] == 47 && s[1] == 47 && ([10] + rest)[1..] == rest;
    assert Minified(s) == Minified([10] + rest);
    assert Minified(c) == Minified([]);
  }

  /** No star is followed by a slash. */
  predicate Unclosed(s: seq<byte>) {
    forall j :: 0 <= j < |s| - 1 ==> !(s[j] == 42 && s[j + 1] == 47)
  }

  lemma {:induction false} BlockSkipped(body: seq<byte>, rest: seq<byte>)
    requires 0 !in body && Unclosed(body + [42])
    ensures AfterBlock(body + ([42, 47] + rest)) == Some(rest)
  {
    var s := body + ([42, 47] + rest);
    if body == [] {
      assert s[0] == 42 && s[1] == 47 && s[2..] == rest;
    } else {
      var b := body + [42];
      assert s[0] == b[0] == body[0] && s[1] == b[1] && body[0] in body;
      assert s[1..] == body[1..] + ([42, 47] + rest);
      assert forall j :: 0 <= j < |body[1..] + [42]| ==> (body[1..] + [42])[j] == b[j + 1];
      BlockSkipped(body[1..], rest);
    }
  }

  /** A comment between slash and star goes away; its star may not be that of the end. */
  lemma BlockCommentGoes(body: seq<byte>, rest: seq<byte>)
    requires 0 !in body && Unclosed([42] + body + [42])
    ensures Minified([47, 42] + body + ([42, 47] + rest)) == Minified(rest)
  {
    var c := [47, 42] + body;
    forall j | 0 <= j < |c + [42]| - 1 ensures !((c + [42])[j] == 42 && (c + [42])[j + 1] == 47) {
      assert j > 0 ==> (c + [42])[j] == ([42] + body + [42])[j - 1] && (c + [42])[j + 1] == ([42] + body + [42])[j];
    }
    BlockSkipped(c, rest);
    var s := c + ([42, 47] + rest);
    assert s[0] == 47 && s[1] == 42;
  }

  predicate IsOrdinary(c: byte) {
    c != 0 && !IsBlank(c) && c != 47 && c != QUOTE
  }

  lemma {:induction false} OrdinaryStay(b: seq<byte>, rest: seq<byte>)
    requires forall i :: 0 <= i < |b| ==> IsOrdinary(b[i])
    ensures Minified(b + rest) == Prepend(b, Minified(rest))
  {
    if b == [] {
      assert b + rest == rest;
      PrependNone(Minified(rest));
    } else {
      var s := b + rest;
      assert s[0] == b[0] && s[1..] == b[1..] + rest;
      OrdinaryStay(b[1..], rest);
      PrependTwice([b[0]], b[1..], Minified(rest));
      assert [b[0]] + b[1..] == b;
    }
  }

  lemma PlainLength(c: byte, s: seq<byte>)
    requires c != 0 && c != QUOTE && c != BACKSLASH
    ensures StringLength([c] + s) == Longer(1, StringLength(s))
  {
    assert ([c] + s)[1..] == s;
  }

  lemma PairLength(c: byte, s: seq<byte>)
    requires c != 0
    ensures StringLength([BACKSLASH, c] + s) == Longer(2, StringLength(s))
  {
    var t := [BACKSLASH, c] + s;
    assert t[0] == BACKSLASH && t[1] == c && t[2..] == s;
  }

  lemma UnicodeLength(c: byte, s: seq<byte>)
    ensures var e := [BACKSLASH, 117, 48, 48, HexDigit(c / 16), HexDigit(c % 16)];
            StringLength(e + s) == Longer(6, StringLength(s))
  {
    var h, l := HexDigit(c / 16), HexDigit(c % 16);
    var e := [BACKSLASH, 117, 48, 48, h, l];
    assert e + s == [BACKSLASH, 117] + ([48] + ([48] + ([h] + ([l] + s))));
    PlainLength(48, [48] + ([h] + ([l] + s)));
    PlainLength(48, [h] + ([l] + s));
    PlainLength(h, [l] + s);
    PlainLength(l, s);
    PairLength(117, [48] + ([48] + ([h] + ([l] + s))));
    hide StringLength, HexDigit;
  }

  lemma EscapeLength(c: byte, s: seq<byte>)
    requires c != 0
    ensures StringLength(EscapeByte(c) + s) == Longer(|EscapeByte(c)|, StringLength(s))
  {
    hide StringLength;
    var e := EscapeByte(c);
    if |e| == 1 {
      PlainLength(c, s);
    } else if |e| == 2 {
      PairLength(e[1], s);
      assert e == [BACKSLASH, e[1]];
    } else {
      UnicodeLength(c, s);
    }
  }

  lemma {:induction false} EscapedLength(x: seq<byte>, s: seq<byte>)
    requires 0 !in x
    ensures StringLength(Escape(x) + s) == Longer(|Escape(x)|, StringLength(s))
    decreases x
  {
    if x == [] {
      assert Escape(x) + s == s;
    } else {
      var e := EscapeByte(x[0]);
      Append(e, Escape(x[1..]), s);
      EscapeLength(x[0], Escape(x[1..]) + s);
      hide StringLength, EscapeByte;
      EscapedLength(x[1..], s);
    }
  }

  /** Strings are untouched. */
  lemma StringsStay(x: seq<byte>, rest: seq<byte>)
    requires 0 !in x
    ensures Minified(Quoted(x) + rest) == Prepend(Quoted(x), Minified(rest))
  {
    var q := Quoted(x);
    var s, t := q + rest, [QUOTE] + rest;
    Append([QUOTE], Escape(x), [QUOTE]);
    Append([QUOTE], Escape(x) + [QUOTE], rest);
    Append(Escape(x), [QUOTE], rest);
    assert s[0] == QUOTE && s[1..] == Escape(x) + t;
    EscapedLength(x, t);
    assert StringLength(t) == Some(1);
    assert s[..|q|] == q && s[|q|..] == rest;
  }

  lemma NumberIsOrdinary(n: int)
    ensures forall i :: 0 <= i < |NumberText(n)| ==> IsOrdinary(NumberText(n)[i])
  {
    var d := Digits(if n < 0 then -n else n);
    assert forall i :: 0 <= i < |d| ==> IsDigit(d[i]);
    hide Digits;
  }

  /** Two pieces, one after the other. */
  lemma Both(a: seq<byte>, a': seq<byte>, b: seq<byte>, b': seq<byte>, rest: seq<byte>)
    requires Minified(a + (b + rest)) == Prepend(a', Minified(b + rest))
    requires Minified(b + rest) == Prepend(b', Minified(rest))
    ensures Minified(a + b + rest) == Prepend(a' + b', Minified(rest))
  {
    hide Minified;
    Append(a, b, rest);
    PrependTwice(a', b', Minified(rest));
  }

  /** Layout in front of a piece. */
  lemma Laid(b: seq<byte>, a: seq<byte>, a': seq<byte>, rest: seq<byte>)
    requires forall i :: 0 <= i < |b| ==> IsBlank(b[i])
    requires Minified(a + rest) == Prepend(a', Minified(rest))
    ensures Minified(b + a + rest) == Prepend(a', Minified(rest))
  {
    Append(b, a, rest);
    BlanksGo(b, a + rest);
  }

  /** Layout behind a piece. */
  lemma LaidBehind(a: seq<byte>, a': seq<byte>, b: seq<byte>, rest: seq<byte>)
    requires forall i :: 0 <= i < |b| ==> IsBlank(b[i])
    requires Minified(a + (b + rest)) == Prepend(a', Minified(b + rest))
    ensures Minified(a + b + rest) == Prepend(a', Minified(rest))
  {
    Append(a, b, rest);
    BlanksGo(b, rest);
  }

  lemma {:induction false} TextMinifies(v: Node, depth: nat, rest: seq<byte>)
    requires Plain(v)
    ensures Minified(Text(v, depth, true) + rest) == Prepend(Text(v, depth, false), Minified(rest))
    decreases v
  {
    match v
    case Null => OrdinaryStay(NULL_WORD, rest);
    case False => OrdinaryStay(FALSE_WORD, rest);
    case True => OrdinaryStay(TRUE_WORD, rest);
    case Number(n) =>
      NumberIsOrdinary(n);
      OrdinaryStay(NumberText(n), rest);
    case String(s) => StringsStay(s, rest);
    case Array(items) => ArrayMinifies(items, depth, rest);
    case Object(fields) => ObjectMinifies(fields, depth, rest);
  }

  lemma {:induction false} ArrayMinifies(items: seq<Node>, depth: nat, rest: seq<byte>)
    requires forall x <- items :: Plain(x)
    ensures Minified(Text(Array(items), depth, true) + rest) == Prepend(Text(Array(items), depth, false), Minified(rest))
    decreases items, 1
  {
    var inner, inner' := ItemsText(items, depth + 1, true), ItemsText(items, depth + 1, false);
    var t, t' := inner + [CLOSE], inner' + [CLOSE];
    ItemsMinify(items, depth + 1, [CLOSE] + rest);
    OrdinaryStay([CLOSE], rest);
    Append([OPEN], inner, [CLOSE]);
    Append([OPEN], inner', [CLOSE]);
    assert Text(Array(items), depth, true) == [OPEN] + t && Text(Array(items), depth, false) == [OPEN] + t';
    hide Minified, Text, ItemsText;
    Both(inner, inner', [CLOSE], [CLOSE], rest);
    OrdinaryStay([OPEN], t + rest);
    Both([OPEN], [OPEN], t, t', rest);
  }

  lemma {:induction false} ItemsMinify(items: seq<Node>, depth: nat, rest: seq<byte>)
    requires forall x <- items :: Plain(x)
    ensures Minified(ItemsText(items, depth, true) + rest) == Prepend(ItemsText(items, depth, false), Minified(rest))
    decreases items, 0
  {
    if items == [] {
      assert [] + rest == rest;
      PrependNone(Minified(rest));
    } else {
      var x, x' := Text(items[0], depth, true), Text(items[0], depth, false);
      if |items| == 1 {
        TextMinifies(items[0], depth, rest);
      } else {
        var more, more' := ItemsText(items[1..], depth, true), ItemsText(items[1..], depth, false);
        var sep := [COMMA] + [32];
        assert ItemsText(items, depth, true) == x + sep + more;
        assert ItemsText(items, depth, false) == x' + [COMMA] + more';
        ItemsMinify(items[1..], depth, rest);
        TextMinifies(items[0], depth, sep + (more + rest));
        hide Minified, ItemsText, Text;
        OrdinaryStay([COMMA], [32] + (more + rest));
        LaidBehind([COMMA], [COMMA], [32], more + rest);
        Both(x, x', sep, [COMMA], more + rest);
        Both(x + sep, x' + [COMMA], more, more', rest);
      }
    }
  }

  lemma {:induction false} ObjectMinifies(fields: seq<Field>, depth: nat, rest: seq<byte>)
    requires forall f <- fields :: PlainField(f)
    ensures Minified(Text(Object(fields), depth, true) + rest) == Prepend(Text(Object(fields), depth, false), Minified(rest))
    decreases fields, 2
  {
    if fields == [] {
      var gap := [NEWLINE] + Tabs(depth - 1);
      OrdinaryStay([RBRACE], rest);
      OrdinaryStay([LBRACE], gap + ([RBRACE] + rest));
      LaidBehind([LBRACE], [LBRACE], gap, [RBRACE] + rest);
      Both([LBRACE] + gap, [LBRACE], [RBRACE], [RBRACE], rest);
      assert Text(Object(fields), depth, false) == [LBRACE] + [RBRACE];
    } else {
      var inner, inner', close := FieldsText(fields, depth + 1, true), FieldsText(fields, depth + 1, false), Tabs(depth);
      assert Text(Object(fields), depth, true) == [LBRACE] + [NEWLINE] + inner + close + [RBRACE];
      assert Text(Object(fields), depth, false) == [LBRACE] + inner' + [RBRACE];
      FieldsMinify(fields, depth + 1, close + ([RBRACE] + rest));
      hide Minified, FieldsText, Text;
      OrdinaryStay([RBRACE], rest);
      OrdinaryStay([LBRACE], [NEWLINE] + (inner + (close + ([RBRACE] + rest))));
      LaidBehind([LBRACE], [LBRACE], [NEWLINE], inner + (close + ([RBRACE] + rest)));
      Both([LBRACE] + [NEWLINE], [LBRACE], inner, inner', close + ([RBRACE] + rest));
      LaidBehind([LBRACE] + [NEWLINE] + inner, [LBRACE] + inner', close, [RBRACE] + rest);
      Both([LBRACE] + [NEWLINE] + inner + close, [LBRACE] + inner', [RBRACE], [RBRACE], rest);
    }
  }

  lemma {:induction false} FieldsMinify(fields: seq<Field>, depth: nat, rest: seq<byte>)
    requires forall f <- fields :: PlainField(f)
    ensures Minified(FieldsText(fields, depth, true) + rest) == Prepend(FieldsText(fields, depth, false), Minified(rest))
    decreases fields, 1
  {
    if fields == [] {
      assert [] + rest == rest;
      PrependNone(Minified(rest));
    } else {
      var more, more' := FieldsText(fields[1..], depth, true), FieldsText(fields[1..], depth, false);
      var last := |fields| == 1;
      FieldsMinify(fields[1..], depth, rest);
      FieldMinifies(fields[0], depth, last, more + rest);
      Both(FieldText(fields[0], depth, true, last), FieldText(fields[0], depth, false, last), more, more', rest);
    }
  }

  lemma {:induction false} FieldMinifies(f: Field, depth: nat, last: bool, rest: seq<byte>)
    requires PlainField(f)
    ensures Minified(FieldText(f, depth, true, last) + rest) == Prepend(FieldText(f, depth, false, last), Minified(rest))
    decreases f, 0
  {
    var tabs, name, x, x' := Tabs(depth), Quoted(f.name), Text(f.value, depth, true), Text(f.value, depth, false);
    var comma := if last then [] else [COMMA];
    assert FieldText(f, depth, true, last) == tabs + name + [COLON] + [TAB] + x + comma + [NEWLINE];
    assert FieldText(f, depth, false, last) == name + [COLON] + x' + comma;
    var r3 := [NEWLINE] + rest;
    var r2 := comma + r3;
    var r1 := [TAB] + (x + r2);
    TextMinifies(f.value, depth, r2);
    StringsStay(f.name, [COLON] + r1);
    hide Minified, FieldText, Text, Quoted;
    OrdinaryStay(comma, r3);
    OrdinaryStay([COLON], r1);
    Laid(tabs, name, name, [COLON] + r1);
    Both(tabs + name, name, [COLON], [COLON], r1);
    LaidBehind(tabs + name + [COLON], name + [COLON], [TAB], x + r2);
    Both(tabs + name + [COLON] + [TAB], name + [COLON], x, x', r2);
    Both(tabs + name + [COLON] + [TAB] + x, name + [COLON] + x', comma, comma, r3);
    LaidBehind(tabs + name + [COLON] + [TAB] + x + comma, name + [COLON] + x' + comma, [NEWLINE], rest);
  }

  /** Minifying the formatted text gives the unformatted text. */
  lemma MinifyUnformats(v: Node)
    requires Plain(v)
    ensures Minified(Text(v, 0, true)) == Some(Text(v, 0, false))
  {
    TextMinifies(v, 0, []);
    assert Text(v, 0, true) + [] == Text(v, 0, true);
    assert Text(v, 0, false) + [] == Text(v, 0, false);
  }

  // ----- the loop, in place

  /** In the middle of the work: `out` is written up to i, and the text from p on is still
      to be read. */
  ghost predicate Half(json: array<byte>, text: seq<byte>, out: seq<byte>, i: int, p: int)
    reads json
  {
    && |out| == i && 0 <= i <= p <= |text| < json.Length && json[|text|] == 0
    && (forall k :: 0 <= k < i ==> json[k] == out[k])
    && (forall k :: p <= k < |text| ==> json[k] == text[k])
  }

  /** Byte k of what is left, as the loop looks at it; past the end is only the zero byte. */
  lemma Looks(json: array<byte>, text: seq<byte>, out: seq<byte>, i: int, p: int)
    requires Half(json, text, out, i, p)
    ensures 0 <= i <= p <= |text| < json.Length
    ensures json[p] == At(text[p..], 0) && (p < |text| ==> json[p + 1] == At(text[p..], 1))
    ensures p < |text| ==> text[p..][1..] == text[p + 1..]
    ensures p + 1 < |text| ==> text[p..][2..] == text[p + 2..]
  {
  }

  /** Go to the end of the line. */
  method SkipLine(json: array<byte>, i: nat, p0: nat, ghost text: seq<byte>, ghost out: seq<byte>) returns (p: nat)
    requires Half(json, text, out, i, p0)
    ensures Half(json, text, out, i, p) && p0 <= p && text[p..] == AfterLine(text[p0..])
  {
    p := p0;
    while json[p] != 0 && json[p] != 10
      invariant Half(json, text, out, i, p) && p0 <= p && AfterLine(text[p..]) == AfterLine(text[p0..])
      decreases |text| - p
    {
      Looks(json, text, out, i, p);
      p := p + 1;
    }
    Looks(json, text, out, i, p);
  }

  /** Go behind the comment. */
  method SkipBlock(json: array<byte>, i: nat, p0: nat, ghost text: seq<byte>, ghost out: seq<byte>) returns (p: nat)
    requires Half(json, text, out, i, p0) && AfterBlock(text[p0..]).Some?
    ensures Half(json, text, out, i, p) && p0 <= p && AfterBlock(text[p0..]) == Some(text[p..])
  {
    p := p0;
    while json[p] != 0 && !(json[p] == 42 && json[p + 1] == 47)
      invariant Half(json, text, out, i, p) && p0 <= p && AfterBlock(text[p..]) == AfterBlock(text[p0..])
      decreases |text| - p
    {
      Looks(json, text, out, i, p);
      p := p + 1;
    }
    Looks(json, text, out, i, p);
    p := p + 2;
  }

  /** Move one byte from p down to i. */
  method Move(json: array<byte>, i: nat, p: nat, ghost text: seq<byte>, ghost out: seq<byte>)
    requires Half(json, text, out, i, p) && p < |text|
    modifies json
    ensures Half(json, text, out + [text[p]], i + 1, p + 1)
  {
    json[i] := json[p];
  }

  /** Copy one byte of a string, or a backslash and the byte behind it. */
  method CopyChar(json: array<byte>, i0: nat, p0: nat, ghost text: seq<byte>, ghost out0: seq<byte>)
    returns (i: nat, p: nat, ghost out: seq<byte>)
    requires Half(json, text, out0, i0, p0) && json[p0] != 0 && json[p0] != QUOTE && StringLength(text[p0..]).Some?
    modifies json
    ensures Half(json, text, out, i, p) && p0 < p && out == out0 + text[p0..p]
    ensures StringLength(text[p0..]) == Longer(p - p0, StringLength(text[p..]))
  {
    Looks(json, text, out0, i0, p0);
    i, p, out := i0, p0, out0;
    assert text[p0..p] == [] && out0 + [] == out0;
    if json[p] == BACKSLASH {
      Move(json, i, p, text, out);
      i, p, out := i + 1, p + 1, out + [text[p]];
    }
    Move(json, i, p, text, out);
    i, p, out := i + 1, p + 1, out + [text[p]];
  }

  /** Copy the inside of a string, up to its closing quote. */
  method CopyChars(json: array<byte>, i0: nat, p0: nat, ghost text: seq<byte>, ghost out0: seq<byte>)
    returns (i: nat, p: nat, ghost out: seq<byte>)
    requires Half(json, text, out0, i0, p0) && StringLength(text[p0..]).Some?
    modifies json
    ensures Half(json, text, out, i, p) && p == p0 + StringLength(text[p0..]).value - 1 < |text|
    ensures out == out0 + text[p0..p]
  {
    hide Half, StringLength;
    i, p, out := i0, p0, out0;
    Looks(json, text, out, i, p);
    assert text[p0..p0] == [] && out0 + [] == out0;
    while json[p] != 0 && json[p] != QUOTE
      invariant p0 <= p <= |text| < json.Length && json[p] == At(text[p..], 0)
      invariant Half(json, text, out, i, p) && out == out0 + text[p0..p]
      invariant StringLength(text[p0..]) == Longer(p - p0, StringLength(text[p..]))
      decreases |text| - p
    {
      ghost var q := p;
      i, p, out := CopyChar(json, i, p, text, out);
      Looks(json, text, out, i, p);
      Glue(out0, text, p0, q, p);
    }
    Closed(text[p..]);
  }

  /** Copy a string from p down to i. */
  method CopyString(json: array<byte>, i0: nat, p0: nat, ghost text: seq<byte>, ghost out0: seq<byte>)
    returns (i: nat, p: nat, ghost out: seq<byte>)
    requires Half(json, text, out0, i0, p0) && p0 < |text| && StringLength(text[p0 + 1..]).Some?
    modifies json
    ensures Half(json, text, out, i, p) && p == p0 + 1 + StringLength(text[p0 + 1..]).value
    ensures out == out0 + text[p0..p]
  {
    hide Half, StringLength;
    Move(json, i0, p0, text, out0);
    ghost var first := [text[p0]];
    i, p, out := CopyChars(json, i0 + 1, p0 + 1, text, out0 + first);
    assert first == text[p0..p0 + 1];
    Glue(out0, text, p0, p0 + 1, p);
    Move(json, i, p, text, out);
    Snoc(out0, text, p0, p);
    i, p, out := i + 1, p + 1, out + [text[p]];
  }

  lemma Closed(s: seq<byte>)
    requires StringLength(s).Some? && (At(s, 0) == 0 || At(s, 0) == QUOTE)
    ensures StringLength(s) == Some(1) && s != []
  {
  }

  lemma Glue(a: seq<byte>, text: seq<byte>, p: nat, q: nat, r: nat)
    requires p <= q <= r <= |text|
    ensures a + text[p..q] + text[q..r] == a + text[p..r]
  {
    assert text[p..q] + text[q..r] == text[p..r];
    Append(a, text[p..q], text[q..r]);
  }

  lemma Snoc(a: seq<byte>, text: seq<byte>, p: nat, q: nat)
    requires p <= q < |text|
    ensures a + text[p..q] + [text[q]] == a + text[p..q + 1]
  {
    assert text[p..q] + [text[q]] == text[p..q + 1];
    Append(a, text[p..q], [text[q]]);
  }

  /** What one turn of the loop does to the text that is left. */
  lemma MinifiedUnfold(s: seq<byte>)
    requires At(s, 0) != 0 && Minified(s).Some?
    ensures var c := At(s, 0);
            if IsBlank(c) then Minified(s) == Minified(s[1..])
            else if c == 47 && At(s, 1) == 47 then Minified(s) == Minified(AfterLine(s))
            else if c == 47 && At(s, 1) == 42 then AfterBlock(s).Some? && Minified(s) == Minified(AfterBlock(s).value)
            else if c == QUOTE then
              var n := StringLength(s[1..]);
              n.Some? && Minified(s) == Prepend(s[..n.value + 1], Minified(s[n.value + 1..]))
            else Minified(s) == Prepend([c], Minified(s[1..]))
  {
  }

  /** One turn of the loop. */
  method MinifyStep(json: array<byte>, i0: nat, p0: nat, ghost text: seq<byte>, ghost out0: seq<byte>)
    returns (i: nat, p: nat, ghost out: seq<byte>)
    requires Half(json, text, out0, i0, p0) && json[p0] != 0 && Minified(text[p0..]).Some?
    modifies json
    ensures Half(json, text, out, i, p) && p0 < p
    ensures Prepend(out0, Minified(text[p0..])) == Prepend(out, Minified(text[p..]))
  {
    hide Half, Minified;
    i, p, out := i0, p0, out0;
    Looks(json, text, out, i, p);
    var c := json[p];
    ghost var s := text[p..];
    MinifiedUnfold(s);
    if IsBlank(c) {
      Advance(json, i, p, text, out);
      p := p + 1;
    } else if c == 47 && json[p + 1] == 47 {
      p := SkipLine(json, i, p, text, out);
    } else if c == 47 && json[p + 1] == 42 {
      p := SkipBlock(json, i, p, text, out);
    } else if c == QUOTE {
      ghost var k := StringLength(s[1..]).value + 1;
      PrependTwice(out0, s[..k], Minified(s[k..]));
      assert s[..k] == text[p0..p0 + k] && s[k..] == text[p0 + k..];
      i, p, out := CopyString(json, i, p, text, out);
    } else {
      PrependTwice(out0, [c], Minified(s[1..]));
      Move(json, i, p, text, out);
      i, p, out := i + 1, p + 1, out + [text[p]];
    }
  }

  lemma Advance(json: array<byte>, i: nat, p: nat, text: seq<byte>, out: seq<byte>)
    requires Half(json, text, out, i, p) && p < |text|
    ensures Half(json, text, out, i, p + 1)
  {
  }

  /** cJSON_Minify of the text json[..n]; the result ends with a zero byte at m. */
  method Minify(json: array<byte>, ghost n: nat) returns (m: nat)
    requires n < json.Length && json[n] == 0 && Minified(json[..n]).Some?
    modifies json
    ensures m <= n && json[m] == 0 && Some(json[..m]) == old(Minified(json[..n]))
  {
    ghost var text := json[..n];
    ghost var out: seq<byte> := [];
    var i, p := 0, 0;
    PrependNone(Minified(text));
    assert text[0..] == text;
    hide Minified;
    while json[p] != 0
      invariant Half(json, text, out, i, p)
      invariant Minified(text) == Prepend(out, Minified(text[p..]))
      decreases |text| - p
    {
      i, p, out := MinifyStep(json, i, p, text, out);
    }
    Looks(json, text, out, i, p);
    AtEnd(text[p..]);
    json[i] := 0;
    m := i;
    assert json[..m] == out == out + [];
  }

  lemma AtEnd(s: seq<byte>)
    requires At(s, 0) == 0
    ensures Minified(s) == Some([])
  {
  }
}
