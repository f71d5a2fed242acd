/** The json-c serializer: the text of a value under every combination of white space flags. */
module JsonSerializer {
  import opened Bytes
  import opened OrderedMap
  import opened JsonValue

  datatype Flags = Flags(spaced: bool, pretty: bool, prettyTab: bool, noSlashEscape: bool)

  const SPACE: byte := 32
  const TAB: byte := 9

  function Repeat(b: byte, n: nat): seq<byte> {
    seq(n, _ => b)
  }

  function When(p: bool, s: seq<byte>): seq<byte> {
    if p then s else []
  }

  function Indent(fl: Flags, level: nat): seq<byte> {
    When(fl.pretty, if fl.prettyTab then Repeat(TAB, level) else Repeat(SPACE, 2 * level))
  }

  // ----- strings

  /** The letter of a two-character escape. */
  function Letter(fl: Flags, b: byte): Option<byte> {
    if b == 8 then Some(98)
    else if b == 10 then Some(110)
    else if b == 13 then Some(114)
    else if b == 9 then Some(116)
    else if b == 12 then Some(102)
    else if b == 34 || b == 92 || (b == 47 && !fl.noSlashEscape) then Some(b)
    else None
  }

  function EscapeByte(fl: Flags, b: byte): seq<byte> {
    if Letter(fl, b).Some? then [92, Letter(fl, b).value]
    else if b < 32 then [92, 117, 48, 48, HexDigit(b / 16), HexDigit(b % 16)]
    else [b]
  }

  function Escape(fl: Flags, s: seq<byte>): seq<byte> {
    if s == [] then [] else Escape(fl, s[..|s| - 1]) + EscapeByte(fl, s[|s| - 1])
  }

  function Quoted(fl: Flags, s: seq<byte>): seq<byte> {
    [34] + Escape(fl, s) + [34]
  }

  // ----- values

  function IntText(i: int): seq<byte> {
    if i < 0 then [45] + Digits(-i) else Digits(i)
  }

  function BoolText(b: bool): seq<byte> {
    if b then [116, 114, 117, 101] else [102, 97, 108, 115, 101]
  }

  function Open(fl: Flags): seq<byte> {
    When(fl.pretty, [LF])
  }

  /** White space in front of an element at the given level. */
  function Before(fl: Flags, level: nat): seq<byte> {
    When(fl.spaced, [SPACE]) + Indent(fl, level)
  }

  /** White space in front of the closing bracket. */
  function Closing(fl: Flags, level: nat, hadChildren: bool): seq<byte> {
    When(fl.pretty, When(hadChildren, [LF]) + Indent(fl, level)) + When(fl.spaced, [SPACE])
  }

  function Text(fl: Flags, v: Value, level: nat): seq<byte>
    decreases v, 0
  {
    match v
    case Null => [110, 117, 108, 108]
    case Bool(b) => BoolText(b)
    case Int(i) => IntText(i)
    case Double(text) => text
    case Str(s) => Quoted(fl, s)
    case Arr(items) =>
      [91] + Open(fl) + ItemsText(fl, items, level + 1) + Closing(fl, level, items != []) + [93]
    case Obj(fields) =>
      [123] + Open(fl) + FieldsText(fl, fields, level + 1) + Closing(fl, level, fields != []) + [125]
  }

  function ItemsText(fl: Flags, items: seq<Value>, level: nat): seq<byte>
    decreases items, 1
  {
    if items == [] then []
    else
      var n := |items| - 1;
      ItemsText(fl, items[..n], level) + Separator(fl, n) + Before(fl, level) + Text(fl, items[n], level)
  }

  function FieldsText(fl: Flags, fields: seq<Pair<Key, Value>>, level: nat): seq<byte>
    decreases fields, 1
  {
    if fields == [] then []
    else
      var n := |fields| - 1;
      FieldsText(fl, fields[..n], level) + Separator(fl, n) + Before(fl, level) + FieldText(fl, fields[n], level)
  }

  function FieldText(fl: Flags, f: Pair<Key, Value>, level: nat): seq<byte>
    decreases f, 1
  {
    Quoted(fl, f.key) + [58] + When(fl.spaced, [SPACE]) + Text(fl, f.value, level)
  }

  /** What stands between an element and the one before it. */
  function Separator(fl: Flags, index: nat): seq<byte> {
    When(index > 0, [44] + Open(fl))
  }

  // ----- the code that appends to a print buffer

  lemma EscapeNext(fl: Flags, s: seq<byte>, n: nat)
    requires n < |s|
    ensures Escape(fl, s[..n + 1]) == Escape(fl, s[..n]) + EscapeByte(fl, s[n])
  {
    assert s[..n + 1][..n] == s[..n];
  }

  /** Flush the pending run of plain bytes, then write the escape. */
  method AppendEscape(pb0: seq<byte>, run: seq<byte>, c: byte, fl: Flags) returns (pb: seq<byte>)
    requires !IsPlain(fl, c)
    ensures pb == pb0 + (run + EscapeByte(fl, c))
  {
    pb := pb0;
    if |run| > 0 { pb := pb + run; }
    if Letter(fl, c).Some? {
      pb := pb + [92, Letter(fl, c).value];
    } else {
      pb := pb + [92, 117, 48, 48, HexDigit(c / 16), HexDigit(c % 16)];
    }
  }

  predicate IsPlain(fl: Flags, b: byte) {
    Letter(fl, b).None? && b >= 32
  }

  lemma PlainStays(fl: Flags, b: byte)
    ensures IsPlain(fl, b) ==> EscapeByte(fl, b) == [b]
  {
  }

  /** One more byte after the escapes `done` and the plain run str[start..pos]. */
  lemma EscapeStep(fl: Flags, str: seq<byte>, done: seq<byte>, start: nat, pos: nat)
    requires start <= pos < |str| && Escape(fl, str[..pos]) == done + str[start..pos]
    ensures IsPlain(fl, str[pos]) ==> Escape(fl, str[..pos + 1]) == done + str[start..pos + 1]
    ensures !IsPlain(fl, str[pos]) ==>
              Escape(fl, str[..pos + 1]) == done + (str[start..pos] + EscapeByte(fl, str[pos])) + str[pos + 1..pos + 1]
  {
    hide Escape, EscapeByte, IsPlain;
    EscapeNext(fl, str, pos);
    PlainStays(fl, str[pos]);
    var run, e := str[start..pos], EscapeByte(fl, str[pos]);
    assert str[start..pos + 1] == run + [str[pos]] && str[pos + 1..pos + 1] == [];
    Append(done, run, e);
    assert done + (run + e) + [] == done + (run + e);
  }

  lemma NoEscape(fl: Flags)
    ensures Escape(fl, []) == []
  {
  }

  /** Runs of plain bytes are appended in one piece. */
  method EscapeStr(pb0: seq<byte>, str: seq<byte>, fl: Flags) returns (pb: seq<byte>)
    ensures pb == pb0 + Escape(fl, str)
  {
    hide Escape, EscapeByte, Letter;
    pb := pb0;
    var pos, start := 0, 0;
    ghost var done: seq<byte> := [];
    NoEscape(fl);
    assert str[..0] == [] && str[0..0] == [] && done + str[0..0] == [];
    while pos < |str|
      invariant 0 <= start <= pos <= |str|
      invariant pb == pb0 + done
      invariant Escape(fl, str[..pos]) == done + str[start..pos]
    {
      var c := str[pos];
      EscapeStep(fl, str, done, start, pos);
      if !IsPlain(fl, c) {
        Append(pb0, done, str[start..pos] + EscapeByte(fl, c));
        pb := AppendEscape(pb, str[start..pos], c, fl);
        done := done + (str[start..pos] + EscapeByte(fl, c));
        pos := pos + 1;
        start := pos;
      } else {
        pos := pos + 1;
      }
    }
    assert str[..pos] == str;
    Append(pb0, done, str[start..pos]);
    if pos - start > 0 {
      pb := pb + str[start..pos];
    } else {
      assert str[start..pos] == [] && pb + [] == pb;
    }
  }

  method WriteIndent(pb0: seq<byte>, level: nat, fl: Flags) returns (pb: seq<byte>)
    ensures pb == pb0 + Indent(fl, level)
  {
    pb := pb0;
    if fl.pretty {
      if fl.prettyTab {
        pb := pb + Repeat(TAB, level);
      } else {
        pb := pb + Repeat(SPACE, level * 2);
      }
    }
  }

  method WriteBefore(pb0: seq<byte>, had: bool, level: nat, fl: Flags) returns (pb: seq<byte>)
    ensures forall i :: had == (i > 0) ==> pb == pb0 + (Separator(fl, i) + Before(fl, level))
  {
    pb := pb0;
    if had {
      pb := pb + [44];
      if fl.pretty { pb := pb + [LF]; }
    }
    if fl.spaced { pb := pb + [SPACE]; }
    pb := WriteIndent(pb, level, fl);
  }

  method WriteClosing(pb0: seq<byte>, had: bool, level: nat, fl: Flags, bracket: byte) returns (pb: seq<byte>)
    ensures pb == pb0 + (Closing(fl, level, had) + [bracket])
  {
    pb := pb0;
    if fl.pretty {
      if had { pb := pb + [LF]; }
      pb := WriteIndent(pb, level, fl);
    }
    if fl.spaced { pb := pb + [SPACE, bracket]; } else { pb := pb + [bracket]; }
  }

  /** json_object_to_json_string_ext: the serializers, appending to one buffer. */
  method Write(pb0: seq<byte>, v: Value, level: nat, fl: Flags) returns (pb: seq<byte>)
    ensures pb == pb0 + Text(fl, v, level)
    decreases v, 0
  {
    match v
    case Null => pb := pb0 + [110, 117, 108, 108];
    case Bool(b) => pb := pb0 + BoolText(b);
    case Int(i) => pb := pb0 + IntText(i);
    case Double(text) => pb := pb0 + text;
    case Str(s) =>
      pb := EscapeStr(pb0 + [34], s, fl);
      pb := pb + [34];
    case Arr(items) => pb := WriteArray(pb0, items, level, fl);
    case Obj(fields) => pb := WriteObject(pb0, fields, level, fl);
  }

  lemma ItemsNext(fl: Flags, items: seq<Value>, n: nat, level: nat)
    requires n < |items|
    ensures ItemsText(fl, items[..n + 1], level)
            == ItemsText(fl, items[..n], level) + (Separator(fl, n) + Before(fl, level)) + Text(fl, items[n], level)
  {
    hide Before, Separator, Text;
    assert items[..n + 1][..n] == items[..n];
    Append(ItemsText(fl, items[..n], level), Separator(fl, n), Before(fl, level));
  }

  lemma FieldsNext(fl: Flags, fields: seq<Pair<Key, Value>>, n: nat, level: nat)
    requires n < |fields|
    ensures FieldsText(fl, fields[..n + 1], level)
            == FieldsText(fl, fields[..n], level) + (Separator(fl, n) + Before(fl, level)) + FieldText(fl, fields[n], level)
  {
    hide Before, Separator, FieldText, Text;
    assert fields[..n + 1][..n] == fields[..n];
    Append(FieldsText(fl, fields[..n], level), Separator(fl, n), Before(fl, level));
  }

  lemma NoText(fl: Flags, level: nat)
    ensures ItemsText(fl, [], level) == [] && FieldsText(fl, [], level) == []
  {
  }

  method WriteItems(pb0: seq<byte>, items: seq<Value>, level: nat, fl: Flags) returns (pb: seq<byte>)
    ensures pb == pb0 + ItemsText(fl, items, level)
    decreases items, 2
  {
    hide ItemsText, Text, Before, Separator;
    pb := pb0;
    var had := false;
    NoText(fl, level);
    for ii := 0 to |items|
      invariant had == (ii > 0)
      invariant pb == pb0 + ItemsText(fl, items[..ii], level)
    {
      ItemsNext(fl, items, ii, level);
      ghost var done := ItemsText(fl, items[..ii], level);
      ghost var before := Separator(fl, ii) + Before(fl, level);
      Append(pb0, done, before);
      Append(pb0, done + before, Text(fl, items[ii], level));
      pb := WriteBefore(pb, had, level, fl);
      had := true;
      pb := Write(pb, items[ii], level, fl);
    }
    assert items[..|items|] == items;
  }

  method WriteArray(pb0: seq<byte>, items: seq<Value>, level: nat, fl: Flags) returns (pb: seq<byte>)
    ensures pb == pb0 + Text(fl, Arr(items), level)
    decreases items, 3
  {
    hide ItemsText, Closing;
    pb := pb0 + [91];
    if fl.pretty { pb := pb + [LF]; }
    pb := WriteItems(pb, items, level + 1, fl);
    pb := WriteClosing(pb, items != [], level, fl, 93);
  }

  method WriteFields(pb0: seq<byte>, fields: seq<Pair<Key, Value>>, level: nat, fl: Flags) returns (pb: seq<byte>)
    ensures pb == pb0 + FieldsText(fl, fields, level)
    decreases fields, 2
  {
    hide FieldsText, FieldText, Text, Before, Separator;
    pb := pb0;
    var had := false;
    NoText(fl, level);
    for ii := 0 to |fields|
      invariant had == (ii > 0)
      invariant pb == pb0 + FieldsText(fl, fields[..ii], level)
    {
      FieldsNext(fl, fields, ii, level);
      ghost var done := FieldsText(fl, fields[..ii], level);
      ghost var before := Separator(fl, ii) + Before(fl, level);
      Append(pb0, done, before);
      Append(pb0, done + before, FieldText(fl, fields[ii], level));
      pb := WriteBefore(pb, had, level, fl);
      had := true;
      pb := WriteField(pb, fields[ii], level, fl);
    }
    assert fields[..|fields|] == fields;
  }

  method WriteObject(pb0: seq<byte>, fields: seq<Pair<Key, Value>>, level: nat, fl: Flags) returns (pb: seq<byte>)
    ensures pb == pb0 + Text(fl, Obj(fields), level)
    decreases fields, 3
  {
    hide FieldsText, Closing;
    pb := pb0 + [123];
    if fl.pretty { pb := pb + [LF]; }
    pb := WriteFields(pb, fields, level + 1, fl);
    pb := WriteClosing(pb, fields != [], level, fl, 125);
  }

  method WriteField(pb0: seq<byte>, f: Pair<Key, Value>, level: nat, fl: Flags) returns (pb: seq<byte>)
    ensures pb == pb0 + FieldText(fl, f, level)
    decreases f, 1
  {
    hide Text, Escape;
    pb := EscapeStr(pb0 + [34], f.key, fl);
    if fl.spaced { pb := pb + [34, 58, SPACE]; } else { pb := pb + [34, 58]; }
    assert pb == pb0 + (Quoted(fl, f.key) + [58] + When(fl.spaced, [SPACE]));
    pb := Write(pb, f.value, level, fl);
  }
}
