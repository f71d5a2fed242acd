/**
 The printers of cJSON: each computes the length of its buffer first, then fills it. Every
 write is within the buffer, and the C string in it is the text of the tree.
 */
module CJsonPrint {
  import opened Bytes
  import opened CJsonText

  /** The length print_string_ptr counts for a byte. */
  function CountedLength(c: byte): nat {
    if c == QUOTE || c == BACKSLASH || c == 8 || c == 12 || c == 10 || c == 13 || c == 9 then 2
    else if c < 32 then 6
    else 1
  }

  lemma CountedIsEscaped(c: byte)
    ensures CountedLength(c) == |EscapeByte(c)|
  {
  }

  /** The counting loop of print_string_ptr. */
  method CountString(str: seq<byte>) returns (len: nat)
    ensures len == |Escape(str)|
  {
    len := 0;
    assert str[0..] == str;
    for i := 0 to |str|
      invariant len + |Escape(str[i..])| == |Escape(str)|
    {
      assert str[i..][1..] == str[i + 1..];
      CountedIsEscaped(str[i]);
      hide EscapeByte, CountedLength;
      len := len + CountedLength(str[i]);
    }
  }

  /** The writing loop of print_string_ptr; sprintf writes the \u escapes and a NUL behind them. */
  method FillString(out: array<byte>, str: seq<byte>) returns (ptr: nat)
    requires out.Length == |Escape(str)| + 3
    modifies out
    ensures ptr == 1 + |Escape(str)| && out[..ptr] == [QUOTE] + Escape(str)
  {
    hide EscapeByte;
    PutByte(out, 0, QUOTE);
    ptr := 1;
    assert str[0..] == str;
    for i := 0 to |str|
      invariant 1 <= ptr && ptr + |Escape(str[i..])| == |Escape(str)| + 1
      invariant out[..ptr] + Escape(str[i..]) == [QUOTE] + Escape(str)
    {
      assert str[i..][1..] == str[i + 1..];
      Append(out[..ptr], EscapeByte(str[i]), Escape(str[i + 1..]));
      var e := EscapeByte(str[i]);
      if |e| == 6 {
        Print(out, ptr, e);
      } else {
        Copy(out, ptr, e);
      }
      ptr := ptr + |e|;
    }
    assert out[..ptr] + [] == out[..ptr];
  }

  /** print_string_ptr: counting, then writing. */
  method PrintString(str: seq<byte>) returns (text: seq<byte>)
    ensures text == Quoted(str)
  {
    var len := CountString(str);
    var out := new byte[len + 3];
    var ptr := FillString(out, str);
    hide Escape;
    PutByte(out, ptr, QUOTE);
    ptr := ptr + 1;
    text := out[..ptr];
    out[ptr] := 0;
  }

  /** The length counted for a list of entries: each with `extra` more bytes. */
  function Sum(es: seq<seq<byte>>, extra: nat): nat {
    if es == [] then 0 else |es[0]| + extra + Sum(es[1..], extra)
  }

  lemma {:induction false} SumSnoc(es: seq<seq<byte>>, e: seq<byte>, extra: nat)
    ensures Sum(es + [e], extra) == Sum(es, extra) + |e| + extra
  {
    if es == [] {
      assert es + [e] == [e];
    } else {
      assert (es + [e])[1..] == es[1..] + [e];
      SumSnoc(es[1..], e, extra);
    }
  }

  method PutTabs(out: array<byte>, ptr0: nat, n: int) returns (ptr: nat)
    requires ptr0 + |Tabs(n)| <= out.Length
    modifies out
    ensures ptr == ptr0 + |Tabs(n)| && out[..ptr] == old(out[..ptr0]) + Tabs(n)
  {
    ptr := ptr0;
    var i := 0;
    while i < n
      invariant 0 <= i && (i <= n || i == 0) && ptr == ptr0 + i
      invariant out[..ptr] == old(out[..ptr0]) + Tabs(i)
    {
      assert Tabs(i + 1) == Tabs(i) + [TAB];
      PutByte(out, ptr, TAB);
      i, ptr := i + 1, ptr + 1;
    }
  }

  // ----- numbers

  function Power(k: nat): nat {
    if k == 0 then 1 else 10 * Power(k - 1)
  }

  lemma {:induction false} FewDigits(n: nat, k: nat)
    requires 0 < k && n < Power(k)
    ensures |Digits(n)| <= k
  {
    if k > 1 && n >= 10 {
      FewDigits(n / 10, k - 1);
    }
  }

  /** print_number for an int: its text and the NUL fit 21 bytes. */
  method PrintNumber(n: int) returns (text: seq<byte>)
    requires INT_MIN <= n <= INT_MAX
    ensures text == NumberText(n) && |text| <= 11
  {
    assert Power(10) == 10_000_000_000;
    FewDigits(if n < 0 then -n else n, 10);
    hide Digits, Power;
    var out := new byte[21];
    Print(out, 0, NumberText(n));
    text := out[..|NumberText(n)|];
  }

  // ----- values and arrays

  method PrintValue(v: Node, depth: nat, fmt: bool) returns (text: seq<byte>)
    requires Plain(v)
    ensures text == Text(v, depth, fmt)
    decreases v
  {
    match v
    case Null => text := NULL_WORD;
    case False => text := FALSE_WORD;
    case True => text := TRUE_WORD;
    case Number(n) => text := PrintNumber(n);
    case String(s) => text := PrintString(s);
    case Array(items) => text := PrintArray(items, depth, fmt);
    case Object(fields) => text := PrintObject(fields, depth, fmt);
  }

  /** The first loop of print_array: the texts of the items and the length. */
  method GatherItems(items: seq<Node>, depth: nat, fmt: bool) returns (entries: seq<seq<byte>>, len: nat)
    requires forall x <- items :: Plain(x)
    ensures |entries| == |items| && forall k :: 0 <= k < |items| ==> entries[k] == Text(items[k], depth, fmt)
    ensures len == 5 + Sum(entries, if fmt then 3 else 2)
    decreases items, 0
  {
    entries, len := [], 5;
    for i := 0 to |items|
      invariant |entries| == i && forall k :: 0 <= k < i ==> entries[k] == Text(items[k], depth, fmt)
      invariant len == 5 + Sum(entries, if fmt then 3 else 2)
    {
      var ret := PrintValue(items[i], depth, fmt);
      SumSnoc(entries, ret, if fmt then 3 else 2);
      entries := entries + [ret];
      len := len + |ret| + 2 + (if fmt then 1 else 0);
    }
  }

  /** One entry of an array, with the comma behind it. */
  method ComposeItem(out: array<byte>, ptr0: nat, items: seq<Node>, entry: seq<byte>, last: bool, fmt: bool, ghost depth: nat)
    returns (ptr: nat)
    requires items != [] && entry == Text(items[0], depth, fmt) && last == (|items| == 1)
    requires ptr0 + |entry| + (if fmt then 3 else 2) <= out.Length
    modifies out
    ensures ptr0 <= ptr <= ptr0 + |entry| + (if fmt then 2 else 1)
    ensures ptr <= out.Length && out[..ptr] + ItemsText(items[1..], depth, fmt) == old(out[..ptr0]) + ItemsText(items, depth, fmt)
  {
    ptr := ptr0;
    ghost var was := out[..ptr0];
    Print(out, ptr, entry);
    ptr := ptr + |entry|;
    if !last {
      PutByte(out, ptr, COMMA);
      ptr := ptr + 1;
      if fmt {
        PutByte(out, ptr, 32);
        ptr := ptr + 1;
      }
      ghost var done := out[..ptr];
      out[ptr] := 0;
      assert out[..ptr] == done == was + entry + [COMMA] + If(fmt, [32]);
      Append(was, entry, [COMMA]);
      Append(was, entry + [COMMA], If(fmt, [32]));
      Append(was, entry + [COMMA] + If(fmt, [32]), ItemsText(items[1..], depth, fmt));
    } else {
      assert items[1..] == [] && out[..ptr] + [] == out[..ptr];
    }
  }

  /** The second loop of print_array: all items. */
  method ComposeItems(out: array<byte>, ptr0: nat, items: seq<Node>, entries: seq<seq<byte>>, depth: nat, fmt: bool)
    returns (ptr: nat)
    requires |entries| == |items| && forall k :: 0 <= k < |items| ==> entries[k] == Text(items[k], depth, fmt)
    requires ptr0 + Sum(entries, if fmt then 3 else 2) <= out.Length
    modifies out
    ensures ptr0 <= ptr <= ptr0 + Sum(entries, if fmt then 3 else 2)
    ensures out[..ptr] == old(out[..ptr0]) + ItemsText(items, depth, fmt)
  {
    ptr := ptr0;
    ghost var was, extra := out[..ptr0], if fmt then 3 else 2;
    assert items[0..] == items && entries[0..] == entries;
    for i := 0 to |items|
      invariant ptr0 <= ptr && ptr + Sum(entries[i..], extra) <= ptr0 + Sum(entries, extra)
      invariant out[..ptr] + ItemsText(items[i..], depth, fmt) == was + ItemsText(items, depth, fmt)
    {
      assert entries[i..][1..] == entries[i + 1..] && items[i..][1..] == items[i + 1..];
      hide ItemsText, Text;
      ptr := ComposeItem(out, ptr, items[i..], entries[i], i == |items| - 1, fmt, depth);
    }
    assert out[..ptr] + [] == out[..ptr];
  }

  method PrintArray(items: seq<Node>, depth: nat, fmt: bool) returns (text: seq<byte>)
    requires forall x <- items :: Plain(x)
    ensures text == Text(Array(items), depth, fmt)
    decreases items, 1
  {
    if |items| == 0 {
      text := [OPEN, CLOSE];
      return;
    }
    hide Plain;
    var entries, len := GatherItems(items, depth + 1, fmt);
    text := ComposeArray(items, entries, len, depth + 1, fmt);
    ArrayText(items, depth, fmt);
  }

  /** The buffer of print_array from its bracket to its NUL. */
  method ComposeArray(items: seq<Node>, entries: seq<seq<byte>>, len: nat, depth: nat, fmt: bool) returns (text: seq<byte>)
    requires |entries| == |items| && forall k :: 0 <= k < |items| ==> entries[k] == Text(items[k], depth, fmt)
    requires len == 5 + Sum(entries, if fmt then 3 else 2)
    ensures text == [OPEN] + ItemsText(items, depth, fmt) + [CLOSE]
  {
    hide ItemsText, Sum, Text;
    var out := new byte[len];
    PutByte(out, 0, OPEN);
    var ptr := ComposeItems(out, 1, items, entries, depth, fmt);
    PutByte(out, ptr, CLOSE);
    ptr := ptr + 1;
    text := out[..ptr];
    out[ptr] := 0;
  }

  // ----- objects

  /** The length counted for a list of fields. */
  function SumBoth(names: seq<seq<byte>>, es: seq<seq<byte>>, extra: nat): nat
    requires |names| == |es|
  {
    if es == [] then 0 else |es[0]| + |names[0]| + extra + SumBoth(names[1..], es[1..], extra)
  }

  lemma {:induction false} SumBothSnoc(names: seq<seq<byte>>, es: seq<seq<byte>>, n: seq<byte>, e: seq<byte>, extra: nat)
    requires |names| == |es|
    ensures SumBoth(names + [n], es + [e], extra) == SumBoth(names, es, extra) + |e| + |n| + extra
  {
    if es == [] {
      assert es + [e] == [e] && names + [n] == [n];
    } else {
      assert (es + [e])[1..] == es[1..] + [e] && (names + [n])[1..] == names[1..] + [n];
      SumBothSnoc(names[1..], es[1..], n, e, extra);
    }
  }

  method PrintFieldValue(f: Field, depth: nat, fmt: bool) returns (text: seq<byte>)
    requires PlainField(f)
    ensures text == Text(f.value, depth, fmt)
    decreases f
  {
    text := PrintValue(f.value, depth, fmt);
  }

  /** The first loop of print_object, for children at this depth. */
  method GatherFields(fields: seq<Field>, depth: nat, fmt: bool)
    returns (names: seq<seq<byte>>, entries: seq<seq<byte>>, len: nat)
    requires forall f <- fields :: PlainField(f)
    ensures |names| == |entries| == |fields|
    ensures forall k :: 0 <= k < |fields| ==> names[k] == Quoted(fields[k].name) && entries[k] == Text(fields[k].value, depth, fmt)
    ensures len == 7 + (if fmt then depth else 0) + SumBoth(names, entries, if fmt then 4 + depth else 2)
    decreases fields, 0
  {
    names, entries, len := [], [], 7;
    if fmt {
      len := len + depth;
    }
    ghost var base, extra := len, if fmt then 4 + depth else 2;
    for i := 0 to |fields|
      invariant |names| == |entries| == i
      invariant forall k :: 0 <= k < i ==> names[k] == Quoted(fields[k].name) && entries[k] == Text(fields[k].value, depth, fmt)
      invariant len == base + SumBoth(names, entries, extra)
    {
      hide SumBoth, Text, Quoted, PlainField;
      var str := PrintString(fields[i].name);
      var ret := PrintFieldValue(fields[i], depth, fmt);
      SumBothSnoc(names, entries, str, ret, extra);
      names, entries := names + [str], entries + [ret];
      len := len + |ret| + |str| + 2 + (if fmt then 2 + depth else 0);
    }
  }

  /** The name of a field up to its value. */
  method ComposeName(out: array<byte>, ptr0: nat, name: seq<byte>, depth: nat, fmt: bool) returns (ptr: nat)
    requires ptr0 + |name| + (if fmt then depth + 2 else 1) < out.Length
    modifies out
    ensures ptr == ptr0 + |name| + (if fmt then depth + 2 else 1)
    ensures out[..ptr] == old(out[..ptr0]) + (If(fmt, Tabs(depth)) + name + [COLON] + If(fmt, [TAB]))
  {
    ptr := ptr0;
    ghost var was := out[..ptr0];
    if fmt {
      ptr := PutTabs(out, ptr, depth);
    }
    assert out[..ptr] == was + If(fmt, Tabs(depth));
    Print(out, ptr, name);
    ptr := ptr + |name|;
    PutByte(out, ptr, COLON);
    ptr := ptr + 1;
    if fmt {
      PutByte(out, ptr, TAB);
      ptr := ptr + 1;
    }
    assert out[..ptr] == was + If(fmt, Tabs(depth)) + name + [COLON] + If(fmt, [TAB]);
    Append(was, If(fmt, Tabs(depth)), name);
    Append(was, If(fmt, Tabs(depth)) + name, [COLON]);
    Append(was, If(fmt, Tabs(depth)) + name + [COLON], If(fmt, [TAB]));
  }

  /** The value of a field and what follows it. */
  method ComposeEntry(out: array<byte>, ptr0: nat, entry: seq<byte>, last: bool, fmt: bool) returns (ptr: nat)
    requires ptr0 + |entry| + (if fmt then 2 else 1) < out.Length
    modifies out
    ensures ptr0 <= ptr <= ptr0 + |entry| + (if fmt then 2 else 1)
    ensures out[..ptr] == old(out[..ptr0]) + (entry + (if last then [] else [COMMA]) + If(fmt, [NEWLINE]))
  {
    ptr := ptr0;
    ghost var was, comma := out[..ptr0], if last then [] else [COMMA];
    Print(out, ptr, entry);
    ptr := ptr + |entry|;
    if !last {
      PutByte(out, ptr, COMMA);
      ptr := ptr + 1;
    }
    assert out[..ptr] == was + entry + comma;
    if fmt {
      PutByte(out, ptr, NEWLINE);
      ptr := ptr + 1;
    }
    ghost var done := out[..ptr];
    out[ptr] := 0;
    assert out[..ptr] == done == was + entry + comma + If(fmt, [NEWLINE]);
    Append(was, entry, comma);
    Append(was, entry + comma, If(fmt, [NEWLINE]));
  }

  method ComposeField(out: array<byte>, ptr0: nat, f: Field, name: seq<byte>, entry: seq<byte>, last: bool, depth: nat, fmt: bool)
    returns (ptr: nat)
    requires name == Quoted(f.name) && entry == Text(f.value, depth, fmt)
    requires ptr0 + |name| + |entry| + (if fmt then 4 + depth else 2) < out.Length
    modifies out
    ensures ptr0 <= ptr <= ptr0 + |name| + |entry| + (if fmt then 4 + depth else 2)
    ensures out[..ptr] == old(out[..ptr0]) + FieldText(f, depth, fmt, last)
  {
    ghost var was := out[..ptr0];
    ptr := ComposeName(out, ptr0, name, depth, fmt);
    ptr := ComposeEntry(out, ptr, entry, last, fmt);
    hide Text, Quoted;
    ghost var a := If(fmt, Tabs(depth)) + name + [COLON] + If(fmt, [TAB]);
    ghost var comma := if last then [] else [COMMA];
    Append(was, a, entry + comma + If(fmt, [NEWLINE]));
    Append(a, entry, comma);
    Append(a, entry + comma, If(fmt, [NEWLINE]));
    assert FieldText(f, depth, fmt, last) == a + entry + comma + If(fmt, [NEWLINE]);
  }

  method PrintEmptyObject(depth: nat, fmt: bool) returns (text: seq<byte>)
    ensures text == Text(Object([]), depth, fmt)
  {
    var out := new byte[if fmt then depth + 4 else 3];
    PutByte(out, 0, LBRACE);
    var ptr := 1;
    if fmt {
      PutByte(out, ptr, NEWLINE);
      ptr := PutTabs(out, ptr + 1, depth - 1);
      Append([LBRACE], [NEWLINE], Tabs(depth - 1));
    }
    assert out[..ptr] == [LBRACE] + If(fmt, [NEWLINE] + Tabs(depth - 1));
    PutByte(out, ptr, RBRACE);
    ptr := ptr + 1;
    text := out[..ptr];
    out[ptr] := 0;
  }

  /** The second loop of print_object: all fields. */
  method ComposeFields(out: array<byte>, ptr0: nat, fields: seq<Field>, names: seq<seq<byte>>, entries: seq<seq<byte>>, depth: nat, fmt: bool)
    returns (ptr: nat)
    requires |names| == |entries| == |fields|
    requires forall k :: 0 <= k < |fields| ==> names[k] == Quoted(fields[k].name) && entries[k] == Text(fields[k].value, depth, fmt)
    requires ptr0 + SumBoth(names, entries, if fmt then 4 + depth else 2) < out.Length
    modifies out
    ensures ptr0 <= ptr <= ptr0 + SumBoth(names, entries, if fmt then 4 + depth else 2)
    ensures out[..ptr] == old(out[..ptr0]) + FieldsText(fields, depth, fmt)
  {
    ptr := ptr0;
    ghost var was, extra := out[..ptr0], if fmt then 4 + depth else 2;
    assert fields[0..] == fields && entries[0..] == entries && names[0..] == names;
    for i := 0 to |fields|
      invariant ptr0 <= ptr && ptr + SumBoth(names[i..], entries[i..], extra) <= ptr0 + SumBoth(names, entries, extra)
      invariant out[..ptr] + FieldsText(fields[i..], depth, fmt) == was + FieldsText(fields, depth, fmt)
    {
      assert entries[i..][1..] == entries[i + 1..] && names[i..][1..] == names[i + 1..] && fields[i..][1..] == fields[i + 1..];
      ghost var before := out[..ptr];
      ptr := ComposeField(out, ptr, fields[i], names[i], entries[i], i == |fields| - 1, depth, fmt);
      Append(before, FieldText(fields[i], depth, fmt, i == |fields| - 1), FieldsText(fields[i + 1..], depth, fmt));
    }
    assert out[..ptr] + [] == out[..ptr];
  }

  method PrintObject(fields: seq<Field>, depth: nat, fmt: bool) returns (text: seq<byte>)
    requires forall f <- fields :: PlainField(f)
    ensures text == Text(Object(fields), depth, fmt)
    decreases fields, 1
  {
    if |fields| == 0 {
      text := PrintEmptyObject(depth, fmt);
      return;
    }
    hide PlainField;
    var names, entries, len := GatherFields(fields, depth + 1, fmt);
    text := ComposeObject(fields, names, entries, len, depth, fmt);
    ObjectText(fields, depth, fmt);
  }

  /** The buffer of print_object from its brace to its NUL. */
  method ComposeObject(fields: seq<Field>, names: seq<seq<byte>>, entries: seq<seq<byte>>, len: nat, depth: nat, fmt: bool)
    returns (text: seq<byte>)
    requires |names| == |entries| == |fields|
    requires forall k :: 0 <= k < |fields| ==> names[k] == Quoted(fields[k].name) && entries[k] == Text(fields[k].value, depth + 1, fmt)
    requires len == 7 + (if fmt then depth + 1 else 0) + SumBoth(names, entries, if fmt then 5 + depth else 2)
    ensures text == [LBRACE] + If(fmt, [NEWLINE]) + FieldsText(fields, depth + 1, fmt) + If(fmt, Tabs(depth)) + [RBRACE]
  {
    hide FieldsText, SumBoth, Text, Quoted;
    var out := new byte[len];
    PutByte(out, 0, LBRACE);
    var ptr := 1;
    if fmt {
      PutByte(out, ptr, NEWLINE);
      ptr := ptr + 1;
    }
    assert out[..ptr] == [LBRACE] + If(fmt, [NEWLINE]);
    ptr := ComposeFields(out, ptr, fields, names, entries, depth + 1, fmt);
    if fmt {
      ptr := PutTabs(out, ptr, depth);
    }
    assert out[..ptr] == [LBRACE] + If(fmt, [NEWLINE]) + FieldsText(fields, depth + 1, fmt) + If(fmt, Tabs(depth));
    PutByte(out, ptr, RBRACE);
    ptr := ptr + 1;
    text := out[..ptr];
    out[ptr] := 0;
  }
}
