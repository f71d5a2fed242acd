/**
 The parser of cJSON with its cursors and its string buffer. Each method agrees with the
 function on the text that is left.
 */
module CJsonReader {
  import opened Bytes
  import opened CJsonParse
  import opened CJsonText

  /** A result with the place where parsing goes on. */
  datatype Read<+T> = Got(value: T, p: nat) | Failed | Gave

  ghost predicate Agrees<T>(r: Read<T>, text: seq<byte>, spec: Parsed<T>) {
    match r
    case Got(v, p) => p <= |text| && spec == Ok(v, text[p..])
    case Failed => spec == Fail
    case Gave => spec == Unmodelled
  }

  method SkipAt(text: seq<byte>, p0: nat) returns (p: nat)
    requires p0 <= |text|
    ensures p0 <= p <= |text| && text[p..] == Skip(text[p0..])
  {
    p := p0;
    while At(text, p) != 0 && At(text, p) <= 32
      invariant p0 <= p <= |text| && Skip(text[p..]) == Skip(text[p0..])
      decreases |text| - p
    {
      assert text[p..][1..] == text[p + 1..];
      p := p + 1;
    }
  }

  // ----- strings

  /** What the counting loop of parse_string counts; None when a backslash is the last byte. */
  function Counted(s: seq<byte>): Option<nat>
    decreases |s|
  {
    if At(s, 0) == QUOTE || At(s, 0) == 0 then Some(0)
    else if At(s, 0) != BACKSLASH then More(1, Counted(s[1..]))
    else if At(s, 1) == 0 then None
    else More(1, Counted(s[2..]))
  }

  function More(k: nat, n: Option<nat>): Option<nat> {
    if n.None? then None else Some(k + n.value)
  }

  lemma MoreMore(j: nat, k: nat, n: Option<nat>)
    ensures More(j, More(k, n)) == More(j + k, n)
  {
  }

  /** Four hexadecimal digits count one each. */
  lemma HexCounted(s: seq<byte>, p: nat)
    requires HasHex4(s, p)
    ensures Counted(s[p..]) == More(4, Counted(s[p + 4..]))
  {
    HexByteCounted(s, p);
    HexByteCounted(s, p + 1);
    HexByteCounted(s, p + 2);
    HexByteCounted(s, p + 3);
  }

  lemma HexByteCounted(s: seq<byte>, p: nat)
    requires p < |s| && IsHex(s[p])
    ensures Counted(s[p..]) == More(1, Counted(s[p + 1..]))
  {
    assert s[p..][0] == s[p] && s[p..][1..] == s[p + 1..];
  }

  /** A \u escape counts as an escape and its digits. */
  lemma EscapeCounted(s: seq<byte>, p: nat)
    requires p + 2 <= |s| && s[p] == BACKSLASH && s[p + 1] == 117 && HasHex4(s, p + 2)
    ensures Counted(s[p..]) == More(5, Counted(s[p + 6..]))
  {
    var t := s[p..];
    assert t[0] == BACKSLASH && t[1] == 117 && t[2..] == s[p + 2..];
    HexCounted(s, p + 2);
    MoreMore(1, 4, Counted(s[p + 6..]));
  }

  /** No step writes more than was counted for the bytes it reads. */
  lemma StepCounted(s: seq<byte>)
    requires StepOf(s).Step?
    ensures exists k: nat :: |StepOf(s).bytes| <= k && Counted(s) == More(k, Counted(s[StepOf(s).skip..]))
  {
    var t := StepOf(s);
    assert s[0..] == s;
    if At(s, 0) == BACKSLASH && At(s, 1) == 117 {
      EscapeCounted(s, 0);
      assert |t.bytes| <= 4 && (t.skip == 6 ==> |t.bytes| <= 3);
      if t.skip == 12 {
        EscapeCounted(s, 6);
        MoreMore(5, 5, Counted(s[12..]));
        assert Counted(s) == More(10, Counted(s[12..]));
      } else {
        assert Counted(s) == More(5, Counted(s[6..]));
      }
    } else {
      assert Counted(s) == More(1, Counted(s[t.skip..]));
    }
  }

  /** When the counting loop runs into the end, so does the copying loop or an earlier escape. */
  lemma {:induction false} UncountedUnmodelled(s: seq<byte>, out: seq<byte>)
    requires Counted(s) == None
    ensures ParseChars(s, out) == Unmodelled
    decreases |s|
  {
    var t := StepOf(s);
    if t.Step? {
      StepCounted(s);
      hide StepOf, Counted;
      UncountedUnmodelled(s[t.skip..], out + t.bytes);
    }
  }

  /** The counting loop. */
  method Count(text: seq<byte>, p0: nat) returns (len: Option<nat>)
    requires p0 <= |text|
    ensures len == Counted(text[p0..])
  {
    var p, n := p0, 0;
    while At(text, p) != QUOTE && At(text, p) != 0
      invariant p0 <= p <= |text| && Counted(text[p0..]) == More(n, Counted(text[p..]))
      decreases |text| - p
    {
      assert text[p..][1..] == text[p + 1..] && At(text[p..], 1) == At(text, p + 1);
      if At(text, p) == BACKSLASH {
        if At(text, p + 1) == 0 {
          return None;
        }
        assert text[p..][2..] == text[p + 2..];
        p := p + 1;
      }
      n, p := n + 1, p + 1;
    }
    len := Some(n);
  }

  lemma CharsUnfold(s: seq<byte>, out: seq<byte>)
    ensures ParseChars(s, out)
            == var t := StepOf(s);
               if t.Broken? then Unmodelled
               else if t.End? then Ok(out, s[t.skip..])
               else ParseChars(s[t.skip..], out + t.bytes)
  {
  }

  /** parse_string: counting, then copying into a buffer that holds what was counted. */
  method ParseStringAt(text: seq<byte>, p0: nat) returns (r: Read<seq<byte>>)
    requires p0 <= |text|
    ensures Agrees(r, text, ParseString(text[p0..]))
    ensures r.Got? ==> r.p > p0
  {
    if At(text, p0) != QUOTE {
      return Failed;
    }
    assert text[p0..][1..] == text[p0 + 1..];
    var len := Count(text, p0 + 1);
    if len == None {
      UncountedUnmodelled(text[p0 + 1..], []);
      return Gave;
    }
    r := CopyChars(text, p0 + 1, len.value);
  }

  /** The copying loop. */
  method CopyChars(text: seq<byte>, p0: nat, len: nat) returns (r: Read<seq<byte>>)
    requires p0 <= |text| && Counted(text[p0..]) == Some(len)
    ensures Agrees(r, text, ParseChars(text[p0..], []))
    ensures r.Got? ==> r.p >= p0
  {
    hide StepOf, Counted, ParseChars;
    var out := new byte[len + 1];
    var p, n := p0, 0;
    ghost var left: nat := len;
    while true
      invariant p0 <= p <= |text| && 0 <= n <= n + left <= len && Counted(text[p..]) == Some(left)
      invariant ParseChars(text[p0..], []) == ParseChars(text[p..], out[..n])
      decreases |text| - p
    {
      ghost var s := text[p..];
      CharsUnfold(s, out[..n]);
      var t := StepOf(text[p..]);
      if t.Broken? {
        return Gave;
      }
      assert t.skip <= |s| && s[t.skip..] == text[p + t.skip..];
      if t.End? {
        out[n] := 0;
        return Got(out[..n], p + t.skip);
      }
      StepCounted(s);
      ghost var k: nat :| |t.bytes| <= k && Counted(s) == More(k, Counted(s[t.skip..]));
      left := left - k;
      Copy(out, n, t.bytes);
      n, p := n + |t.bytes|, p + t.skip;
    }
  }

  // ----- values

  method ParseNumberAt(text: seq<byte>, p0: nat) returns (r: Read<Node>)
    requires p0 <= |text| && (At(text, p0) == 45 || IsDigit(At(text, p0)))
    ensures Agrees(r, text, ParseNumber(text[p0..]))
    ensures r.Got? ==> r.p > p0
  {
    hide Magnitude;
    var p := p0;
    var neg := At(text, p) == 45;
    assert At(text, p0) == At(text[p0..], 0);
    if neg {
      p := p + 1;
    }
    ghost var t := text[p..];
    assert neg ==> text[p0..][1..] == t;
    var n;
    n, p := MagnitudeAt(text, p);
    assert At(text, p) == At(text[p..], 0) && At(text, p + 1) == At(text[p..], 1);
    if (At(text, p) == 46 && IsDigit(At(text, p + 1))) || At(text, p) == 101 || At(text, p) == 69 {
      return Gave;
    }
    var m: int := n;
    r := Got(Number(if neg then -m else m), p);
  }

  method MagnitudeAt(text: seq<byte>, p0: nat) returns (n: nat, p: nat)
    requires p0 <= |text|
    ensures p0 <= p <= |text| && Magnitude(text[p0..]) == (n, text[p..])
    ensures IsDigit(At(text, p0)) ==> p > p0
  {
    hide NatOf, Run;
    p, n := p0, 0;
    assert At(text, p0) == At(text[p0..], 0);
    if At(text, p) == 48 {
      assert text[p0..][1..] == text[p + 1..];
      p := p + 1;
    }
    ghost var u := text[p..];
    assert At(text, p) == At(u, 0);
    if 49 <= At(text, p) <= 57 {
      ghost var q := p;
      n, p := DigitsAt(text, p);
      assert u[..p - q] == text[q..p] && u[p - q..] == text[p..];
    } else {
      assert u[0..] == u && u[..0] == [];
      NatOfNone();
    }
  }

  lemma NatOfNone()
    ensures NatOf([], 0) == 0
  {
  }

  /** A run of digits. */
  method DigitsAt(text: seq<byte>, p0: nat) returns (n: nat, p: nat)
    requires p0 <= |text|
    ensures p0 <= p <= |text| && p - p0 == Run(text[p0..]) && (forall i :: p0 <= i < p ==> IsDigit(text[i]))
    ensures n == NatOf(text[p0..p], 0) && (IsDigit(At(text, p0)) ==> p > p0)
  {
    hide Run;
    p, n := p0, 0;
    NatOfNone();
    assert text[p0..p0] == [];
    hide NatOf;
    while IsDigit(At(text, p))
      invariant p0 <= p <= |text| && forall i :: p0 <= i < p ==> IsDigit(text[i])
      invariant n == NatOf(text[p0..p], 0)
      decreases |text| - p
    {
      NatOfSnoc(text[p0..p], 0, text[p]);
      assert text[p0..p] + [text[p]] == text[p0..p + 1];
      n, p := 10 * n + (text[p] - 48), p + 1;
    }
    RunIs(text, p0, p);
  }

  lemma {:induction false} RunIs(text: seq<byte>, p0: nat, p: nat)
    requires p0 <= p <= |text| && (forall i :: p0 <= i < p ==> IsDigit(text[i])) && !IsDigit(At(text, p))
    ensures Run(text[p0..]) == p - p0
    decreases p - p0
  {
    if p0 < p {
      assert text[p0..][1..] == text[p0 + 1..];
      RunIs(text, p0 + 1, p);
    }
  }

  /** The word at p, as strncmp compares it. */
  method StartsAt(text: seq<byte>, p: nat, w: seq<byte>) returns (b: bool)
    requires p <= |text|
    ensures b == Starts(text[p..], w)
  {
    b := p + |w| <= |text| && text[p..p + |w|] == w;
    assert p + |w| <= |text| ==> text[p..][..|w|] == text[p..p + |w|];
  }

  method ParseValueAt(text: seq<byte>, p: nat) returns (r: Read<Node>)
    requires p <= |text|
    ensures Agrees(r, text, ParseValue(text[p..]))
    ensures r.Got? ==> r.p > p
    decreases |text| - p, 1
  {
    var nil := StartsAt(text, p, NULL_WORD);
    var no := StartsAt(text, p, FALSE_WORD);
    var yes := StartsAt(text, p, TRUE_WORD);
    assert At(text, p) == At(text[p..], 0);
    if nil {
      assert text[p..][4..] == text[p + 4..];
      r := Got(Null, p + 4);
    } else if no {
      assert text[p..][5..] == text[p + 5..];
      r := Got(False, p + 5);
    } else if yes {
      assert text[p..][4..] == text[p + 4..];
      r := Got(True, p + 4);
    } else if At(text, p) == QUOTE {
      var s := ParseStringAt(text, p);
      r := match s case Got(v, q) => Got(String(v), q) case Failed => Failed case Gave => Gave;
    } else if At(text, p) == 45 || IsDigit(At(text, p)) {
      r := ParseNumberAt(text, p);
    } else if At(text, p) == OPEN {
      assert text[p..][1..] == text[p + 1..];
      r := ParseArrayAt(text, p);
    } else if At(text, p) == LBRACE {
      assert text[p..][1..] == text[p + 1..];
      r := ParseObjectAt(text, p);
    } else {
      r := Failed;
    }
  }

  /** What ParseValue does with an opening bracket. */
  function ArraySpec(s: seq<byte>): Parsed<Node>
    requires s != []
  {
    var t := Skip(s[1..]);
    if At(t, 0) == CLOSE then Ok(Array([]), t[1..]) else ParseItems(t, [])
  }

  /** What follows an item. */
  function AfterItem(t: seq<byte>, items: seq<Node>): Parsed<Node> {
    if At(t, 0) == COMMA then ParseItems(t[1..], items)
    else if At(t, 0) == CLOSE then Ok(Array(items), t[1..])
    else Fail
  }

  lemma ItemsUnfold(s: seq<byte>, items: seq<Node>)
    ensures ParseItems(s, items)
            == var v := ParseValue(Skip(s));
               if !v.Ok? then v else AfterItem(Skip(v.rest), items + [v.value])
  {
  }

  /** skip, parse_value, skip. */
  method ItemAt(text: seq<byte>, p: nat, ghost items: seq<Node>) returns (r: Read<Node>)
    requires p <= |text|
    ensures r.Got? ==> p < r.p <= |text| && ParseItems(text[p..], items) == AfterItem(text[r.p..], items + [r.value])
    ensures r.Failed? ==> ParseItems(text[p..], items) == Fail
    ensures r.Gave? ==> ParseItems(text[p..], items) == Unmodelled
    decreases |text| - p, 2
  {
    ItemsUnfold(text[p..], items);
    hide ParseValue, ParseItems, AfterItem;
    var q := SkipAt(text, p);
    r := ParseValueAt(text, q);
    if r.Got? {
      var e := SkipAt(text, r.p);
      r := Got(r.value, e);
    }
  }

  method ParseArrayAt(text: seq<byte>, p0: nat) returns (r: Read<Node>)
    requires p0 < |text|
    ensures Agrees(r, text, ArraySpec(text[p0..]))
    ensures r.Got? ==> r.p > p0
    decreases |text| - p0, 0
  {
    assert text[p0..][1..] == text[p0 + 1..];
    var p := SkipAt(text, p0 + 1);
    if At(text, p) == CLOSE {
      assert text[p..][1..] == text[p + 1..];
      return Got(Array([]), p + 1);
    }
    r := ItemsAt(text, p);
  }

  /** The loop of parse_array over the items. */
  method ItemsAt(text: seq<byte>, p0: nat) returns (r: Read<Node>)
    requires p0 <= |text|
    ensures Agrees(r, text, ParseItems(text[p0..], []))
    ensures r.Got? ==> r.p > p0
    decreases |text| - p0, 3
  {
    hide ParseItems, AfterItem;
    var v := ItemAt(text, p0, []);
    if !v.Got? {
      return v;
    }
    var items := [v.value];
    assert [] + items == items;
    var p := v.p;
    while At(text, p) == COMMA
      invariant p0 < p <= |text| && ParseItems(text[p0..], []) == AfterItem(text[p..], items)
      decreases |text| - p
    {
      AfterComma(text, p, items);
      v := ItemAt(text, p + 1, items);
      if !v.Got? {
        return v;
      }
      items, p := items + [v.value], v.p;
    }
    AfterLast(text, p, items);
    r := if At(text, p) == CLOSE then Got(Array(items), p + 1) else Failed;
  }

  lemma AfterComma(text: seq<byte>, p: nat, items: seq<Node>)
    requires p < |text| && text[p] == COMMA
    ensures AfterItem(text[p..], items) == ParseItems(text[p + 1..], items)
  {
    assert text[p..][1..] == text[p + 1..];
  }

  lemma AfterLast(text: seq<byte>, p: nat, items: seq<Node>)
    requires p <= |text| && At(text, p) != COMMA
    ensures if At(text, p) == CLOSE then AfterItem(text[p..], items) == Ok(Array(items), text[p + 1..])
            else AfterItem(text[p..], items) == Fail
  {
    assert At(text, p) == CLOSE ==> text[p..][1..] == text[p + 1..];
  }

  /** What ParseValue does with an opening brace. */
  function ObjectSpec(s: seq<byte>): Parsed<Node>
    requires s != []
  {
    var t := Skip(s[1..]);
    if At(t, 0) == RBRACE then Ok(Object([]), t[1..]) else ParseFields(t, [])
  }

  function AfterField(t: seq<byte>, fields: seq<Field>): Parsed<Node> {
    if At(t, 0) == COMMA then ParseFields(t[1..], fields)
    else if At(t, 0) == RBRACE then Ok(Object(fields), t[1..])
    else Fail
  }

  lemma FieldsUnfold(s: seq<byte>, fields: seq<Field>)
    ensures ParseFields(s, fields)
            == var k := ParseString(Skip(s));
               if !k.Ok? then (if k.Fail? then Fail else Unmodelled)
               else
                 var c := Skip(k.rest);
                 if At(c, 0) != COLON then Fail
                 else
                   var v := ParseValue(Skip(c[1..]));
                   if !v.Ok? then v else AfterField(Skip(v.rest), fields + [Field(k.value, v.value)])
  {
  }

  /** skip, parse_string, skip, and the colon. */
  method NameAt(text: seq<byte>, p: nat) returns (r: Read<seq<byte>>)
    requires p <= |text|
    ensures var k := ParseString(Skip(text[p..]));
            match r
            case Got(name, q) => p < q <= |text| && k.Ok? && k.value == name && At(Skip(k.rest), 0) == COLON && Skip(k.rest)[1..] == text[q..]
            case Failed => k.Fail? || (k.Ok? && At(Skip(k.rest), 0) != COLON)
            case Gave => k == Unmodelled
  {
    hide ParseString, Skip;
    var q := SkipAt(text, p);
    var k := ParseStringAt(text, q);
    if !k.Got? {
      return k;
    }
    var c := SkipAt(text, k.p);
    assert At(text, c) == At(text[c..], 0);
    if At(text, c) != COLON {
      return Failed;
    }
    assert text[c..][1..] == text[c + 1..];
    r := Got(k.value, c + 1);
  }

  /** A name, a colon and a value, with the blanks around them. */
  method FieldAt(text: seq<byte>, p: nat, ghost fields: seq<Field>) returns (r: Read<Field>)
    requires p <= |text|
    ensures r.Got? ==> p < r.p <= |text| && ParseFields(text[p..], fields) == AfterField(text[r.p..], fields + [r.value])
    ensures r.Failed? ==> ParseFields(text[p..], fields) == Fail
    ensures r.Gave? ==> ParseFields(text[p..], fields) == Unmodelled
    decreases |text| - p, 2
  {
    hide ParseValue, ParseFields, ParseString, AfterField, Skip;
    FieldsUnfold(text[p..], fields);
    var k := NameAt(text, p);
    if !k.Got? {
      return if k.Failed? then Failed else Gave;
    }
    var q := SkipAt(text, k.p);
    var v := ParseValueAt(text, q);
    if !v.Got? {
      return if v.Failed? then Failed else Gave;
    }
    var e := SkipAt(text, v.p);
    r := Got(Field(k.value, v.value), e);
  }

  method ParseObjectAt(text: seq<byte>, p0: nat) returns (r: Read<Node>)
    requires p0 < |text|
    ensures Agrees(r, text, ObjectSpec(text[p0..]))
    ensures r.Got? ==> r.p > p0
    decreases |text| - p0, 0
  {
    assert text[p0..][1..] == text[p0 + 1..];
    var p := SkipAt(text, p0 + 1);
    if At(text, p) == RBRACE {
      assert text[p..][1..] == text[p + 1..];
      return Got(Object([]), p + 1);
    }
    r := FieldsAt(text, p);
  }

  /** The loop of parse_object over the fields. */
  method FieldsAt(text: seq<byte>, p0: nat) returns (r: Read<Node>)
    requires p0 <= |text|
    ensures Agrees(r, text, ParseFields(text[p0..], []))
    ensures r.Got? ==> r.p > p0
    decreases |text| - p0, 3
  {
    hide ParseFields, AfterField;
    var f := FieldAt(text, p0, []);
    if !f.Got? {
      return if f.Failed? then Failed else Gave;
    }
    var fields := [f.value];
    assert [] + fields == fields;
    var p := f.p;
    while At(text, p) == COMMA
      invariant p0 < p <= |text| && ParseFields(text[p0..], []) == AfterField(text[p..], fields)
      decreases |text| - p
    {
      AfterFieldComma(text, p, fields);
      f := FieldAt(text, p + 1, fields);
      if !f.Got? {
        return if f.Failed? then Failed else Gave;
      }
      fields, p := fields + [f.value], f.p;
    }
    AfterLastField(text, p, fields);
    r := if At(text, p) == RBRACE then Got(Object(fields), p + 1) else Failed;
  }

  lemma AfterFieldComma(text: seq<byte>, p: nat, fields: seq<Field>)
    requires p < |text| && text[p] == COMMA
    ensures AfterField(text[p..], fields) == ParseFields(text[p + 1..], fields)
  {
    assert text[p..][1..] == text[p + 1..];
  }

  lemma AfterLastField(text: seq<byte>, p: nat, fields: seq<Field>)
    requires p <= |text| && At(text, p) != COMMA
    ensures if At(text, p) == RBRACE then AfterField(text[p..], fields) == Ok(Object(fields), text[p + 1..])
            else AfterField(text[p..], fields) == Fail
  {
    assert At(text, p) == RBRACE ==> text[p..][1..] == text[p + 1..];
  }

  /** cJSON_ParseWithOpts. */
  method ParseWithOpts(text: seq<byte>, requireNullTerminated: bool) returns (r: Read<Node>)
    ensures Agrees(r, text, Parse(text, requireNullTerminated))
  {
    hide ParseValue;
    assert text[0..] == text;
    var p := SkipAt(text, 0);
    r := ParseValueAt(text, p);
    if r.Got? && requireNullTerminated {
      p := SkipAt(text, r.p);
      assert At(text, p) == At(text[p..], 0);
      r := if At(text, p) != 0 then Failed else Got(r.value, p);
    }
  }
}
