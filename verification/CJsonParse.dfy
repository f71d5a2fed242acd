/**
 The recursive parser of cJSON, as functions of the text that is left. A text ends at its end
 or at a zero byte. Fractions, exponents and malformed \u escapes are not modelled.
 */
module CJsonParse {
  import opened Bytes
  import opened CJsonText

  datatype Parsed<+T> = Ok(value: T, rest: seq<byte>) | Fail | Unmodelled

  function Skip(s: seq<byte>): (r: seq<byte>)
    ensures |r| <= |s|
  {
    if s != [] && 0 < s[0] <= 32 then Skip(s[1..]) else s
  }

  predicate Starts(s: seq<byte>, w: seq<byte>) {
    |w| <= |s| && s[..|w|] == w
  }

  // ----- numbers

  /** The number of digits at the front. */
  function Run(s: seq<byte>): (n: nat)
    ensures n <= |s| && forall i :: 0 <= i < n ==> IsDigit(s[i])
    ensures n < |s| ==> !IsDigit(s[n])
  {
    if s != [] && IsDigit(s[0]) then 1 + Run(s[1..]) else 0
  }

  /** The digits of a number: only one leading zero is taken. */
  function Magnitude(t: seq<byte>): (r: (nat, seq<byte>))
    ensures |r.1| <= |t| && (IsDigit(At(t, 0)) ==> |r.1| < |t|)
  {
    var u := if At(t, 0) == 48 then t[1..] else t;
    var k := if 49 <= At(u, 0) <= 57 then Run(u) else 0;
    (NatOf(u[..k], 0), u[k..])
  }

  /** parse_number; "-" alone reads as 0. */
  function ParseNumber(s: seq<byte>): (r: Parsed<Node>)
    requires At(s, 0) == 45 || IsDigit(At(s, 0))
    ensures r.Ok? ==> |r.rest| < |s|
  {
    var neg := At(s, 0) == 45;
    var (n, rest) := Magnitude(if neg then s[1..] else s);
    if (At(rest, 0) == 46 && IsDigit(At(rest, 1))) || At(rest, 0) == 101 || At(rest, 0) == 69 then Unmodelled
    else Ok(Number(if neg then 0 - n else n), rest)
  }

  // ----- strings

  /** Four hexadecimal digits start at p. */
  predicate HasHex4(s: seq<byte>, p: nat) {
    p + 4 <= |s| && IsHex(s[p]) && IsHex(s[p + 1]) && IsHex(s[p + 2]) && IsHex(s[p + 3])
  }

  function Hex4(s: seq<byte>, p: nat): (u: nat)
    requires HasHex4(s, p)
    ensures u < 0x10000
  {
    ((HexValue(s[p]) * 16 + HexValue(s[p + 1])) * 16 + HexValue(s[p + 2])) * 16 + HexValue(s[p + 3])
  }

  /** What one turn of the copying loop appends, and how far it goes. */
  datatype Step = Step(bytes: seq<byte>, skip: nat) | End(skip: nat) | Broken

  function UnicodeStep(s: seq<byte>): (t: Step)
    requires HasHex4(s, 2)
    ensures t.Step? ==> 0 < t.skip <= |s|
  {
    var u := Hex4(s, 2);
    if 0xDC00 <= u <= 0xDFFF || u == 0 then Step([], 6)
    else if !(0xD800 <= u <= 0xDBFF) then Step(Utf8(u), 6)
    else if At(s, 6) != BACKSLASH || At(s, 7) != 117 then Step([], 6)
    else if !HasHex4(s, 8) then Broken
    else
      var v := Hex4(s, 8);
      if v < 0xDC00 || v > 0xDFFF then Step([], 12)
      else Step(Utf8(0x10000 + u % 0x400 * 0x400 + v % 0x400), 12)
  }

  function Unescaped(c: byte): byte {
    if c == 98 then 8
    else if c == 102 then 12
    else if c == 110 then 10
    else if c == 114 then 13
    else if c == 116 then 9
    else c
  }

  function StepOf(s: seq<byte>): (t: Step)
    ensures t.Step? ==> 0 < t.skip <= |s|
    ensures t.End? ==> t.skip <= |s| && (At(s, 0) == QUOTE || At(s, 0) == 0)
  {
    var c, e := At(s, 0), At(s, 1);
    if c == QUOTE then End(1)
    else if c == 0 then End(0)
    else if c != BACKSLASH then Step([c], 1)
    else if e == 0 then Broken
    else if e != 117 then Step([Unescaped(e)], 2)
    else if HasHex4(s, 2) then UnicodeStep(s)
    else Broken
  }

  /** The rest of a string after its opening quote; a missing closing quote is accepted. */
  function ParseChars(s: seq<byte>, out: seq<byte>): (r: Parsed<seq<byte>>)
    ensures r.Ok? ==> |r.rest| <= |s|
    decreases |s|
  {
    var t := StepOf(s);
    if t.Broken? then Unmodelled
    else if t.End? then Ok(out, s[t.skip..])
    else ParseChars(s[t.skip..], out + t.bytes)
  }

  function ParseString(s: seq<byte>): (r: Parsed<seq<byte>>)
    ensures r.Ok? ==> |r.rest| < |s|
  {
    if At(s, 0) != QUOTE then Fail else ParseChars(s[1..], [])
  }

  // ----- values

  function ParseValue(s: seq<byte>): (r: Parsed<Node>)
    ensures r.Ok? ==> |r.rest| < |s|
    decreases |s|, 0
  {
    if Starts(s, NULL_WORD) then Ok(Null, s[4..])
    else if Starts(s, FALSE_WORD) then Ok(False, s[5..])
    else if Starts(s, TRUE_WORD) then Ok(True, s[4..])
    else if At(s, 0) == QUOTE then
      var r := ParseString(s);
      if r.Ok? then Ok(String(r.value), r.rest) else if r.Fail? then Fail else Unmodelled
    else if At(s, 0) == 45 || IsDigit(At(s, 0)) then ParseNumber(s)
    else if At(s, 0) == OPEN then
      var t := Skip(s[1..]);
      if At(t, 0) == CLOSE then Ok(Array([]), t[1..]) else ParseItems(t, [])
    else if At(s, 0) == LBRACE then
      var t := Skip(s[1..]);
      if At(t, 0) == RBRACE then Ok(Object([]), t[1..]) else ParseFields(t, [])
    else Fail
  }

  function ParseItems(s: seq<byte>, items: seq<Node>): (r: Parsed<Node>)
    ensures r.Ok? ==> |r.rest| <= |s|
    decreases |s|, 1
  {
    var v := ParseValue(Skip(s));
    if !v.Ok? then v
    else
      var t, all := Skip(v.rest), items + [v.value];
      if At(t, 0) == COMMA then ParseItems(t[1..], all)
      else if At(t, 0) == CLOSE then Ok(Array(all), t[1..])
      else Fail
  }

  function ParseFields(s: seq<byte>, fields: seq<Field>): (r: Parsed<Node>)
    ensures r.Ok? ==> |r.rest| <= |s|
    decreases |s|, 1
  {
    var k := ParseString(Skip(s));
    if !k.Ok? then (if k.Fail? then Fail else Unmodelled)
    else
      var c := Skip(k.rest);
      if At(c, 0) != COLON then Fail
      else
        var v := ParseValue(Skip(c[1..]));
        if !v.Ok? then v
        else
          var t, all := Skip(v.rest), fields + [Field(k.value, v.value)];
          if At(t, 0) == COMMA then ParseFields(t[1..], all)
          else if At(t, 0) == RBRACE then Ok(Object(all), t[1..])
          else Fail
  }

  /** cJSON_ParseWithOpts; with `whole` nothing but blanks may follow the value. */
  function Parse(s: seq<byte>, whole: bool): Parsed<Node> {
    var v := ParseValue(Skip(s));
    if !v.Ok? || !whole then v
    else
      var end := Skip(v.rest);
      if At(end, 0) != 0 then Fail else Ok(v.value, end)
  }
}
