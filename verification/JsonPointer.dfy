/**
 json_pointer_get: a path is a list of tokens, each behind a slash, with "~" and "/" written
 as "~0" and "~1" (sections 3 and 4 of RFC 6901). The functions work on texts, the methods
 on one buffer that is cut, unescaped and mended in place.
 */
module JsonPointer {
  import opened Bytes
  import opened JsonValue
  import opened OrderedMap

  const SLASH: byte := 47
  const TILDE: byte := 126
  const ZERO: byte := 48
  const ONE: byte := 49

  datatype Found = Ok(value: Value) | Invalid | NoEntry

  // ----- array indices

  const LONG_MAX: nat := 0x7fff_ffff_ffff_ffff

  /** A long cut to 32 bits. */
  function Int32(n: nat): int {
    var m := n % 0x1_0000_0000;
    if m < 0x8000_0000 then m else m - 0x1_0000_0000
  }

  predicate AllDigits(s: seq<byte>) {
    forall i :: 0 <= i < |s| ==> IsDigit(s[i])
  }

  /** strtol of digits, stored in an int32_t. */
  function Strtol(s: seq<byte>): int
    requires AllDigits(s)
  {
    var n := NatOf(s, 0);
    Int32(if n > LONG_MAX then LONG_MAX else n)
  }

  datatype Index = At(idx: nat) | BadIndex | OutOfBounds

  /** is_valid_index. */
  function ValidIndex(path: seq<byte>, len: nat): (r: Index)
    ensures r.At? ==> r.idx < len
  {
    if |path| == 1 then
      if !IsDigit(path[0]) then BadIndex
      else if path[0] - 48 >= len then OutOfBounds
      else At(path[0] - 48)
    else if path != [] && path[0] == ZERO then BadIndex
    else if !AllDigits(path) then BadIndex
    else if Strtol(path) < 0 then BadIndex
    else if Strtol(path) >= len then OutOfBounds
    else At(Strtol(path))
  }

  // ----- the meaning of a list of tokens

  function Child(v: Value, token: seq<byte>): Found {
    match v
    case Arr(items) =>
      (match ValidIndex(token, |items|)
       case At(i) => if items[i] == Null then NoEntry else Ok(items[i])
       case BadIndex => Invalid
       case OutOfBounds => NoEntry)
    case Obj(fields) =>
      var i := Find(fields, token);
      if i < 0 then NoEntry else Ok(fields[i].value)
    case _ => NoEntry
  }

  function Walk(v: Value, tokens: seq<seq<byte>>): Found {
    if tokens == [] then Ok(v)
    else
      var c := Child(v, tokens[0]);
      if c.Ok? then Walk(c.value, tokens[1..]) else c
  }

  function EscapeByte(b: byte): seq<byte> {
    if b == TILDE then [TILDE, ZERO] else if b == SLASH then [TILDE, ONE] else [b]
  }

  function Escape(t: seq<byte>): seq<byte> {
    if t == [] then [] else EscapeByte(t[0]) + Escape(t[1..])
  }

  function Path(tokens: seq<seq<byte>>): seq<byte> {
    if tokens == [] then [] else [SLASH] + Escape(tokens[0]) + Path(tokens[1..])
  }

  // ----- what json_pointer_get does with a path

  /** "~c" becomes b, from left to right. */
  function Replace(s: seq<byte>, c: byte, b: byte): (r: seq<byte>)
    ensures |r| <= |s|
    decreases |s|
  {
    if s == [] then []
    else if |s| >= 2 && s[0] == TILDE && s[1] == c then [b] + Replace(s[2..], c, b)
    else [s[0]] + Replace(s[1..], c, b)
  }

  function Unescape(s: seq<byte>): seq<byte> {
    Replace(Replace(s, ONE, SLASH), ZERO, TILDE)
  }

  function GetSingle(v: Value, segment: seq<byte>): Found {
    if v.Arr? then Child(v, segment) else Child(v, Unescape(segment))
  }

  /** The text before the next slash. */
  function Segment(s: seq<byte>): (r: seq<byte>)
    ensures |r| <= |s| && r == s[..|r|] && SLASH !in r
    ensures |r| < |s| ==> s[|r|] == SLASH
  {
    if s == [] || s[0] == SLASH then [] else [s[0]] + Segment(s[1..])
  }

  function GetRecursive(v: Value, path: seq<byte>): Found
    decreases |path|
  {
    if path == [] || path[0] != SLASH then Invalid
    else
      var rest := path[1..];
      var segment := Segment(rest);
      var c := GetSingle(v, segment);
      if !c.Ok? || |segment| == |rest| then c else GetRecursive(c.value, rest[|segment|..])
  }

  function Get(v: Value, path: seq<byte>): Found {
    if v == Null then Invalid
    else if path == [] then Ok(v)
    else GetRecursive(v, path)
  }

  // ----- unescaping undoes escaping

  /** After the first pass only the tildes are still escaped. */
  function HalfEscaped(t: seq<byte>): seq<byte> {
    if t == [] then [] else (if t[0] == TILDE then [TILDE, ZERO] else [t[0]]) + HalfEscaped(t[1..])
  }

  lemma ReplacePlain(a: byte, s: seq<byte>, c: byte, b: byte)
    requires a != TILDE
    ensures Replace([a] + s, c, b) == [a] + Replace(s, c, b)
  {
    assert ([a] + s)[1..] == s;
  }

  lemma ReplaceHit(s: seq<byte>, c: byte, b: byte)
    ensures Replace([TILDE, c] + s, c, b) == [b] + Replace(s, c, b)
  {
    assert ([TILDE, c] + s)[2..] == s;
  }

  lemma ReplaceMiss(d: byte, s: seq<byte>, c: byte, b: byte)
    requires d != c && d != TILDE
    ensures Replace([TILDE, d] + s, c, b) == [TILDE, d] + Replace(s, c, b)
  {
    var t := [TILDE, d] + s;
    assert t[0] == TILDE && t[1] == d && t[1..] == [d] + s;
    ReplacePlain(d, s, c, b);
  }

  lemma {:induction false} FirstPass(t: seq<byte>)
    ensures Replace(Escape(t), ONE, SLASH) == HalfEscaped(t)
  {
    hide Replace;
    if t == [] {
      ReplaceNone(ONE, SLASH);
    } else {
      FirstPass(t[1..]);
      if t[0] == TILDE {
        ReplaceMiss(ZERO, Escape(t[1..]), ONE, SLASH);
      } else if t[0] == SLASH {
        ReplaceHit(Escape(t[1..]), ONE, SLASH);
      } else {
        ReplacePlain(t[0], Escape(t[1..]), ONE, SLASH);
      }
    }
  }

  lemma ReplaceNone(c: byte, b: byte)
    ensures Replace([], c, b) == []
  {
  }

  lemma {:induction false} SecondPass(t: seq<byte>)
    ensures Replace(HalfEscaped(t), ZERO, TILDE) == t
  {
    hide Replace;
    if t == [] {
      ReplaceNone(ZERO, TILDE);
    } else {
      SecondPass(t[1..]);
      if t[0] == TILDE {
        ReplaceHit(HalfEscaped(t[1..]), ZERO, TILDE);
      } else {
        ReplacePlain(t[0], HalfEscaped(t[1..]), ZERO, TILDE);
      }
      assert [t[0]] + t[1..] == t;
    }
  }

  lemma UnescapeUndoesEscape(t: seq<byte>)
    ensures Unescape(Escape(t)) == t
  {
    FirstPass(t);
    SecondPass(t);
  }

  // ----- a path finds what its tokens find

  /** An escaped token is a valid index exactly when the token is, and the same one. */
  lemma {:induction false} EscapedDigits(t: seq<byte>)
    ensures AllDigits(t) ==> Escape(t) == t
    ensures !AllDigits(t) ==> !AllDigits(Escape(t)) && |Escape(t)| >= |t|
    ensures t != [] ==> Escape(t) != [] && (Escape(t)[0] == ZERO <==> t[0] == ZERO)
  {
    if t != [] {
      EscapedDigits(t[1..]);
      assert t == [t[0]] + t[1..];
      var e := EscapeByte(t[0]);
      var r := Escape(t[1..]);
      if !AllDigits(t) {
        if !IsDigit(t[0]) {
          assert !IsDigit((e + r)[0]);
        } else {
          RestDigits(t);
          NotDigits(e, r);
        }
      }
    }
  }

  lemma RestDigits(t: seq<byte>)
    requires t != [] && !AllDigits(t) && IsDigit(t[0])
    ensures !AllDigits(t[1..])
  {
    var i :| 0 <= i < |t| && !IsDigit(t[i]);
    assert t[1..][i - 1] == t[i];
  }

  lemma NotDigits(e: seq<byte>, r: seq<byte>)
    requires !AllDigits(r)
    ensures !AllDigits(e + r)
  {
    var i :| 0 <= i < |r| && !IsDigit(r[i]);
    assert (e + r)[|e| + i] == r[i];
  }

  lemma EscapedIndex(t: seq<byte>, len: nat)
    ensures ValidIndex(Escape(t), len) == ValidIndex(t, len)
  {
    EscapedDigits(t);
    if !AllDigits(t) {
      BadUnlessDigits(t, len);
      BadUnlessDigits(Escape(t), len);
    }
  }

  lemma BadUnlessDigits(t: seq<byte>, len: nat)
    requires !AllDigits(t)
    ensures ValidIndex(t, len) == BadIndex
  {
  }

  lemma SingleIsChild(v: Value, t: seq<byte>)
    ensures GetSingle(v, Escape(t)) == Child(v, t)
  {
    UnescapeUndoesEscape(t);
    if v.Arr? {
      EscapedIndex(t, |v.items|);
    }
  }

  lemma SegmentPlain(a: byte, s: seq<byte>)
    requires a != SLASH
    ensures Segment([a] + s) == [a] + Segment(s)
  {
    assert ([a] + s)[1..] == s;
  }

  lemma SegmentEscaped(b: byte, s: seq<byte>)
    ensures Segment(EscapeByte(b) + s) == EscapeByte(b) + Segment(s)
  {
    hide Segment;
    var e := EscapeByte(b);
    if |e| == 1 {
      SegmentPlain(e[0], s);
    } else {
      SegmentPlain(e[1], s);
      SegmentPlain(e[0], [e[1]] + s);
      assert e + s == [e[0]] + ([e[1]] + s);
    }
  }

  lemma {:induction false} SegmentOf(t: seq<byte>, rest: seq<byte>)
    requires rest == [] || rest[0] == SLASH
    ensures Segment(Escape(t) + rest) == Escape(t)
  {
    if t == [] {
      assert Escape(t) + rest == rest;
    } else {
      hide Segment, EscapeByte;
      SegmentOf(t[1..], rest);
      Append(EscapeByte(t[0]), Escape(t[1..]), rest);
      SegmentEscaped(t[0], Escape(t[1..]) + rest);
    }
  }

  lemma {:induction false} RecursiveWalks(v: Value, tokens: seq<seq<byte>>)
    requires tokens != []
    ensures GetRecursive(v, Path(tokens)) == Walk(v, tokens)
    decreases |tokens|
  {
    var path, t, more := Path(tokens), Escape(tokens[0]), Path(tokens[1..]);
    Append([SLASH], t, more);
    assert path[0] == SLASH && path[1..] == t + more;
    SegmentOf(tokens[0], more);
    SingleIsChild(v, tokens[0]);
    var c := Child(v, tokens[0]);
    assert (t + more)[|t|..] == more;
    hide Child, GetSingle, Escape, Segment;
    if c.Ok? && tokens[1..] != [] {
      assert |more| > 0;
      RecursiveWalks(c.value, tokens[1..]);
    }
  }

  /** json_pointer_get of the escaped path of any tokens walks down token by token. */
  lemma GetWalks(v: Value, tokens: seq<seq<byte>>)
    ensures Get(v, Path(tokens)) == if v == Null then Invalid else Walk(v, tokens)
  {
    if tokens != [] {
      RecursiveWalks(v, tokens);
      assert Path(tokens)[0] == SLASH;
    }
  }

  // ----- which index is_valid_index accepts

  /** The decimal form of an index that is in range is accepted as that index. */
  lemma DecimalAccepted(i: nat, len: nat)
    requires i < len <= 0x8000_0000
    ensures ValidIndex(Digits(i), len) == At(i)
  {
    NatOfDigits(i);
    DigitsLength(i);
    hide NatOf, Digits;
    var d := Digits(i);
    assert AllDigits(d);
    if i >= 10 {
      assert Strtol(d) == i;
    }
  }

  lemma DigitsLength(i: nat)
    ensures |Digits(i)| == 1 <==> i < 10
    ensures i < 10 ==> Digits(i)[0] == 48 + i
  {
  }

  /** What section 4 of RFC 6901 makes of a text: the index whose decimal form it is. */
  ghost function RfcIndex(s: seq<byte>, len: nat): Index {
    if exists n: nat :: s == Digits(n) then
      var n: nat :| s == Digits(n);
      if n < len then At(n) else OutOfBounds
    else BadIndex
  }

  /** Digits without a leading zero. */
  predicate IsDecimal(s: seq<byte>) {
    s != [] && AllDigits(s) && (|s| == 1 || s[0] != ZERO)
  }

  /** These are the decimal forms, each of one number. */
  lemma DecimalForms(s: seq<byte>, len: nat)
    ensures RfcIndex(s, len)
            == if !IsDecimal(s) then BadIndex else if NatOf(s, 0) < len then At(NatOf(s, 0)) else OutOfBounds
  {
    if IsDecimal(s) {
      DigitsOfNatOf(s);
      hide NatOf;
    }
    forall n: nat | s == Digits(n) ensures IsDecimal(s) && NatOf(s, 0) == n {
      NatOfDigits(n);
      DigitsLength(n);
    }
  }

  /** The text is not empty, and the number it denotes fits 31 bits; a larger one is still
      refused as out of bounds when the 32 bits that are kept are beyond the array. */
  predicate ReadRight(s: seq<byte>, len: nat) {
    s != [] && (IsDecimal(s) && NatOf(s, 0) >= 0x8000_0000 ==> Strtol(s) >= len)
  }

  /** is_valid_index agrees with RFC 6901 on exactly these texts. */
  lemma IndexIsRfc(s: seq<byte>, len: nat)
    ensures ValidIndex(s, len) == RfcIndex(s, len) <==> ReadRight(s, len)
  {
    DecimalForms(s, len);
    if |s| == 1 {
      OneDigit(s);
    } else if s == [] {
      assert NatOf(s, 0) == 0;
    }
    hide RfcIndex, NatOf;
  }

  lemma OneDigit(s: seq<byte>)
    requires |s| == 1
    ensures AllDigits(s) ==> NatOf(s, 0) == s[0] - 48
  {
    if AllDigits(s) {
      NatOfSnoc([], 0, s[0]);
      assert s == [] + [s[0]] && NatOf([], 0) == 0;
    }
  }

  /** An empty token finds element 0. */
  lemma EmptyTokenFindsFirst(v: Value)
    requires v.Arr? && |v.items| > 0 && v.items[0] != Null
    ensures Child(v, []) == Ok(v.items[0]) && RfcIndex([], |v.items|) == BadIndex
  {
    DecimalForms([], |v.items|);
    assert NatOf([], 0) == 0;
  }

  /** is_valid_index on the decimal form of a number of several digits. */
  lemma IndexOfDigits(n: nat, len: nat)
    requires n >= 10
    ensures var m := Int32(if n > LONG_MAX then LONG_MAX else n);
            ValidIndex(Digits(n), len) == if m < 0 then BadIndex else if m >= len then OutOfBounds else At(m)
    ensures RfcIndex(Digits(n), len) == if n < len then At(n) else OutOfBounds
  {
    NatOfDigits(n);
    DigitsLength(n);
    hide NatOf, Digits;
    var d := Digits(n);
    assert AllDigits(d) && IsDecimal(d);
    DecimalForms(d, len);
  }

  /** "2147483648" is refused as malformed, not as out of bounds. */
  lemma BeyondInt32IsInvalid(len: nat)
    requires len <= 0x8000_0000
    ensures ValidIndex(Digits(2147483648), len) == BadIndex && RfcIndex(Digits(2147483648), len) == OutOfBounds
  {
    hide ValidIndex, RfcIndex, Digits;
    IndexOfDigits(2147483648, len);
  }

  /** "4294967296" finds element 0. */
  lemma WrapsAround(v: Value)
    requires v.Arr? && |v.items| > 0 && v.items[0] != Null
    ensures Child(v, Digits(4294967296)) == Ok(v.items[0])
  {
    hide ValidIndex, RfcIndex, Digits;
    IndexOfDigits(4294967296, |v.items|);
  }

  // ----- in place

  /** The buffer holds the C string s at p. */
  ghost predicate Holds(buf: array<byte>, p: int, s: seq<byte>)
    reads buf
  {
    && 0 <= p && p + |s| < buf.Length && buf[p + |s|] == 0
    && (forall k :: 0 <= k < |s| ==> buf[p + k] == s[k])
    && 0 !in s
  }

  /** memmove of the rest of the string, with its zero byte, down by one. */
  method MoveDown(buf: array<byte>, p: nat, n: nat, ghost s: seq<byte>)
    requires n == |s| && Holds(buf, p + 1, s)
    modifies buf
    ensures Holds(buf, p, s)
    ensures forall k :: (0 <= k < p || p + |s| < k < buf.Length) ==> buf[k] == old(buf[k])
  {
    for i := 0 to n
      invariant forall k :: 0 <= k < i ==> buf[p + k] == s[k]
      invariant forall k :: i <= k < |s| ==> buf[p + 1 + k] == s[k]
      invariant buf[p + 1 + |s|] == 0
      invariant forall k :: (0 <= k < p || p + |s| < k < buf.Length) ==> buf[k] == old(buf[k])
    {
      buf[p + i] := buf[p + i + 1];
    }
    buf[p + n] := buf[p + n + 1];
  }

  method Strlen(buf: array<byte>, p: nat, ghost s: seq<byte>) returns (n: nat)
    requires Holds(buf, p, s)
    ensures n == |s|
  {
    n := 0;
    while buf[p + n] != 0
      invariant n <= |s|
      decreases |s| - n
    {
      n := n + 1;
    }
    ZeroAtEnd(buf, p, s, n);
  }

  lemma ZeroAtEnd(buf: array<byte>, p: nat, s: seq<byte>, k: nat)
    requires Holds(buf, p, s) && k <= |s|
    ensures p + |s| < buf.Length && (buf[p + k] == 0 <==> k == |s|) && (k < |s| ==> buf[p + k] == s[k])
  {
    if k < |s| {
      assert s[k] in s;
    }
  }

  /** "~c" stands at j. */
  predicate Hit(s: seq<byte>, j: nat, c: byte) {
    j + 1 < |s| && s[j] == TILDE && s[j + 1] == c
  }

  /** strstr for "~c": how many bytes come before the next one, or all of them. */
  method Strstr(buf: array<byte>, p: nat, ghost s: seq<byte>, c: byte) returns (k: nat)
    requires Holds(buf, p, s) && c != 0
    ensures k <= |s| && (k < |s| ==> Hit(s, k, c))
    ensures forall j :: 0 <= j < k ==> !Hit(s, j, c)
  {
    k := 0;
    while buf[p + k] != 0
      invariant k <= |s|
      invariant forall j :: 0 <= j < k ==> !Hit(s, j, c)
      decreases |s| - k
    {
      ZeroAtEnd(buf, p, s, k);
      assert k + 1 < |s| ==> buf[p + (k + 1)] == s[k + 1];
      if buf[p + k] == TILDE && buf[p + k + 1] == c {
        ZeroAtEnd(buf, p, s, k + 1);
        return;
      }
      k := k + 1;
    }
    ZeroAtEnd(buf, p, s, k);
  }

  /** Nothing to replace in the first k bytes. */
  lemma {:induction false} ReplaceFrom(s: seq<byte>, k: nat, c: byte, b: byte)
    requires k <= |s| && forall j :: 0 <= j < k ==> !Hit(s, j, c)
    ensures Replace(s, c, b) == s[..k] + Replace(s[k..], c, b)
  {
    if k == 0 {
      assert s[0..] == s && s[..0] == [];
    } else {
      var t := s[1..];
      ReplaceSkips(s, c, b);
      forall j | 0 <= j < k - 1 ensures !Hit(t, j, c) {
        HitBehind(s, j, c);
      }
      hide Replace, Hit;
      ReplaceFrom(t, k - 1, c, b);
      assert t[k - 1..] == s[k..] && s[..k] == [s[0]] + t[..k - 1];
      Append([s[0]], t[..k - 1], Replace(s[k..], c, b));
    }
  }

  lemma HitBehind(s: seq<byte>, j: nat, c: byte)
    requires s != []
    ensures Hit(s[1..], j, c) <==> Hit(s, j + 1, c)
  {
  }

  lemma ReplaceSkips(s: seq<byte>, c: byte, b: byte)
    requires s != [] && !Hit(s, 0, c)
    ensures Replace(s, c, b) == [s[0]] + Replace(s[1..], c, b)
  {
  }

  /** string_replace_all_occurrences_with_char, on the string at p. */
  method ReplaceAll(buf: array<byte>, s0: nat, ghost text: seq<byte>, c: byte, b: byte) returns (ghost out: seq<byte>)
    requires Holds(buf, s0, text) && c != 0 && b != 0 && c != TILDE
    modifies buf
    ensures out == Replace(text, c, b) && Holds(buf, s0, out)
    ensures forall k :: (0 <= k < s0 || s0 + |text| < k < buf.Length) ==> buf[k] == old(buf[k])
  {
    hide Replace;
    var p := s0;
    var slen := Strlen(buf, s0, text);
    ghost var done: seq<byte>, rest := [], text;
    assert done + Replace(rest, c, b) == Replace(text, c, b);
    assert done + rest == text;
    var k: nat := Strstr(buf, p, rest, c);
    while buf[p + k] != 0
      invariant p == s0 + |done| && Holds(buf, s0, done + rest) && Holds(buf, p, rest) && slen == |done| + |rest| <= |text|
      invariant done + Replace(rest, c, b) == Replace(text, c, b)
      invariant k <= |rest| && (k < |rest| ==> Hit(rest, k, c))
      invariant forall j :: 0 <= j < k ==> !Hit(rest, j, c)
      invariant forall i :: (0 <= i < s0 || s0 + |text| < i < buf.Length) ==> buf[i] == old(buf[i])
      decreases |rest|
    {
      p, done, rest := ReplaceNext(buf, s0, slen, p, done, rest, k, c, b);
      slen := slen - 1;
      k := Strstr(buf, p, rest, c);
    }
    ZeroAtEnd(buf, p, rest, k);
    ReplaceFrom(rest, k, c, b);
    ReplaceNone(c, b);
    assert rest[..k] + [] == rest;
    out := done + rest;
  }

  lemma ReplaceStep(done: seq<byte>, rest: seq<byte>, k: nat, c: byte, b: byte)
    requires Hit(rest, k, c)
    requires forall j :: 0 <= j < k ==> !Hit(rest, j, c)
    ensures done + Replace(rest, c, b) == done + rest[..k] + [b] + Replace(rest[k + 2..], c, b)
  {
    ReplaceFrom(rest, k, c, b);
    assert rest[k..] == [TILDE, c] + rest[k + 2..];
    ReplaceHit(rest[k + 2..], c, b);
    Append(done + rest[..k], [b], Replace(rest[k + 2..], c, b));
    Append(done, rest[..k], [b] + Replace(rest[k + 2..], c, b));
  }

  /** One replacement, k bytes from p on. */
  method ReplaceNext(buf: array<byte>, s0: nat, slen: nat, p: nat, ghost done: seq<byte>, ghost rest: seq<byte>, k: nat, c: byte, b: byte)
    returns (p': nat, ghost done': seq<byte>, ghost rest': seq<byte>)
    requires p == s0 + |done| && slen == |done| + |rest| && Holds(buf, s0, done + rest) && b != 0 && c != TILDE
    requires Hit(rest, k, c)
    requires forall j :: 0 <= j < k ==> !Hit(rest, j, c)
    modifies buf
    ensures p' == s0 + |done'| && Holds(buf, s0, done' + rest') && Holds(buf, p', rest')
    ensures |rest'| < |rest| && |done'| + |rest'| == slen - 1
    ensures done' + Replace(rest', c, b) == done + Replace(rest, c, b)
    ensures forall i :: (0 <= i < s0 || p + |rest| < i < buf.Length) ==> buf[i] == old(buf[i])
  {
    ReplaceStep(done, rest, k, c, b);
    hide Replace;
    rest', done' := rest[k + 2..], done + rest[..k] + [b];
    p' := p + k + 1;
    ghost var front := done + rest[..k];
    assert done + rest == front + [TILDE, c] + rest';
    Squeeze(buf, s0, slen, p + k, front, rest', c, b);
    assert front + [b] + rest' == done' + rest';
    Suffix(buf, s0, done', rest');
  }

  lemma Suffix(buf: array<byte>, s0: nat, a: seq<byte>, s: seq<byte>)
    requires Holds(buf, s0, a + s)
    ensures Holds(buf, s0 + |a|, s)
  {
    forall k | 0 <= k < |s| ensures buf[s0 + |a| + k] == s[k] {
      assert (a + s)[|a| + k] == s[k];
    }
    forall x <- s ensures x in a + s {
    }
  }

  /** Two bytes become one, and the rest moves down. */
  method Squeeze(buf: array<byte>, s0: nat, slen: nat, p: nat, ghost front: seq<byte>, ghost rest: seq<byte>, ghost c: byte, b: byte)
    requires Holds(buf, s0, front + [TILDE, c] + rest) && p == s0 + |front| && slen == |front| + 2 + |rest| && b != 0
    modifies buf
    ensures Holds(buf, s0, front + [b] + rest)
    ensures forall i :: (0 <= i < s0 || s0 + slen < i < buf.Length) ==> buf[i] == old(buf[i])
  {
    ghost var whole := front + [TILDE, c] + rest;
    Suffix(buf, s0, front + [TILDE, c], rest);
    forall i | 0 <= i < |front| ensures buf[s0 + i] == front[i] && front[i] != 0 {
      assert whole[i] == front[i] && whole[i] in whole;
    }
    buf[p] := b;
    MoveDown(buf, p + 1, slen - 1 - (p + 1 - s0), rest);
    ghost var new' := front + [b] + rest;
    forall i | 0 <= i < |new'| ensures buf[s0 + i] == new'[i] && new'[i] != 0 {
      if i > |front| {
        var j := i - |front| - 1;
        assert new'[i] == rest[j] && rest[j] in rest && buf[p + 1 + j] == rest[j];
      }
    }
  }

  // ----- the walk over the buffer

  /** The string at p as a value. */
  method StringAt(buf: array<byte>, p: nat, ghost s: seq<byte>) returns (r: seq<byte>)
    requires Holds(buf, p, s)
    ensures r == s
  {
    var n := Strlen(buf, p, s);
    r := buf[p..p + n];
  }

  /** is_valid_index. */
  method ValidIndexAt(buf: array<byte>, p: nat, len: nat, ghost path: seq<byte>) returns (r: Index)
    requires Holds(buf, p, path)
    ensures r == ValidIndex(path, len)
  {
    var n := Strlen(buf, p, path);
    assert forall k :: 0 <= k < n ==> buf[p + k] == path[k];
    if n == 1 {
      if !IsDigit(buf[p]) {
        return BadIndex;
      }
      return if buf[p] - 48 >= len then OutOfBounds else At(buf[p] - 48);
    }
    if buf[p] == ZERO {
      return BadIndex;
    }
    for i := 0 to n
      invariant forall k :: 0 <= k < i ==> IsDigit(path[k])
    {
      if !IsDigit(buf[p + i]) {
        assert !IsDigit(path[i]);
        return BadIndex;
      }
    }
    var s := StringAt(buf, p, path);
    var idx := Strtol(s);
    r := if idx < 0 then BadIndex else if idx >= len then OutOfBounds else At(idx);
  }

  /** json_pointer_get_single_path; only the string at p is changed. */
  method GetSingleAt(buf: array<byte>, p: nat, v: Value, ghost segment: seq<byte>) returns (r: Found)
    requires Holds(buf, p, segment)
    modifies buf
    ensures r == GetSingle(v, segment)
    ensures forall k :: (0 <= k < p || p + |segment| < k < buf.Length) ==> buf[k] == old(buf[k])
  {
    hide Replace, ValidIndex;
    if v.Arr? {
      var i := ValidIndexAt(buf, p, |v.items|, segment);
      match i
      case At(k) => r := if v.items[k] == Null then NoEntry else Ok(v.items[k]);
      case BadIndex => r := Invalid;
      case OutOfBounds => r := NoEntry;
    } else {
      ghost var half := ReplaceAll(buf, p, segment, ONE, SLASH);
      ghost var token := ReplaceAll(buf, p, half, ZERO, TILDE);
      var key := StringAt(buf, p, token);
      r := Child(v, key);
    }
  }

  /** strchr for the next slash. */
  method Strchr(buf: array<byte>, p: nat, ghost s: seq<byte>) returns (k: nat)
    requires Holds(buf, p, s)
    ensures k == |Segment(s)|
  {
    k := 0;
    ghost var g := Segment(s);
    while buf[p + k] != 0 && buf[p + k] != SLASH
      invariant k <= |g|
      decreases |g| - k
    {
      ZeroAtEnd(buf, p, s, k);
      SegmentEnds(s, k);
      k := k + 1;
    }
    ZeroAtEnd(buf, p, s, k);
    SegmentEnds(s, k);
  }

  lemma SegmentEnds(s: seq<byte>, k: nat)
    requires k <= |Segment(s)|
    ensures k == |Segment(s)| <==> k == |s| || s[k] == SLASH
  {
    if k < |Segment(s)| {
      assert Segment(s)[k] == s[..|Segment(s)|][k] && Segment(s)[k] in Segment(s);
    }
  }

  /** The buffer holds `more` at p, but for its slash. */
  ghost predicate Unslashed(buf: array<byte>, p: int, more: seq<byte>)
    reads buf
  {
    && 0 <= p && p + |more| < buf.Length && more != [] && more[0] == SLASH && 0 !in more && buf[p + |more|] == 0
    && forall k :: 0 < k < |more| ==> buf[p + k] == more[k]
  }

  /** Cut off the next segment. */
  method CutSegment(buf: array<byte>, p: nat, ghost rest: seq<byte>) returns (k: nat, cut: bool)
    requires Holds(buf, p, rest)
    modifies buf
    ensures k == |Segment(rest)| <= |rest| && cut == (k < |rest|) && Holds(buf, p, Segment(rest))
    ensures cut ==> Unslashed(buf, p + k, rest[k..])
  {
    k := Strchr(buf, p, rest);
    ghost var segment, more := Segment(rest), rest[k..];
    assert rest == segment + more;
    ZeroAtEnd(buf, p, rest, k);
    Suffix(buf, p, segment, more);
    Cut(buf, p, segment, more);
    hide Segment;
    cut := buf[p + k] != 0;
    if cut {
      buf[p + k] := 0;
    }
  }

  /** Put the slash back. */
  method Mend(buf: array<byte>, p: nat, ghost more: seq<byte>)
    requires Unslashed(buf, p, more)
    modifies buf
    ensures Holds(buf, p, more)
  {
    buf[p] := SLASH;
  }

  lemma RecursiveUnfold(v: Value, path: seq<byte>)
    ensures GetRecursive(v, path)
            == if path == [] || path[0] != SLASH then Invalid
               else
                 var rest := path[1..];
                 var segment := Segment(rest);
                 var c := GetSingle(v, segment);
                 if !c.Ok? || |segment| == |rest| then c else GetRecursive(c.value, rest[|segment|..])
  {
  }

  /** json_pointer_get_recursive: the segment is cut off by a zero byte, unescaped in place, and
      the slash behind it put back before the next turn. */
  method GetRecursiveAt(buf: array<byte>, p: nat, v: Value, ghost path: seq<byte>) returns (r: Found)
    requires Holds(buf, p, path)
    modifies buf
    ensures r == GetRecursive(v, path)
    decreases |path|
  {
    hide GetSingle, Segment, GetRecursive, Holds;
    ZeroAtEnd(buf, p, path, 0);
    RecursiveUnfold(v, path);
    if buf[p] != SLASH {
      return Invalid;
    }
    ghost var rest := path[1..];
    assert path == [SLASH] + rest;
    Suffix(buf, p, [SLASH], rest);
    var k, cut := CutSegment(buf, p + 1, rest);
    r := GetSingleAt(buf, p + 1, v, Segment(rest));
    if cut && r.Ok? {
      Mend(buf, p + 1 + k, rest[k..]);
      r := GetRecursiveAt(buf, p + 1 + k, r.value, rest[k..]);
    }
  }

  lemma Cut(buf: array<byte>, p: nat, segment: seq<byte>, more: seq<byte>)
    requires Holds(buf, p, segment + more)
    ensures 0 !in segment && forall k :: 0 <= k < |segment| ==> buf[p + k] == segment[k]
  {
    forall k | 0 <= k < |segment| ensures buf[p + k] == segment[k] {
      assert (segment + more)[k] == segment[k];
    }
    forall x <- segment ensures x in segment + more {
    }
  }

  /** json_pointer_get, on a working copy of the path. */
  method GetPath(v: Value, path: seq<byte>) returns (r: Found)
    requires 0 !in path
    ensures r == Get(v, path)
  {
    if v == Null {
      return Invalid;
    }
    if path == [] {
      return Ok(v);
    }
    var copy := new byte[|path| + 1];
    Print(copy, 0, path);
    copy[|path|] := 0;
    assert copy[..|path|] == path;
    assert forall k :: 0 <= k < |path| ==> copy[0 + k] == copy[..|path|][k];
    r := GetRecursiveAt(copy, 0, v, path);
  }

  lemma {:induction false} PathIsText(tokens: seq<seq<byte>>)
    requires forall t <- tokens :: 0 !in t
    ensures 0 !in Path(tokens)
  {
    if tokens != [] {
      EscapedIsText(tokens[0]);
      PathIsText(tokens[1..]);
    }
  }

  lemma {:induction false} EscapedIsText(t: seq<byte>)
    requires 0 !in t
    ensures 0 !in Escape(t)
  {
    if t != [] {
      EscapedIsText(t[1..]);
    }
  }

  method EscapeToken(t: seq<byte>) returns (s: seq<byte>)
    ensures s == Escape(t)
  {
    s := [];
    assert t[0..] == t;
    for i := 0 to |t|
      invariant s + Escape(t[i..]) == Escape(t)
    {
      assert t[i..][1..] == t[i + 1..];
      Append(s, EscapeByte(t[i]), Escape(t[i + 1..]));
      s := s + EscapeByte(t[i]);
    }
    assert s + [] == s;
  }

  /** Building the path of any tokens and looking it up walks down token by token. */
  method GetTokens(v: Value, tokens: seq<seq<byte>>) returns (r: Found)
    requires forall t <- tokens :: 0 !in t
    ensures r == if v == Null then Invalid else Walk(v, tokens)
  {
    var path: seq<byte> := [];
    assert tokens[0..] == tokens;
    for i := 0 to |tokens|
      invariant path + Path(tokens[i..]) == Path(tokens)
    {
      assert tokens[i..][1..] == tokens[i + 1..];
      var e := EscapeToken(tokens[i]);
      Append(path, [SLASH] + e, Path(tokens[i + 1..]));
      path := path + ([SLASH] + e);
    }
    assert path + [] == path;
    PathIsText(tokens);
    GetWalks(v, tokens);
    hide Walk, Get, Path;
    r := GetPath(v, path);
  }
}
