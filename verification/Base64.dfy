/** Base64 (section 4 of RFC 4648): b64_encode and b64_decode_ex, and how they undo each other. */
module Base64 {
  import opened Bytes

  const PAD: byte := 61

  /** Entry l of b64_table. */
  function Char(l: nat): (c: byte)
    requires l < 64
    ensures IsChar(c)
  {
    if l < 26 then 65 + l else if l < 52 then 97 + (l - 26) else if l < 62 then 48 + (l - 52) else if l == 62 then 43 else 47
  }

  /** isalnum, or one of the two signs. */
  predicate IsChar(c: byte) {
    65 <= c <= 90 || 97 <= c <= 122 || 48 <= c <= 57 || c == 43 || c == 47
  }

  /** Where the table has c. */
  function Value(c: byte): (l: nat)
    requires IsChar(c)
    ensures l < 64 && Char(l) == c
  {
    if 65 <= c <= 90 then c - 65
    else if 97 <= c <= 122 then c - 97 + 26
    else if 48 <= c <= 57 then c - 48 + 52
    else if c == 43 then 62
    else 63
  }

  /** The alphabet of table 1 of RFC 4648, in rows of sixteen. */
  const ROW0: string := "ABCDEFGHIJKLMNOP"
  const ROW1: string := "QRSTUVWXYZabcdef"
  const ROW2: string := "ghijklmnopqrstuv"
  const ROW3: string := "wxyz0123456789+/"

  function Letter(l: nat): char
    requires l < 64
  {
    var row := if l < 16 then ROW0 else if l < 32 then ROW1 else if l < 48 then ROW2 else ROW3;
    row[l % 16]
  }

  /** The table is that alphabet, and no other character is in it. */
  lemma TableIsAlphabet(c: byte)
    ensures forall l: nat :: l < 64 ==> Char(l) == Letter(l) as int
    ensures IsChar(c) <==> exists l: nat :: l < 64 && c == Letter(l) as int
  {
    forall l: nat | l < 64 ensures Char(l) == Letter(l) as int {
      LetterIsChar(l);
    }
    hide Letter, Char;
    if IsChar(c) {
      assert c == Letter(Value(c)) as int;
    }
  }

  lemma LetterIsChar(l: nat)
    requires l < 64
    ensures Char(l) == Letter(l) as int
  {
    Rows(l % 16);
  }

  lemma Rows(i: nat)
    requires i < 16
    ensures ROW0[i] as int == 65 + i
    ensures ROW1[i] as int == if i < 10 then 81 + i else 87 + i
    ensures ROW2[i] as int == 103 + i
    ensures ROW3[i] as int == if i < 4 then 119 + i else if i < 14 then 44 + i else if i == 14 then 43 else 47
  {
  }

  lemma ValueOfChar(l: nat)
    requires l < 64
    ensures Value(Char(l)) == l
  {
  }

  /** Four 6-bit values for three bytes. */
  function Sextets(a: byte, b: byte, c: byte): (s: seq<nat>)
    ensures |s| == 4 && forall i :: 0 <= i < 4 ==> s[i] < 64
  {
    [a / 4, a % 4 * 16 + b / 16, b % 16 * 4 + c / 64, c % 64]
  }

  /** The four values are the 24 bits of the three bytes, the first bits first. */
  lemma SextetsAreBits(a: byte, b: byte, c: byte)
    ensures var s := Sextets(a, b, c);
            ((s[0] * 64 + s[1]) * 64 + s[2]) * 64 + s[3] == (a * 256 + b) * 256 + c
  {
    assert a == 4 * (a / 4) + a % 4 && b == 16 * (b / 16) + b % 16 && c == 64 * (c / 64) + c % 64;
  }

  /** Three bytes for four 6-bit values. */
  function Octets(p: nat, q: nat, r: nat, s: nat): (b: seq<byte>)
    requires p < 64 && q < 64 && r < 64 && s < 64
    ensures |b| == 3
  {
    [p * 4 + q / 16, q % 16 * 16 + r / 4, r % 4 * 64 + s]
  }

  lemma OctetsOfSextets(a: byte, b: byte, c: byte)
    ensures var s := Sextets(a, b, c); Octets(s[0], s[1], s[2], s[3]) == [a, b, c]
  {
  }

  lemma SextetsOfOctets(p: nat, q: nat, r: nat, s: nat)
    requires p < 64 && q < 64 && r < 64 && s < 64
    ensures var b := Octets(p, q, r, s); Sextets(b[0], b[1], b[2]) == [p, q, r, s]
  {
    var b := Octets(p, q, r, s);
    assert b[0] / 4 == p && b[0] % 4 == q / 16;
    assert b[1] / 16 == q % 16 && b[1] % 16 == r / 4;
    assert b[2] / 64 == r % 4 && b[2] % 64 == s;
    hide Octets;
    assert q / 16 * 16 + q % 16 == q && r / 4 * 4 + r % 4 == r;
  }

  /** The characters of one group of n bytes, filled up with zero bytes. */
  function Group(x: seq<byte>): (t: seq<byte>)
    requires 1 <= |x| <= 3
    ensures |t| == |x| + 1 && forall i :: 0 <= i < |t| ==> IsChar(t[i])
  {
    var s := Sextets(x[0], if |x| > 1 then x[1] else 0, if |x| > 2 then x[2] else 0);
    seq(|x| + 1, i requires 0 <= i <= |x| => Char(s[i]))
  }

  /** The characters without the padding. */
  function Chars(x: seq<byte>): (t: seq<byte>)
    ensures forall i :: 0 <= i < |t| ==> IsChar(t[i])
  {
    if x == [] then []
    else if |x| <= 3 then Group(x)
    else Group(x[..3]) + Chars(x[3..])
  }

  function Padding(n: nat): seq<byte> {
    if n % 3 == 0 then [] else if n % 3 == 1 then [PAD, PAD] else [PAD]
  }

  function Encoded(x: seq<byte>): seq<byte> {
    Chars(x) + Padding(|x|)
  }

  /** The characters before the first one that is not in the table. */
  function Leading(s: seq<byte>): (t: seq<byte>)
    ensures forall i :: 0 <= i < |t| ==> IsChar(t[i])
  {
    if s == [] || !IsChar(s[0]) then [] else [s[0]] + Leading(s[1..])
  }

  /** The bytes of up to four characters; missing ones count as 0. */
  function Ungroup(t: seq<byte>): (x: seq<byte>)
    requires 1 <= |t| <= 4 && forall i :: 0 <= i < |t| ==> IsChar(t[i])
    ensures |x| == |t| - 1
  {
    Octets(Value(t[0]),
           if |t| > 1 then Value(t[1]) else 0,
           if |t| > 2 then Value(t[2]) else 0,
           if |t| > 3 then Value(t[3]) else 0)[..|t| - 1]
  }

  function Data(t: seq<byte>): seq<byte>
    requires forall i :: 0 <= i < |t| ==> IsChar(t[i])
  {
    if t == [] then []
    else if |t| <= 4 then Ungroup(t)
    else Ungroup(t[..4]) + Data(t[4..])
  }

  function Decoded(s: seq<byte>): seq<byte> {
    Data(Leading(s))
  }

  // ----- decoding undoes encoding

  lemma UngroupGroup(x: seq<byte>)
    requires 1 <= |x| <= 3
    ensures Ungroup(Group(x)) == x
  {
    var b, c := if |x| > 1 then x[1] else 0, if |x| > 2 then x[2] else 0;
    var s := Sextets(x[0], b, c);
    ValueOfChar(s[0]);
    ValueOfChar(s[1]);
    ValueOfChar(s[2]);
    ValueOfChar(s[3]);
    OctetsOfSextets(x[0], b, c);
  }

  lemma {:induction false} DataOfChars(x: seq<byte>)
    ensures Data(Chars(x)) == x
  {
    hide Group, Ungroup;
    if 0 < |x| <= 3 {
      UngroupGroup(x);
    } else if |x| > 3 {
      UngroupGroup(x[..3]);
      DataOfChars(x[3..]);
      var t := Chars(x);
      CharsNonempty(x[3..]);
      assert t[..4] == Group(x[..3]) && t[4..] == Chars(x[3..]);
      assert x == x[..3] + x[3..];
    }
  }

  lemma CharsNonempty(x: seq<byte>)
    requires x != []
    ensures |Chars(x)| > 0
  {
  }

  lemma {:induction false} LeadingOf(t: seq<byte>, rest: seq<byte>)
    requires (forall i :: 0 <= i < |t| ==> IsChar(t[i])) && (rest == [] || !IsChar(rest[0]))
    ensures Leading(t + rest) == t
  {
    if t == [] {
      assert t + rest == rest;
    } else {
      assert (t + rest)[1..] == t[1..] + rest;
      LeadingOf(t[1..], rest);
    }
  }

  /** Decoding undoes encoding, on every byte string. */
  lemma DecodeUndoesEncode(x: seq<byte>)
    ensures Decoded(Encoded(x)) == x
  {
    LeadingOf(Chars(x), Padding(|x|));
    DataOfChars(x);
  }

  lemma {:induction false} CharsLength(x: seq<byte>)
    ensures |Chars(x)| == |x| / 3 * 4 + (if |x| % 3 == 0 then 0 else |x| % 3 + 1)
  {
    if |x| > 3 {
      CharsLength(x[3..]);
    }
  }

  lemma EncodedLength(x: seq<byte>)
    ensures |Encoded(x)| == (|x| + 2) / 3 * 4
  {
    CharsLength(x);
    hide Chars;
    assert |x| == 3 * (|x| / 3) + |x| % 3;
  }

  // ----- encoding undoes decoding

  /** A text with full groups, padding only at the end, and unused bits zero. */
  ghost predicate Canonical(s: seq<byte>)
    decreases |s|
  {
    s == []
    || (|s| >= 4 && IsChar(s[0]) && IsChar(s[1])
        && (if IsChar(s[2]) && IsChar(s[3]) then Canonical(s[4..])
            else if IsChar(s[2]) then |s| == 4 && s[3] == PAD && Value(s[2]) % 4 == 0
            else |s| == 4 && s[2] == PAD && s[3] == PAD && Value(s[1]) % 16 == 0))
  }

  lemma GroupUngroup(t: seq<byte>)
    requires 2 <= |t| <= 4 && forall i :: 0 <= i < |t| ==> IsChar(t[i])
    requires |t| == 2 ==> Value(t[1]) % 16 == 0
    requires |t| == 3 ==> Value(t[2]) % 4 == 0
    ensures Group(Ungroup(t)) == t
  {
    var p, q := Value(t[0]), Value(t[1]);
    var r, s := if |t| > 2 then Value(t[2]) else 0, if |t| > 3 then Value(t[3]) else 0;
    SextetsOfOctets(p, q, r, s);
    assert |t| == 2 ==> Octets(p, q, r, s)[1] == 0;
    assert |t| <= 3 ==> Octets(p, q, r, s)[2] == 0;
  }

  /** A full group in front. */
  lemma FullGroup(s: seq<byte>)
    requires |s| >= 4 && forall i :: 0 <= i < 4 ==> IsChar(s[i])
    ensures Encoded(Decoded(s)) == s[..4] + Encoded(Decoded(s[4..]))
  {
    var t, a := Leading(s[4..]), s[..4];
    assert s == a + s[4..];
    LeadingPrefix(a, s[4..]);
    assert Leading(s) == a + t;
    GroupUngroup(a);
    var x, y := Ungroup(a), Data(t);
    hide Group, Ungroup, Leading, Data, Encoded;
    DataPrefix(a, t);
    EncodedPrefix(x, y);
  }

  lemma EncodedPrefix(x: seq<byte>, y: seq<byte>)
    requires |x| == 3
    ensures Encoded(x + y) == Group(x) + Encoded(y)
  {
    hide Chars, Group;
    CharsPrefix(x, y);
    assert |x + y| % 3 == |y| % 3;
    Append(Group(x), Chars(y), Padding(|y|));
  }

  lemma {:induction false} LeadingPrefix(t: seq<byte>, rest: seq<byte>)
    requires forall i :: 0 <= i < |t| ==> IsChar(t[i])
    ensures Leading(t + rest) == t + Leading(rest)
  {
    if t == [] {
      assert t + rest == rest && t + Leading(rest) == Leading(rest);
    } else {
      assert (t + rest)[1..] == t[1..] + rest;
      LeadingPrefix(t[1..], rest);
    }
  }

  /** The last, padded group. */
  lemma LastGroup(s: seq<byte>, k: nat)
    requires |s| == 4 && 2 <= k <= 3 && (forall i :: 0 <= i < k ==> IsChar(s[i])) && forall i :: k <= i < 4 ==> s[i] == PAD
    requires k == 2 ==> Value(s[1]) % 16 == 0
    requires k == 3 ==> Value(s[2]) % 4 == 0
    ensures Encoded(Decoded(s)) == s
  {
    assert s == s[..k] + s[k..];
    LeadingOf(s[..k], s[k..]);
    GroupUngroup(s[..k]);
    hide Group, Ungroup, Leading;
    assert Encoded(Decoded(s)) == s[..k] + Padding(k - 1);
  }

  lemma {:induction false} CanonicalReencodes(s: seq<byte>)
    requires Canonical(s)
    ensures Encoded(Decoded(s)) == s
    decreases |s|
  {
    if s == [] {
    } else if IsChar(s[2]) && IsChar(s[3]) {
      FullGroup(s);
      CanonicalReencodes(s[4..]);
      assert s == s[..4] + s[4..];
    } else {
      LastGroup(s, if IsChar(s[2]) then 3 else 2);
    }
  }

  lemma ShortCanonical(x: seq<byte>)
    requires |x| < 3
    ensures Canonical(Encoded(x))
  {
    if x != [] {
      var q := Sextets(x[0], if |x| > 1 then x[1] else 0, 0);
      ValueOfChar(q[1]);
      ValueOfChar(q[2]);
      assert Encoded(x)[0] == Group(x)[0] && Encoded(x)[1] == Group(x)[1];
    }
  }

  lemma {:induction false} EncodedCanonical(x: seq<byte>)
    ensures Canonical(Encoded(x))
  {
    var s := Encoded(x);
    if |x| < 3 {
      ShortCanonical(x);
    } else {
      assert x == x[..3] + x[3..];
      EncodedPrefix(x[..3], x[3..]);
      EncodedCanonical(x[3..]);
      assert s[4..] == Encoded(x[3..]);
    }
  }

  /** The texts that decoding and encoding give back are the canonical ones. */
  lemma EncodeUndoesDecode(s: seq<byte>)
    ensures Encoded(Decoded(s)) == s <==> Canonical(s)
  {
    EncodedCanonical(Decoded(s));
    if Canonical(s) {
      CanonicalReencodes(s);
    }
  }

  // ----- the loops

  /** b64_encode: three bytes at a time through tmp. */
  method Encode(src: seq<byte>) returns (enc: seq<byte>)
    ensures enc == Encoded(src)
  {
    hide Chars;
    var tmp;
    enc, tmp := EncodeGroups(src);
    if |tmp| > 0 {
      ShortChars(tmp);
      enc := enc + Group(tmp);
      var i := |tmp|;
      while i < 3
        invariant |tmp| <= i <= 3 && enc == Chars(src) + seq(i - |tmp|, _ => PAD)
      {
        assert seq(i - |tmp| + 1, _ => PAD) == seq(i - |tmp|, _ => PAD) + [PAD];
        Append(Chars(src), seq(i - |tmp|, _ => PAD), [PAD]);
        enc := enc + [PAD];
        i := i + 1;
      }
      assert seq(3 - |tmp|, _ => PAD) == Padding(|src|);
    } else {
      assert enc + [] == enc;
      NoChars();
    }
  }

  lemma ShortChars(x: seq<byte>)
    requires 1 <= |x| <= 3
    ensures Chars(x) == Group(x)
  {
  }

  lemma NoChars()
    ensures Chars([]) == []
  {
  }

  /** The loop over the full groups; what is left over stays in tmp. */
  method EncodeGroups(src: seq<byte>) returns (enc: seq<byte>, tmp: seq<byte>)
    ensures |tmp| == |src| % 3 && enc + Chars(tmp) == Chars(src)
  {
    hide Group, Chars;
    tmp, enc := [], [];
    assert src[0..] == src && [] + src == src && [] + Chars(src) == Chars(src);
    for j := 0 to |src|
      invariant |tmp| == j % 3
      invariant enc + Chars(tmp + src[j..]) == Chars(src)
    {
      assert tmp + src[j..] == tmp + [src[j]] + src[j + 1..];
      tmp := tmp + [src[j]];
      if |tmp| == 3 {
        CharsPrefix(tmp, src[j + 1..]);
        Append(enc, Group(tmp), Chars(src[j + 1..]));
        enc := enc + Group(tmp);
        tmp := [];
        assert [] + src[j + 1..] == src[j + 1..];
      }
    }
    assert tmp + src[|src|..] == tmp;
  }

  lemma CharsPrefix(x: seq<byte>, y: seq<byte>)
    requires |x| == 3
    ensures Chars(x + y) == Group(x) + Chars(y)
  {
    if y == [] {
      assert x + y == x && Group(x) + [] == Group(x);
    } else {
      assert (x + y)[..3] == x && (x + y)[3..] == y;
    }
  }

  lemma InTable(c: byte)
    ensures IsChar(c) ==> exists k :: 0 <= k < 64 && Char(k) == c
  {
    if IsChar(c) {
      assert Char(Value(c)) == c;
    }
  }

  /** The search for a character in the table. */
  method Translate(c: byte) returns (l: nat)
    ensures if IsChar(c) then l < 64 && l == Value(c) else l == c
  {
    l := 0;
    while l < 64
      invariant l <= 64 && forall k :: 0 <= k < l ==> Char(k) != c
    {
      if Char(l) == c {
        ValueOfChar(l);
        return;
      }
      l := l + 1;
    }
    InTable(c);
    l := c;
  }

  /** Translate four characters, or zero bytes where there are none, and put the bits together. */
  method Assemble(tmp: seq<byte>) returns (x: seq<byte>)
    requires 1 <= |tmp| <= 4 && forall i :: 0 <= i < |tmp| ==> IsChar(tmp[i])
    ensures x == Ungroup(tmp)
  {
    var p := Translate(tmp[0]);
    var q := Translate(if |tmp| > 1 then tmp[1] else 0);
    var r := Translate(if |tmp| > 2 then tmp[2] else 0);
    var s := Translate(if |tmp| > 3 then tmp[3] else 0);
    x := Octets(p, q, r, s)[..|tmp| - 1];
  }

  /** b64_decode_ex: four characters at a time, up to the first one that is none. */
  method Decode(src: seq<byte>) returns (dec: seq<byte>)
    ensures dec == Decoded(src)
  {
    hide Ungroup;
    var tmp: seq<byte> := [];
    dec := [];
    var j := 0;
    assert src[0..] == src && [] + Leading(src) == Leading(src);
    while j < |src|
      invariant j <= |src| && |tmp| < 4 && forall i :: 0 <= i < |tmp| ==> IsChar(tmp[i])
      invariant dec + Data(tmp + Leading(src[j..])) == Decoded(src)
    {
      if src[j] == PAD || !IsChar(src[j]) {
        break;
      }
      assert src[j..][1..] == src[j + 1..];
      assert tmp + Leading(src[j..]) == tmp + [src[j]] + Leading(src[j + 1..]);
      tmp := tmp + [src[j]];
      j := j + 1;
      if |tmp| == 4 {
        var x := Assemble(tmp);
        DataPrefix(tmp, Leading(src[j..]));
        Append(dec, x, Data(Leading(src[j..])));
        dec := dec + x;
        tmp := [];
        assert [] + Leading(src[j..]) == Leading(src[j..]);
      }
    }
    assert Leading(src[j..]) == [] && tmp + [] == tmp;
    if |tmp| > 0 {
      var x := Assemble(tmp);
      dec := dec + x;
    } else {
      assert dec + [] == dec;
    }
  }

  lemma DataPrefix(t: seq<byte>, y: seq<byte>)
    requires |t| == 4 && (forall i :: 0 <= i < |t| ==> IsChar(t[i])) && forall i :: 0 <= i < |y| ==> IsChar(y[i])
    ensures Data(t + y) == Ungroup(t) + Data(y)
  {
    if y == [] {
      assert t + y == t && Ungroup(t) + [] == Ungroup(t);
    } else {
      assert (t + y)[..4] == t && (t + y)[4..] == y;
    }
  }
}
