/** The \u escapes that parse_string of cJSON reads, against UTF-8 and UTF-16. */
module CJsonUnicode {
  import opened Bytes
  import opened Unicode
  import opened CJsonText
  import opened CJsonParse

  /** The escape of a code unit. */
  function Escaped(h: seq<byte>): seq<byte> {
    [BACKSLASH, 117] + h
  }

  lemma UnitSum(u: nat)
    requires u < 0x10000
    ensures ((u / 4096 * 16 + u / 256 % 16) * 16 + u / 16 % 16) * 16 + u % 16 == u
  {
    var q := u / 16;
    var p := q / 16;
    assert p == u / 256 && p / 16 == u / 4096;
    assert u == 16 * q + u % 16 && q == 16 * p + q % 16 && p == 16 * (p / 16) + p % 16;
  }

  lemma UnitRead(h: seq<byte>, u: nat, s: seq<byte>, p: nat)
    requires SpellsCode(h, u) && p + 4 <= |s| && s[p..p + 4] == h
    ensures HasHex4(s, p) && Hex4(s, p) == u
  {
    forall i | 0 <= i < 4 ensures s[p + i] == h[i] {
      assert s[p..p + 4][i] == s[p + i];
    }
    SpelledIsHex(h[0], u / 4096);
    SpelledIsHex(h[1], u / 256 % 16);
    SpelledIsHex(h[2], u / 16 % 16);
    SpelledIsHex(h[3], u % 16);
    UnitSum(u);
    hide Spells, IsHex, HexValue;
  }

  /** A character of the basic plane in four digits, in either case. */
  lemma EscapeStep(h: seq<byte>, u: nat, rest: seq<byte>)
    requires SpellsCode(h, u) && Scalar(u) && u != 0
    ensures StepOf(Escaped(h) + rest) == Step(Utf8(u), 6) && Decode(Utf8(u)) == Some(u)
  {
    var s := Escaped(h) + rest;
    UnitRead(h, u, s, 2);
    Utf8Decodes(u);
    hide SpellsCode, Hex4, HasHex4, Decode, Utf8;
    assert s[0] == BACKSLASH && s[1] == 117;
  }

  /** A surrogate pair gives the code point that it encodes. */
  lemma PairStep(h: seq<byte>, hi: nat, l: seq<byte>, lo: nat, u: nat, rest: seq<byte>)
    requires SpellsCode(h, hi) && SpellsCode(l, lo) && Pairs(hi, lo, u)
    ensures StepOf(Escaped(h) + Escaped(l) + rest) == Step(Utf8(u), 12) && Decode(Utf8(u)) == Some(u)
  {
    hide SpellsCode, Hex4, HasHex4, Decode, Utf8, Escaped, Pairs;
    var s := Escaped(h) + Escaped(l) + rest;
    FourDigits(h, hi);
    FourDigits(l, lo);
    PairShape(h, l, rest);
    UnitRead(h, hi, s, 2);
    UnitRead(l, lo, s, 8);
    PairSum(hi, lo, u);
    Utf8Decodes(u);
    PairMeans(s, hi, lo, u);
  }

  lemma FourDigits(h: seq<byte>, u: nat)
    requires SpellsCode(h, u)
    ensures |h| == 4
  {
  }

  lemma PairShape(h: seq<byte>, l: seq<byte>, rest: seq<byte>)
    requires |h| == |l| == 4
    ensures var s := Escaped(h) + Escaped(l) + rest;
            && |s| >= 12 && s[2..6] == h && s[8..12] == l
            && s[0] == s[6] == BACKSLASH && s[1] == s[7] == 117
  {
  }

  lemma PairMeans(s: seq<byte>, hi: nat, lo: nat, u: nat)
    requires |s| >= 12 && s[0] == s[6] == BACKSLASH && s[1] == s[7] == 117 && Pairs(hi, lo, u) && u < 0x110000
    requires HasHex4(s, 2) && Hex4(s, 2) == hi && HasHex4(s, 8) && Hex4(s, 8) == lo
    ensures StepOf(s) == Step(Utf8(u), 12)
  {
    PairSum(hi, lo, u);
    hide Hex4, HasHex4, Utf8;
  }

  /** The ten bits of each half. */
  lemma PairSum(hi: nat, lo: nat, u: nat)
    requires Pairs(hi, lo, u)
    ensures 0x10000 + hi % 0x400 * 0x400 + lo % 0x400 == u && Scalar(u)
  {
    assert hi % 0x400 == hi - 0xD800 && lo % 0x400 == lo - 0xDC00;
  }

  /** In a string, such an escape adds bytes that a reader of UTF-8 takes for that character. */
  lemma EscapeReads(h: seq<byte>, u: nat, rest: seq<byte>, out: seq<byte>) returns (b: seq<byte>)
    requires SpellsCode(h, u) && Scalar(u) && u != 0
    ensures ParseChars(Escaped(h) + rest, out) == ParseChars(rest, out + b) && Decode(b) == Some(u)
  {
    b := Utf8(u);
    EscapeStep(h, u, rest);
    hide StepOf, Decode, Utf8;
    assert |Escaped(h)| == 6 && (Escaped(h) + rest)[6..] == rest;
  }

  /** And so does a surrogate pair for the character that it encodes. */
  lemma PairReads(h: seq<byte>, hi: nat, l: seq<byte>, lo: nat, u: nat, rest: seq<byte>, out: seq<byte>)
    returns (b: seq<byte>)
    requires SpellsCode(h, hi) && SpellsCode(l, lo) && Pairs(hi, lo, u)
    ensures ParseChars(Escaped(h) + Escaped(l) + rest, out) == ParseChars(rest, out + b) && Decode(b) == Some(u)
  {
    b := Utf8(u);
    PairStep(h, hi, l, lo, u, rest);
    hide StepOf, Decode, Utf8;
    assert |Escaped(h) + Escaped(l)| == 12 && (Escaped(h) + Escaped(l) + rest)[12..] == rest;
  }

  /** Every character beyond the basic plane is encoded by one pair. */
  lemma HasPair(u: nat)
    requires 0x10000 <= u < 0x110000
    ensures var hi, lo := 0xD800 + (u - 0x10000) / 0x400, 0xDC00 + (u - 0x10000) % 0x400;
            Pairs(hi, lo, u) && forall a: nat, b: nat :: Pairs(a, b, u) ==> a == hi && b == lo
  {
  }
}
