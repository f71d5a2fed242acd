/**
 UTF-8 as section 3 of RFC 3629 defines it, from the side of a reader, and code units written
 with four hexadecimal digits: what the decoding of \u escapes is measured against.
 */
module Unicode {
  import opened Bytes

  // ----- hexadecimal digits

  const LOWER: string := "0123456789abcdef"
  const UPPER: string := "0123456789ABCDEF"

  /** c is the digit of value d, in either case. */
  predicate Spells(c: byte, d: nat) {
    d < 16 && (c == LOWER[d] as int || c == UPPER[d] as int)
  }

  lemma SpelledIsHex(c: byte, d: nat)
    requires Spells(c, d)
    ensures IsHex(c) && HexValue(c) == d
  {
  }

  /** No other byte is taken for a digit, and the digits that are written are digits. */
  lemma HexIsSpelled(c: byte, d: nat)
    ensures IsHex(c) ==> Spells(c, HexValue(c))
    ensures d < 16 ==> Spells(HexDigit(d), d)
  {
  }

  /** h is the code unit u in four digits. */
  predicate SpellsCode(h: seq<byte>, u: nat) {
    && |h| == 4 && u < 0x10000
    && Spells(h[0], u / 4096) && Spells(h[1], u / 256 % 16) && Spells(h[2], u / 16 % 16) && Spells(h[3], u % 16)
  }

  // ----- surrogates

  predicate High(u: nat) {
    0xD800 <= u <= 0xDBFF
  }

  predicate Low(u: nat) {
    0xDC00 <= u <= 0xDFFF
  }

  /** A code point that stands for a character. */
  predicate Scalar(u: nat) {
    u < 0x110000 && !High(u) && !Low(u)
  }

  /** hi and lo encode u in UTF-16 (section 2.1 of RFC 2781). */
  predicate Pairs(hi: nat, lo: nat, u: nat) {
    High(hi) && Low(lo) && u == 0x10000 + 0x400 * (hi - 0xD800) + (lo - 0xDC00)
  }

  // ----- reading UTF-8

  /** The bits that a continuation byte carries. */
  function Carried(b: byte): Option<nat> {
    if 0x80 <= b < 0xC0 then Some(b - 0x80) else None
  }

  /** The value of the continuation bytes behind the bits v of a lead byte. */
  function Continued(v: nat, b: seq<byte>): Option<nat>
    decreases |b|
  {
    if b == [] then Some(v)
    else
      match Carried(b[0])
      case None => None
      case Some(c) => Continued(64 * v + c, b[1..])
  }

  /** The code point that exactly these bytes encode: the lead byte announces the length, no
      shorter form exists, and it is no surrogate. */
  function Decode(b: seq<byte>): Option<nat> {
    if |b| == 1 && b[0] < 0x80 then Some(b[0])
    else if |b| == 2 && 0xC0 <= b[0] < 0xE0 then Checked(Continued(b[0] - 0xC0, b[1..]), 0x80)
    else if |b| == 3 && 0xE0 <= b[0] < 0xF0 then Checked(Continued(b[0] - 0xE0, b[1..]), 0x800)
    else if |b| == 4 && 0xF0 <= b[0] < 0xF8 then Checked(Continued(b[0] - 0xF0, b[1..]), 0x10000)
    else None
  }

  function Checked(u: Option<nat>, least: nat): Option<nat> {
    if u.Some? && u.value >= least && Scalar(u.value) then u else None
  }

  lemma ContinuedOne(v: nat, a: byte)
    requires 0x80 <= a < 0xC0
    ensures Continued(v, [a]) == Some(64 * v + (a - 0x80))
  {
    assert [a][1..] == [];
  }

  lemma ContinuedTwo(v: nat, a: byte, b: byte)
    requires 0x80 <= a < 0xC0 && 0x80 <= b < 0xC0
    ensures Continued(v, [a, b]) == Some(64 * (64 * v + (a - 0x80)) + (b - 0x80))
  {
    assert [a, b][1..] == [b];
    ContinuedOne(64 * v + (a - 0x80), b);
  }

  lemma ContinuedThree(v: nat, a: byte, b: byte, c: byte)
    requires 0x80 <= a < 0xC0 && 0x80 <= b < 0xC0 && 0x80 <= c < 0xC0
    ensures Continued(v, [a, b, c]) == Some(64 * (64 * (64 * v + (a - 0x80)) + (b - 0x80)) + (c - 0x80))
  {
    assert [a, b, c][1..] == [b, c];
    ContinuedTwo(64 * v + (a - 0x80), b, c);
  }

  lemma TwoDecode(u: nat)
    requires 0x80 <= u < 0x800
    ensures Decode([0xC0 + u / 64, 0x80 + u % 64]) == Some(u)
  {
    ContinuedOne(u / 64, 0x80 + u % 64);
    hide Continued;
    assert [0xC0 + u / 64, 0x80 + u % 64][1..] == [0x80 + u % 64];
  }

  lemma ThreeDecode(u: nat)
    requires 0x800 <= u < 0x10000 && Scalar(u)
    ensures Decode([0xE0 + u / 4096, 0x80 + u / 64 % 64, 0x80 + u % 64]) == Some(u)
  {
    var a, b, c := u / 4096, u / 64 % 64, u % 64;
    assert u == 64 * (64 * a + b) + c;
    ContinuedTwo(a, 0x80 + b, 0x80 + c);
    hide Continued;
    assert [0xE0 + a, 0x80 + b, 0x80 + c][1..] == [0x80 + b, 0x80 + c];
  }

  /** Six bits are split off. */
  lemma Sextet(u: nat)
    ensures u == 64 * (u / 64) + u % 64 && u / 64 / 64 == u / 4096
  {
  }

  lemma FourBytes(a: nat, b: nat, c: nat, d: nat)
    requires a < 8 && b < 64 && c < 64 && d < 64
    ensures Decode([0xF0 + a, 0x80 + b, 0x80 + c, 0x80 + d])
            == Checked(Some(64 * (64 * (64 * a + b) + c) + d), 0x10000)
  {
    ContinuedThree(a, 0x80 + b, 0x80 + c, 0x80 + d);
    hide Continued, Checked;
    assert [0xF0 + a, 0x80 + b, 0x80 + c, 0x80 + d][1..] == [0x80 + b, 0x80 + c, 0x80 + d];
  }

  lemma FourDecode(u: nat)
    requires 0x10000 <= u < 0x110000
    ensures Decode([0xF0 + u / 262144, 0x80 + u / 4096 % 64, 0x80 + u / 64 % 64, 0x80 + u % 64]) == Some(u)
  {
    hide Decode;
    Sextet(u);
    Sextet(u / 64);
    Sextet(u / 4096);
    assert u / 4096 / 64 == u / 262144;
    FourBytes(u / 262144, u / 4096 % 64, u / 64 % 64, u % 64);
  }

  /** What Utf8 writes is read back. */
  lemma Utf8Decodes(u: nat)
    requires Scalar(u)
    ensures Decode(Utf8(u)) == Some(u)
  {
    if u < 0x80 {
    } else if u < 0x800 {
      TwoDecode(u);
    } else if u < 0x10000 {
      ThreeDecode(u);
    } else {
      FourDecode(u);
    }
    hide Decode;
  }
}
