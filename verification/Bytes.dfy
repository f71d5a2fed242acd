/** Bytes, and decimal text over bytes. */
module Bytes {
  type byte = x: int | 0 <= x < 256

  const CR: byte := 13
  const LF: byte := 10

  datatype Option<+T> = None | Some(value: T)

  /** Appending piece by piece is appending the whole. */
  lemma Append<T>(a: seq<T>, b: seq<T>, c: seq<T>)
    ensures a + b + c == a + (b + c)
  {
  }

  lemma Regroup<T>(h: seq<T>, c: seq<T>, o: seq<T>, b: seq<T>, t: seq<T>)
    ensures h + (c + o) + b + t == h + (c + (o + b + t))
  {
    Append(h, c + o, b);
    Append(h, c + o + b, t);
    Append(c, o, b);
    Append(c, o + b, t);
  }

  function Min(a: nat, b: nat): nat {
    if a < b then a else b
  }

  /** The byte at p; strings carry a NUL behind their last byte. */
  function At(s: seq<byte>, p: nat): byte {
    if p < |s| then s[p] else 0
  }

  function Ascii(s: string): seq<byte> {
    seq(|s|, i requires 0 <= i < |s| => s[i] as int % 256)
  }

  // ----- kinds of bytes

  /** isspace in the C locale. */
  predicate IsSpace(c: byte) {
    c == 32 || 9 <= c <= 13
  }

  predicate IsHex(c: byte) {
    48 <= c <= 57 || 65 <= c <= 70 || 97 <= c <= 102
  }

  function HexValue(c: byte): (n: nat)
    requires IsHex(c)
    ensures n < 16
  {
    if c <= 57 then c - 48 else if c <= 70 then c - 55 else c - 87
  }

  function HexDigit(n: nat): byte
    requires n < 16
  {
    if n < 10 then 48 + n else 87 + n
  }

  /** The digits of a byte are read back. */
  lemma HexOfByte(c: byte)
    ensures IsHex(HexDigit(c / 16)) && IsHex(HexDigit(c % 16))
    ensures HexValue(HexDigit(c / 16)) * 16 + HexValue(HexDigit(c % 16)) == c
  {
  }

  /** A code point in UTF-8. */
  function Utf8(u: nat): (b: seq<byte>)
    requires u < 0x110000
    ensures 1 <= |b| <= 4 && (u < 0x10000 ==> |b| <= 3)
  {
    if u < 0x80 then [u]
    else if u < 0x800 then [0xC0 + u / 64, 0x80 + u % 64]
    else if u < 0x10000 then [0xE0 + u / 4096, 0x80 + u / 64 % 64, 0x80 + u % 64]
    else [0xF0 + u / 262144, 0x80 + u / 4096 % 64, 0x80 + u / 64 % 64, 0x80 + u % 64]
  }

  // ----- a stream that arrives in chunks

  function Flatten(chunks: seq<seq<byte>>): seq<byte> {
    if chunks == [] then [] else chunks[0] + Flatten(chunks[1..])
  }

  lemma {:induction false} FlattenSnoc(chunks: seq<seq<byte>>, c: seq<byte>)
    ensures Flatten(chunks + [c]) == Flatten(chunks) + c
  {
    if chunks == [] {
      assert chunks + [c] == [c] && c + Flatten([]) == c;
    } else {
      assert (chunks + [c])[1..] == chunks[1..] + [c];
      FlattenSnoc(chunks[1..], c);
      Append(chunks[0], Flatten(chunks[1..]), c);
    }
  }

  lemma FlattenNext(chunks: seq<seq<byte>>, k: nat)
    requires k < |chunks|
    ensures Flatten(chunks[..k + 1]) == Flatten(chunks[..k]) + chunks[k]
  {
    assert chunks[..k + 1] == chunks[..k] + [chunks[k]];
    FlattenSnoc(chunks[..k], chunks[k]);
  }

  // ----- decimal text

  predicate IsDigit(b: byte) {
    48 <= b <= 57
  }

  /** The decimal text of n, as `%d` and `%zu` print it. */
  function Digits(n: nat): (s: seq<byte>)
    ensures |s| > 0 && forall i :: 0 <= i < |s| ==> IsDigit(s[i])
    ensures s[0] == 48 ==> n == 0
  {
    if n < 10 then [48 + n] else Digits(n / 10) + [48 + n % 10]
  }

  /** The number a run of digits denotes, read left to right after `v`. */
  function NatOf(s: seq<byte>, v: nat): nat
    requires forall i :: 0 <= i < |s| ==> IsDigit(s[i])
  {
    if s == [] then v else assert IsDigit(s[0]); NatOf(s[1..], 10 * v + (s[0] - 48))
  }

  lemma {:induction false} NatOfSnoc(s: seq<byte>, v: nat, d: byte)
    requires forall i :: 0 <= i < |s| ==> IsDigit(s[i])
    requires IsDigit(d)
    ensures NatOf(s + [d], v) == 10 * NatOf(s, v) + (d - 48)
  {
    if s == [] {
      assert ([d])[1..] == [];
    } else {
      assert (s + [d])[1..] == s[1..] + [d];
      NatOfSnoc(s[1..], 10 * v + (s[0] - 48), d);
    }
  }

  /** Reading back what was printed. */
  lemma {:induction false} NatOfDigits(n: nat)
    ensures NatOf(Digits(n), 0) == n
  {
    if n < 10 {
      assert ([48 + n])[1..] == [];
    } else {
      NatOfDigits(n / 10);
      NatOfSnoc(Digits(n / 10), 0, 48 + n % 10);
    }
  }

  /** Printing what was read, unless there is a leading zero. */
  lemma {:induction false} DigitsOfNatOf(s: seq<byte>)
    requires s != [] && (forall i :: 0 <= i < |s| ==> IsDigit(s[i])) && (|s| == 1 || s[0] != 48)
    ensures Digits(NatOf(s, 0)) == s
  {
    var n := |s| - 1;
    var t, d := s[..n], s[n];
    assert s == t + [d] && IsDigit(d);
    NatOfSnoc(t, 0, d);
    if n == 0 {
      assert t == [] && NatOf(t, 0) == 0;
    } else {
      DigitsOfNatOf(t);
      assert t[0] == s[0];
    }
  }

  // ----- buffers

  /** memcpy into a buffer. */
  method Copy(buf: array<byte>, pos: nat, s: seq<byte>)
    requires pos + |s| <= buf.Length
    modifies buf
    ensures buf[..pos + |s|] == old(buf[..pos]) + s
  {
    for i := 0 to |s|
      invariant buf[..pos + i] == old(buf[..pos]) + s[..i]
    {
      buf[pos + i] := s[i];
      assert buf[..pos + i + 1] == buf[..pos + i] + [s[i]];
      assert s[..i + 1] == s[..i] + [s[i]];
    }
    assert s[..|s|] == s;
  }

  /** strcpy and sprintf of a byte string: they also write the terminating NUL. */
  method Print(buf: array<byte>, pos: nat, s: seq<byte>)
    requires pos + |s| < buf.Length
    modifies buf
    ensures buf[..pos + |s|] == old(buf[..pos]) + s
  {
    Copy(buf, pos, s);
    ghost var done := buf[..pos + |s|];
    buf[pos + |s|] := 0;
    assert buf[..pos + |s|] == done;
  }

  method PutByte(buf: array<byte>, pos: nat, b: byte)
    requires pos < buf.Length
    modifies buf
    ensures buf[..pos + 1] == old(buf[..pos]) + [b]
  {
    buf[pos] := b;
  }
}
