/**
 The replies of a Redis server in the bytes of the protocol, and what the parser makes of them.
 */
module RespWire {
  import opened Bytes
  import opened RespSpec
  import opened RespFormat

  /** What a server sends; nil comes as a bulk string or as an array. */
  datatype Sent =
    | BulkString(bytes: seq<byte>)
    | StatusLine(line: seq<byte>)
    | ErrorLine(line: seq<byte>)
    | Number(value: int)
    | NilBulk
    | NilArray
    | List(elems: seq<Sent>)

  function Decimal(n: int): seq<byte> {
    if n < 0 then ['-' as int] + Digits(-n) else Digits(n)
  }

  function Wire(w: Sent): seq<byte>
    decreases w, 0
  {
    match w
    case BulkString(b) => ['$' as int] + (Decimal(|b|) + CRLF + (b + CRLF))
    case StatusLine(line) => ['+' as int] + (line + CRLF + [])
    case ErrorLine(line) => ['-' as int] + (line + CRLF + [])
    case Number(n) => [':' as int] + (Decimal(n) + CRLF + [])
    case NilBulk => ['$' as int] + (['-' as int, '1' as int] + CRLF + [])
    case NilArray => ['*' as int] + (['-' as int, '1' as int] + CRLF + [])
    case List(es) => ['*' as int] + (Decimal(|es|) + CRLF + WireAll(es))
  }

  function WireAll(es: seq<Sent>): seq<byte>
    decreases es, 1
  {
    if es == [] then [] else Wire(es[0]) + WireAll(es[1..])
  }

  function Meaning(w: Sent): Reply
    decreases w, 0
  {
    match w
    case BulkString(b) => Reply.Str(b)
    case StatusLine(line) => Reply.Status(line)
    case ErrorLine(line) => Reply.Err(line)
    case Number(n) => Reply.Integer(n)
    case NilBulk => Reply.Nil
    case NilArray => Reply.Nil
    case List(es) => Reply.Array(|es|, Meanings(es))
  }

  function Meanings(es: seq<Sent>): (rs: seq<Reply>)
    ensures |rs| == |es|
    decreases es, 1
  {
    if es == [] then [] else [Meaning(es[0])] + Meanings(es[1..])
  }

  /** Lines have no CR LF in them, and arrays stay within the depth of the reader. */
  predicate Sendable(w: Sent, level: nat)
    decreases w
  {
    match w
    case StatusLine(line) => OneLine(line)
    case ErrorLine(line) => OneLine(line)
    case NilArray => level < MAX_LEVEL
    case List(es) => level < MAX_LEVEL && forall e <- es :: Sendable(e, level + 1)
    case _ => true
  }

  predicate OneLine(line: seq<byte>) {
    forall j :: 0 <= j < |line| - 1 ==> !(line[j] == CR && line[j + 1] == LF)
  }

  // ----- lines

  lemma LineFound(line: seq<byte>, rest: seq<byte>)
    requires OneLine(line)
    ensures var s := line + CRLF + rest;
            Newline(s) == |line| && s[..|line|] == line && s[|line| + 2..] == rest
  {
    var s := line + CRLF + rest;
    assert CrlfAt(s, |line|);
    forall j | 0 <= j < |line| ensures !CrlfAt(s, j) {
      assert s[j] == line[j] && (j + 1 < |line| ==> s[j + 1] == line[j + 1]) && s[|line|] == CR;
    }
  }

  lemma DecimalLine(n: int)
    ensures OneLine(Decimal(n)) && LongLong(Decimal(n)) == n
  {
    var d := Decimal(n);
    var m := if n < 0 then -n else n;
    assert forall i :: 0 <= i < |Digits(m)| ==> IsDigit(Digits(m)[i]);
    assert forall i :: 0 <= i < |d| ==> d[i] != CR;
    LongLongOfDigits(m);
    assert n < 0 ==> d[1..] == Digits(m);
    NatOfDigits(m);
    AccumulateDigits(Digits(m), 0);
    assert IsDigit(Digits(m)[0]);
  }

  lemma MinusOne()
    ensures OneLine(['-' as int, '1' as int]) && LongLong(['-' as int, '1' as int]) == -1
  {
    assert Digits(1) == ['1' as int];
    DecimalLine(-1);
  }

  lemma {:induction false} DigitsOnly(s: seq<byte>, v: nat)
    requires CR !in s
    ensures Accumulate(s, v) == if forall i :: 0 <= i < |s| ==> IsDigit(s[i]) then Some(NatOf(s, v)) else None
  {
    if s != [] && IsDigit(s[0]) {
      DigitsOnly(s[1..], 10 * v + (s[0] - 48));
      assert (forall i :: 0 <= i < |s| ==> IsDigit(s[i])) <==> forall i :: 0 <= i < |s[1..]| ==> IsDigit(s[1..][i]) by {
        assert forall i :: 0 <= i < |s[1..]| ==> s[1..][i] == s[i + 1];
        assert forall i :: 0 < i < |s| ==> s[i] == s[1..][i - 1];
      }
    } else if s != [] {
      assert s[0] in s;
    }
  }

  /** A number is an optional sign and digits, leading zeros included; anything else is -1. */
  lemma NumberLine(d: seq<byte>)
    requires CR !in d && d != [] && d[0] != '-' as int && d[0] != '+' as int
    ensures (forall i :: 0 <= i < |d| ==> IsDigit(d[i])) ==>
              LongLong(d) == LongLong(['+' as int] + d) == NatOf(d, 0) && LongLong(['-' as int] + d) == 0 - NatOf(d, 0)
    ensures !(forall i :: 0 <= i < |d| ==> IsDigit(d[i])) ==>
              LongLong(d) == LongLong(['+' as int] + d) == LongLong(['-' as int] + d) == -1
  {
    DigitsOnly(d, 0);
    assert (['+' as int] + d)[1..] == d && (['-' as int] + d)[1..] == d;
  }

  // ----- one reply

  /** The bytes behind the type byte of a reply that is one line. */
  lemma LineParses(line: seq<byte>, rest: seq<byte>, level: nat)
    requires OneLine(line)
    ensures ParseItem(['+' as int] + (line + CRLF + []) + rest, level) == Done(Reply.Status(line), rest)
    ensures ParseItem(['-' as int] + (line + CRLF + []) + rest, level) == Done(Reply.Err(line), rest)
    ensures ParseItem([':' as int] + (line + CRLF + []) + rest, level) == Done(Reply.Integer(LongLong(line)), rest)
  {
    LineFound(line, rest);
    forall c: byte ensures ([c] + (line + CRLF + []) + rest)[0] == c && ([c] + (line + CRLF + []) + rest)[1..] == line + CRLF + rest {
    }
  }

  /** The bytes behind the type byte of a reply with a length in front. */
  lemma HeaderParses(c: byte, n: int, body: seq<byte>, rest: seq<byte>)
    ensures var s := [c] + (Decimal(n) + CRLF + body) + rest;
            s[0] == c && Newline(s[1..]) == |Decimal(n)| && LongLong(s[1..][..|Decimal(n)|]) == n
            && s[1..][|Decimal(n)| + 2..] == body + rest
  {
    DecimalLine(n);
    LineFound(Decimal(n), body + rest);
    hide Decimal, LongLong, Newline;
    var s := [c] + (Decimal(n) + CRLF + body) + rest;
    assert s[1..] == Decimal(n) + CRLF + (body + rest);
  }

  lemma BulkReplyParses(b: seq<byte>, rest: seq<byte>, level: nat)
    ensures ParseItem(Wire(BulkString(b)) + rest, level) == Done(Reply.Str(b), rest)
  {
    HeaderParses('$' as int, |b|, b + CRLF, rest);
    var s, i := (Wire(BulkString(b)) + rest)[1..], |Decimal(|b|)|;
    hide Newline, LongLong, Decimal;
    Append(b, CRLF, rest);
    assert s[i + 2..][..|b|] == s[i + 2..i + 2 + |b|] && (b + CRLF + rest)[..|b|] == b;
    assert s[i + 2..][|b| + 2..] == s[i + 2 + |b| + 2..] && (b + CRLF + rest)[|b| + 2..] == rest;
  }

  lemma NilParses(rest: seq<byte>, level: nat)
    ensures ParseItem(Wire(NilBulk) + rest, level) == Done(Reply.Nil, rest)
    ensures level < MAX_LEVEL ==> ParseItem(Wire(NilArray) + rest, level) == Done(Reply.Nil, rest)
  {
    assert Decimal(-1) == ['-' as int, '1' as int];
    HeaderParses('$' as int, -1, [], rest);
    HeaderParses('*' as int, -1, [], rest);
    hide Newline, LongLong, Decimal;
    assert [] + rest == rest;
    if level < MAX_LEVEL {
      ArrayItem(Wire(NilArray) + rest, level);
    }
  }

  /** What the parser does behind the type byte of an array. */
  lemma ArrayItem(s: seq<byte>, level: nat)
    requires s != [] && s[0] == '*' as int && level < MAX_LEVEL && Newline(s[1..]) >= 0
    ensures ParseItem(s, level) == ParseMulti(s[1..], Newline(s[1..]), level)
  {
    assert ParseItem(s, level) == ParseTyped(TArray, s[1..], level);
    hide Newline, ParseMulti;
  }

  /** Every reply is read as what it means, whatever follows it. */
  lemma {:induction false} WireParses(w: Sent, rest: seq<byte>, level: nat)
    requires Sendable(w, level)
    ensures ParseItem(Wire(w) + rest, level) == Done(Meaning(w), rest)
    decreases w, 0
  {
    match w
    case BulkString(b) => BulkReplyParses(b, rest, level);
    case StatusLine(line) => LineParses(line, rest, level);
    case ErrorLine(line) => LineParses(line, rest, level);
    case Number(n) =>
      DecimalLine(n);
      LineParses(Decimal(n), rest, level);
    case NilBulk => NilParses(rest, level);
    case NilArray => NilParses(rest, level);
    case List(es) => ArrayParses(es, rest, level);
  }

  lemma {:induction false} ArrayParses(es: seq<Sent>, rest: seq<byte>, level: nat)
    requires Sendable(List(es), level)
    ensures ParseItem(Wire(List(es)) + rest, level) == Done(Meaning(List(es)), rest)
    decreases es, 2
  {
    ElemsParse(es, rest, level + 1);
    HeaderParses('*' as int, |es|, WireAll(es), rest);
    hide Newline, LongLong, Decimal, WireAll, ParseElems, Meanings;
    ArrayItem(Wire(List(es)) + rest, level);
    if es == [] {
      NoElems(rest);
    }
  }

  lemma NoElems(rest: seq<byte>)
    ensures WireAll([]) + rest == rest && Meanings([]) == []
  {
  }

  lemma {:induction false} ElemsParse(es: seq<Sent>, rest: seq<byte>, level: nat)
    requires forall e <- es :: Sendable(e, level)
    ensures ParseElems(|es|, WireAll(es) + rest, level) == Done(Meanings(es), rest)
    decreases es, 1
  {
    if es == [] {
      NoElems(rest);
    } else {
      var more := WireAll(es[1..]) + rest;
      Append(Wire(es[0]), WireAll(es[1..]), rest);
      WireParses(es[0], more, level);
      ElemsParse(es[1..], rest, level);
      hide Wire, Meaning, ParseItem;
    }
  }

  // ----- streams

  /** Any list of replies is read as that list, before whatever follows. */
  lemma {:induction false} WiresReply(ws: seq<Sent>, rest: seq<byte>)
    requires forall w <- ws :: Sendable(w, 0)
    ensures Replies(WireAll(ws) + rest) == Replies(rest).Prepend(Meanings(ws))
  {
    hide Wire, Meaning, ParseItem, Sendable;
    if ws == [] {
      NoElems(rest);
      assert [] + Replies(rest).replies == Replies(rest).replies;
    } else {
      var more := WireAll(ws[1..]) + rest;
      Append(Wire(ws[0]), WireAll(ws[1..]), rest);
      WireParses(ws[0], more, 0);
      WiresReply(ws[1..], rest);
      Append([Meaning(ws[0])], Meanings(ws[1..]), Replies(rest).replies);
    }
  }

  /** Any other type byte breaks the protocol. */
  lemma UnknownByteFails(c: byte, rest: seq<byte>)
    requires c !in {'+' as int, '-' as int, ':' as int, '$' as int, '*' as int}
    ensures Replies([c] + rest) == Stream([], true)
  {
    assert ([c] + rest)[0] == c;
  }

  /** And so does an array below the ninth open one, before its length is read. */
  lemma TooDeepFails(rest: seq<byte>)
    ensures ParseItem(['*' as int] + rest, MAX_LEVEL) == Bad
  {
    assert (['*' as int] + rest)[0] == '*' as int;
  }
}
