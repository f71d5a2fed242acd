/**
 Quoting and splitting of argument lines in sds: sdscatrepr writes a byte string in quotes,
 sdssplitargs takes a line apart. The functions read what is left of a line; a line ends at
 its end or at a zero byte.
 */
module SdsArgs {
  import opened Bytes

  const QUOTE: byte := 34
  const APOSTROPHE: byte := 39
  const BACKSLASH: byte := 92
  const SPACE: byte := 32

  type Line = seq<byte>

  predicate IsPrint(c: byte) {
    32 <= c <= 126
  }

  // ----- quoting

  function EscapeByte(c: byte): (e: seq<byte>)
    ensures |e| > 0
  {
    if c == BACKSLASH || c == QUOTE then [BACKSLASH, c]
    else if c == 10 then [BACKSLASH, 110]
    else if c == 13 then [BACKSLASH, 114]
    else if c == 9 then [BACKSLASH, 116]
    else if c == 7 then [BACKSLASH, 97]
    else if c == 8 then [BACKSLASH, 98]
    else if IsPrint(c) then [c]
    else [BACKSLASH, 120, HexDigit(c / 16), HexDigit(c % 16)]
  }

  function Escape(x: seq<byte>): seq<byte> {
    if x == [] then [] else EscapeByte(x[0]) + Escape(x[1..])
  }

  function Repr(x: seq<byte>): seq<byte> {
    [QUOTE] + Escape(x) + [QUOTE]
  }

  /** sdscatrepr. */
  method CatRepr(s: seq<byte>, p: seq<byte>) returns (r: seq<byte>)
    ensures r == s + Repr(p)
  {
    r := s + [QUOTE];
    assert p[0..] == p;
    Append(s, [QUOTE], Escape(p));
    for i := 0 to |p|
      invariant r + Escape(p[i..]) == s + ([QUOTE] + Escape(p))
    {
      assert p[i..][1..] == p[i + 1..];
      Append(r, EscapeByte(p[i]), Escape(p[i + 1..]));
      r := r + EscapeByte(p[i]);
    }
    assert r + Escape([]) == r;
    Append(s, [QUOTE] + Escape(p), [QUOTE]);
    r := r + [QUOTE];
  }

  /** The quoted strings with spaces between them. */
  function Joined(xs: seq<seq<byte>>): Line {
    if xs == [] then []
    else if |xs| == 1 then Repr(xs[0])
    else Repr(xs[0]) + [SPACE] + Joined(xs[1..])
  }

  // ----- splitting

  function Skip(s: Line): (r: Line)
    ensures |r| <= |s| && (r == [] || !IsSpace(r[0]))
    ensures At(s, 0) != 0 && !IsSpace(At(s, 0)) ==> r == s
  {
    if s != [] && IsSpace(s[0]) then Skip(s[1..]) else s
  }

  datatype Mode = Plain | Double | Single

  /** One turn of the token loop: the bytes to append, and how far to go in which mode. */
  datatype Turn = Take(bytes: seq<byte>, skip: nat, mode: Mode) | Stop(skip: nat) | Fail

  function Unescaped(c: byte): byte {
    if c == 110 then 10
    else if c == 114 then 13
    else if c == 116 then 9
    else if c == 98 then 8
    else if c == 97 then 7
    else c
  }

  /** A closing quote must be followed by a space or by nothing. */
  function Closing(s: Line): Turn {
    if At(s, 1) != 0 && !IsSpace(At(s, 1)) then Fail else Stop(1)
  }

  function TurnOf(s: Line, mode: Mode): (t: Turn)
    ensures t.Take? ==> 0 < t.skip <= |s|
    ensures t.Stop? ==> t.skip <= |s|
    ensures t.Stop? && t.skip == 0 ==> At(s, 0) == 0
  {
    var c := At(s, 0);
    match mode
    case Double =>
      if c == BACKSLASH && At(s, 1) == 120 && IsHex(At(s, 2)) && IsHex(At(s, 3))
      then Take([HexValue(At(s, 2)) * 16 + HexValue(At(s, 3))], 4, Double)
      else if c == BACKSLASH && At(s, 1) != 0 then Take([Unescaped(At(s, 1))], 2, Double)
      else if c == QUOTE then Closing(s)
      else if c == 0 then Fail
      else Take([c], 1, Double)
    case Single =>
      if c == BACKSLASH && At(s, 1) == APOSTROPHE then Take([APOSTROPHE], 2, Single)
      else if c == APOSTROPHE then Closing(s)
      else if c == 0 then Fail
      else Take([c], 1, Single)
    case Plain =>
      if c == 32 || c == 10 || c == 13 || c == 9 then Stop(1)
      else if c == 0 then Stop(0)
      else if c == QUOTE then Take([], 1, Double)
      else if c == APOSTROPHE then Take([], 1, Single)
      else Take([c], 1, Plain)
  }

  /** The rest of a token and of the line, or nothing for unbalanced quotes. */
  function Token(s: Line, mode: Mode, current: seq<byte>): (r: Option<(seq<byte>, Line)>)
    ensures r.Some? ==> |r.value.1| <= |s|
    ensures r.Some? && At(s, 0) != 0 ==> |r.value.1| < |s|
    decreases |s|
  {
    var t := TurnOf(s, mode);
    if t.Fail? then None
    else if t.Stop? then Some((current, s[t.skip..]))
    else Token(s[t.skip..], t.mode, current + t.bytes)
  }

  function Split(s: Line): Option<seq<seq<byte>>>
    decreases |s|
  {
    var q := Skip(s);
    if At(q, 0) == 0 then Some([])
    else
      match Token(q, Plain, [])
      case None => None
      case Some((t, rest)) =>
        match Split(rest)
        case None => None
        case Some(ts) => Some([t] + ts)
  }

  // ----- the loops of sdssplitargs

  method SkipBlanks(line: Line, p0: nat) returns (p: nat)
    requires p0 <= |line|
    ensures p0 <= p <= |line| && line[p..] == Skip(line[p0..])
  {
    p := p0;
    while At(line, p) != 0 && IsSpace(At(line, p))
      invariant p0 <= p <= |line| && Skip(line[p..]) == Skip(line[p0..])
      decreases |line| - p
    {
      assert line[p..][1..] == line[p + 1..];
      p := p + 1;
    }
  }

  lemma AtSuffix(line: Line, p: nat)
    requires p <= |line|
    ensures forall k: nat :: At(line[p..], k) == At(line, p + k)
  {
  }

  /** The token loop, with its flags for the two kinds of quotes. */
  method ReadToken(line: Line, p0: nat) returns (current: Option<seq<byte>>, p: nat)
    requires p0 <= |line|
    ensures p0 <= p <= |line|
    ensures Token(line[p0..], Plain, []) == if current.Some? then Some((current.value, line[p..])) else None
  {
    p := p0;
    var text: seq<byte> := [];
    var inq, insq, done := false, false, false;
    hide Token;
    while !done
      invariant p0 <= p <= |line| && !(inq && insq)
      invariant Token(line[p0..], Plain, [])
                == if done then Some((text, line[p..]))
                   else Token(line[p..], if inq then Double else if insq then Single else Plain, text)
      decreases !done, |line| - p
    {
      AtSuffix(line, p);
      TokenUnfold(line[p..], if inq then Double else if insq then Single else Plain, text);
      assert forall n :: 0 <= n <= |line| - p ==> line[p..][n..] == line[p + n..];
      assert text + [] == text;
      var c := At(line, p);
      if inq {
        if c == BACKSLASH && At(line, p + 1) == 120 && IsHex(At(line, p + 2)) && IsHex(At(line, p + 3)) {
          text := text + [HexValue(At(line, p + 2)) * 16 + HexValue(At(line, p + 3))];
          p := p + 3;
        } else if c == BACKSLASH && At(line, p + 1) != 0 {
          p := p + 1;
          text := text + [Unescaped(At(line, p))];
        } else if c == QUOTE {
          if At(line, p + 1) != 0 && !IsSpace(At(line, p + 1)) {
            return None, p;
          }
          done := true;
        } else if c == 0 {
          return None, p;
        } else {
          text := text + [c];
        }
      } else if insq {
        if c == BACKSLASH && At(line, p + 1) == APOSTROPHE {
          p := p + 1;
          text := text + [APOSTROPHE];
        } else if c == APOSTROPHE {
          if At(line, p + 1) != 0 && !IsSpace(At(line, p + 1)) {
            return None, p;
          }
          done := true;
        } else if c == 0 {
          return None, p;
        } else {
          text := text + [c];
        }
      } else if c == 32 || c == 10 || c == 13 || c == 9 || c == 0 {
        done := true;
      } else if c == QUOTE {
        inq := true;
      } else if c == APOSTROPHE {
        insq := true;
      } else {
        text := text + [c];
      }
      if At(line, p) != 0 {
        p := p + 1;
      }
    }
    current := Some(text);
  }

  lemma TokenUnfold(s: Line, mode: Mode, current: seq<byte>)
    ensures Token(s, mode, current)
            == var t := TurnOf(s, mode);
               if t.Fail? then None
               else if t.Stop? then Some((current, s[t.skip..]))
               else Token(s[t.skip..], t.mode, current + t.bytes)
  {
  }

  /** sdssplitargs: the arguments, or NULL. */
  method SplitArgs(line: Line) returns (vector: Option<seq<seq<byte>>>)
    ensures vector == Split(line)
  {
    var p := 0;
    var args: seq<seq<byte>> := [];
    assert line[0..] == line;
    assert Split(line).Some? ==> args + Split(line).value == Split(line).value;
    while true
      invariant p <= |line|
      invariant Split(line) == Prepend(args, Split(line[p..]))
      decreases |line| - p
    {
      ghost var p0 := p;
      p := SkipBlanks(line, p);
      AtSuffix(line, p);
      if At(line, p) == 0 {
        assert args + [] == args;
        return Some(args);
      }
      var current;
      ghost var q := p;
      current, p := ReadToken(line, p);
      if current == None {
        return None;
      }
      PrependSnoc(args, current.value, Split(line[p..]));
      args := args + [current.value];
    }
  }

  function Prepend(args: seq<seq<byte>>, r: Option<seq<seq<byte>>>): Option<seq<seq<byte>>> {
    if r.None? then None else Some(args + r.value)
  }

  lemma PrependSnoc(args: seq<seq<byte>>, t: seq<byte>, r: Option<seq<seq<byte>>>)
    ensures Prepend(args + [t], r) == Prepend(args, Prepend([t], r))
  {
    if r.Some? {
      Append(args, [t], r.value);
    }
  }

  // ----- splitting undoes quoting

  /** In quotes, an escaped byte is read back in one turn. */
  lemma ByteReads(c: byte, rest: Line)
    ensures TurnOf(EscapeByte(c) + rest, Double) == Take([c], |EscapeByte(c)|, Double)
  {
    HexOfByte(c);
    var s := EscapeByte(c) + rest;
    assert s[0] == EscapeByte(c)[0];
  }

  lemma {:induction false} QuotedReads(x: seq<byte>, current: seq<byte>, rest: Line)
    requires rest == [] || IsSpace(rest[0])
    ensures Token(Escape(x) + ([QUOTE] + rest), Double, current) == Some((current + x, rest))
    decreases x
  {
    hide Token;
    var tail := [QUOTE] + rest;
    var s := Escape(x) + tail;
    TokenUnfold(s, Double, current);
    if x == [] {
      assert s == tail && current + x == current && s[1..] == rest;
    } else {
      var e := EscapeByte(x[0]);
      Append(e, Escape(x[1..]), tail);
      ByteReads(x[0], Escape(x[1..]) + tail);
      assert (e + (Escape(x[1..]) + tail))[|e|..] == Escape(x[1..]) + tail;
      QuotedReads(x[1..], current + [x[0]], rest);
      Append(current, [x[0]], x[1..]);
      assert [x[0]] + x[1..] == x;
    }
  }

  /** A quoted string at the start of a line is its first argument. */
  lemma ReprReads(x: seq<byte>, rest: Line)
    requires rest == [] || IsSpace(rest[0])
    ensures var s := Repr(x) + rest;
            At(s, 0) == QUOTE && Token(s, Plain, []) == Some((x, rest))
  {
    var s := Repr(x) + rest;
    Append([QUOTE], Escape(x), [QUOTE]);
    Append([QUOTE], Escape(x) + [QUOTE], rest);
    Append(Escape(x), [QUOTE], rest);
    hide Token;
    TokenUnfold(s, Plain, []);
    assert s[1..] == Escape(x) + ([QUOTE] + rest);
    var none: seq<byte> := [];
    assert none + none == none;
    QuotedReads(x, [], rest);
    assert [] + x == x;
  }

  /** Splitting undoes quoting and joining, for every list of byte strings. */
  lemma {:induction false} SplitUndoesJoin(xs: seq<seq<byte>>)
    ensures Split(Joined(xs)) == Some(xs)
  {
    hide Token;
    if |xs| == 1 {
      ReprReads(xs[0], []);
      assert Repr(xs[0]) + [] == Repr(xs[0]);
      assert Split([]) == Some([]);
      assert [xs[0]] + [] == xs;
    } else if |xs| > 1 {
      var rest := [SPACE] + Joined(xs[1..]);
      Append(Repr(xs[0]), [SPACE], Joined(xs[1..]));
      ReprReads(xs[0], rest);
      SplitUndoesJoin(xs[1..]);
      SpaceSkipped(Joined(xs[1..]));
      assert [xs[0]] + xs[1..] == xs;
    }
  }

  lemma SpaceSkipped(s: Line)
    ensures Split([SPACE] + s) == Split(s)
  {
    assert ([SPACE] + s)[1..] == s;
    assert Skip([SPACE] + s) == Skip(s);
  }

  /** Quote each string, join with spaces, split: the same strings. */
  method QuoteAndSplit(xs: seq<seq<byte>>) returns (ys: Option<seq<seq<byte>>>)
    ensures ys == Some(xs)
  {
    var line: Line := [];
    if |xs| > 0 {
      line := CatRepr(line, xs[0]);
      assert [] + Repr(xs[0]) == Repr(xs[0]);
      for i := 1 to |xs|
        invariant line == Joined(xs[..i])
      {
        line := CatRepr(line + [SPACE], xs[i]);
        JoinedSnoc(xs[..i], xs[i]);
        assert xs[..i] + [xs[i]] == xs[..i + 1];
      }
      assert xs[..|xs|] == xs;
    }
    SplitUndoesJoin(xs);
    ys := SplitArgs(line);
  }

  lemma {:induction false} JoinedSnoc(xs: seq<seq<byte>>, x: seq<byte>)
    requires xs != []
    ensures Joined(xs + [x]) == Joined(xs) + [SPACE] + Repr(x)
  {
    var ys := xs + [x];
    assert ys[1..] == xs[1..] + [x];
    if |xs| == 1 {
      assert Joined([x]) == Repr(x);
    } else {
      JoinedSnoc(xs[1..], x);
      Append(Repr(xs[0]) + [SPACE], Joined(xs[1..]) + [SPACE], Repr(x));
      Append(Repr(xs[0]) + [SPACE], Joined(xs[1..]), [SPACE]);
    }
  }
}
