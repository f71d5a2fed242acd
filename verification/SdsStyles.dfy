/**
 Lines as people write them: arguments in double quotes, in apostrophes or bare, with any blanks
 around them. sdssplitargs gives back the arguments.
 */
module SdsStyles {
  import opened Bytes
  import opened SdsArgs

  datatype Arg = Quoted(x: seq<byte>) | Ticked(x: seq<byte>) | Bare(x: seq<byte>)

  /** In apostrophes only the apostrophe itself needs a backslash. */
  function Ticks(x: seq<byte>): seq<byte> {
    if x == [] then [] else (if x[0] == APOSTROPHE then [BACKSLASH, APOSTROPHE] else [x[0]]) + Ticks(x[1..])
  }

  function Written(a: Arg): Line {
    match a
    case Quoted(x) => Repr(x)
    case Ticked(x) => [APOSTROPHE] + Ticks(x) + [APOSTROPHE]
    case Bare(x) => x
  }

  /** In apostrophes no zero byte and no backslash at the end can be written; a bare argument has
      neither blanks nor quotes, and is not empty. */
  predicate Writable(a: Arg) {
    match a
    case Quoted(_) => true
    case Ticked(x) => 0 !in x && (x == [] || x[|x| - 1] != BACKSLASH)
    case Bare(x) => x != [] && forall c <- x :: Word(c)
  }

  /** Blanks that end a bare argument. */
  predicate Gap(s: seq<byte>) {
    forall c <- s :: c == 32 || c == 9 || c == 10 || c == 13
  }

  /** The arguments with gaps[i] before the i-th one and the last gap behind them. */
  function Laid(args: seq<Arg>, gaps: seq<seq<byte>>): Line
    requires |gaps| == |args| + 1
  {
    if args == [] then gaps[0] else gaps[0] + (Written(args[0]) + Laid(args[1..], gaps[1..]))
  }

  /** Only before the first argument and behind the last one there may be no blank. */
  predicate Apart(gaps: seq<seq<byte>>) {
    (forall g <- gaps :: Gap(g)) && forall i :: 0 < i < |gaps| - 1 ==> gaps[i] != []
  }

  function Contents(args: seq<Arg>): (xs: seq<seq<byte>>)
    ensures |xs| == |args|
  {
    seq(|args|, i requires 0 <= i < |args| => args[i].x)
  }

  // ----- one argument

  predicate Blank(rest: Line) {
    rest == [] || rest[0] == 32 || rest[0] == 9 || rest[0] == 10 || rest[0] == 13
  }

  lemma {:induction false} TickedReads(x: seq<byte>, current: seq<byte>, rest: Line)
    requires 0 !in x && (x == [] || x[|x| - 1] != BACKSLASH) && Blank(rest)
    ensures Token(Ticks(x) + ([APOSTROPHE] + rest), Single, current) == Some((current + x, rest))
    decreases x
  {
    hide Token;
    var tail := [APOSTROPHE] + rest;
    var s := Ticks(x) + tail;
    TokenUnfold(s, Single, current);
    if x == [] {
      assert s == tail && current + x == current && s[1..] == rest;
    } else {
      var e := if x[0] == APOSTROPHE then [BACKSLASH, APOSTROPHE] else [x[0]];
      var more := Ticks(x[1..]) + tail;
      Append(e, Ticks(x[1..]), tail);
      TickTurn(x, tail);
      assert (e + more)[|e|..] == more;
      TickedReads(x[1..], current + [x[0]], rest);
      Append(current, [x[0]], x[1..]);
      assert [x[0]] + x[1..] == x;
    }
  }

  /** A backslash of the string is never taken for that of an apostrophe. */
  lemma TickTurn(x: seq<byte>, tail: Line)
    requires x != [] && 0 !in x && x[|x| - 1] != BACKSLASH
    ensures var e := if x[0] == APOSTROPHE then [BACKSLASH, APOSTROPHE] else [x[0]];
            TurnOf(e + (Ticks(x[1..]) + tail), Single) == Take([x[0]], |e|, Single)
  {
    if x[0] == BACKSLASH {
      var y := Ticks(x[1..]) + tail;
      assert y[0] == Ticks(x[1..])[0] != APOSTROPHE;
      assert ([x[0]] + y)[1] == y[0];
    }
  }

  /** A byte of a bare argument. */
  predicate Word(c: byte) {
    c != 0 && !IsSpace(c) && c != QUOTE && c != APOSTROPHE
  }

  lemma WordTurn(c: byte, s: Line)
    requires Word(c)
    ensures TurnOf([c] + s, Plain) == Take([c], 1, Plain)
  {
  }

  lemma BlankTurn(rest: Line)
    requires Blank(rest)
    ensures TurnOf(rest, Plain) == Stop(if rest == [] then 0 else 1)
  {
  }

  lemma {:induction false} BareReads(x: seq<byte>, current: seq<byte>, rest: Line)
    requires (forall c <- x :: Word(c)) && Blank(rest)
    ensures Token(x + rest, Plain, current) == Some((current + x, if rest == [] then [] else rest[1..]))
    decreases x
  {
    hide Token, TurnOf, Word, Blank;
    if x == [] {
      TokenUnfold(rest, Plain, current);
      BlankTurn(rest);
      assert x + rest == rest && current + x == current;
    } else {
      var s := x[1..] + rest;
      assert x[0] in x && forall c <- x[1..] :: c in x;
      TokenUnfold([x[0]] + s, Plain, current);
      WordTurn(x[0], s);
      assert x + rest == [x[0]] + s && ([x[0]] + s)[1..] == s;
      BareReads(x[1..], current + [x[0]], rest);
      Append(current, [x[0]], x[1..]);
      assert [x[0]] + x[1..] == x;
    }
  }

  /** A written argument at the front of a line is its first one; what follows may lose a blank. */
  lemma ArgReads(a: Arg, rest: Line)
    requires Writable(a) && Blank(rest)
    ensures var s := Written(a) + rest;
            && At(s, 0) != 0 && !IsSpace(At(s, 0))
            && Token(s, Plain, []) == Some((a.x, if a.Bare? && rest != [] then rest[1..] else rest))
  {
    hide Token;
    match a
    case Quoted(x) => ReprReads(x, rest);
    case Ticked(x) =>
      var s := Written(a) + rest;
      Append([APOSTROPHE], Ticks(x), [APOSTROPHE]);
      Append([APOSTROPHE], Ticks(x) + [APOSTROPHE], rest);
      Append(Ticks(x), [APOSTROPHE], rest);
      TokenUnfold(s, Plain, []);
      assert s[1..] == Ticks(x) + ([APOSTROPHE] + rest);
      var none: seq<byte> := [];
      assert none + none == none;
      TickedReads(x, [], rest);
      assert [] + x == x;
    case Bare(x) =>
      BareReads(x, [], rest);
      assert [] + x == x && (x + rest)[0] == x[0] && x[0] in x;
  }

  // ----- whole lines

  lemma {:induction false} GapSkipped(g: seq<byte>, s: Line)
    requires Gap(g)
    ensures Skip(g + s) == Skip(s) && Split(g + s) == Split(s)
  {
    if g == [] {
      assert g + s == s;
    } else {
      assert (g + s)[1..] == g[1..] + s && g[0] in g;
      assert forall c <- g[1..] :: c in g;
      GapSkipped(g[1..], s);
    }
  }

  /** Splitting a laid out line gives the contents of its arguments. */
  lemma {:induction false} SplitLaid(args: seq<Arg>, gaps: seq<seq<byte>>)
    requires |gaps| == |args| + 1 && Apart(gaps) && forall a <- args :: Writable(a)
    ensures Split(Laid(args, gaps)) == Some(Contents(args))
  {
    hide Token, Written, Writable;
    assert gaps[0] in gaps;
    if args == [] {
      GapSkipped(gaps[0], []);
      assert gaps[0] + [] == gaps[0] && Split([]) == Some([]);
    } else {
      var a, rest := args[0], Laid(args[1..], gaps[1..]);
      FrontBlank(args[1..], gaps[1..]);
      GapSkipped(gaps[0], Written(a) + rest);
      ArgReads(a, rest);
      SplitLaid(args[1..], gaps[1..]);
      if rest != [] {
        GapSkipped([rest[0]], rest[1..]);
        assert [rest[0]] + rest[1..] == rest;
      }
      assert Contents(args) == [a.x] + Contents(args[1..]);
    }
  }

  lemma FrontBlank(args: seq<Arg>, gaps: seq<seq<byte>>)
    requires |gaps| == |args| + 1 && (forall g <- gaps :: Gap(g)) && (args != [] ==> gaps[0] != [])
    ensures Blank(Laid(args, gaps))
  {
    assert gaps[0] in gaps;
    if gaps[0] != [] {
      assert gaps[0][0] in gaps[0] && Laid(args, gaps)[0] == gaps[0][0];
    }
  }

  /** The printable bytes are quoted as they are, but for quote and backslash, and no others. */
  lemma BytesStay(c: byte)
    ensures Repr([c]) == [QUOTE, c, QUOTE] <==> 32 <= c <= 126 && c != QUOTE && c != BACKSLASH
  {
    assert [c][1..] == [] && Escape([c]) == EscapeByte(c) + Escape([]);
    assert Repr([c]) == [QUOTE] + EscapeByte(c) + [QUOTE];
    assert |EscapeByte(c)| == 1 <==> 32 <= c <= 126 && c != QUOTE && c != BACKSLASH;
  }
}
