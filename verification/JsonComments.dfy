/**
 What the tokener makes of comments, of "-Infinity" and of odd numbers where it departs from
 what a reader would expect.
 */
module JsonComments {
  import opened Bytes
  import opened JsonValue
  import opened JsonTokener
  import opened JsonStreaming
  import opened JsonRoundTrip

  lemma RunCons(cfg: Config, t: Tok, c: byte, u: Tok, s: seq<byte>)
    requires Inv(cfg, t) && c != 0 && Redo(cfg, t, c) == Eat(u)
    ensures Run(cfg, t, [c] + s) == Run(cfg, u, s)
  {
    hide Redo;
    assert ([c] + s)[1..] == s;
  }

  function Stars(n: nat): seq<byte> {
    if n == 0 then [] else [STAR] + Stars(n - 1)
  }

  /** Stars and a slash end a comment if and only if the number of stars is odd, or even when
      one was read before. */
  lemma {:induction false} StarsClose(cfg: Config, t: Tok, n: nat)
    requires Inv(cfg, t) && t.top.state in {Comment, CommentEnd}
    ensures var r := Run(cfg, t, Stars(n) + [SLASH]);
            r.Paused? && r.t.top.state == if (n % 2 == 1) == t.top.state.Comment? then EatWs else Comment
    decreases n
  {
    hide Run, Inv;
    if n == 0 {
      var u := CommentGoes(cfg, t, SLASH, []);
      RunNothing(cfg, u);
      assert Stars(0) + [SLASH] == [SLASH] + [];
    } else {
      var u := CommentGoes(cfg, t, STAR, Stars(n - 1) + [SLASH]);
      Append([STAR], Stars(n - 1), [SLASH]);
      StarsClose(cfg, u, n - 1);
    }
  }

  /** A byte of a comment, or behind a star in it. */
  lemma CommentGoes(cfg: Config, t: Tok, c: byte, s: seq<byte>) returns (u: Tok)
    requires Inv(cfg, t) && t.top.state in {Comment, CommentEnd} && c != 0
    ensures Inv(cfg, u) && Run(cfg, t, [c] + s) == Run(cfg, u, s)
    ensures u.top.state == if t.top.state == Comment then (if c == STAR then CommentEnd else Comment)
                           else (if c == SLASH then EatWs else Comment)
  {
    u := Micro(cfg, t, c).t;
    RedoEat(cfg, t, c, u);
    hide Redo, Inv, Micro;
    RunCons(cfg, t, c, u, s);
  }

  /** The number state leaves the register that counts the letters of "Infinity" as the last
      token left it, so the word is read behind a sign exactly when that was 0. */
  lemma SignedInfinity(cfg: Config, t: Tok, c: byte)
    requires Inv(cfg, t) && t.top.state == Number && t.pb == [MINUS] && t.num.caseLen == 1
    requires c == 73 || (c == 105 && !cfg.strict)
    ensures Redo(cfg, t, c).Eat? <==> t.stPos == 0
  {
    var u := t.(top := t.top.(state := Inf));
    RedoAgain(cfg, t, c, u);
    var pb := t.pb + [c];
    assert Unsigned(pb) == [c];
    MicroKeepsInv(cfg, u, c);
    hide Inv;
  }

  /** A NUL in a comment behind a nested value: the call succeeds with that value. */
  lemma InnerValueWins(cfg: Config, t: Tok)
    requires Inv(cfg, t) && t.top.state == Comment && t.top.saved == Finish
    ensures ParseEx(cfg, t, [0]).ret == Some(t.top.current)
    ensures t.below != [] ==> !Inv(cfg, ParseEx(cfg, t, [0]).t)
  {
    var u := Begin(t).(pb := t.pb + [0]);
    BeginKeepsInv(cfg, t);
    RedoEat(cfg, Begin(t), 0, u);
    ParseExKeepsInv(cfg, t, [0]);
    hide Redo, Inv;
  }

  // ----- "[1 /*"

  /** After "[", after "[1" and after "[1 ". */
  const IN_ARRAY: Tok := NEW.(top := Level(EatWs, Array, Arr([]), None))
  const IN_NUMBER: Tok :=
    Push(IN_ARRAY, ArrayAdd).(top := FRESH.(state := Number), pb := [49], num := NumLocals(1, false, 1))
  const AT_ONE: Tok := IN_NUMBER.(top := Level(EatWs, Finish, Int(1), None))

  lemma BracketRead(cfg: Config)
    requires cfg.maxDepth >= 2
    ensures Inv(cfg, NEW) && Redo(cfg, NEW, LBRACKET) == Eat(IN_ARRAY)
  {
    var s := NEW.(top := FRESH.(state := Start));
    RedoAgain(cfg, NEW, LBRACKET, s);
    RedoEat(cfg, s, LBRACKET, IN_ARRAY);
  }

  lemma OneRead(cfg: Config)
    requires cfg.maxDepth >= 2 && Inv(cfg, IN_ARRAY)
    ensures Redo(cfg, IN_ARRAY, 49) == Eat(IN_NUMBER)
  {
    var a := IN_ARRAY.(top := IN_ARRAY.top.(state := Array));
    var b := Push(a, ArrayAdd);
    RedoAgain(cfg, IN_ARRAY, 49, a);
    RedoAgain(cfg, a, 49, b);
    DigitStarts(cfg, b, 49);
  }

  /** A digit at a fresh level begins a number. */
  lemma DigitStarts(cfg: Config, b: Tok, digit: byte)
    requires MidInv(cfg, b) && b.top == FRESH && IsDigit(digit)
    ensures Redo(cfg, b, digit)
            == Eat(b.(top := FRESH.(state := Number), pb := [digit], isDouble := false, num := NumLocals(1, false, 1)))
  {
    var c := b.(top := FRESH.(state := Start));
    var d := b.(top := FRESH.(state := Number), pb := [], isDouble := false, num := NUM0);
    RedoAgain(cfg, b, digit, c);
    RedoAgain(cfg, c, digit, d);
    RedoEat(cfg, d, digit, d.(pb := [digit], num := NumLocals(1, false, 1)));
  }

  lemma OneSettles(cfg: Config)
    requires Inv(cfg, IN_NUMBER)
    ensures Redo(cfg, IN_NUMBER, 32) == Eat(AT_ONE)
  {
    assert ParseInt64([49]) == Some(1) by {
      assert LeadingDigits([49]) == [49] && NatOf([49], 0) == NatOf([], 1);
    }
    RedoAgain(cfg, IN_NUMBER, 32, AT_ONE);
    RedoEat(cfg, AT_ONE, 32, AT_ONE);
  }

  /** A comment is opened between tokens. */
  lemma CommentOpens(cfg: Config, t: Tok) returns (u: Tok)
    requires Inv(cfg, t) && t.top.state == EatWs && !cfg.strict
    ensures Inv(cfg, u) && u.below == t.below && u.top == t.top.(state := Comment)
    ensures Run(cfg, t, [SLASH, STAR, 0]) == Run(cfg, u, [0])
  {
    var v := t.(pb := [SLASH], top := t.top.(state := CommentStart));
    u := v.(pb := [SLASH, STAR], top := t.top.(state := Comment));
    RedoEat(cfg, t, SLASH, v);
    RedoEat(cfg, v, STAR, u);
    hide Redo, Inv;
    RunCons(cfg, t, SLASH, v, [STAR, 0]);
    RunCons(cfg, v, STAR, u, [0]);
    assert [SLASH] + [STAR, 0] == [SLASH, STAR, 0] && [STAR] + [0] == [STAR, 0];
  }

  /** "[1", a blank and an opened comment, up to the NUL, is the document 1. */
  lemma OpenCommentEndsDocument(cfg: Config)
    requires cfg.maxDepth >= 2 && !cfg.strict
    ensures ParseEx(cfg, NEW, [LBRACKET, 49, 32, SLASH, STAR, 0]).ret == Some(Int(1))
  {
    BracketRead(cfg);
    OneRead(cfg);
    OneSettles(cfg);
    var u := CommentOpens(cfg, AT_ONE);
    InnerNul(cfg, u);
    hide Redo, Inv, Run;
    RunCons(cfg, NEW, LBRACKET, IN_ARRAY, [49, 32, SLASH, STAR, 0]);
    RunCons(cfg, IN_ARRAY, 49, IN_NUMBER, [32, SLASH, STAR, 0]);
    RunCons(cfg, IN_NUMBER, 32, AT_ONE, [SLASH, STAR, 0]);
    assert Begin(NEW) == NEW;
    assert [LBRACKET] + [49, 32, SLASH, STAR, 0] == [LBRACKET, 49, 32, SLASH, STAR, 0];
    assert [49] + [32, SLASH, STAR, 0] == [49, 32, SLASH, STAR, 0];
    assert [32] + [SLASH, STAR, 0] == [32, SLASH, STAR, 0];
  }

  lemma InnerNul(cfg: Config, t: Tok)
    requires Inv(cfg, t) && t.top.state == Comment
    ensures var r := Run(cfg, t, [0]);
            r.Out? && r.c == 0 && r.err == Success && r.t.top == t.top
  {
    RedoEat(cfg, t, 0, t.(pb := t.pb + [0]));
    hide Redo, Inv;
  }

  // ----- "[1+2]"

  const AT_SUM: Tok := IN_NUMBER.(pb := [49, 43, 50], num := NumLocals(3, false, 1))

  lemma SumRead(cfg: Config)
    requires Inv(cfg, IN_NUMBER)
    ensures Inv(cfg, AT_SUM) && Run(cfg, IN_NUMBER, [43, 50, RBRACKET]) == Run(cfg, AT_SUM, [RBRACKET])
  {
    var u := IN_NUMBER.(pb := [49, 43], num := NumLocals(2, false, 1));
    RedoEat(cfg, IN_NUMBER, 43, u);
    RedoEat(cfg, u, 50, AT_SUM);
    hide Redo, Inv;
    RunCons(cfg, IN_NUMBER, 43, u, [50, RBRACKET]);
    RunCons(cfg, u, 50, AT_SUM, [RBRACKET]);
    assert [43] + [50, RBRACKET] == [43, 50, RBRACKET] && [50] + [RBRACKET] == [50, RBRACKET];
  }

  lemma SumIsOne()
    ensures ParseInt64([49, 43, 50]) == Some(1)
  {
    assert [49, 43, 50][1..] == [43, 50];
    assert LeadingDigits([43, 50]) == [] && LeadingDigits([49, 43, 50]) == [49] && NatOf([49], 0) == NatOf([], 1);
  }

  const AT_ITEM: Tok := AT_SUM.(top := Level(EatWs, Finish, Int(1), None))

  lemma SumSettles(cfg: Config)
    requires Inv(cfg, AT_SUM)
    ensures MidInv(cfg, AT_ITEM) && Redo(cfg, AT_SUM, RBRACKET) == Redo(cfg, AT_ITEM, RBRACKET)
  {
    SumIsOne();
    hide ParseInt64;
    RedoAgain(cfg, AT_SUM, RBRACKET, AT_ITEM);
  }

  lemma ItemCloses(cfg: Config) returns (u: Tok)
    requires MidInv(cfg, AT_ITEM)
    ensures Redo(cfg, AT_ITEM, RBRACKET) == Eat(u) && Inv(cfg, u) && Done(u) && u.top.current == Arr([Int(1)])
  {
    var w := Leave(cfg, AT_ITEM, Int(1), RBRACKET);
    var w1 := w.(top := Level(EatWs, ArraySep, Arr([Int(1)]), None));
    assert [] + [Int(1)] == [Int(1)];
    RedoAgain(cfg, w, RBRACKET, w1);
    hide Micro, Redo;
    u := AfterItem(cfg, w1, RBRACKET);
  }

  /** What the tokener accepts is more than JSON, in strict mode too: "[1+2]" is read as [1]. */
  lemma SumIsRead(cfg: Config)
    requires cfg.maxDepth >= 2
    ensures ParseEx(cfg, NEW, [LBRACKET, 49, 43, 50, RBRACKET]).ret == Some(Arr([Int(1)]))
  {
    BracketRead(cfg);
    OneRead(cfg);
    SumRead(cfg);
    SumSettles(cfg);
    var u := ItemCloses(cfg);
    RunNothing(cfg, u);
    hide Redo, Inv, Run;
    RunCons(cfg, NEW, LBRACKET, IN_ARRAY, [49, 43, 50, RBRACKET]);
    RunCons(cfg, IN_ARRAY, 49, IN_NUMBER, [43, 50, RBRACKET]);
    RunCons(cfg, AT_SUM, RBRACKET, u, []);
    assert Begin(NEW) == NEW;
    assert [LBRACKET] + [49, 43, 50, RBRACKET] == [LBRACKET, 49, 43, 50, RBRACKET];
    assert [49] + [43, 50, RBRACKET] == [49, 43, 50, RBRACKET] && [RBRACKET] + [] == [RBRACKET];
  }
}
