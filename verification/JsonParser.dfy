/**
 json_tokener_parse_ex as it is written: the main loop with tight inner loops that skip
 white space, gather string bytes and gather number characters, appending each run to the
 print buffer in one piece. It refines the character machine of JsonTokener.
 */
module JsonParser {
  import opened Bytes
  import opened JsonValue
  import opened JsonTokener

  // ----- what the tight loops skip

  /** Bytes inside of a comment. */
  predicate CommentText(s: State, c: byte) {
    c != 0 && c != if s == Comment then STAR else LF
  }

  lemma CommentStep(cfg: Config, t: Tok, s: seq<byte>)
    requires Inv(cfg, t) && t.top.state in {Comment, CommentEol} && s != [] && CommentText(t.top.state, s[0])
    ensures var u := t.(pb := t.pb + [s[0]]);
            Inv(cfg, u) && Run(cfg, t, s) == Run(cfg, u, s[1..])
  {
    assert Micro(cfg, t, s[0]) == Eat(t.(pb := t.pb + [s[0]]));
    MicroKeepsInv(cfg, t, s[0]);
  }

  lemma {:induction false} CommentRun(cfg: Config, t: Tok, s: seq<byte>, k: nat)
    requires Inv(cfg, t) && t.top.state in {Comment, CommentEol} && k <= |s|
    requires forall i :: 0 <= i < k ==> CommentText(t.top.state, s[i])
    ensures Inv(cfg, t.(pb := t.pb + s[..k]))
    ensures Run(cfg, t, s) == Run(cfg, t.(pb := t.pb + s[..k]), s[k..])
    decreases k
  {
    hide Run, MidInv, CommentText;
    if k == 0 {
      assert s[0..] == s && t.pb + s[..0] == t.pb;
    } else {
      CommentRun(cfg, t, s, k - 1);
      var u := t.(pb := t.pb + s[..k - 1]);
      assert s[k - 1..][0] == s[k - 1] && s[k - 1..][1..] == s[k..];
      CommentStep(cfg, u, s[k - 1..]);
      assert u.pb + [s[k - 1]] == t.pb + s[..k];
    }
  }

  lemma {:induction false} SpacesRun(cfg: Config, t: Tok, s: seq<byte>, k: nat)
    requires Inv(cfg, t) && t.top.state == EatWs && k <= |s|
    requires forall i :: 0 <= i < k ==> IsSpace(s[i])
    ensures Run(cfg, t, s) == Run(cfg, t, s[k..])
    decreases k
  {
    if k == 0 {
      assert s[0..] == s;
    } else {
      assert Redo(cfg, t, s[0]) == Eat(t);
      SpacesRun(cfg, t, s[1..], k - 1);
      assert s[1..][k - 1..] == s[k..];
    }
  }

  predicate PlainText(t: Tok, c: byte) {
    c != 0 && c != t.quote && c != BACKSLASH
  }

  lemma TextStep(cfg: Config, t: Tok, s: seq<byte>)
    requires Inv(cfg, t) && t.top.state in {String, Field} && s != [] && PlainText(t, s[0])
    ensures Inv(cfg, t.(pb := t.pb + [s[0]]))
    ensures Run(cfg, t, s) == Run(cfg, t.(pb := t.pb + [s[0]]), s[1..])
  {
    assert Micro(cfg, t, s[0]) == Eat(t.(pb := t.pb + [s[0]]));
  }

  lemma {:induction false} TextRun(cfg: Config, t: Tok, s: seq<byte>, k: nat)
    requires Inv(cfg, t) && t.top.state in {String, Field} && k <= |s|
    requires forall i :: 0 <= i < k ==> PlainText(t, s[i])
    ensures Inv(cfg, t.(pb := t.pb + s[..k]))
    ensures Run(cfg, t, s) == Run(cfg, t.(pb := t.pb + s[..k]), s[k..])
    decreases k
  {
    hide Run, MidInv;
    if k == 0 {
      assert s[0..] == s && t.pb + s[..0] == t.pb;
    } else {
      TextRun(cfg, t, s, k - 1);
      var u := t.(pb := t.pb + s[..k - 1]);
      assert PlainText(t, s[k - 1]) && s[k - 1..][0] == s[k - 1] && s[k - 1..][1..] == s[k..];
      TextStep(cfg, u, s[k - 1..]);
      assert u.pb + [s[k - 1]] == t.pb + s[..k];
    }
  }

  /** The tokener after str[from..to] was taken into a number. */
  function Gathered(t: Tok, str: seq<byte>, from: nat, to: nat, num: NumLocals, isDouble: bool): Tok
    requires from <= to <= |str|
  {
    t.(pb := t.pb + str[from..to], num := num, isDouble := isDouble)
  }

  lemma GatheredBut(t: Tok, str: seq<byte>, from: nat, to: nat, num: NumLocals, isDouble: bool)
    requires from <= to <= |str|
    ensures var u := Gathered(t, str, from, to, num, isDouble);
            u.top == t.top && u.below == t.below
    ensures from == to ==> Gathered(t, str, from, to, t.num, t.isDouble) == t
  {
    assert from == to ==> t.pb + str[from..to] == t.pb;
  }

  lemma NumberRun(cfg: Config, t: Tok, str: seq<byte>, from: nat, to: nat, num: NumLocals, isDouble: bool)
    requires from <= to < |str| && IsNumberChar(str[to]) && t.top.state == Number
    requires Inv(cfg, Gathered(t, str, from, to, num, isDouble))
    ensures var u := Gathered(t, str, from, to, num, isDouble);
            var o := NumberChar(t.(num := num, isDouble := isDouble), str[to]);
            if o.Eat? then
              var w := Gathered(t, str, from, to + 1, o.t.num, o.t.isDouble);
              Inv(cfg, w) && Run(cfg, u, str[to..]) == Run(cfg, w, str[to + 1..])
            else
              Run(cfg, u, str[to..]) == Out(u, str[to], NumberError) && str[to] != 0
  {
    var u := Gathered(t, str, from, to, num, isDouble);
    var c := str[to];
    assert str[to..][0] == c && str[to..][1..] == str[to + 1..];
    assert str[from..to + 1] == str[from..to] + [c];
    var o := NumberChar(t.(num := num, isDouble := isDouble), c);
    if o.Eat? {
      var w := Gathered(t, str, from, to + 1, o.t.num, o.t.isDouble);
      assert w.pb == u.pb + [c];
      assert Micro(cfg, u, c) == Eat(w);
      MicroKeepsInv(cfg, u, c);
    } else {
      assert Micro(cfg, u, c) == Halt(u, NumberError);
    }
  }

  class Tokener {
    const cfg: Config
    /** The stack, the print buffer and the scanner registers of struct json_tokener. */
    var t: Tok
    var err: Error

    constructor (cfg: Config)
      requires cfg.maxDepth > 0
      ensures this.cfg == cfg && t == NEW && err == Success && Inv(cfg, t)
    {
      this.cfg := cfg;
      t := NEW;
      err := Success;
    }

    /** The loop of state eatws. */
    method SkipSpaces(str: seq<byte>, off0: nat) returns (off: nat)
      requires Inv(cfg, t) && t.top.state == EatWs && off0 <= |str|
      ensures off0 <= off <= |str| && Run(cfg, t, str[off..]) == Run(cfg, t, str[off0..])
    {
      off := off0;
      while off < |str| && IsSpace(str[off])
        invariant off0 <= off <= |str|
        invariant forall i :: 0 <= i < off - off0 ==> IsSpace(str[off0..][i])
      {
        off := off + 1;
      }
      SpacesRun(cfg, t, str[off0..], off - off0);
      assert str[off0..][off - off0..] == str[off..];
    }

    /** The loops of states comment and comment_eol. */
    method GatherComment(str: seq<byte>, off0: nat) returns (off: nat)
      requires Inv(cfg, t) && t.top.state in {Comment, CommentEol} && off0 <= |str|
      modifies this`t
      ensures Inv(cfg, t) && off0 <= off <= |str|
      ensures Run(cfg, t, str[off..]) == Run(cfg, old(t), str[off0..])
    {
      hide Inv, Run, CommentText;
      off := off0;
      while off < |str| && CommentText(t.top.state, str[off])
        invariant off0 <= off <= |str|
        invariant forall i :: 0 <= i < off - off0 ==> CommentText(t.top.state, str[off0..][i])
      {
        off := off + 1;
      }
      CommentRun(cfg, t, str[off0..], off - off0);
      assert str[off0..][off - off0..] == str[off..];
      assert str[off0..][..off - off0] == str[off0..off];
      t := t.(pb := t.pb + str[off0..off]);
    }

    /** The loop of states string and object_field: one append for the whole run. */
    method GatherText(str: seq<byte>, off0: nat) returns (off: nat)
      requires Inv(cfg, t) && t.top.state in {String, Field} && off0 <= |str|
      modifies this`t
      ensures Inv(cfg, t) && off0 <= off <= |str|
      ensures Run(cfg, t, str[off..]) == Run(cfg, old(t), str[off0..])
    {
      hide Inv, Run, PlainText;
      off := off0;
      while off < |str| && PlainText(t, str[off])
        invariant off0 <= off <= |str|
        invariant forall i :: 0 <= i < off - off0 ==> PlainText(t, str[off0..][i])
      {
        off := off + 1;
      }
      TextRun(cfg, t, str[off0..], off - off0);
      assert str[off0..][off - off0..] == str[off..];
      assert str[off0..][..off - off0] == str[off0..off];
      t := t.(pb := t.pb + str[off0..off]);
    }

    /** One turn of the loop of state number: the character is taken, or refused. */
    method NumberTurn(str: seq<byte>, off0: nat, off: nat, num: NumLocals, isDouble: bool)
      returns (ok: bool, num': NumLocals, isDouble': bool)
      requires t.top.state == Number && off0 <= off < |str| && IsNumberChar(str[off])
      requires Inv(cfg, Gathered(t, str, off0, off, num, isDouble))
      ensures var u := Gathered(t, str, off0, off, num, isDouble);
              if ok then
                var w := Gathered(t, str, off0, off + 1, num', isDouble');
                Inv(cfg, w) && Run(cfg, u, str[off..]) == Run(cfg, w, str[off + 1..])
              else
                Run(cfg, u, str[off..]) == Out(u, str[off], NumberError) && str[off] != 0 && num' == num && isDouble' == isDouble
    {
      hide Run, Inv, NumberChar, Gathered;
      NumberRun(cfg, t, str, off0, off, num, isDouble);
      var o := NumberChar(t.(num := num, isDouble := isDouble), str[off]);
      ok, num', isDouble' := o.Eat?, num, isDouble;
      if ok {
        num', isDouble' := o.t.num, o.t.isDouble;
      }
    }

    /** The loop of state number: the checks are made character by character, the append once.
        Nothing is appended when a check fails. */
    method GatherNumber(str: seq<byte>, off0: nat) returns (off: nat, ok: bool, ghost u: Tok)
      requires Inv(cfg, t) && t.top.state == Number && off0 <= |str|
      modifies this`t
      ensures off0 <= off <= |str|
      ensures ok ==> Inv(cfg, t) && Run(cfg, t, str[off..]) == Run(cfg, old(t), str[off0..])
      ensures !ok ==> unchanged(this) && off < |str| && str[off] != 0
      ensures !ok ==> Run(cfg, t, str[off0..]) == Out(u, str[off], NumberError) && u.top == t.top && u.below == t.below
    {
      hide Run, Inv, IsNumberChar, Gathered;
      off, ok, u := off0, true, t;
      var num, isDouble := t.num, t.isDouble;
      GatheredBut(t, str, off0, off0, num, isDouble);
      while ok && off < |str| && IsNumberChar(str[off])
        invariant off0 <= off <= |str| && t == old(t) && u == Gathered(t, str, off0, off, num, isDouble)
        invariant Inv(cfg, u)
        invariant Run(cfg, u, str[off..]) == Run(cfg, t, str[off0..])
        invariant !ok ==> off < |str| && str[off] != 0 && Run(cfg, u, str[off..]) == Out(u, str[off], NumberError)
        decreases ok, |str| - off
      {
        ok, num, isDouble := NumberTurn(str, off0, off, num, isDouble);
        if ok {
          off := off + 1;
          u := Gathered(t, str, off0, off, num, isDouble);
        }
      }
      GatheredBut(t, str, off0, off, num, isDouble);
      if ok {
        t := Gathered(t, str, off0, off, num, isDouble);
      }
    }

    /** All passes through the switch for one character. */
    method Switch(c: byte) returns (out: bool)
      requires Inv(cfg, t)
      modifies this
      ensures Inv(cfg, t)
      ensures out ==> Redo(cfg, old(t), c) == Halt(t, err)
      ensures !out ==> Redo(cfg, old(t), c) == Eat(t) && err == old(err)
    {
      hide SameWord, ParseInt64, CString, Micro;
      var o := Micro(cfg, t, c);
      MicroKeepsInv(cfg, t, c);
      while o.Again?
        invariant t == old(t) && err == old(err)
        invariant MidInv(cfg, o.t) && (!o.Again? ==> Inv(cfg, o.t))
        invariant Redo(cfg, t, c) == if o.Again? then Redo(cfg, o.t, c) else o
        decreases o.Again?, Rank(o.t)
      {
        MicroKeepsInv(cfg, o.t, c);
        if Micro(cfg, o.t, c).Again? {
          MicroLowersRank(cfg, o.t, c);
        }
        o := Micro(cfg, o.t, c);
      }
      t := o.t;
      out := o.Halt?;
      if out {
        err := o.err;
      }
    }

    /** Skip or gather the run the current state can take in one go. */
    method FastForward(str: seq<byte>, off0: nat) returns (off: nat, ok: bool, ghost u: Tok)
      requires Inv(cfg, t) && off0 < |str|
      modifies this`t
      ensures off0 <= off <= |str|
      ensures ok ==> Inv(cfg, t) && Run(cfg, t, str[off..]) == Run(cfg, old(t), str[off0..])
      ensures !ok ==> unchanged(this) && off < |str| && str[off] != 0
      ensures !ok ==> Run(cfg, t, str[off0..]) == Out(u, str[off], NumberError) && u.top == t.top && u.below == t.below
    {
      hide Run, MidInv;
      off, ok, u := off0, true, t;
      if t.top.state == EatWs {
        off := SkipSpaces(str, off0);
      } else if t.top.state == Comment || t.top.state == CommentEol {
        off := GatherComment(str, off0);
      } else if t.top.state == String || t.top.state == Field {
        off := GatherText(str, off0);
      } else if t.top.state == Number {
        off, ok, u := GatherNumber(str, off0);
      }
    }

    /** One turn of the main loop: a run, then one character. */
    method Turn(str: seq<byte>, off0: nat) returns (off: nat, c: byte, out: bool)
      requires Inv(cfg, t) && off0 < |str| && err == Success
      modifies this
      ensures Inv(cfg, t) && off0 <= off <= |str|
      ensures out ==> Closes(Run(cfg, old(t), str[off0..]), t, c, err)
      ensures !out ==> off > off0 && c != 0 && err == Success
      ensures !out ==> Run(cfg, t, str[off..]) == Run(cfg, old(t), str[off0..])
    {
      var ok;
      ghost var u;
      off, ok, u := FastForward(str, off0);
      hide Redo, MidInv;
      if !ok {
        c, err, out := str[off], NumberError, true;
      } else if off == |str| {
        c, out := 1, false;
      } else {
        c := str[off];
        assert str[off..][0] == c && str[off..][1..] == str[off + 1..];
        out := Switch(c);
        if !out {
          off := off + 1;
          out := c == 0;
        }
      }
    }

    /** One call. Whatever the chunk, the result is that of the character machine; after a
        success or a request for more input so is the whole tokener. */
    method ParseEx(str: seq<byte>) returns (ret: Option<Value>)
      requires Inv(cfg, t)
      modifies this
      ensures var p := JsonTokener.ParseEx(cfg, old(t), str);
              && err == p.err && ret == p.ret
              && (err in {Success, Continue} ==> t == p.t)
      ensures err in {Success, Continue} && !CutInComment(Run(cfg, Begin(old(t)), str)) ==> Inv(cfg, t)
    {
      ParseExKeepsInv(cfg, t, str);
      BeginKeepsInv(cfg, t);
      hide Redo, MidInv, Run;
      t := Begin(t);
      ghost var t0 := t;
      err := Success;
      var off, c: byte, out := 0, 1, false;
      assert str[0..] == str;
      while off < |str| && !out
        invariant off <= |str| && Inv(cfg, t)
        invariant !out ==> c != 0 && err == Success && Run(cfg, t, str[off..]) == Run(cfg, t0, str)
        invariant out ==> Closes(Run(cfg, t0, str), t, c, err)
        decreases !out, |str| - off
      {
        off, c, out := Turn(str, off);
      }
      if !out {
        assert str[off..] == [];
        RunNothing(cfg, t);
        err := if Done(t) then Success else Continue;
      }
      if err != Unmodelled {
        if c != 0 && t.top.state == Finish && t.below == [] && cfg.strict {
          err := UnexpectedError;
        }
        if c == 0 && t.top.state != Finish && t.top.saved != Finish {
          err := EofError;
        }
      }
      if err == Success {
        ret := Some(t.top.current);
        t := t.(below := seq(|t.below|, _ => FRESH), top := FRESH);
      } else {
        ret := None;
      }
    }
  }

  /** The machine left the loop the way the code did. */
  ghost predicate Closes(r: Ran, t: Tok, c: byte, err: Error) {
    && r.Out? && r.c == c && r.err == err && r.t.top == t.top && r.t.below == t.below
    && (r.t == t || (err == NumberError && c != 0))
  }
}
