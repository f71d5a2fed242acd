/**
 The tokener computes what the reference says. `Meaning` is what the reference makes of a state
 of the machine together with the text ahead: the value under way is read to its end, and then
 each open level takes what was read above it and goes on. No pass through the switch changes it.
 */
module JsonMeaning {
  import opened Bytes
  import opened OrderedMap
  import opened JsonValue
  import opened JsonTokener
  import opened JsonStreaming
  import opened JsonReference
  import opened Unicode

  // ----- what a state means

  /** A level as if it were in state s. */
  function In(l: Level, s: State): Level {
    l.(state := s, saved := s)
  }

  /** A resting level in front of what k says comes next. */
  function RestOn(cfg: Config, l: Level, k: Skipped, d: nat, used: bool): Got
    requires Resting(l.state) && HasParts(l.state, l)
  {
    var s := l.state;
    if s == Start then StartOn(cfg, k, d, used)
    else if s == Finish then Ok(l.current, k, used)
    else if s == Array || s == ArrayAfterSep then ItemsOn(cfg, k, l.current.items, s == ArrayAfterSep, d, used)
    else if s == ArraySep then SepOn(cfg, k, l.current.items, d, used)
    else if s == FieldStart || s == FieldStartAfterSep then
      MembersOn(cfg, k, l.current.fields, s == FieldStartAfterSep, d, used)
    else if s == FieldEnd then ColonOn(cfg, k, l.current.fields, l.field.value, d, used)
    else if s == ObjectValue then MemberOn(cfg, k, l.current.fields, l.field.value, d, used)
    else MemberSepOn(cfg, k, l.current.fields, d, used)
  }

  /** A string or a key up to its closing quote. */
  function TextOn(cfg: Config, l: Level, r: Scanned, d: nat): Got
    requires l.state in {String, Field} && HasParts(l.state, l)
  {
    if l.state == String then StrDone(cfg, r) else KeyDone(cfg, r, l.current.fields, d)
  }

  function CommentOn(cfg: Config, c: State, s: seq<byte>): Skipped
    requires InComment(c)
  {
    if c == CommentStart then Slash(cfg, s)
    else if c == Comment then Block(cfg, s)
    else if c == CommentEnd then Star(cfg, s)
    else Line(cfg, s)
  }

  /** A word or a number of which p was read; n is st_pos. */
  function WordOn(cfg: Config, w: State, s: seq<byte>, p: seq<byte>, n: nat): Got
    requires w in {Inf, NullWord, BooleanWord, Number}
  {
    if w == NullWord then NullRest(cfg, s, p)
    else if w == BooleanWord then BoolRest(cfg, s, p)
    else if w == Number then NumRest(cfg, s, p, n != 0)
    else if p == [] || p[0] != MINUS then InfRest(cfg, s, p)
    else if |p| == n + 1 then SignedRest(cfg, s, p[1..])
    else if s == [] then More
    else Wrong(UnexpectedError)
  }

  /** The value of the level on top. */
  function TopOn(cfg: Config, t: Tok, s: seq<byte>): Got
    requires TopOk(t)
  {
    var l, d, used := t.top, |t.below|, t.stPos != 0;
    if l.state == EatWs then RestOn(cfg, In(l, l.saved), Skip(cfg, s), d, used)
    else if Resting(l.state) then RestOn(cfg, In(l, l.state), Skip(cfg, s), d, used)
    else if InComment(l.state) then RestOn(cfg, In(l, l.saved), CommentOn(cfg, l.state, s), d, used)
    else if l.state == ArrayAdd then SepOn(cfg, Skip(cfg, s), l.current.items + [t.obj], d, used)
    else if l.state == ObjectValueAdd then
      MemberSepOn(cfg, Skip(cfg, s), Add(l.current.fields, l.field.value, t.obj), d, used)
    else if l.state in {String, Field} then TextOn(cfg, In(l, l.state), StrScan(s, t.pb, t.quote, used), d)
    else if l.state == StringEscape then TextOn(cfg, In(l, l.saved), EscScan(s, t.pb, t.quote, used), d)
    else if l.state == EscapeUnicode then
      TextOn(cfg, In(l, l.saved), HexScan(s, t.ucs, t.stPos, t.pb, t.quote), d)
    else WordOn(cfg, l.state, s, t.pb, t.stPos)
  }

  /** The open levels take what was read above them. */
  function Within(cfg: Config, below: seq<Level>, g: Got): Got
    requires forall i :: 0 <= i < |below| ==> Waiting(below[i])
    decreases |below|
  {
    if below == [] || !g.Ok? then g
    else
      var n := |below| - 1;
      var l := below[n];
      assert Waiting(l);
      Within(cfg, below[..n],
        if l.state == ArrayAdd then SepOn(cfg, g.k, l.current.items + [g.v], n, g.used)
        else MemberSepOn(cfg, g.k, Add(l.current.fields, l.field.value, g.v), n, g.used))
  }

  function Meaning(cfg: Config, t: Tok, s: seq<byte>): Got
    requires MidInv(cfg, t)
  {
    Within(cfg, t.below, TopOn(cfg, t, s))
  }

  // ----- what else holds in every state

  /** The characters of a word or a number so far, and what the number state noted about them. */
  predicate Noted(cfg: Config, t: Tok) {
    var s := t.top.state;
    && (s == NullWord ==> Begins(cfg, t.pb, NULL_WORD) || Begins(cfg, t.pb, NAN_WORD))
    && (s == BooleanWord ==> Begins(cfg, t.pb, TRUE_WORD) || Begins(cfg, t.pb, FALSE_WORD))
    && (s == Inf ==>
          || (Begins(cfg, t.pb, INF_WORD) && |t.pb| == t.stPos)
          || (t.pb != [] && t.pb[0] == MINUS && Begins(cfg, t.pb[1..], INF_WORD) && |t.pb| == t.stPos + 1)
          || (t.pb == [MINUS] && t.stPos != 0))
    && (s == Number ==> NumberNoted(t))
  }

  predicate NumberNoted(t: Tok) {
    && t.num.caseLen == |t.pb|
    && t.num.minusAt <= |t.pb| + 1
    && (t.num.minusAt == |t.pb| + 1 <==> t.pb == [] || IsExponent(t.pb[|t.pb| - 1]))
    && (t.isDouble <==> IsReal(t.pb))
    && (t.num.exponent <==> HasExponent(t.pb))
  }

  /** A state that was reached by a jump, on its way past the blanks, looks at a token. */
  predicate AtToken(cfg: Config, t: Tok, c: byte) {
    Resting(t.top.state) || t.top.state in {ArrayAdd, ObjectValueAdd} ==>
      !IsSpace(c) && (c == SLASH ==> cfg.strict)
  }

  /** A state in which the machine waits for the next character. */
  predicate Between(cfg: Config, t: Tok) {
    Noted(cfg, t) && !Resting(t.top.state) && t.top.state !in {ArrayAdd, ObjectValueAdd}
  }

  lemma TokenStays(cfg: Config, s: seq<byte>)
    requires s != [] && !IsSpace(s[0]) && (s[0] == SLASH ==> cfg.strict)
    ensures Skip(cfg, s) == Next(s)
  {
  }

  // ----- one pass through the switch

  predicate Fails(m: Got, e: Error) {
    m == Wrong(e) || (e == CommentError && m.Ok? && m.k == Bad)
  }

  /** The value of the whole text stands in front of s. */
  predicate Finished(m: Got, t: Tok, s: seq<byte>) {
    m.Ok? && m.v == t.top.current && m.k.Next? && m.k.q == s && t.top.state == Finish && t.below == []
  }

  /** What a pass with the first character of s keeps. */
  ghost predicate StepMeans(cfg: Config, t: Tok, s: seq<byte>, o: Outcome)
    requires MidInv(cfg, t) && s != [] && MidInv(cfg, o.t)
  {
    var m := Meaning(cfg, t, s);
    if o.Again? then Meaning(cfg, o.t, s) == m && Noted(cfg, o.t) && AtToken(cfg, o.t, s[0])
    else if o.Eat? then Meaning(cfg, o.t, s[1..]) == m && Between(cfg, o.t)
    else if o.err == Success then Finished(m, o.t, s) else Fails(m, o.err) && o.t.top.state != Finish
  }

  /** A pass that stays on its level. */
  ghost predicate TopMeans(cfg: Config, t: Tok, s: seq<byte>, o: Outcome)
    requires TopOk(t) && s != [] && TopOk(o.t)
  {
    var m := TopOn(cfg, t, s);
    o.t.below == t.below &&
    if o.Again? then TopOn(cfg, o.t, s) == m && Noted(cfg, o.t) && AtToken(cfg, o.t, s[0])
    else if o.Eat? then TopOn(cfg, o.t, s[1..]) == m && Between(cfg, o.t)
    else o.err != Success && Fails(m, o.err) && o.t.top.state != Finish
  }

  lemma WithinFails(cfg: Config, below: seq<Level>, g: Got, e: Error)
    requires forall i :: 0 <= i < |below| ==> Waiting(below[i])
    requires Fails(g, e)
    ensures Fails(Within(cfg, below, g), e)
  {
    if below != [] && g.Ok? {
      var l := below[|below| - 1];
      assert Waiting(l);
      assert l.state == ArrayAdd ==> SepOn(cfg, Bad, l.current.items + [g.v], |below| - 1, g.used) == Wrong(e);
    }
  }

  lemma TopSuffices(cfg: Config, t: Tok, s: seq<byte>, o: Outcome)
    requires MidInv(cfg, t) && s != [] && MidInv(cfg, o.t) && TopMeans(cfg, t, s, o)
    ensures StepMeans(cfg, t, s, o)
  {
    hide TopOn, Noted, Between, AtToken, Waiting, Fails;
    if o.Halt? && Fails(TopOn(cfg, t, s), o.err) {
      WithinFails(cfg, t.below, TopOn(cfg, t, s), o.err);
    }
  }

  lemma TopOnRest(cfg: Config, t: Tok, s: seq<byte>)
    requires TopOk(t) && (t.top.state == EatWs || Resting(t.top.state))
    ensures var l := In(t.top, if t.top.state == EatWs then t.top.saved else t.top.state);
            Resting(l.state) && HasParts(l.state, l) && TopOn(cfg, t, s) == RestOn(cfg, l, Skip(cfg, s), |t.below|, t.stPos != 0)
  {
  }

  lemma TopOnComment(cfg: Config, t: Tok, s: seq<byte>)
    requires TopOk(t) && InComment(t.top.state)
    ensures var l := In(t.top, t.top.saved);
            && Resting(l.state) && HasParts(l.state, l)
            && TopOn(cfg, t, s) == RestOn(cfg, l, CommentOn(cfg, t.top.state, s), |t.below|, t.stPos != 0)
  {
    hide RestOn, CommentOn;
  }

  lemma TopOnText(cfg: Config, t: Tok, s: seq<byte>)
    requires TopOk(t) && t.top.state in {String, Field, StringEscape, EscapeUnicode}
    ensures var x := t.top.state;
            var l := In(t.top, if x in {String, Field} then x else t.top.saved);
            && l.state in {String, Field} && HasParts(l.state, l) && (x == EscapeUnicode ==> t.stPos < 4)
            && TopOn(cfg, t, s) == TextOn(cfg, l,
                 if x == StringEscape then EscScan(s, t.pb, t.quote, t.stPos != 0)
                 else if x == EscapeUnicode then HexScan(s, t.ucs, t.stPos, t.pb, t.quote)
                 else StrScan(s, t.pb, t.quote, t.stPos != 0), |t.below|)
  {
  }

  lemma TopOnWord(cfg: Config, t: Tok, s: seq<byte>)
    requires TopOk(t) && t.top.state in {Inf, NullWord, BooleanWord, Number}
    ensures TopOn(cfg, t, s) == WordOn(cfg, t.top.state, s, t.pb, t.stPos)
  {
  }

  lemma SpaceMeans(cfg: Config, t: Tok, s: seq<byte>)
    requires TopOk(t) && s != [] && t.top.state == EatWs && TopOk(StepEatWs(cfg, t, s[0]).t)
    ensures TopMeans(cfg, t, s, StepEatWs(cfg, t, s[0]))
  {
    hide IsSpace, RestOn, HasParts;
    var u := t.(top := t.top.(state := t.top.saved));
    assert In(u.top, u.top.saved) == In(t.top, t.top.saved);
  }

  lemma CommentStartMeans(cfg: Config, t: Tok, s: seq<byte>)
    requires TopOk(t) && s != [] && t.top.state == CommentStart && TopOk(StepCommentStart(t, s[0]).t)
    ensures TopMeans(cfg, t, s, StepCommentStart(t, s[0]))
  {
    hide RestOn, TopOn, TopOk, HasParts, Block, Line, Fails;
    var o := StepCommentStart(t, s[0]);
    TopOnComment(cfg, t, s);
    if o.Eat? {
      TopOnComment(cfg, o.t, s[1..]);
      assert In(o.t.top, o.t.top.saved) == In(t.top, t.top.saved);
    } else {
      BadFails(cfg, In(t.top, t.top.saved), |t.below|, t.stPos != 0);
    }
  }

  lemma BadFails(cfg: Config, l: Level, d: nat, used: bool)
    requires Resting(l.state) && HasParts(l.state, l)
    ensures Fails(RestOn(cfg, l, Bad, d, used), CommentError)
  {
  }

  /** In a comment. */
  lemma CommentMeans(cfg: Config, t: Tok, s: seq<byte>, o: Outcome)
    requires TopOk(t) && s != [] && TopOk(o.t)
    requires match t.top.state
             case Comment => o == StepComment(t, s[0])
             case CommentEnd => o == StepCommentEnd(t, s[0])
             case CommentEol => o == StepCommentEol(t, s[0])
             case _ => false
    ensures TopMeans(cfg, t, s, o)
  {
    hide RestOn, TopOn, TopOk, HasParts, Skip;
    TopOnComment(cfg, t, s);
    if o.t.top.state == EatWs {
      TopOnRest(cfg, o.t, s[1..]);
    } else {
      TopOnComment(cfg, o.t, s[1..]);
    }
    assert In(o.t.top, o.t.top.saved) == In(t.top, t.top.saved);
  }

  lemma StringMeans(cfg: Config, t: Tok, s: seq<byte>)
    requires TopOk(t) && s != [] && t.top.state == String && TopOk(StepString(t, s[0]).t)
    ensures TopMeans(cfg, t, s, StepString(t, s[0]))
  {
    hide TopOn, TopOk, HasParts, Skip;
    var u := StepString(t, s[0]).t;
    TopOnText(cfg, t, s);
    if s[0] == t.quote { TopOnRest(cfg, u, s[1..]); } else { TopOnText(cfg, u, s[1..]); }
  }

  lemma KeyMeans(cfg: Config, t: Tok, s: seq<byte>)
    requires TopOk(t) && s != [] && t.top.state == Field && TopOk(StepField(t, s[0]).t)
    ensures TopMeans(cfg, t, s, StepField(t, s[0]))
  {
    hide CString, TopOn, TopOk, HasParts, Skip;
    var u := StepField(t, s[0]).t;
    TopOnText(cfg, t, s);
    if s[0] == t.quote { TopOnRest(cfg, u, s[1..]); } else { TopOnText(cfg, u, s[1..]); }
  }

  lemma EscapeMeans(cfg: Config, t: Tok, s: seq<byte>)
    requires TopOk(t) && s != [] && t.top.state == StringEscape && TopOk(StepEscape(t, s[0]).t)
    ensures TopMeans(cfg, t, s, StepEscape(t, s[0]))
  {
    hide Unescaped, TopOn, TopOk, HasParts;
    var u := StepEscape(t, s[0]).t;
    TopOnText(cfg, t, s);
    TopOnText(cfg, u, s[1..]);
    assert StepEscape(t, s[0]).Eat? ==> In(u.top, t.top.saved) == In(t.top, t.top.saved);
  }

  lemma BrokenIsWrong(cfg: Config, l: Level, e: Error, d: nat)
    requires l.state in {String, Field} && HasParts(l.state, l)
    ensures TextOn(cfg, l, Broken(e), d) == Wrong(e)
  {
  }

  /** One digit of the reference in the machine's terms. */
  lemma HexScanIs(t: Tok, s: seq<byte>)
    requires s != [] && t.stPos < 4
    ensures var r, o := HexScan(s, t.ucs, t.stPos, t.pb, t.quote), StepUnicode(t, s[0]);
            && !o.Again? && o.t.below == t.below && o.t.quote == t.quote
            && (o.Halt? ==> r == Broken(o.err) && o.err != Success && o.t == t)
            && (o.Eat? ==>
                  if t.stPos < 3 then o.t.top == t.top && o.t.stPos < 4 && r == HexScan(s[1..], o.t.ucs, o.t.stPos, o.t.pb, t.quote)
                  else o.t.top == t.top.(state := t.top.saved) && o.t.stPos != 0 && r == StrScan(s[1..], o.t.pb, t.quote, true))
  {
    hide Utf8, HexValue, HexWeight, StrScan;
  }

  lemma UnicodeMeans(cfg: Config, t: Tok, s: seq<byte>)
    requires TopOk(t) && s != [] && t.top.state == EscapeUnicode && TopOk(StepUnicode(t, s[0]).t)
    ensures TopMeans(cfg, t, s, StepUnicode(t, s[0]))
  {
    hide TopOn, TopOk, HasParts, StrScan, HexScan, TextOn, StepUnicode;
    var o, l := StepUnicode(t, s[0]), In(t.top, t.top.saved);
    TopOnText(cfg, t, s);
    HexScanIs(t, s);
    if o.Eat? {
      TopOnText(cfg, o.t, s[1..]);
      assert In(o.t.top, t.top.saved) == l;
    } else {
      BrokenIsWrong(cfg, l, o.err, |t.below|);
    }
  }

  /** The first character of a value in the machine's terms. */
  lemma ValueOnIs(cfg: Config, q: Ahead, d: nat, n: nat)
    ensures var c := q[0];
            ValueOn(cfg, q, d, n != 0) ==
            if c == LBRACE then MembersOn(cfg, Skip(cfg, q[1..]), [], false, d, n != 0)
            else if c == LBRACKET then ItemsOn(cfg, Skip(cfg, q[1..]), [], false, d, n != 0)
            else if Lower(c) == 110 then WordOn(cfg, NullWord, q, [], 0)
            else if c == QUOTE || (c == APOSTROPHE && !cfg.strict) then StrDone(cfg, StrScan(q[1..], [], c, n != 0))
            else if Lower(c) == 116 || Lower(c) == 102 then WordOn(cfg, BooleanWord, q, [], 0)
            else if IsDigit(c) || c == MINUS then WordOn(cfg, Number, q, [], n)
            else if Lower(c) == 105 then WordOn(cfg, Inf, q, [], 0)
            else Wrong(UnexpectedError)
  {
    hide MembersOn, ItemsOn, StrDone, StrScan, NullRest, BoolRest, InfRest, NumRest, Skip;
  }

  lemma StartOnIs(cfg: Config, t: Tok, s: seq<byte>)
    requires TopOk(t) && s != [] && t.top.state == Start && AtToken(cfg, t, s[0])
    ensures TopOn(cfg, t, s) == ValueOn(cfg, s, |t.below|, t.stPos != 0)
  {
    hide IsSpace, TopOn, Skip, HasParts, RestOn, ValueOn;
    TokenStays(cfg, s);
    TopOnRest(cfg, t, s);
    RestOnIs(cfg, In(t.top, Start), Next(s), |t.below|, t.stPos != 0);
  }

  lemma StartMeans(cfg: Config, t: Tok, s: seq<byte>)
    requires TopOk(t) && s != [] && t.top.state == Start && TopOk(StepStart(cfg, t, s[0]).t)
    requires AtToken(cfg, t, s[0])
    ensures TopMeans(cfg, t, s, StepStart(cfg, t, s[0]))
  {
    StartOnIs(cfg, t, s);
    ValueOnIs(cfg, s, |t.below|, t.stPos);
    hide TopOn, TopOk, Skip, StrScan, RestOn, ValueOn, MembersOn, ItemsOn, WordOn, StrDone, AtToken, Lower, IsDigit;
    var o := StepStart(cfg, t, s[0]);
    if o.Again? {
      StartedWord(cfg, o.t, s);
    } else if s[0] == LBRACE || s[0] == LBRACKET {
      StartedContainer(cfg, o.t, s[1..]);
    } else if o.Eat? {
      TopOnText(cfg, o.t, s[1..]);
    }
  }

  lemma StartedWord(cfg: Config, u: Tok, s: seq<byte>)
    requires TopOk(u) && s != [] && u.top.state in {Inf, NullWord, BooleanWord, Number} && u.pb == []
    requires u.stPos == 0 || u.top.state == Number
    requires u.top.state == Number ==> !u.isDouble && u.num == NUM0
    ensures TopOn(cfg, u, s) == WordOn(cfg, u.top.state, s, [], u.stPos) && Noted(cfg, u) && AtToken(cfg, u, s[0])
  {
    hide WordOn, TopOk, TopOn, IsSpace;
    TopOnWord(cfg, u, s);
  }

  lemma StartedContainer(cfg: Config, u: Tok, s: seq<byte>)
    requires TopOk(u) && u.top.state == EatWs
    requires (u.top.saved == Array && u.top.current == Arr([])) || (u.top.saved == FieldStart && u.top.current == Obj([]))
    ensures TopOn(cfg, u, s) ==
            if u.top.saved == Array then ItemsOn(cfg, Skip(cfg, s), [], false, |u.below|, u.stPos != 0)
            else MembersOn(cfg, Skip(cfg, s), [], false, |u.below|, u.stPos != 0)
    ensures Between(cfg, u)
  {
    hide TopOn, Skip, ItemsOn, MembersOn, TopOk;
    TopOnRest(cfg, u, s);
  }

  lemma ArrayMeans(cfg: Config, t: Tok, s: seq<byte>)
    requires TopOk(t) && s != [] && AtToken(cfg, t, s[0]) && t.top.state == ArraySep
    requires TopOk(StepArraySep(t, s[0]).t)
    ensures TopMeans(cfg, t, s, StepArraySep(t, s[0]))
  {
    hide Lower, IsSpace, TopOn, TopOk, Skip, HasParts;
    var o := StepArraySep(t, s[0]);
    TokenStays(cfg, s);
    TopOnRest(cfg, t, s);
    if o.Eat? {
      TopOnRest(cfg, o.t, s[1..]);
    }
  }

  lemma FieldMeans(cfg: Config, t: Tok, s: seq<byte>, o: Outcome)
    requires TopOk(t) && s != [] && AtToken(cfg, t, s[0]) && TopOk(o.t)
    requires t.top.state in {FieldStart, FieldStartAfterSep} && o == StepFieldStart(cfg, t, s[0])
    ensures TopMeans(cfg, t, s, o)
  {
    hide Lower, IsSpace, TopOn, TopOk, Skip, StrScan, HasParts;
    TokenStays(cfg, s);
    TopOnRest(cfg, t, s);
    if o.Eat? && s[0] == RBRACE {
      TopOnRest(cfg, o.t, s[1..]);
    } else if o.Eat? {
      TopOnText(cfg, o.t, s[1..]);
    }
  }

  lemma ColonMeans(cfg: Config, t: Tok, s: seq<byte>)
    requires TopOk(t) && s != [] && AtToken(cfg, t, s[0]) && t.top.state == FieldEnd
    requires TopOk(StepFieldEnd(t, s[0]).t)
    ensures TopMeans(cfg, t, s, StepFieldEnd(t, s[0]))
  {
    hide Lower, IsSpace, TopOn, TopOk, Skip, HasParts;
    var o := StepFieldEnd(t, s[0]);
    TokenStays(cfg, s);
    TopOnRest(cfg, t, s);
    if o.Eat? {
      TopOnRest(cfg, o.t, s[1..]);
    }
  }

  lemma RestOnIs(cfg: Config, l: Level, k: Skipped, d: nat, used: bool)
    requires Resting(l.state) && HasParts(l.state, l)
    ensures l.state == Start ==> RestOn(cfg, l, k, d, used) == StartOn(cfg, k, d, used)
    ensures l.state == Finish ==> RestOn(cfg, l, k, d, used) == Ok(l.current, k, used)
    ensures l.state in {Array, ArrayAfterSep} ==>
              l.current.Arr? && RestOn(cfg, l, k, d, used) == ItemsOn(cfg, k, l.current.items, l.state == ArrayAfterSep, d, used)
    ensures l.state == ArraySep ==> l.current.Arr? && RestOn(cfg, l, k, d, used) == SepOn(cfg, k, l.current.items, d, used)
    ensures l.state == FieldStartAfterSep ==>
              l.current.Obj? && RestOn(cfg, l, k, d, used) == MembersOn(cfg, k, l.current.fields, true, d, used)
    ensures l.state == ObjectSep ==> l.current.Obj? && RestOn(cfg, l, k, d, used) == MemberSepOn(cfg, k, l.current.fields, d, used)
    ensures l.state == ObjectValue ==>
              && l.current.Obj? && l.field.Some?
              && RestOn(cfg, l, k, d, used) == MemberOn(cfg, k, l.current.fields, l.field.value, d, used)
  {
    hide StartOn, ItemsOn, SepOn, MembersOn, MemberSepOn, MemberOn, ColonOn;
  }

  lemma BehindMember(cfg: Config, q: Ahead, fields: Fields, d: nat, used: bool)
    ensures MemberSepOn(cfg, Next(q), fields, d, used) ==
            if q[0] == RBRACE then Ok(Obj(fields), Skip(cfg, q[1..]), used)
            else if q[0] == COMMA then MembersOn(cfg, Skip(cfg, q[1..]), fields, true, d, used)
            else Wrong(ValueSepError)
  {
    hide MembersOn, Skip;
  }

  lemma ObjectTop(cfg: Config, t: Tok, s: seq<byte>)
    requires TopOk(t) && s != [] && AtToken(cfg, t, s[0]) && t.top.state == ObjectSep
    ensures t.top.current.Obj?
    ensures var fields, d, used := t.top.current.fields, |t.below|, t.stPos != 0;
            TopOn(cfg, t, s) ==
            if s[0] == RBRACE then Ok(t.top.current, Skip(cfg, s[1..]), used)
            else if s[0] == COMMA then MembersOn(cfg, Skip(cfg, s[1..]), fields, true, d, used)
            else Wrong(ValueSepError)
  {
    hide IsSpace, TopOn, Skip, MembersOn, MemberSepOn, RestOn;
    TokenStays(cfg, s);
    TopOnRest(cfg, t, s);
    RestOnIs(cfg, In(t.top, ObjectSep), Next(s), |t.below|, t.stPos != 0);
    BehindMember(cfg, s, t.top.current.fields, |t.below|, t.stPos != 0);
  }

  lemma ObjectMeans(cfg: Config, t: Tok, s: seq<byte>)
    requires TopOk(t) && s != [] && AtToken(cfg, t, s[0]) && t.top.state == ObjectSep
    requires TopOk(StepObjectSep(t, s[0]).t)
    ensures TopMeans(cfg, t, s, StepObjectSep(t, s[0]))
  {
    hide TopOk, TopOn, Skip, MembersOn, RestOn, AtToken;
    var o := StepObjectSep(t, s[0]);
    ObjectTop(cfg, t, s);
    if o.Eat? {
      TopOnRest(cfg, o.t, s[1..]);
      RestOnIs(cfg, In(o.t.top, o.t.top.saved), Skip(cfg, s[1..]), |t.below|, t.stPos != 0);
    }
  }

  // ----- words

  /** Words that differ in their second letter. */
  predicate Differ(a: seq<byte>, b: seq<byte>) {
    |a| > 1 && |b| > 1 && Lower(a[1]) != Lower(b[1])
  }

  /** The machine compares as many characters as the word has, the reference all it read. */
  lemma WordStep(cfg: Config, p: seq<byte>, c: byte, a: seq<byte>, b: seq<byte>)
    requires Differ(a, b) && (Begins(cfg, p, a) || Begins(cfg, p, b))
    ensures SameWord(cfg.strict, a, p + [c], Min(|p| + 1, |a|)) <==>
            if |p| < |a| then Begins(cfg, p + [c], a) else Begins(cfg, p, a)
    ensures Begins(cfg, p + [c], a) ==> !(Begins(cfg, p, b) && |p| == |b|)
  {
    var n := Min(|p| + 1, |a|);
    assert forall i :: 0 <= i < |p| ==> (p + [c])[i] == p[i];
    if |p| < |a| {
      assert n == |p + [c]|;
    } else if |p| > |a| {
      assert Begins(cfg, p, b) && Lower(p[1]) == Lower(b[1]) && (p + [c])[1] == p[1];
    }
  }

  /** What the states on both sides of a pass over a character of a word mean. */
  lemma WordTops(cfg: Config, t: Tok, s: seq<byte>, o: Outcome)
    requires TopOk(t) && s != [] && TopOk(o.t) && t.top.state in {Inf, NullWord, BooleanWord, Number}
    ensures TopOn(cfg, t, s) == WordOn(cfg, t.top.state, s, t.pb, t.stPos)
    ensures o.t.top.state == t.top.state ==> TopOn(cfg, o.t, s[1..]) == WordOn(cfg, t.top.state, s[1..], o.t.pb, o.t.stPos)
    ensures o.t.top.state == EatWs && o.t.top.saved == Finish ==>
              TopOn(cfg, o.t, s) == Ok(o.t.top.current, Skip(cfg, s), o.t.stPos != 0)
  {
    TopOnWord(cfg, t, s);
    if o.t.top.state == t.top.state {
      TopOnWord(cfg, o.t, s[1..]);
    }
    hide Skip, WordOn;
  }

  lemma WordRestOnce(cfg: Config, s: seq<byte>, p: seq<byte>, a: seq<byte>, va: Value, b: seq<byte>, vb: Value, err: Error)
    requires s != [] && a != [] && b != []
    ensures var q := p + [s[0]];
            WordRest(cfg, s, p, a, va, b, vb, err) ==
            if Begins(cfg, p, a) && |p| == |a| then Ok(va, Skip(cfg, s), true)
            else if Begins(cfg, p, b) && |p| == |b| then Ok(vb, Skip(cfg, s), true)
            else if Begins(cfg, q, a) || Begins(cfg, q, b) then WordRest(cfg, s[1..], q, a, va, b, vb, err)
            else Wrong(err)
  {
    hide Begins, Skip;
  }

  lemma Swapped(a: seq<byte>, b: seq<byte>)
    requires Differ(a, b)
    ensures Differ(b, a) && a != [] && b != []
  {
  }

  /** One character of the reference in the machine's terms. */
  lemma WordRestIs(cfg: Config, s: seq<byte>, p: seq<byte>, a: seq<byte>, va: Value, b: seq<byte>, vb: Value, err: Error)
    requires s != [] && Differ(a, b) && (Begins(cfg, p, a) || Begins(cfg, p, b))
    ensures var q := p + [s[0]];
            WordRest(cfg, s, p, a, va, b, vb, err) ==
            if SameWord(cfg.strict, a, q, Min(|p| + 1, |a|)) then
              if |p| == |a| then Ok(va, Skip(cfg, s), true) else WordRest(cfg, s[1..], q, a, va, b, vb, err)
            else if SameWord(cfg.strict, b, q, Min(|p| + 1, |b|)) then
              if |p| == |b| then Ok(vb, Skip(cfg, s), true) else WordRest(cfg, s[1..], q, a, va, b, vb, err)
            else Wrong(err)
    ensures SameWord(cfg.strict, a, p + [s[0]], Min(|p| + 1, |a|)) && |p| != |a| ==> Begins(cfg, p + [s[0]], a)
    ensures SameWord(cfg.strict, b, p + [s[0]], Min(|p| + 1, |b|)) && |p| != |b| ==> Begins(cfg, p + [s[0]], b)
  {
    Swapped(a, b);
    hide SameWord, Begins, Skip, Min, Differ, WordRest;
    WordStep(cfg, p, s[0], a, b);
    WordStep(cfg, p, s[0], b, a);
    Shorter(cfg, p, a);
    Shorter(cfg, p, b);
    Shorter(cfg, p + [s[0]], a);
    Shorter(cfg, p + [s[0]], b);
    WordRestOnce(cfg, s, p, a, va, b, vb, err);
  }

  lemma Shorter(cfg: Config, p: seq<byte>, a: seq<byte>)
    ensures Begins(cfg, p, a) ==> |p| <= |a|
  {
  }

  lemma NullMeans(cfg: Config, t: Tok, s: seq<byte>)
    requires TopOk(t) && s != [] && t.top.state == NullWord && Noted(cfg, t)
    requires TopOk(StepNull(cfg, t, s[0]).t)
    ensures TopMeans(cfg, t, s, StepNull(cfg, t, s[0]))
  {
    WordRestIs(cfg, s, t.pb, NULL_WORD, Null, NAN_WORD, Double(NAN_WORD), NullError);
    hide SameWord, Begins, Skip, TopOn, HasParts, WordRest;
    WordTops(cfg, t, s, StepNull(cfg, t, s[0]));
  }

  lemma BooleanMeans(cfg: Config, t: Tok, s: seq<byte>)
    requires TopOk(t) && s != [] && t.top.state == BooleanWord && Noted(cfg, t)
    requires TopOk(StepBoolean(cfg, t, s[0]).t)
    ensures TopMeans(cfg, t, s, StepBoolean(cfg, t, s[0]))
  {
    WordRestIs(cfg, s, t.pb, TRUE_WORD, Bool(true), FALSE_WORD, Bool(false), BooleanError);
    hide SameWord, Begins, Skip, TopOn, HasParts, WordRest;
    WordTops(cfg, t, s, StepBoolean(cfg, t, s[0]));
  }

  lemma InfStep(cfg: Config, p: seq<byte>, c: byte)
    requires Begins(cfg, p, INF_WORD)
    ensures SameWord(cfg.strict, INF_WORD, p + [c], Min(|p| + 1, 8)) <==>
            if |p| < 8 then Begins(cfg, p + [c], INF_WORD) else Begins(cfg, p, INF_WORD)
    ensures p != [] ==> p[0] != MINUS
    ensures Begins(cfg, p + [c], INF_WORD) ==> (p + [c])[0] != MINUS
  {
    var n := Min(|p| + 1, 8);
    assert forall i :: 0 <= i < |p| ==> (p + [c])[i] == p[i];
    assert Lower(MINUS) != Lower(INF_WORD[0]);
    if |p| < 8 {
      assert n == |p + [c]|;
    }
  }

  lemma InfRestOnce(cfg: Config, s: seq<byte>, p: seq<byte>, v: Value)
    requires s != [] && Begins(cfg, p, INF_WORD)
    ensures var q := p + [s[0]];
            WordRest(cfg, s, p, INF_WORD, v, INF_WORD, v, UnexpectedError) ==
            if !SameWord(cfg.strict, INF_WORD, q, Min(|p| + 1, 8)) then Wrong(UnexpectedError)
            else if |p| == 8 then Ok(v, Skip(cfg, s), true)
            else WordRest(cfg, s[1..], q, INF_WORD, v, INF_WORD, v, UnexpectedError)
    ensures SameWord(cfg.strict, INF_WORD, p + [s[0]], Min(|p| + 1, 8)) && |p| < 8 ==> Begins(cfg, p + [s[0]], INF_WORD)
    ensures |p| <= 8
  {
    InfStep(cfg, p, s[0]);
    Shorter(cfg, p, INF_WORD);
    Shorter(cfg, p + [s[0]], INF_WORD);
    WordRestOnce(cfg, s, p, INF_WORD, v, INF_WORD, v, UnexpectedError);
    hide SameWord, Begins, WordRest, Skip, Min;
  }

  lemma TooShort(cfg: Config, c: byte, n: nat)
    requires n != 0
    ensures !SameWord(cfg.strict, INF_WORD, [c], Min(n + 1, 8))
  {
  }

  /** The sign is refused because st_pos was left set. */
  lemma RefusedMeans(cfg: Config, t: Tok, s: seq<byte>)
    requires TopOk(t) && s != [] && t.top.state == Inf && t.pb == [MINUS] && t.stPos != 0
    requires TopOk(StepInf(cfg, t, s[0]).t)
    ensures TopMeans(cfg, t, s, StepInf(cfg, t, s[0]))
  {
    hide Skip, TopOn, HasParts, Begins, Min, SameWord;
    WordTops(cfg, t, s, StepInf(cfg, t, s[0]));
    TooShort(cfg, s[0], t.stPos);
    assert Unsigned(t.pb + [s[0]]) == [s[0]];
  }

  /** The sign is followed by the word. */
  lemma SignedMeans(cfg: Config, t: Tok, s: seq<byte>)
    requires TopOk(t) && s != [] && t.top.state == Inf && t.pb != [] && t.pb[0] == MINUS
    requires Begins(cfg, t.pb[1..], INF_WORD) && |t.pb| == t.stPos + 1 && TopOk(StepInf(cfg, t, s[0]).t)
    ensures TopMeans(cfg, t, s, StepInf(cfg, t, s[0]))
  {
    hide Skip, TopOn, HasParts, WordRest, Begins, Min, SameWord;
    var o, p := StepInf(cfg, t, s[0]), t.pb[1..];
    WordTops(cfg, t, s, o);
    assert Unsigned(t.pb + [s[0]]) == p + [s[0]];
    InfRestOnce(cfg, s, p, Double([MINUS] + INF_WORD));
    assert (t.pb + [s[0]])[1..] == p + [s[0]];
  }

  lemma UnsignedMeans(cfg: Config, t: Tok, s: seq<byte>)
    requires TopOk(t) && s != [] && t.top.state == Inf && Noted(cfg, t) && !(t.pb != [] && t.pb[0] == MINUS)
    requires TopOk(StepInf(cfg, t, s[0]).t)
    ensures TopMeans(cfg, t, s, StepInf(cfg, t, s[0]))
  {
    var o := StepInf(cfg, t, s[0]);
    WordTops(cfg, t, s, o);
    InfRestOnce(cfg, s, t.pb, Double(INF_WORD));
    if t.pb != [] || s[0] != MINUS {
      assert Unsigned(t.pb + [s[0]]) == t.pb + [s[0]];
    } else {
      assert t.pb + [s[0]] == [MINUS];
    }
    hide Skip, TopOn, HasParts, WordRest, Begins;
  }

  lemma InfMeans(cfg: Config, t: Tok, s: seq<byte>)
    requires TopOk(t) && s != [] && t.top.state == Inf && Noted(cfg, t) && TopOk(StepInf(cfg, t, s[0]).t)
    ensures TopMeans(cfg, t, s, StepInf(cfg, t, s[0]))
  {
    hide TopMeans, TopOk, Begins;
    if !(t.pb != [] && t.pb[0] == MINUS) {
      UnsignedMeans(cfg, t, s);
    } else if |t.pb| == t.stPos + 1 && Begins(cfg, t.pb[1..], INF_WORD) {
      SignedMeans(cfg, t, s);
    } else {
      BeginsNoSign(cfg, t.pb);
      RefusedMeans(cfg, t, s);
    }
  }

  lemma BeginsNoSign(cfg: Config, p: seq<byte>)
    requires p != [] && p[0] == MINUS
    ensures !Begins(cfg, p, INF_WORD)
  {
    assert Lower(MINUS) != Lower(INF_WORD[0]);
  }

  // ----- numbers

  lemma MoreKinds(p: seq<byte>, c: byte)
    ensures IsReal(p + [c]) <==> IsReal(p) || IsExponent(c) || c == 46
    ensures HasExponent(p + [c]) <==> HasExponent(p) || IsExponent(c)
  {
    var q := p + [c];
    assert q[|p|] == c;
    assert forall i :: 0 <= i < |p| ==> q[i] == p[i];
  }

  /** What the number state notes decides as the reference does, and stays noted. */
  lemma NumberCharNotes(t: Tok, c: byte)
    requires NumberNoted(t) && IsNumberChar(c)
    ensures var o := NumberChar(t, c);
            && (if Misplaced(t.pb, c) then o == Halt(t, NumberError) else o.Eat? && NumberNoted(o.t))
            && (o.Eat? ==> o.t.pb == t.pb + [c] && o.t.top == t.top && o.t.below == t.below)
  {
    MoreKinds(t.pb, c);
    hide IsReal, HasExponent, IsNumberChar;
  }

  lemma NumberCharMeans(cfg: Config, t: Tok, s: seq<byte>)
    requires TopOk(t) && s != [] && t.top.state == Number && Noted(cfg, t) && IsNumberChar(s[0])
    requires TopOk(NumberChar(t, s[0]).t)
    ensures TopMeans(cfg, t, s, NumberChar(t, s[0]))
  {
    WordTops(cfg, t, s, NumberChar(t, s[0]));
    NumberCharNotes(t, s[0]);
    hide TopOn, TopOk, NumberNoted, Misplaced, NumberChar, Skip, ParseInt64, IsNumberChar;
  }

  lemma NumberEndMeans(cfg: Config, t: Tok, s: seq<byte>)
    requires TopOk(t) && s != [] && t.top.state == Number && Noted(cfg, t) && !IsNumberChar(s[0])
    requires TopOk(NumberEnd(cfg, t, s[0]).t)
    ensures TopMeans(cfg, t, s, NumberEnd(cfg, t, s[0]))
  {
    WordTops(cfg, t, s, NumberEnd(cfg, t, s[0]));
    hide TopOn, TopOk, IsReal, HasExponent, Skip, ParseInt64, IsNumberChar;
  }

  // ----- between the levels

  lemma ItemAddedMeans(cfg: Config, t: Tok, s: seq<byte>)
    requires TopOk(t) && s != [] && t.top.state == ArrayAdd && TopOk(StepArrayAdd(t).t)
    ensures TopMeans(cfg, t, s, StepArrayAdd(t))
  {
    hide Skip, SepOn, RestOn;
    var u := StepArrayAdd(t).t;
    TopOnRest(cfg, u, s);
    RestOnIs(cfg, In(u.top, ArraySep), Skip(cfg, s), |t.below|, t.stPos != 0);
  }

  lemma MemberAddedMeans(cfg: Config, t: Tok, s: seq<byte>)
    requires TopOk(t) && s != [] && t.top.state == ObjectValueAdd && TopOk(StepObjectValueAdd(t).t)
    ensures TopMeans(cfg, t, s, StepObjectValueAdd(t))
  {
    hide Skip, Add, MemberSepOn, RestOn;
    var u := StepObjectValueAdd(t).t;
    TopOnRest(cfg, u, s);
    RestOnIs(cfg, In(u.top, ObjectSep), Skip(cfg, s), |t.below|, t.stPos != 0);
  }

  lemma ClosingMeans(cfg: Config, t: Tok, s: seq<byte>)
    requires TopOk(t) && s != [] && AtToken(cfg, t, s[0]) && t.top.state in {Array, ArrayAfterSep}
    requires s[0] == RBRACKET && TopOk(StepArray(cfg, t, s[0]).t)
    ensures TopMeans(cfg, t, s, StepArray(cfg, t, s[0]))
  {
    assert t.top.current.Arr?;
    hide IsSpace, TopOn, TopOk, Skip, HasParts;
    var o := StepArray(cfg, t, s[0]);
    TokenStays(cfg, s);
    TopOnRest(cfg, t, s);
    if o.Eat? {
      TopOnRest(cfg, o.t, s[1..]);
    }
  }

  /** An item, or the value of a member, read one level deeper. */
  lemma InnerIs(cfg: Config, k: Skipped, d: nat, used: bool)
    requires k.Next?
    ensures InnerOn(cfg, k, d, used) == if d + 1 >= cfg.maxDepth then Wrong(DepthError) else StartOn(cfg, k, d + 1, used)
    ensures var g := InnerOn(cfg, k, d, used);
            && (k.q[0] != RBRACKET ==> forall items, sep ::
                  ItemsOn(cfg, k, items, sep, d, used) == if g.Ok? then SepOn(cfg, g.k, items + [g.v], d, g.used) else g)
            && (forall fields, key ::
                  MemberOn(cfg, k, fields, key, d, used) == if g.Ok? then MemberSepOn(cfg, g.k, Add(fields, key, g.v), d, g.used) else g)
  {
    hide StartOn, SepOn, MemberSepOn, Add;
  }

  lemma WithinOne(cfg: Config, below: seq<Level>, l: Level, g: Got)
    requires (forall i :: 0 <= i < |below| ==> Waiting(below[i])) && Waiting(l)
    requires forall i :: 0 <= i < |below + [l]| ==> Waiting((below + [l])[i])
    ensures Within(cfg, below + [l], g) == Within(cfg, below,
              if !g.Ok? then g
              else if l.state == ArrayAdd then SepOn(cfg, g.k, l.current.items + [g.v], |below|, g.used)
              else MemberSepOn(cfg, g.k, Add(l.current.fields, l.field.value, g.v), |below|, g.used))
  {
    assert (below + [l])[..|below|] == below && (below + [l])[|below|] == l;
    hide SepOn, MemberSepOn, Add;
  }

  lemma ItemPushedMeans(cfg: Config, t: Tok, s: seq<byte>)
    requires MidInv(cfg, t) && s != [] && AtToken(cfg, t, s[0]) && t.top.state in {Array, ArrayAfterSep}
    requires s[0] != RBRACKET && MidInv(cfg, StepArray(cfg, t, s[0]).t)
    ensures StepMeans(cfg, t, s, StepArray(cfg, t, s[0]))
  {
    hide Skip, TopOn, RestOn, SepOn, IsSpace, StartOn, ItemsOn, InnerOn, Within, Waiting;
    var d, l, o := |t.below|, In(t.top, t.top.state), StepArray(cfg, t, s[0]);
    TokenStays(cfg, s);
    TopOnRest(cfg, t, s);
    RestOnIs(cfg, l, Next(s), d, t.stPos != 0);
    InnerIs(cfg, Next(s), d, t.stPos != 0);
    if o.Halt? {
      TopSuffices(cfg, t, s, o);
    } else {
      TopOnRest(cfg, o.t, s);
      RestOnIs(cfg, In(FRESH, Start), Next(s), d + 1, t.stPos != 0);
      assert Waiting(o.t.below[d]);
      WithinOne(cfg, t.below, o.t.below[d], StartOn(cfg, Next(s), d + 1, t.stPos != 0));
    }
  }

  lemma MemberPushedMeans(cfg: Config, t: Tok, s: seq<byte>)
    requires MidInv(cfg, t) && s != [] && AtToken(cfg, t, s[0]) && t.top.state == ObjectValue
    requires MidInv(cfg, StepObjectValue(cfg, t).t)
    ensures StepMeans(cfg, t, s, StepObjectValue(cfg, t))
  {
    hide Skip, TopOn, RestOn, MemberSepOn, IsSpace, StartOn, MemberOn, InnerOn, Within, Waiting, Add;
    var d, l, o := |t.below|, In(t.top, t.top.state), StepObjectValue(cfg, t);
    TokenStays(cfg, s);
    TopOnRest(cfg, t, s);
    RestOnIs(cfg, l, Next(s), d, t.stPos != 0);
    InnerIs(cfg, Next(s), d, t.stPos != 0);
    if o.Halt? {
      TopSuffices(cfg, t, s, o);
    } else {
      TopOnRest(cfg, o.t, s);
      RestOnIs(cfg, In(FRESH, Start), Next(s), d + 1, t.stPos != 0);
      assert Waiting(o.t.below[d]);
      WithinOne(cfg, t.below, o.t.below[d], StartOn(cfg, Next(s), d + 1, t.stPos != 0));
    }
  }

  lemma FinishMeans(cfg: Config, t: Tok, s: seq<byte>)
    requires MidInv(cfg, t) && s != [] && AtToken(cfg, t, s[0]) && t.top.state == Finish
    requires MidInv(cfg, StepFinish(t).t)
    ensures StepMeans(cfg, t, s, StepFinish(t))
  {
    TokenStays(cfg, s);
    TopOnRest(cfg, t, s);
    if t.below != [] {
      assert Waiting(t.below[|t.below| - 1]);
    }
    hide Skip, Add, SepOn, MemberSepOn;
  }

  // ----- every pass

  ghost predicate MicroMeans(cfg: Config, t: Tok, s: seq<byte>)
    requires MidInv(cfg, t) && s != []
  {
    var o := Micro(cfg, t, s[0]);
    MidInv(cfg, o.t) && StepMeans(cfg, t, s, o)
  }

  lemma BlankPass(cfg: Config, t: Tok, s: seq<byte>)
    requires MidInv(cfg, t) && s != [] && (t.top.state == EatWs || InComment(t.top.state))
    ensures MicroMeans(cfg, t, s)
  {
    hide TopMeans, StepMeans, HasParts, StepEatWs, StepCommentStart, StepComment, StepCommentEnd, StepCommentEol, Waiting;
    MicroKeepsInv(cfg, t, s[0]);
    var o := Micro(cfg, t, s[0]);
    if t.top.state == EatWs {
      SpaceMeans(cfg, t, s);
    } else if t.top.state == CommentStart {
      CommentStartMeans(cfg, t, s);
    } else {
      CommentMeans(cfg, t, s, o);
    }
    TopSuffices(cfg, t, s, o);
  }

  lemma TextPass(cfg: Config, t: Tok, s: seq<byte>)
    requires MidInv(cfg, t) && s != [] && t.top.state in {String, Field, StringEscape, EscapeUnicode}
    ensures MicroMeans(cfg, t, s)
  {
    hide TopMeans, StepMeans, HasParts, StepString, StepField, StepEscape, StepUnicode, Waiting;
    MicroKeepsInv(cfg, t, s[0]);
    var o := Micro(cfg, t, s[0]);
    if t.top.state == StringEscape {
      EscapeMeans(cfg, t, s);
    } else if t.top.state == EscapeUnicode {
      UnicodeMeans(cfg, t, s);
    } else if t.top.state == String {
      StringMeans(cfg, t, s);
    } else {
      KeyMeans(cfg, t, s);
    }
    TopSuffices(cfg, t, s, o);
  }

  lemma WordPass(cfg: Config, t: Tok, s: seq<byte>)
    requires MidInv(cfg, t) && s != [] && t.top.state in {Inf, NullWord, BooleanWord, Number} && Noted(cfg, t)
    ensures MicroMeans(cfg, t, s)
  {
    hide TopMeans, StepMeans, HasParts, StepNull, StepBoolean, StepInf, NumberChar, NumberEnd, IsNumberChar, Waiting, Noted;
    MicroKeepsInv(cfg, t, s[0]);
    var o := Micro(cfg, t, s[0]);
    if t.top.state == NullWord {
      NullMeans(cfg, t, s);
    } else if t.top.state == BooleanWord {
      BooleanMeans(cfg, t, s);
    } else if t.top.state == Inf {
      InfMeans(cfg, t, s);
    } else if IsNumberChar(s[0]) {
      NumberCharMeans(cfg, t, s);
    } else {
      NumberEndMeans(cfg, t, s);
    }
    TopSuffices(cfg, t, s, o);
  }

  lemma ItemPass(cfg: Config, t: Tok, s: seq<byte>)
    requires MidInv(cfg, t) && s != [] && AtToken(cfg, t, s[0]) && t.top.state in {Array, ArrayAfterSep}
    ensures MicroMeans(cfg, t, s)
  {
    hide TopMeans, StepMeans, HasParts, StepArray, AtToken, Waiting;
    MicroKeepsInv(cfg, t, s[0]);
    if s[0] == RBRACKET {
      ClosingMeans(cfg, t, s);
      TopSuffices(cfg, t, s, Micro(cfg, t, s[0]));
    } else {
      ItemPushedMeans(cfg, t, s);
    }
  }

  lemma ArrayPass(cfg: Config, t: Tok, s: seq<byte>)
    requires MidInv(cfg, t) && s != [] && AtToken(cfg, t, s[0]) && t.top.state in {ArraySep, ArrayAdd}
    ensures MicroMeans(cfg, t, s)
  {
    hide TopMeans, StepMeans, HasParts, StepArraySep, StepArrayAdd, AtToken, Waiting;
    MicroKeepsInv(cfg, t, s[0]);
    if t.top.state == ArraySep {
      ArrayMeans(cfg, t, s);
    } else {
      ItemAddedMeans(cfg, t, s);
    }
    TopSuffices(cfg, t, s, Micro(cfg, t, s[0]));
  }

  lemma FieldPass(cfg: Config, t: Tok, s: seq<byte>)
    requires MidInv(cfg, t) && s != [] && AtToken(cfg, t, s[0])
    requires t.top.state in {FieldStart, FieldStartAfterSep, FieldEnd}
    ensures MicroMeans(cfg, t, s)
  {
    hide TopMeans, StepMeans, HasParts, StepFieldStart, StepFieldEnd, AtToken, Waiting;
    MicroKeepsInv(cfg, t, s[0]);
    var o := Micro(cfg, t, s[0]);
    if t.top.state == FieldEnd {
      ColonMeans(cfg, t, s);
    } else {
      FieldMeans(cfg, t, s, o);
    }
    TopSuffices(cfg, t, s, o);
  }

  lemma MemberPass(cfg: Config, t: Tok, s: seq<byte>)
    requires MidInv(cfg, t) && s != [] && AtToken(cfg, t, s[0])
    requires t.top.state in {ObjectValue, ObjectValueAdd, ObjectSep}
    ensures MicroMeans(cfg, t, s)
  {
    hide TopMeans, StepMeans, HasParts, StepObjectValue, StepObjectValueAdd, StepObjectSep, AtToken, Waiting;
    MicroKeepsInv(cfg, t, s[0]);
    var o := Micro(cfg, t, s[0]);
    if t.top.state == ObjectValue {
      MemberPushedMeans(cfg, t, s);
    } else if t.top.state == ObjectValueAdd {
      MemberAddedMeans(cfg, t, s);
      TopSuffices(cfg, t, s, o);
    } else {
      ObjectMeans(cfg, t, s);
      TopSuffices(cfg, t, s, o);
    }
  }

  lemma ValuePass(cfg: Config, t: Tok, s: seq<byte>)
    requires MidInv(cfg, t) && s != [] && AtToken(cfg, t, s[0]) && t.top.state in {Start, Finish}
    ensures MicroMeans(cfg, t, s)
  {
    hide TopMeans, StepMeans, HasParts, StepStart, StepFinish, AtToken, Waiting;
    MicroKeepsInv(cfg, t, s[0]);
    var o := Micro(cfg, t, s[0]);
    if t.top.state == Start {
      StartMeans(cfg, t, s);
      TopSuffices(cfg, t, s, o);
    } else {
      FinishMeans(cfg, t, s);
    }
  }

  /** No pass through the switch changes what the text will have been read as. */
  lemma EveryPass(cfg: Config, t: Tok, s: seq<byte>)
    requires MidInv(cfg, t) && s != [] && Noted(cfg, t) && AtToken(cfg, t, s[0])
    ensures MicroMeans(cfg, t, s)
  {
    hide MidInv, MicroMeans, Noted, AtToken;
    if t.top.state == EatWs || InComment(t.top.state) {
      BlankPass(cfg, t, s);
    } else if t.top.state in {String, Field, StringEscape, EscapeUnicode} {
      TextPass(cfg, t, s);
    } else if t.top.state in {Inf, NullWord, BooleanWord, Number} {
      WordPass(cfg, t, s);
    } else if t.top.state in {Array, ArrayAfterSep} {
      ItemPass(cfg, t, s);
    } else if t.top.state in {ArraySep, ArrayAdd} {
      ArrayPass(cfg, t, s);
    } else if t.top.state in {Start, Finish} {
      ValuePass(cfg, t, s);
    } else if t.top.state in {FieldStart, FieldStartAfterSep, FieldEnd} {
      FieldPass(cfg, t, s);
    } else {
      MemberPass(cfg, t, s);
    }
  }

  // ----- one character, one call

  ghost predicate RedoMeans(cfg: Config, m: Got, s: seq<byte>, o: Outcome)
    requires MidInv(cfg, o.t) && s != [] && !o.Again?
  {
    if o.Eat? then Meaning(cfg, o.t, s[1..]) == m && Between(cfg, o.t)
    else if o.err == Success then Finished(m, o.t, s)
    else Fails(m, o.err) && o.t.top.state != Finish
  }

  lemma {:induction false} RedoIs(cfg: Config, t: Tok, s: seq<byte>)
    requires MidInv(cfg, t) && s != [] && Noted(cfg, t) && AtToken(cfg, t, s[0])
    ensures RedoMeans(cfg, Meaning(cfg, t, s), s, Redo(cfg, t, s[0]))
    decreases Rank(t)
  {
    EveryPass(cfg, t, s);
    hide MidInv, Meaning, Micro, Noted, Between, AtToken, Rank;
    var o := Micro(cfg, t, s[0]);
    if o.Again? {
      MicroLowersRank(cfg, t, s[0]);
      RedoIs(cfg, o.t, s);
    }
  }

  /** How the run over a text ended; a NUL may stand at its end. */
  ghost predicate RunMeans(cfg: Config, m: Got, r: Ran)
    requires Inv(cfg, r.t)
  {
    if r.Paused? then Meaning(cfg, r.t, []) == m && Between(cfg, r.t)
    else if r.err != Success then Fails(m, r.err) && r.t.top.state != Finish
    else if r.t.top.state == Finish then
      m.Ok? && m.v == r.t.top.current && m.k.Next? && m.k.q[0] == r.c && r.t.below == []
    else Meaning(cfg, r.t, []) == m && Between(cfg, r.t) && r.c == 0
  }

  lemma {:induction false} RunIs(cfg: Config, t: Tok, s: seq<byte>)
    requires Inv(cfg, t) && Between(cfg, t) && forall i :: 0 <= i < |s| - 1 ==> s[i] != 0
    ensures RunMeans(cfg, Meaning(cfg, t, s), Run(cfg, t, s))
    ensures 0 !in s && Run(cfg, t, s).Out? ==> Run(cfg, t, s).c != 0
    ensures s != [] && s[|s| - 1] == 0 ==> Run(cfg, t, s).Out?
    decreases |s|
  {
    if s != [] {
      assert |s| > 1 ==> s[1..][|s| - 2] == s[|s| - 1];
      RedoIs(cfg, t, s);
      hide MidInv, Meaning, Redo, Between;
      var o := Redo(cfg, t, s[0]);
      if o.Eat? && s[0] != 0 {
        RunIs(cfg, o.t, s[1..]);
      }
    }
  }

  lemma RestAtEnd(cfg: Config, l: Level, open: bool, d: nat, used: bool)
    requires Resting(l.state) && HasParts(l.state, l)
    ensures RestOn(cfg, l, End(open), d, used) == if l.state == Finish then Ok(l.current, End(open), used) else More
  {
    assert InnerOn(cfg, End(open), d, used) == More;
  }

  lemma TopAtEnd(cfg: Config, t: Tok)
    requires TopOk(t) && Between(cfg, t)
    ensures var l, m := t.top, TopOn(cfg, t, []);
            if (l.state == EatWs || InComment(l.state)) && l.saved == Finish then m == Ok(l.current, End(l.state != EatWs), t.stPos != 0)
            else m == More
  {
    if t.top.state == EatWs || InComment(t.top.state) {
      RestAtEnd(cfg, In(t.top, t.top.saved), t.top.state != EatWs, |t.below|, t.stPos != 0);
    }
    hide RestOn;
  }

  lemma WithinAtEnd(cfg: Config, below: seq<Level>, g: Got)
    requires forall i :: 0 <= i < |below| ==> Waiting(below[i])
    ensures g.Ok? && g.k.End? && below != [] ==> Within(cfg, below, g) == More
  {
    if g.Ok? && g.k.End? && below != [] {
      var l := below[|below| - 1];
      assert Waiting(l);
      assert l.state == ArrayAdd ==> SepOn(cfg, g.k, l.current.items + [g.v], |below| - 1, g.used) == More;
    }
  }

  /** What a state means at the end of the text. */
  lemma AtEnd(cfg: Config, t: Tok)
    requires Inv(cfg, t) && Between(cfg, t)
    ensures var l, m := t.top, Meaning(cfg, t, []);
            if t.below == [] && (l.state == EatWs || InComment(l.state)) && l.saved == Finish then
              m == Ok(l.current, End(l.state != EatWs), t.stPos != 0)
            else m == More
  {
    TopAtEnd(cfg, t);
    WithinAtEnd(cfg, t.below, TopOn(cfg, t, []));
    hide TopOn, TopOk, Between;
  }

  // ----- whole texts

  /** What a call makes of a text that the reference reads so. */
  function Verdict(cfg: Config, g: Got): Error
  {
    match g
    case More => Continue
    case Wrong(e) => e
    case Ok(_, End(open), _) => if open then Continue else Success
    case Ok(_, Next(_), _) => if cfg.strict then UnexpectedError else Success
    case Ok(_, Bad, _) => CommentError
  }

  lemma Starts(cfg: Config, s: seq<byte>)
    requires Inv(cfg, NEW)
    ensures Between(cfg, NEW) && Begin(NEW) == NEW && Meaning(cfg, NEW, s) == Document(cfg, s)
  {
    hide StartOn, Skip;
  }

  /** The code behind the `out` label answers as the reference does. */
  lemma OutIsRead(cfg: Config, m: Got, t: Tok, c: byte, err: Error)
    requires Inv(cfg, t) && c != 0 && RunMeans(cfg, m, Out(t, c, err))
    ensures Answers(cfg, Close(cfg, t, c, err), m)
  {
    hide Inv, Meaning, Between;
  }

  lemma PauseIsRead(cfg: Config, m: Got, t: Tok)
    requires Inv(cfg, t) && RunMeans(cfg, m, Paused(t))
    ensures Answers(cfg, Close(cfg, t, 1, if Done(t) then Success else Continue), m)
  {
    AtEnd(cfg, t);
    hide Inv, Meaning;
  }

  /** The call returns what the reference says of the text. */
  ghost predicate Answers(cfg: Config, p: Parsed, g: Got)
  {
    p.err == Verdict(cfg, g) && if p.err == Success then g.Ok? && p.ret == Some(g.v) else p.ret == None
  }

  /** A text without NUL in one call: the tokener answers as the reference does. */
  lemma TextIsRead(cfg: Config, s: seq<byte>)
    requires cfg.maxDepth >= 1 && 0 !in s
    ensures Inv(cfg, NEW) && Answers(cfg, ParseEx(cfg, NEW, s), Document(cfg, s))
  {
    Starts(cfg, s);
    RunIs(cfg, NEW, s);
    hide Inv, Meaning, Between, Run, Document, RunMeans, Answers, Close, Verdict;
    match Run(cfg, NEW, s)
    case Paused(t) => PauseIsRead(cfg, Document(cfg, s), t);
    case Out(t, c, err) => OutIsRead(cfg, Document(cfg, s), t, c, err);
  }

  /** What makes a document of a text that ends with its NUL. */
  predicate Accepted(cfg: Config, g: Got) {
    g.Ok? && (g.k.End? || (g.k.Next? && (g.k.q[0] == 0 || !cfg.strict)))
  }

  ghost predicate AnswersString(cfg: Config, p: Parsed, g: Got) {
    && (p.ret.Some? <==> Accepted(cfg, g))
    && (Accepted(cfg, g) ==> p.ret == Some(g.v))
    && (g == More ==> p.err == EofError)
    && (g.Wrong? ==> p.err in {g.err, EofError})
  }

  lemma StringEnds(cfg: Config, m: Got, t: Tok, c: byte, err: Error)
    requires Inv(cfg, t) && RunMeans(cfg, m, Out(t, c, err))
    requires err == Success && c == 0 ==>
               t.below == [] || (t.top.state != Finish && (t.top.saved != Finish || InComment(t.top.state)))
    ensures if CutInComment(Out(t, c, err)) then m == More && Close(cfg, t, c, err).ret.Some?
            else AnswersString(cfg, Close(cfg, t, c, err), m)
  {
    if err == Success && t.top.state != Finish {
      AtEnd(cfg, t);
    }
    hide Inv, Meaning;
  }

  /** A C string with its NUL: it is a document exactly when the reference reads one, with
      nothing behind it if strict, unless it ends in a comment inside of an open container. */
  lemma StringIsRead(cfg: Config, s: seq<byte>)
    requires cfg.maxDepth >= 1 && 0 !in s
    ensures Inv(cfg, NEW)
    ensures var p, g := ParseEx(cfg, NEW, s + [0]), Document(cfg, s + [0]);
            if CutInComment(Run(cfg, NEW, s + [0])) then g == More && p.ret.Some? else AnswersString(cfg, p, g)
  {
    var text := s + [0];
    Starts(cfg, text);
    RunIs(cfg, NEW, text);
    RunOut(cfg, NEW, text);
    hide Inv, Meaning, Between, Run, Document, RunMeans, AnswersString, Close, CutInComment;
    var r := Run(cfg, NEW, text);
    StringEnds(cfg, Document(cfg, text), r.t, r.c, r.err);
  }
}
