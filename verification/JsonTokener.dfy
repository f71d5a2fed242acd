/**
 The json-c tokener as a machine that takes one character at a time. `Micro` is one pass
 through the `switch` of json_tokener_parse_ex, `Redo` follows the `goto redo_char` jumps
 for one character, `ParseEx` is one call with a chunk of explicit length.
 */
module JsonTokener {
  import opened Bytes
  import opened OrderedMap
  import opened JsonValue

  datatype State =
    | EatWs | Start | Finish | Inf | NullWord | BooleanWord | Number
    | CommentStart | Comment | CommentEol | CommentEnd
    | String | StringEscape | EscapeUnicode
    | Array | ArrayAfterSep | ArrayAdd | ArraySep
    | FieldStart | FieldStartAfterSep | Field | FieldEnd
    | ObjectValue | ObjectValueAdd | ObjectSep

  /** Unmodelled: the text has a high surrogate, whose other half is looked for ahead. */
  datatype Error =
    | Success | Continue | DepthError | EofError | UnexpectedError | NullError | BooleanError
    | NumberError | ArrayError | KeyNameError | KeySepError | ValueSepError | StringError | CommentError
    | Unmodelled

  /** One record of the parser stack. */
  datatype Level = Level(state: State, saved: State, current: Value, field: Option<Key>)

  const FRESH: Level := Level(EatWs, Start, Null, None)

  /** Locals of the number state, which do not survive a call. */
  datatype NumLocals = NumLocals(caseLen: nat, exponent: bool, minusAt: nat)

  const NUM0: NumLocals := NumLocals(0, false, 1)

  /** `below` and `top` are stack[0..depth]; `obj` and `num` are locals of one call. */
  datatype Tok = Tok(
    below: seq<Level>,
    top: Level,
    pb: seq<byte>,
    stPos: nat,
    isDouble: bool,
    ucs: nat,
    quote: byte,
    obj: Value,
    num: NumLocals)

  /** `isDouble` is what sscanf takes for a double. */
  datatype Config = Config(maxDepth: nat, strict: bool, isDouble: seq<byte> -> bool)

  const QUOTE: byte := 34
  const APOSTROPHE: byte := 39
  const STAR: byte := 42
  const COMMA: byte := 44
  const MINUS: byte := 45
  const SLASH: byte := 47
  const COLON: byte := 58
  const LBRACKET: byte := 91
  const BACKSLASH: byte := 92
  const RBRACKET: byte := 93
  const LBRACE: byte := 123
  const RBRACE: byte := 125

  const NULL_WORD: seq<byte> := [110, 117, 108, 108]
  const NAN_WORD: seq<byte> := [78, 97, 78]
  const INF_WORD: seq<byte> := [73, 110, 102, 105, 110, 105, 116, 121]
  const TRUE_WORD: seq<byte> := [116, 114, 117, 101]
  const FALSE_WORD: seq<byte> := [102, 97, 108, 115, 101]

  function Lower(c: byte): byte {
    if 65 <= c <= 90 then c + 32 else c
  }

  /** strncmp in strict mode, strncasecmp otherwise. */
  predicate SameWord(strict: bool, word: seq<byte>, pb: seq<byte>, n: nat) {
    n <= |word| && n <= |pb|
    && forall i :: 0 <= i < n ==> pb[i] == word[i] || (!strict && Lower(pb[i]) == Lower(word[i]))
  }

  // ----- the cases of the switch

  /** Again: `goto redo_char`. Eat: the character is consumed. Halt: `goto out`. */
  datatype Outcome = Again(t: Tok) | Eat(t: Tok) | Halt(t: Tok, err: Error)

  function Wait(l: Level, saved: State): Level {
    l.(state := EatWs, saved := saved)
  }

  /** A complete value at this level. */
  function Settle(l: Level, v: Value): Level {
    Level(EatWs, Finish, v, l.field)
  }

  function Push(t: Tok, s: State): Tok {
    t.(below := t.below + [t.top.(state := s)], top := FRESH)
  }

  function StepEatWs(cfg: Config, t: Tok, c: byte): Outcome {
    if IsSpace(c) then Eat(t)
    else if c == SLASH && !cfg.strict then Eat(t.(pb := [c], top := t.top.(state := CommentStart)))
    else Again(t.(top := t.top.(state := t.top.saved)))
  }

  function Token(t: Tok, s: State): Tok {
    t.(top := t.top.(state := s), pb := [], stPos := 0)
  }

  function StepStart(cfg: Config, t: Tok, c: byte): Outcome {
    if c == LBRACE then Eat(t.(top := Level(EatWs, FieldStart, Obj([]), t.top.field)))
    else if c == LBRACKET then Eat(t.(top := Level(EatWs, Array, Arr([]), t.top.field)))
    else if Lower(c) == 110 then Again(Token(t, NullWord))
    else if c == QUOTE || (c == APOSTROPHE && !cfg.strict) then
      Eat(t.(top := t.top.(state := String), pb := [], quote := c))
    else if Lower(c) == 116 || Lower(c) == 102 then Again(Token(t, BooleanWord))
    else if IsDigit(c) || c == MINUS then
      Again(t.(top := t.top.(state := Number), pb := [], isDouble := false, num := NUM0))
    else if Lower(c) == 105 then Again(Token(t, Inf))
    else Halt(t, UnexpectedError)
  }

  function StepFinish(t: Tok): Outcome {
    if t.below == [] then Halt(t, Success)
    else
      var n := |t.below| - 1;
      Again(t.(below := t.below[..n], top := t.below[n], obj := t.top.current))
  }

  function Unsigned(pb: seq<byte>): seq<byte> {
    if pb != [] && pb[0] == MINUS then pb[1..] else pb
  }

  /** "Infinity", also behind the sign that the number state has taken. */
  function StepInf(cfg: Config, t: Tok, c: byte): Outcome {
    var pb := t.pb + [c];
    if SameWord(cfg.strict, INF_WORD, Unsigned(pb), Min(t.stPos + 1, 8)) then
      if t.stPos == 8 then
        Again(t.(pb := pb, top := Settle(t.top, Double(if pb[0] == MINUS then [MINUS] + INF_WORD else INF_WORD))))
      else Eat(t.(pb := pb, stPos := t.stPos + 1))
    else Halt(t, UnexpectedError)
  }

  function StepCommentStart(t: Tok, c: byte): Outcome {
    if c == STAR then Eat(t.(pb := t.pb + [c], top := t.top.(state := Comment)))
    else if c == SLASH then Eat(t.(pb := t.pb + [c], top := t.top.(state := CommentEol)))
    else Halt(t, CommentError)
  }

  function StepComment(t: Tok, c: byte): Outcome {
    Eat(t.(pb := t.pb + [c], top := t.top.(state := if c == STAR then CommentEnd else Comment)))
  }

  function StepCommentEol(t: Tok, c: byte): Outcome {
    if c == LF then Eat(t.(top := t.top.(state := EatWs))) else Eat(t.(pb := t.pb + [c]))
  }

  /** Another star here does not end the comment. */
  function StepCommentEnd(t: Tok, c: byte): Outcome {
    Eat(t.(pb := t.pb + [c], top := t.top.(state := if c == SLASH then EatWs else Comment)))
  }

  function StepNull(cfg: Config, t: Tok, c: byte): Outcome {
    var pb := t.pb + [c];
    if SameWord(cfg.strict, NULL_WORD, pb, Min(t.stPos + 1, 4)) then
      if t.stPos == 4 then Again(t.(pb := pb, top := Settle(t.top, Null)))
      else Eat(t.(pb := pb, stPos := t.stPos + 1))
    else if SameWord(cfg.strict, NAN_WORD, pb, Min(t.stPos + 1, 3)) then
      if t.stPos == 3 then Again(t.(pb := pb, top := Settle(t.top, Double(NAN_WORD))))
      else Eat(t.(pb := pb, stPos := t.stPos + 1))
    else Halt(t, NullError)
  }

  function StepBoolean(cfg: Config, t: Tok, c: byte): Outcome {
    var pb := t.pb + [c];
    if SameWord(cfg.strict, TRUE_WORD, pb, Min(t.stPos + 1, 4)) then
      if t.stPos == 4 then Again(t.(pb := pb, top := Settle(t.top, Bool(true))))
      else Eat(t.(pb := pb, stPos := t.stPos + 1))
    else if SameWord(cfg.strict, FALSE_WORD, pb, Min(t.stPos + 1, 5)) then
      if t.stPos == 5 then Again(t.(pb := pb, top := Settle(t.top, Bool(false))))
      else Eat(t.(pb := pb, stPos := t.stPos + 1))
    else Halt(t, BooleanError)
  }

  predicate IsNumberChar(c: byte) {
    IsDigit(c) || c == 46 || c == 43 || c == MINUS || c == 101 || c == 69
  }

  function StepNumber(cfg: Config, t: Tok, c: byte): Outcome {
    if IsNumberChar(c) then NumberChar(t, c) else NumberEnd(cfg, t, c)
  }

  function NumberChar(t: Tok, c: byte): Outcome {
    var n := t.num.caseLen + 1;
    var e := Lower(c) == 101;
    var minusAt := if e then n + 1 else t.num.minusAt;
    if c == 46 && t.isDouble then Halt(t, NumberError)
    else if e && t.num.exponent then Halt(t, NumberError)
    else if c == MINUS && n != minusAt then Halt(t, NumberError)
    else Eat(t.(pb := t.pb + [c],
                isDouble := t.isDouble || e || c == 46,
                num := NumLocals(n, t.num.exponent || e, minusAt)))
  }

  /** The digits at the head of a text. */
  function LeadingDigits(s: seq<byte>): (d: seq<byte>)
    ensures forall i :: 0 <= i < |d| ==> IsDigit(d[i])
  {
    if s == [] || !IsDigit(s[0]) then [] else [s[0]] + LeadingDigits(s[1..])
  }

  function Clamp(i: int): int {
    if i < INT64_MIN then INT64_MIN else if i > INT64_MAX then INT64_MAX else i
  }

  /** sscanf of a 64-bit integer: sign, then at least one digit; saturating. */
  function ParseInt64(s: seq<byte>): Option<int> {
    var signed := s != [] && (s[0] == MINUS || s[0] == 43);
    var d := LeadingDigits(if signed then s[1..] else s);
    var v: int := NatOf(d, 0);
    if d == [] then None else Some(Clamp(if signed && s[0] == MINUS then -v else v))
  }

  function NumberEnd(cfg: Config, t: Tok, c: byte): Outcome {
    if t.pb != [] && t.pb[0] == MINUS && t.num.caseLen == 1 && Lower(c) == 105 then
      Again(t.(top := t.top.(state := Inf)))
    else if t.isDouble then
      if cfg.isDouble(t.pb) then Again(t.(top := Settle(t.top, Double(t.pb)))) else Halt(t, NumberError)
    else
      match ParseInt64(t.pb)
      case None => Halt(t, NumberError)
      case Some(n) =>
        if n != 0 && t.pb != [] && t.pb[0] == 48 && cfg.strict then Halt(t, NumberError)
        else Again(t.(top := Settle(t.top, Int(n))))
  }

  function StepString(t: Tok, c: byte): Outcome {
    if c == t.quote then Eat(t.(top := Settle(t.top, Str(t.pb))))
    else if c == BACKSLASH then Eat(t.(top := t.top.(saved := String, state := StringEscape)))
    else Eat(t.(pb := t.pb + [c]))
  }

  /** strdup stops at the first NUL. */
  function CString(s: seq<byte>): seq<byte> {
    if s == [] || s[0] == 0 then [] else [s[0]] + CString(s[1..])
  }

  function StepField(t: Tok, c: byte): Outcome {
    if c == t.quote then Eat(t.(top := Wait(t.top, FieldEnd).(field := Some(CString(t.pb)))))
    else if c == BACKSLASH then Eat(t.(top := t.top.(saved := Field, state := StringEscape)))
    else Eat(t.(pb := t.pb + [c]))
  }

  /** The byte an escape letter stands for. */
  function Unescaped(c: byte): Option<byte> {
    if c == QUOTE || c == BACKSLASH || c == SLASH then Some(c)
    else if c == 98 then Some(8)
    else if c == 110 then Some(10)
    else if c == 114 then Some(13)
    else if c == 116 then Some(9)
    else if c == 102 then Some(12)
    else None
  }

  function StepEscape(t: Tok, c: byte): Outcome {
    match Unescaped(c)
    case Some(b) => Eat(t.(pb := t.pb + [b], top := t.top.(state := t.top.saved)))
    case None =>
      if c == 117 then Eat(t.(ucs := 0, stPos := 0, top := t.top.(state := EscapeUnicode)))
      else Halt(t, StringError)
  }

  function HexWeight(pos: nat): nat {
    if pos == 0 then 4096 else if pos == 1 then 256 else if pos == 2 then 16 else 1
  }

  /** What a half of a surrogate pair on its own becomes. */
  const REPLACEMENT: seq<byte> := [0xEF, 0xBF, 0xBD]

  function StepUnicode(t: Tok, c: byte): Outcome {
    if !IsHex(c) then Halt(t, StringError)
    else
      var u := t.ucs + HexValue(c) * HexWeight(t.stPos);
      if t.stPos != 3 then Eat(t.(ucs := u, stPos := t.stPos + 1))
      else if 0xd800 <= u < 0xdc00 || u >= 0x10000 then Halt(t, Unmodelled)
      else
        var b := if 0xdc00 <= u < 0xe000 then REPLACEMENT else Utf8(u);
        Eat(t.(ucs := u, stPos := 4, pb := t.pb + b, top := t.top.(state := t.top.saved)))
  }

  function StepArray(cfg: Config, t: Tok, c: byte): Outcome {
    if c == RBRACKET then
      if t.top.state == ArrayAfterSep && cfg.strict then Halt(t, UnexpectedError)
      else Eat(t.(top := Wait(t.top, Finish)))
    else if |t.below| + 1 >= cfg.maxDepth then Halt(t, DepthError)
    else Again(Push(t, ArrayAdd))
  }

  function StepArrayAdd(t: Tok): Outcome
    requires t.top.current.Arr?
  {
    Again(t.(top := Wait(t.top, ArraySep).(current := Arr(t.top.current.items + [t.obj]))))
  }

  function StepArraySep(t: Tok, c: byte): Outcome {
    if c == RBRACKET then Eat(t.(top := Wait(t.top, Finish)))
    else if c == COMMA then Eat(t.(top := Wait(t.top, ArrayAfterSep)))
    else Halt(t, ArrayError)
  }

  function StepFieldStart(cfg: Config, t: Tok, c: byte): Outcome {
    if c == RBRACE then
      if t.top.state == FieldStartAfterSep && cfg.strict then Halt(t, UnexpectedError)
      else Eat(t.(top := Wait(t.top, Finish)))
    else if c == QUOTE || c == APOSTROPHE then
      Eat(t.(top := t.top.(state := Field), pb := [], quote := c))
    else Halt(t, KeyNameError)
  }

  function StepFieldEnd(t: Tok, c: byte): Outcome {
    if c == COLON then Eat(t.(top := Wait(t.top, ObjectValue))) else Halt(t, KeySepError)
  }

  function StepObjectValue(cfg: Config, t: Tok): Outcome {
    if |t.below| + 1 >= cfg.maxDepth then Halt(t, DepthError) else Again(Push(t, ObjectValueAdd))
  }

  function StepObjectValueAdd(t: Tok): Outcome
    requires t.top.current.Obj? && t.top.field.Some?
  {
    var fields := Add(t.top.current.fields, t.top.field.value, t.obj);
    Again(t.(top := Level(EatWs, ObjectSep, Obj(fields), None)))
  }

  function StepObjectSep(t: Tok, c: byte): Outcome {
    if c == RBRACE then Eat(t.(top := Wait(t.top, Finish)))
    else if c == COMMA then Eat(t.(top := Wait(t.top, FieldStartAfterSep)))
    else Halt(t, ValueSepError)
  }

  function Micro(cfg: Config, t: Tok, c: byte): Outcome
    requires TopOk(t)
  {
    match t.top.state
    case EatWs => StepEatWs(cfg, t, c)
    case Start => StepStart(cfg, t, c)
    case Finish => StepFinish(t)
    case Inf => StepInf(cfg, t, c)
    case NullWord => StepNull(cfg, t, c)
    case CommentStart => StepCommentStart(t, c)
    case Comment => StepComment(t, c)
    case CommentEol => StepCommentEol(t, c)
    case CommentEnd => StepCommentEnd(t, c)
    case BooleanWord => StepBoolean(cfg, t, c)
    case Number => StepNumber(cfg, t, c)
    case String => StepString(t, c)
    case StringEscape => StepEscape(t, c)
    case EscapeUnicode => StepUnicode(t, c)
    case Array => StepArray(cfg, t, c)
    case ArrayAfterSep => StepArray(cfg, t, c)
    case ArrayAdd => StepArrayAdd(t)
    case ArraySep => StepArraySep(t, c)
    case FieldStart => StepFieldStart(cfg, t, c)
    case FieldStartAfterSep => StepFieldStart(cfg, t, c)
    case Field => StepField(t, c)
    case FieldEnd => StepFieldEnd(t, c)
    case ObjectValue => StepObjectValue(cfg, t)
    case ObjectValueAdd => StepObjectValueAdd(t)
    case ObjectSep => StepObjectSep(t, c)
  }

  // ----- what holds in every reachable state

  /** The container a state works on. */
  predicate HasParts(s: State, l: Level) {
    && (s in {Array, ArrayAfterSep, ArrayAdd, ArraySep} ==> l.current.Arr?)
    && (s in {FieldStart, FieldStartAfterSep, Field, FieldEnd, ObjectValue, ObjectValueAdd, ObjectSep}
        ==> l.current.Obj?)
    && (s in {FieldEnd, ObjectValue, ObjectValueAdd} ==> l.field.Some?)
  }

  /** The states that skip white space first. */
  predicate Resting(s: State) {
    s in {Start, Finish, Array, ArrayAfterSep, ArraySep, FieldStart, FieldStartAfterSep, FieldEnd,
          ObjectValue, ObjectSep}
  }

  predicate InComment(s: State) {
    s in {CommentStart, Comment, CommentEol, CommentEnd}
  }

  predicate TopOk(t: Tok) {
    var l := t.top;
    && HasParts(l.state, l)
    && (l.state == EatWs || InComment(l.state) ==> Resting(l.saved) && HasParts(l.saved, l))
    && (l.state in {StringEscape, EscapeUnicode} ==> l.saved in {String, Field} && HasParts(l.saved, l))
    && (l.state in {Start, FieldStart, FieldStartAfterSep, String, Field, Inf, NullWord, BooleanWord, Number}
        ==> l.saved != Finish)
    && (l.state in {String, Field, StringEscape, EscapeUnicode} ==> t.quote in {QUOTE, APOSTROPHE})
    && (l.state in {NullWord, BooleanWord} ==> |t.pb| == t.stPos)
    && (l.state == EscapeUnicode ==> t.stPos < 4)
  }

  /** A level below the top waits for the value parsed above it. */
  predicate Waiting(l: Level) {
    (l.state == ArrayAdd && l.current.Arr?) || (l.state == ObjectValueAdd && l.current.Obj? && l.field.Some?)
  }

  /** The invariant between two passes through the switch. */
  predicate MidInv(cfg: Config, t: Tok) {
    && |t.below| < cfg.maxDepth
    && TopOk(t)
    && forall i :: 0 <= i < |t.below| ==> Waiting(t.below[i])
  }

  /** The invariant between two characters. */
  predicate Inv(cfg: Config, t: Tok) {
    MidInv(cfg, t) && t.top.state != ArrayAdd && t.top.state != ObjectValueAdd
  }

  /** How many more passes one character can cause at a level. */
  function StateRank(s: State, saved: State): nat {
    match s
    case EatWs => 1 + RestRank(saved)
    case _ => RestRank(s)
  }

  function RestRank(s: State): nat {
    match s
    case Finish => 1
    case ArrayAdd => 2
    case ObjectValueAdd => 2
    case Inf => 3
    case NullWord => 3
    case BooleanWord => 3
    case Number => 4
    case Start => 5
    case Array => 9
    case ArrayAfterSep => 9
    case ObjectValue => 9
    case _ => 0
  }

  function Rank(t: Tok): nat {
    2 * |t.below| + StateRank(t.top.state, t.top.saved)
  }

  ghost predicate Kept(cfg: Config, o: Outcome) {
    MidInv(cfg, o.t) && (!o.Again? ==> Inv(cfg, o.t))
  }

  lemma SpaceKeepsInv(cfg: Config, t: Tok, c: byte)
    requires MidInv(cfg, t) && t.top.state == EatWs
    ensures Kept(cfg, Micro(cfg, t, c))
  {
    hide IsSpace;
  }

  lemma StartKeepsInv(cfg: Config, t: Tok, c: byte)
    requires MidInv(cfg, t) && t.top.state == Start
    ensures Kept(cfg, Micro(cfg, t, c))
  {
    hide Lower, IsDigit;
  }

  lemma WordKeepsInv(cfg: Config, t: Tok, c: byte)
    requires MidInv(cfg, t) && t.top.state in {Inf, NullWord, BooleanWord}
    ensures Kept(cfg, Micro(cfg, t, c))
  {
    hide SameWord, Unsigned, Min;
  }

  lemma NumberKeepsInv(cfg: Config, t: Tok, c: byte)
    requires MidInv(cfg, t) && t.top.state == Number
    ensures Kept(cfg, Micro(cfg, t, c))
  {
    hide ParseInt64, Lower, IsNumberChar;
  }

  lemma TextKeepsInv(cfg: Config, t: Tok, c: byte)
    requires MidInv(cfg, t) && t.top.state in {String, Field}
    ensures Kept(cfg, Micro(cfg, t, c))
  {
    hide CString;
  }

  lemma EscapeKeepsInv(cfg: Config, t: Tok, c: byte)
    requires MidInv(cfg, t) && t.top.state in {StringEscape, EscapeUnicode}
    ensures Kept(cfg, Micro(cfg, t, c))
  {
    hide Utf8, HexValue, HexWeight, IsHex, Unescaped;
  }

  lemma CommentKeepsInv(cfg: Config, t: Tok, c: byte)
    requires MidInv(cfg, t) && InComment(t.top.state)
    ensures Kept(cfg, Micro(cfg, t, c))
  {
  }

  lemma FinishKeepsInv(cfg: Config, t: Tok, c: byte)
    requires MidInv(cfg, t) && t.top.state == Finish
    ensures Kept(cfg, Micro(cfg, t, c))
  {
    if t.below != [] {
      assert Waiting(t.below[|t.below| - 1]);
    }
  }

  lemma ArrayKeepsInv(cfg: Config, t: Tok, c: byte)
    requires MidInv(cfg, t) && t.top.state in {Array, ArrayAfterSep, ArrayAdd, ArraySep}
    ensures Kept(cfg, Micro(cfg, t, c))
  {
  }

  lemma FieldKeepsInv(cfg: Config, t: Tok, c: byte)
    requires MidInv(cfg, t) && t.top.state in {FieldStart, FieldStartAfterSep, FieldEnd}
    ensures Kept(cfg, Micro(cfg, t, c))
  {
  }

  lemma ObjectKeepsInv(cfg: Config, t: Tok, c: byte)
    requires MidInv(cfg, t) && t.top.state in {ObjectValue, ObjectValueAdd, ObjectSep}
    ensures Kept(cfg, Micro(cfg, t, c))
  {
    hide Add;
  }

  lemma MicroKeepsInv(cfg: Config, t: Tok, c: byte)
    requires MidInv(cfg, t)
    ensures Kept(cfg, Micro(cfg, t, c))
  {
    hide MidInv, Inv, Micro, Kept;
    if t.top.state == EatWs {
      SpaceKeepsInv(cfg, t, c);
    } else if t.top.state == Start {
      StartKeepsInv(cfg, t, c);
    } else if t.top.state in {Inf, NullWord, BooleanWord} {
      WordKeepsInv(cfg, t, c);
    } else if t.top.state == Number {
      NumberKeepsInv(cfg, t, c);
    } else if t.top.state in {String, Field} {
      TextKeepsInv(cfg, t, c);
    } else if t.top.state in {StringEscape, EscapeUnicode} {
      EscapeKeepsInv(cfg, t, c);
    } else if InComment(t.top.state) {
      CommentKeepsInv(cfg, t, c);
    } else if t.top.state == Finish {
      FinishKeepsInv(cfg, t, c);
    } else if t.top.state in {Array, ArrayAfterSep, ArrayAdd, ArraySep} {
      ArrayKeepsInv(cfg, t, c);
    } else if t.top.state in {FieldStart, FieldStartAfterSep, FieldEnd} {
      FieldKeepsInv(cfg, t, c);
    } else {
      ObjectKeepsInv(cfg, t, c);
    }
  }

  /** Every jump back to redo_char lowers the rank. */
  lemma MicroLowersRank(cfg: Config, t: Tok, c: byte)
    requires MidInv(cfg, t) && Micro(cfg, t, c).Again?
    ensures Rank(Micro(cfg, t, c).t) < Rank(t)
  {
    hide Micro, Rank;
    if t.top.state in {Inf, NullWord, BooleanWord, Number} {
      WordLowersRank(cfg, t, c);
    } else if t.top.state in {EatWs, Start, Finish} {
      PlainLowersRank(cfg, t, c);
    } else {
      ContainerLowersRank(cfg, t, c);
    }
  }

  lemma WordLowersRank(cfg: Config, t: Tok, c: byte)
    requires MidInv(cfg, t) && Micro(cfg, t, c).Again? && t.top.state in {Inf, NullWord, BooleanWord, Number}
    ensures Rank(Micro(cfg, t, c).t) < Rank(t)
  {
    hide SameWord, ParseInt64, MidInv, Min, Unsigned;
  }

  lemma PlainLowersRank(cfg: Config, t: Tok, c: byte)
    requires MidInv(cfg, t) && Micro(cfg, t, c).Again? && t.top.state in {EatWs, Start, Finish}
    ensures Rank(Micro(cfg, t, c).t) < Rank(t)
  {
    if t.top.state == Finish {
      assert Waiting(t.below[|t.below| - 1]);
    }
  }

  lemma ContainerLowersRank(cfg: Config, t: Tok, c: byte)
    requires MidInv(cfg, t) && Micro(cfg, t, c).Again?
    requires t.top.state !in {EatWs, Start, Finish, Inf, NullWord, BooleanWord, Number}
    ensures Rank(Micro(cfg, t, c).t) < Rank(t)
  {
    hide CString, Add, Utf8, HexValue;
  }

  /** All passes for one character. */
  function Redo(cfg: Config, t: Tok, c: byte): (o: Outcome)
    requires MidInv(cfg, t)
    ensures !o.Again? && Inv(cfg, o.t)
    decreases Rank(t)
  {
    MicroKeepsInv(cfg, t, c);
    var o := Micro(cfg, t, c);
    if o.Again? then MicroLowersRank(cfg, t, c); Redo(cfg, o.t, c) else o
  }

  // ----- one call

  datatype Ran = Paused(t: Tok) | Out(t: Tok, c: byte, err: Error)

  /** Characters until the chunk ends, the machine stops, or a NUL was consumed. */
  function Run(cfg: Config, t: Tok, s: seq<byte>): (r: Ran)
    requires Inv(cfg, t)
    ensures Inv(cfg, r.t)
    decreases |s|
  {
    if s == [] then Paused(t)
    else
      var o := Redo(cfg, t, s[0]);
      if o.Halt? then Out(o.t, s[0], o.err)
      else if s[0] == 0 then Out(o.t, 0, Success)
      else Run(cfg, o.t, s[1..])
  }

  lemma RunNothing(cfg: Config, t: Tok)
    requires Inv(cfg, t)
    ensures Run(cfg, t, []) == Paused(t)
  {
  }

  /** At the end of the text of a whole document. */
  predicate Done(t: Tok) {
    t.below == [] && t.top.state == EatWs && t.top.saved == Finish
  }

  function Begin(t: Tok): Tok {
    t.(obj := Null, num := NUM0)
  }

  lemma BeginKeepsInv(cfg: Config, t: Tok)
    requires Inv(cfg, t)
    ensures Inv(cfg, Begin(t))
  {
  }

  datatype Parsed = Parsed(t: Tok, err: Error, ret: Option<Value>)

  /** The code behind the `out` label; a success resets every level. */
  function Close(cfg: Config, t: Tok, c: byte, err: Error): Parsed {
    var e := if err == Unmodelled then err
             else if c != 0 && t.top.state == Finish && t.below == [] && cfg.strict then UnexpectedError
             else if c == 0 && t.top.state != Finish && t.top.saved != Finish then EofError
             else err;
    if e == Success then
      Parsed(t.(below := seq(|t.below|, _ => FRESH), top := FRESH), e, Some(t.top.current))
    else Parsed(t, e, None)
  }

  function ParseEx(cfg: Config, t: Tok, s: seq<byte>): Parsed
    requires Inv(cfg, t)
  {
    match Run(cfg, Begin(t), s)
    case Paused(t') => Close(cfg, t', 1, if Done(t') then Success else Continue)
    case Out(t', c, err) => Close(cfg, t', c, err)
  }

  lemma MicroHalt(cfg: Config, t: Tok, c: byte)
    requires MidInv(cfg, t)
    ensures var o := Micro(cfg, t, c);
            o.Halt? && o.err == Success ==> o.t.below == []
  {
    hide SameWord, ParseInt64, CString, Add, Utf8, Lower;
  }

  lemma MicroNul(cfg: Config, t: Tok)
    requires MidInv(cfg, t)
    ensures var o := Micro(cfg, t, 0);
            o.Eat? ==> o.t.top.state != Finish && (o.t.top.saved != Finish || InComment(o.t.top.state))
  {
    hide SameWord, ParseInt64, CString, Add, Utf8;
  }

  lemma {:induction false} RedoOut(cfg: Config, t: Tok, c: byte)
    requires MidInv(cfg, t)
    ensures var o := Redo(cfg, t, c);
            && (o.Halt? && o.err == Success ==> o.t.below == [])
            && (o.Eat? && c == 0 ==> o.t.top.state != Finish && (o.t.top.saved != Finish || InComment(o.t.top.state)))
    decreases Rank(t)
  {
    MicroHalt(cfg, t, c);
    MicroNul(cfg, t);
    MicroKeepsInv(cfg, t, c);
    var o := Micro(cfg, t, c);
    if o.Again? {
      MicroLowersRank(cfg, t, c);
      RedoOut(cfg, o.t, c);
    }
  }

  lemma {:induction false} RunOut(cfg: Config, t: Tok, s: seq<byte>)
    requires Inv(cfg, t)
    ensures var r := Run(cfg, t, s);
            r.Out? ==>
              && (r.err == Success && r.c != 0 ==> r.t.below == [])
              && (r.err == Success && r.c == 0 ==>
                    r.t.below == [] || (r.t.top.state != Finish && (r.t.top.saved != Finish || InComment(r.t.top.state))))
    decreases |s|
  {
    hide MidInv, Redo;
    if s != [] {
      RedoOut(cfg, t, s[0]);
      var o := Redo(cfg, t, s[0]);
      if o.Eat? && s[0] != 0 {
        RunOut(cfg, o.t, s[1..]);
      }
    }
  }

  /** A NUL was consumed in a comment behind a complete value that is not the whole document. */
  predicate CutInComment(r: Ran) {
    r.Out? && r.c == 0 && r.err == Success && r.t.below != [] && InComment(r.t.top.state) && r.t.top.saved == Finish
  }

  /** Every reachable tokener state is within its depth and well-formed: a call keeps the
      invariant, whatever the input, unless it is cut in such a comment, and a success returns
      to an empty stack. In such a comment neither holds: the inner value counts as a success
      and the levels below it are reset but not left. */
  lemma ParseExKeepsInv(cfg: Config, t: Tok, s: seq<byte>)
    requires Inv(cfg, t)
    ensures var p, cut := ParseEx(cfg, t, s), CutInComment(Run(cfg, Begin(t), s));
            && (Inv(cfg, p.t) <==> !cut)
            && (p.ret.Some? && p.t.below != [] <==> cut)
            && (cut ==> p.ret == Some(Run(cfg, Begin(t), s).t.top.current))
  {
    hide Run, Inv, Close;
    BeginKeepsInv(cfg, t);
    RunOut(cfg, Begin(t), s);
    match Run(cfg, Begin(t), s)
    case Paused(t') => CloseKeepsInv(cfg, t', 1, if Done(t') then Success else Continue);
    case Out(t', c, err) => CloseKeepsInv(cfg, t', c, err);
  }

  lemma CloseKeepsInv(cfg: Config, t: Tok, c: byte, err: Error)
    requires Inv(cfg, t) && (err == Success && c != 0 ==> t.below == [])
    requires err == Success && c == 0 ==>
               t.below == [] || (t.top.state != Finish && (t.top.saved != Finish || InComment(t.top.state)))
    ensures var p, cut := Close(cfg, t, c, err), CutInComment(Out(t, c, err));
            && (Inv(cfg, p.t) <==> !cut)
            && (p.ret.Some? && p.t.below != [] <==> cut)
            && (cut ==> p.ret == Some(t.top.current))
  {
    var p := Close(cfg, t, c, err);
    if p.ret.Some? && p.t.below != [] {
      assert !Waiting(p.t.below[0]);
    }
  }

  /** A text without NUL is never cut. */
  lemma {:induction false} NotCut(cfg: Config, t: Tok, s: seq<byte>)
    requires Inv(cfg, t) && 0 !in s
    ensures !CutInComment(Run(cfg, t, s))
    decreases |s|
  {
    if s != [] {
      var o := Redo(cfg, t, s[0]);
      if o.Eat? {
        NotCut(cfg, o.t, s[1..]);
      }
      hide Redo;
    }
  }

  /** json_tokener_new_ex. */
  const NEW: Tok := Tok([], FRESH, [], 0, false, 0, 0, Null, NUM0)
}
