/**
 JSON text as json-c takes it, by recursive descent over a complete text: blanks and comments,
 words, numbers, strings, arrays and objects. The machine of JsonTokener, which goes character
 by character and keeps a stack, is measured against this.
 */
module JsonReference {
  import opened Bytes
  import opened OrderedMap
  import opened JsonValue
  import opened JsonTokener
  import opened Unicode

  // ----- what stands between tokens

  type Ahead = q: seq<byte> | q != [] witness [0]

  type Fields = seq<Pair<Key, Value>>

  /** The next token, the end of the text (inside of a comment or not), or a slash that begins
      no comment. */
  datatype Skipped = Next(q: Ahead) | End(open: bool) | Bad

  /** How much of the text is left. */
  function Left(k: Skipped): nat {
    if k.Next? then |k.q| else 0
  }

  function Skip(cfg: Config, s: seq<byte>): (k: Skipped)
    ensures Left(k) <= |s|
    decreases |s|
  {
    if s == [] then End(false)
    else if IsSpace(s[0]) then Skip(cfg, s[1..])
    else if s[0] == SLASH && !cfg.strict then Slash(cfg, s[1..])
    else Next(s)
  }

  function Slash(cfg: Config, s: seq<byte>): (k: Skipped)
    ensures Left(k) <= |s|
    decreases |s|
  {
    if s == [] then End(true)
    else if s[0] == STAR then Block(cfg, s[1..])
    else if s[0] == SLASH then Line(cfg, s[1..])
    else Bad
  }

  function Block(cfg: Config, s: seq<byte>): (k: Skipped)
    ensures Left(k) <= |s|
    decreases |s|
  {
    if s == [] then End(true) else if s[0] == STAR then Star(cfg, s[1..]) else Block(cfg, s[1..])
  }

  /** Behind a star in a comment. */
  function Star(cfg: Config, s: seq<byte>): (k: Skipped)
    ensures Left(k) <= |s|
    decreases |s|
  {
    if s == [] then End(true) else if s[0] == SLASH then Skip(cfg, s[1..]) else Block(cfg, s[1..])
  }

  function Line(cfg: Config, s: seq<byte>): (k: Skipped)
    ensures Left(k) <= |s|
    decreases |s|
  {
    if s == [] then End(true) else if s[0] == LF then Skip(cfg, s[1..]) else Line(cfg, s[1..])
  }

  // ----- strings

  /** The text of a string and what follows it; used is said of numbers below. */
  datatype Scanned = Closed(out: seq<byte>, rest: seq<byte>, used: bool) | Unclosed | Broken(err: Error)

  function StrScan(s: seq<byte>, out: seq<byte>, quote: byte, used: bool): (r: Scanned)
    ensures r.Closed? ==> |r.rest| < |s|
    decreases |s|
  {
    if s == [] then Unclosed
    else if s[0] == quote then Closed(out, s[1..], used)
    else if s[0] == BACKSLASH then EscScan(s[1..], out, quote, used)
    else StrScan(s[1..], out + [s[0]], quote, used)
  }

  function EscScan(s: seq<byte>, out: seq<byte>, quote: byte, used: bool): (r: Scanned)
    ensures r.Closed? ==> |r.rest| < |s|
    decreases |s|
  {
    if s == [] then Unclosed
    else if Unescaped(s[0]).Some? then StrScan(s[1..], out + [Unescaped(s[0]).value], quote, used)
    else if s[0] == 117 then HexScan(s[1..], 0, 0, out, quote)
    else Broken(StringError)
  }

  /** n digits of the code unit were read, which count u. */
  function HexScan(s: seq<byte>, u: nat, n: nat, out: seq<byte>, quote: byte): (r: Scanned)
    ensures r.Closed? ==> |r.rest| < |s|
    decreases |s|
  {
    if s == [] then Unclosed
    else if !IsHex(s[0]) then Broken(StringError)
    else
      var v := u + HexValue(s[0]) * HexWeight(n);
      if n != 3 then HexScan(s[1..], v, n + 1, out, quote)
      else if High(v) || v >= 0x10000 then Broken(Unmodelled)
      else StrScan(s[1..], out + (if Low(v) then REPLACEMENT else Utf8(v)), quote, true)
  }

  // ----- values

  /** A value, what follows it, and whether a word or a \u escape was read up to there; the text
      ends too early; or an error. */
  datatype Got = Ok(v: Value, k: Skipped, used: bool) | More | Wrong(err: Error)

  /** p is the beginning of the word, in any case unless strict. */
  predicate Begins(cfg: Config, p: seq<byte>, word: seq<byte>) {
    |p| <= |word| && forall i :: 0 <= i < |p| ==> p[i] == word[i] || (!cfg.strict && Lower(p[i]) == Lower(word[i]))
  }

  /** The rest of the word a or b, of which p was read; it ends with the character behind it. */
  function WordRest(
    cfg: Config, s: seq<byte>, p: seq<byte>, a: seq<byte>, va: Value, b: seq<byte>, vb: Value, err: Error
  ): (g: Got)
    requires a != [] && b != []
    ensures g.Ok? ==> Left(g.k) <= |s| && (p == [] ==> Left(g.k) < |s|)
    decreases |s|
  {
    if s == [] then More
    else if Begins(cfg, p, a) && |p| == |a| then Ok(va, Skip(cfg, s), true)
    else if Begins(cfg, p, b) && |p| == |b| then Ok(vb, Skip(cfg, s), true)
    else
      var q := p + [s[0]];
      if Begins(cfg, q, a) || Begins(cfg, q, b) then WordRest(cfg, s[1..], q, a, va, b, vb, err) else Wrong(err)
  }

  function NullRest(cfg: Config, s: seq<byte>, p: seq<byte>): Got {
    WordRest(cfg, s, p, NULL_WORD, Null, NAN_WORD, Double(NAN_WORD), NullError)
  }

  function BoolRest(cfg: Config, s: seq<byte>, p: seq<byte>): Got {
    WordRest(cfg, s, p, TRUE_WORD, Bool(true), FALSE_WORD, Bool(false), BooleanError)
  }

  function InfRest(cfg: Config, s: seq<byte>, p: seq<byte>): Got {
    WordRest(cfg, s, p, INF_WORD, Double(INF_WORD), INF_WORD, Double(INF_WORD), UnexpectedError)
  }

  /** "Infinity" behind a sign. */
  function SignedRest(cfg: Config, s: seq<byte>, p: seq<byte>): Got {
    var v := Double([MINUS] + INF_WORD);
    WordRest(cfg, s, p, INF_WORD, v, INF_WORD, v, UnexpectedError)
  }

  predicate IsExponent(c: byte) {
    c == 101 || c == 69
  }

  predicate HasExponent(p: seq<byte>) {
    exists i :: 0 <= i < |p| && IsExponent(p[i])
  }

  predicate IsReal(p: seq<byte>) {
    exists i :: 0 <= i < |p| && (IsExponent(p[i]) || p[i] == 46)
  }

  /** c cannot stand behind the characters p of a number: a point only once and not in the
      exponent, one exponent, and a minus only in front or behind the exponent letter. */
  predicate Misplaced(p: seq<byte>, c: byte) {
    || (c == 46 && IsReal(p))
    || (IsExponent(c) && HasExponent(p))
    || (c == MINUS && p != [] && !IsExponent(p[|p| - 1]))
  }

  /** The rest of a number; used: a word or a \u escape was read before, behind which a sign
      in front of "Infinity" is refused. */
  function NumRest(cfg: Config, s: seq<byte>, p: seq<byte>, used: bool): (g: Got)
    ensures g.Ok? ==> Left(g.k) <= |s| && (p == [] ==> Left(g.k) < |s|)
    decreases |s|
  {
    if s == [] then More
    else if IsNumberChar(s[0]) then if Misplaced(p, s[0]) then Wrong(NumberError) else NumRest(cfg, s[1..], p + [s[0]], used)
    else if p == [MINUS] && Lower(s[0]) == 105 then if used then Wrong(UnexpectedError) else SignedRest(cfg, s, [])
    else if IsReal(p) then if cfg.isDouble(p) then Ok(Double(p), Skip(cfg, s), used) else Wrong(NumberError)
    else
      match ParseInt64(p)
      case None => Wrong(NumberError)
      case Some(n) =>
        if n != 0 && p != [] && p[0] == 48 && cfg.strict then Wrong(NumberError) else Ok(Int(n), Skip(cfg, s), used)
  }

  /** A string value behind its opening quote. */
  function StrDone(cfg: Config, r: Scanned): Got {
    match r
    case Closed(out, rest, used) => Ok(Str(out), Skip(cfg, rest), used)
    case Unclosed => More
    case Broken(e) => Wrong(e)
  }

  /** The value that starts with the first character; d levels are open around it. */
  function ValueOn(cfg: Config, q: Ahead, d: nat, used: bool): (g: Got)
    ensures g.Ok? ==> Left(g.k) < |q|
    decreases |q|, 0
  {
    var c := q[0];
    if c == LBRACE then MembersOn(cfg, Skip(cfg, q[1..]), [], false, d, used)
    else if c == LBRACKET then ItemsOn(cfg, Skip(cfg, q[1..]), [], false, d, used)
    else if c == QUOTE || (c == APOSTROPHE && !cfg.strict) then StrDone(cfg, StrScan(q[1..], [], c, used))
    else if Lower(c) == 110 then NullRest(cfg, q, [])
    else if Lower(c) == 116 || Lower(c) == 102 then BoolRest(cfg, q, [])
    else if Lower(c) == 105 then InfRest(cfg, q, [])
    else if IsDigit(c) || c == MINUS then NumRest(cfg, q, [], used)
    else Wrong(UnexpectedError)
  }

  /** A value where one must stand. */
  function StartOn(cfg: Config, k: Skipped, d: nat, used: bool): (g: Got)
    ensures g.Ok? ==> Left(g.k) < Left(k)
    decreases Left(k), 1
  {
    match k
    case End(_) => More
    case Bad => Wrong(CommentError)
    case Next(q) => ValueOn(cfg, q, d, used)
  }

  /** A value one level deeper. */
  function InnerOn(cfg: Config, k: Skipped, d: nat, used: bool): (g: Got)
    ensures g.Ok? ==> Left(g.k) < Left(k)
    decreases Left(k), 2
  {
    if k.Next? && d + 1 >= cfg.maxDepth then Wrong(DepthError) else StartOn(cfg, k, d + 1, used)
  }

  /** The end of an array or its next item; sep: behind a comma. */
  function ItemsOn(cfg: Config, k: Skipped, items: seq<Value>, sep: bool, d: nat, used: bool): (g: Got)
    ensures g.Ok? ==> Left(g.k) <= Left(k)
    decreases Left(k), 3
  {
    if k.Next? && k.q[0] == RBRACKET then
      if sep && cfg.strict then Wrong(UnexpectedError) else Ok(Arr(items), Skip(cfg, k.q[1..]), used)
    else
      var g := InnerOn(cfg, k, d, used);
      if g.Ok? then SepOn(cfg, g.k, items + [g.v], d, g.used) else g
  }

  /** Behind an item. */
  function SepOn(cfg: Config, k: Skipped, items: seq<Value>, d: nat, used: bool): (g: Got)
    ensures g.Ok? ==> Left(g.k) <= Left(k)
    decreases Left(k), 3
  {
    match k
    case End(_) => More
    case Bad => Wrong(CommentError)
    case Next(q) =>
      if q[0] == RBRACKET then Ok(Arr(items), Skip(cfg, q[1..]), used)
      else if q[0] == COMMA then ItemsOn(cfg, Skip(cfg, q[1..]), items, true, d, used)
      else Wrong(ArrayError)
  }

  /** The end of an object or its next member. */
  function MembersOn(cfg: Config, k: Skipped, fields: Fields, sep: bool, d: nat, used: bool): (g: Got)
    ensures g.Ok? ==> Left(g.k) <= Left(k)
    decreases Left(k), 3
  {
    match k
    case End(_) => More
    case Bad => Wrong(CommentError)
    case Next(q) =>
      if q[0] == RBRACE then
        if sep && cfg.strict then Wrong(UnexpectedError) else Ok(Obj(fields), Skip(cfg, q[1..]), used)
      else if q[0] == QUOTE || q[0] == APOSTROPHE then KeyDone(cfg, StrScan(q[1..], [], q[0], used), fields, d)
      else Wrong(KeyNameError)
  }

  /** A key behind its opening quote. */
  function KeyDone(cfg: Config, r: Scanned, fields: Fields, d: nat): (g: Got)
    ensures g.Ok? && r.Closed? ==> Left(g.k) <= |r.rest|
    decreases if r.Closed? then |r.rest| else 0, 5
  {
    match r
    case Closed(out, rest, used) => ColonOn(cfg, Skip(cfg, rest), fields, CString(out), d, used)
    case Unclosed => More
    case Broken(e) => Wrong(e)
  }

  /** A key ends in front of its first NUL, which only an escape can bring. */
  lemma {:induction false} KeyIsCut(a: seq<byte>, b: seq<byte>)
    requires 0 !in a
    ensures CString(a + [0] + b) == a
  {
    if a == [] {
      assert ([] + [0] + b)[0] == 0;
    } else {
      KeyIsCut(a[1..], b);
      assert (a + [0] + b)[1..] == a[1..] + [0] + b;
    }
  }

  function ColonOn(cfg: Config, k: Skipped, fields: Fields, key: Key, d: nat, used: bool): (g: Got)
    ensures g.Ok? ==> Left(g.k) <= Left(k)
    decreases Left(k), 4
  {
    match k
    case End(_) => More
    case Bad => Wrong(CommentError)
    case Next(q) =>
      if q[0] == COLON then MemberOn(cfg, Skip(cfg, q[1..]), fields, key, d, used) else Wrong(KeySepError)
  }

  /** The value of a member. A key that was there keeps its place. */
  function MemberOn(cfg: Config, k: Skipped, fields: Fields, key: Key, d: nat, used: bool): (g: Got)
    ensures g.Ok? ==> Left(g.k) <= Left(k)
    decreases Left(k), 3
  {
    var g := InnerOn(cfg, k, d, used);
    if g.Ok? then MemberSepOn(cfg, g.k, Add(fields, key, g.v), d, g.used) else g
  }

  /** Behind a member. */
  function MemberSepOn(cfg: Config, k: Skipped, fields: Fields, d: nat, used: bool): (g: Got)
    ensures g.Ok? ==> Left(g.k) <= Left(k)
    decreases Left(k), 3
  {
    match k
    case End(_) => More
    case Bad => Wrong(CommentError)
    case Next(q) =>
      if q[0] == RBRACE then Ok(Obj(fields), Skip(cfg, q[1..]), used)
      else if q[0] == COMMA then MembersOn(cfg, Skip(cfg, q[1..]), fields, true, d, used)
      else Wrong(ValueSepError)
  }

  /** A whole text: blanks, one value, and what follows it. */
  function Document(cfg: Config, s: seq<byte>): Got {
    StartOn(cfg, Skip(cfg, s), 0, false)
  }
}
