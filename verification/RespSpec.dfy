/**
 The Redis reply protocol as a recursive-descent parser over a complete byte string.
 This is the reference that the incremental reader is measured against.
 */
module RespSpec {
  import opened Bytes

  /** A reply object. `count` is the announced element count of a multi bulk reply. */
  datatype Reply =
    | Str(bytes: seq<byte>)
    | Status(bytes: seq<byte>)
    | Err(bytes: seq<byte>)
    | Integer(value: int)
    | Nil
    | Array(count: int, elems: seq<Reply>)

  /** `Unset` is the C value -1: the type byte of the item was not read yet. */
  datatype ItemType = Unset | TString | TArray | TInteger | TStatus | TError

  /** Need: more input is required. Bad: protocol error. */
  datatype Parsed<+T> = Need | Bad | Done(value: T, rest: seq<byte>)

  /** Arrays may nest until the ninth slot of the task stack is in use. */
  const MAX_LEVEL: nat := 8

  function TypeOf(b: byte): ItemType {
    if b == '-' as int then TError
    else if b == '+' as int then TStatus
    else if b == ':' as int then TInteger
    else if b == '$' as int then TString
    else if b == '*' as int then TArray
    else Unset
  }

  predicate CrlfAt(s: seq<byte>, i: int) {
    0 <= i < |s| - 1 && s[i] == CR && s[i + 1] == LF
  }

  /** The position of the first CR LF, or -1. */
  function Newline(s: seq<byte>): (i: int)
    ensures -1 <= i < |s|
    ensures i >= 0 ==> CrlfAt(s, i)
    ensures forall j :: CrlfAt(s, j) ==> 0 <= i <= j
  {
    if |s| < 2 then -1
    else if CrlfAt(s, 0) then 0
    else
      var i := Newline(s[1..]);
      assert forall j :: CrlfAt(s, j) ==> CrlfAt(s[1..], j - 1);
      if i < 0 then -1 else i + 1
  }

  /** Digits up to a CR or the end of the line; None when another byte intervenes. */
  function Accumulate(line: seq<byte>, v: nat): Option<nat> {
    if line == [] || line[0] == CR then Some(v)
    else if IsDigit(line[0]) then Accumulate(line[1..], 10 * v + (line[0] - 48))
    else None
  }

  /** Malformed numbers read as -1. */
  function LongLong(line: seq<byte>): int {
    if line != [] && line[0] == '-' as int then Signed(-1, line[1..])
    else if line != [] && line[0] == '+' as int then Signed(1, line[1..])
    else Signed(1, line)
  }

  function Signed(mult: int, line: seq<byte>): int {
    match Accumulate(line, 0)
    case None => -1
    case Some(v) => mult * v
  }

  function LineReply(t: ItemType, line: seq<byte>): Reply {
    if t == TInteger then Integer(LongLong(line))
    else if t == TStatus then Status(line)
    else Err(line)
  }

  function ParseItem(s: seq<byte>, level: nat): (p: Parsed<Reply>)
    ensures p.Done? ==> |p.rest| < |s|
    decreases |s|, 1
  {
    if s == [] then Need
    else if TypeOf(s[0]) == Unset then Bad
    else ParseTyped(TypeOf(s[0]), s[1..], level)
  }

  function ParseTyped(t: ItemType, s: seq<byte>, level: nat): (p: Parsed<Reply>)
    requires t != Unset
    ensures p.Done? ==> |p.rest| < |s|
    decreases |s|, 2
  {
    if t == TArray && level == MAX_LEVEL then Bad
    else
      var i := Newline(s);
      if i < 0 then Need
      else if t == TString then ParseBulk(s, i)
      else if t == TArray then ParseMulti(s, i, level)
      else Done(LineReply(t, s[..i]), s[i + 2..])
  }

  function ParseBulk(s: seq<byte>, i: nat): (p: Parsed<Reply>)
    requires CrlfAt(s, i)
    ensures p.Done? ==> |p.rest| < |s|
  {
    var n := LongLong(s[..i]);
    if n < 0 then Done(Nil, s[i + 2..])
    else if i + 2 + n + 2 <= |s| then Done(Str(s[i + 2..i + 2 + n]), s[i + 2 + n + 2..])
    else Need
  }

  function ParseMulti(s: seq<byte>, i: nat, level: nat): (p: Parsed<Reply>)
    requires CrlfAt(s, i)
    ensures p.Done? ==> |p.rest| < |s|
    decreases |s|, 0
  {
    var n := LongLong(s[..i]);
    if n == -1 then Done(Nil, s[i + 2..])
    else if n <= 0 then Done(Array(n, []), s[i + 2..])
    else
      match ParseElems(n, s[i + 2..], level + 1)
      case Need => Need
      case Bad => Bad
      case Done(rs, rest) => Done(Array(n, rs), rest)
  }

  function ParseElems(k: nat, s: seq<byte>, level: nat): (p: Parsed<seq<Reply>>)
    ensures p.Done? ==> |p.rest| <= |s| && |p.value| == k
    decreases |s|, 2, k
  {
    if k == 0 then Done([], s)
    else
      match ParseItem(s, level)
      case Need => Need
      case Bad => Bad
      case Done(r, rest) =>
        match ParseElems(k - 1, rest, level)
        case Need => Need
        case Bad => Bad
        case Done(rs, rest') => Done([r] + rs, rest')
  }

  /** All complete replies of a stream, and whether it then breaks the protocol. */
  datatype Stream = Stream(replies: seq<Reply>, failed: bool) {
    function Prepend(rs: seq<Reply>): Stream {
      Stream(rs + replies, failed)
    }
  }

  function Replies(s: seq<byte>): Stream
    decreases |s|
  {
    match ParseItem(s, 0)
    case Need => Stream([], false)
    case Bad => Stream([], true)
    case Done(r, rest) => Replies(rest).Prepend([r])
  }

  /** The stream seen from the end of an item in progress. */
  function Continue(p: Parsed<Reply>): Stream {
    match p
    case Need => Stream([], false)
    case Bad => Stream([], true)
    case Done(r, rest) => Replies(rest).Prepend([r])
  }

  // ----- what more input can change

  lemma NewlineStable(s: seq<byte>, e: seq<byte>)
    ensures Newline(s) >= 0 ==> Newline(s + e) == Newline(s)
  {
    if Newline(s) >= 0 {
      assert CrlfAt(s + e, Newline(s));
      assert CrlfAt(s, Newline(s + e));
    }
  }
}
