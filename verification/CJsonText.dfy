/** The trees of cJSON and the text of a tree, formatted or not. */
module CJsonText {
  import opened Bytes

  datatype Node =
    | Null
    | False
    | True
    | Number(valueint: int)
    | String(valuestring: seq<byte>)
    | Array(items: seq<Node>)
    | Object(fields: seq<Field>)

  /** A named child of an object; names may repeat. */
  datatype Field = Field(name: seq<byte>, value: Node)

  const INT_MIN: int := -0x8000_0000
  const INT_MAX: int := 0x7fff_ffff

  const QUOTE: byte := 34
  const BACKSLASH: byte := 92
  const TAB: byte := 9
  const NEWLINE: byte := 10
  const COMMA: byte := 44
  const COLON: byte := 58
  const OPEN: byte := 91
  const CLOSE: byte := 93
  const LBRACE: byte := 123
  const RBRACE: byte := 125

  /** "null", "false" and "true". */
  const NULL_WORD: seq<byte> := [110, 117, 108, 108]
  const FALSE_WORD: seq<byte> := [102, 97, 108, 115, 101]
  const TRUE_WORD: seq<byte> := [116, 114, 117, 101]

  /** A tree a program can build: C strings, and numbers that are ints. */
  ghost predicate Plain(v: Node)
    decreases v
  {
    match v
    case Number(n) => INT_MIN <= n <= INT_MAX
    case String(s) => 0 !in s
    case Array(items) => forall x <- items :: Plain(x)
    case Object(fields) => forall f <- fields :: PlainField(f)
    case _ => true
  }

  ghost predicate PlainField(f: Field)
    decreases f
  {
    0 !in f.name && Plain(f.value)
  }

  function EscapeByte(c: byte): (e: seq<byte>)
    ensures |e| > 0
  {
    if c > 31 && c != QUOTE && c != BACKSLASH then [c]
    else if c == BACKSLASH || c == QUOTE then [BACKSLASH, c]
    else if c == 8 then [BACKSLASH, 98]
    else if c == 12 then [BACKSLASH, 102]
    else if c == 10 then [BACKSLASH, 110]
    else if c == 13 then [BACKSLASH, 114]
    else if c == 9 then [BACKSLASH, 116]
    else [BACKSLASH, 117, 48, 48, HexDigit(c / 16), HexDigit(c % 16)]
  }

  function Escape(s: seq<byte>): seq<byte> {
    if s == [] then [] else EscapeByte(s[0]) + Escape(s[1..])
  }

  function Quoted(s: seq<byte>): seq<byte> {
    [QUOTE] + Escape(s) + [QUOTE]
  }

  function NumberText(n: int): (s: seq<byte>)
    ensures |s| > 0
  {
    if n < 0 then [45] + Digits(-n) else Digits(n)
  }

  function Tabs(n: int): (s: seq<byte>)
    ensures |s| == if n < 0 then 0 else n
    ensures forall i :: 0 <= i < |s| ==> s[i] == TAB
  {
    seq(if n < 0 then 0 else n, _ => TAB)
  }

  /** Layout that only the formatted text has. */
  function If(fmt: bool, s: seq<byte>): seq<byte> {
    if fmt then s else []
  }

  function Text(v: Node, depth: nat, fmt: bool): seq<byte>
    decreases v
  {
    match v
    case Null => NULL_WORD
    case False => FALSE_WORD
    case True => TRUE_WORD
    case Number(n) => NumberText(n)
    case String(s) => Quoted(s)
    case Array(items) => [OPEN] + ItemsText(items, depth + 1, fmt) + [CLOSE]
    case Object(fields) =>
      if fields == [] then [LBRACE] + If(fmt, [NEWLINE] + Tabs(depth - 1)) + [RBRACE]
      else [LBRACE] + If(fmt, [NEWLINE]) + FieldsText(fields, depth + 1, fmt) + If(fmt, Tabs(depth)) + [RBRACE]
  }

  lemma ArrayText(items: seq<Node>, depth: nat, fmt: bool)
    ensures Text(Array(items), depth, fmt) == [OPEN] + ItemsText(items, depth + 1, fmt) + [CLOSE]
  {
  }

  lemma ObjectText(fields: seq<Field>, depth: nat, fmt: bool)
    ensures fields != [] ==>
              Text(Object(fields), depth, fmt)
              == [LBRACE] + If(fmt, [NEWLINE]) + FieldsText(fields, depth + 1, fmt) + If(fmt, Tabs(depth)) + [RBRACE]
  {
  }

  function ItemsText(items: seq<Node>, depth: nat, fmt: bool): seq<byte>
    decreases items
  {
    if items == [] then []
    else if |items| == 1 then Text(items[0], depth, fmt)
    else Text(items[0], depth, fmt) + [COMMA] + If(fmt, [32]) + ItemsText(items[1..], depth, fmt)
  }

  function FieldsText(fields: seq<Field>, depth: nat, fmt: bool): seq<byte>
    decreases fields
  {
    if fields == [] then []
    else FieldText(fields[0], depth, fmt, |fields| == 1) + FieldsText(fields[1..], depth, fmt)
  }

  function FieldText(f: Field, depth: nat, fmt: bool, last: bool): seq<byte>
    decreases f
  {
    If(fmt, Tabs(depth)) + Quoted(f.name) + [COLON] + If(fmt, [TAB]) + Text(f.value, depth, fmt)
    + (if last then [] else [COMMA]) + If(fmt, [NEWLINE])
  }
}
