/**
 The command formatters of hiredis. Both compute the length of the command in advance from
 `countDigits`; one fills a buffer of exactly that size, the other appends to an sds string.
 What they write is read back by the reply parser as one array of the arguments.
 */
module RespFormat {
  import opened Bytes
  import opened RespSpec

  const CRLF: seq<byte> := [CR, LF]

  function Bulk(arg: seq<byte>): seq<byte> {
    ['$' as int] + Digits(|arg|) + CRLF + arg + CRLF
  }

  function Bulks(args: seq<seq<byte>>): seq<byte> {
    if args == [] then [] else Bulk(args[0]) + Bulks(args[1..])
  }

  /** The request protocol: a multi bulk of bulk strings. */
  function Command(args: seq<seq<byte>>): seq<byte> {
    ['*' as int] + Digits(|args|) + CRLF + Bulks(args)
  }

  lemma {:induction false} BulksSnoc(args: seq<seq<byte>>, arg: seq<byte>)
    ensures Bulks(args + [arg]) == Bulks(args) + Bulk(arg)
  {
    if args == [] {
      assert [arg][1..] == [];
      assert Bulk(arg) + [] == Bulk(arg);
    } else {
      assert (args + [arg])[1..] == args[1..] + [arg];
      BulksSnoc(args[1..], arg);
    }
  }

  // ----- predicted lengths

  lemma DigitsBy10000(v: nat)
    requires v >= 10000
    ensures |Digits(v)| == 4 + |Digits(v / 10000)|
  {
    assert v / 10 >= 10 && v / 10 / 10 >= 10 && v / 10 / 10 / 10 >= 10;
    assert v / 10 / 10 / 10 / 10 == v / 10000;
    assert |Digits(v)| == 1 + |Digits(v / 10)|;
    assert |Digits(v / 10)| == 1 + |Digits(v / 10 / 10)|;
    assert |Digits(v / 10 / 10)| == 1 + |Digits(v / 10 / 10 / 10)|;
    assert |Digits(v / 10 / 10 / 10)| == 1 + |Digits(v / 10 / 10 / 10 / 10)|;
  }

  lemma DigitsBelow10000(v: nat)
    requires v < 10000
    ensures |Digits(v)| == if v < 10 then 1 else if v < 100 then 2 else if v < 1000 then 3 else 4
  {
    assert v >= 10 ==> |Digits(v)| == 1 + |Digits(v / 10)|;
    assert v >= 100 ==> |Digits(v / 10)| == 1 + |Digits(v / 10 / 10)|;
    assert v >= 1000 ==> |Digits(v / 10 / 10)| == 1 + |Digits(v / 10 / 10 / 10)|;
  }

  /** The number of decimal digits, four at a time. */
  method CountDigits(v0: nat) returns (result: nat)
    ensures result == |Digits(v0)|
  {
    var v := v0;
    result := 1;
    while true
      invariant result >= 1 && result - 1 + |Digits(v)| == |Digits(v0)|
      decreases v
    {
      if v >= 10000 { DigitsBy10000(v); } else { DigitsBelow10000(v); }
      if v < 10 { return result; }
      if v < 100 { return result + 1; }
      if v < 1000 { return result + 2; }
      if v < 10000 { return result + 3; }
      v := v / 10000;
      result := result + 4;
    }
  }

  method BulkLen(len: nat) returns (n: nat)
    ensures forall arg: seq<byte> :: |arg| == len ==> n == |Bulk(arg)|
  {
    var d := CountDigits(len);
    n := 1 + d + 2 + len + 2;
  }

  method PredictedLength(args: seq<seq<byte>>) returns (totlen: nat)
    ensures totlen == |Command(args)|
  {
    var d := CountDigits(|args|);
    totlen := 1 + d + 2;
    assert args[..0] == [];
    for j := 0 to |args|
      invariant totlen == 1 + |Digits(|args|)| + 2 + |Bulks(args[..j])|
    {
      BulksSnoc(args[..j], args[j]);
      assert args[..j + 1] == args[..j] + [args[j]];
      var n := BulkLen(|args[j]|);
      totlen := totlen + n;
    }
    assert args[..|args|] == args;
  }

  // ----- the formatters

  lemma {:induction false} BulksPrefix(args: seq<seq<byte>>, j: nat)
    requires j <= |args|
    ensures |Bulks(args[..j])| <= |Bulks(args)|
    decreases |args| - j
  {
    if j < |args| {
      assert args[..j + 1] == args[..j] + [args[j]];
      BulksSnoc(args[..j], args[j]);
      BulksPrefix(args, j + 1);
    } else {
      assert args[..j] == args;
    }
  }

  method WriteBulk(cmd: array<byte>, pos0: nat, arg: seq<byte>) returns (pos: nat)
    requires pos0 + |Bulk(arg)| < cmd.Length
    modifies cmd
    ensures pos == pos0 + |Bulk(arg)| && cmd[..pos] == old(cmd[..pos0]) + Bulk(arg)
  {
    var size := ['$' as int] + Digits(|arg|) + CRLF;
    Print(cmd, pos0, size);
    pos := pos0 + |size|;
    Copy(cmd, pos, arg);
    pos := pos + |arg|;
    Copy(cmd, pos, CRLF);
    pos := pos + 2;
    ghost var before := old(cmd[..pos0]);
    assert before + size + arg + CRLF == before + Bulk(arg);
  }

  /** The malloc'ed buffer ends up exactly full: the command and its NUL. */
  method FormatCommandArgv(args: seq<seq<byte>>) returns (cmd: array<byte>, totlen: nat)
    ensures fresh(cmd) && cmd[..] == Command(args) + [0] && totlen == |Command(args)|
  {
    hide Digits, Bulk;
    totlen := PredictedLength(args);
    cmd := new byte[totlen + 1];
    var header := ['*' as int] + Digits(|args|) + CRLF;
    Print(cmd, 0, header);
    var pos := |header|;
    assert cmd[..pos] == header + Bulks(args[..0]);
    for j := 0 to |args|
      invariant fresh(cmd) && cmd.Length == totlen + 1
      invariant pos == |header| + |Bulks(args[..j])|
      invariant pos <= totlen && cmd[..pos] == header + Bulks(args[..j])
    {
      assert args[..j + 1] == args[..j] + [args[j]];
      BulksSnoc(args[..j], args[j]);
      BulksPrefix(args, j + 1);
      pos := WriteBulk(cmd, pos, args[j]);
      assert header + Bulks(args[..j]) + Bulk(args[j]) == header + (Bulks(args[..j]) + Bulk(args[j]));
    }
    assert args[..|args|] == args;
    cmd[pos] := 0;
    assert cmd[..] == cmd[..pos] + [0];
  }

  /** The sds formatter appends the same bytes. */
  method FormatSdsCommandArgv(args: seq<seq<byte>>) returns (cmd: seq<byte>, totlen: nat)
    ensures cmd == Command(args) && totlen == |cmd|
  {
    totlen := PredictedLength(args);
    var header := ['*' as int] + Digits(|args|) + CRLF;
    cmd := header;
    assert cmd == header + Bulks(args[..0]);
    for j := 0 to |args|
      invariant cmd == header + Bulks(args[..j])
    {
      assert args[..j + 1] == args[..j] + [args[j]];
      BulksSnoc(args[..j], args[j]);
      ghost var before := cmd;
      cmd := cmd + (['$' as int] + Digits(|args[j]|) + CRLF);
      cmd := cmd + args[j];
      cmd := cmd + CRLF;
      assert cmd == header + (Bulks(args[..j]) + Bulk(args[j]));
    }
    assert args[..|args|] == args;
  }

  // ----- reading a command back

  lemma {:induction false} AccumulateDigits(s: seq<byte>, v: nat)
    requires forall i :: 0 <= i < |s| ==> IsDigit(s[i])
    ensures Accumulate(s, v) == Some(NatOf(s, v))
  {
    if s != [] {
      assert IsDigit(s[0]);
      AccumulateDigits(s[1..], 10 * v + (s[0] - 48));
    }
  }

  lemma LongLongOfDigits(n: nat)
    ensures LongLong(Digits(n)) == n
  {
    assert IsDigit(Digits(n)[0]);
    AccumulateDigits(Digits(n), 0);
    NatOfDigits(n);
  }

  /** A header line is found and read back whatever follows it. */
  lemma HeaderLine(n: nat, rest: seq<byte>)
    ensures var s := Digits(n) + CRLF + rest;
            Newline(s) == |Digits(n)| && LongLong(s[..|Digits(n)|]) == n && s[|Digits(n)| + 2..] == rest
  {
    var d := Digits(n);
    var s := d + CRLF + rest;
    assert CrlfAt(s, |d|);
    assert forall i :: 0 <= i < |d| ==> s[i] == d[i] && IsDigit(d[i]);
    assert s[..|d|] == d;
    LongLongOfDigits(n);
  }

  lemma BulkParses(arg: seq<byte>, rest: seq<byte>, level: nat)
    ensures ParseItem(Bulk(arg) + rest, level) == Done(Str(arg), rest)
  {
    var d := Digits(|arg|);
    var s := Bulk(arg) + rest;
    assert s[1..] == d + CRLF + (arg + CRLF + rest);
    HeaderLine(|arg|, arg + CRLF + rest);
    assert s[1..][|d| + 2..|d| + 2 + |arg|] == arg;
    assert s[1..][|d| + 2 + |arg| + 2..] == rest;
  }

  function Strs(args: seq<seq<byte>>): seq<Reply> {
    seq(|args|, i requires 0 <= i < |args| => Str(args[i]))
  }

  lemma {:induction false} BulksParse(args: seq<seq<byte>>, rest: seq<byte>, level: nat)
    ensures ParseElems(|args|, Bulks(args) + rest, level) == Done(Strs(args), rest)
  {
    if args == [] {
      assert Bulks(args) + rest == rest;
    } else {
      assert Bulks(args) + rest == Bulk(args[0]) + (Bulks(args[1..]) + rest);
      BulkParses(args[0], Bulks(args[1..]) + rest, level);
      BulksParse(args[1..], rest, level);
      assert Strs(args) == [Str(args[0])] + Strs(args[1..]);
    }
  }

  /** A formatted command is read as one array of exactly its arguments. */
  lemma CommandParses(args: seq<seq<byte>>, rest: seq<byte>)
    ensures ParseItem(Command(args) + rest, 0) == Done(Array(|args|, Strs(args)), rest)
  {
    var s := Command(args) + rest;
    assert s[1..] == Digits(|args|) + CRLF + (Bulks(args) + rest);
    HeaderLine(|args|, Bulks(args) + rest);
    BulksParse(args, rest, 1);
    assert ParseItem(s, 0) == ParseTyped(TArray, s[1..], 0);
    assert ParseTyped(TArray, s[1..], 0) == ParseMulti(s[1..], |Digits(|args|)|, 0);
    if args == [] {
      assert Bulks(args) + rest == rest;
      assert Strs(args) == [];
    }
  }

  /** Commands appended to the output buffer one after the other. */
  function Pipeline(cmds: seq<seq<seq<byte>>>): seq<byte> {
    if cmds == [] then [] else Command(cmds[0]) + Pipeline(cmds[1..])
  }

  lemma {:induction false} PipelineSnoc(cmds: seq<seq<seq<byte>>>, args: seq<seq<byte>>)
    ensures Pipeline(cmds + [args]) == Pipeline(cmds) + Command(args)
  {
    if cmds == [] {
      assert cmds + [args] == [args] && Command(args) + Pipeline([]) == Command(args);
    } else {
      assert (cmds + [args])[1..] == cmds[1..] + [args];
      PipelineSnoc(cmds[1..], args);
      Append(Command(cmds[0]), Pipeline(cmds[1..]), Command(args));
    }
  }

  /** The arrays of arguments. */
  function Arrays(cmds: seq<seq<seq<byte>>>): seq<Reply> {
    seq(|cmds|, i requires 0 <= i < |cmds| => Array(|cmds[i]|, Strs(cmds[i])))
  }

  /** Any number of pipelined commands comes back as that many arrays, before whatever follows. */
  lemma {:induction false} PipelineReplies(cmds: seq<seq<seq<byte>>>, rest: seq<byte>)
    ensures Replies(Pipeline(cmds) + rest) == Replies(rest).Prepend(Arrays(cmds))
  {
    hide Command, ParseItem;
    if cmds == [] {
      assert [] + rest == rest && Arrays(cmds) + Replies(rest).replies == Replies(rest).replies;
    } else {
      var more := Pipeline(cmds[1..]) + rest;
      Append(Command(cmds[0]), Pipeline(cmds[1..]), rest);
      CommandParses(cmds[0], more);
      PipelineReplies(cmds[1..], rest);
      assert Arrays(cmds) == [Array(|cmds[0]|, Strs(cmds[0]))] + Arrays(cmds[1..]);
      Append([Array(|cmds[0]|, Strs(cmds[0]))], Arrays(cmds[1..]), Replies(rest).replies);
    }
  }
}
