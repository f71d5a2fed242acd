/** Both ends of hiredis together: commands are formatted, cut into chunks and read. */
module RespSession {
  import opened Bytes
  import opened RespSpec
  import opened RespFormat
  import opened RespWire
  import opened RespReader

  /** redisAppendCommandArgv, once for every command. */
  method AppendCommands(cmds: seq<seq<seq<byte>>>) returns (obuf: seq<byte>)
    ensures obuf == Pipeline(cmds)
  {
    obuf := [];
    for i := 0 to |cmds|
      invariant obuf == Pipeline(cmds[..i])
    {
      assert cmds[..i + 1] == cmds[..i] + [cmds[i]];
      PipelineSnoc(cmds[..i], cmds[i]);
      hide Pipeline, Command;
      var cmd, _ := FormatSdsCommandArgv(cmds[i]);
      obuf := obuf + cmd;
    }
    assert cmds[..|cmds|] == cmds;
  }

  /** Feed a text in pieces of the given lengths and take the replies; the last piece takes
      what is left. */
  method FeedInPieces(text: seq<byte>, cuts: seq<nat>) returns (r: Reader, taken: seq<Reply>)
    ensures fresh(r) && r.Ready() && Tracks(r, text, taken) && Replies(text) == Stream(taken, r.err)
  {
    hide CoreOk, Replies, Tracks;
    r := Open();
    taken := [];
    var p := 0;
    assert text[..0] == [];
    for i := 0 to |cuts|
      invariant r.Ready() && fresh(r) && fresh(r.rstack)
      invariant 0 <= p <= |text| && Tracks(r, text[..p], taken)
    {
      var n := if cuts[i] <= |text| - p then cuts[i] else |text| - p;
      taken := Step(r, text[p..p + n], taken, text[..p]);
      assert text[..p] + text[p..p + n] == text[..p + n];
      p := p + n;
    }
    taken := Step(r, text[p..], taken, text[..p]);
    assert text[..p] + text[p..] == text;
  }

  /** Pipelined commands, in any chunks: exactly one array per command is delivered, and the
      reader is as good as new. Nothing of them is left to be read. */
  method SendAndServe(cmds: seq<seq<seq<byte>>>, cuts: seq<nat>) returns (r: Reader, taken: seq<Reply>)
    ensures taken == Arrays(cmds)
    ensures fresh(r) && r.Ready() && !r.err && forall e :: r.Future(e) == Replies(e)
  {
    var obuf := AppendCommands(cmds);
    r, taken := FeedInPieces(obuf, cuts);
    forall e ensures Replies(Pipeline(cmds) + e) == Replies(e).Prepend(Arrays(cmds)) {
      PipelineReplies(cmds, e);
    }
    NothingLeft(r, obuf, Arrays(cmds), taken);
  }

  /** When a text means exactly these replies before whatever follows, nothing of it is left. */
  lemma NothingLeft(r: Reader, text: seq<byte>, rs: seq<Reply>, taken: seq<Reply>)
    requires r.Ready() && Tracks(r, text, taken) && Replies(text) == Stream(taken, r.err)
    requires forall e :: Replies(text + e) == Replies(e).Prepend(rs)
    ensures taken == rs && !r.err && forall e :: r.Future(e) == Replies(e)
  {
    assert text + [] == text && Replies([]) == Stream([], false);
    hide CoreOk, FutureOf, Replies;
    assert Replies(text + []) == Replies([]).Prepend(rs) && rs + [] == rs;
    forall e ensures r.Future(e) == Replies(e) {
      var a, b := r.Future(e), Replies(e);
      assert Replies(text + e) == a.Prepend(taken) == b.Prepend(taken);
      assert a.replies == (taken + a.replies)[|taken|..] == (taken + b.replies)[|taken|..] == b.replies;
    }
  }

  /** Any replies a server can send, cut anywhere: they are delivered in order, each as what it
      means, and the reader is as good as new. */
  method ServeReplies(ws: seq<Sent>, cuts: seq<nat>) returns (r: Reader, taken: seq<Reply>)
    requires forall w <- ws :: Sendable(w, 0)
    ensures taken == Meanings(ws)
    ensures fresh(r) && r.Ready() && !r.err && forall e :: r.Future(e) == Replies(e)
  {
    var stream := [];
    assert ws[0..] == ws;
    for i := 0 to |ws|
      invariant stream + WireAll(ws[i..]) == WireAll(ws)
    {
      assert ws[i..][1..] == ws[i + 1..];
      Append(stream, Wire(ws[i]), WireAll(ws[i + 1..]));
      stream := stream + Wire(ws[i]);
    }
    assert stream + [] == stream;
    r, taken := FeedInPieces(stream, cuts);
    forall e ensures Replies(WireAll(ws) + e) == Replies(e).Prepend(Meanings(ws)) {
      WiresReply(ws, e);
    }
    NothingLeft(r, stream, Meanings(ws), taken);
  }
}
