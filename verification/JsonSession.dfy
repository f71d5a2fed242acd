/** A document written by the serializer and read back by the tokener, chunk by chunk. */
module JsonSession {
  import opened Bytes
  import opened JsonValue
  import opened JsonTokener
  import opened JsonSerializer
  import opened JsonStreaming
  import opened JsonDocument
  import opened JsonParser

  /** Feed the chunks one after the other; `ret` is the result of the last call. */
  method FeedAll(tok: Tokener, chunks: seq<seq<byte>>, ghost v: Value) returns (ret: Option<Value>)
    requires Inv(tok.cfg, tok.t) && chunks != [] && chunks[|chunks| - 1] != [] && Reads(tok.cfg, tok.t, Flatten(chunks), v)
    modifies tok
    ensures ret == Some(v) && tok.err == Success && Inv(tok.cfg, tok.t) && tok.t.below == [] && tok.t.top == FRESH
  {
    hide Reads, JsonTokener.ParseEx, Inv;
    assert chunks[0..] == chunks;
    for i := 0 to |chunks| - 1
      invariant Inv(tok.cfg, tok.t) && Reads(tok.cfg, tok.t, Flatten(chunks[i..]), v)
    {
      var rest := chunks[i + 1..];
      assert chunks[i..][1..] == rest;
      FlattenNonEmpty(rest);
      CallInside(tok.cfg, tok.t, chunks[i], Flatten(rest), v);
      ParseExKeepsInv(tok.cfg, tok.t, chunks[i]);
      var more := tok.ParseEx(chunks[i]);
      assert tok.err == Continue && more == None;
    }
    var last := chunks[|chunks| - 1];
    assert chunks[|chunks| - 1..] == [last] && last + Flatten([]) == last;
    CallLast(tok.cfg, tok.t, last, v);
    ParseExKeepsInv(tok.cfg, tok.t, last);
    ret := tok.ParseEx(last);
  }

  /** Write a document, cut the text after each of the given lengths, and read it back. */
  method WriteAndRead(tok: Tokener, v: Value, fl: Flags, cuts: seq<nat>) returns (ret: Option<Value>)
    requires Inv(tok.cfg, tok.t) && tok.t.below == [] && tok.t.top == FRESH && tok.cfg.maxDepth > 0
    requires (v.Arr? || v.Obj?) && Storable(v) && Nested(v, tok.cfg.maxDepth - 1)
    modifies tok
    ensures ret == Some(v) && tok.err == Success && Inv(tok.cfg, tok.t) && tok.t.below == [] && tok.t.top == FRESH
  {
    var text := Write([], v, 0, fl);
    assert [] + Text(fl, v, 0) == Text(fl, v, 0);
    TextReads(tok.cfg, tok.t, fl, v);
    hide Text, Reads, Inv;
    var chunks := Cut(text, cuts);
    ret := FeedAll(tok, chunks, v);
  }

  /** Cut off pieces of the given lengths; the last piece takes what is left, and never nothing. */
  method Cut(text: seq<byte>, cuts: seq<nat>) returns (chunks: seq<seq<byte>>)
    requires text != []
    ensures chunks != [] && chunks[|chunks| - 1] != [] && Flatten(chunks) == text
  {
    chunks := [];
    var p := 0;
    assert text[..0] == [];
    for i := 0 to |cuts|
      invariant 0 <= p < |text| && Flatten(chunks) == text[..p]
    {
      if cuts[i] < |text| - p {
        FlattenSnoc(chunks, text[p..p + cuts[i]]);
        assert text[..p] + text[p..p + cuts[i]] == text[..p + cuts[i]];
        chunks := chunks + [text[p..p + cuts[i]]];
        p := p + cuts[i];
      }
    }
    FlattenSnoc(chunks, text[p..]);
    assert text[..p] + text[p..] == text;
    chunks := chunks + [text[p..]];
  }
}
