/**
 The asynchronous hiredis context as a value: what every event makes of it, for callbacks
 that are arbitrary programs over the API, and how many callbacks a run registers.
 */
module AsyncMachine {
  import opened Bytes
  import opened AsyncSpec

  /** What a program may call, inside or outside of a callback. */
  datatype Action = Command(hasFn: bool, len: nat) | Disconnect | Free

  datatype Connect = Established | InProgress | Refused

  /** What the event loop reports: the socket is readable or writable. */
  datatype Event =
    | Call(action: Action)
    | Readable(connect: Connect, replies: seq<Reply>, failed: bool)
    | ReadFails(connect: Connect)
    | Writable(connect: Connect, written: nat)
    | WriteFails(connect: Connect)

  /** What the k-th call of a callback function does, given its reply. */
  type Behaviour = (nat, Option<Reply>) -> seq<Action>

  datatype Ctx = Ctx(
    replies: seq<Callback>,
    obuf: nat,
    connected: bool,
    disconnecting: bool,
    freeing: bool,
    err: bool,
    freed: bool,
    aborted: bool,
    issued: nat,
    log: seq<Done>,
    closed: Option<bool>)
  {
    /** New commands are refused. */
    predicate Closing() {
      disconnecting || freeing
    }

    predicate Gone() {
      freed || aborted
    }
  }

  const NEW: Ctx := Ctx([], 0, false, false, false, false, false, false, 0, [], None)

  // ----- what callbacks do

  /** Callbacks only ask for closing. */
  predicate Steady(s: Ctx, r: Ctx) {
    && r.connected == s.connected && r.err == s.err && r.closed == s.closed
    && r.freed == s.freed && r.aborted == s.aborted
    && (s.disconnecting ==> r.disconnecting) && (s.freeing ==> r.freeing)
  }

  function AfterCommand(s: Ctx, hasFn: bool, len: nat): Ctx {
    if s.Closing() then s
    else s.(replies := s.replies + [Callback(s.issued, hasFn)], issued := s.issued + 1, obuf := s.obuf + len)
  }

  /** Inside of a callback: closing is only asked for. */
  function AfterAction(s: Ctx, action: Action): (r: Ctx)
    ensures Steady(s, r) && r.log == s.log && s.replies <= r.replies
    ensures s.Closing() ==> r.Closing() && r.replies == s.replies
  {
    match action
    case Command(hasFn, len) => AfterCommand(s, hasFn, len)
    case Disconnect => s.(disconnecting := true)
    case Free => s.(freeing := true)
  }

  function AfterActions(s: Ctx, actions: seq<Action>): (r: Ctx)
    ensures Steady(s, r) && r.log == s.log && s.replies <= r.replies
    ensures s.Closing() ==> r.Closing() && r.replies == s.replies
  {
    if actions == [] then s else AfterAction(AfterActions(s, actions[..|actions| - 1]), actions[|actions| - 1])
  }

  /** A callback that was taken out of the queue is run, unless its function is NULL. */
  function AfterCall(b: Behaviour, s: Ctx, cb: Callback, reply: Option<Reply>): (r: Ctx)
    ensures Steady(s, r) && s.replies <= r.replies && s.log <= r.log && (!cb.hasFn ==> r == s)
    ensures s.Closing() ==> r.Closing() && r.replies == s.replies
  {
    if cb.hasFn then AfterActions(s.(log := s.log + [Done(cb, reply)]), b(|s.log|, reply)) else s
  }

  // ----- teardown

  /** Every waiting callback is run with NULL. */
  function Swept(b: Behaviour, s: Ctx): (r: Ctx)
    requires s.Closing()
    ensures r.Closing() && r.replies == [] && Steady(s, r) && s.log <= r.log
    decreases |s.replies|
  {
    if s.replies == [] then s
    else Swept(b, AfterCall(b, s.(replies := s.replies[1..]), s.replies[0], None))
  }

  function AfterFree(b: Behaviour, s: Ctx): (r: Ctx)
    requires s.Closing()
    ensures r.Closing() && r.freed && s.log <= r.log
  {
    var t := Swept(b, s);
    t.(freed := true, closed := if t.connected then Some(t.freeing || !t.err) else t.closed)
  }

  /** __redisAsyncDisconnect. */
  function AfterDisconnect(b: Behaviour, s: Ctx): (r: Ctx)
    requires s.err || s.disconnecting
    ensures r.Closing() && r.freed && s.log <= r.log
  {
    AfterFree(b, s.(disconnecting := true))
  }

  // ----- events

  function AfterReply(b: Behaviour, s: Ctx, reply: Reply): (r: Ctx)
    ensures s.log <= r.log
  {
    if s.replies == [] then
      if reply.isError then AfterDisconnect(b, s.(err := true)) else s.(aborted := true)
    else
      var t := AfterCall(b, s.(replies := s.replies[1..]), s.replies[0], Some(reply));
      if s.replies[0].hasFn && t.freeing then AfterFree(b, t) else t
  }

  function AfterReplies(b: Behaviour, s: Ctx, input: seq<Reply>): (r: Ctx)
    ensures s.log <= r.log
    decreases |input|
  {
    if input == [] || s.Gone() then s else AfterReplies(b, AfterReply(b, s, input[0]), input[1..])
  }

  /** redisProcessCallbacks. */
  function AfterInput(b: Behaviour, s: Ctx, input: seq<Reply>, failed: bool): (r: Ctx)
    ensures s.log <= r.log
  {
    var t := AfterReplies(b, s, input);
    if t.Gone() then t
    else if failed then AfterDisconnect(b, t.(err := true))
    else if t.disconnecting && t.obuf == 0 && t.replies == [] then AfterDisconnect(b, t)
    else t
  }

  function AfterConnect(b: Behaviour, s: Ctx, connect: Connect): (r: Ctx)
    ensures s.log <= r.log
  {
    if s.connected then s
    else
      match connect
      case Refused => AfterDisconnect(b, s.(err := true))
      case InProgress => s.(err := true)
      case Established => s.(connected := true)
  }

  function AfterRead(b: Behaviour, s: Ctx, connect: Connect, fails: bool, input: seq<Reply>, failed: bool): Ctx {
    var t := AfterConnect(b, s, connect);
    if t.freed || !t.connected then t
    else if t.err || fails then AfterDisconnect(b, t.(err := true))
    else AfterInput(b, t, input, failed)
  }

  function AfterWrite(b: Behaviour, s: Ctx, connect: Connect, fails: bool, written: nat): Ctx {
    var t := AfterConnect(b, s, connect);
    if t.freed || !t.connected then t
    else if t.err || fails then AfterDisconnect(b, t.(err := true))
    else t.(obuf := if written < t.obuf then t.obuf - written else 0)
  }

  function AfterEvent(b: Behaviour, s: Ctx, e: Event): (r: Ctx)
    ensures s.log <= r.log
  {
    match e
    case Call(Command(hasFn, len)) => AfterCommand(s, hasFn, len)
    case Call(Disconnect) =>
      var t := s.(disconnecting := true);
      if s.replies == [] then AfterDisconnect(b, t) else t
    case Call(Free) => AfterFree(b, s.(freeing := true))
    case Readable(connect, input, failed) => AfterRead(b, s, connect, false, input, failed)
    case ReadFails(connect) => AfterRead(b, s, connect, true, [], false)
    case Writable(connect, written) => AfterWrite(b, s, connect, false, written)
    case WriteFails(connect) => AfterWrite(b, s, connect, true, 0)
  }

  /** A run ends with the event that frees the context, or with a violated assertion. */
  function AfterEvents(b: Behaviour, s: Ctx, events: seq<Event>): (r: Ctx)
    ensures s.log <= r.log
    decreases |events|
  {
    if events == [] || s.Gone() then s else AfterEvents(b, AfterEvent(b, s, events[0]), events[1..])
  }

  lemma NothingToSweep(b: Behaviour, s: Ctx)
    requires s.Closing()
    ensures s.replies == [] ==> Swept(b, s) == s
  {
  }

  lemma AfterFirst(b: Behaviour, s: Ctx, events: seq<Event>)
    requires events != [] && !s.Gone()
    ensures AfterEvents(b, s, events) == AfterEvents(b, AfterEvent(b, s, events[0]), events[1..])
  {
  }

  lemma NothingMore(b: Behaviour, s: Ctx, events: seq<Event>)
    requires events == [] || s.Gone()
    ensures AfterEvents(b, s, events) == s && Arrived([], s.connected) == []
  {
  }

  // ----- the replies that arrive

  predicate Connects(e: Event, connected: bool) {
    connected || (!e.Call? && e.connect == Established)
  }

  /** The replies that the events bring in, once connected. */
  function Arrived(events: seq<Event>, connected: bool): seq<Reply> {
    if events == [] then []
    else
      var e := events[0];
      var now := Connects(e, connected);
      (if e.Readable? && now then e.replies else []) + Arrived(events[1..], now)
  }

  lemma ArrivedFirst(events: seq<Event>, connected: bool)
    requires events != []
    ensures Arrived(events, connected) == Arrived([events[0]], connected) + Arrived(events[1..], Connects(events[0], connected))
  {
    assert Arrived([events[0]][1..], Connects(events[0], connected)) == [];
  }

  // ----- how many callbacks are registered

  function CommandsIn(actions: seq<Action>): nat {
    if actions == [] then 0
    else CommandsIn(actions[..|actions| - 1]) + if actions[|actions| - 1].Command? then 1 else 0
  }

  /** The commands of the program, outside of callbacks. */
  function CommandEvents(events: seq<Event>): nat {
    if events == [] then 0
    else (if events[0].Call? && events[0].action.Command? then 1 else 0) + CommandEvents(events[1..])
  }

  /** The commands of the callbacks that were run. */
  function CommandsOf(b: Behaviour, log: seq<Done>): nat {
    if log == [] then 0
    else
      var n := |log| - 1;
      CommandsOf(b, log[..n]) + CommandsIn(b(n, log[n].reply))
  }

  /** n commands were given outside of callbacks between s and r, unless r refuses commands. */
  ghost predicate Counts(b: Behaviour, s: Ctx, r: Ctx, n: nat) {
    && (s.Closing() ==> r.Closing())
    && (!r.Closing() ==> r.issued + CommandsOf(b, s.log) == s.issued + n + CommandsOf(b, r.log))
  }

  lemma {:induction false} ActionsCount(s: Ctx, actions: seq<Action>)
    ensures var r := AfterActions(s, actions);
            (!r.Closing() ==> r.issued == s.issued + CommandsIn(actions)) && r.log == s.log
  {
    if actions != [] {
      ActionsCount(s, actions[..|actions| - 1]);
    }
  }

  lemma CallCounts(b: Behaviour, s: Ctx, cb: Callback, reply: Option<Reply>)
    ensures Counts(b, s, AfterCall(b, s, cb, reply), 0)
  {
    if cb.hasFn {
      var log := s.log + [Done(cb, reply)];
      assert log[..|s.log|] == s.log;
      ActionsCount(s.(log := log), b(|s.log|, reply));
      hide CommandsIn;
    }
  }

  lemma ReplyCounts(b: Behaviour, s: Ctx, reply: Reply)
    ensures Counts(b, s, AfterReply(b, s, reply), 0)
  {
    if s.replies != [] {
      CallCounts(b, s.(replies := s.replies[1..]), s.replies[0], Some(reply));
      hide CommandsOf, AfterCall;
    }
  }

  lemma {:induction false} RepliesCount(b: Behaviour, s: Ctx, input: seq<Reply>)
    ensures Counts(b, s, AfterReplies(b, s, input), 0)
    decreases |input|
  {
    if input != [] && !s.Gone() {
      ReplyCounts(b, s, input[0]);
      RepliesCount(b, AfterReply(b, s, input[0]), input[1..]);
      hide CommandsOf, AfterReply;
    }
  }

  lemma ReadCounts(b: Behaviour, s: Ctx, connect: Connect, fails: bool, input: seq<Reply>, failed: bool)
    ensures Counts(b, s, AfterRead(b, s, connect, fails, input, failed), 0)
  {
    RepliesCount(b, AfterConnect(b, s, connect), input);
    hide CommandsOf, AfterReplies, AfterFree;
  }

  lemma EventCounts(b: Behaviour, s: Ctx, e: Event)
    ensures Counts(b, s, AfterEvent(b, s, e), if e.Call? && e.action.Command? then 1 else 0)
  {
    hide CommandsOf, AfterRead, AfterFree;
    match e
    case Readable(connect, input, failed) => ReadCounts(b, s, connect, false, input, failed);
    case ReadFails(connect) => ReadCounts(b, s, connect, true, [], false);
    case _ =>
  }

  /** As long as commands are accepted, the callbacks registered in a run are those of the
      commands given outside of callbacks and of the commands of each callback that was run. */
  lemma {:induction false} EveryCommandCounts(b: Behaviour, s: Ctx, events: seq<Event>)
    ensures var r := AfterEvents(b, s, events);
            !r.Closing() && !r.Gone() ==>
              r.issued + CommandsOf(b, s.log) == s.issued + CommandEvents(events) + CommandsOf(b, r.log)
    ensures s.Closing() ==> AfterEvents(b, s, events).Closing()
    decreases |events|
  {
    if events != [] && !s.Gone() {
      EventCounts(b, s, events[0]);
      EveryCommandCounts(b, AfterEvent(b, s, events[0]), events[1..]);
      hide CommandsOf, AfterEvent;
    }
  }
}
