/**
 When an asynchronous hiredis context is torn down, and when it lives, from what the program
 and the socket did: a ledger of what waits and what is left to write, and the list of causes.
 */
module AsyncTeardown {
  import opened Bytes
  import opened AsyncSpec
  import opened AsyncMachine

  // ----- what a program registers

  predicate AllCommands(actions: seq<Action>) {
    forall x <- actions :: x.Command?
  }

  /** The commands before the first disconnect or free; the rest is refused. */
  function Accepted(actions: seq<Action>): (a: seq<Action>)
    ensures |a| <= |actions| && AllCommands(a)
  {
    if actions == [] then []
    else
      var n := |actions| - 1;
      var a := Accepted(actions[..n]);
      if |a| == n && actions[n].Command? then a + [actions[n]] else a
  }

  /** They are the longest run of commands at the front. */
  lemma {:induction false} AcceptedIsFront(actions: seq<Action>)
    ensures var a := Accepted(actions);
            a == actions[..|a|] && (|a| < |actions| ==> !actions[|a|].Command?)
  {
    if actions != [] {
      var n := |actions| - 1;
      AcceptedIsFront(actions[..n]);
      assert actions == actions[..n] + [actions[n]];
    }
  }

  function Functions(commands: seq<Action>): (fs: seq<bool>)
    requires AllCommands(commands)
    ensures |fs| == |commands|
  {
    seq(|commands|, i requires 0 <= i < |commands| => assert commands[i] in commands; commands[i].hasFn)
  }

  function Length(commands: seq<Action>): nat
    requires AllCommands(commands)
  {
    if commands == [] then 0
    else
      assert commands[|commands| - 1] in commands;
      Length(commands[..|commands| - 1]) + commands[|commands| - 1].len
  }

  // ----- the ledger

  /** Which of the waiting callbacks have a function, the bytes left to write, the calls made so
      far, whether a disconnect was asked for, whether the connection is up, and whether an
      error was seen. */
  datatype Ledger = Ledger(waiting: seq<bool>, unwritten: nat, calls: nat, leaving: bool, up: bool, broken: bool)

  function Program(l: Ledger, actions: seq<Action>): Ledger {
    var a := if l.leaving then [] else Accepted(actions);
    l.(waiting := l.waiting + Functions(a), unwritten := l.unwritten + Length(a), leaving := l.leaving || Disconnect in actions)
  }

  /** The callback that waits first gets a reply. */
  function Served(b: Behaviour, l: Ledger, reply: Reply): Ledger
    requires l.waiting != []
  {
    var rest := l.(waiting := l.waiting[1..]);
    if l.waiting[0] then Program(rest.(calls := l.calls + 1), b(l.calls, Some(reply))) else rest
  }

  /** A reply that nobody waits for is an error, or the callback that gets it frees the context. */
  predicate ReplyEnds(b: Behaviour, l: Ledger, reply: Reply) {
    if l.waiting == [] then reply.isError else l.waiting[0] && Free in b(l.calls, Some(reply))
  }

  predicate ReplyStops(b: Behaviour, l: Ledger, reply: Reply) {
    l.waiting == [] || ReplyEnds(b, l, reply)
  }

  /** Some reply of the input ends the context, and none before it stopped the loop. */
  predicate InputEnds(b: Behaviour, l: Ledger, input: seq<Reply>)
    decreases |input|
  {
    input != [] &&
    (ReplyEnds(b, l, input[0]) || (!ReplyStops(b, l, input[0]) && InputEnds(b, Served(b, l, input[0]), input[1..])))
  }

  predicate InputStops(b: Behaviour, l: Ledger, input: seq<Reply>)
    decreases |input|
  {
    input != [] && (ReplyStops(b, l, input[0]) || InputStops(b, Served(b, l, input[0]), input[1..]))
  }

  function ServedAll(b: Behaviour, l: Ledger, input: seq<Reply>): Ledger
    decreases |input|
  {
    if input == [] || l.waiting == [] then l else ServedAll(b, Served(b, l, input[0]), input[1..])
  }

  /** A disconnect was asked for, and nothing waits or is left to write. */
  predicate Drained(l: Ledger) {
    l.leaving && l.unwritten == 0 && l.waiting == []
  }

  /** The connection as the event reports it. */
  function Connecting(l: Ledger, e: Event): Ledger
    requires !e.Call?
  {
    l.(up := l.up || e.connect == Established, broken := l.broken || (!l.up && e.connect == InProgress))
  }

  /** The causes of a teardown: a free; a disconnect when nobody waits; a refused connection;
      on a connected context an earlier error, a failed read or write, a reply that ends it, a
      reader error, or that a disconnect is pending and nothing is left to do. */
  predicate Ends(b: Behaviour, l: Ledger, e: Event) {
    if e.Call? then e.action.Free? || (e.action.Disconnect? && l.waiting == [])
    else
      var c := Connecting(l, e);
      || (!l.up && e.connect == Refused)
      || (c.up && (l.broken || e.ReadFails? || e.WriteFails?))
      || (c.up && e.Readable?
          && (InputEnds(b, c, e.replies)
              || (!InputStops(b, c, e.replies) && (e.failed || Drained(ServedAll(b, c, e.replies))))))
  }

  /** A reply nobody waits for that is no error: the assertion of the source fails. */
  predicate Violates(b: Behaviour, l: Ledger, e: Event) {
    && e.Readable? && Connecting(l, e).up && !l.broken
    && InputStops(b, Connecting(l, e), e.replies) && !InputEnds(b, Connecting(l, e), e.replies)
  }

  function Next(b: Behaviour, l: Ledger, e: Event): Ledger {
    if e.Call? then Program(l, [e.action])
    else if !Connecting(l, e).up then Connecting(l, e)
    else if e.Readable? then ServedAll(b, Connecting(l, e), e.replies)
    else if e.Writable? then Written(Connecting(l, e), e.written)
    else Connecting(l, e)
  }

  function Written(l: Ledger, n: nat): Ledger {
    l.(unwritten := if n < l.unwritten then l.unwritten - n else 0)
  }

  function LedgerAfter(b: Behaviour, l: Ledger, events: seq<Event>): Ledger {
    if events == [] then l else Next(b, LedgerAfter(b, l, events[..|events| - 1]), events[|events| - 1])
  }

  // ----- the machine keeps the ledger

  function LedgerOf(s: Ctx): Ledger {
    Ledger(Waiting(s.replies), s.obuf, |s.log|, s.disconnecting, s.connected, s.err)
  }

  function Waiting(cbs: seq<Callback>): (fs: seq<bool>)
    ensures |fs| == |cbs|
  {
    seq(|cbs|, i requires 0 <= i < |cbs| => cbs[i].hasFn)
  }

  lemma WaitingSnoc(cbs: seq<Callback>, cb: Callback)
    ensures Waiting(cbs + [cb]) == Waiting(cbs) + [cb.hasFn]
    ensures cbs != [] ==> Waiting(cbs[1..]) == Waiting(cbs)[1..] && Waiting(cbs)[0] == cbs[0].hasFn
  {
  }

  /** Between two events of a living context. */
  predicate Calm(s: Ctx) {
    !s.Gone() && !s.freeing
  }

  lemma LengthSnoc(a: seq<Action>, x: Action)
    requires x.Command? && AllCommands(a)
    ensures Length(a + [x]) == Length(a) + x.len && Functions(a + [x]) == Functions(a) + [x.hasFn]
  {
    assert (a + [x])[..|a|] == a;
  }

  /** What the program of a callback does, all at once. */
  lemma {:induction false} ActionsAre(s: Ctx, actions: seq<Action>)
    ensures var r := AfterActions(s, actions);
            && (r.disconnecting <==> s.disconnecting || Disconnect in actions)
            && (r.freeing <==> s.freeing || Free in actions)
            && (r.Closing() <==> s.Closing() || |Accepted(actions)| < |actions|)
            && (!s.freeing ==> LedgerOf(r) == Program(LedgerOf(s), actions))
  {
    if actions == [] {
      assert LedgerOf(s).waiting + [] == LedgerOf(s).waiting;
    } else {
      var n := |actions| - 1;
      ActionsAre(s, actions[..n]);
      hide LedgerOf, Program, Accepted, AfterAction;
      ProgramNext(LedgerOf(s), actions);
      StepIs(AfterActions(s, actions[..n]), actions[n]);
    }
  }

  /** One more action. */
  function ProgramStep(l: Ledger, x: Action, accepted: bool): Ledger {
    match x
    case Command(hasFn, len) => if accepted then l.(waiting := l.waiting + [hasFn], unwritten := l.unwritten + len) else l
    case Disconnect => l.(leaving := true)
    case Free => l
  }

  lemma StepIs(t: Ctx, x: Action)
    ensures var r := AfterAction(t, x);
            && LedgerOf(r) == ProgramStep(LedgerOf(t), x, !t.Closing())
            && (r.disconnecting <==> t.disconnecting || x == Disconnect)
            && (r.freeing <==> t.freeing || x == Free)
  {
    if x.Command? {
      WaitingSnoc(t.replies, Callback(t.issued, x.hasFn));
    }
  }

  lemma ProgramNext(l: Ledger, actions: seq<Action>)
    requires actions != []
    ensures var n := |actions| - 1;
            && (actions[n] == Disconnect || Disconnect in actions[..n] <==> Disconnect in actions)
            && (actions[n] == Free || Free in actions[..n] <==> Free in actions)
            && (|Accepted(actions)| < |actions| <==> |Accepted(actions[..n])| < n || !actions[n].Command?)
            && Program(l, actions)
               == ProgramStep(Program(l, actions[..n]), actions[n], !l.leaving && |Accepted(actions[..n])| == n)
  {
    var n := |actions| - 1;
    var a, x := Accepted(actions[..n]), actions[n];
    hide Length, Functions, AllCommands;
    assert actions == actions[..n] + [x];
    if |a| == n && x.Command? {
      LengthSnoc(a, x);
      Append(l.waiting, Functions(a), [x.hasFn]);
    }
  }

  lemma ServedIs(b: Behaviour, s: Ctx, reply: Reply)
    requires Calm(s) && s.replies != []
    ensures var t := AfterCall(b, s.(replies := s.replies[1..]), s.replies[0], Some(reply));
            && (t.freeing <==> s.replies[0].hasFn && Free in b(|s.log|, Some(reply)))
            && !t.Gone() && LedgerOf(t) == Served(b, LedgerOf(s), reply)
  {
    var cb := s.replies[0];
    WaitingSnoc(s.replies, cb);
    hide Waiting, AfterActions, Program;
    if cb.hasFn {
      ActionsAre(s.(replies := s.replies[1..], log := s.log + [Done(cb, Some(reply))]), b(|s.log|, Some(reply)));
    }
  }

  lemma ReplyIs(b: Behaviour, s: Ctx, reply: Reply)
    requires Calm(s)
    ensures var r := AfterReply(b, s, reply);
            && (r.freed <==> ReplyEnds(b, LedgerOf(s), reply))
            && (r.Gone() <==> ReplyStops(b, LedgerOf(s), reply))
            && (!r.Gone() ==> Calm(r) && LedgerOf(r) == Served(b, LedgerOf(s), reply))
  {
    if s.replies != [] {
      ServedIs(b, s, reply);
      WaitingSnoc(s.replies, s.replies[0]);
      hide AfterCall, Served, Swept;
    } else {
      hide Swept;
    }
  }

  lemma {:induction false} InputIs(b: Behaviour, s: Ctx, input: seq<Reply>)
    requires Calm(s)
    ensures var r := AfterReplies(b, s, input);
            && (r.freed <==> InputEnds(b, LedgerOf(s), input))
            && (r.Gone() <==> InputStops(b, LedgerOf(s), input))
            && (!r.Gone() ==> Calm(r) && LedgerOf(r) == ServedAll(b, LedgerOf(s), input))
    decreases |input|
  {
    if input != [] {
      ReplyIs(b, s, input[0]);
      hide AfterReply, LedgerOf, Served, ReplyEnds;
      var t := AfterReply(b, s, input[0]);
      if !t.Gone() {
        InputIs(b, t, input[1..]);
      }
    }
  }

  lemma InputDone(b: Behaviour, s: Ctx, input: seq<Reply>, failed: bool)
    requires Calm(s)
    ensures var r, l := AfterInput(b, s, input, failed), LedgerOf(s);
            var all := ServedAll(b, l, input);
            && (r.freed <==> InputEnds(b, l, input) || (!InputStops(b, l, input) && (failed || Drained(all))))
            && (r.Gone() <==> r.freed || InputStops(b, l, input))
            && (!r.Gone() ==> Calm(r) && LedgerOf(r) == all)
  {
    InputIs(b, s, input);
    hide AfterReplies, ServedAll, InputEnds, InputStops, AfterFree;
  }

  lemma ReadFailsIs(b: Behaviour, s: Ctx, e: Event)
    requires Calm(s) && e.ReadFails?
    ensures EventIs(b, s, e)
  {
    hide AfterInput, ServedAll, InputEnds, InputStops, AfterFree, Waiting, Drained;
  }

  lemma ReadIs(b: Behaviour, s: Ctx, e: Event)
    requires Calm(s) && e.Readable?
    ensures EventIs(b, s, e)
  {
    hide AfterInput, ServedAll, InputEnds, InputStops, AfterFree, Waiting, Drained;
    var t := AfterConnect(b, s, e.connect);
    if !t.freed {
      InputDone(b, t, e.replies, e.failed);
      InputEndsStops(b, LedgerOf(t), e.replies);
    }
  }

  lemma {:induction false} InputEndsStops(b: Behaviour, l: Ledger, input: seq<Reply>)
    ensures InputEnds(b, l, input) ==> InputStops(b, l, input)
    decreases |input|
  {
    if input != [] && !ReplyStops(b, l, input[0]) {
      InputEndsStops(b, Served(b, l, input[0]), input[1..]);
    }
  }

  lemma WriteIs(b: Behaviour, s: Ctx, e: Event)
    requires Calm(s) && (e.Writable? || e.WriteFails?)
    ensures EventIs(b, s, e)
  {
    hide Swept;
  }

  lemma CallIs(b: Behaviour, s: Ctx, e: Event)
    requires Calm(s) && e.Call?
    ensures EventIs(b, s, e)
  {
    StepIs(s, e.action);
    ProgramNext(LedgerOf(s), [e.action]);
    NoProgram(LedgerOf(s));
    hide Swept, Program, Waiting;
    assert [e.action][..0] == [];
  }

  lemma NoProgram(l: Ledger)
    ensures Program(l, []) == l && Accepted([]) == []
  {
    assert l.waiting + [] == l.waiting;
  }

  predicate Stops(b: Behaviour, l: Ledger, e: Event) {
    Ends(b, l, e) || Violates(b, l, e)
  }

  /** An event frees a living context exactly for one of the causes, and otherwise the ledger
      goes on. */
  ghost predicate EventIs(b: Behaviour, s: Ctx, e: Event) {
    var r, l := AfterEvent(b, s, e), LedgerOf(s);
    && (r.freed <==> Ends(b, l, e))
    && (r.Gone() <==> Stops(b, l, e))
    && (!r.Gone() ==> Calm(r) && LedgerOf(r) == Next(b, l, e))
  }

  lemma EveryEventIs(b: Behaviour, s: Ctx, e: Event)
    requires Calm(s)
    ensures EventIs(b, s, e)
  {
    hide EventIs;
    match e
    case Call(_) => CallIs(b, s, e);
    case Readable(_, _, _) => ReadIs(b, s, e);
    case ReadFails(_) => ReadFailsIs(b, s, e);
    case Writable(_, _) => WriteIs(b, s, e);
    case WriteFails(_) => WriteIs(b, s, e);
  }

  // ----- whole runs

  /** The ledger before event k. */
  function LedgerAt(b: Behaviour, l: Ledger, events: seq<Event>, k: nat): Ledger
    requires k <= |events|
  {
    LedgerAfter(b, l, events[..k])
  }

  /** Event k is a cause of teardown, and nothing stopped the run before it. */
  predicate TornAt(b: Behaviour, l: Ledger, events: seq<Event>, k: nat)
    requires k < |events|
  {
    Ends(b, LedgerAt(b, l, events, k), events[k]) && Unstopped(b, l, events, k)
  }

  predicate Unstopped(b: Behaviour, l: Ledger, events: seq<Event>, k: nat)
    requires k <= |events|
  {
    forall j :: 0 <= j < k ==> !Stops(b, LedgerAt(b, l, events, j), events[j])
  }

  lemma {:induction false} RunSnoc(b: Behaviour, s: Ctx, events: seq<Event>, e: Event)
    ensures var t := AfterEvents(b, s, events);
            AfterEvents(b, s, events + [e]) == if t.Gone() then t else AfterEvent(b, t, e)
    decreases |events|
  {
    hide AfterEvent;
    if events == [] {
      assert [] + [e] == [e] && [e][1..] == [];
    } else if !s.Gone() {
      assert (events + [e])[1..] == events[1..] + [e];
      RunSnoc(b, AfterEvent(b, s, events[0]), events[1..], e);
    }
  }

  /** Nothing has stopped a run exactly if the context still lives, and then the ledger is that of
      the machine; it was freed exactly by a cause. */
  ghost predicate RunIs(b: Behaviour, s: Ctx, events: seq<Event>, n: nat)
    requires n <= |events|
  {
    var r, l := AfterEvents(b, s, events[..n]), LedgerOf(s);
    && (!r.Gone() <==> Unstopped(b, l, events, n))
    && (!r.Gone() ==> Calm(r) && LedgerOf(r) == LedgerAt(b, l, events, n))
    && (r.freed <==> exists k :: 0 <= k < n && TornAt(b, l, events, k))
  }

  lemma {:induction false} EveryRunIs(b: Behaviour, s: Ctx, events: seq<Event>, n: nat)
    requires Calm(s) && n <= |events|
    ensures RunIs(b, s, events, n)
  {
    hide RunIs;
    if n == 0 {
      RunBegins(b, s, events);
    } else {
      EveryRunIs(b, s, events, n - 1);
      RunGoesOn(b, s, events, n - 1);
    }
  }

  lemma RunBegins(b: Behaviour, s: Ctx, events: seq<Event>)
    requires Calm(s)
    ensures RunIs(b, s, events, 0)
  {
    assert events[..0] == [];
  }

  lemma RunGoesOn(b: Behaviour, s: Ctx, events: seq<Event>, n: nat)
    requires n < |events| && RunIs(b, s, events, n)
    ensures RunIs(b, s, events, n + 1)
  {
    hide AfterEvents, AfterEvent, LedgerOf, LedgerAt, Stops, Ends, Next, TornAt, Unstopped;
    var t, l := AfterEvents(b, s, events[..n]), LedgerOf(s);
    assert events[..n + 1] == events[..n] + [events[n]];
    RunSnoc(b, s, events[..n], events[n]);
    LedgerNext(b, l, events, n);
    if !t.Gone() {
      EveryEventIs(b, t, events[n]);
    }
    assert (exists k :: 0 <= k < n + 1 && TornAt(b, l, events, k))
      <==> (exists k :: 0 <= k < n && TornAt(b, l, events, k)) || TornAt(b, l, events, n);
  }

  lemma LedgerNext(b: Behaviour, l: Ledger, events: seq<Event>, n: nat)
    requires n < |events|
    ensures var at, e := LedgerAt(b, l, events, n), events[n];
            && LedgerAt(b, l, events, n + 1) == Next(b, at, e)
            && (Unstopped(b, l, events, n + 1) <==> Unstopped(b, l, events, n) && !Stops(b, at, e))
            && (TornAt(b, l, events, n) <==> Unstopped(b, l, events, n) && Ends(b, at, e))
  {
    assert events[..n + 1][..n] == events[..n];
    hide Next, Stops, Ends;
  }

  /** A run frees a living context if and only if one of its events was a cause. */
  lemma FreedByCause(b: Behaviour, s: Ctx, events: seq<Event>)
    requires Calm(s)
    ensures AfterEvents(b, s, events).freed <==> exists k :: 0 <= k < |events| && TornAt(b, LedgerOf(s), events, k)
  {
    EveryRunIs(b, s, events, |events|);
    assert events[..|events|] == events;
  }

  // ----- a healthy context lives

  /** A command, or a socket event of an established connection on which nothing failed. */
  predicate Healthy(e: Event) {
    if e.Call? then e.action.Command?
    else e.connect == Established && !e.ReadFails? && !e.WriteFails? && (e.Readable? ==> !e.failed)
  }

  /** The callbacks that were called from the n-th call on give commands only. */
  ghost predicate OnlyCommands(b: Behaviour, log: seq<Done>, n: nat) {
    forall k :: n <= k < |log| ==> forall a <- b(k, log[k].reply) :: a.Command?
  }

  /** Open, without an error, and nobody has asked to close. */
  predicate Open(s: Ctx) {
    Calm(s) && !s.err && !s.disconnecting
  }

  lemma HealthyReply(b: Behaviour, s: Ctx, reply: Reply)
    requires Open(s) && s.replies != [] && OnlyCommands(b, AfterReply(b, s, reply).log, |s.log|)
    ensures var r := AfterReply(b, s, reply);
            Open(r) && r.connected == s.connected && |r.replies| >= |s.replies| - 1
  {
    var cb := s.replies[0];
    if cb.hasFn {
      var t := s.(replies := s.replies[1..], log := s.log + [Done(cb, Some(reply))]);
      ActionsAre(t, b(|s.log|, Some(reply)));
      assert AfterReply(b, s, reply).log[|s.log|] == Done(cb, Some(reply));
      hide AfterActions, AfterFree, LedgerOf, Program;
    }
  }

  lemma {:induction false} HealthyReplies(b: Behaviour, s: Ctx, input: seq<Reply>)
    requires Open(s) && |input| <= |s.replies| && OnlyCommands(b, AfterReplies(b, s, input).log, |s.log|)
    ensures var r := AfterReplies(b, s, input);
            Open(r) && r.connected == s.connected && |r.replies| >= |s.replies| - |input|
    decreases |input|
  {
    if input != [] {
      var t := AfterReply(b, s, input[0]);
      assert AfterReplies(b, s, input) == AfterReplies(b, t, input[1..]);
      assert t.log <= AfterReplies(b, t, input[1..]).log;
      hide AfterReply, AfterReplies;
      HealthyReply(b, s, input[0]);
      HealthyReplies(b, t, input[1..]);
    }
  }

  lemma HealthyEvent(b: Behaviour, s: Ctx, e: Event)
    requires Open(s) && Healthy(e) && (e.Readable? ==> |e.replies| <= |s.replies|)
    requires OnlyCommands(b, AfterEvent(b, s, e).log, |s.log|)
    ensures var r := AfterEvent(b, s, e);
            && Open(r) && (r.connected <==> Connects(e, s.connected))
            && |r.replies| + |Arrived([e], s.connected)| >= |s.replies| + CommandEvents([e])
  {
    assert Arrived([e][1..], Connects(e, s.connected)) == [] && CommandEvents([e][1..]) == 0;
    if e.Readable? {
      var t := AfterConnect(b, s, e.connect);
      assert t == s.(connected := true);
      assert AfterReplies(b, t, e.replies).log <= AfterEvent(b, s, e).log;
      HealthyReplies(b, t, e.replies);
    }
    hide AfterReplies, AfterFree;
  }

  /** In no prefix of the run do more replies arrive than callbacks were waiting for them. */
  ghost predicate Awaited(waiting: nat, events: seq<Event>, connected: bool) {
    forall k :: 0 <= k <= |events| ==> |Arrived(events[..k], connected)| <= waiting + CommandEvents(events[..k])
  }

  lemma CommandsFirst(events: seq<Event>)
    requires events != []
    ensures CommandEvents(events) == CommandEvents([events[0]]) + CommandEvents(events[1..])
  {
    assert CommandEvents([events[0]][1..]) == 0;
  }

  lemma AwaitedNext(waiting: nat, later: nat, events: seq<Event>, connected: bool)
    requires events != [] && Awaited(waiting, events, connected)
    requires later + |Arrived([events[0]], connected)| >= waiting + CommandEvents([events[0]])
    ensures |Arrived([events[0]], connected)| <= waiting + CommandEvents([events[0]])
    ensures Awaited(later, events[1..], Connects(events[0], connected))
  {
    var e, rest := events[0], events[1..];
    assert events[..1] == [e];
    forall k | 0 <= k <= |rest| ensures |Arrived(rest[..k], Connects(e, connected))| <= later + CommandEvents(rest[..k]) {
      assert events[..k + 1][0] == e && events[..k + 1][1..] == rest[..k];
      ArrivedFirst(events[..k + 1], connected);
      CommandsFirst(events[..k + 1]);
      hide Arrived, CommandEvents;
    }
  }

  /** A context that is open stays so in any run in which the connection holds, nothing fails,
      neither the program nor a callback asks to close, and every reply is waited for. */
  lemma {:induction false} StaysOpen(b: Behaviour, s: Ctx, events: seq<Event>)
    requires Open(s) && (forall e <- events :: Healthy(e)) && Awaited(|s.replies|, events, s.connected)
    requires OnlyCommands(b, AfterEvents(b, s, events).log, |s.log|)
    ensures Open(AfterEvents(b, s, events))
    decreases |events|
  {
    if events != [] {
      var e := events[0];
      var t := AfterEvent(b, s, e);
      assert AfterEvents(b, s, events) == AfterEvents(b, t, events[1..]) && t.log <= AfterEvents(b, s, events).log;
      assert events[..1] == [e];
      FirstAwaited(|s.replies|, events, s.connected);
      hide AfterEvents, AfterEvent, Awaited, Healthy, Arrived, CommandEvents;
      HealthyEvent(b, s, e);
      AwaitedNext(|s.replies|, |t.replies|, events, s.connected);
      StaysOpen(b, t, events[1..]);
    }
  }

  lemma StaysOpenIf(b: Behaviour, s: Ctx, events: seq<Event>)
    ensures var r := AfterEvents(b, s, events);
            (&& Open(s) && (forall e <- events :: Healthy(e)) && Awaited(|s.replies|, events, s.connected)
             && OnlyCommands(b, r.log, |s.log|))
            ==> Open(r)
  {
    hide Open, Awaited, Healthy, OnlyCommands, AfterEvents;
    if Open(s) && (forall e <- events :: Healthy(e)) && Awaited(|s.replies|, events, s.connected)
       && OnlyCommands(b, AfterEvents(b, s, events).log, |s.log|) {
      StaysOpen(b, s, events);
    }
  }

  lemma FirstAwaited(waiting: nat, events: seq<Event>, connected: bool)
    requires events != [] && Awaited(waiting, events, connected) && Healthy(events[0])
    ensures events[0].Readable? ==> |events[0].replies| <= waiting
  {
    var e := events[0];
    assert events[..1] == [e];
    assert Arrived([e][1..], Connects(e, connected)) == [] && CommandEvents([e][1..]) == 0;
  }
}
