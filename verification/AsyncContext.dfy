/**
 The asynchronous context of hiredis: a queue of callbacks, and a teardown that is deferred
 while a callback runs. Callbacks are arbitrary programs over the API, given by `behave`.
 */
module AsyncContext {
  import opened Bytes
  import opened AsyncSpec
  import opened AsyncMachine
  import opened AsyncTeardown

  class Context {
    var replies: seq<Callback>
    var obuf: nat
    var connected: bool
    var disconnecting: bool
    var freeing: bool
    var inCallback: bool
    var err: bool
    /** The memory is released; nothing may touch the context any more. */
    var freed: bool
    /** A reply arrived that no callback waits for, and the program stopped. */
    var aborted: bool
    /** Callbacks registered so far. */
    var issued: nat
    /** The calls of callback functions. */
    var log: seq<Done>
    /** The status passed to onDisconnect. */
    var closed: Option<bool>
    /** What the k-th call of a callback function does, given its reply. */
    const behave: Behaviour

    ghost var done: seq<Done>
    ghost var got: seq<Reply>
    ghost var answered: nat
    /** Teardown has begun. */
    ghost var tearing: bool

    constructor (behave: Behaviour)
      ensures Idle() && !freed && !aborted && got == [] && this.behave == behave
      ensures State() == NEW
    {
      replies, obuf, connected, disconnecting, freeing, inCallback := [], 0, false, false, false, false;
      err, freed, aborted, issued, log, closed := false, false, false, 0, [], None;
      this.behave := behave;
      done, got, answered, tearing := [], [], 0, false;
    }

    ghost predicate Valid()
      reads this
    {
      && History(done, replies, got, answered) && issued == |done| + |replies| && log == Calls(done)
      && (answered < |done| ==> tearing)
      && (tearing ==> disconnecting || freeing)
      && (freed ==> tearing && replies == [])
    }

    function State(): Ctx
      reads this
    {
      Ctx(replies, obuf, connected, disconnecting, freeing, err, freed, aborted, issued, log, closed)
    }

    /** Between two events: no callback is running and teardown is not under way. */
    ghost predicate Idle()
      reads this
    {
      && Valid() && !inCallback && (tearing ==> freed)
      && (!freed ==> !freeing)
      && (!freed && !aborted ==> |got| == answered == |done|)
      && (|got| == answered || |got| == answered + 1 == |done| + 1)
    }

    // ----- the callback queue

    method Push(hasFn: bool)
      requires Valid() && !freed
      modifies this`replies, this`issued
      ensures Valid() && replies == old(replies) + [Callback(old(issued), hasFn)] && issued == old(issued) + 1
    {
      replies := replies + [Callback(issued, hasFn)];
      issued := issued + 1;
    }

    /** Shift for a reply that is delivered, or for NULL. */
    method Shift() returns (cb: Option<Callback>)
      requires !freed
      modifies this`replies
      ensures old(replies) == [] ==> cb == None && replies == []
      ensures old(replies) != [] ==> cb == Some(old(replies)[0]) && replies == old(replies)[1..]
    {
      if |replies| > 0 {
        cb := Some(replies[0]);
        replies := replies[1..];
      } else {
        cb := None;
      }
    }

    // ----- the API

    /** Refused exactly when the connection is about to be closed. */
    method AsyncCommand(hasFn: bool, len: nat) returns (ok: bool)
      requires Valid() && !freed
      modifies this`replies, this`issued, this`obuf
      ensures Valid() && (ok <==> !disconnecting && !freeing)
      ensures replies == if ok then old(replies) + [Callback(old(issued), hasFn)] else old(replies)
      ensures obuf == if ok then old(obuf) + len else old(obuf)
      ensures State() == AfterCommand(old(State()), hasFn, len)
    {
      if disconnecting || freeing {
        return false;
      }
      Push(hasFn);
      obuf := obuf + len;
      return true;
    }

    /** Deferred while a callback runs: only the flag is set then. */
    method AsyncFree()
      requires Valid() && !freed && (inCallback || !tearing)
      modifies this
      ensures Valid() && freeing && inCallback == old(inCallback) && freed == !inCallback
      ensures old(done) <= done
      ensures inCallback ==> Same(old(replies), old(done), old(log)) && tearing == old(tearing) && closed == old(closed)
      ensures connected == old(connected) && err == old(err) && (freed && connected ==> closed == Some(true))
      ensures disconnecting == old(disconnecting) || freed
      ensures issued == old(issued) && answered == old(answered) && got == old(got) && aborted == old(aborted)
      ensures var s := old(State()).(freeing := true);
              State() == if inCallback then s else AfterFree(behave, s)
      decreases if inCallback then 0 else 4
    {
      freeing := true;
      if !inCallback {
        FreeNow();
      }
    }

    /** Deferred while a callback runs or callbacks are waiting. */
    method AsyncDisconnect()
      requires Valid() && !freed && (inCallback || !tearing)
      modifies this
      ensures Valid() && disconnecting && inCallback == old(inCallback)
      ensures old(done) <= done && (freed <==> !inCallback && old(replies) == [])
      ensures !freed ==> Same(old(replies), old(done), old(log)) && tearing == old(tearing) && freeing == old(freeing) && closed == old(closed)
      ensures connected == old(connected) && err == old(err)
      ensures issued == old(issued) && answered == old(answered) && got == old(got) && aborted == old(aborted)
      ensures var s := old(State()).(disconnecting := true);
              State() == if inCallback || old(replies) != [] then s else AfterDisconnect(behave, s)
      decreases if inCallback then 0 else 5
    {
      disconnecting := true;
      if !inCallback && replies == [] {
        DisconnectNow();
      }
    }

    ghost predicate Same(rs: seq<Callback>, d: seq<Done>, l: seq<Done>)
      reads this
    {
      replies == rs && done == d && log == l
    }

    /** The program of one callback: it may register further callbacks, unless the connection
        is being closed; it never frees the context under the feet of its caller. */
    method Act(actions: seq<Action>)
      requires Valid() && !freed && inCallback
      modifies this
      ensures Valid() && !freed && inCallback && done == old(done) && log == old(log) && old(replies) <= replies
      ensures tearing == old(tearing) && answered == old(answered) && got == old(got) && aborted == old(aborted)
      ensures (old(disconnecting) ==> disconnecting) && (old(freeing) ==> freeing)
      ensures old(disconnecting || freeing) ==> replies == old(replies)
      ensures connected == old(connected) && err == old(err) && closed == old(closed)
      ensures State() == AfterActions(old(State()), actions)
      decreases 1
    {
      hide History, Calls;
      for i := 0 to |actions|
        invariant Valid() && !freed && inCallback
        invariant done == old(done) && got == old(got) && answered == old(answered) && tearing == old(tearing)
        invariant State() == AfterActions(old(State()), actions[..i])
      {
        assert actions[..i + 1][..i] == actions[..i];
        match actions[i]
        case Command(hasFn, len) => var _ := AsyncCommand(hasFn, len);
        case Disconnect => AsyncDisconnect();
        case Free => AsyncFree();
      }
      assert actions[..|actions|] == actions;
    }

    /** The callback cb was just taken out of the queue for this reply, or NULL. */
    ghost predicate Taken(cb: Callback, reply: Option<Reply>, n: nat)
      reads this
    {
      && !freed && !inCallback && History(done + [Done(cb, reply)], replies, got, n)
      && issued == |done| + 1 + |replies| && log == Calls(done)
      && (n <= |done| ==> tearing) && (tearing ==> disconnecting || freeing)
    }

    method RunCallback(cb: Callback, reply: Option<Reply>, ghost n: nat)
      requires Taken(cb, reply, n)
      modifies this
      ensures Valid() && !freed && !inCallback && old(replies) <= replies
      ensures done == old(done) + [Done(cb, reply)] && answered == n
      ensures tearing == old(tearing) && got == old(got) && aborted == old(aborted)
      ensures (old(disconnecting) ==> disconnecting) && (old(freeing) ==> freeing)
      ensures old(disconnecting || freeing) || !cb.hasFn ==> replies == old(replies)
      ensures !cb.hasFn ==> freeing == old(freeing)
      ensures connected == old(connected) && err == old(err) && closed == old(closed)
      ensures State() == AfterCall(behave, old(State()), cb, reply)
      decreases 2
    {
      CallsSnoc(done, Done(cb, reply));
      hide Calls, History, AfterActions;
      done, answered := done + [Done(cb, reply)], n;
      if cb.hasFn {
        log := log + [Done(cb, reply)];
        inCallback := true;
        Act(behave(|log| - 1, reply));
        inCallback := false;
      } else {
        assert log + [] == log;
      }
    }

    // ----- teardown

    /** The callback that waits first gets NULL. */
    method SweepOne() returns (more: bool)
      requires Valid() && !freed && !inCallback && tearing && (disconnecting || freeing)
      modifies this
      ensures Valid() && !freed && !inCallback && tearing && (disconnecting || freeing) && old(done) <= done
      ensures issued == old(issued) && answered == old(answered) && got == old(got)
      ensures more <==> old(replies) != []
      ensures replies == if more then old(replies)[1..] else []
      ensures Swept(behave, State()) == Swept(behave, old(State()))
      decreases 3, 0
    {
      hide Calls, History;
      NextGetsNull(done, replies, got, answered);
      var cb := Shift();
      more := cb.Some?;
      if more {
        RunCallback(cb.value, None, answered);
      }
    }

    /** Every waiting callback gets NULL. No callback can add to the queue, so this ends. */
    method FreeNow()
      requires Valid() && !freed && !inCallback && !tearing && (disconnecting || freeing)
      modifies this
      ensures Valid() && freed && !inCallback && old(done) <= done && issued == old(issued) == |done|
      ensures answered == old(answered) && got == old(got) && aborted == old(aborted)
      ensures (old(disconnecting) ==> disconnecting) && (old(freeing) ==> freeing)
      ensures connected == old(connected) && err == old(err)
      ensures closed == if connected then Some(freeing || !err) else old(closed)
      ensures State() == AfterFree(behave, old(State()))
      decreases 3
    {
      hide Calls, History, Swept;
      tearing := true;
      var more := true;
      while more
        invariant Valid() && !freed && !inCallback && tearing && (disconnecting || freeing) && old(done) <= done
        invariant issued == old(issued) && answered == old(answered) && got == old(got)
        invariant !more ==> replies == []
        invariant Swept(behave, State()) == Swept(behave, old(State()))
        decreases |replies|, more
      {
        more := SweepOne();
      }
      assert State() == Swept(behave, old(State())) by {
        NothingToSweep(behave, State());
      }
      if connected {
        closed := Some(freeing || !err);
      }
      freed := true;
    }

    /** A clean disconnect finds no waiting callback; any other refuses new commands first. */
    method DisconnectNow()
      requires Valid() && !freed && !inCallback && !tearing
      requires !err ==> replies == [] && disconnecting
      modifies this
      ensures Valid() && freed && !inCallback && disconnecting && old(done) <= done && issued == old(issued) == |done|
      ensures answered == old(answered) && got == old(got) && aborted == old(aborted)
      ensures connected == old(connected) && err == old(err)
      ensures closed == if connected then Some(freeing || !err) else old(closed)
      ensures State() == AfterDisconnect(behave, old(State()))
      decreases 4
    {
      if err {
        disconnecting := true;
      } else {
        var none := Shift();
        assert none == None;
      }
      FreeNow();
    }

    // ----- events

    /** One reply: the callback that waits first gets it. A reply nobody waits for closes the
        connection if it is an error; any other one is a violated assertion. */
    method ProcessReply(reply: Reply)
      requires Idle() && !freed && !aborted
      modifies this
      ensures Idle() && got == old(got) + [reply] && old(done) <= done
      ensures aborted <==> old(replies) == [] && !reply.isError
      ensures old(replies) == [] && reply.isError ==> freed
      ensures connected == old(connected) && State() == AfterReply(behave, old(State()), reply)
    {
      hide Calls, History;
      NextGetsReply(done, replies, got, reply);
      got := got + [reply];
      var cb := Shift();
      if cb == None {
        if reply.isError {
          err := true;
          DisconnectNow();
        } else {
          aborted := true;
        }
      } else {
        assert Taken(cb.value, Some(reply), answered + 1);
        RunCallback(cb.value, Some(reply), answered + 1);
        if cb.value.hasFn && freeing {
          FreeNow();
        }
      }
    }

    /** The loop of redisProcessCallbacks over the replies the reader holds. */
    method ProcessReplies(input: seq<Reply>)
      requires Idle() && !freed && !aborted
      modifies this
      ensures Idle() && old(got) <= got <= old(got) + input && old(done) <= done
      ensures !freed && !aborted ==> got == old(got) + input
      ensures connected == old(connected) && State() == AfterReplies(behave, old(State()), input)
    {
      hide Calls, History, AfterReply;
      var i := 0;
      assert input[0..] == input;
      while i < |input| && !freed && !aborted
        invariant 0 <= i <= |input| && Idle() && old(done) <= done
        invariant got == old(got) + input[..i] && connected == old(connected)
        invariant AfterReplies(behave, State(), input[i..]) == AfterReplies(behave, old(State()), input)
      {
        assert input[i..][1..] == input[i + 1..];
        ProcessReply(input[i]);
        i := i + 1;
      }
    }

    /** redisProcessCallbacks: after the replies there are none, or reading fails. */
    method ProcessCallbacks(input: seq<Reply>, failed: bool)
      requires Idle() && !freed && !aborted
      modifies this
      ensures Idle() && old(got) <= got <= old(got) + input && old(done) <= done
      ensures !freed && !aborted ==> got == old(got) + input && !failed
      ensures !freed && !aborted ==> !(disconnecting && obuf == 0 && replies == [])
      ensures connected == old(connected) && State() == AfterInput(behave, old(State()), input, failed)
      ensures var l := LedgerOf(old(State()));
              freed <==> InputEnds(behave, l, input)
                         || (!InputStops(behave, l, input) && (failed || Drained(ServedAll(behave, l, input))))
    {
      InputDone(behave, State(), input, failed);
      hide Calls, History, AfterReplies, AfterDisconnect, LedgerOf, InputEnds, InputStops, ServedAll, Drained;
      ProcessReplies(input);
      if !freed && !aborted {
        AfterLastReply(failed);
      }
    }

    /** No reply is left: the context is torn down if reading failed, or if a disconnect is pending
        and nothing is left to do. */
    method AfterLastReply(failed: bool)
      requires Idle() && !freed && !aborted
      modifies this
      ensures Idle() && got == old(got) && old(done) <= done && !aborted && connected == old(connected)
      ensures freed <==> failed || (old(disconnecting) && old(obuf) == 0 && old(replies) == [])
      ensures !freed ==> State() == old(State())
      ensures freed ==> State() == AfterDisconnect(behave, if failed then old(State()).(err := true) else old(State()))
    {
      hide Calls, History, AfterDisconnect;
      if failed {
        err := true;
        DisconnectNow();
      } else if disconnecting && obuf == 0 && replies == [] {
        DisconnectNow();
      }
    }

    /** The first event on a socket tells whether connecting worked. While it is in progress
        the caller is told to wait, but the error that says so stays in the context. */
    method HandleConnect(connect: Connect) returns (go: bool)
      requires Idle() && !freed && !aborted
      modifies this
      ensures Idle() && got == old(got) && aborted == old(aborted) && old(done) <= done
      ensures go <==> !freed && connected
      ensures freed <==> !old(connected) && connect == Refused
      ensures !freed ==> (connected <==> old(connected) || connect == Established) && replies == old(replies) && obuf == old(obuf)
      ensures !freed ==> err == (old(err) || (!old(connected) && connect == InProgress))
      ensures State() == AfterConnect(behave, old(State()), connect)
    {
      if !connected {
        match connect
        case Refused => err := true; DisconnectNow();
        case InProgress => err := true;
        case Established => connected := true;
      }
      go := !freed && connected;
    }

    /** redisAsyncHandleRead: nothing is read on a context that has seen an error. */
    method HandleRead(connect: Connect, fails: bool, input: seq<Reply>, failed: bool)
      requires Idle() && !freed && !aborted
      modifies this
      ensures Idle() && old(done) <= done
      ensures old(got) <= got <= old(got) + if old(connected) || connect == Established then input else []
      ensures !freed && !aborted ==> got == old(got) + if connected then input else []
      ensures !freed ==> (connected <==> old(connected) || connect == Established)
      ensures State() == AfterRead(behave, old(State()), connect, fails, input, failed)
      ensures freed <==> Ends(behave, LedgerOf(old(State())), if fails then ReadFails(connect) else Readable(connect, input, failed))
      ensures (old(err) || fails) && (old(connected) || connect == Established) ==> freed && closed == Some(freeing)
      ensures !old(connected) && connect == InProgress ==> !freed && err && replies == old(replies)
    {
      EveryEventIs(behave, State(), if fails then ReadFails(connect) else Readable(connect, input, failed));
      assert AfterRead(behave, State(), connect, true, input, failed) == AfterRead(behave, State(), connect, true, [], false);
      hide Calls, History, LedgerOf, Ends, Next, Stops, AfterRead;
      ReadOrFail(connect, fails, input, failed);
    }

    method ReadOrFail(connect: Connect, fails: bool, input: seq<Reply>, failed: bool)
      requires Idle() && !freed && !aborted
      modifies this
      ensures Idle() && old(done) <= done
      ensures old(got) <= got <= old(got) + if old(connected) || connect == Established then input else []
      ensures !freed && !aborted ==> got == old(got) + if connected then input else []
      ensures !freed ==> (connected <==> old(connected) || connect == Established)
      ensures State() == AfterRead(behave, old(State()), connect, fails, input, failed)
      ensures (old(err) || fails) && (old(connected) || connect == Established) ==> freed && closed == Some(freeing)
      ensures !old(connected) && connect == InProgress ==> !freed && err && replies == old(replies)
    {
      hide Calls, History, LedgerOf, InputEnds, InputStops, ServedAll, Drained;
      var go := HandleConnect(connect);
      if go && (err || fails) {
        err := true;
        DisconnectNow();
      } else if go {
        ProcessCallbacks(input, failed);
      }
    }

    /** redisAsyncHandleWrite. */
    method HandleWrite(connect: Connect, fails: bool, written: nat)
      requires Idle() && !freed && !aborted
      modifies this
      ensures Idle() && got == old(got) && old(done) <= done
      ensures !freed ==> (connected <==> old(connected) || connect == Established)
      ensures State() == AfterWrite(behave, old(State()), connect, fails, written)
      ensures !freed && connected ==> obuf == if written < old(obuf) then old(obuf) - written else 0
      ensures (old(err) || fails) && (old(connected) || connect == Established) ==> freed && closed == Some(freeing)
      ensures !old(connected) && connect == InProgress ==> !freed && err && replies == old(replies)
    {
      hide Calls, History;
      var go := HandleConnect(connect);
      if go && (err || fails) {
        err := true;
        DisconnectNow();
      } else if go {
        obuf := if written < obuf then obuf - written else 0;
      }
    }

    /** One event: the context is freed exactly by one of the causes. */
    method Handle(e: Event)
      requires Idle() && !freed && !aborted
      modifies this
      ensures Idle() && old(done) <= done
      ensures old(got) <= got <= old(got) + Arrived([e], old(connected))
      ensures !freed && !aborted ==> got == old(got) + Arrived([e], old(connected))
      ensures !freed ==> (connected <==> Connects(e, old(connected)))
      ensures State() == AfterEvent(behave, old(State()), e)
      ensures freed <==> Ends(behave, LedgerOf(old(State())), e)
      ensures e.Call? && e.action.Command? && !old(disconnecting) ==>
                replies == old(replies) + [Callback(old(issued), e.action.hasFn)] && done == old(done) && !freed
      ensures e.Writable? && !freed && connected ==> obuf == (if e.written < old(obuf) then old(obuf) - e.written else 0) && got == old(got)
      ensures !e.Call? && (old(err) || e.ReadFails? || e.WriteFails?) && (old(connected) || e.connect == Established) ==>
                freed && closed == Some(freeing)
      ensures !e.Call? && !old(connected) && e.connect == InProgress ==> !freed && err && replies == old(replies)
    {
      EveryEventIs(behave, State(), e);
      hide Calls, History, LedgerOf, Ends, Next, Stops, AfterEvent, Arrived;
      Dispatch(e);
    }

    method Dispatch(e: Event)
      requires Idle() && !freed && !aborted
      modifies this
      ensures Idle() && old(done) <= done
      ensures old(got) <= got <= old(got) + Arrived([e], old(connected))
      ensures !freed && !aborted ==> got == old(got) + Arrived([e], old(connected))
      ensures !freed ==> (connected <==> Connects(e, old(connected)))
      ensures State() == AfterEvent(behave, old(State()), e)
      ensures e.Call? && e.action.Command? && !old(disconnecting) ==>
                replies == old(replies) + [Callback(old(issued), e.action.hasFn)] && done == old(done) && !freed
      ensures e.Writable? && !freed && connected ==> obuf == (if e.written < old(obuf) then old(obuf) - e.written else 0) && got == old(got)
      ensures !e.Call? && (old(err) || e.ReadFails? || e.WriteFails?) && (old(connected) || e.connect == Established) ==>
                freed && closed == Some(freeing)
      ensures !e.Call? && !old(connected) && e.connect == InProgress ==> !freed && err && replies == old(replies)
    {
      hide Calls, History, LedgerOf, Ends;
      match e
      case Call(Command(hasFn, len)) => var _ := AsyncCommand(hasFn, len);
      case Call(Disconnect) => AsyncDisconnect();
      case Call(Free) => AsyncFree();
      case Readable(connect, input, failed) => HandleRead(connect, false, input, failed);
      case ReadFails(connect) => HandleRead(connect, true, [], false);
      case Writable(connect, written) => HandleWrite(connect, false, written);
      case WriteFails(connect) => HandleWrite(connect, true, 0);
    }

    method HandleAll(events: seq<Event>)
      requires Idle() && !freed && !aborted
      modifies this
      ensures Idle() && old(done) <= done
      ensures old(got) <= got <= old(got) + Arrived(events, old(connected))
      ensures !freed && !aborted ==> got == old(got) + Arrived(events, old(connected))
      ensures State() == AfterEvents(behave, old(State()), events)
    {
      hide Calls, History, AfterEvent, AfterEvents, Arrived, LedgerOf, Ends;
      var i := 0;
      assert events[0..] == events;
      while i < |events| && !freed && !aborted
        invariant 0 <= i <= |events| && Idle() && old(done) <= done && old(got) <= got
        invariant got <= old(got) + Arrived(events, old(connected))
        invariant !freed && !aborted ==> got + Arrived(events[i..], connected) == old(got) + Arrived(events, old(connected))
        invariant AfterEvents(behave, State(), events[i..]) == AfterEvents(behave, old(State()), events)
      {
        ArrivedFirst(events[i..], connected);
        AfterFirst(behave, State(), events[i..]);
        assert events[i..][1..] == events[i + 1..];
        Handle(events[i]);
        i := i + 1;
      }
      NothingMore(behave, State(), events[i..]);
    }

    /** Any run of events, up to the one that frees the context. At any time the callbacks that
        left the queue are the first ones registered; the first of them got the replies that
        arrived, in that order. The context is freed exactly by a cause, and then every callback
        has left; a healthy one stays open. */
    method Run(events: seq<Event>)
      requires Idle() && !freed && !aborted
      modifies this
      ensures Idle() && old(done) <= done
      ensures old(got) <= got <= old(got) + Arrived(events, old(connected))
      ensures freed ==> |done| == issued && replies == []
      ensures !freed && !aborted ==> got == old(got) + Arrived(events, old(connected)) && |done| == |got| == answered
      ensures State() == AfterEvents(behave, old(State()), events)
      ensures !freed && !aborted && !disconnecting ==>
                issued + CommandsOf(behave, old(log)) == old(issued) + CommandEvents(events) + CommandsOf(behave, log)
      ensures freed <==> exists k :: 0 <= k < |events| && TornAt(behave, LedgerOf(old(State())), events, k)
      ensures (forall e <- events :: Healthy(e)) && Awaited(|old(replies)|, events, old(connected))
              && OnlyCommands(behave, log, |old(log)|) && !old(err) && !old(disconnecting) ==>
                !freed && !aborted && !disconnecting
    {
      EveryCommandCounts(behave, State(), events);
      FreedByCause(behave, State(), events);
      StaysOpenIf(behave, State(), events);
      hide Calls, History, LedgerOf, TornAt, Healthy, Awaited, OnlyCommands, CommandsOf, AfterEvents, Arrived, CommandEvents;
      HandleAll(events);
    }
  }

  /** A context from its beginning: the calls a program sees follow the order of registration;
      the call of the k-th registered callback has the k-th reply that arrived, or NULL once the
      context is freed. */
  method Life(behave: Behaviour, events: seq<Event>) returns (c: Context)
    ensures fresh(c) && c.State() == AfterEvents(behave, NEW, events)
    ensures var arrived := Arrived(events, false);
            forall d <- c.log ::
              && d.cb.hasFn && d.cb.id < c.issued
              && match d.reply case Some(r) => d.cb.id < |arrived| && r == arrived[d.cb.id] case None => c.freed
    ensures forall i, j :: 0 <= i < j < |c.log| ==> c.log[i].cb.id < c.log[j].cb.id
    ensures forall d <- c.log, w <- c.replies :: d.cb.id < w.id
    ensures c.freed ==> c.replies == []
    ensures !c.freed && !c.aborted ==> |Arrived(events, false)| + |c.replies| == c.issued
    ensures c.freed <==> exists k :: 0 <= k < |events| && TornAt(behave, LedgerOf(NEW), events, k)
    ensures (forall e <- events :: Healthy(e)) && Awaited(0, events, false) && OnlyCommands(behave, c.log, 0) ==>
              !c.freed && !c.aborted && !c.disconnecting
  {
    hide LedgerOf, TornAt, Healthy, Awaited, OnlyCommands;
    hide Calls, History, AfterEvents, Arrived;
    c := new Context(behave);
    c.Run(events);
    CallsGetReplies(c.done, c.replies, c.got, c.answered, Arrived(events, false));
  }
}
