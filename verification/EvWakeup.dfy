/**
 The wakeup protocol of libev: threads and signal handlers raise a flag with
 `evpipe_write`, the loop thread sleeps in `backend_poll`, and the two meet through
 `pipe_write_wanted`, `pipe_write_skipped` and a self-pipe (or an eventfd).

 One step of the transition system is one access to shared memory; any number of
 senders interleave with the loop in any order.
 */
module EvWakeup {

  /** `sig_pending` and `async_pending` are raised by the same routine. */
  datatype Kind = Signal | Async

  /** One `signals[idx].pending` or one `asyncs[idx]->sent` cell. */
  datatype Item = Item(kind: Kind, idx: nat)

  datatype Channel = EventFd | SelfPipe

  /** The number of signal slots and of async watchers, and the kind of descriptor. */
  datatype Config = Config(signals: nat, asyncs: nat, channel: Channel) {
    function Count(k: Kind): nat {
      if k == Signal then signals else asyncs
    }
  }

  /** The next shared access of a sender. */
  datatype SenderPc =
    | Idle
    | ReadFlag(kind: Kind)
    | SetFlag(kind: Kind)
    | SetSkipped
    | ReadWanted
    | ClearSkipped
    | WritePipe

  /** The next shared access of the loop thread. */
  datatype LoopPc =
    | Busy
    | ReadSkipped
    | Polling(blocking: bool)
    | ClearWanted(readable: bool)
    | CheckSkipped(readable: bool)
    | Dispatch(readable: bool, fed: bool)
    | DrainPipe
    | ResetSkipped
    | TestFlag(kind: Kind)
    | LowerFlag(kind: Kind)
    | Scan(kind: Kind, below: nat)
    | Take(kind: Kind, idx: nat)

  datatype State = State(
    sent: set<Item>,
    flags: set<Kind>,
    skipped: bool,
    wanted: bool,
    pipe: nat,
    senders: map<nat, SenderPc>,
    loop: LoopPc)
  {
    function Pc(t: nat): SenderPc {
      if t in senders then senders[t] else Idle
    }

    ghost predicate Quiet() {
      forall t :: Pc(t) == Idle
    }

    /** Asleep in the backend with nothing that could wake it but a timeout. */
    predicate Blocked() {
      loop == Polling(true) && pipe == 0
    }
  }

  datatype Action =
    | Send(t: nat, item: Item)
    | Sender(t: nat)
    | Poll(interrupted: bool)
    | Loop(nowait: bool)

  predicate Init(s: State) {
    s == State({}, {}, false, false, 0, map[], Busy)
  }

  // ----- senders: ev_async_send, ev_feed_signal, evpipe_write

  predicate SendStep(c: Config, s: State, s': State, t: nat, x: Item) {
    && s.Pc(t) == Idle
    && x.idx < c.Count(x.kind)
    && s' == s.(sent := s.sent + {x}, senders := s.senders[t := ReadFlag(x.kind)])
  }

  /** A write to a full descriptor fails, but then the descriptor is readable. */
  predicate PipeWritten(before: nat, after: nat) {
    after == before + 1 || (before > 0 && after == before)
  }

  predicate SenderStep(s: State, s': State, t: nat) {
    match s.Pc(t)
    case Idle => false
    case ReadFlag(k) =>
      s' == s.(senders := s.senders[t := if k in s.flags then Idle else SetFlag(k)])
    case SetFlag(k) =>
      s' == s.(flags := s.flags + {k}, senders := s.senders[t := SetSkipped])
    case SetSkipped =>
      s' == s.(skipped := true, senders := s.senders[t := ReadWanted])
    case ReadWanted =>
      s' == s.(senders := s.senders[t := if s.wanted then ClearSkipped else Idle])
    case ClearSkipped =>
      s' == s.(skipped := false, senders := s.senders[t := WritePipe])
    case WritePipe =>
      PipeWritten(s.pipe, s'.pipe) && s' == s.(pipe := s'.pipe, senders := s.senders[t := Idle])
  }

  // ----- the loop: the wait section of ev_run, then pipecb

  /** Poll reports the descriptor readable whenever it is, unless interrupted (EINTR).
      It may also return for a timeout or for another descriptor. */
  predicate PollStep(s: State, s': State, interrupted: bool) {
    s.loop.Polling? && s' == s.(loop := ClearWanted(s.pipe > 0 && !interrupted))
  }

  function Drained(c: Config, pipe: nat): nat {
    if c.channel == EventFd || pipe < 4 then 0 else pipe - 4
  }

  function AfterKind(k: Kind): LoopPc {
    if k == Signal then TestFlag(Async) else Busy
  }

  /** `nowait` stands for EVRUN_NOWAIT, an idle watcher, or no active watcher. */
  function LoopStep(c: Config, s: State, nowait: bool): State
    requires !s.loop.Polling?
  {
    match s.loop
    case Busy => s.(wanted := true, loop := ReadSkipped)
    case ReadSkipped => s.(loop := Polling(!nowait && !s.skipped))
    case ClearWanted(r) => s.(wanted := false, loop := CheckSkipped(r))
    case CheckSkipped(r) => s.(loop := Dispatch(r, r || s.skipped))
    case Dispatch(r, fed) => s.(loop := if !fed then Busy else if r then DrainPipe else ResetSkipped)
    case DrainPipe => s.(pipe := Drained(c, s.pipe), loop := ResetSkipped)
    case ResetSkipped => s.(skipped := false, loop := TestFlag(Signal))
    case TestFlag(k) => s.(loop := if k in s.flags then LowerFlag(k) else AfterKind(k))
    case LowerFlag(k) => s.(flags := s.flags - {k}, loop := Scan(k, c.Count(k)))
    case Scan(k, n) =>
      if n == 0 then s.(loop := AfterKind(k))
      else s.(loop := if Item(k, n - 1) in s.sent then Take(k, n - 1) else Scan(k, n - 1))
    case Take(k, i) => s.(sent := s.sent - {Item(k, i)}, loop := Scan(k, i))
  }

  predicate Next(c: Config, s: State, s': State, a: Action) {
    match a
    case Send(t, x) => SendStep(c, s, s', t, x)
    case Sender(t) => SenderStep(s, s', t)
    case Poll(interrupted) => PollStep(s, s', interrupted)
    case Loop(nowait) => !s.loop.Polling? && s' == LoopStep(c, s, nowait)
  }

  /** The watcher handed to ev_feed_event by this step. */
  predicate Feeds(s: State, a: Action, x: Item) {
    a.Loop? && s.loop == Take(x.kind, x.idx)
  }

  // ----- runs

  ghost predicate IsRun(c: Config, states: seq<State>, acts: seq<Action>) {
    && |states| == |acts| + 1
    && forall i :: 0 <= i < |acts| ==> Next(c, states[i], states[i + 1], acts[i])
  }

  ghost predicate Reachable(c: Config, s: State) {
    exists states, acts :: IsRun(c, states, acts) && Init(states[0]) && states[|acts|] == s
  }

  // ----- the invariant

  predicate WillRaise(pc: SenderPc, k: Kind) {
    pc == ReadFlag(k) || pc == SetFlag(k)
  }

  predicate WillWake(pc: SenderPc) {
    pc.SetSkipped? || pc.ClearSkipped? || pc.WritePipe?
  }

  predicate WillNotice(pc: SenderPc) {
    pc.ReadWanted? || pc.ClearSkipped?
  }

  /** The scan in progress has not passed the cell of x yet. */
  predicate Ahead(l: LoopPc, x: Item) {
    (l.Scan? && l.kind == x.kind && x.idx < l.below) || (l.Take? && l.kind == x.kind && x.idx <= l.idx)
  }

  /** The part of pipecb after the pipe was drained and the skip was reset. */
  predicate InCallback(l: LoopPc) {
    l.TestFlag? || l.LowerFlag? || l.Scan? || l.Take?
  }

  /** The loop is inside pipecb, or bound to enter it, and will look at flag k. */
  predicate WillTest(l: LoopPc, k: Kind) {
    match l
    case Dispatch(_, fed) => fed
    case DrainPipe => true
    case ResetSkipped => true
    case TestFlag(j) => k == j || k == Async
    case LowerFlag(j) => k == j || k == Async
    case Scan(j, _) => k == Async && j == Signal
    case Take(j, _) => k == Async && j == Signal
    case _ => false
  }

  // What the senders still owe, over all threads.

  ghost predicate SomeRaises(s: State, k: Kind) {
    exists t :: WillRaise(s.Pc(t), k)
  }

  ghost predicate SomeWakes(s: State) {
    exists t :: WillWake(s.Pc(t))
  }

  ghost predicate SomeNotices(s: State) {
    exists t :: WillNotice(s.Pc(t))
  }

  datatype Debts = Debts(raise: set<Kind>, wake: bool, notice: bool)

  ghost function Owed(s: State): Debts {
    Debts((set k: Kind | SomeRaises(s, k)), SomeWakes(s), SomeNotices(s))
  }

  predicate Announced(s: State, d: Debts, x: Item) {
    x.kind in s.flags || x.kind in d.raise || Ahead(s.loop, x)
  }

  predicate WakePending(s: State, d: Debts, k: Kind) {
    s.skipped || s.pipe > 0 || d.wake || WillTest(s.loop, k)
  }

  predicate LoopInv(c: Config, s: State, d: Debts) {
    && (forall x :: x in s.sent ==> x.idx < c.Count(x.kind) && Announced(s, d, x))
    && (forall k :: k in s.flags ==> WakePending(s, d, k))
    && (s.loop == Polling(true) && s.skipped ==> d.notice)
    && (s.loop.ReadSkipped? || s.loop.Polling? ==> s.wanted)
    && (s.loop.LowerFlag? ==> s.loop.kind in s.flags)
    && (s.loop.Scan? ==> s.loop.below <= c.Count(s.loop.kind))
    && (s.loop.Take? ==> s.loop.idx < c.Count(s.loop.kind) && Item(s.loop.kind, s.loop.idx) in s.sent)
  }

  ghost predicate Inv(c: Config, s: State) {
    LoopInv(c, s, Owed(s))
  }

  /** Moving thread t from one pc to another changes what is owed by at most t's share. */
  lemma OwedAfter(s: State, s': State, t: nat)
    requires s'.senders == s.senders[t := s'.Pc(t)]
    ensures forall k :: SomeRaises(s, k) ==> SomeRaises(s', k) || WillRaise(s.Pc(t), k)
    ensures SomeWakes(s) ==> SomeWakes(s') || WillWake(s.Pc(t))
    ensures SomeNotices(s) ==> SomeNotices(s') || WillNotice(s.Pc(t))
    ensures forall k :: WillRaise(s'.Pc(t), k) ==> SomeRaises(s', k)
    ensures WillWake(s'.Pc(t)) ==> SomeWakes(s')
    ensures WillNotice(s'.Pc(t)) ==> SomeNotices(s')
  {
    assert forall u :: u != t ==> s'.Pc(u) == s.Pc(u);
    forall k | SomeRaises(s, k) ensures SomeRaises(s', k) || WillRaise(s.Pc(t), k) {
      var u :| WillRaise(s.Pc(u), k);
      assert u != t ==> WillRaise(s'.Pc(u), k);
    }
    if SomeWakes(s) {
      var u :| WillWake(s.Pc(u));
      assert u != t ==> WillWake(s'.Pc(u));
    }
    if SomeNotices(s) {
      var u :| WillNotice(s.Pc(u));
      assert u != t ==> WillNotice(s'.Pc(u));
    }
  }

  lemma SendKeepsInv(c: Config, s: State, s': State, t: nat, x: Item)
    requires Inv(c, s) && SendStep(c, s, s', t, x)
    ensures Inv(c, s')
  {
    OwedAfter(s, s', t);
    var d, d' := Owed(s), Owed(s');
    assert forall k :: k in d.raise ==> k in d'.raise;
    assert x.kind in d'.raise;
  }

  lemma SenderKeepsInv(c: Config, s: State, s': State, t: nat)
    requires Inv(c, s) && SenderStep(s, s', t)
    ensures Inv(c, s')
  {
    OwedAfter(s, s', t);
    var d, d' := Owed(s), Owed(s');
    assert forall k :: k in d.raise ==> k in d'.raise || k in s'.flags;
  }

  lemma OwedByLoopStep(s: State, s': State)
    requires s'.senders == s.senders
    ensures Owed(s') == Owed(s)
  {
    assert forall t :: s'.Pc(t) == s.Pc(t);
    assert forall k :: SomeRaises(s', k) == SomeRaises(s, k);
  }

  lemma WaitKeepsInv(c: Config, s: State, s': State, d: Debts, a: Action)
    requires LoopInv(c, s, d) && Next(c, s, s', a)
    requires a.Poll? || (a.Loop? && !InCallback(s.loop))
    ensures LoopInv(c, s', d)
  {
  }

  lemma ScanKeepsInv(c: Config, s: State, s': State, d: Debts, a: Action)
    requires LoopInv(c, s, d) && Next(c, s, s', a)
    requires a.Loop? && InCallback(s.loop)
    ensures LoopInv(c, s', d)
  {
    forall x | x in s'.sent ensures Announced(s', d, x) {
      assert Announced(s, d, x);
    }
    forall k | k in s'.flags ensures WakePending(s', d, k) {
      assert WakePending(s, d, k);
    }
  }

  lemma StepKeepsInv(c: Config, s: State, s': State, a: Action)
    requires Inv(c, s) && Next(c, s, s', a)
    ensures Inv(c, s')
  {
    match a
    case Send(t, x) => SendKeepsInv(c, s, s', t, x);
    case Sender(t) => SenderKeepsInv(c, s, s', t);
    case _ =>
      OwedByLoopStep(s, s');
      if a.Poll? || !InCallback(s.loop) {
        WaitKeepsInv(c, s, s', Owed(s), a);
      } else {
        ScanKeepsInv(c, s, s', Owed(s), a);
      }
  }

  lemma {:induction false} RunKeepsInv(c: Config, states: seq<State>, acts: seq<Action>, n: nat)
    requires IsRun(c, states, acts) && Inv(c, states[0]) && n <= |acts|
    ensures Inv(c, states[n])
  {
    hide Inv;
    if n > 0 {
      RunKeepsInv(c, states, acts, n - 1);
      StepKeepsInv(c, states[n - 1], states[n - 1 + 1], acts[n - 1]);
    }
  }

  lemma ReachableInv(c: Config, s: State)
    requires Reachable(c, s)
    ensures Inv(c, s)
  {
    var states, acts :| IsRun(c, states, acts) && Init(states[0]) && states[|acts|] == s;
    RunKeepsInv(c, states, acts, |acts|);
  }

  // ----- no lost wakeup

  /** The loop never sleeps on an empty pipe while a cell is set, unless some sender is
      still inside its call. */
  lemma NoLostWakeup(c: Config, s: State)
    requires Reachable(c, s) && s.Blocked() && s.Quiet()
    ensures s.sent == {} && s.flags == {} && !s.skipped
  {
    ReachableInv(c, s);
    NothingOwed(s);
    assert forall k :: k in s.flags ==> WakePending(s, Owed(s), k);
    assert forall x :: x in s.sent ==> Announced(s, Owed(s), x);
  }

  /** The loop does sleep: between two iterations, with nothing in the pipe and no skip noted, it
      is blocked after two of its own accesses; otherwise, or if it must not wait, it is not. */
  lemma LoopSleeps(c: Config, s: State, a: Action, s': State, b: Action, s'': State)
    requires s.loop == Busy && a.Loop? && b.Loop? && Next(c, s, s', a) && Next(c, s', s'', b)
    ensures s''.Blocked() <==> !b.nowait && !s.skipped && s.pipe == 0
    ensures s''.wanted && s''.sent == s.sent && s''.flags == s.flags
  {
  }

  /** So a blocked state is reachable, at the very start already. */
  lemma BlockedIsReachable(c: Config) returns (s: State)
    ensures Reachable(c, s) && s.Blocked() && s.Quiet()
  {
    var s0 := State({}, {}, false, false, 0, map[], Busy);
    var s1 := s0.(wanted := true, loop := ReadSkipped);
    s := s1.(loop := Polling(true));
    var states, acts := [s0, s1, s], [Loop(false), Loop(false)];
    assert IsRun(c, states, acts) && Init(states[0]) && states[|acts|] == s;
  }

  lemma NothingOwed(s: State)
    requires s.Quiet()
    ensures Owed(s) == Debts({}, false, false)
  {
    assert forall k :: !SomeRaises(s, k);
  }

  /** Senders left to finish their calls make the pipe readable for a sleeping loop. */
  lemma SendersWakeTheLoop(c: Config, states: seq<State>, acts: seq<Action>, x: Item)
    requires IsRun(c, states, acts) && Reachable(c, states[0])
    requires states[0].loop == Polling(true) && x in states[0].sent
    requires forall i :: 0 <= i < |acts| ==> acts[i].Send? || acts[i].Sender?
    requires states[|acts|].Quiet()
    ensures states[|acts|].pipe > 0
  {
    ReachableInv(c, states[0]);
    RunKeepsInv(c, states, acts, |acts|);
    SendersLeaveLoop(c, states, acts, x, |acts|);
    var s := states[|acts|];
    NothingOwed(s);
    assert Announced(s, Owed(s), x);
    assert WakePending(s, Owed(s), x.kind);
  }

  lemma {:induction false} SendersLeaveLoop(c: Config, states: seq<State>, acts: seq<Action>, x: Item, n: nat)
    requires IsRun(c, states, acts) && n <= |acts| && x in states[0].sent
    requires forall i :: 0 <= i < |acts| ==> acts[i].Send? || acts[i].Sender?
    ensures states[n].loop == states[0].loop && x in states[n].sent
  {
    if n > 0 {
      SendersLeaveLoop(c, states, acts, x, n - 1);
      assert Next(c, states[n - 1], states[n - 1 + 1], acts[n - 1]);
    }
  }

  // ----- every send is followed by a feed

  /** How far the loop is from the end of one iteration. */
  function Distance(c: Config, l: LoopPc): nat {
    var tail := 2 * c.asyncs;
    var both := tail + 2 * c.signals;
    match l
    case Scan(k, n) => if k == Async then 2 * n + 1 else tail + 4 + 2 * n
    case Take(k, i) => if k == Async then 2 * i + 2 else tail + 5 + 2 * i
    case LowerFlag(k) => if k == Async then tail + 2 else both + 5
    case TestFlag(k) => if k == Async then tail + 3 else both + 6
    case ResetSkipped => both + 7
    case DrainPipe => both + 8
    case Dispatch(_, _) => both + 9
    case CheckSkipped(_) => both + 10
    case ClearWanted(_) => both + 11
    case Polling(_) => both + 12
    case ReadSkipped => both + 13
    case Busy => both + 14
  }

  function Cycle(c: Config): nat {
    2 * c.asyncs + 2 * c.signals + 14
  }

  /** This iteration of the loop will end without feeding x. */
  predicate Missed(s: State, x: Item) {
    match s.loop
    case ClearWanted(r) => !r && !s.skipped
    case CheckSkipped(r) => !r && !s.skipped
    case Dispatch(_, fed) => !fed
    case TestFlag(k) => k == Async && x.kind == Signal
    case LowerFlag(k) => k == Async && x.kind == Signal
    case Scan(k, _) => if k == x.kind then !Ahead(s.loop, x) else k == Async
    case Take(k, _) => if k == x.kind then !Ahead(s.loop, x) else k == Async
    case _ => false
  }

  function Rank(c: Config, s: State, x: Item): nat {
    Distance(c, s.loop) + if Missed(s, x) then Cycle(c) else 0
  }

  // ----- a tighter bound when the senders rest

  /** With the senders at rest, each loop step comes closer to feeding x. */
  lemma QuietProgress(c: Config, s: State, s': State, a: Action, x: Item)
    requires Inv(c, s) && s.Quiet() && x in s.sent && Next(c, s, s', a)
    requires a.Loop? || a == Poll(false)
    requires !Feeds(s, a, x)
    ensures x in s'.sent && s'.Quiet() && Rank(c, s', x) < Rank(c, s, x)
  {
    NothingOwed(s);
    assert forall t :: s'.Pc(t) == s.Pc(t);
    if a.Loop? && InCallback(s.loop) {
      assert Announced(s, Owed(s), x);
      if s.loop.Scan? {
        ScanRank(c, s, s', x);
      } else if s.loop.Take? {
        TakeRank(c, s, s', x);
      } else {
        FlagRank(c, s, s', x);
      }
    } else {
      WaitRank(c, s, s', a, x);
    }
  }

  lemma WaitRank(c: Config, s: State, s': State, a: Action, x: Item)
    requires LoopInv(c, s, Debts({}, false, false)) && x in s.sent && Next(c, s, s', a)
    requires a == Poll(false) || (a.Loop? && !InCallback(s.loop))
    ensures x in s'.sent && Rank(c, s', x) < Rank(c, s, x)
  {
    assert Announced(s, Debts({}, false, false), x);
    assert WakePending(s, Debts({}, false, false), x.kind);
  }

  lemma FlagRank(c: Config, s: State, s': State, x: Item)
    requires (s.loop.TestFlag? || s.loop.LowerFlag?) && s' == LoopStep(c, s, false)
    requires x.idx < c.Count(x.kind) && x.kind in s.flags
    ensures Rank(c, s', x) < Rank(c, s, x)
  {
  }

  lemma ScanRank(c: Config, s: State, s': State, x: Item)
    requires s.loop.Scan? && s' == LoopStep(c, s, false)
    requires x in s.sent && (x.kind in s.flags || Ahead(s.loop, x))
    ensures Rank(c, s', x) < Rank(c, s, x)
  {
    var n := s.loop.below;
    if n > 0 && Item(s.loop.kind, n - 1) !in s.sent {
      assert s'.loop == Scan(s.loop.kind, n - 1) && x != Item(s.loop.kind, n - 1);
    }
  }

  lemma TakeRank(c: Config, s: State, s': State, x: Item)
    requires s.loop.Take? && s' == LoopStep(c, s, false) && s.loop != Take(x.kind, x.idx)
    ensures Rank(c, s', x) < Rank(c, s, x)
  {
  }

  /** The loop never needs a timeout to take its next step towards x. */
  lemma LoopEnabled(c: Config, s: State, x: Item)
    requires Reachable(c, s) && s.Quiet() && x in s.sent
    ensures !s.Blocked()
  {
    if s.Blocked() {
      NoLostWakeup(c, s);
    }
  }

  /** Once the senders rest, a set cell is fed within two iterations of the loop. */
  lemma QuietSendIsFed(c: Config, states: seq<State>, acts: seq<Action>, x: Item)
    requires IsRun(c, states, acts) && Reachable(c, states[0]) && states[0].Quiet() && x in states[0].sent
    requires forall i :: 0 <= i < |acts| ==> acts[i].Loop? || acts[i] == Poll(false)
    requires |acts| > 2 * Cycle(c)
    ensures exists i :: 0 <= i < |acts| && Feeds(states[i], acts[i], x)
  {
    ReachableInv(c, states[0]);
    if forall i :: 0 <= i < |acts| ==> !Feeds(states[i], acts[i], x) {
      QuietRankFalls(c, states, acts, x, |acts|);
    }
  }

  lemma {:induction false} QuietRankFalls(c: Config, states: seq<State>, acts: seq<Action>, x: Item, n: nat)
    requires IsRun(c, states, acts) && n <= |acts|
    requires Inv(c, states[0]) && states[0].Quiet() && x in states[0].sent
    requires forall i :: 0 <= i < |acts| ==> acts[i].Loop? || acts[i] == Poll(false)
    requires forall i :: 0 <= i < |acts| ==> !Feeds(states[i], acts[i], x)
    ensures Inv(c, states[n]) && states[n].Quiet() && x in states[n].sent
    ensures Rank(c, states[n], x) + n <= 2 * Cycle(c)
  {
    if n > 0 {
      QuietRankFalls(c, states, acts, x, n - 1);
      StepKeepsInv(c, states[n - 1], states[n - 1 + 1], acts[n - 1]);
      QuietProgress(c, states[n - 1], states[n - 1 + 1], acts[n - 1], x);
    }
  }

  // ----- every send is followed by a feed, under load

  /** Nothing but the loop itself can keep x from being fed: the scan is on its way to the
      cell, or the flag is up and the loop will look at it. */
  predicate Secured(s: State, x: Item) {
    x in s.sent && (Ahead(s.loop, x) || (x.kind in s.flags && (s.pipe > 0 || WillTest(s.loop, x.kind))))
  }

  /** The iteration in progress ends without feeding x unless a skip is noticed. */
  predicate Passed(l: LoopPc, x: Item) {
    match l
    case ClearWanted(r) => !r
    case CheckSkipped(r) => !r
    case Dispatch(_, fed) => !fed
    case TestFlag(k) => k == Async && x.kind == Signal
    case LowerFlag(k) => k == Async && x.kind == Signal
    case Scan(k, _) => if k == x.kind then !Ahead(l, x) else k == Async
    case Take(k, _) => if k == x.kind then !Ahead(l, x) else k == Async
    case _ => false
  }

  function LoadRank(c: Config, l: LoopPc, x: Item): nat {
    Distance(c, l) + if Passed(l, x) then Cycle(c) else 0
  }

  /** No step of a sender undoes a secured cell; it does not move the loop either. */
  lemma SendersKeepSecured(c: Config, s: State, s': State, a: Action, x: Item)
    requires Secured(s, x) && Next(c, s, s', a) && (a.Send? || a.Sender?)
    ensures Secured(s', x) && s'.loop == s.loop
  {
  }

  /** Whatever the senders do, each loop step feeds a secured cell or comes closer to it; an
      interrupted poll costs one iteration. */
  lemma LoopProgress(c: Config, s: State, s': State, a: Action, x: Item)
    requires Inv(c, s) && Secured(s, x) && Next(c, s, s', a) && (a.Loop? || a.Poll?)
    requires !Feeds(s, a, x)
    ensures Secured(s', x)
    ensures LoadRank(c, s'.loop, x) < LoadRank(c, s.loop, x) + if a == Poll(true) then Cycle(c) else 0
  {
    assert x.idx < c.Count(x.kind);
    hide Inv, Secured, LoadRank;
    if a.Poll? || !InCallback(s.loop) {
      WaitProgress(c, s, s', a, x);
    } else if s.loop.Scan? {
      ScanProgress(c, s, s', x);
    } else {
      CallbackProgress(c, s, s', x);
    }
  }

  lemma WaitProgress(c: Config, s: State, s': State, a: Action, x: Item)
    requires Secured(s, x) && Next(c, s, s', a) && (a.Poll? || (a.Loop? && !InCallback(s.loop)))
    ensures Secured(s', x)
    ensures LoadRank(c, s'.loop, x) < LoadRank(c, s.loop, x) + if a == Poll(true) then Cycle(c) else 0
  {
  }

  lemma ScanProgress(c: Config, s: State, s': State, x: Item)
    requires Secured(s, x) && s.loop.Scan? && s' == LoopStep(c, s, false)
    ensures Secured(s', x) && LoadRank(c, s'.loop, x) < LoadRank(c, s.loop, x)
  {
    var n := s.loop.below;
    if n > 0 && Item(s.loop.kind, n - 1) !in s.sent {
      assert s'.loop == Scan(s.loop.kind, n - 1) && x != Item(s.loop.kind, n - 1);
    }
  }

  lemma CallbackProgress(c: Config, s: State, s': State, x: Item)
    requires Secured(s, x) && x.idx < c.Count(x.kind) && s.loop != Take(x.kind, x.idx)
    requires (s.loop.TestFlag? || s.loop.LowerFlag? || s.loop.Take?) && s' == LoopStep(c, s, false)
    ensures Secured(s', x) && LoadRank(c, s'.loop, x) < LoadRank(c, s.loop, x)
  {
  }

  lemma RankBound(c: Config, s: State, x: Item)
    requires Inv(c, s)
    ensures LoadRank(c, s.loop, x) <= 2 * Cycle(c)
  {
  }

  predicate IsLoopAct(a: Action) {
    a.Loop? || a.Poll?
  }

  function LoopSteps(acts: seq<Action>): nat {
    if acts == [] then 0 else LoopSteps(acts[..|acts| - 1]) + if IsLoopAct(acts[|acts| - 1]) then 1 else 0
  }

  /** The steps granted for interrupted polls: one iteration each. */
  function Grace(c: Config, acts: seq<Action>): nat {
    if acts == [] then 0 else Grace(c, acts[..|acts| - 1]) + if acts[|acts| - 1] == Poll(true) then Cycle(c) else 0
  }

  ghost predicate Unfed(states: seq<State>, acts: seq<Action>, x: Item, i: nat, j: nat) {
    i <= j <= |acts| <= |states| && forall k :: i <= k < j ==> !Feeds(states[k], acts[k], x)
  }

  lemma {:induction false} RankFalls(c: Config, states: seq<State>, acts: seq<Action>, x: Item, n: nat)
    requires IsRun(c, states, acts) && n <= |acts| && Inv(c, states[0]) && Secured(states[0], x)
    requires Unfed(states, acts, x, 0, n)
    ensures Inv(c, states[n]) && Secured(states[n], x)
    ensures LoadRank(c, states[n].loop, x) + LoopSteps(acts[..n]) <= 2 * Cycle(c) + Grace(c, acts[..n])
  {
    hide Inv, Secured, Next;
    if n > 0 {
      RankFalls(c, states, acts, x, n - 1);
      var a := acts[n - 1];
      assert Next(c, states[n - 1], states[n - 1 + 1], a);
      StepKeepsInv(c, states[n - 1], states[n], a);
      assert acts[..n][..n - 1] == acts[..n - 1];
      assert !Feeds(states[n - 1], a, x);
      if IsLoopAct(a) {
        LoopProgress(c, states[n - 1], states[n], a, x);
      } else {
        SendersKeepSecured(c, states[n - 1], states[n], a, x);
      }
    } else {
      RankBound(c, states[0], x);
    }
  }

  /** With any number of sends and sender steps in between, a secured cell is fed within two
      iterations of the loop, and one more for each interrupted poll. */
  lemma SecuredIsFed(c: Config, states: seq<State>, acts: seq<Action>, x: Item)
    requires IsRun(c, states, acts) && Reachable(c, states[0]) && Secured(states[0], x)
    requires LoopSteps(acts) > 2 * Cycle(c) + Grace(c, acts)
    ensures exists i :: 0 <= i < |acts| && Feeds(states[i], acts[i], x)
  {
    ReachableInv(c, states[0]);
    assert acts[..|acts|] == acts;
    if Unfed(states, acts, x, 0, |acts|) {
      RankFalls(c, states, acts, x, |acts|);
    }
  }

  // A cell is secured in stages; each of them is stable.

  /** The flag of x is up, or the scan is on its way to the cell. */
  predicate Raised(s: State, x: Item) {
    x in s.sent && (x.kind in s.flags || Ahead(s.loop, x))
  }

  /** Bound to write the pipe. */
  predicate WillWrite(pc: SenderPc) {
    pc.ClearSkipped? || pc.WritePipe?
  }

  ghost predicate SomeWrites(s: State) {
    exists t :: WillWrite(s.Pc(t))
  }

  /** The wakeup for x is recorded: in the pipe, in a sender about to write it, or as a skip. */
  ghost predicate Noted(s: State, x: Item) {
    Raised(s, x) && (Secured(s, x) || s.skipped || SomeWrites(s))
  }

  /** Before the loop has looked for skips in this iteration. */
  predicate BeforeCheck(l: LoopPc) {
    l.ReadSkipped? || l.Polling? || l.ClearWanted? || l.CheckSkipped?
  }

  /** Noted, and a skip is noticed in this iteration. */
  ghost predicate Caught(s: State, x: Item) {
    Raised(s, x) && (Secured(s, x) || SomeWrites(s) || (s.skipped && BeforeCheck(s.loop)))
  }

  lemma WritesAfter(s: State, s': State, a: Action, c: Config)
    requires Next(c, s, s', a) && SomeWrites(s)
    ensures SomeWrites(s') || s'.pipe > 0
  {
    var u :| WillWrite(s.Pc(u));
    if !((a.Sender? || a.Send?) && a.t == u) {
      assert s'.Pc(u) == s.Pc(u);
    } else {
      assert s'.Pc(u) == WritePipe || s'.pipe > 0;
    }
  }

  lemma RaisedStays(c: Config, s: State, s': State, a: Action, x: Item)
    requires Inv(c, s) && Next(c, s, s', a) && Raised(s, x) && !Feeds(s, a, x)
    ensures Raised(s', x)
  {
    assert x.idx < c.Count(x.kind);
    hide Inv;
    if s.loop.Scan? && s.loop.below > 0 && Item(s.loop.kind, s.loop.below - 1) !in s.sent {
      assert x != Item(s.loop.kind, s.loop.below - 1);
    }
  }

  lemma SecuredStays(c: Config, s: State, s': State, a: Action, x: Item)
    requires Inv(c, s) && Next(c, s, s', a) && Secured(s, x) && !Feeds(s, a, x)
    ensures Secured(s', x)
  {
    hide Inv, Secured;
    if IsLoopAct(a) {
      LoopProgress(c, s, s', a, x);
    } else {
      SendersKeepSecured(c, s, s', a, x);
    }
  }

  /** A skip is cleared only by a sender that goes on to write the pipe, or by pipecb. */
  lemma SkipAfter(c: Config, s: State, s': State, a: Action, x: Item)
    requires Next(c, s, s', a) && s.skipped && Raised(s, x) && Raised(s', x)
    ensures s'.skipped || SomeWrites(s') || Secured(s', x)
  {
    if a.Sender? && s.Pc(a.t).ClearSkipped? {
      assert WillWrite(s'.Pc(a.t));
    }
  }

  lemma PipeSecures(s: State, x: Item)
    requires Raised(s, x) && s.pipe > 0
    ensures Secured(s, x)
  {
  }

  lemma NotedStays(c: Config, s: State, s': State, a: Action, x: Item)
    requires Inv(c, s) && Next(c, s, s', a) && Noted(s, x) && !Feeds(s, a, x)
    ensures Noted(s', x)
  {
    RaisedStays(c, s, s', a, x);
    hide Inv, Next, Raised, Secured;
    if Secured(s, x) {
      SecuredStays(c, s, s', a, x);
    } else if SomeWrites(s) {
      WritesAfter(s, s', a, c);
      if s'.pipe > 0 {
        PipeSecures(s', x);
      }
    } else {
      SkipAfter(c, s, s', a, x);
    }
  }

  /** The check for skips enters pipecb. */
  lemma CaughtStays(c: Config, s: State, s': State, a: Action, x: Item)
    requires Inv(c, s) && Next(c, s, s', a) && Caught(s, x) && !Feeds(s, a, x)
    ensures Caught(s', x)
  {
    RaisedStays(c, s, s', a, x);
    if Secured(s, x) {
      SecuredStays(c, s, s', a, x);
    } else if SomeWrites(s) {
      WritesAfter(s, s', a, c);
    } else {
      SkipAfter(c, s, s', a, x);
      hide Inv;
    }
  }

  // Stages that hang on one sender end when that sender is done.

  predicate RaisedBy(s: State, x: Item, t: nat) {
    x in s.sent && (Raised(s, x) || WillRaise(s.Pc(t), x.kind))
  }

  ghost predicate NotedBy(s: State, x: Item, t: nat) {
    Raised(s, x) && (Noted(s, x) || s.Pc(t).SetSkipped?)
  }

  predicate SecuredBy(s: State, x: Item, t: nat) {
    Raised(s, x) && (Secured(s, x) || WillWrite(s.Pc(t)))
  }

  lemma RaisedByStays(c: Config, s: State, s': State, a: Action, x: Item, t: nat)
    requires Inv(c, s) && Next(c, s, s', a) && RaisedBy(s, x, t) && !Feeds(s, a, x)
    ensures RaisedBy(s', x, t)
  {
    if Raised(s, x) {
      RaisedStays(c, s, s', a, x);
    }
    hide Inv;
  }

  lemma NotedByStays(c: Config, s: State, s': State, a: Action, x: Item, t: nat)
    requires Inv(c, s) && Next(c, s, s', a) && NotedBy(s, x, t) && !Feeds(s, a, x)
    ensures NotedBy(s', x, t)
  {
    RaisedStays(c, s, s', a, x);
    if Noted(s, x) {
      NotedStays(c, s, s', a, x);
    }
    hide Inv;
  }

  lemma SecuredByStays(c: Config, s: State, s': State, a: Action, x: Item, t: nat)
    requires Inv(c, s) && Next(c, s, s', a) && SecuredBy(s, x, t) && !Feeds(s, a, x)
    ensures SecuredBy(s', x, t)
  {
    RaisedStays(c, s, s', a, x);
    if Secured(s, x) {
      SecuredStays(c, s, s', a, x);
    }
    hide Inv;
  }

  /** On the way to the feed, out of reach of anything but an interrupted poll. */
  predicate OnTheWay(s: State, x: Item) {
    Secured(s, x) && !Passed(s.loop, x) && !s.loop.Busy?
  }

  lemma OnTheWayStays(c: Config, s: State, s': State, a: Action, x: Item)
    requires Inv(c, s) && Next(c, s, s', a) && OnTheWay(s, x) && !Feeds(s, a, x) && a != Poll(true)
    ensures OnTheWay(s', x)
  {
    SecuredStays(c, s, s', a, x);
    assert x.idx < c.Count(x.kind);
    hide Inv;
  }

  // ----- stages along a run

  datatype Stage = Raising(t: nat) | Up | Noting(t: nat) | Recorded | Catching | Writing(t: nat) | Safe | Leaving

  ghost predicate Holds(s: State, x: Item, g: Stage) {
    match g
    case Raising(t) => RaisedBy(s, x, t)
    case Up => Raised(s, x)
    case Noting(t) => NotedBy(s, x, t)
    case Recorded => Noted(s, x)
    case Catching => Caught(s, x)
    case Writing(t) => SecuredBy(s, x, t)
    case Safe => Secured(s, x)
    case Leaving => OnTheWay(s, x)
  }

  lemma StageStays(c: Config, s: State, s': State, a: Action, x: Item, g: Stage)
    requires Inv(c, s) && Next(c, s, s', a) && Holds(s, x, g) && !Feeds(s, a, x) && (g.Leaving? ==> a != Poll(true))
    ensures Holds(s', x, g)
  {
    hide Inv, Next, Raised, RaisedBy, Noted, NotedBy, Caught, SecuredBy, Secured, OnTheWay;
    match g
    case Raising(t) => RaisedByStays(c, s, s', a, x, t);
    case Up => RaisedStays(c, s, s', a, x);
    case Noting(t) => NotedByStays(c, s, s', a, x, t);
    case Recorded => NotedStays(c, s, s', a, x);
    case Catching => CaughtStays(c, s, s', a, x);
    case Writing(t) => SecuredByStays(c, s, s', a, x, t);
    case Safe => SecuredStays(c, s, s', a, x);
    case Leaving => OnTheWayStays(c, s, s', a, x);
  }

  /** A run in which x is never fed, from reachable states on. */
  ghost predicate Starving(c: Config, states: seq<State>, acts: seq<Action>, x: Item) {
    IsRun(c, states, acts) && Inv(c, states[0]) && Unfed(states, acts, x, 0, |acts|)
  }

  lemma {:induction false} StageLasts(c: Config, states: seq<State>, acts: seq<Action>, x: Item, g: Stage, i: nat, j: nat)
    requires Starving(c, states, acts, x) && i <= j <= |acts| && Holds(states[i], x, g)
    requires g.Leaving? ==> forall k :: i <= k < j ==> acts[k] != Poll(true)
    ensures Holds(states[j], x, g)
    decreases j - i
  {
    hide Holds, Inv;
    if i < j {
      StageLasts(c, states, acts, x, g, i, j - 1);
      RunKeepsInv(c, states, acts, j - 1);
      assert Next(c, states[j - 1], states[j - 1 + 1], acts[j - 1]);
      assert !Feeds(states[j - 1], acts[j - 1], x);
      hide Next;
      StageStays(c, states[j - 1], states[j], acts[j - 1], x, g);
    }
  }

  /** From i to j the loop leaves Busy and comes back, and every sender that is inside its call
      at i is done at some time. */
  ghost predicate FairTurn(states: seq<State>, acts: seq<Action>, i: nat, j: nat) {
    && i < j <= |acts| < |states|
    && states[i].loop == Busy && acts[i].Loop? && states[j].loop == Busy
    && forall t :: Finishes(states, i, j, t)
  }

  ghost predicate Finishes(states: seq<State>, i: nat, j: nat, t: nat)
    requires i <= j < |states|
  {
    exists m :: i <= m <= j && states[m].Pc(t) == Idle
  }

  /** A set cell has its flag up one turn later. */
  lemma TurnRaises(c: Config, states: seq<State>, acts: seq<Action>, x: Item, i: nat, j: nat)
    requires Starving(c, states, acts, x) && FairTurn(states, acts, i, j) && x in states[i].sent
    ensures Raised(states[j], x)
  {
    RunKeepsInv(c, states, acts, i);
    assert Announced(states[i], Owed(states[i]), x);
    if Raised(states[i], x) {
      StageLasts(c, states, acts, x, Up, i, j);
    } else {
      var t :| WillRaise(states[i].Pc(t), x.kind);
      assert Finishes(states, i, j, t);
      var m :| i <= m <= j && states[m].Pc(t) == Idle;
      hide Inv;
      StageLasts(c, states, acts, x, Raising(t), i, m);
      StageLasts(c, states, acts, x, Up, m, j);
    }
  }

  /** A raised flag has its wakeup recorded one turn later. */
  lemma TurnNotes(c: Config, states: seq<State>, acts: seq<Action>, x: Item, i: nat, j: nat)
    requires Starving(c, states, acts, x) && FairTurn(states, acts, i, j) && Raised(states[i], x)
    ensures Noted(states[j], x)
  {
    RunKeepsInv(c, states, acts, i);
    assert WakePending(states[i], Owed(states[i]), x.kind);
    hide Inv;
    if Noted(states[i], x) {
      StageLasts(c, states, acts, x, Recorded, i, j);
    } else {
      var t :| WillWake(states[i].Pc(t));
      assert !WillWrite(states[i].Pc(t));
      assert Finishes(states, i, j, t);
      var m :| i <= m <= j && states[m].Pc(t) == Idle;
      StageLasts(c, states, acts, x, Noting(t), i, m);
      StageLasts(c, states, acts, x, Recorded, m, j);
    }
  }

  /** A recorded wakeup is in the pipe, or about to be written, one turn later. */
  lemma TurnCatches(c: Config, states: seq<State>, acts: seq<Action>, x: Item, i: nat, j: nat)
    requires Starving(c, states, acts, x) && FairTurn(states, acts, i, j) && Noted(states[i], x)
    ensures Secured(states[j], x) || (Raised(states[j], x) && SomeWrites(states[j]))
  {
    RunKeepsInv(c, states, acts, i);
    assert Next(c, states[i], states[i + 1], acts[i]) && !Feeds(states[i], acts[i], x);
    NotedStays(c, states[i], states[i + 1], acts[i], x);
    assert Caught(states[i + 1], x);
    hide Inv;
    StageLasts(c, states, acts, x, Catching, i + 1, j);
  }

  /** And in the pipe one turn after that. */
  lemma TurnSecures(c: Config, states: seq<State>, acts: seq<Action>, x: Item, i: nat, j: nat)
    requires Starving(c, states, acts, x) && FairTurn(states, acts, i, j)
    requires Secured(states[i], x) || (Raised(states[i], x) && SomeWrites(states[i]))
    ensures Secured(states[j], x)
  {
    hide Inv;
    if Secured(states[i], x) {
      StageLasts(c, states, acts, x, Safe, i, j);
    } else {
      var t :| WillWrite(states[i].Pc(t));
      assert Finishes(states, i, j, t);
      var m :| i <= m <= j && states[m].Pc(t) == Idle;
      StageLasts(c, states, acts, x, Writing(t), i, m);
      StageLasts(c, states, acts, x, Safe, m, j);
    }
  }

  /** A cell that is secured at the start of an iteration is fed in it. */
  lemma TurnFeeds(c: Config, states: seq<State>, acts: seq<Action>, x: Item, i: nat, j: nat)
    requires Starving(c, states, acts, x) && FairTurn(states, acts, i, j) && Secured(states[i], x)
    ensures exists k :: i <= k < j && acts[k] == Poll(true)
  {
    RunKeepsInv(c, states, acts, i);
    assert Next(c, states[i], states[i + 1], acts[i]) && !Feeds(states[i], acts[i], x);
    SecuredStays(c, states[i], states[i + 1], acts[i], x);
    hide Inv;
    if forall k :: i <= k < j ==> acts[k] != Poll(true) {
      StageLasts(c, states, acts, x, Leaving, i + 1, j);
    }
  }

  /** Any five turns of the loop from a reachable state on, whatever is sent meanwhile and however
      the steps interleave: if every sender that is inside its call at the start of a turn is
      done with it before the next one, a cell that is set at the start is fed in them, provided
      the poll of the last one is not interrupted. */
  lemma EverySendIsFed(c: Config, states: seq<State>, acts: seq<Action>, x: Item, b: seq<nat>)
    requires IsRun(c, states, acts) && Reachable(c, states[0])
    requires |b| == 6 && b[0] == 0 && b[5] == |acts| && FairTurn(states, acts, b[0], b[1]) && FairTurn(states, acts, b[1], b[2])
    requires FairTurn(states, acts, b[2], b[3]) && FairTurn(states, acts, b[3], b[4]) && FairTurn(states, acts, b[4], b[5])
    requires forall k :: b[4] <= k < b[5] ==> acts[k] != Poll(true)
    requires x in states[0].sent
    ensures exists i :: 0 <= i < |acts| && Feeds(states[i], acts[i], x)
  {
    ReachableInv(c, states[0]);
    if Unfed(states, acts, x, 0, |acts|) {
      assert Starving(c, states, acts, x);
      hide IsRun, Inv, FairTurn, Secured, Raised, Noted, SomeWrites;
      TurnRaises(c, states, acts, x, b[0], b[1]);
      TurnNotes(c, states, acts, x, b[1], b[2]);
      TurnCatches(c, states, acts, x, b[2], b[3]);
      TurnSecures(c, states, acts, x, b[3], b[4]);
      TurnFeeds(c, states, acts, x, b[4], b[5]);
    }
  }

  // ----- conservation: sends are merged, never invented

  function Sends(acts: seq<Action>, x: Item): nat {
    if acts == [] then 0
    else Sends(acts[..|acts| - 1], x) + if acts[|acts| - 1].Send? && acts[|acts| - 1].item == x then 1 else 0
  }

  function FeedCount(states: seq<State>, acts: seq<Action>, x: Item): nat
    requires |states| == |acts| + 1
  {
    if acts == [] then 0
    else
      var n := |acts| - 1;
      FeedCount(states[..n + 1], acts[..n], x) + if Feeds(states[n], acts[n], x) then 1 else 0
  }

  /** A feed takes a cell that is set. */
  lemma TakenIsSet(c: Config, s: State, a: Action, x: Item)
    requires Inv(c, s) && Feeds(s, a, x)
    ensures x in s.sent
  {
  }

  lemma StepConserves(c: Config, s: State, s': State, a: Action, x: Item)
    requires Inv(c, s) && Next(c, s, s', a)
    ensures (if Feeds(s, a, x) then 1 else 0) + (if x in s'.sent then 1 else 0)
            <= (if x in s.sent then 1 else 0) + if a.Send? && a.item == x then 1 else 0
  {
    if Feeds(s, a, x) {
      TakenIsSet(c, s, a, x);
    }
    hide Inv;
  }

  lemma {:induction false} FeedsNeverExceedSends(c: Config, states: seq<State>, acts: seq<Action>, x: Item)
    requires IsRun(c, states, acts) && Init(states[0])
    ensures FeedCount(states, acts, x) + (if x in states[|acts|].sent then 1 else 0) <= Sends(acts, x)
  {
    hide Next;
    if acts != [] {
      var n := |acts| - 1;
      var before, done := states[..n + 1], acts[..n];
      FeedsNeverExceedSends(c, before, done, x);
      RunKeepsInv(c, states, acts, n);
      hide Inv;
      StepConserves(c, states[n], states[n + 1], acts[n], x);
      assert before[n] == states[n];
    }
  }
}
