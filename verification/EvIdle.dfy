/**
 The loop of EvWakeup comes to rest: with the senders at rest and no cell set, what is left in
 the pipe, a skipped write and raised flags are used up, and the loop sleeps.
 */
module EvIdle {
  import opened EvWakeup

  /** Every sender is out of its call and every cell was taken. */
  ghost predicate AtRest(s: State) {
    s.Quiet() && s.sent == {}
  }

  /** What the loop has found out in this iteration is still so. */
  predicate Tidy(s: State) {
    match s.loop
    case Polling(blocking) => blocking <==> !s.skipped
    case ClearWanted(r) => if r then s.pipe > 0 else s.skipped
    case CheckSkipped(r) => if r then s.pipe > 0 else s.skipped
    case Dispatch(r, fed) => fed && if r then s.pipe > 0 else s.skipped
    case DrainPipe => s.pipe > 0
    case _ => true
  }

  /** The steps from here to the next look at the pipe, at most. */
  function Steps(c: Config, l: LoopPc): nat {
    match l
    case DrainPipe => 1
    case Dispatch(_, _) => 2
    case CheckSkipped(_) => 3
    case ClearWanted(_) => 4
    case Polling(_) => 5
    case ReadSkipped => 6
    case Busy => 7
    case Scan(k, n) => 8 + n + Behind(c, k)
    case Take(k, i) => 9 + i + Behind(c, k)
    case LowerFlag(k) => 9 + c.Count(k) + Behind(c, k)
    case TestFlag(k) => 10 + c.Count(k) + Behind(c, k)
    case ResetSkipped => Around(c)
  }

  /** What the scan of the async cells adds to that of the signals. */
  function Behind(c: Config, k: Kind): nat {
    if k == Signal then 3 + c.asyncs else 0
  }

  function Around(c: Config): nat {
    14 + c.signals + c.asyncs
  }

  /** What is left to use up: bytes in the pipe, and a skip until the loop resets it. */
  function Debt(s: State): nat {
    s.pipe + if s.skipped && s.loop != ResetSkipped then 1 else 0
  }

  function Work(c: Config, s: State): nat {
    Debt(s) * Around(c) + Steps(c, s.loop)
  }

  predicate Plain(a: Action) {
    a == Loop(false) || a == Poll(false)
  }

  /** Each step of the loop brings it nearer to its rest. */
  lemma StepSettles(c: Config, s: State, s': State, a: Action)
    requires AtRest(s) && Tidy(s) && !s.Blocked() && Plain(a) && Next(c, s, s', a)
    ensures AtRest(s') && Tidy(s') && Work(c, s') < Work(c, s)
  {
    assert forall t :: s'.Pc(t) == s.Pc(t);
    WorkFalls(c, s, s');
  }

  lemma WorkFalls(c: Config, s: State, s': State)
    requires if Debt(s') < Debt(s) then Steps(c, s'.loop) <= Around(c)
             else Debt(s') == Debt(s) && Steps(c, s'.loop) < Steps(c, s.loop)
    ensures Work(c, s') < Work(c, s)
  {
    if Debt(s') < Debt(s) {
      assert Debt(s') * Around(c) + Around(c) == (Debt(s') + 1) * Around(c) <= Debt(s) * Around(c);
    }
  }

  /** So within that many steps of its own it sleeps, with nothing left in the pipe: the loop
      never spins, whatever was written. */
  lemma {:induction false} ComesToRest(c: Config, states: seq<State>, acts: seq<Action>) returns (i: nat)
    requires IsRun(c, states, acts) && AtRest(states[0]) && Tidy(states[0]) && forall a <- acts :: Plain(a)
    requires |acts| >= Work(c, states[0])
    ensures i <= Work(c, states[0]) && states[i].Blocked() && AtRest(states[i])
    decreases |acts|
  {
    i := 0;
    if !states[0].Blocked() {
      assert acts[0] in acts;
      StepSettles(c, states[0], states[1], acts[0]);
      hide Work, AtRest, Tidy, Plain;
      i := ComesToRest(c, states[1..], acts[1..]);
      i := i + 1;
    }
  }
}
