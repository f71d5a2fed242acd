/**
 The pending queues of libev as values, one per priority, and the order in which
 ev_invoke_pending runs callbacks that feed and clear events themselves.
 */
module EvPending {
  import opened Bytes
  import opened EvTimerHeap

  type Queues = seq<seq<Anpending>>

  /** The slot of a watcher in a queue, or the length of the queue. */
  function SlotOf(q: seq<Anpending>, w: Watcher): (i: nat)
    ensures i <= |q|
    ensures i < |q| ==> q[i].w == w
    ensures forall j :: 0 <= j < i ==> q[j].w != w
  {
    if q == [] then 0
    else if q[0].w == w then 0
    else 1 + SlotOf(q[1..], w)
  }

  /** Feeding merges with the event already queued, or queues a new one. */
  function Fed(q: seq<Anpending>, w: Watcher, events: bv32): seq<Anpending> {
    var i := SlotOf(q, w);
    if i < |q| then q[i := Anpending(w, Or(q[i].events, events))] else q + [Anpending(w, events)]
  }

  /** Masks are merged bit by bit. */
  function Or(a: bv32, b: bv32): bv32 {
    a | b
  }

  lemma OrLaws(a: bv32, b: bv32, c: bv32)
    ensures Or(Or(a, b), c) == Or(a, Or(b, c)) && Or(0, a) == a && Or(a, 0) == a
  {
  }

  /** Clearing leaves a dummy in the slot. */
  function Cleared(q: seq<Anpending>, w: Watcher, dummy: Watcher): seq<Anpending> {
    var i := SlotOf(q, w);
    if i < |q| then q[i := Anpending(dummy, q[i].events)] else q
  }

  /** What a callback may do: feed or clear an event, start, stop or restart a timer. */
  datatype Reaction =
    | Feed(w: Watcher, events: bv32)
    | Clear(w: Watcher)
    | Start(w: Watcher)
    | Stop(w: Watcher)
    | Again(w: Watcher)

  /** ev_timer_stop and ev_timer_again clear the event of their watcher, too. */
  predicate Clears(r: Reaction, w: Watcher) {
    r.w == w && !r.Feed? && !r.Start?
  }

  /** The effect on the queues. */
  function React(qs: Queues, r: Reaction, dummy: Watcher): Queues {
    if r.w.pri >= |qs| || r.Start? then qs
    else if r.Feed? then qs[r.w.pri := Fed(qs[r.w.pri], r.w, r.events)]
    else qs[r.w.pri := Cleared(qs[r.w.pri], r.w, dummy)]
  }

  function ReactAll(qs: Queues, rs: seq<Reaction>, dummy: Watcher): Queues {
    if rs == [] then qs else React(ReactAll(qs, rs[..|rs| - 1], dummy), rs[|rs| - 1], dummy)
  }

  /** The highest priority below n with something queued, or -1. */
  function Highest(qs: Queues, n: nat): (p: int)
    requires n <= |qs|
    ensures -1 <= p < n
    ensures p >= 0 ==> qs[p] != []
    ensures forall q :: p < q < n ==> qs[q] == []
  {
    if n == 0 then -1 else if qs[n - 1] != [] then n - 1 else Highest(qs, n - 1)
  }

  function Total(qs: Queues): nat {
    if qs == [] then 0 else |qs[0]| + Total(qs[1..])
  }

  function PopAt(qs: Queues, p: nat): Queues
    requires p < |qs| && qs[p] != []
  {
    qs[p := qs[p][..|qs[p]| - 1]]
  }

  lemma {:induction false} PopTotal(qs: Queues, p: nat)
    requires p < |qs| && qs[p] != []
    ensures Total(PopAt(qs, p)) == Total(qs) - 1
  {
    if p > 0 {
      assert PopAt(qs, p)[1..] == PopAt(qs[1..], p - 1);
      PopTotal(qs[1..], p - 1);
    } else {
      assert PopAt(qs, p)[1..] == qs[1..];
    }
  }

  /** The callbacks run for a state of the queues, when the k-th callback reacts by
      script[k]: always the last event of the highest priority that has one. */
  function Invocations(qs: Queues, script: seq<seq<Reaction>>, dummy: Watcher): seq<Anpending>
    decreases |script|, Total(qs)
  {
    var p := Highest(qs, |qs|);
    if p < 0 then []
    else
      PopTotal(qs, p);
      var e, rest := qs[p][|qs[p]| - 1], PopAt(qs, p);
      if e.w == dummy then Invocations(rest, script, dummy)
      else if script == [] then [e] + Invocations(rest, [], dummy)
      else [e] + Invocations(ReactAll(rest, script[0], dummy), script[1..], dummy)
  }

  lemma NothingLeft(qs: Queues, script: seq<seq<Reaction>>, dummy: Watcher)
    requires forall p :: 0 <= p < |qs| ==> qs[p] == []
    ensures Invocations(qs, script, dummy) == []
  {
    assert Highest(qs, |qs|) < 0;
  }

  // ----- the order of callbacks that react to nothing

  /** The live events of one queue, last in first out. */
  function Unwound(q: seq<Anpending>, dummy: Watcher): seq<Anpending> {
    if q == [] then []
    else
      var e := q[|q| - 1];
      (if e.w == dummy then [] else [e]) + Unwound(q[..|q| - 1], dummy)
  }

  /** The queues below priority n, highest priority first. */
  function Drained(qs: Queues, n: nat, dummy: Watcher): seq<Anpending>
    requires n <= |qs|
  {
    if n == 0 then [] else Unwound(qs[n - 1], dummy) + Drained(qs, n - 1, dummy)
  }

  lemma {:induction false} DrainedEmpty(qs: Queues, n: nat, m: nat, dummy: Watcher)
    requires m <= n <= |qs| && forall p :: m <= p < n ==> qs[p] == []
    ensures Drained(qs, n, dummy) == Drained(qs, m, dummy)
    decreases n
  {
    if m < n {
      DrainedEmpty(qs, n - 1, m, dummy);
      assert Unwound(qs[n - 1], dummy) == [];
    }
  }

  lemma {:induction false} DrainedBelow(qs: Queues, rs: Queues, n: nat, dummy: Watcher)
    requires n <= |qs| && |rs| == |qs| && forall p :: 0 <= p < n ==> qs[p] == rs[p]
    ensures Drained(qs, n, dummy) == Drained(rs, n, dummy)
  {
    if n > 0 {
      DrainedBelow(qs, rs, n - 1, dummy);
    }
  }

  /** Popping the last event of the highest queue takes off the front of what is drained. */
  lemma DrainedPop(qs: Queues, p: nat, dummy: Watcher)
    requires p < |qs| && qs[p] != [] && forall q :: p < q < |qs| ==> qs[q] == []
    ensures var e := qs[p][|qs[p]| - 1];
            Drained(qs, |qs|, dummy)
              == (if e.w == dummy then [] else [e]) + Drained(PopAt(qs, p), |qs|, dummy)
  {
    var e, rest := qs[p][|qs[p]| - 1], PopAt(qs, p);
    DrainedEmpty(qs, |qs|, p + 1, dummy);
    DrainedEmpty(rest, |qs|, p + 1, dummy);
    DrainedBelow(qs, rest, p, dummy);
    Append(if e.w == dummy then [] else [e], Unwound(rest[p], dummy), Drained(qs, p, dummy));
  }

  /** Without reactions every live event is delivered once, by priority and then last in
      first out. */
  lemma {:induction false} InvocationsDrain(qs: Queues, dummy: Watcher)
    ensures Invocations(qs, [], dummy) == Drained(qs, |qs|, dummy)
    decreases Total(qs)
  {
    var p := Highest(qs, |qs|);
    if p < 0 {
      DrainedEmpty(qs, |qs|, 0, dummy);
    } else {
      PopTotal(qs, p);
      DrainedPop(qs, p, dummy);
      InvocationsDrain(PopAt(qs, p), dummy);
    }
  }

  /** The place of the first event of w in a log, or the length of the log. */
  function Turn(log: seq<Anpending>, w: Watcher): (i: nat)
    ensures i <= |log|
  {
    SlotOf(log, w)
  }

  lemma {:induction false} SlotOfConcat(a: seq<Anpending>, b: seq<Anpending>, w: Watcher)
    ensures SlotOf(a + b, w) == if SlotOf(a, w) < |a| then SlotOf(a, w) else |a| + SlotOf(b, w)
  {
    if a == [] {
      assert a + b == b;
    } else {
      assert (a + b)[1..] == a[1..] + b;
      SlotOfConcat(a[1..], b, w);
    }
  }

  /** The slot of w is the only place that satisfies its description. */
  lemma SlotIs(q: seq<Anpending>, w: Watcher, i: nat)
    requires i <= |q| && (i < |q| ==> q[i].w == w) && forall j :: 0 <= j < i ==> q[j].w != w
    ensures SlotOf(q, w) == i
  {
  }

  ghost predicate OnceEach(q: seq<Anpending>, dummy: Watcher) {
    forall i, j :: 0 <= i < j < |q| && q[i].w != dummy ==> q[i].w != q[j].w
  }

  /** Slot of x with respect to the last event of a queue. */
  lemma LastSlot(q: seq<Anpending>, dummy: Watcher, x: Watcher)
    requires OnceEach(q, dummy) && x != dummy && q != []
    ensures var n := |q| - 1;
            && OnceEach(q[..n], dummy)
            && SlotOf(q, x) == (if q[n].w == x then n else if SlotOf(q[..n], x) < n then SlotOf(q[..n], x) else n + 1)
  {
    var n := |q| - 1;
    assert q == q[..n] + [q[n]];
    SlotOfConcat(q[..n], [q[n]], x);
    if q[n].w == x {
      SlotIs(q, x, n);
    }
  }

  /** Each watcher is queued at most once, under its own priority. */
  ghost predicate Sorted(qs: Queues, dummy: Watcher) {
    forall p :: 0 <= p < |qs| ==>
      OnceEach(qs[p], dummy) && forall i :: 0 <= i < |qs[p]| ==> qs[p][i].w == dummy || qs[p][i].w.pri == p
  }

  predicate Queued(qs: Queues, w: Watcher) {
    w.pri < |qs| && SlotOf(qs[w.pri], w) < |qs[w.pri]|
  }

  // ----- events fed in reverse

  /** feed_reverse_done: the last of the collected watchers is fed first. */
  function FedBack(qs: Queues, fired: seq<Watcher>, events: bv32, dummy: Watcher): Queues {
    if fired == [] then qs else React(FedBack(qs, fired[1..], events, dummy), Feed(fired[0], events), dummy)
  }

  lemma FedBackUnfold(qs: Queues, fired: seq<Watcher>, events: bv32, dummy: Watcher)
    requires fired != []
    ensures FedBack(qs, fired, events, dummy) == React(FedBack(qs, fired[1..], events, dummy), Feed(fired[0], events), dummy)
  {
  }

  /** The pending events of one watcher after the other are cleared. */
  function ClearedAll(qs: Queues, ws: seq<Watcher>, dummy: Watcher): Queues {
    if ws == [] then qs else React(ClearedAll(qs, ws[..|ws| - 1], dummy), Clear(ws[|ws| - 1]), dummy)
  }

  ghost predicate Distinct(ws: seq<Watcher>) {
    forall i, j :: 0 <= i < j < |ws| ==> ws[i] != ws[j]
  }

  lemma {:induction false} DistinctCount(ws: seq<Watcher>)
    requires Distinct(ws)
    ensures |set x | x in ws| == |ws|
  {
    if ws != [] {
      var rest := ws[1..];
      DistinctCount(rest);
      assert ws[0] !in rest;
      assert (set x | x in ws) == {ws[0]} + set x | x in rest;
    }
  }

  lemma FedSlots(q: seq<Anpending>, w: Watcher, events: bv32, x: Watcher)
    ensures SlotOf(q, w) < |q| ==> |Fed(q, w, events)| == |q| && SlotOf(Fed(q, w, events), x) == SlotOf(q, x)
    ensures SlotOf(q, w) == |q| ==>
              && |Fed(q, w, events)| == |q| + 1
              && SlotOf(Fed(q, w, events), x) == if SlotOf(q, x) < |q| then SlotOf(q, x) else if x == w then |q| else |q| + 1
  {
    if SlotOf(q, w) < |q| {
      SlotIs(Fed(q, w, events), x, SlotOf(q, x));
    } else {
      SlotOfConcat(q, [Anpending(w, events)], x);
    }
  }

  /** Where a watcher x ends up: in the slot it had; otherwise, if it was collected, behind
      every slot of before. */
  lemma {:induction false} FedBackSlots(qs: Queues, fired: seq<Watcher>, events: bv32, dummy: Watcher, x: Watcher)
    requires x.pri < |qs| && (forall w <- fired :: w.pri < |qs|) && Distinct(fired)
    ensures var rs := FedBack(qs, fired, events, dummy);
            |rs| == |qs| &&
            var q, r := qs[x.pri], rs[x.pri];
            && |q| <= |r|
            && (SlotOf(q, x) < |q| ==> SlotOf(r, x) == SlotOf(q, x))
            && (SlotOf(q, x) == |q| ==> if x in fired then |q| <= SlotOf(r, x) < |r| else SlotOf(r, x) == |r|)
  {
    if fired != [] {
      FedBackSlots(qs, fired[1..], events, dummy, x);
      var rs := FedBack(qs, fired[1..], events, dummy);
      var w := fired[0];
      if w.pri == x.pri {
        FedSlots(rs[w.pri], w, events, x);
        if x == w {
          assert x !in fired[1..];
        }
      }
    }
  }

  /** Among the newly queued, the one collected first sits highest. */
  lemma {:induction false} FedBackReverses(qs: Queues, fired: seq<Watcher>, events: bv32, dummy: Watcher, i: nat, j: nat)
    requires (forall w <- fired :: w.pri < |qs|) && Distinct(fired) && i < j < |fired| && fired[i].pri == fired[j].pri
    requires !Queued(qs, fired[i]) && !Queued(qs, fired[j])
    ensures var rs := FedBack(qs, fired, events, dummy);
            |rs| == |qs| && SlotOf(rs[fired[i].pri], fired[i]) > SlotOf(rs[fired[j].pri], fired[j])
  {
    var rest := fired[1..];
    var rs := FedBack(qs, rest, events, dummy);
    FedBackSlots(qs, rest, events, dummy, fired[i]);
    FedBackSlots(qs, rest, events, dummy, fired[j]);
    assert fired[j] == rest[j - 1] && (i > 0 ==> fired[i] == rest[i - 1]);
    assert fired[0] !in rest && Distinct(rest);
    FedBackUnfold(qs, fired, events, dummy);
    hide Fed, FedBack, Distinct;
    if i == 0 {
      FedSlots(rs[fired[0].pri], fired[0], events, fired[0]);
      FedSlots(rs[fired[0].pri], fired[0], events, fired[j]);
    } else {
      FedBackReverses(qs, rest, events, dummy, i - 1, j - 1);
      if fired[0].pri == fired[i].pri {
        FedSlots(rs[fired[0].pri], fired[0], events, fired[i]);
        FedSlots(rs[fired[0].pri], fired[0], events, fired[j]);
      }
    }
  }

  lemma {:induction false} FedBackSorted(qs: Queues, fired: seq<Watcher>, events: bv32, dummy: Watcher)
    requires Sorted(qs, dummy) && dummy !in fired && (forall w <- fired :: w.pri < |qs|)
    ensures |FedBack(qs, fired, events, dummy)| == |qs| && Sorted(FedBack(qs, fired, events, dummy), dummy)
  {
    if fired != [] {
      FedBackSorted(qs, fired[1..], events, dummy);
      hide Sorted, React;
      ReactSorted(FedBack(qs, fired[1..], events, dummy), Feed(fired[0], events), dummy);
    }
  }

  lemma ClearedSlots(q: seq<Anpending>, w: Watcher, dummy: Watcher, x: Watcher)
    requires OnceEach(q, dummy) && w != dummy && x != dummy
    ensures OnceEach(Cleared(q, w, dummy), dummy) && |Cleared(q, w, dummy)| == |q|
    ensures SlotOf(Cleared(q, w, dummy), x) == if x == w then |q| else SlotOf(q, x)
  {
    if x == w {
      SlotIs(Cleared(q, w, dummy), x, |q|);
    } else {
      SlotIs(Cleared(q, w, dummy), x, SlotOf(q, x));
    }
  }

  /** Clearing takes exactly the cleared watchers out and moves nobody. */
  lemma {:induction false} ClearedAllSlots(qs: Queues, ws: seq<Watcher>, dummy: Watcher, x: Watcher)
    requires Sorted(qs, dummy) && x != dummy && x.pri < |qs| && forall w <- ws :: w != dummy && w.pri < |qs|
    ensures var rs := ClearedAll(qs, ws, dummy);
            && |rs| == |qs| && Sorted(rs, dummy) && |rs[x.pri]| == |qs[x.pri]|
            && SlotOf(rs[x.pri], x) == if x in ws then |qs[x.pri]| else SlotOf(qs[x.pri], x)
  {
    if ws != [] {
      var n := |ws| - 1;
      assert ws[n] in ws && ws == ws[..n] + [ws[n]];
      assert forall w <- ws[..n] :: w in ws;
      ClearedAllSlots(qs, ws[..n], dummy, x);
      var rs := ClearedAll(qs, ws[..n], dummy);
      ClearedSlots(rs[ws[n].pri], ws[n], dummy, x);
      SortedUpdate(rs, ws[n].pri, Cleared(rs[ws[n].pri], ws[n], dummy), dummy);
    }
  }

  lemma SortedUpdate(qs: Queues, p: nat, q: seq<Anpending>, dummy: Watcher)
    requires Sorted(qs, dummy) && p < |qs| && OnceEach(q, dummy) && |q| == |qs[p]|
    requires forall i :: 0 <= i < |q| ==> q[i].w == dummy || q[i].w == qs[p][i].w
    ensures Sorted(qs[p := q], dummy)
  {
  }

  // ----- every run of callbacks, whatever they feed and clear

  /** How often a log runs the callback of w. */
  function CallsOf(log: seq<Anpending>, w: Watcher): nat {
    if log == [] then 0 else (if log[0].w == w then 1 else 0) + CallsOf(log[1..], w)
  }

  predicate Feeds(r: Reaction, w: Watcher) {
    r.Feed? && r.w == w
  }

  function FeedsIn(rs: seq<Reaction>, w: Watcher): nat {
    if rs == [] then 0
    else FeedsIn(rs[..|rs| - 1], w) + if Feeds(rs[|rs| - 1], w) then 1 else 0
  }

  /** How often the callbacks of a script feed w. */
  function FeedsOf(script: seq<seq<Reaction>>, w: Watcher): nat {
    if script == [] then 0 else FeedsIn(script[0], w) + FeedsOf(script[1..], w)
  }

  function Here(qs: Queues, w: Watcher): nat {
    if Queued(qs, w) then 1 else 0
  }

  lemma ReactSorted(qs: Queues, r: Reaction, dummy: Watcher)
    requires Sorted(qs, dummy) && r.w != dummy
    ensures |React(qs, r, dummy)| == |qs| && Sorted(React(qs, r, dummy), dummy)
  {
  }

  lemma ReactOnce(qs: Queues, r: Reaction, dummy: Watcher, w: Watcher)
    requires Sorted(qs, dummy) && w != dummy && r.w != dummy && w.pri < |qs|
    ensures var rs := React(qs, r, dummy);
            && |rs| == |qs| && Sorted(rs, dummy)
            && Here(rs, w) == (if Clears(r, w) then 0 else if Feeds(r, w) then 1 else Here(qs, w))
            && (Queued(qs, w) && !Clears(r, w) ==> SlotOf(rs[w.pri], w) == SlotOf(qs[w.pri], w))
  {
    ReactSorted(qs, r, dummy);
    if r.w.pri == w.pri {
      assert OnceEach(qs[w.pri], dummy);
      hide Sorted, OnceEach, Fed, Cleared;
      if r.Feed? {
        FedSlots(qs[w.pri], r.w, r.events, w);
      } else {
        ClearedSlots(qs[w.pri], r.w, dummy, w);
      }
    }
  }

  /** None of the reactions clears the event of w. */
  ghost predicate Spares(rs: seq<Reaction>, w: Watcher) {
    forall i :: 0 <= i < |rs| ==> !Clears(rs[i], w)
  }

  ghost predicate SparesAll(script: seq<seq<Reaction>>, w: Watcher) {
    forall k :: 0 <= k < |script| ==> Spares(script[k], w)
  }

  /** Reactions name watchers of the program, never the dummy. */
  ghost predicate Proper(script: seq<seq<Reaction>>, dummy: Watcher) {
    forall k :: 0 <= k < |script| ==> ProperAll(script[k], dummy)
  }

  ghost predicate ProperAll(rs: seq<Reaction>, dummy: Watcher) {
    forall i :: 0 <= i < |rs| ==> rs[i].w != dummy
  }

  lemma {:induction false} ReactAllOnce(qs: Queues, rs: seq<Reaction>, dummy: Watcher, w: Watcher)
    requires Sorted(qs, dummy) && w != dummy && w.pri < |qs| && ProperAll(rs, dummy)
    ensures var ps := ReactAll(qs, rs, dummy);
            && |ps| == |qs| && Sorted(ps, dummy)
            && Here(ps, w) <= Here(qs, w) + FeedsIn(rs, w)
            && (Spares(rs, w) ==> Here(ps, w) >= Here(qs, w))
            && (Spares(rs, w) && Queued(qs, w) ==> Queued(ps, w) && SlotOf(ps[w.pri], w) == SlotOf(qs[w.pri], w))
  {
    hide Sorted, React;
    if rs != [] {
      var n := |rs| - 1;
      ReactAllOnce(qs, rs[..n], dummy, w);
      ReactOnce(ReactAll(qs, rs[..n], dummy), rs[n], dummy, w);
      hide Queued;
      HereIsBit(ReactAll(qs, rs[..n], dummy), w);
    }
  }

  lemma HereIsBit(qs: Queues, w: Watcher)
    ensures Here(qs, w) <= 1 && (Here(qs, w) == 1 <==> Queued(qs, w))
  {
  }

  lemma PopOnce(qs: Queues, p: nat, dummy: Watcher, w: Watcher)
    requires Sorted(qs, dummy) && w != dummy && w.pri < |qs| && p < |qs| && qs[p] != []
    ensures var e := qs[p][|qs[p]| - 1];
            && Sorted(PopAt(qs, p), dummy)
            && Here(qs, w) == Here(PopAt(qs, p), w) + (if e.w == w then 1 else 0)
            && (Queued(qs, w) && e.w != w ==> SlotOf(PopAt(qs, p)[w.pri], w) == SlotOf(qs[w.pri], w))
            && (e.w == w ==> p == w.pri && SlotOf(qs[p], w) == |qs[p]| - 1)
  {
    var q := qs[p];
    var n := |q| - 1;
    if p == w.pri {
      LastSlot(q, dummy, w);
    } else {
      assert q[n].w != w;
    }
    assert OnceEach(q[..n], dummy);
  }

  /** One step of the invocation: the event delivered, if it is live, and the queues and the
      script it leaves. */
  lemma InvocationStep(qs: Queues, script: seq<seq<Reaction>>, dummy: Watcher) returns (e: Anpending, qs': Queues, script': seq<seq<Reaction>>)
    requires Sorted(qs, dummy) && Proper(script, dummy) && Highest(qs, |qs|) >= 0
    ensures var p := Highest(qs, |qs|);
            && e == qs[p][|qs[p]| - 1] && Total(PopAt(qs, p)) < Total(qs)
            && (if e.w == dummy || script == [] then qs' == PopAt(qs, p) && script' == script
                else qs' == ReactAll(PopAt(qs, p), script[0], dummy) && script' == script[1..])
    ensures |qs'| == |qs| && Sorted(qs', dummy) && Proper(script', dummy)
    ensures |script'| < |script| || (script' == script && Total(qs') < Total(qs))
    ensures var log, log' := Invocations(qs, script, dummy), Invocations(qs', script', dummy);
            if e.w == dummy then log == log' else |log| == |log'| + 1 && log[0] == e && log[1..] == log'
  {
    var p := Highest(qs, |qs|);
    PopTotal(qs, p);
    e := qs[p][|qs[p]| - 1];
    qs', script' := PopAt(qs, p), script;
    PopSorted(qs, p, dummy);
    if e.w != dummy && script != [] {
      AllSorted(PopAt(qs, p), script[0], dummy);
      qs', script' := ReactAll(PopAt(qs, p), script[0], dummy), script[1..];
    }
    assert e.w != dummy ==> ([e] + Invocations(qs', script', dummy))[1..] == Invocations(qs', script', dummy);
  }

  lemma PopSorted(qs: Queues, p: nat, dummy: Watcher)
    requires Sorted(qs, dummy) && p < |qs| && qs[p] != []
    ensures Sorted(PopAt(qs, p), dummy)
  {
    assert OnceEach(qs[p][..|qs[p]| - 1], dummy);
  }

  lemma {:induction false} AllSorted(qs: Queues, rs: seq<Reaction>, dummy: Watcher)
    requires Sorted(qs, dummy) && ProperAll(rs, dummy)
    ensures |ReactAll(qs, rs, dummy)| == |qs| && Sorted(ReactAll(qs, rs, dummy), dummy)
  {
    hide Sorted, React;
    if rs != [] {
      AllSorted(qs, rs[..|rs| - 1], dummy);
      ReactSorted(ReactAll(qs, rs[..|rs| - 1], dummy), rs[|rs| - 1], dummy);
    }
  }

  /** A callback runs no more often than its watcher was queued or fed, and at least once if
      it was queued and nothing clears it. */
  lemma {:induction false} DeliveredOnce(qs: Queues, script: seq<seq<Reaction>>, dummy: Watcher, w: Watcher)
    requires Sorted(qs, dummy) && w != dummy && w.pri < |qs| && Proper(script, dummy)
    ensures var calls := CallsOf(Invocations(qs, script, dummy), w);
            && calls <= Here(qs, w) + FeedsOf(script, w)
            && (SparesAll(script, w) ==> calls >= Here(qs, w))
    decreases |script|, Total(qs)
  {
    hide Sorted, Here, Invocations, Highest;
    var p := Highest(qs, |qs|);
    if p < 0 {
      NothingLeft(qs, script, dummy);
      EmptyHere(qs, w);
    } else {
      var e, qs', script' := InvocationStep(qs, script, dummy);
      PopOnce(qs, p, dummy, w);
      if |script'| < |script| {
        ReactAllOnce(PopAt(qs, p), script[0], dummy, w);
      }
      DeliveredOnce(qs', script', dummy, w);
    }
  }

  lemma EmptyHere(qs: Queues, w: Watcher)
    requires forall p :: 0 <= p < |qs| ==> qs[p] == []
    ensures Here(qs, w) == 0
  {
  }

  // ----- the exact number of calls

  /** A feed that finds w not pending. */
  function Gained(qs: Queues, r: Reaction, w: Watcher): nat {
    if Feeds(r, w) && !Queued(qs, w) then 1 else 0
  }

  /** A clear that finds w pending. */
  function Lost(qs: Queues, r: Reaction, w: Watcher): nat {
    if Clears(r, w) && Queued(qs, w) then 1 else 0
  }

  datatype Ledger = Ledger(gained: nat, lost: nat) {
    function Plus(l: Ledger): Ledger {
      Ledger(gained + l.gained, lost + l.lost)
    }
  }

  function LedgerIn(qs: Queues, rs: seq<Reaction>, dummy: Watcher, w: Watcher): Ledger {
    if rs == [] then Ledger(0, 0)
    else
      var n := |rs| - 1;
      var before := ReactAll(qs, rs[..n], dummy);
      LedgerIn(qs, rs[..n], dummy, w).Plus(Ledger(Gained(before, rs[n], w), Lost(before, rs[n], w)))
  }

  /** The gains and losses of w by the callbacks that run. */
  function LedgerOf(qs: Queues, script: seq<seq<Reaction>>, dummy: Watcher, w: Watcher): Ledger
    decreases |script|, Total(qs)
  {
    var p := Highest(qs, |qs|);
    if p < 0 || script == [] then Ledger(0, 0)
    else
      PopTotal(qs, p);
      var rest := PopAt(qs, p);
      if qs[p][|qs[p]| - 1].w == dummy then LedgerOf(rest, script, dummy, w)
      else LedgerIn(rest, script[0], dummy, w).Plus(LedgerOf(ReactAll(rest, script[0], dummy), script[1..], dummy, w))
  }

  lemma {:induction false} LedgerBalances(qs: Queues, rs: seq<Reaction>, dummy: Watcher, w: Watcher)
    requires Sorted(qs, dummy) && w != dummy && w.pri < |qs| && ProperAll(rs, dummy)
    ensures var l := LedgerIn(qs, rs, dummy, w);
            Here(ReactAll(qs, rs, dummy), w) + l.lost == Here(qs, w) + l.gained
  {
    hide Sorted, React, Queued;
    if rs != [] {
      var n := |rs| - 1;
      LedgerBalances(qs, rs[..n], dummy, w);
      AllSorted(qs, rs[..n], dummy);
      ReactOnce(ReactAll(qs, rs[..n], dummy), rs[n], dummy, w);
    }
  }

  /** A callback runs exactly as often as its watcher was pending at first or was fed while it
      was not pending, less the times it was cleared while it was. */
  lemma {:induction false} CallsBalance(qs: Queues, script: seq<seq<Reaction>>, dummy: Watcher, w: Watcher)
    requires Sorted(qs, dummy) && w != dummy && w.pri < |qs| && Proper(script, dummy)
    ensures var l := LedgerOf(qs, script, dummy, w);
            CallsOf(Invocations(qs, script, dummy), w) + l.lost == Here(qs, w) + l.gained
    decreases |script|, Total(qs)
  {
    hide Sorted, Here, Invocations, Highest;
    var p := Highest(qs, |qs|);
    if p < 0 {
      NothingLeft(qs, script, dummy);
      EmptyHere(qs, w);
    } else {
      var e, qs', script' := InvocationStep(qs, script, dummy);
      PopOnce(qs, p, dummy, w);
      if |script'| < |script| {
        LedgerBalances(PopAt(qs, p), script[0], dummy, w);
      }
      CallsBalance(qs', script', dummy, w);
    }
  }

  // ----- the masks that are delivered

  /** The events pending for w. */
  function Mask(qs: Queues, w: Watcher): bv32 {
    if Queued(qs, w) then qs[w.pri][SlotOf(qs[w.pri], w)].events else 0
  }

  /** All events a log delivers to w. */
  function DeliveredMask(log: seq<Anpending>, w: Watcher): bv32 {
    if log == [] then 0 else Or(if log[0].w == w then log[0].events else 0, DeliveredMask(log[1..], w))
  }

  function FedMask(rs: seq<Reaction>, w: Watcher): bv32 {
    if rs == [] then 0
    else Or(FedMask(rs[..|rs| - 1], w), if Feeds(rs[|rs| - 1], w) then rs[|rs| - 1].events else 0)
  }

  /** All events the first n callbacks of a script feed to w. */
  function FedMaskOf(script: seq<seq<Reaction>>, n: nat, w: Watcher): bv32
    requires n <= |script|
  {
    if n == 0 then 0 else Or(FedMask(script[0], w), FedMaskOf(script[1..], n - 1, w))
  }

  /** The events of w when events for r are fed. */
  function MergedEvents(q: seq<Anpending>, r: Watcher, events: bv32, w: Watcher): bv32 {
    var i := SlotOf(q, w);
    if r != w then (if i < |q| then q[i].events else 0)
    else if i < |q| then Or(q[i].events, events) else events
  }

  lemma FedEvents(q: seq<Anpending>, r: Watcher, events: bv32, w: Watcher)
    ensures var f := Fed(q, r, events);
            var i := SlotOf(f, w);
            i < |f| ==> f[i].events == MergedEvents(q, r, events, w)
  {
    FedSlots(q, r, events, w);
    hide Or;
  }

  lemma ClearedEvents(q: seq<Anpending>, r: Watcher, dummy: Watcher, w: Watcher)
    requires r != w && w != dummy && SlotOf(q, w) < |q|
    ensures var c := Cleared(q, r, dummy);
            |c| == |q| && c[SlotOf(q, w)].events == q[SlotOf(q, w)].events
  {
  }

  lemma ReactMask(qs: Queues, r: Reaction, dummy: Watcher, w: Watcher)
    requires Sorted(qs, dummy) && w != dummy && r.w != dummy && w.pri < |qs| && !Clears(r, w)
    ensures Mask(React(qs, r, dummy), w) == Or(Mask(qs, w), if Feeds(r, w) then r.events else 0)
  {
    hide Or;
    OrLaws(Mask(qs, w), 0, 0);
    if r.w.pri == w.pri {
      var q := qs[w.pri];
      assert OnceEach(q, dummy);
      hide Sorted, OnceEach;
      if r.Feed? {
        OrLaws(r.events, 0, 0);
        FedSlots(q, r.w, r.events, w);
        FedEvents(q, r.w, r.events, w);
        hide Fed;
      } else if !r.Start? {
        ClearedSlots(q, r.w, dummy, w);
        if SlotOf(q, w) < |q| {
          ClearedEvents(q, r.w, dummy, w);
        }
        hide Cleared;
      }
    }
  }

  lemma {:induction false} ReactAllMask(qs: Queues, rs: seq<Reaction>, dummy: Watcher, w: Watcher)
    requires Sorted(qs, dummy) && w != dummy && w.pri < |qs| && ProperAll(rs, dummy) && Spares(rs, w)
    ensures Mask(ReactAll(qs, rs, dummy), w) == Or(Mask(qs, w), FedMask(rs, w))
  {
    hide Sorted, React, Mask, Or;
    if rs == [] {
      OrLaws(Mask(qs, w), 0, 0);
    } else {
      var n := |rs| - 1;
      ReactAllMask(qs, rs[..n], dummy, w);
      AllSorted(qs, rs[..n], dummy);
      ReactMask(ReactAll(qs, rs[..n], dummy), rs[n], dummy, w);
      OrLaws(Mask(qs, w), FedMask(rs[..n], w), if Feeds(rs[n], w) then rs[n].events else 0);
    }
  }

  lemma PopMask(qs: Queues, p: nat, dummy: Watcher, w: Watcher)
    requires Sorted(qs, dummy) && w != dummy && w.pri < |qs| && p < |qs| && qs[p] != []
    ensures var e := qs[p][|qs[p]| - 1];
            Mask(qs, w) == if e.w == w then e.events else Mask(PopAt(qs, p), w)
    ensures qs[p][|qs[p]| - 1].w == w ==> Mask(PopAt(qs, p), w) == 0
  {
    PopOnce(qs, p, dummy, w);
    HereIsBit(qs, w);
    HereIsBit(PopAt(qs, p), w);
    hide Sorted;
  }

  /** Unless it is cleared, a watcher is delivered exactly what was pending for it and what the
      callbacks that ran have fed to it. */
  lemma {:induction false} MasksDelivered(qs: Queues, script: seq<seq<Reaction>>, dummy: Watcher, w: Watcher)
    requires Sorted(qs, dummy) && w != dummy && w.pri < |qs| && Proper(script, dummy)
    requires var log := Invocations(qs, script, dummy);
             forall k :: 0 <= k < Min(|log|, |script|) ==> Spares(script[k], w)
    ensures var log := Invocations(qs, script, dummy);
            DeliveredMask(log, w) == Or(Mask(qs, w), FedMaskOf(script, Min(|log|, |script|), w))
    decreases |script|, Total(qs)
  {
    hide Sorted, Invocations, Highest, Mask, Or;
    var p := Highest(qs, |qs|);
    var log := Invocations(qs, script, dummy);
    if p < 0 {
      NothingLeft(qs, script, dummy);
      EmptyMask(qs, w);
      OrLaws(0, 0, 0);
    } else {
      var e, qs', script' := InvocationStep(qs, script, dummy);
      var log' := Invocations(qs', script', dummy);
      PopMask(qs, p, dummy, w);
      PopSorted(qs, p, dummy);
      if |script'| < |script| {
        assert Min(|log|, |script|) == Min(|log'|, |script'|) + 1;
        assert Spares(script[0], w);
        forall k | 0 <= k < Min(|log'|, |script'|) ensures Spares(script'[k], w) {
          assert Spares(script[k + 1], w);
        }
        ReactAllMask(PopAt(qs, p), script[0], dummy, w);
        MasksDelivered(qs', script', dummy, w);
        Merge(if e.w == w then e.events else 0, Mask(PopAt(qs, p), w), FedMask(script[0], w),
              FedMaskOf(script', Min(|log'|, |script'|), w));
      } else {
        MasksDelivered(qs', script', dummy, w);
        OrLaws(DeliveredMask(log', w), 0, 0);
        OrLaws(Mask(qs, w), 0, 0);
        OrLaws(FedMaskOf(script, Min(|log|, |script|), w), 0, 0);
      }
    }
  }

  lemma Merge(e: bv32, m: bv32, f: bv32, g: bv32)
    ensures Or(e, Or(Or(m, f), g)) == Or(Or(e, m), Or(f, g)) && Or(0, m) == m && Or(e, 0) == e
  {
    hide Or;
    OrLaws(m, f, g);
    OrLaws(e, m, Or(f, g));
  }

  lemma EmptyMask(qs: Queues, w: Watcher)
    requires forall p :: 0 <= p < |qs| ==> qs[p] == []
    ensures Mask(qs, w) == 0
  {
  }

  // ----- who runs first

  /** w runs before v: by priority, then by slot. */
  predicate Precedes(qs: Queues, w: Watcher, v: Watcher) {
    Queued(qs, w) && Queued(qs, v) && (w.pri > v.pri || (w.pri == v.pri && SlotOf(qs[w.pri], w) > SlotOf(qs[v.pri], v)))
  }

  lemma OneOfTwo(qs: Queues, w: Watcher, v: Watcher)
    requires Queued(qs, w) && Queued(qs, v) && w != v
    ensures Precedes(qs, w, v) <==> !Precedes(qs, v, w)
  {
    if w.pri == v.pri {
      var q := qs[w.pri];
      assert q[SlotOf(q, w)].w == w && q[SlotOf(q, v)].w == v;
    }
  }

  /** A watcher that is called has a turn. */
  lemma {:induction false} CalledHasTurn(log: seq<Anpending>, w: Watcher)
    requires CallsOf(log, w) > 0
    ensures Turn(log, w) < |log|
  {
    if log[0].w != w {
      CalledHasTurn(log[1..], w);
    }
  }

  lemma TurnStep(log: seq<Anpending>, w: Watcher)
    requires log != []
    ensures Turn(log, w) == if log[0].w == w then 0 else 1 + Turn(log[1..], w)
  {
  }

  /** The event delivered next is not that of a watcher that another one precedes, and it
      leaves the precedence of the others alone. */
  lemma PopPrecedes(qs: Queues, p: nat, dummy: Watcher, w: Watcher, v: Watcher)
    requires Sorted(qs, dummy) && w != dummy && v != dummy && Precedes(qs, w, v)
    requires p == Highest(qs, |qs|) && p >= 0
    ensures var e := qs[p][|qs[p]| - 1];
            e.w != v && (e.w != w ==> Precedes(PopAt(qs, p), w, v))
  {
    PopOnce(qs, p, dummy, w);
    PopOnce(qs, p, dummy, v);
    HereIsBit(qs, w);
    HereIsBit(qs, v);
    HereIsBit(PopAt(qs, p), w);
    HereIsBit(PopAt(qs, p), v);
    assert qs[w.pri] != [];
  }

  /** Whatever the callbacks do, as long as they clear neither: the one that precedes runs first. */
  lemma {:induction false} RunsFirst(qs: Queues, script: seq<seq<Reaction>>, dummy: Watcher, w: Watcher, v: Watcher)
    requires Sorted(qs, dummy) && w != dummy && v != dummy && w != v && Proper(script, dummy)
    requires Precedes(qs, w, v) && SparesAll(script, w) && SparesAll(script, v)
    ensures var log := Invocations(qs, script, dummy);
            Turn(log, w) < Turn(log, v) < |log|
    decreases |script|, Total(qs)
  {
    hide Sorted, Invocations, Highest, Turn;
    DeliveredOnce(qs, script, dummy, v);
    CalledHasTurn(Invocations(qs, script, dummy), v);
    var p := Highest(qs, |qs|);
    HighestIsQueued(qs, w);
    var e, qs', script' := InvocationStep(qs, script, dummy);
    PopPrecedes(qs, p, dummy, w, v);
    if e.w != dummy {
      TurnStep(Invocations(qs, script, dummy), w);
      TurnStep(Invocations(qs, script, dummy), v);
    }
    if e.w != w {
      if |script'| < |script| {
        PopSorted(qs, p, dummy);
        ReactAllOnce(PopAt(qs, p), script[0], dummy, w);
        ReactAllOnce(PopAt(qs, p), script[0], dummy, v);
      }
      RunsFirst(qs', script', dummy, w, v);
    }
  }

  lemma HighestIsQueued(qs: Queues, w: Watcher)
    requires Queued(qs, w)
    ensures Highest(qs, |qs|) >= 0
  {
    assert qs[w.pri] != [];
  }

  /** Of two queued watchers that no callback clears, the one with the higher priority runs
      first, and with equal priorities the one in the higher slot, whatever else the callbacks
      feed, clear, start and stop. */
  lemma InvocationOrder(qs: Queues, script: seq<seq<Reaction>>, dummy: Watcher, w: Watcher, v: Watcher)
    requires Sorted(qs, dummy) && w != dummy && v != dummy && w != v && Queued(qs, w) && Queued(qs, v)
    requires Proper(script, dummy) && SparesAll(script, w) && SparesAll(script, v)
    ensures var log := Invocations(qs, script, dummy);
            && Turn(log, w) < |log| && Turn(log, v) < |log|
            && (Turn(log, w) < Turn(log, v) <==> Precedes(qs, w, v))
  {
    hide Precedes;
    OneOfTwo(qs, w, v);
    if Precedes(qs, w, v) {
      RunsFirst(qs, script, dummy, w, v);
    } else {
      RunsFirst(qs, script, dummy, v, w);
    }
  }

  /** The order in which two watchers of one priority, collected in this order and fed back,
      are invoked by any callbacks that clear neither: the first collected runs first, unless
      it was already pending and the other one was not or sat in a higher slot. */
  lemma CollectedOrder(qs: Queues, fired: seq<Watcher>, events: bv32, script: seq<seq<Reaction>>, dummy: Watcher, i: nat, j: nat)
    requires Sorted(qs, dummy) && dummy !in fired && (forall w <- fired :: w.pri < |qs|) && Distinct(fired)
    requires i < j < |fired| && fired[i].pri == fired[j].pri
    requires Proper(script, dummy) && SparesAll(script, fired[i]) && SparesAll(script, fired[j])
    ensures var w, v, q := fired[i], fired[j], qs[fired[i].pri];
            var log := Invocations(FedBack(qs, fired, events, dummy), script, dummy);
            && Turn(log, w) < |log| && Turn(log, v) < |log|
            && (Turn(log, w) < Turn(log, v)
                <==> !(Queued(qs, w) && (!Queued(qs, v) || SlotOf(q, w) < SlotOf(q, v))))
  {
    var w, v := fired[i], fired[j];
    var rs := FedBack(qs, fired, events, dummy);
    FedBackSorted(qs, fired, events, dummy);
    CollectedPrecedes(qs, fired, events, dummy, i, j);
    hide Sorted, FedBack, Invocations, SparesAll, Precedes;
    InvocationOrder(rs, script, dummy, w, v);
  }

  lemma CollectedPrecedes(qs: Queues, fired: seq<Watcher>, events: bv32, dummy: Watcher, i: nat, j: nat)
    requires dummy !in fired && (forall w <- fired :: w.pri < |qs|) && Distinct(fired)
    requires i < j < |fired| && fired[i].pri == fired[j].pri
    ensures var w, v, q := fired[i], fired[j], qs[fired[i].pri];
            var rs := FedBack(qs, fired, events, dummy);
            && Queued(rs, w) && Queued(rs, v)
            && (Precedes(rs, w, v) <==> !(Queued(qs, w) && (!Queued(qs, v) || SlotOf(q, w) < SlotOf(q, v))))
  {
    hide FedBack, SlotOf;
    var w, v := fired[i], fired[j];
    assert w in fired && v in fired && w != v;
    FedBackSlots(qs, fired, events, dummy, w);
    FedBackSlots(qs, fired, events, dummy, v);
    if !Queued(qs, w) && !Queued(qs, v) {
      FedBackReverses(qs, fired, events, dummy, i, j);
    }
  }

  /** Expiry order fails, for instance, when the timer that expired first repeats and its last
      event is still pending, with no other event in the queue: it runs second. */
  lemma PendingRunsLate(w: Watcher, v: Watcher, dummy: Watcher, events: bv32)
    requires w != v && w != dummy && v != dummy && w.pri == v.pri == 0
    ensures var qs: Queues := [[Anpending(w, events)]];
            var log := Invocations(FedBack(qs, [w, v], events, dummy), [], dummy);
            Turn(log, v) < Turn(log, w) < |log|
  {
    var qs: Queues := [[Anpending(w, events)]];
    var fired := [w, v];
    assert fired[0] == w && fired[1] == v;
    CollectedOrder(qs, fired, events, [], dummy, 0, 1);
    assert SlotOf(qs[0], v) == 1;
  }
}
