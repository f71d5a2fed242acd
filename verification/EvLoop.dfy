/**
 Timers and pending events of a libev loop: the 4-ary timer heap with cached keys and back
 indices, the per-priority pending queues, and the step that turns expired timers into
 pending events.
 */
module EvLoop {
  import opened Bytes
  import opened EvHeap
  import opened EvPending
  import opened EvTimerHeap

  const NUMPRI: nat := 5
  const EV_TIMER: bv32 := 0x100

  /** Whether a timer runs, and its time: absolute if it does, else what is left of it. */
  datatype Clock = Clock(runs: bool, at: real)

  class Loop {
    /** Slots HEAP0 .. HEAP0 + timercnt - 1. */
    var timers: seq<Anhe>
    var mnNow: real
    var pendings: seq<seq<Anpending>>
    var pendingpri: nat
    /** Takes the place of a watcher whose pending event was cleared. */
    const pendingW: Watcher
    /** All watchers of the program. */
    ghost const all: set<Watcher>

    constructor (now: real, ghost watchers: set<Watcher>)
      requires forall w <- watchers :: w.active == 0 && w.pending == 0 && w.pri < NUMPRI
      ensures HeapOk() && PendingOk() && Running() == {} && EmptyFrom(0)
      ensures mnNow == now && all == watchers && fresh(pendingW)
    {
      timers, mnNow, pendings, pendingpri := [], now, seq(NUMPRI, _ => []), 0;
      pendingW := new Watcher(0.0, 0.0, 0);
      all := watchers;
    }

    // ----- heap moves

    /** Fill the hole at entry dst with entry src, which becomes the hole of `he`. */
    method Pull(dst: nat, src: nat, he: Anhe, ghost g: seq<Anhe>, ghost ws: set<Watcher>)
      requires dst < |timers| && src < |timers| && dst != src && g == timers[dst := he]
      requires DistinctW(g) && Indexed(g, dst, ws)
      modifies this`timers, ws`active
      ensures |timers| == |g| && timers[src := he] == Swap(g, dst, src)
      ensures DistinctW(Swap(g, dst, src)) && Indexed(Swap(g, dst, src), src, ws)
    {
      SwapDistinct(g, dst, src);
      timers := timers[dst := timers[src]];
      assert g[src].w in ws;
      timers[dst].w.active := dst + HEAP0;
    }

    /** Drop `he` into the hole. */
    method Place(dst: nat, he: Anhe, ghost g: seq<Anhe>, ghost ws: set<Watcher>)
      requires dst < |timers| && g == timers[dst := he] && DistinctW(g) && Indexed(g, dst, ws)
      modifies this`timers, ws`active
      ensures timers == g && Indexed(timers, -1, ws)
    {
      assert g[dst].w in ws;
      timers := timers[dst := he];
      he.w.active := dst + HEAP0;
    }

    /** One turn of the loop of upheap: stop, or pull down the parent. */
    method RiseOnce(k: nat, he: Anhe, ghost g: seq<Anhe>, ghost ws: set<Watcher>) returns (k': nat, ghost g': seq<Anhe>)
      requires HEAP0 <= k < HEAP0 + |timers| && g == timers[k - HEAP0 := he]
      requires DistinctW(g) && Indexed(g, k - HEAP0, ws)
      modifies this`timers, ws`active
      ensures HEAP0 <= k' <= k && |g'| == |g| == |timers| && g' == timers[k' - HEAP0 := he]
      ensures DistinctW(g') && Indexed(g', k' - HEAP0, ws)
      ensures if k' == k then g' == g && UpFix(g, k - HEAP0) == g else UpFix(g', k' - HEAP0) == UpFix(g, k - HEAP0)
    {
      hide HParent, DistinctW, UpFix;
      var p := HParent(k);
      ParentOfSlot(k);
      UpFixUnfold(g, k - HEAP0);
      k', g' := k, g;
      if p != k && he.at < timers[p - HEAP0].at {
        Pull(k - HEAP0, p - HEAP0, he, g, ws);
        g' := Swap(g, k - HEAP0, p - HEAP0);
        k' := p;
      }
    }

    method UpHeap(k0: nat, ghost ws: set<Watcher>)
      requires HEAP0 <= k0 < HEAP0 + |timers|
      requires DistinctW(timers) && Indexed(timers, k0 - HEAP0, ws)
      modifies this`timers, ws`active
      ensures timers == UpFix(old(timers), k0 - HEAP0) && Indexed(timers, -1, ws)
    {
      hide DistinctW, UpFix;
      var k := k0;
      var he := timers[k - HEAP0];
      ghost var g := timers;
      var k';
      k', g := RiseOnce(k, he, g, ws);
      while k' != k
        invariant HEAP0 <= k' <= k <= k0 && |timers| == |g| == |old(timers)| && g == timers[k' - HEAP0 := he]
        invariant DistinctW(g) && Indexed(g, k' - HEAP0, ws)
        invariant UpFix(g, k' - HEAP0) == UpFix(old(timers), k0 - HEAP0)
        invariant k' == k ==> UpFix(g, k - HEAP0) == g
        decreases k' != k, k'
      {
        k := k';
        k', g := RiseOnce(k, he, g, ws);
      }
      Place(k - HEAP0, he, g, ws);
    }

    /** The search for the smallest child, with its fast path for four children. */
    method MinChild(j: nat, he: Anhe) returns (c: nat)
      requires j < |timers|
      ensures c == LeastChild(timers[j := he], j) && c < |timers| && (c > 0 ==> c > j)
    {
      var pos, end := DHEAP * j + 1, |timers|;
      if pos + DHEAP - 1 < end {
        c := pos;
        if timers[pos + 1].at < timers[c].at { c := pos + 1; }
        if timers[pos + 2].at < timers[c].at { c := pos + 2; }
        if timers[pos + 3].at < timers[c].at { c := pos + 3; }
      } else if pos < end {
        // the fourth test of this path cannot hold: pos + 3 is past the end here
        c := pos;
        if pos + 1 < end && timers[pos + 1].at < timers[c].at { c := pos + 1; }
        if pos + 2 < end && timers[pos + 2].at < timers[c].at { c := pos + 2; }
      } else {
        c := 0;
      }
    }

    /** One turn of the loop of downheap: stop, or pull up the earliest child. */
    method SinkOnce(k: nat, he: Anhe, ghost g: seq<Anhe>, ghost ws: set<Watcher>) returns (k': nat, ghost g': seq<Anhe>)
      requires HEAP0 <= k < HEAP0 + |timers| && g == timers[k - HEAP0 := he]
      requires DistinctW(g) && Indexed(g, k - HEAP0, ws)
      modifies this`timers, ws`active
      ensures k <= k' < HEAP0 + |timers| && |g'| == |g| == |timers| && g' == timers[k' - HEAP0 := he]
      ensures DistinctW(g') && Indexed(g', k' - HEAP0, ws)
      ensures if k' == k then g' == g && DownFix(g, k - HEAP0) == g else DownFix(g', k' - HEAP0) == DownFix(g, k - HEAP0)
    {
      hide LeastChild, DistinctW, DownFix;
      var c := MinChild(k - HEAP0, he);
      DownFixUnfold(g, k - HEAP0, c);
      k', g' := k, g;
      if c != 0 && timers[c].at < he.at {
        Pull(k - HEAP0, c, he, g, ws);
        g' := Swap(g, k - HEAP0, c);
        k' := c + HEAP0;
      }
    }

    method DownHeap(k0: nat, ghost ws: set<Watcher>)
      requires HEAP0 <= k0 < HEAP0 + |timers|
      requires DistinctW(timers) && Indexed(timers, k0 - HEAP0, ws)
      modifies this`timers, ws`active
      ensures timers == DownFix(old(timers), k0 - HEAP0) && Indexed(timers, -1, ws)
    {
      hide LeastChild, DistinctW, DownFix;
      var k := k0;
      var he := timers[k - HEAP0];
      ghost var g := timers;
      var k';
      k', g := SinkOnce(k, he, g, ws);
      while k' != k
        invariant HEAP0 <= k <= k' < HEAP0 + |timers| && |timers| == |g| == |old(timers)| && g == timers[k' - HEAP0 := he]
        invariant DistinctW(g) && Indexed(g, k' - HEAP0, ws)
        invariant DownFix(g, k' - HEAP0) == DownFix(old(timers), k0 - HEAP0)
        invariant k' == k ==> DownFix(g, k - HEAP0) == g
        decreases k' != k, |timers| + HEAP0 - k'
      {
        k := k';
        k', g := SinkOnce(k, he, g, ws);
      }
      Place(k - HEAP0, he, g, ws);
    }

    method AdjustHeap(k: nat, ghost ws: set<Watcher>)
      requires HEAP0 <= k < HEAP0 + |timers|
      requires DistinctW(timers) && Indexed(timers, k - HEAP0, ws)
      modifies this`timers, ws`active
      ensures timers == Adjusted(old(timers), k - HEAP0) && Indexed(timers, -1, ws)
    {
      ParentOfSlot(k);
      if k > HEAP0 && timers[k - HEAP0].at <= timers[HParent(k) - HEAP0].at {
        UpHeap(k, ws);
      } else {
        DownHeap(k, ws);
      }
    }

    method Reheap(ghost ws: set<Watcher>)
      requires DistinctW(timers) && Indexed(timers, -1, ws)
      modifies this`timers, ws`active
      ensures timers == Reheaped(old(timers), |old(timers)|) && Indexed(timers, -1, ws)
    {
      for i := 0 to |timers|
        invariant |timers| == |old(timers)| && timers == Reheaped(old(timers), i) && Indexed(timers, -1, ws)
      {
        ReheapedIsHeap(old(timers), i);
        UpFixLength(timers, i);
        UpHeap(i + HEAP0, ws);
      }
    }

    // ----- pending events

    ghost predicate SlotOk(p: nat, i: nat)
      reads this`pendings, all`pending
      requires p < |pendings| && i < |pendings[p]|
    {
      var w := pendings[p][i].w;
      w == pendingW || (w in all && w.pri == p && w.pending == i + 1)
    }

    ghost predicate QueuedOk(w: Watcher)
      reads this`pendings, w`pending
      requires w.pri < |pendings|
    {
      w.pending > 0 ==> w.pending <= |pendings[w.pri]| && pendings[w.pri][w.pending - 1].w == w
    }

    /** A watcher has pending = i + 1 exactly when slot i of its queue holds it. */
    ghost predicate PendingOk()
      reads this`pendings, all`pending
    {
      && |pendings| == NUMPRI && pendingW !in all
      && (forall w <- all :: w.pri < NUMPRI)
      && (forall p, i :: 0 <= p < NUMPRI && 0 <= i < |pendings[p]| ==> SlotOk(p, i))
      && (forall w <- all :: QueuedOk(w))
    }

    /** The index kept in the watcher is the slot a search would find. */
    lemma PendingIsSlot(w: Watcher)
      requires PendingOk() && w in all
      ensures w.pending == 0 ==> SlotOf(pendings[w.pri], w) == |pendings[w.pri]|
      ensures w.pending > 0 ==> SlotOf(pendings[w.pri], w) == w.pending - 1
    {
      var i := SlotOf(pendings[w.pri], w);
      assert QueuedOk(w);
      if i < |pendings[w.pri]| {
        assert SlotOk(w.pri, i);
      }
    }

    /** Every slot but those of one queue is as before. */
    lemma SlotsKept(w: Watcher)
      requires PendingOk() && w in all
      ensures forall p, i :: 0 <= p < NUMPRI && 0 <= i < |pendings[p]| ==> SlotOk(p, i)
      ensures w.pending == 0 ==> forall p, i :: 0 <= p < NUMPRI && 0 <= i < |pendings[p]| ==> pendings[p][i].w != w
    {
      forall p, i | 0 <= p < NUMPRI && 0 <= i < |pendings[p]| ensures w.pending == 0 ==> pendings[p][i].w != w {
        assert SlotOk(p, i);
      }
    }

    method MergeEvent(w: Watcher, revents: bv32)
      requires PendingOk() && w in all && w.pending > 0
      modifies this`pendings
      ensures PendingOk()
      ensures pendings == old(pendings)[w.pri := Fed(old(pendings)[w.pri], w, revents)]
    {
      PendingIsSlot(w);
      assert QueuedOk(w);
      var q := pendings[w.pri];
      var e := Anpending(w, q[w.pending - 1].events | revents);
      hide SlotOf;
      pendings := pendings[w.pri := q[w.pending - 1 := e]];
      forall p, i | 0 <= p < NUMPRI && 0 <= i < |pendings[p]| ensures SlotOk(p, i) {
        assert old(SlotOk(p, i));
      }
      forall x <- all ensures QueuedOk(x) {
        assert old(QueuedOk(x));
      }
    }

    method AppendEvent(w: Watcher, revents: bv32)
      requires PendingOk() && w in all && w.pending == 0
      modifies this`pendings, w`pending
      ensures PendingOk() && w.pending == |old(pendings)[w.pri]| + 1
      ensures pendings == old(pendings)[w.pri := Fed(old(pendings)[w.pri], w, revents)]
    {
      PendingIsSlot(w);
      SlotsKept(w);
      hide SlotOf;
      w.pending := |pendings[w.pri]| + 1;
      pendings := pendings[w.pri := pendings[w.pri] + [Anpending(w, revents)]];
      forall p, i | 0 <= p < NUMPRI && 0 <= i < |pendings[p]| ensures SlotOk(p, i) {
        if i < |old(pendings)[p]| {
          assert old(SlotOk(p, i));
        }
      }
      forall x <- all ensures QueuedOk(x) {
        assert old(QueuedOk(x));
      }
    }

    method FeedEvent(w: Watcher, revents: bv32)
      requires PendingOk() && w in all
      modifies this`pendings, this`pendingpri, w`pending
      ensures PendingOk() && pendingpri == NUMPRI - 1
      ensures pendings == old(pendings)[w.pri := Fed(old(pendings)[w.pri], w, revents)]
      ensures w.pending == if old(w.pending) > 0 then old(w.pending) else |old(pendings)[w.pri]| + 1
    {
      hide Fed;
      if w.pending > 0 {
        MergeEvent(w, revents);
      } else {
        AppendEvent(w, revents);
      }
      pendingpri := NUMPRI - 1;
    }

    /** An event for a watcher of the lowest priority in empty queues. */
    method FirstEvent(w: Watcher)
      requires PendingOk() && w in all && w.pending == 0 && EmptyFrom(0)
      modifies this`pendings, this`pendingpri, w`pending
      ensures PendingOk() && w.pending == 1
    {
      FeedEvent(w, EV_TIMER);
    }

    /** ev_clear_pending: the events that were pending, or 0. */
    method ClearPending(w: Watcher) returns (events: bv32)
      requires PendingOk() && w in all
      modifies this`pendings, w`pending
      ensures PendingOk() && w.pending == 0
      ensures pendings == old(pendings)[w.pri := Cleared(old(pendings)[w.pri], w, pendingW)]
      ensures events == var i, q := SlotOf(old(pendings)[w.pri], w), old(pendings)[w.pri];
                        if i < |q| then q[i].events else 0
    {
      PendingIsSlot(w);
      if w.pending > 0 {
        var q := pendings[w.pri];
        events := q[w.pending - 1].events;
        pendings := pendings[w.pri := q[w.pending - 1 := Anpending(pendingW, events)]];
        w.pending := 0;
        forall p, i | 0 <= p < NUMPRI && 0 <= i < |pendings[p]| ensures SlotOk(p, i) {
          assert old(SlotOk(p, i));
        }
        forall x <- all ensures QueuedOk(x) {
          assert old(QueuedOk(x));
        }
      } else {
        events := 0;
        assert pendings[w.pri := pendings[w.pri]] == pendings;
      }
    }

    /** One thing a callback does. */
    method Perform(r: Reaction)
      requires HeapOk() && PendingOk() && r.w in all
      modifies this`timers, this`pendings, this`pendingpri, all`active, all`at, all`pending
      ensures HeapOk() && PendingOk() && pendings == React(old(pendings), r, pendingW)
      ensures pendingpri == if r.Feed? then NUMPRI - 1 else old(pendingpri)
      ensures !r.Feed? ==> forall p :: 0 <= p < NUMPRI ==> |pendings[p]| == |old(pendings)[p]|
      ensures forall x <- all :: ClockOf(x) == AfterReaction(r, x, old(ClockOf(x)))
    {
      LengthOk();
      hide HeapOk, PendingOk, Fed, SlotOf;
      match r {
        case Feed(w, events) => FeedEvent(w, events);
        case Clear(w) => var _ := ClearPending(w);
        case _ => MoveTimer(r);
      }
    }

    method MoveTimer(r: Reaction)
      requires HeapOk() && PendingOk() && r.w in all && MovesTimer(r)
      modifies this`timers, this`pendings, all`active, r.w`at, r.w`pending
      ensures HeapOk() && PendingOk() && pendings == React(old(pendings), r, pendingW)
      ensures forall x <- all :: ClockOf(x) == AfterReaction(r, x, old(ClockOf(x)))
    {
      LengthOk();
      hide HeapOk, PendingOk, Cleared, SlotOf;
      match r {
        case Start(w) => TimerStart(w);
        case Stop(w) => TimerStop(w);
        case Again(w) => TimerAgain(w);
      }
      forall x <- all ensures ClockOf(x) == AfterReaction(r, x, old(ClockOf(x))) {
        assert x.active > 0 <==> x in Running();
        assert old(x.active) > 0 <==> x in old(Running());
      }
    }

    lemma LengthOk()
      requires PendingOk()
      ensures |pendings| == NUMPRI && forall w <- all :: w.pri < NUMPRI
    {
    }

    predicate MovesTimer(r: Reaction) {
      r.Start? || r.Stop? || r.Again?
    }

    /** Whether a timer runs, and its time. */
    function ClockOf(x: Watcher): Clock
      reads x`active, x`at
    {
      Clock(x.active > 0, x.at)
    }

    function AfterReaction(r: Reaction, x: Watcher, c: Clock): Clock
      reads this`mnNow, x`repeat
    {
      if r.w != x then c
      else
        match r
        case Start(_) => if c.runs then c else Clock(true, mnNow + c.at)
        case Stop(_) => Clock(false, if c.runs then c.at - mnNow else c.at)
        case Again(_) =>
          if x.repeat != 0.0 then Clock(true, mnNow + x.repeat) else Clock(false, if c.runs then c.at - mnNow else c.at)
        case _ => c
    }

    function AfterReactions(rs: seq<Reaction>, x: Watcher, c: Clock): Clock
      reads this`mnNow, x`repeat
    {
      if rs == [] then c
      else AfterReaction(rs[|rs| - 1], x, AfterReactions(rs[..|rs| - 1], x, c))
    }

    /** After the first n callbacks. */
    function AfterScript(script: seq<seq<Reaction>>, n: nat, x: Watcher, c: Clock): Clock
      requires n <= |script|
      reads this`mnNow, x`repeat
    {
      if n == 0 then c else AfterReactions(script[n - 1], x, AfterScript(script, n - 1, x, c))
    }

    ghost function Clocks(): (m: map<Watcher, Clock>)
      reads all`active, all`at
      ensures m.Keys == all
    {
      map x | x in all :: ClockOf(x)
    }

    /** The timers are where these reactions have left them. */
    ghost predicate Turned(rs: seq<Reaction>, clocks0: map<Watcher, Clock>)
      requires clocks0.Keys == all
      reads this`mnNow, all`active, all`at, all`repeat
    {
      forall x <- all :: ClockOf(x) == AfterReactions(rs, x, clocks0[x])
    }

    lemma TurnedNext(rs: seq<Reaction>, r: Reaction, before: map<Watcher, Clock>, clocks0: map<Watcher, Clock>)
      requires before.Keys == clocks0.Keys == all
      requires forall x <- all :: before[x] == AfterReactions(rs, x, clocks0[x])
      requires forall x <- all :: ClockOf(x) == AfterReaction(r, x, before[x])
      ensures Turned(rs + [r], clocks0)
    {
      assert (rs + [r])[..|rs|] == rs;
      hide AfterReaction;
    }

    lemma ClocksStart(script: seq<seq<Reaction>>)
      ensures ClocksAre(script, 0, Clocks())
    {
    }

    lemma ClocksNext(script: seq<seq<Reaction>>, k: nat, before: map<Watcher, Clock>, clocks0: map<Watcher, Clock>)
      requires k < |script| && before.Keys == clocks0.Keys == all
      requires forall x <- all :: before[x] == AfterScript(script, k, x, clocks0[x])
      requires Turned(script[k], before)
      ensures ClocksAre(script, k + 1, clocks0)
    {
      hide AfterReactions;
    }

    /** The timers are where n callbacks have left them. */
    ghost predicate ClocksAre(script: seq<seq<Reaction>>, n: nat, clocks0: map<Watcher, Clock>)
      requires n <= |script| && clocks0.Keys == all
      reads this`mnNow, all`active, all`at, all`repeat
    {
      forall x <- all :: ClockOf(x) == AfterScript(script, n, x, clocks0[x])
    }

    method PerformNext(ghost done: seq<Reaction>, r: Reaction, ghost clocks0: map<Watcher, Clock>)
      requires HeapOk() && PendingOk() && r.w in all && clocks0.Keys == all && Turned(done, clocks0)
      modifies this`timers, this`pendings, this`pendingpri, all`active, all`at, all`pending
      ensures HeapOk() && PendingOk() && pendings == React(old(pendings), r, pendingW)
      ensures pendingpri == if r.Feed? then NUMPRI - 1 else old(pendingpri)
      ensures !r.Feed? ==> forall p :: 0 <= p < NUMPRI ==> |pendings[p]| == |old(pendings)[p]|
      ensures Turned(done + [r], clocks0)
    {
      hide HeapOk, PendingOk, React, AfterReaction, AfterReactions;
      LengthOk();
      ghost var before := Clocks();
      Perform(r);
      TurnedNext(done, r, before, clocks0);
    }

    /** The body of one callback. */
    method Callback(rs: seq<Reaction>)
      requires HeapOk() && PendingOk() && forall r <- rs :: r.w in all
      modifies this`timers, this`pendings, this`pendingpri, all`active, all`at, all`pending
      ensures HeapOk() && PendingOk() && pendings == ReactAll(old(pendings), rs, pendingW)
      ensures pendingpri == NUMPRI - 1 || pendingpri == old(pendingpri)
      ensures pendingpri == old(pendingpri) || rs != []
      ensures pendingpri != NUMPRI - 1 ==> forall p :: 0 <= p < NUMPRI ==> |pendings[p]| == |old(pendings)[p]|
      ensures Turned(rs, old(Clocks()))
    {
      assert rs[..0] == [];
      LengthOk();
      ghost var clocks0 := Clocks();
      assert Turned([], clocks0);
      hide HeapOk, PendingOk, React, AfterReaction, Turned;
      for i := 0 to |rs|
        invariant HeapOk() && PendingOk() && |pendings| == NUMPRI && pendings == ReactAll(old(pendings), rs[..i], pendingW)
        invariant pendingpri == NUMPRI - 1 || pendingpri == old(pendingpri)
        invariant pendingpri == old(pendingpri) || i > 0
        invariant pendingpri != NUMPRI - 1 ==> forall p :: 0 <= p < NUMPRI ==> |pendings[p]| == |old(pendings)[p]|
        invariant Turned(rs[..i], clocks0)
      {
        assert rs[..i + 1][..i] == rs[..i] && rs[i] in rs;
        assert rs[..i + 1] == rs[..i] + [rs[i]];
        PerformNext(rs[..i], rs[i], clocks0);
        LengthOk();
      }
      assert rs[..|rs|] == rs;
    }

    /** Nothing is queued above priority n. */
    ghost predicate EmptyFrom(n: nat)
      reads this`pendings
    {
      |pendings| == NUMPRI && forall p :: n <= p < NUMPRI ==> pendings[p] == []
    }

    /** Take the last event of a queue; its watcher is no longer pending. */
    method Pop() returns (e: Anpending)
      requires PendingOk() && pendingpri < NUMPRI && pendings[pendingpri] != []
      modifies this`pendings, all`pending, pendingW`pending
      ensures PendingOk() && pendings == PopAt(old(pendings), pendingpri)
      ensures e == old(pendings)[pendingpri][|old(pendings)[pendingpri]| - 1]
      ensures e.w == pendingW || e.w in all
    {
      var p := pendingpri;
      var q := pendings[p];
      e := q[|q| - 1];
      assert SlotOk(p, |q| - 1);
      pendings := pendings[p := q[..|q| - 1]];
      e.w.pending := 0;
      forall p, i | 0 <= p < NUMPRI && 0 <= i < |pendings[p]| ensures SlotOk(p, i) {
        assert old(SlotOk(p, i));
      }
      forall x <- all ensures QueuedOk(x) {
        assert old(QueuedOk(x));
      }
    }

    lemma HighestIs(qs: Queues, n: nat, p: nat)
      requires p < n <= |qs| && qs[p] != [] && forall q :: p < q < n ==> qs[q] == []
      ensures Highest(qs, n) == p
    {
    }

    method CallbackAt(script: seq<seq<Reaction>>, k: nat, ghost clocks0: map<Watcher, Clock>)
      requires HeapOk() && PendingOk() && k < |script| && forall r <- script[k] :: r.w in all
      requires clocks0.Keys == all && ClocksAre(script, k, clocks0)
      modifies this`timers, this`pendings, this`pendingpri, all`active, all`at, all`pending
      ensures HeapOk() && PendingOk() && pendings == ReactAll(old(pendings), script[k], pendingW) && |pendings| == NUMPRI
      ensures pendingpri == NUMPRI - 1 || pendingpri == old(pendingpri)
      ensures pendingpri != NUMPRI - 1 ==> forall p :: 0 <= p < NUMPRI ==> |pendings[p]| == |old(pendings)[p]|
      ensures ClocksAre(script, k + 1, clocks0)
    {
      hide HeapOk, PendingOk, ReactAll, Turned, AfterScript;
      ghost var before := Clocks();
      Callback(script[k]);
      LengthOk();
      ClocksNext(script, k, before, clocks0);
    }

    /** One invocation: pop from the current priority and run the callback. */
    method InvokeOne(script: seq<seq<Reaction>>, k: nat, ghost clocks0: map<Watcher, Clock>)
      returns (e: Anpending, k': nat)
      requires HeapOk() && PendingOk() && pendingpri < NUMPRI && EmptyFrom(pendingpri + 1) && pendings[pendingpri] != []
      requires k <= |script| && forall rs <- script :: forall r <- rs :: r.w in all
      requires clocks0.Keys == all && ClocksAre(script, k, clocks0)
      modifies this`timers, this`pendings, this`pendingpri, all`active, all`at, all`pending, pendingW`pending
      ensures HeapOk() && PendingOk() && pendingpri < NUMPRI && EmptyFrom(pendingpri + 1)
      ensures k' == (if e.w != pendingW && k < |script| then k + 1 else k) && ClocksAre(script, k', clocks0)
      ensures k <= k' <= |script| && (k' == k ==> Total(pendings) < Total(old(pendings)) && pendingpri == old(pendingpri))
      ensures Invocations(old(pendings), script[k..], pendingW)
              == (if e.w == pendingW then [] else [e]) + Invocations(pendings, script[k'..], pendingW)
    {
      hide HeapOk, ReactAll, ClocksAre;
      ghost var qs := pendings;
      HighestIs(qs, NUMPRI, pendingpri);
      PopTotal(qs, pendingpri);
      e := Pop();
      k' := k;
      LengthOk();
      hide PendingOk;
      if e.w != pendingW && k < |script| {
        assert script[k] in script;
        assert script[k..][0] == script[k] && script[k..][1..] == script[k + 1..];
        CallbackAt(script, k, clocks0);
        k' := k + 1;
      }
    }

    /** The same, noting the event in the log. */
    method InvokeNext(script: seq<seq<Reaction>>, k: nat, log: seq<Anpending>, ghost clocks0: map<Watcher, Clock>)
      returns (log': seq<Anpending>, k': nat)
      requires HeapOk() && PendingOk() && pendingpri < NUMPRI && EmptyFrom(pendingpri + 1) && pendings[pendingpri] != []
      requires k == Min(|log|, |script|) && forall rs <- script :: forall r <- rs :: r.w in all
      requires clocks0.Keys == all && ClocksAre(script, k, clocks0)
      modifies this`timers, this`pendings, this`pendingpri, all`active, all`at, all`pending, pendingW`pending
      ensures HeapOk() && PendingOk() && pendingpri < NUMPRI && EmptyFrom(pendingpri + 1)
      ensures k <= k' == Min(|log'|, |script|) && ClocksAre(script, k', clocks0)
      ensures k' == k ==> Total(pendings) < Total(old(pendings)) && pendingpri == old(pendingpri)
      ensures log' + Invocations(pendings, script[k'..], pendingW) == log + Invocations(old(pendings), script[k..], pendingW)
    {
      hide Invocations, Total, HeapOk, PendingOk, ClocksAre, EmptyFrom;
      var e;
      e, k' := InvokeOne(script, k, clocks0);
      log' := log;
      ghost var after := Invocations(pendings, script[k'..], pendingW);
      if e.w != pendingW {
        Append(log, [e], after);
        log' := log + [e];
      } else {
        assert [] + after == after;
      }
    }

    /** The inner loop: empty the current priority, which feeding moves to the highest. */
    method InvokeLevel(script: seq<seq<Reaction>>, k0: nat, log0: seq<Anpending>, ghost clocks0: map<Watcher, Clock>)
      returns (log: seq<Anpending>, k: nat)
      requires HeapOk() && PendingOk() && pendingpri < NUMPRI && EmptyFrom(pendingpri + 1)
      requires k0 == Min(|log0|, |script|) && forall rs <- script :: forall r <- rs :: r.w in all
      requires clocks0.Keys == all && ClocksAre(script, k0, clocks0)
      modifies this`timers, this`pendings, this`pendingpri, all`active, all`at, all`pending, pendingW`pending
      ensures HeapOk() && PendingOk() && pendingpri < NUMPRI && EmptyFrom(pendingpri)
      ensures k0 <= k == Min(|log|, |script|) && ClocksAre(script, k, clocks0)
      ensures k == k0 ==> Total(pendings) <= Total(old(pendings)) && pendingpri == old(pendingpri)
      ensures log + Invocations(pendings, script[k..], pendingW) == log0 + Invocations(old(pendings), script[k0..], pendingW)
    {
      LengthOk();
      hide Invocations, Total, HeapOk, PendingOk, ClocksAre;
      log, k := log0, k0;
      while pendings[pendingpri] != []
        invariant HeapOk() && PendingOk() && pendingpri < NUMPRI && EmptyFrom(pendingpri + 1)
        invariant k0 <= k == Min(|log|, |script|) && ClocksAre(script, k, clocks0)
        invariant k == k0 ==> Total(pendings) <= Total(old(pendings)) && pendingpri == old(pendingpri)
        invariant log + Invocations(pendings, script[k..], pendingW) == log0 + Invocations(old(pendings), script[k0..], pendingW)
        decreases |script| - k, Total(pendings)
      {
        log, k := InvokeNext(script, k, log, clocks0);
      }
    }

    /** ev_invoke_pending: feeding anywhere restarts the scan at the highest priority. The
        callbacks may start and stop timers; the heap stays valid, and every timer is where they
        have left it. */
    method InvokePending(script: seq<seq<Reaction>>) returns (log: seq<Anpending>)
      requires HeapOk() && PendingOk() && forall rs <- script :: forall r <- rs :: r.w in all
      modifies this`timers, this`pendings, this`pendingpri, all`active, all`at, all`pending, pendingW`pending
      ensures HeapOk() && PendingOk() && EmptyFrom(0)
      ensures log == Invocations(old(pendings), script, pendingW)
      ensures ClocksAre(script, Min(|log|, |script|), old(Clocks()))
    {
      hide Invocations, Total, HeapOk, PendingOk, ClocksAre, Clocks;
      LengthOk();
      ClocksStart(script);
      ghost var clocks0 := Clocks();
      pendingpri := NUMPRI;
      log := [];
      var k := 0;
      assert script[0..] == script;
      while pendingpri != 0
        invariant HeapOk() && PendingOk() && pendingpri <= NUMPRI && EmptyFrom(pendingpri) && k <= |script|
        invariant log + Invocations(pendings, script[k..], pendingW) == Invocations(old(pendings), script, pendingW)
        invariant k == Min(|log|, |script|) && ClocksAre(script, k, clocks0)
        decreases |script| - k, Total(pendings), pendingpri
      {
        pendingpri := pendingpri - 1;
        log, k := InvokeLevel(script, k, log, clocks0);
      }
      NothingLeft(pendings, script[k..], pendingW);
      assert log + [] == log;
    }

    // ----- timers

    ghost predicate CachedOk(h: seq<Anhe>)
      reads all`at
    {
      forall i :: 0 <= i < |h| ==> h[i].w in all && h[i].at == h[i].w.at
    }

    /** A running timer sits in the slot it names. */
    ghost predicate PlacedIn(h: seq<Anhe>, w: Watcher)
      reads w`active
    {
      w.active > 0 ==> HEAP0 <= w.active < HEAP0 + |h| && h[w.active - HEAP0].w == w
    }

    /** Entries know their slots and times, and every running timer but those in gone is in
        the heap; those in gone are not. */
    ghost predicate Consistent(h: seq<Anhe>, gone: set<Watcher>)
      reads all`active, all`at
    {
      && Indexed(h, -1, all) && CachedOk(h)
      && (forall i :: 0 <= i < |h| ==> h[i].w !in gone)
      && (forall w <- all :: w !in gone ==> PlacedIn(h, w))
    }

    /** What verify_heap asserts, for the running timers that are not in gone. */
    ghost predicate HeapBut(gone: set<Watcher>)
      reads this`timers, all`active, all`at
    {
      DistinctW(timers) && Ordered(Keys(timers), |timers|) && Consistent(timers, gone)
    }

    ghost predicate HeapOk()
      reads this`timers, all`active, all`at
    {
      HeapBut({})
    }

    ghost predicate InHeap(w: Watcher)
      reads this`timers
    {
      exists i :: 0 <= i < |timers| && timers[i].w == w
    }

    /** HeapBut before the order is repaired: entry `hole` may be out of place. */
    ghost predicate Disturbed(hole: nat, gone: set<Watcher>)
      reads this`timers, all`active, all`at
    {
      && hole < |timers| && DistinctW(timers) && Indexed(timers, hole, all) && CachedOk(timers)
      && (forall i :: 0 <= i < |timers| ==> timers[i].w !in gone)
      && (forall w <- all :: w !in gone && w.active > 0 ==> InHeap(w))
    }

    ghost function Running(): set<Watcher>
      reads all`active
    {
      set w | w in all && w.active > 0
    }

    lemma RunningIsHeap()
      requires HeapOk()
      ensures Running() == Watchers(timers)
    {
      forall w <- all | w.active > 0 ensures w in Watchers(timers) {
        assert PlacedIn(timers, w) && timers[w.active - HEAP0] in timers;
      }
      forall w | w in Watchers(timers) ensures w in Running() {
        var e :| e in timers && e.w == w;
        var i :| 0 <= i < |timers| && timers[i] == e;
        assert timers[i].w in all && timers[i].w.active == i + HEAP0;
      }
    }

    /** What a permutation of a disturbed heap leaves to check. */
    lemma MovedOk(h: seq<Anhe>, gone: set<Watcher>)
      requires Permuted(timers, h) && Indexed(timers, -1, Watchers(h)) && Ordered(Keys(timers), |timers|)
      requires CachedOk(h) && forall i :: 0 <= i < |h| ==> h[i].w !in gone
      requires forall w <- all :: w !in gone && w.active > 0 ==> w in Watchers(h)
      ensures HeapBut(gone)
    {
      SameEntries(timers, h);
      forall i | 0 <= i < |timers| ensures timers[i].w in all && timers[i].w !in gone && timers[i].at == timers[i].w.at {
        assert timers[i] in h;
      }
      forall w <- all | w !in gone && w.active > 0 ensures PlacedIn(timers, w) {
        assert w in Watchers(timers);
        var e :| e in timers && e.w == w;
        var i :| 0 <= i < |timers| && timers[i] == e;
        assert timers[i].w.active == i + HEAP0;
      }
    }

    lemma IndexedBySelf(h: seq<Anhe>, hole: int)
      requires Indexed(h, hole, all)
      ensures Indexed(h, hole, Watchers(h))
    {
      forall i | 0 <= i < |h| ensures h[i].w in Watchers(h) {
        assert h[i] in h;
      }
    }

    lemma RunningInHeap(gone: set<Watcher>)
      requires forall w <- all :: w !in gone && w.active > 0 ==> InHeap(w)
      ensures forall w <- all :: w !in gone && w.active > 0 ==> w in Watchers(timers)
    {
      forall w <- all | w !in gone && w.active > 0 ensures w in Watchers(timers) {
        var i :| 0 <= i < |timers| && timers[i].w == w;
        assert timers[i] in timers;
      }
    }

    /** adjustheap on a disturbed heap; `was` is a key that was in order at that slot. */
    method Adjust(k: nat, ghost was: real, ghost gone: set<Watcher>, ghost ws: set<Watcher>)
      requires HEAP0 <= k && Disturbed(k - HEAP0, gone) && Ordered(Keys(timers)[k - HEAP0 := was], |timers|)
      requires ws == Watchers(timers)
      modifies this`timers, ws`active
      ensures HeapBut(gone) && Watchers(timers) == ws
    {
      ghost var h := timers;
      IndexedBySelf(h, k - HEAP0);
      RunningInHeap(gone);
      AdjustedIsHeap(h, k - HEAP0, was);
      SameEntries(Adjusted(h, k - HEAP0), h);
      hide Adjusted, Permuted, Watchers, Keys, DistinctW;
      AdjustHeap(k, ws);
      assert forall w <- all :: w !in gone && w.active > 0 ==> w in ws;
      MovedOk(h, gone);
    }

    /** upheap on a disturbed heap. */
    method Rise(k: nat, ghost ws: set<Watcher>)
      requires HEAP0 <= k && Disturbed(k - HEAP0, {}) && UpHole(Keys(timers), |timers|, k - HEAP0)
      requires ws == Watchers(timers)
      modifies this`timers, ws`active
      ensures HeapOk() && Watchers(timers) == ws
    {
      ghost var h := timers;
      IndexedBySelf(h, k - HEAP0);
      RunningInHeap({});
      RisenIsHeap(h, k - HEAP0);
      hide UpFix, Permuted, Watchers, Keys, DistinctW, UpHole, Ordered;
      UpHeap(k, ws);
      assert forall w <- all :: w.active > 0 ==> w in ws;
      MovedOk(h, {});
    }

    /** downheap of the root of a disturbed heap. */
    method Sink(ghost ws: set<Watcher>)
      requires Disturbed(0, {}) && DownHole(Keys(timers), |timers|, 0)
      requires ws == Watchers(timers)
      modifies this`timers, ws`active
      ensures HeapOk() && Watchers(timers) == ws
    {
      ghost var h := timers;
      IndexedBySelf(h, 0);
      RunningInHeap({});
      DownFixPermutes(h, 0);
      DownFixOrders(h, 0);
      SameEntries(DownFix(h, 0), h);
      hide DownFix, Permuted, Watchers, Keys, DistinctW, DownHole;
      DownHeap(HEAP0, ws);
      assert forall w <- all :: w.active > 0 ==> w in ws;
      MovedOk(h, {});
    }

    /** A watcher outside of the heap gets another time and slot. */
    method Mark(w: Watcher, at: real, active: nat)
      requires Consistent(timers, {w}) && w in all
      modifies w`at, w`active
      ensures Consistent(timers, {w}) && w.at == at && w.active == active
    {
      ghost var h := timers;
      w.at := at;
      w.active := active;
      forall x <- all | x != w ensures PlacedIn(h, x) {
        assert old(PlacedIn(h, x));
      }
    }

    /** A timer that is not running goes behind the last slot. */
    method PushTimer(w: Watcher)
      requires HeapOk() && w in all && w.active == 0
      modifies this`timers, w`active, w`at
      ensures w.at == old(w.at) + mnNow && w.active == HEAP0 + |old(timers)|
      ensures timers == old(timers) + [Anhe(w.at, w)]
      ensures Disturbed(w.active - HEAP0, {}) && UpHole(Keys(timers), |timers|, w.active - HEAP0)
      ensures Watchers(timers) == old(Watchers(timers)) + {w} && Watchers(timers) <= all
    {
      hide Watchers, Consistent, DistinctW, Ordered, Keys, UpHole, Disturbed;
      NotInHeap(w);
      AppendedHeap(timers, Anhe(w.at + mnNow, w));
      Mark(w, w.at + mnNow, |timers| + HEAP0);
      timers := timers + [Anhe(w.at, w)];
      Joined(old(timers), w);
      AppendedWatchers(old(timers), Anhe(w.at, w));
      DisturbedInAll(w.active - HEAP0);
    }

    lemma Joined(h: seq<Anhe>, w: Watcher)
      requires DistinctW(timers) && Consistent(h, {w}) && timers == h + [Anhe(w.at, w)]
      requires w in all && w.active == |h| + HEAP0
      ensures Disturbed(|h|, {})
    {
      hide DistinctW;
      forall x <- all | x.active > 0 ensures InHeap(x) {
        assert PlacedIn(h, x) || x == w;
        assert timers[x.active - HEAP0].w == x;
      }
    }

    /** A timer that is not running is put into the heap. */
    method InsertTimer(w: Watcher)
      requires HeapOk() && w in all && w.active == 0
      modifies this`timers, all`active, w`at
      ensures HeapOk() && Watchers(timers) == old(Watchers(timers)) + {w} && w.at == old(w.at) + mnNow
    {
      hide HeapOk, Watchers, UpHole, Keys, Ordered, Disturbed, DistinctW;
      PushTimer(w);
      Rise(w.active, Watchers(timers));
    }

    method TimerStart(w: Watcher)
      requires HeapOk() && w in all
      modifies this`timers, all`active, w`at
      ensures HeapOk() && Running() == old(Running()) + {w}
      ensures w.at == if old(w.active) > 0 then old(w.at) else old(w.at) + mnNow
    {
      if w.active > 0 {
        return;
      }
      hide HeapOk, Watchers;
      RunningIsHeap();
      InsertTimer(w);
      RunningIsHeap();
    }

    lemma DisturbedInAll(hole: nat)
      requires Disturbed(hole, {})
      ensures Watchers(timers) <= all
    {
    }

    /** The last entry leaves; it takes the place of the entry of w, or was that entry. */
    method CutTimer(w: Watcher)
      requires HeapOk() && w in all && w.active > 0
      modifies this`timers
      ensures HEAP0 <= w.active <= HEAP0 + |timers| && |timers| == |old(timers)| - 1
      ensures Watchers(timers) == old(Watchers(timers)) - {w}
      ensures w.active == HEAP0 + |timers| ==> HeapBut({w})
      ensures w.active < HEAP0 + |timers| ==>
                && Disturbed(w.active - HEAP0, {w})
                && Ordered(Keys(timers)[w.active - HEAP0 := old(timers[w.active - HEAP0].at)], |timers|)
    {
      hide Consistent, DistinctW, Ordered, Keys, Disturbed, Watchers;
      SlotHolds(w);
      var h, j := timers, w.active - HEAP0;
      RemovedHeap(h, j);
      timers := h[..|h| - 1];
      if w.active < |timers| + HEAP0 {
        timers := timers[j := h[|h| - 1]];
        StillInHeap(h, j, w);
      } else {
        LastGone(h, w);
      }
    }

    lemma SlotHolds(w: Watcher)
      requires HeapOk() && w in all && w.active > 0
      ensures HEAP0 <= w.active < HEAP0 + |timers| && timers[w.active - HEAP0].w == w
    {
      assert PlacedIn(timers, w);
    }

    lemma NotInHeap(w: Watcher)
      requires Consistent(timers, {}) && w.active == 0
      ensures Consistent(timers, {w}) && forall i :: 0 <= i < |timers| ==> timers[i].w != w
    {
      hide DistinctW;
    }

    lemma StillInHeap(h: seq<Anhe>, j: nat, w: Watcher)
      requires Consistent(h, {}) && j < |h| - 1 && h[j].w == w
      requires timers == h[..|h| - 1][j := h[|h| - 1]] && DistinctW(timers)
      ensures Disturbed(j, {w})
    {
      hide DistinctW;
      var n := |h| - 1;
      forall x <- all | x != w && x.active > 0 ensures InHeap(x) {
        assert PlacedIn(h, x);
        var i := x.active - HEAP0;
        assert timers[if i == n then j else i].w == x;
      }
      forall i | 0 <= i < |timers| ensures timers[i].w != w {
        assert h[if i == j then n else i].w.active == (if i == j then n else i) + HEAP0;
      }
    }

    lemma LastGone(h: seq<Anhe>, w: Watcher)
      requires |h| > 0 && Consistent(h, {}) && h[|h| - 1].w == w
      requires timers == h[..|h| - 1] && Ordered(Keys(timers), |timers|) && DistinctW(timers)
      ensures HeapBut({w})
    {
      hide Ordered, Keys, DistinctW;
      forall x <- all | x != w && x.active > 0 ensures PlacedIn(timers, x) {
        assert PlacedIn(h, x);
      }
    }

    /** The watcher that left the heap forgets its slot. */
    method Forget(w: Watcher)
      requires HeapBut({w}) && w in all
      modifies w`at, w`active
      ensures HeapOk() && w.active == 0 && w.at == old(w.at) - mnNow
    {
      hide Ordered, Keys, DistinctW;
      assert forall x <- all :: x != w ==> PlacedIn(timers, x);
      Mark(w, w.at - mnNow, 0);
      assert forall x <- all :: PlacedIn(timers, x);
    }

    method TimerStop(w: Watcher)
      requires HeapOk() && PendingOk() && w in all
      modifies this`timers, this`pendings, all`active, w`at, w`pending
      ensures HeapOk() && PendingOk() && Running() == old(Running()) - {w} && w.pending == 0
      ensures pendings == old(pendings)[w.pri := Cleared(old(pendings)[w.pri], w, pendingW)]
      ensures w.at == if old(w.active) > 0 then old(w.at) - mnNow else old(w.at)
    {
      RunningIsHeap();
      var _ := ClearPending(w);
      if w.active > 0 {
        StopRunning(w);
      }
    }

    method StopRunning(w: Watcher)
      requires HeapOk() && w in all && w.active > 0
      modifies this`timers, all`active, w`at
      ensures HeapOk() && Running() == old(Running()) - {w}
      ensures w.at == old(w.at) - mnNow
    {
      RunningIsHeap();
      assert PlacedIn(timers, w) && Running() <= all;
      ghost var was := timers[w.active - HEAP0].at;
      CutTimer(w);
      ghost var ws := Watchers(timers);
      hide Watchers, Keys, Ordered, Disturbed;
      if w.active < HEAP0 + |timers| {
        Adjust(w.active, was, {w}, ws);
      }
      Forget(w);
      RunningIsHeap();
    }

    /** A running timer gets another time, and the heap its cached copy. */
    method SetBoth(w: Watcher, at: real)
      requires Consistent(timers, {}) && w in all && HEAP0 <= w.active < HEAP0 + |timers| && timers[w.active - HEAP0].w == w
      modifies this`timers, w`at
      ensures Consistent(timers, {}) && w.at == at
      ensures timers == old(timers)[w.active - HEAP0 := Anhe(at, w)]
    {
      ghost var h := timers;
      w.at := at;
      timers := timers[w.active - HEAP0 := Anhe(at, w)];
      forall x <- all ensures PlacedIn(timers, x) {
        assert PlacedIn(h, x);
      }
    }

    method Rekey(w: Watcher, at: real)
      requires HeapOk() && w in all && w.active > 0
      modifies this`timers, w`at
      ensures w.at == at && |timers| == |old(timers)| && HEAP0 <= w.active < HEAP0 + |timers|
      ensures timers == old(timers)[w.active - HEAP0 := Anhe(at, w)]
      ensures Disturbed(w.active - HEAP0, {}) && Watchers(timers) == old(Watchers(timers)) <= all
      ensures Ordered(Keys(timers)[w.active - HEAP0 := old(timers[w.active - HEAP0].at)], |timers|)
    {
      hide Consistent, Ordered, Keys, DistinctW, Watchers, Disturbed;
      SlotHolds(w);
      RekeyedHeap(timers, w.active - HEAP0, at);
      ConsistentHeap(w.active - HEAP0);
      SetBoth(w, at);
      ConsistentHeap(w.active - HEAP0);
    }

    /** Any entry of a consistent heap may be taken to be out of place. */
    lemma ConsistentHeap(hole: nat)
      requires Consistent(timers, {}) && DistinctW(timers) && hole < |timers|
      ensures Disturbed(hole, {}) && Watchers(timers) <= all
    {
      hide DistinctW;
      forall x <- all | x.active > 0 ensures InHeap(x) {
        assert PlacedIn(timers, x);
      }
    }

    method TimerAgain(w: Watcher)
      requires HeapOk() && PendingOk() && w in all
      modifies this`timers, this`pendings, all`active, w`at, w`pending
      ensures HeapOk() && PendingOk() && w.pending == 0
      ensures Running() == if w.repeat != 0.0 then old(Running()) + {w} else old(Running()) - {w}
      ensures w.at == if w.repeat != 0.0 then mnNow + w.repeat else if old(w.active) > 0 then old(w.at) - mnNow else old(w.at)
      ensures pendings == old(pendings)[w.pri := Cleared(old(pendings)[w.pri], w, pendingW)]
    {
      hide HeapOk, PendingOk, Cleared, SlotOf;
      var _ := ClearPending(w);
      if w.active > 0 {
        if w.repeat != 0.0 {
          Restart(w, mnNow + w.repeat);
        } else {
          NothingToClear(w);
          TimerStop(w);
        }
      } else if w.repeat != 0.0 {
        SetTime(w, w.repeat);
        TimerStart(w);
      }
    }

    lemma NothingToClear(w: Watcher)
      requires PendingOk() && w in all && w.pending == 0
      ensures w.pri < |pendings| && pendings[w.pri := Cleared(pendings[w.pri], w, pendingW)] == pendings
    {
      PendingIsSlot(w);
    }

    /** The time of a timer that is not running is nobody's business. */
    method SetTime(w: Watcher, at: real)
      requires HeapOk() && w in all && w.active == 0
      modifies w`at
      ensures HeapOk() && w.at == at
    {
      hide Ordered, Keys, DistinctW;
      w.at := at;
    }

    method Restart(w: Watcher, at: real)
      requires HeapOk() && w in all && w.active > 0
      modifies this`timers, all`active, w`at
      ensures HeapOk() && Running() == old(Running()) && w.at == at
    {
      hide HeapBut, Watchers, Keys, Ordered, Disturbed, DistinctW;
      RunningIsHeap();
      SlotHolds(w);
      ghost var was := timers[w.active - HEAP0].at;
      Rekey(w, at);
      Adjust(w.active, was, {}, Watchers(timers));
      RunningIsHeap();
    }

    /** The loop of timers_reschedule. */
    method ShiftAll(adjust: real)
      requires Consistent(timers, {})
      modifies this`timers, all`at
      ensures |timers| == |old(timers)|
      ensures forall k :: 0 <= k < |timers| ==> timers[k] == Anhe(old(timers)[k].at + adjust, old(timers)[k].w)
      ensures forall w <- all :: w.at == old(w.at) + if w.active > 0 then adjust else 0.0
    {
      ghost var h := timers;
      for i := 0 to |timers|
        invariant |timers| == |h|
        invariant forall k :: 0 <= k < |h| ==> timers[k] == if k < i then Anhe(h[k].at + adjust, h[k].w) else h[k]
        invariant forall w <- all :: w.at == old(w.at) + if 0 < w.active < i + HEAP0 then adjust else 0.0
      {
        var w := timers[i].w;
        assert h[i].w == w && w.active == i + HEAP0 && old(w.at) == h[i].at;
        w.at := w.at + adjust;
        timers := timers[i := Anhe(w.at, w)];
      }
      assert forall w <- all :: PlacedIn(h, w);
    }

    /** All running timers move by the same amount; the heap needs no repair. */
    method TimersReschedule(adjust: real)
      requires HeapOk()
      modifies this`timers, all`at
      ensures HeapOk() && |timers| == |old(timers)|
      ensures forall w <- all :: w.at == old(w.at) + if w.active > 0 then adjust else 0.0
    {
      hide Ordered, Keys, DistinctW;
      ghost var h := timers;
      ShiftAll(adjust);
      Shifted(h, timers, adjust);
      forall k | 0 <= k < |h| ensures timers[k].w in all && timers[k].w.active == k + HEAP0 && timers[k].at == timers[k].w.at {
        assert timers[k].w == h[k].w;
      }
      forall w <- all ensures PlacedIn(timers, w) {
        assert PlacedIn(h, w);
      }
    }

    /** No running timer is earlier than the root. */
    lemma RootEarliest(w: Watcher)
      requires HeapOk() && w in all && w.active > 0
      ensures |timers| > 0 && timers[0].w.at <= w.at && timers[0].w in all
    {
      assert PlacedIn(timers, w);
      RootIsMin(Keys(timers), |timers|, w.active - HEAP0);
      hide Ordered, DistinctW;
    }

    /** One turn of the loop of timers_reify: the root is rescheduled, or stopped. */
    method ExpireRoot() returns (w: Watcher)
      requires HeapOk() && PendingOk() && |timers| > 0 && timers[0].w.repeat >= 0.0
      modifies this`timers, this`pendings, all`active, timers[0].w`at, all`pending
      ensures w == old(timers[0].w) && w in all && HeapOk() && PendingOk()
      ensures Running() == if w.repeat > 0.0 then old(Running()) else old(Running()) - {w}
      ensures w.at == Advanced(w, old(w.at))
      ensures w.repeat > 0.0 ==> w.at == if old(w.at) + w.repeat >= mnNow then old(w.at) + w.repeat else mnNow
      ensures w.repeat == 0.0 ==> w.at == old(w.at) - mnNow
      ensures pendings == if w.repeat > 0.0 then old(pendings) else React(old(pendings), Clear(w), pendingW)
    {
      w := timers[0].w;
      assert w in all && w.active == HEAP0 && timers[0].at == w.at;
      if w.repeat != 0.0 {
        ResinkRoot(w, Advanced(w, w.at));
      } else {
        TimerStop(w);
      }
    }

    /** The time of an expired timer afterwards. */
    function Advanced(w: Watcher, at: real): real
      reads this`mnNow, w`repeat
    {
      if w.repeat > 0.0 then (if at + w.repeat < mnNow then mnNow else at + w.repeat) else at - mnNow
    }

    method ResinkRoot(w: Watcher, at: real)
      requires HeapOk() && w in all && w.active == HEAP0
      modifies this`timers, all`active, w`at
      ensures HeapOk() && Running() == old(Running()) && w.at == at
    {
      hide HeapBut, Watchers, Keys, Ordered, Disturbed, DistinctW, DownHole;
      RunningIsHeap();
      SlotHolds(w);
      ghost var was := timers[0].at;
      Rekey(w, at);
      RootHole(timers, was);
      Sink(Watchers(timers));
      RunningIsHeap();
    }

    // ----- expiry of timers

    ghost function Times(): (m: map<Watcher, real>)
      reads all`at
      ensures m.Keys == all
    {
      map w | w in all :: w.at
    }

    /** A timer of before, that has or has not expired since. */
    ghost predicate TimerOk(w: Watcher, hit: bool, at: real, ran: bool)
      reads this`mnNow, w`repeat, w`active, w`at
    {
      && (w.active > 0 <==> ran && !(hit && w.repeat == 0.0))
      && w.at == if hit then Advanced(w, at) else at
    }

    /** The timers in fired, and no others, have expired since the times were at0 and run0
        was running: each once, in the order of their times, before all the others. */
    ghost predicate Caught(fired: seq<Watcher>, at0: map<Watcher, real>, run0: set<Watcher>)
      requires at0.Keys == all
      reads this`mnNow, all`repeat, all`active, all`at
    {
      && Distinct(fired)
      && (forall w <- fired :: w in run0 && w in all && at0[w] < mnNow)
      && (forall i, j :: 0 <= i < j < |fired| ==> at0[fired[i]] <= at0[fired[j]])
      && (forall w, x :: w in fired && x in run0 && x in all && x !in fired ==> at0[w] <= at0[x])
      && (forall w <- all :: TimerOk(w, w in fired, at0[w], w in run0))
    }

    ghost function Uncaught(fired: seq<Watcher>, at0: map<Watcher, real>, run0: set<Watcher>): set<Watcher>
      requires at0.Keys == all
      reads this`mnNow
    {
      set w | w in all && w in run0 && at0[w] < mnNow && w !in fired
    }

    /** The expired timers that do not repeat. */
    function OneShots(ws: seq<Watcher>): (os: seq<Watcher>)
      reads ws`repeat
      ensures forall w <- os :: w in ws && w.repeat <= 0.0
      ensures forall w <- ws :: w.repeat <= 0.0 ==> w in os
    {
      if ws == [] then []
      else
        var n := |ws| - 1;
        OneShots(ws[..n]) + if ws[n].repeat > 0.0 then [] else [ws[n]]
    }

    /** The root is expired, so it was not caught yet, and is the earliest of those left. */
    lemma RootIsNext(fired: seq<Watcher>, at0: map<Watcher, real>, run0: set<Watcher>)
      requires HeapOk() && at0.Keys == all && Caught(fired, at0, run0) && run0 <= all
      requires |timers| > 0 && timers[0].at < mnNow && timers[0].w in all && timers[0].w.repeat >= 0.0
      ensures var w := timers[0].w;
              && w !in fired && w in run0 && at0[w] == w.at < mnNow
              && forall x <- run0 :: x !in fired ==> at0[w] <= at0[x]
    {
      hide Ordered, Keys, DistinctW;
      var w := timers[0].w;
      assert w.active == HEAP0 && w.at == timers[0].at;
      assert TimerOk(w, w in fired, at0[w], w in run0);
      forall x <- run0 | x !in fired ensures at0[w] <= at0[x] {
        assert TimerOk(x, false, at0[x], true);
        RootEarliest(x);
      }
    }

    lemma RootInAll()
      requires HeapOk() && |timers| > 0
      ensures timers[0].w in all
    {
    }

    /** Expire the root and collect it. */
    method CatchOne(fired: seq<Watcher>, ghost at0: map<Watcher, real>, ghost run0: set<Watcher>) returns (w: Watcher)
      requires HeapOk() && PendingOk() && (forall x <- all :: x.repeat >= 0.0)
      requires at0.Keys == all && Caught(fired, at0, run0) && run0 <= all
      requires |timers| > 0 && timers[0].at < mnNow
      modifies this`timers, this`pendings, all`active, all`at, all`pending
      ensures HeapOk() && PendingOk() && Caught(fired + [w], at0, run0)
      ensures w in Uncaught(fired, at0, run0)
      ensures pendings == if w.repeat > 0.0 then old(pendings) else React(old(pendings), Clear(w), pendingW)
    {
      hide HeapOk, PendingOk, React;
      RootInAll();
      RootIsNext(fired, at0, run0);
      w := ExpireRoot();
      forall x <- all ensures TimerOk(x, x in fired + [w], at0[x], x in run0) {
        assert old(TimerOk(x, x in fired, at0[x], x in run0));
        assert x.active > 0 <==> x in Running();
        assert old(x.active) > 0 <==> x in old(Running());
      }
    }

    /** One turn of the collecting loop. */
    method CatchNext(fired: seq<Watcher>, ghost at0: map<Watcher, real>, ghost run0: set<Watcher>, ghost base: Queues)
      returns (fired': seq<Watcher>)
      requires HeapOk() && PendingOk() && (forall x <- all :: x.repeat >= 0.0)
      requires at0.Keys == all && Caught(fired, at0, run0) && run0 <= all
      requires |timers| > 0 && timers[0].at < mnNow
      requires pendings == ClearedAll(base, OneShots(fired), pendingW)
      modifies this`timers, this`pendings, all`active, all`at, all`pending
      ensures HeapOk() && PendingOk() && Caught(fired', at0, run0)
      ensures pendings == ClearedAll(base, OneShots(fired'), pendingW)
      ensures Uncaught(fired', at0, run0) < Uncaught(fired, at0, run0)
    {
      hide HeapOk, PendingOk, Caught, React;
      ghost var os := OneShots(fired);
      var w := CatchOne(fired, at0, run0);
      fired' := fired + [w];
      assert fired'[..|fired|] == fired;
      assert OneShots(fired') == if w.repeat > 0.0 then os else os + [w];
      assert (os + [w])[..|os|] == os;
    }

    lemma CaughtAll(fired: seq<Watcher>, at0: map<Watcher, real>, run0: set<Watcher>)
      requires HeapOk() && at0.Keys == all && Caught(fired, at0, run0) && run0 <= all
      requires |timers| == 0 || timers[0].at >= mnNow
      ensures Uncaught(fired, at0, run0) == {} && forall w <- all :: w.active > 0 ==> w.at >= mnNow
    {
      hide Ordered, Keys, DistinctW;
      forall w <- all | w.active > 0 ensures w.at >= mnNow {
        RootEarliest(w);
      }
      forall w <- all | w in run0 && w !in fired ensures at0[w] >= mnNow {
        assert TimerOk(w, false, at0[w], true);
      }
    }

    /** feed_reverse_done: the last one collected is fed first. */
    method FeedReverseDone(rfeeds: seq<Watcher>, revents: bv32)
      requires PendingOk() && forall w <- rfeeds :: w in all
      modifies this`pendings, this`pendingpri, all`pending
      ensures PendingOk() && pendings == FedBack(old(pendings), rfeeds, revents, pendingW)
    {
      var i := |rfeeds|;
      while i > 0
        invariant 0 <= i <= |rfeeds| && PendingOk()
        invariant pendings == FedBack(old(pendings), rfeeds[i..], revents, pendingW)
      {
        i := i - 1;
        assert rfeeds[i] in all && rfeeds[i..][1..] == rfeeds[i + 1..];
        hide FedBack, Fed;
        FedBackUnfold(old(pendings), rfeeds[i..], revents, pendingW);
        FeedEvent(rfeeds[i], revents);
      }
      assert rfeeds[0..] == rfeeds;
    }

    /** The queues after the expiry of the timers in fired: the events of those that stop are
        cleared, then all are fed. */
    ghost function AfterReify(qs: Queues, fired: seq<Watcher>): Queues
      reads fired`repeat
    {
      FedBack(ClearedAll(qs, OneShots(fired), pendingW), fired, EV_TIMER, pendingW)
    }

    /** timers_reify: every expired timer is collected once, in the order of expiry, and
        rescheduled or stopped; none stays expired; all are fed in reverse. */
    method TimersReify() returns (rfeeds: seq<Watcher>)
      requires HeapOk() && PendingOk() && forall w <- all :: w.repeat >= 0.0
      modifies this`timers, this`pendings, this`pendingpri, all`active, all`at, all`pending
      ensures HeapOk() && PendingOk()
      ensures Caught(rfeeds, old(Times()), old(Running())) && Uncaught(rfeeds, old(Times()), old(Running())) == {}
      ensures forall w <- all :: w.active > 0 ==> w.at >= mnNow
      ensures forall w <- rfeeds :: w.repeat > 0.0 ==>
                w.at == if old(w.at) + w.repeat >= mnNow then old(w.at) + w.repeat else mnNow
      ensures forall w <- rfeeds :: w.repeat == 0.0 ==> w.active == 0 && w.at == old(w.at) - mnNow
      ensures forall w <- all :: w !in rfeeds ==> w.at == old(w.at)
      ensures pendings == AfterReify(old(pendings), rfeeds)
    {
      hide HeapOk, PendingOk, FedBack, Caught, ClearedAll;
      ghost var at0, run0 := Times(), Running();
      rfeeds := [];
      NoneCaught(at0, run0);
      while |timers| > 0 && timers[0].at < mnNow
        invariant HeapOk() && PendingOk() && Caught(rfeeds, at0, run0)
        invariant pendings == ClearedAll(old(pendings), OneShots(rfeeds), pendingW)
        decreases Uncaught(rfeeds, at0, run0)
      {
        rfeeds := CatchNext(rfeeds, at0, run0, old(pendings));
      }
      CaughtAll(rfeeds, at0, run0);
      CaughtInAll(rfeeds, at0, run0);
      CaughtTimes(rfeeds, at0, run0);
      FeedReverseDone(rfeeds, EV_TIMER);
    }

    /** The times of the timers that were caught, and of the others. */
    lemma CaughtTimes(fired: seq<Watcher>, at0: map<Watcher, real>, run0: set<Watcher>)
      requires at0.Keys == all && Caught(fired, at0, run0)
      ensures forall w <- fired :: w.repeat > 0.0 ==>
                w.at == if at0[w] + w.repeat >= mnNow then at0[w] + w.repeat else mnNow
      ensures forall w <- fired :: w.repeat == 0.0 ==> w.active == 0 && w.at == at0[w] - mnNow
      ensures forall w <- all :: w !in fired ==> w.at == at0[w]
    {
      forall w <- all ensures w.at == if w in fired then Advanced(w, at0[w]) else at0[w] {
        assert TimerOk(w, w in fired, at0[w], w in run0);
      }
      forall w <- fired ensures w.repeat == 0.0 ==> w.active == 0 {
        assert TimerOk(w, true, at0[w], w in run0);
      }
    }

    lemma NoneCaught(at0: map<Watcher, real>, run0: set<Watcher>)
      requires at0 == Times() && run0 == Running()
      ensures Caught([], at0, run0) && ClearedAll(pendings, OneShots([]), pendingW) == pendings
    {
    }

    lemma CaughtInAll(fired: seq<Watcher>, at0: map<Watcher, real>, run0: set<Watcher>)
      requires at0.Keys == all && Caught(fired, at0, run0)
      ensures forall w <- fired :: w in all
    {
    }

    // ----- the order of expired timers

    lemma PendingSorted()
      requires PendingOk()
      ensures Sorted(pendings, pendingW)
    {
      forall p, i, j | 0 <= p < NUMPRI && 0 <= i < j < |pendings[p]| && pendings[p][i].w != pendingW
        ensures pendings[p][i].w != pendings[p][j].w
      {
        assert SlotOk(p, i) && SlotOk(p, j);
      }
      forall p, i | 0 <= p < NUMPRI && 0 <= i < |pendings[p]| ensures pendings[p][i].w == pendingW || pendings[p][i].w.pri == p {
        assert SlotOk(p, i);
      }
    }

    /** pend names the slot of each watcher, plus one, and 0 for those that have none. */
    ghost predicate Names(pend: map<Watcher, nat>, qs: Queues) {
      && pend.Keys == all && Sorted(qs, pendingW) && pendingW !in all
      && forall w <- all ::
           w.pri < |qs| && pend[w] <= |qs[w.pri]|
           && SlotOf(qs[w.pri], w) == if pend[w] > 0 then pend[w] - 1 else |qs[w.pri]|
    }

    /** The pending field of every watcher. */
    ghost function Pend(): (m: map<Watcher, nat>)
      reads all`pending
      ensures m.Keys == all
    {
      map w | w in all :: w.pending
    }

    lemma PendNames()
      requires PendingOk()
      ensures Names(Pend(), pendings)
    {
      PendingSorted();
      forall w <- all
        ensures w.pending <= |pendings[w.pri]|
        ensures SlotOf(pendings[w.pri], w) == if w.pending > 0 then w.pending - 1 else |pendings[w.pri]|
      {
        PendingIsSlot(w);
        assert QueuedOk(w);
      }
    }

    /** A repeating timer that was pending keeps its slot; all others queue up anew. */
    ghost predicate Kept(w: Watcher, pend: map<Watcher, nat>)
      reads w`repeat
    {
      w in pend && pend[w] > 0 && w.repeat > 0.0
    }

    /** The log runs both, and w before v unless w kept a slot below that of v. */
    ghost predicate RunsInOrder(log: seq<Anpending>, w: Watcher, v: Watcher, pend: map<Watcher, nat>)
      requires w in pend && v in pend
      reads w`repeat, v`repeat
    {
      && Turn(log, w) < |log| && Turn(log, v) < |log|
      && (Turn(log, w) < Turn(log, v) <==> !(Kept(w, pend) && (!Kept(v, pend) || pend[w] < pend[v])))
    }

    /** Of two expired timers of one priority that no callback clears, the earlier one runs
        first, unless it kept the slot of an event that was still pending. */
    lemma ExpiryOrder(qs: Queues, fired: seq<Watcher>, script: seq<seq<Reaction>>, pend: map<Watcher, nat>, i: nat, j: nat)
      requires Names(pend, qs) && (forall w <- fired :: w in all) && Distinct(fired)
      requires i < j < |fired| && fired[i].pri == fired[j].pri
      requires Proper(script, pendingW) && SparesAll(script, fired[i]) && SparesAll(script, fired[j])
      ensures RunsInOrder(Invocations(AfterReify(qs, fired), script, pendingW), fired[i], fired[j], pend)
    {
      var w, v, os := fired[i], fired[j], OneShots(fired);
      assert w in all && v in all;
      ClearedAllSlots(qs, os, pendingW, w);
      ClearedAllSlots(qs, os, pendingW, v);
      assert w in os <==> w.repeat <= 0.0;
      assert v in os <==> v.repeat <= 0.0;
      hide SlotOf, ClearedAll, OneShots, Sorted, FedBack, Invocations, SparesAll, Proper;
      CollectedOrder(ClearedAll(qs, os, pendingW), fired, EV_TIMER, script, pendingW, i, j);
    }

    /** Of one priority, and cleared by no callback. */
    ghost predicate Comparable(w: Watcher, v: Watcher, script: seq<seq<Reaction>>) {
      w.pri == v.pri && SparesAll(script, w) && SparesAll(script, v)
    }

    /** Exactly the timers that were running and expired, each once, in the order of expiry. */
    ghost predicate Expiries(fired: seq<Watcher>, at0: map<Watcher, real>, run0: set<Watcher>)
      requires at0.Keys == all
      reads this`mnNow
    {
      && Distinct(fired) && (forall w <- fired :: w in all)
      && (forall w <- all :: w in fired <==> w in run0 && at0[w] < mnNow)
      && (forall i, j :: 0 <= i < j < |fired| ==> at0[fired[i]] <= at0[fired[j]])
    }

    lemma CaughtAreExpiries(fired: seq<Watcher>, at0: map<Watcher, real>, run0: set<Watcher>)
      requires at0.Keys == all && Caught(fired, at0, run0) && Uncaught(fired, at0, run0) == {}
      ensures Expiries(fired, at0, run0)
    {
      forall w <- all | w in run0 && at0[w] < mnNow ensures w in fired {
        assert w !in Uncaught(fired, at0, run0);
      }
    }

    lemma OnlyTwo(fired: seq<Watcher>, at0: map<Watcher, real>, run0: set<Watcher>, w: Watcher, v: Watcher)
      requires at0.Keys == all == {w, v} == run0 && w != v && Expiries(fired, at0, run0) && at0[w] < at0[v] < mnNow
      ensures fired == [w, v]
    {
      assert w in fired && v in fired;
      var i, j :| 0 <= i < |fired| && fired[i] == w && 0 <= j < |fired| && fired[j] == v;
      DistinctCount(fired);
      assert (set x | x in fired) == {w, v};
    }

    lemma ScriptProper(script: seq<seq<Reaction>>)
      requires PendingOk() && forall rs <- script :: forall r <- rs :: r.w in all
      ensures Proper(script, pendingW)
    {
      forall k | 0 <= k < |script| ensures ProperAll(script[k], pendingW) {
        assert script[k] in script;
      }
    }

    /** The last part of one turn of ev_run: the expired timers are collected in the order of
        expiry and invoked with whatever else is pending, by callbacks that feed and clear
        events and start and stop timers. Those of one priority that no callback clears run in
        that order, unless an event was pending before. */
    method ExpireAndInvoke(script: seq<seq<Reaction>>) returns (rfeeds: seq<Watcher>, log: seq<Anpending>)
      requires HeapOk() && PendingOk() && forall w <- all :: w.repeat >= 0.0
      requires forall rs <- script :: forall r <- rs :: r.w in all
      modifies this`timers, this`pendings, this`pendingpri, all`active, all`at, all`pending, pendingW`pending
      ensures HeapOk() && PendingOk() && EmptyFrom(0)
      ensures Expiries(rfeeds, old(Times()), old(Running()))
      ensures log == Invocations(AfterReify(old(pendings), rfeeds), script, pendingW)
      ensures forall i, j :: 0 <= i < j < |rfeeds| && Comparable(rfeeds[i], rfeeds[j], script) ==>
                RunsInOrder(log, rfeeds[i], rfeeds[j], old(Pend()))
    {
      hide HeapOk, PendingOk, Names, RunsInOrder, Pend, Uncaught, Invocations, FedBack, AfterReify, SparesAll, ClocksAre, EmptyFrom;
      ghost var pend, qs, times, running := Pend(), pendings, Times(), Running();
      PendNames();
      ScriptProper(script);
      rfeeds := TimersReify();
      CaughtAreExpiries(rfeeds, times, running);
      log := InvokePending(script);
      forall i, j | 0 <= i < j < |rfeeds| && Comparable(rfeeds[i], rfeeds[j], script)
        ensures RunsInOrder(log, rfeeds[i], rfeeds[j], pend)
      {
        ExpiryOrder(qs, rfeeds, script, pend, i, j);
      }
    }

    // ----- every run

    /** The call is about watchers of this loop. */
    ghost predicate Applies(op: LoopOp) {
      match op
      case StartTimer(w) => w in all
      case StopTimer(w) => w in all
      case AgainTimer(w) => w in all
      case FeedTo(w, _) => w in all
      case ClearOf(w) => w in all
      case Invoke(script) => forall rs <- script :: forall r <- rs :: r.w in all
      case _ => true
    }

    /** What a call makes of a timer; of an invocation, the first n callbacks ran. */
    function AfterOp(op: LoopOp, n: nat, x: Watcher, c: Clock): Clock
      requires op.Invoke? ==> n <= |op.script|
      reads this`mnNow, x`repeat
    {
      match op
      case StartTimer(w) => AfterReaction(Start(w), x, c)
      case StopTimer(w) => AfterReaction(Stop(w), x, c)
      case AgainTimer(w) => AfterReaction(Again(w), x, c)
      case Reschedule(adjust) => if c.runs then Clock(true, c.at + adjust) else c
      case Reify =>
        if c.runs && c.at < mnNow then Clock(x.repeat > 0.0, Advanced(x, c.at)) else c
      case Invoke(script) => AfterScript(script, n, x, c)
      case _ => c
    }

    /** How many callbacks of the script a call runs. */
    ghost function CallbacksRun(op: LoopOp): (n: nat)
      reads this`pendings
      ensures op.Invoke? ==> n <= |op.script|
    {
      if op.Invoke? then Min(|Invocations(pendings, op.script, pendingW)|, |op.script|) else 0
    }

    /** Two timers of a new loop. */
    method StartFresh(w: Watcher, v: Watcher)
      requires HeapOk() && Running() == {} && all == {w, v} && w != v
      modifies this`timers, all`active, w`at, v`at
      ensures HeapOk() && Running() == {w, v} && w.at == old(w.at) + mnNow && v.at == old(v.at) + mnNow
    {
      hide HeapOk;
      assert w !in Running() && v !in Running();
      TimerStart(w);
      assert v !in Running();
      TimerStart(v);
    }

    /** Any call keeps the heap and the queues valid, and does to every timer what it says. */
    method Apply(op: LoopOp)
      requires HeapOk() && PendingOk() && Applies(op) && forall w <- all :: w.repeat >= 0.0
      modifies this, all`active, all`at, all`pending, pendingW`pending
      ensures HeapOk() && PendingOk() && mnNow == if op.Tick? then op.now else old(mnNow)
      ensures forall x <- all :: ClockOf(x) == AfterOp(op, old(CallbacksRun(op)), x, old(ClockOf(x)))
      ensures op.Reify? ==> forall x <- all :: old(x.active) > 0 && old(x.at) < mnNow && x.repeat > 0.0 ==>
                x.active > 0 && x.at == if old(x.at) + x.repeat >= mnNow then old(x.at) + x.repeat else mnNow
    {
      hide HeapOk, PendingOk, Invocations, AfterScript, Cleared;
      match op {
        case StartTimer(w) => MoveTimer(Start(w));
        case StopTimer(w) => MoveTimer(Stop(w));
        case AgainTimer(w) => MoveTimer(Again(w));
        case Reschedule(adjust) => TimersReschedule(adjust);
        case Tick(now) => mnNow := now;
        case FeedTo(w, events) => FeedEvent(w, events);
        case ClearOf(w) => var _ := ClearPending(w);
        case Reify => ApplyReify();
        case Invoke(script) => var _ := InvokePending(script);
      }
    }

    method ApplyReify()
      requires HeapOk() && PendingOk() && forall w <- all :: w.repeat >= 0.0
      modifies this`timers, this`pendings, this`pendingpri, all`active, all`at, all`pending
      ensures HeapOk() && PendingOk()
      ensures forall x <- all :: ClockOf(x) == AfterOp(Reify, 0, x, old(ClockOf(x)))
    {
      hide HeapOk, PendingOk, AfterReify;
      ghost var at0, run0 := Times(), Running();
      var rfeeds := TimersReify();
      CaughtAreExpiries(rfeeds, at0, run0);
      forall x <- all ensures ClockOf(x) == AfterOp(Reify, 0, x, old(ClockOf(x))) {
        assert TimerOk(x, x in rfeeds, at0[x], x in run0);
        assert old(x.active) > 0 <==> x in run0;
      }
    }

    /** Every heap and every state of the queues that any run of calls can reach is valid. */
    method Run(ops: seq<LoopOp>)
      requires HeapOk() && PendingOk() && (forall op <- ops :: Applies(op)) && forall w <- all :: w.repeat >= 0.0
      modifies this, all`active, all`at, all`pending, pendingW`pending
      ensures HeapOk() && PendingOk()
    {
      hide HeapOk, PendingOk, Applies, AfterOp, CallbacksRun;
      for i := 0 to |ops|
        invariant HeapOk() && PendingOk()
      {
        assert ops[i] in ops;
        Apply(ops[i]);
      }
    }

    // ----- repeating timers do not drift

    /** The call neither starts, stops, restarts nor shifts w. */
    ghost predicate Leaves(op: LoopOp, w: Watcher) {
      match op
      case StartTimer(x) => x != w
      case StopTimer(x) => x != w
      case AgainTimer(x) => x != w
      case Reschedule(_) => false
      case Invoke(script) => forall rs <- script, r <- rs :: MovesTimer(r) ==> r.w != w
      case _ => true
    }

    lemma {:induction false} ReactionsLeave(rs: seq<Reaction>, w: Watcher, c: Clock)
      requires forall r <- rs :: MovesTimer(r) ==> r.w != w
      ensures AfterReactions(rs, w, c) == c
    {
      if rs != [] {
        ReactionsLeave(rs[..|rs| - 1], w, c);
      }
    }

    lemma {:induction false} ScriptLeaves(script: seq<seq<Reaction>>, n: nat, w: Watcher, c: Clock)
      requires n <= |script| && forall rs <- script, r <- rs :: MovesTimer(r) ==> r.w != w
      ensures AfterScript(script, n, w, c) == c
    {
      if n > 0 {
        ScriptLeaves(script, n - 1, w, c);
        assert script[n - 1] in script;
        ReactionsLeave(script[n - 1], w, c);
        hide AfterReactions;
      }
    }

    lemma OpLeaves(op: LoopOp, n: nat, w: Watcher, c: Clock)
      requires Leaves(op, w) && (op.Invoke? ==> n <= |op.script|)
      ensures !op.Reify? || c.at >= mnNow ==> AfterOp(op, n, w, c) == c
    {
      if op.Invoke? {
        ScriptLeaves(op.script, n, w, c);
      }
    }

    /** In any run that leaves it alone, whatever the other timers and callbacks do, a repeating
        timer that is reified k times is due k repeats after it was, exactly: if the loop
        reifies at least once per repeat, lateness never adds up. And k is what it should be:
        the timer is due at the first multiple that is not before any reification. */
    method RunRepeating(ops: seq<LoopOp>, w: Watcher) returns (k: nat)
      requires HeapOk() && PendingOk() && (forall op <- ops :: Applies(op) && Leaves(op, w)) && forall x <- all :: x.repeat >= 0.0
      requires w in all && w.active > 0 && w.repeat > 0.0
      requires OnTime(ReifyTimes(mnNow, ops), w.at, w.repeat)
      modifies this, all`active, all`at, all`pending, pendingW`pending
      ensures HeapOk() && PendingOk() && w.active > 0 && w.at == old(w.at) + k as real * w.repeat
      ensures forall now <- ReifyTimes(old(mnNow), ops) :: now <= w.at
      ensures k > 0 ==> exists now <- ReifyTimes(old(mnNow), ops) :: w.at - w.repeat < now
    {
      hide HeapOk, PendingOk, Applies, Leaves, OnGrid, OnTime, ReifyTimes, NowAfter;
      ghost var at0, now0 := w.at, mnNow;
      NothingYet(now0, at0, w.repeat);
      assert ops[..0] == [];
      k := 0;
      var i := 0;
      while i < |ops|
        invariant i <= |ops| && HeapOk() && PendingOk() && w.active > 0 && mnNow == NowAfter(now0, ops[..i])
        invariant OnGrid(ReifyTimes(now0, ops[..i]), at0, w.at, k, w.repeat)
      {
        assert ops[i] in ops;
        k := RepeatingAt(ops, i, w, k, at0, now0);
        i := i + 1;
      }
      assert ops[..|ops|] == ops;
      GridMeans(ReifyTimes(now0, ops), at0, w.at, k, w.repeat);
    }

    method RepeatingAt(ops: seq<LoopOp>, i: nat, w: Watcher, k: nat, ghost at0: real, ghost now0: real) returns (k': nat)
      requires HeapOk() && PendingOk() && i < |ops| && Applies(ops[i]) && Leaves(ops[i], w) && forall x <- all :: x.repeat >= 0.0
      requires w in all && w.active > 0 && w.repeat > 0.0 && mnNow == NowAfter(now0, ops[..i])
      requires OnGrid(ReifyTimes(now0, ops[..i]), at0, w.at, k, w.repeat) && OnTime(ReifyTimes(now0, ops), at0, w.repeat)
      modifies this, all`active, all`at, all`pending, pendingW`pending
      ensures HeapOk() && PendingOk() && w.active > 0 && mnNow == NowAfter(now0, ops[..i + 1])
      ensures OnGrid(ReifyTimes(now0, ops[..i + 1]), at0, w.at, k', w.repeat)
    {
      hide HeapOk, PendingOk, Applies, Leaves, OnGrid, OnTime, ReifyTimes, NowAfter;
      TimesNext(now0, ops, i);
      TimesPrefix(now0, ops, i + 1);
      k' := StepRepeating(ops[i], w, k, at0, ReifyTimes(now0, ops[..i]), ReifyTimes(now0, ops));
    }

    /** One call; k counts the reifications of w. */
    method StepRepeating(op: LoopOp, w: Watcher, k: nat, ghost at0: real, ghost times: seq<real>, ghost later: seq<real>)
      returns (k': nat)
      requires HeapOk() && PendingOk() && Applies(op) && Leaves(op, w) && forall x <- all :: x.repeat >= 0.0
      requires w in all && w.active > 0 && w.repeat > 0.0 && OnGrid(times, at0, w.at, k, w.repeat)
      requires op.Reify? ==> times + [mnNow] <= later && OnTime(later, at0, w.repeat)
      modifies this, all`active, all`at, all`pending, pendingW`pending
      ensures HeapOk() && PendingOk() && w.active > 0 && mnNow == if op.Tick? then op.now else old(mnNow)
      ensures OnGrid(if op.Reify? then times + [mnNow] else times, at0, w.at, k', w.repeat)
    {
      hide HeapOk, PendingOk, Applies, Leaves, OnGrid, OnTime;
      k' := k;
      if op.Reify? {
        GridNext(times, later, mnNow, at0, w.at, k, w.repeat);
        if w.at < mnNow {
          k' := k + 1;
        }
      }
      ApplyTo(op, w);
    }

    /** What a call that leaves w alone does to it. */
    method ApplyTo(op: LoopOp, w: Watcher)
      requires HeapOk() && PendingOk() && Applies(op) && Leaves(op, w) && forall x <- all :: x.repeat >= 0.0
      requires w in all && w.active > 0 && w.repeat > 0.0 && (op.Reify? ==> mnNow <= w.at + w.repeat)
      modifies this, all`active, all`at, all`pending, pendingW`pending
      ensures HeapOk() && PendingOk() && mnNow == if op.Tick? then op.now else old(mnNow)
      ensures w.active > 0 && w.at == old(w.at) + if op.Reify? && old(w.at) < mnNow then w.repeat else 0.0
    {
      hide HeapOk, PendingOk, Applies, AfterOp, CallbacksRun, Leaves;
      ghost var c, n := ClockOf(w), CallbacksRun(op);
      Apply(op);
      OpLeaves(op, n, w, c);
    }
  }

  /** The time at the end of a run. */
  function NowAfter(now: real, ops: seq<LoopOp>): real {
    if ops == [] then now
    else
      var op := ops[|ops| - 1];
      if op.Tick? then op.now else NowAfter(now, ops[..|ops| - 1])
  }

  /** The times at which a run reifies. */
  function ReifyTimes(now: real, ops: seq<LoopOp>): seq<real> {
    if ops == [] then []
    else
      var n := |ops| - 1;
      ReifyTimes(now, ops[..n]) + if ops[n].Reify? then [NowAfter(now, ops[..n])] else []
  }

  /** The first time is at most a repeat after the timer is due, and each other one at most a
      repeat after the one before. */
  ghost predicate OnTime(times: seq<real>, at: real, repeat: real) {
    forall i :: 0 <= i < |times| ==> times[i] <= (if i == 0 then at else times[i - 1]) + repeat
  }

  lemma TimesNext(now: real, ops: seq<LoopOp>, i: nat)
    requires i < |ops|
    ensures ReifyTimes(now, ops[..i + 1])
            == if ops[i].Reify? then ReifyTimes(now, ops[..i]) + [NowAfter(now, ops[..i])] else ReifyTimes(now, ops[..i])
    ensures NowAfter(now, ops[..i + 1]) == if ops[i].Tick? then ops[i].now else NowAfter(now, ops[..i])
  {
    assert ops[..i + 1][..i] == ops[..i];
  }

  lemma {:induction false} TimesPrefix(now: real, ops: seq<LoopOp>, i: nat)
    requires i <= |ops|
    ensures ReifyTimes(now, ops[..i]) <= ReifyTimes(now, ops)
    decreases |ops| - i
  {
    if i == |ops| {
      assert ops[..i] == ops;
    } else {
      TimesPrefix(now, ops, i + 1);
      TimesNext(now, ops, i);
    }
  }

  /** at is k repeats after at0, and the first such time that is not before any of `times`. */
  ghost predicate OnGrid(times: seq<real>, at0: real, at: real, k: nat, repeat: real) {
    && at == at0 + k as real * repeat && at >= at0
    && (forall now <- times :: now <= at)
    && (k > 0 ==> exists now <- times :: at - repeat < now)
  }

  lemma NothingYet(now: real, at: real, repeat: real)
    ensures ReifyTimes(now, []) == [] && NowAfter(now, []) == now && OnGrid([], at, at, 0, repeat)
  {
  }

  lemma GridMeans(times: seq<real>, at0: real, at: real, k: nat, repeat: real)
    requires OnGrid(times, at0, at, k, repeat)
    ensures at == at0 + k as real * repeat && (forall now <- times :: now <= at)
    ensures k > 0 ==> exists now <- times :: at - repeat < now
  {
  }

  lemma GridNext(times: seq<real>, later: seq<real>, now: real, at0: real, at: real, k: nat, repeat: real)
    requires OnGrid(times, at0, at, k, repeat) && times + [now] <= later && OnTime(later, at0, repeat) && repeat > 0.0
    ensures now <= at + repeat
    ensures if at < now then OnGrid(times + [now], at0, at + repeat, k + 1, repeat) else OnGrid(times + [now], at0, at, k, repeat)
  {
    var n := |times|;
    assert (times + [now])[n] == now && later[n] == now;
    assert later[n] <= (if n == 0 then at0 else later[n - 1]) + repeat;
    if n > 0 {
      assert (times + [now])[n - 1] == times[n - 1] && later[n - 1] == times[n - 1];
      assert times[n - 1] in times;
    }
    assert now <= at + repeat;
    if at < now {
      assert (k + 1) as real * repeat == k as real * repeat + repeat;
      assert now in times + [now];
    } else if k > 0 {
      var t :| t in times && at - repeat < t;
      assert t in times + [now];
    }
  }

  /** A loop with two running timers of one priority, the first of which repeats. */
  method TwoTimers() returns (loop: Loop, w: Watcher, v: Watcher)
    ensures fresh(loop) && fresh(w) && fresh(v) && fresh(loop.pendingW) && loop.HeapOk() && loop.PendingOk()
    ensures w != v && loop.all == {w, v} == loop.Running() && w.pri == v.pri && loop.EmptyFrom(0)
    ensures w.at == 1.0 && v.at == 2.0 && w.repeat == 10.0 && v.repeat == 0.0 && w.pending == 0 && v.pending == 0
  {
    hide Loop.HeapOk, Loop.PendingOk, Loop.EmptyFrom, Loop.Running;
    w := new Watcher(1.0, 10.0, 0);
    v := new Watcher(2.0, 0.0, 0);
    loop := new Loop(0.0, {w, v});
    loop.StartFresh(w, v);
  }

  /** Both have expired, and the last event of the first is still pending. */
  method StillPending() returns (loop: Loop, w: Watcher, v: Watcher)
    ensures fresh(loop) && fresh(w) && fresh(v) && fresh(loop.pendingW) && loop.HeapOk() && loop.PendingOk()
    ensures w != v && loop.all == {w, v} == loop.Running() && w.pri == v.pri
    ensures w.at < v.at < loop.mnNow && w.repeat == 10.0 && v.repeat == 0.0 && w.pending == 1 && v.pending == 0
  {
    hide Loop.HeapOk, Loop.PendingOk, Loop.EmptyFrom;
    loop, w, v := TwoTimers();
    loop.FirstEvent(w);
    loop.mnNow := 3.0;
  }

  /** The order of expiry fails: w expires first, and v runs first. */
  method LateInvocation() returns (w: Watcher, v: Watcher, rfeeds: seq<Watcher>, log: seq<Anpending>)
    ensures rfeeds == [w, v] && Turn(log, v) < Turn(log, w) < |log|
  {
    var loop;
    loop, w, v := StillPending();
    hide Loop.HeapOk, Loop.PendingOk, Invocations, Loop.AfterReify;
    ghost var at0, run0 := loop.Times(), loop.Running();
    rfeeds, log := loop.ExpireAndInvoke([]);
    loop.OnlyTwo(rfeeds, at0, run0, w, v);
    assert loop.Comparable(rfeeds[0], rfeeds[1], []);
  }

  /** The calls on a loop. */
  datatype LoopOp =
    | StartTimer(w: Watcher)
    | StopTimer(w: Watcher)
    | AgainTimer(w: Watcher)
    | Reschedule(adjust: real)
    | Tick(now: real)
    | FeedTo(w: Watcher, events: bv32)
    | ClearOf(w: Watcher)
    | Reify
    | Invoke(script: seq<seq<Reaction>>)
}
