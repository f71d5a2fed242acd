/**
 The history of an asynchronous hiredis connection as a value: which callbacks were
 registered, which left the queue and with what, and what that says about every callback.
 */
module AsyncSpec {
  import opened Bytes

  datatype Reply = Reply(isError: bool, value: int)

  /** A registered callback; id counts registrations, fn may be NULL. */
  datatype Callback = Callback(id: nat, hasFn: bool)

  /** A callback that left the queue, with its reply or NULL. */
  datatype Done = Done(cb: Callback, reply: Option<Reply>)

  /** The calls a program sees: those whose function is not NULL. */
  function Calls(done: seq<Done>): seq<Done> {
    if done == [] then []
    else
      var n := |done| - 1;
      Calls(done[..n]) + if done[n].cb.hasFn then [done[n]] else []
  }

  /** Callbacks leave in the order of registration; the first `answered` of them got the
      replies in the order of arrival, the others NULL. */
  ghost predicate History(done: seq<Done>, waiting: seq<Callback>, got: seq<Reply>, answered: nat) {
    && answered <= |done| && answered <= |got|
    && (forall k :: 0 <= k < |done| ==> done[k].cb.id == k)
    && (forall k :: 0 <= k < |waiting| ==> waiting[k].id == |done| + k)
    && (forall k :: 0 <= k < |done| ==> done[k].reply == if k < answered then Some(got[k]) else None)
  }

  /** The first waiting callback leaves without a reply. */
  lemma NextGetsNull(done: seq<Done>, waiting: seq<Callback>, got: seq<Reply>, answered: nat)
    requires History(done, waiting, got, answered)
    ensures waiting != [] ==> History(done + [Done(waiting[0], None)], waiting[1..], got, answered)
  {
  }

  /** A reply arrives for the first waiting callback, if there is one. */
  lemma NextGetsReply(done: seq<Done>, waiting: seq<Callback>, got: seq<Reply>, reply: Reply)
    requires History(done, waiting, got, |got|) && |got| == |done|
    ensures History(done, waiting, got + [reply], |got|)
    ensures waiting != [] ==> History(done + [Done(waiting[0], Some(reply))], waiting[1..], got + [reply], |got| + 1)
  {
  }

  lemma CallsSnoc(done: seq<Done>, d: Done)
    ensures Calls(done + [d]) == Calls(done) + if d.cb.hasFn then [d] else []
  {
    assert (done + [d])[..|done|] == done;
  }

  lemma {:induction false} CallsAre(done: seq<Done>, n: nat)
    requires n <= |done| && forall k :: 0 <= k < |done| ==> done[k].cb.id == k
    ensures forall c <- Calls(done[..n]) :: c.cb.id < n && c == done[c.cb.id] && c.cb.hasFn
    ensures forall k :: 0 <= k < n && done[k].cb.hasFn ==> done[k] in Calls(done[..n])
    ensures forall i, j :: 0 <= i < j < |Calls(done[..n])| ==> Calls(done[..n])[i].cb.id < Calls(done[..n])[j].cb.id
  {
    if n > 0 {
      CallsAre(done, n - 1);
      assert done[..n][..n - 1] == done[..n - 1];
    }
  }

  /** Every callback with a function is called once when it has left the queue, none is called
      otherwise or twice, and the calls follow the order of registration: the k-th registered
      callback gets the k-th reply, or NULL. */
  lemma ExactlyOnceInOrder(done: seq<Done>, waiting: seq<Callback>, got: seq<Reply>, answered: nat)
    requires History(done, waiting, got, answered)
    ensures var calls := Calls(done);
            && (forall k :: 0 <= k < |done| ==> (done[k].cb.hasFn <==> done[k] in calls))
            && (forall c <- calls :: c.cb.id < |done| && c.reply == if c.cb.id < answered then Some(got[c.cb.id]) else None)
            && (forall i, j :: 0 <= i < j < |calls| ==> calls[i].cb.id < calls[j].cb.id)
            && (forall c <- calls :: forall w <- waiting :: c.cb.id < w.id)
  {
    assert done[..|done|] == done;
    CallsAre(done, |done|);
  }

  /** The same, for replies that are the first ones of those that arrived. */
  lemma CallsGetReplies(done: seq<Done>, waiting: seq<Callback>, got: seq<Reply>, answered: nat, arrived: seq<Reply>)
    requires History(done, waiting, got, answered) && got <= arrived
    ensures forall d <- Calls(done) ::
              && d.cb.hasFn && d.cb.id < |done|
              && match d.reply case Some(r) => d.cb.id < |arrived| && r == arrived[d.cb.id] case None => answered < |done|
    ensures forall i, j :: 0 <= i < j < |Calls(done)| ==> Calls(done)[i].cb.id < Calls(done)[j].cb.id
    ensures forall d <- Calls(done), w <- waiting :: d.cb.id < w.id
  {
    ExactlyOnceInOrder(done, waiting, got, answered);
    assert done[..|done|] == done;
    CallsAre(done, |done|);
    hide Calls;
  }
}
