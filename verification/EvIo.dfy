/**
 I/O watchers of a libev loop: starting and stopping only marks a file descriptor as
 changed; fd_reify brings the poll tables up to date.
 */
module EvIo {
  import opened EvPoll

  const EV_ANFD_REIFY: bv8 := 0x01
  const EV_IOFDSET: bv8 := 0x80

  class Io {
    var active: bool
    var events: bv8
    const fd: nat

    constructor (fd: nat, events: bv8)
      ensures !active && this.fd == fd && this.events == events | EV_IOFDSET
    {
      active, this.fd, this.events := false, fd, events | EV_IOFDSET;
    }
  }

  /** The state of one file descriptor: its watchers, the mask the backend knows, and what
      has to be looked at. */
  datatype Anfd = Anfd(head: seq<Io>, events: bv8, reify: bv8)

  /** The events any of the watchers wants. */
  function Wanted(ws: seq<Io>): bv8
    reads ws
  {
    if ws == [] then 0 else ws[0].events | Wanted(ws[1..])
  }

  /** A kind of event is wanted when some watcher wants it. */
  lemma {:induction false} WantedBits(ws: seq<Io>, m: bv8)
    ensures Has(Wanted(ws), m) <==> exists w <- ws :: Has(w.events, m)
  {
    if ws != [] {
      WantedBits(ws[1..], m);
      OrBits(ws[0].events, Wanted(ws[1..]), m);
      hide Has;
      assert ws == [ws[0]] + ws[1..];
    } else {
      assert 0 & m == 0;
    }
  }

  lemma OrBits(a: bv8, b: bv8, m: bv8)
    ensures Has(a | b, m) <==> Has(a, m) || Has(b, m)
  {
  }

  /** The list without the first occurrence of w. */
  function Without(ws: seq<Io>, w: Io): (rs: seq<Io>)
    ensures w !in ws ==> rs == ws
    ensures forall x <- ws :: x != w ==> x in rs
    ensures forall x <- rs :: x in ws
  {
    if ws == [] then [] else if ws[0] == w then ws[1..] else [ws[0]] + Without(ws[1..], w)
  }

  lemma {:induction false} WithoutIsGone(ws: seq<Io>, w: Io)
    requires forall i, j :: 0 <= i < j < |ws| ==> ws[i] != ws[j]
    ensures w !in Without(ws, w) && forall i, j :: 0 <= i < j < |Without(ws, w)| ==> Without(ws, w)[i] != Without(ws, w)[j]
  {
    if ws != [] && ws[0] != w {
      WithoutIsGone(ws[1..], w);
      var rs := Without(ws[1..], w);
      assert ws[0] !in rs && Without(ws, w) == [ws[0]] + rs;
    }
  }

  function Masks(anfds: seq<Anfd>): (es: seq<bv8>)
    ensures |es| == |anfds|
  {
    seq(|anfds|, i requires 0 <= i < |anfds| => anfds[i].events)
  }

  predicate Legal(e: bv8) {
    e & 0xFC == 0
  }

  lemma {:induction false} WantedLegal(ws: seq<Io>)
    requires forall w <- ws :: Legal(w.events)
    ensures Legal(Wanted(ws))
  {
    if ws != [] {
      WantedLegal(ws[1..]);
      OrLegal(ws[0].events, Wanted(ws[1..]));
      hide Legal;
    }
  }

  lemma OrLegal(a: bv8, b: bv8)
    requires Legal(a) && Legal(b)
    ensures Legal(a | b)
  {
  }

  lemma OrLaws(a: bv8, b: bv8, c: bv8)
    ensures (a | b) | c == a | (b | c) && 0 | a == a && a | 0 == a
  {
  }

  lemma OrNonzero(a: bv8, b: bv8)
    requires b != 0
    ensures a | b != 0
  {
  }

  /** The flags passed for a started watcher, and the mask it keeps. */
  lemma StartFlags(e: bv8)
    ensures (e & EV_IOFDSET) | EV_ANFD_REIFY != 0
    ensures e & 0x7C == 0 ==> Legal(e & 0x7F)
  {
  }

  lemma LegalBits(e: bv8)
    requires Legal(e)
    ensures e != 0 <==> Has(e, EV_READ) || Has(e, EV_WRITE)
  {
  }

  /** array_needsize with array_init_zero. */
  function GrownFds(anfds: seq<Anfd>, n: nat): (r: seq<Anfd>)
    ensures |r| >= n && |r| >= |anfds| && r[..|anfds|] == anfds
    ensures forall fd :: |anfds| <= fd < |r| ==> r[fd] == Anfd([], 0, 0)
  {
    if |anfds| >= n then anfds else anfds + seq(n - |anfds|, _ => Anfd([], 0, 0))
  }

  lemma GrownMasks(ps: seq<Pollfd>, idxs: seq<int>, anfds: seq<Anfd>, n: nat)
    requires PollOk(ps, idxs, Masks(anfds))
    ensures PollOk(ps, idxs, Masks(GrownFds(anfds, n)))
  {
    var es, fs := Masks(anfds), Masks(GrownFds(anfds, n));
    forall fd: nat ensures Listed(ps, idxs, fs, fd) {
      assert Listed(ps, idxs, es, fd);
      assert fd < |anfds| ==> GrownFds(anfds, n)[..|anfds|][fd] == anfds[fd];
    }
  }

  /** The changed descriptors are those marked, each listed once. */
  ghost predicate Marked(anfds: seq<Anfd>, changes: seq<nat>) {
    && (forall i, j :: 0 <= i < j < |changes| ==> changes[i] != changes[j])
    && (forall fd <- changes :: fd < |anfds| && anfds[fd].reify != 0)
    && (forall fd: nat :: fd < |anfds| && anfds[fd].reify != 0 ==> fd in changes)
  }

  lemma GrownAt(anfds: seq<Anfd>, n: nat, fd: nat)
    requires fd < |GrownFds(anfds, n)|
    ensures GrownFds(anfds, n)[fd] == if fd < |anfds| then anfds[fd] else Anfd([], 0, 0)
  {
    assert fd < |anfds| ==> GrownFds(anfds, n)[..|anfds|][fd] == anfds[fd];
  }

  lemma GrownMarked(anfds: seq<Anfd>, changes: seq<nat>, n: nat)
    requires Marked(anfds, changes)
    ensures Marked(GrownFds(anfds, n), changes)
  {
    forall fd: nat | fd < |GrownFds(anfds, n)|
      ensures GrownFds(anfds, n)[fd] == if fd < |anfds| then anfds[fd] else Anfd([], 0, 0)
    {
      GrownAt(anfds, n, fd);
    }
    hide GrownFds;
  }

  lemma Unmarked(anfds: seq<Anfd>, fd: nat, rest: seq<nat>, a: Anfd)
    requires Marked(anfds, [fd] + rest) && a.reify == 0
    ensures fd < |anfds| && Marked(anfds[fd := a], rest)
  {
    var changes := [fd] + rest;
    assert changes[0] == fd && changes[1..] == rest && fd in changes;
    forall i, j | 0 <= i < j < |rest| ensures rest[i] != rest[j] {
      assert changes[i + 1] != changes[j + 1];
    }
    forall x <- rest ensures x != fd && x in changes {
      var i :| 0 <= i < |rest| && rest[i] == x;
      assert changes[i + 1] == x;
    }
  }

  lemma MasksUpdate(anfds: seq<Anfd>, fd: nat, a: Anfd)
    requires fd < |anfds|
    ensures Masks(anfds[fd := a]) == Masks(anfds)[fd := a.events]
  {
  }

  class IoLoop {
    var anfds: seq<Anfd>
    /** The file descriptors that have to be looked at. */
    var fdchanges: seq<nat>
    var polls: seq<Pollfd>
    var pollidxs: seq<int>
    /** All I/O watchers of the program. */
    ghost const all: set<Io>

    constructor (ghost watchers: set<Io>)
      requires forall w <- watchers :: !w.active
      ensures Valid() && all == watchers && anfds == []
    {
      anfds, fdchanges, polls, pollidxs, all := [], [], [], [], watchers;
    }

    /** The watchers of a descriptor are running, each once. */
    ghost predicate ListOk(fd: nat, ws: seq<Io>)
      reads ws
    {
      && (forall w <- ws :: w in all && w.active && w.fd == fd && Legal(w.events))
      && (forall i, j :: 0 <= i < j < |ws| ==> ws[i] != ws[j])
    }

    ghost predicate FdOk(fd: nat, a: Anfd)
      reads a.head
    {
      && ListOk(fd, a.head) && Legal(a.events)
      && (a.reify == 0 ==> a.events == Wanted(a.head))
    }

    /** A running watcher is in the list of its descriptor. */
    ghost predicate FiledIn(h: seq<Anfd>, w: Io)
      reads w
    {
      w.active ==> w.fd < |h| && w in h[w.fd].head
    }

    ghost predicate Known(a: Anfd) {
      forall w <- a.head :: w in all
    }

    ghost predicate ListsOk()
      reads this`anfds, all
    {
      && (forall fd :: 0 <= fd < |anfds| ==> Known(anfds[fd]) && FdOk(fd, anfds[fd]))
      && (forall w <- all :: FiledIn(anfds, w))
    }

    ghost predicate Valid()
      reads this, all
    {
      ListsOk() && Marked(anfds, fdchanges) && PollOk(polls, pollidxs, Masks(anfds))
    }

    // ----- the poll backend

    /** poll_modify: the mask of one descriptor goes from oev to nev. */
    method PollModify(fd: nat, oev: bv8, nev: bv8, ghost es: seq<bv8>)
      requires PollOk(polls, pollidxs, es) && fd < |es| && es[fd] == oev
      modifies this`polls, this`pollidxs
      ensures PollOk(polls, pollidxs, es[fd := nev])
    {
      hide PollOk, Bits;
      if oev == nev {
        assert es[fd := nev] == es;
        return;
      }
      GrownOk(polls, pollidxs, es, fd + 1);
      pollidxs := Grown(pollidxs, fd + 1);
      var idx := pollidxs[fd];
      IndexSign(polls, pollidxs, es, fd);
      if idx < 0 {
        AddedOk(polls, pollidxs, es, fd, nev);
        pollidxs := pollidxs[fd := |polls|];
        polls := polls + [Pollfd(fd, Bits(nev))];
      } else if nev != 0 {
        ChangedOk(polls, pollidxs, es, fd, nev);
        polls := polls[idx := Pollfd(fd, Bits(nev))];
      } else {
        RemovedOk(polls, pollidxs, es, fd, idx);
        pollidxs := pollidxs[fd := -1];
        var last := polls[|polls| - 1];
        polls := polls[..|polls| - 1];
        if idx < |polls| {
          polls := polls[idx := last];
          pollidxs := pollidxs[last.fd := idx];
        }
      }
    }

    // ----- starting and stopping

    method FdChange(fd: nat, flags: bv8)
      requires fd < |anfds| && Marked(anfds, fdchanges) && flags != 0
      modifies this`anfds, this`fdchanges
      ensures |anfds| == |old(anfds)| && Marked(anfds, fdchanges) && fd in fdchanges && anfds[fd].reify != 0
      ensures anfds == old(anfds)[fd := old(anfds)[fd].(reify := anfds[fd].reify)]
    {
      var a := anfds[fd];
      OrNonzero(a.reify, flags);
      anfds := anfds[fd := a.(reify := a.reify | flags)];
      if a.reify == 0 {
        fdchanges := fdchanges + [fd];
      }
    }

    /** Make room for a descriptor. */
    method Grow(fd: nat)
      requires Valid()
      modifies this`anfds
      ensures Valid() && fd < |anfds| && anfds == GrownFds(old(anfds), fd + 1)
    {
      GrownMasks(polls, pollidxs, anfds, fd + 1);
      GrownMarked(anfds, fdchanges, fd + 1);
      ghost var before := anfds;
      hide PollOk, Marked, Masks, FdOk;
      anfds := GrownFds(anfds, fd + 1);
      assert forall w <- all :: w.active ==> w.fd < |before| && w in before[w.fd].head by {
        assert forall w <- all :: old(FiledIn(anfds, w));
      }
      GrownLists(before, fd + 1);
    }

    lemma GrownLists(before: seq<Anfd>, n: nat)
      requires anfds == GrownFds(before, n) && forall x :: 0 <= x < |before| ==> Known(before[x]) && FdOk(x, before[x])
      requires forall w <- all :: w.active ==> w.fd < |before| && w in before[w.fd].head
      ensures ListsOk()
    {
      forall x | 0 <= x < |anfds| ensures Known(anfds[x]) && FdOk(x, anfds[x]) {
        GrownAt(before, n, x);
        NewFdOk(x);
      }
      hide FdOk;
      forall w <- all ensures FiledIn(anfds, w) {
        if w.active {
          GrownAt(before, n, w.fd);
        }
      }
    }

    lemma NewFdOk(fd: nat)
      ensures FdOk(fd, Anfd([], 0, 0))
    {
      WantedLegal([]);
    }

    /** The list of a descriptor changes, and the descriptor is marked. */
    method Relist(fd: nat, head: seq<Io>, flags: bv8)
      requires fd < |anfds| && Marked(anfds, fdchanges) && PollOk(polls, pollidxs, Masks(anfds)) && flags != 0
      modifies this`anfds, this`fdchanges
      ensures |anfds| == |old(anfds)| && Marked(anfds, fdchanges) && PollOk(polls, pollidxs, Masks(anfds))
      ensures fd in fdchanges && anfds[fd].reify != 0
      ensures anfds == old(anfds)[fd := Anfd(head, old(anfds)[fd].events, anfds[fd].reify)]
    {
      ghost var before := anfds;
      anfds := anfds[fd := anfds[fd].(head := head)];
      FdChange(fd, flags);
      assert anfds == before[fd := anfds[fd]];
      MasksUpdate(before, fd, anfds[fd]);
      hide PollOk;
      assert Masks(before)[fd := before[fd].events] == Masks(before);
    }

    /** The lists and watchers agree, leaving aside watcher w and the list of its descriptor. */
    ghost predicate OthersOk(h: seq<Anfd>, w: Io)
      reads all
    {
      && (forall fd :: 0 <= fd < |h| && fd != w.fd ==> Known(h[fd]) && FdOk(fd, h[fd]))
      && (forall x <- all :: x != w ==> FiledIn(h, x))
    }

    /** Change one watcher; the others, and lists without it, are not affected. */
    method Touch(w: Io, active: bool, events: bv8, ghost h: seq<Anfd>, ghost ws: seq<Io>)
      requires w in all && OthersOk(h, w) && (forall x <- ws :: x in all) && ListOk(w.fd, ws) && w !in ws
      modifies w
      ensures w.active == active && w.events == events && OthersOk(h, w) && ListOk(w.fd, ws)
    {
      hide Legal, Wanted;
      forall fd | 0 <= fd < |h| && fd != w.fd ensures w !in h[fd].head {
        assert FdOk(fd, h[fd]);
      }
      w.active, w.events := active, events;
      forall fd | 0 <= fd < |h| && fd != w.fd ensures Known(h[fd]) && FdOk(fd, h[fd]) {
        assert old(FdOk(fd, h[fd]));
      }
      forall x <- all | x != w ensures FiledIn(h, x) {
        assert old(FiledIn(h, x));
      }
    }

    /** Everything agrees again when the list of the descriptor does. */
    lemma Refiled(before: seq<Anfd>, w: Io)
      requires OthersOk(before, w) && w in all && w.fd < |anfds| && |anfds| == |before| && anfds == before[w.fd := anfds[w.fd]]
      requires Known(anfds[w.fd]) && FdOk(w.fd, anfds[w.fd]) && FiledIn(anfds, w)
      requires forall x <- before[w.fd].head :: x != w ==> x in anfds[w.fd].head
      ensures ListsOk()
    {
      hide FdOk;
      forall x <- all ensures FiledIn(anfds, x) {
        assert x != w ==> FiledIn(before, x);
      }
    }

    lemma ListsGiveOthers(w: Io)
      requires ListsOk()
      ensures OthersOk(anfds, w)
    {
      hide FdOk;
    }

    method IoStart(w: Io)
      requires Valid() && w in all && w.events & 0x7C == 0
      modifies this`anfds, this`fdchanges, w
      ensures Valid() && w.active
      ensures old(w.active) ==> w.events == old(w.events) && fdchanges == old(fdchanges) && anfds == old(anfds)
      ensures !old(w.active) ==> w.events == old(w.events) & 0x7F && w.fd in fdchanges && w.fd < |anfds|
      ensures !old(w.active) ==>
                var g := GrownFds(old(anfds), w.fd + 1);
                w.fd < |g| && anfds == g[w.fd := Anfd([w] + g[w.fd].head, g[w.fd].events, anfds[w.fd].reify)]
    {
      if w.active {
        return;
      }
      Grow(w.fd);
      StartFlags(w.events);
      var flags := (w.events & EV_IOFDSET) | EV_ANFD_REIFY;
      ghost var before := anfds;
      var ws := anfds[w.fd].head;
      ListsGiveOthers(w);
      assert Known(anfds[w.fd]) && FdOk(w.fd, anfds[w.fd]);
      hide PollOk, Marked, Legal, Wanted, ListsOk, OthersOk;
      Relist(w.fd, [w] + ws, flags);
      Touch(w, true, w.events & 0x7F, before, ws);
      FrontOk(w, ws);
      Refiled(before, w);
    }

    lemma FrontOk(w: Io, ws: seq<Io>)
      requires ListOk(w.fd, ws) && w in all && w.active && Legal(w.events) && w !in ws
      ensures ListOk(w.fd, [w] + ws)
    {
      hide Legal;
    }

    method IoStop(w: Io)
      requires Valid() && w in all
      modifies this`anfds, this`fdchanges, w
      ensures Valid() && !w.active && w.events == old(w.events)
      ensures !old(w.active) ==> fdchanges == old(fdchanges) && anfds == old(anfds)
      ensures old(w.active) ==> w.fd in fdchanges && w.fd < |old(anfds)| == |anfds|
      ensures old(w.active) ==>
                var a := old(anfds)[w.fd];
                anfds == old(anfds)[w.fd := Anfd(Without(a.head, w), a.events, anfds[w.fd].reify)]
    {
      if !w.active {
        return;
      }
      assert FiledIn(anfds, w) && Known(anfds[w.fd]) && FdOk(w.fd, anfds[w.fd]);
      ghost var before := anfds;
      var ws := Without(anfds[w.fd].head, w);
      WithoutIsGone(anfds[w.fd].head, w);
      ListsGiveOthers(w);
      hide PollOk, Marked, Legal, Wanted, ListsOk, OthersOk;
      Relist(w.fd, ws, EV_ANFD_REIFY);
      Touch(w, false, w.events, before, ws);
      Refiled(before, w);
    }

    // ----- fd_reify

    /** The events wanted by a list of watchers. */
    method Gather(ws: seq<Io>) returns (events: bv8)
      ensures events == Wanted(ws)
    {
      events := 0;
      OrLaws(Wanted(ws), 0, 0);
      assert ws[0..] == ws;
      for i := 0 to |ws|
        invariant events | Wanted(ws[i..]) == Wanted(ws)
      {
        assert ws[i..][1..] == ws[i + 1..];
        OrLaws(events, ws[i].events, Wanted(ws[i + 1..]));
        events := events | ws[i].events;
      }
      OrLaws(events, 0, 0);
    }

    /** One changed descriptor: its mask is recomputed, and the backend told. */
    method ReifyOne(fd: nat, ghost rest: seq<nat>)
      requires ListsOk() && PollOk(polls, pollidxs, Masks(anfds)) && Marked(anfds, [fd] + rest)
      modifies this`anfds, this`polls, this`pollidxs
      ensures ListsOk() && PollOk(polls, pollidxs, Masks(anfds)) && Marked(anfds, rest)
    {
      ghost var before := anfds;
      Unmarked(before, fd, rest, Anfd([], 0, 0));
      var a := anfds[fd];
      assert FdOk(fd, a);
      var events := Gather(a.head);
      WantedLegal(a.head);
      Unmarked(before, fd, rest, Anfd(a.head, events, 0));
      MasksUpdate(before, fd, Anfd(a.head, events, 0));
      hide PollOk, Marked, Legal;
      anfds := anfds[fd := Anfd(a.head, events, 0)];
      Relisted(before, fd);
      var reify := if a.events != events then EV_IOFDSET else a.reify;
      if reify & EV_IOFDSET != 0 {
        PollModify(fd, a.events, events, Masks(before));
      } else {
        assert Masks(before)[fd := events] == Masks(before);
      }
    }

    lemma Relisted(before: seq<Anfd>, fd: nat)
      requires fd < |before| && |anfds| == |before| && anfds == before[fd := anfds[fd]] && anfds[fd].head == before[fd].head
      requires FdOk(fd, anfds[fd]) && forall x :: 0 <= x < |before| ==> Known(before[x]) && FdOk(x, before[x])
      requires forall w <- all :: w.active ==> w.fd < |before| && w in before[w.fd].head
      ensures ListsOk()
    {
    }

    method FdReify()
      requires Valid()
      modifies this
      ensures Valid() && fdchanges == [] && Agrees()
    {
      hide PollOk, Marked;
      assert fdchanges[0..] == fdchanges;
      for i := 0 to |fdchanges|
        invariant fdchanges == old(fdchanges)
        invariant ListsOk() && PollOk(polls, pollidxs, Masks(anfds)) && Marked(anfds, fdchanges[i..])
      {
        assert fdchanges[i..] == [fdchanges[i]] + fdchanges[i + 1..];
        ReifyOne(fdchanges[i], fdchanges[i + 1..]);
      }
      fdchanges := [];
      AllAgree();
    }

    /** Some running watcher of a descriptor wants one of the events in m. */
    ghost predicate Wants(fd: nat, m: bv8)
      reads all
    {
      exists w <- all :: w.active && w.fd == fd && Has(w.events, m)
    }

    /** The entry of a descriptor as the running watchers want it. */
    ghost predicate EntryAgrees(p: Pollfd)
      reads all
    {
      && (p.events & POLLIN != 0 <==> Wants(p.fd, EV_READ))
      && (p.events & POLLOUT != 0 <==> Wants(p.fd, EV_WRITE))
      && p.events != 0
    }

    /** What poll(2) is asked for is what the running watchers want: one entry for each
        descriptor with a wish, none for the others. */
    ghost predicate Agrees()
      reads this`polls, this`pollidxs, all
    {
      && (forall i :: 0 <= i < |polls| ==> EntryAgrees(polls[i]) && Index(pollidxs, polls[i].fd) == i)
      && (forall w <- all :: w.active && (Has(w.events, EV_READ) || Has(w.events, EV_WRITE)) ==>
            var i := Index(pollidxs, w.fd);
            0 <= i < |polls| && polls[i].fd == w.fd)
    }

    lemma WantsIs(fd: nat, m: bv8)
      requires ListsOk() && (fd < |anfds| ==> anfds[fd].reify == 0)
      ensures Wants(fd, m) <==> Has(Mask(Masks(anfds), fd), m)
    {
      hide Legal;
      if fd < |anfds| {
        var ws := anfds[fd].head;
        assert FdOk(fd, anfds[fd]);
        WantedBits(ws, m);
        hide Has;
        forall w <- all | w.active && w.fd == fd ensures w in ws {
          assert FiledIn(anfds, w);
        }
      } else {
        assert !Has(0, m) by { WantedBits([], m); }
        forall w <- all | w.active ensures w.fd != fd {
          assert FiledIn(anfds, w);
        }
      }
    }

    lemma BitsOf(e: bv8)
      requires Legal(e)
      ensures Bits(e) & POLLIN != 0 <==> Has(e, EV_READ)
      ensures Bits(e) & POLLOUT != 0 <==> Has(e, EV_WRITE)
      ensures Bits(e) != 0 <==> e != 0
    {
      LegalBits(e);
    }

    lemma AllAgree()
      requires Valid() && fdchanges == []
      ensures Agrees()
    {
      var es := Masks(anfds);
      assert forall fd: nat :: fd < |anfds| ==> anfds[fd].reify == 0;
      forall i | 0 <= i < |polls| ensures EntryAgrees(polls[i]) && Index(pollidxs, polls[i].fd) == i {
        var fd := polls[i].fd;
        assert Found(polls, pollidxs, i) && Listed(polls, pollidxs, es, fd);
        MaskLegal(fd);
        BitsOf(Mask(es, fd));
        WantsIs(fd, EV_READ);
        WantsIs(fd, EV_WRITE);
      }
      forall w <- all | w.active && (Has(w.events, EV_READ) || Has(w.events, EV_WRITE))
        ensures 0 <= Index(pollidxs, w.fd) < |polls| && polls[Index(pollidxs, w.fd)].fd == w.fd
      {
        assert Listed(polls, pollidxs, es, w.fd);
        MaskLegal(w.fd);
        BitsOf(Mask(es, w.fd));
        WantsIs(w.fd, EV_READ);
        WantsIs(w.fd, EV_WRITE);
      }
    }

    lemma MaskLegal(fd: nat)
      requires ListsOk()
      ensures Legal(Mask(Masks(anfds), fd))
    {
      if fd < |anfds| {
        assert FdOk(fd, anfds[fd]);
      }
    }

    /** Any run of starts, stops and reifications keeps the loop valid: before a reification
        the changed descriptors are the marked ones, after it the tables agree. */
    method Run(ops: seq<Op>)
      requires Valid() && forall op <- ops :: op.Reify? || op.w in all
      requires forall w <- all :: w.events & 0x7C == 0
      modifies this, all
      ensures Valid() && Marked(anfds, fdchanges)
      ensures |ops| > 0 && ops[|ops| - 1].Reify? ==> Agrees()
    {
      for i := 0 to |ops|
        invariant Valid() && forall w <- all :: w.events & 0x7C == 0
        invariant i > 0 && ops[i - 1].Reify? ==> Agrees()
      {
        assert ops[i] in ops;
        hide Valid;
        match ops[i]
        case Start(w) => KeepsMask(w.events); IoStart(w);
        case Stop(w) => IoStop(w);
        case Reify => FdReify();
      }
    }
  }

  datatype Op = Start(w: Io) | Stop(w: Io) | Reify

  lemma KeepsMask(e: bv8)
    ensures e & 0x7C == 0 ==> (e & 0x7F) & 0x7C == 0
  {
  }
}
