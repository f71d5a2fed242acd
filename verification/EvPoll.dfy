/**
 The tables of libev's poll backend as values: `polls` is handed to poll(2), `pollidxs`
 finds the entry of a file descriptor. Both must agree with the event masks `es`, one per
 file descriptor.
 */
module EvPoll {
  const EV_READ: bv8 := 0x01
  const EV_WRITE: bv8 := 0x02
  const POLLIN: bv16 := 0x1
  const POLLOUT: bv16 := 0x4

  datatype Pollfd = Pollfd(fd: nat, events: bv16)

  /** Some bit of m is set in e. */
  predicate Has(e: bv8, m: bv8) {
    e & m != 0
  }

  function Bits(nev: bv8): bv16 {
    (if Has(nev, EV_READ) then POLLIN else 0) | (if Has(nev, EV_WRITE) then POLLOUT else 0)
  }

  function Mask(es: seq<bv8>, fd: nat): bv8 {
    if fd < |es| then es[fd] else 0
  }

  function Index(idxs: seq<int>, fd: nat): int {
    if fd < |idxs| then idxs[fd] else -1
  }

  /** A file descriptor with events has its entry, and one without has none. */
  ghost predicate Listed(ps: seq<Pollfd>, idxs: seq<int>, es: seq<bv8>, fd: nat) {
    var i := Index(idxs, fd);
    if Mask(es, fd) != 0 then 0 <= i < |ps| && ps[i] == Pollfd(fd, Bits(Mask(es, fd))) else i < 0
  }

  /** Every entry is found by its file descriptor, so there is one per descriptor. */
  ghost predicate Found(ps: seq<Pollfd>, idxs: seq<int>, i: nat)
    requires i < |ps|
  {
    Index(idxs, ps[i].fd) == i
  }

  ghost predicate PollOk(ps: seq<Pollfd>, idxs: seq<int>, es: seq<bv8>) {
    && (forall fd: nat :: Listed(ps, idxs, es, fd))
    && (forall i :: 0 <= i < |ps| ==> Found(ps, idxs, i))
  }

  /** array_needsize with pollidx_init. */
  function Grown(idxs: seq<int>, n: nat): (r: seq<int>)
    ensures |r| >= n && forall fd: nat :: Index(r, fd) == Index(idxs, fd)
  {
    if |idxs| >= n then idxs else idxs + seq(n - |idxs|, _ => -1)
  }

  lemma GrownOk(ps: seq<Pollfd>, idxs: seq<int>, es: seq<bv8>, n: nat)
    requires PollOk(ps, idxs, es)
    ensures PollOk(ps, Grown(idxs, n), es)
  {
    forall fd: nat ensures Listed(ps, Grown(idxs, n), es, fd) {
      assert Listed(ps, idxs, es, fd);
    }
    forall i | 0 <= i < |ps| ensures Found(ps, Grown(idxs, n), i) {
      assert Found(ps, idxs, i);
    }
  }

  lemma IndexSign(ps: seq<Pollfd>, idxs: seq<int>, es: seq<bv8>, fd: nat)
    requires PollOk(ps, idxs, es) && fd < |idxs| && fd < |es|
    ensures idxs[fd] < 0 <==> es[fd] == 0
    ensures idxs[fd] >= 0 ==> idxs[fd] < |ps| && ps[idxs[fd]].fd == fd
  {
    assert Listed(ps, idxs, es, fd);
  }

  /** A new entry at the end. */
  lemma AddedOk(ps: seq<Pollfd>, idxs: seq<int>, es: seq<bv8>, fd: nat, nev: bv8)
    requires PollOk(ps, idxs, es) && fd < |idxs| && fd < |es| && es[fd] == 0 && nev != 0
    ensures PollOk(ps + [Pollfd(fd, Bits(nev))], idxs[fd := |ps|], es[fd := nev])
  {
    hide Bits;
    var qs, js, fs := ps + [Pollfd(fd, Bits(nev))], idxs[fd := |ps|], es[fd := nev];
    assert Listed(ps, idxs, es, fd);
    forall x: nat ensures Listed(qs, js, fs, x) {
      assert Listed(ps, idxs, es, x);
    }
    forall i | 0 <= i < |qs| ensures Found(qs, js, i) {
      if i < |ps| {
        assert Found(ps, idxs, i);
      }
    }
  }

  lemma ChangedOk(ps: seq<Pollfd>, idxs: seq<int>, es: seq<bv8>, fd: nat, nev: bv8)
    requires PollOk(ps, idxs, es) && fd < |es| && es[fd] != 0 && nev != 0
    ensures var i := Index(idxs, fd);
            0 <= i < |ps| && PollOk(ps[i := Pollfd(fd, Bits(nev))], idxs, es[fd := nev])
  {
    hide Bits;
    var j := Index(idxs, fd);
    assert Listed(ps, idxs, es, fd);
    var qs, fs := ps[j := Pollfd(fd, Bits(nev))], es[fd := nev];
    forall x: nat ensures Listed(qs, idxs, fs, x) {
      assert Listed(ps, idxs, es, x);
      assert x != fd && Mask(es, x) != 0 ==> ps[Index(idxs, x)].fd == x;
    }
    forall i | 0 <= i < |qs| ensures Found(qs, idxs, i) {
      assert Found(ps, idxs, i);
    }
  }

  /** The tables without an entry; the last one takes its place. */
  function Removed(ps: seq<Pollfd>, j: nat): seq<Pollfd>
    requires j < |ps|
  {
    if j < |ps| - 1 then ps[..|ps| - 1][j := ps[|ps| - 1]] else ps[..|ps| - 1]
  }

  function Unindexed(ps: seq<Pollfd>, idxs: seq<int>, fd: nat, j: nat): seq<int>
    requires fd < |idxs| && j < |ps|
  {
    var js := idxs[fd := -1];
    if j < |ps| - 1 && ps[|ps| - 1].fd < |js| then js[ps[|ps| - 1].fd := j] else js
  }

  lemma RemovedListed(ps: seq<Pollfd>, idxs: seq<int>, es: seq<bv8>, fd: nat, j: nat, x: nat)
    requires PollOk(ps, idxs, es) && fd < |idxs| && fd < |es| && es[fd] != 0 && idxs[fd] == j < |ps|
    ensures Listed(Removed(ps, j), Unindexed(ps, idxs, fd, j), es[fd := 0], x)
  {
    hide Bits;
    var n := |ps| - 1;
    assert Listed(ps, idxs, es, fd) && Listed(ps, idxs, es, x) && Found(ps, idxs, n);
    assert Mask(es, x) != 0 ==> ps[Index(idxs, x)].fd == x;
  }

  lemma RemovedOk(ps: seq<Pollfd>, idxs: seq<int>, es: seq<bv8>, fd: nat, j: nat)
    requires PollOk(ps, idxs, es) && fd < |idxs| && fd < |es| && es[fd] != 0 && idxs[fd] == j < |ps|
    ensures PollOk(Removed(ps, j), Unindexed(ps, idxs, fd, j), es[fd := 0])
    ensures j < |ps| - 1 ==> ps[|ps| - 1].fd < |idxs|
  {
    var qs, js, fs, n := Removed(ps, j), Unindexed(ps, idxs, fd, j), es[fd := 0], |ps| - 1;
    forall x: nat ensures Listed(qs, js, fs, x) {
      RemovedListed(ps, idxs, es, fd, j, x);
    }
    assert Listed(ps, idxs, es, fd) && Found(ps, idxs, n);
    forall i | 0 <= i < |qs| ensures Found(qs, js, i) {
      assert Found(ps, idxs, i);
    }
  }
}
