/** The poll(2) back end: a dense descriptor array with an inverse index. */
module PollBackEnd {
  import opened Readiness

  datatype PollBit = PollIn | PollOut | PollErr | PollHup | PollNval

  /** struct pollfd. */
  datatype PollFd = PollFd(fd: int, events: set<PollBit>, revents: set<PollBit>)

  function Reported(d: PollFd): ReadyEvent {
    ReadyEvent(d.fd, PollIn in d.revents, PollOut in d.revents,
               PollErr in d.revents || PollHup in d.revents || PollNval in d.revents)
  }

  /** Input makes a descriptor readable, output writable; the three error bits
      are errors. */
  ghost predicate FlagsMatch(e: ReadyEvent, answer: set<PollBit>) {
    && (e.read <==> PollIn in answer)
    && (e.write <==> PollOut in answer)
    && (e.error <==> exists bit :: bit in answer && bit in {PollErr, PollHup, PollNval})
  }

  lemma ReportedMatches(d: PollFd)
    ensures FlagsMatch(Reported(d), d.revents)
  {
  }

  /** How many descriptors poll(2) reports. */
  function ReadyCount(revents: seq<set<PollBit>>): nat {
    if revents == [] then 0
    else ReadyCount(revents[..|revents| - 1]) + (if revents[|revents| - 1] == {} then 0 else 1)
  }

  /** `indexes` is the exact inverse of `ds`, and every descriptor asks
      for input and possibly output. */
  ghost predicate Inverse(ds: seq<PollFd>, indexes: map<int, nat>) {
    && (forall fd :: fd in indexes ==> indexes[fd] < |ds| && ds[indexes[fd]].fd == fd)
    && (forall i :: 0 <= i < |ds| ==>
          && ds[i].fd in indexes
          && indexes[ds[i].fd] == i
          && (ds[i].events == {PollIn} || ds[i].events == {PollIn, PollOut}))
  }

  ghost function InterestOf(ds: seq<PollFd>, indexes: map<int, nat>): (m: map<int, bool>)
    requires Inverse(ds, indexes)
    ensures m.Keys == indexes.Keys
  {
    map fd | fd in indexes :: PollOut in ds[indexes[fd]].events
  }

  /** The view is fixed by what each slot of the array holds. */
  lemma InterestIs(ds: seq<PollFd>, indexes: map<int, nat>, m: map<int, bool>)
    requires Inverse(ds, indexes) && m.Keys == indexes.Keys
    requires forall i :: 0 <= i < |ds| ==> m[ds[i].fd] == (PollOut in ds[i].events)
    ensures InterestOf(ds, indexes) == m
  {
    forall fd | fd in m ensures InterestOf(ds, indexes)[fd] == m[fd] {
      assert ds[indexes[fd]].fd == fd;
    }
  }

  /** Removing a slot by moving the last one into it. */
  lemma SwapRemoved(ds: seq<PollFd>, indexes: map<int, nat>, fd: int)
    requires Inverse(ds, indexes) && fd in indexes
    ensures indexes[fd] < |ds|
    ensures var k, last := indexes[fd], |ds| - 1;
      var r := ds[k := ds[last]][..last];
      var inverse := if k < last then (indexes - {fd})[ds[last].fd := k] else indexes - {fd};
      Inverse(r, inverse) && InterestOf(r, inverse) == InterestOf(ds, indexes) - {fd}
  {
    var k, last := indexes[fd], |ds| - 1;
    var r := ds[k := ds[last]][..last];
    var inverse := if k < last then (indexes - {fd})[ds[last].fd := k] else indexes - {fd};
    assert Inverse(r, inverse);
    InterestIs(r, inverse, InterestOf(ds, indexes) - {fd});
  }

  class PollDispatcher {
    var descriptors: seq<PollFd>
    var indexes: map<int, nat>
    var lastMaxEvents: nat

    ghost predicate Valid()
      reads this
    {
      Inverse(descriptors, indexes)
    }

    /** The map the array stands for, the view shared with the epoll back end. */
    ghost function Interest(): map<int, bool>
      requires Valid()
      reads this
    {
      InterestOf(descriptors, indexes)
    }

    constructor ()
      ensures Valid() && Interest() == map[] && descriptors == []
    {
      descriptors, indexes, lastMaxEvents := [], map[], 0;
    }

    method Add(fd: int) returns (ok: bool)
      requires Valid() && fd !in Interest()
      modifies this
      ensures Valid() && ok
      ensures Interest() == old(Interest())[fd := false]
    {
      indexes := indexes[fd := |descriptors|];
      descriptors := descriptors + [PollFd(fd, {PollIn}, {})];
      ok := true;
      InterestIs(descriptors, indexes, old(Interest())[fd := false]);
    }

    method Remove(fd: int) returns (ok: bool)
      requires Valid()
      modifies this
      ensures Valid()
      ensures ok == (fd in old(Interest()))
      ensures Interest() == old(Interest()) - {fd}
    {
      hide Inverse, InterestOf;
      if fd !in indexes {
        return false;
      }
      SwapRemoved(descriptors, indexes, fd);
      var index := indexes[fd];
      var last := |descriptors| - 1;
      var movedFd := descriptors[last].fd;
      descriptors := descriptors[index := descriptors[last]];
      descriptors := descriptors[..last];
      indexes := indexes - {fd};
      if index < |descriptors| {
        indexes := indexes[movedFd := index];
      }
      ok := true;
    }

    method SetWriteInterest(fd: int, enabled: bool) returns (ok: bool)
      requires Valid()
      modifies this
      ensures Valid()
      ensures ok == (fd in old(Interest()))
      ensures Interest() == if ok then old(Interest())[fd := enabled] else old(Interest())
      ensures indexes == old(indexes)
    {
      if fd !in indexes {
        return false;
      }
      var d := descriptors[indexes[fd]];
      d := d.(events := if enabled then d.events + {PollOut} else d.events - {PollOut});
      descriptors := descriptors[indexes[fd] := d];
      ok := true;
      InterestIs(descriptors, indexes, old(Interest())[fd := enabled]);
    }

    /** `revents` and `count` are what poll(2) stored and returned. Every
        registered descriptor with a non-zero answer is reported exactly
        once, with its own flags, and nothing else is. */
    method Wait(revents: seq<set<PollBit>>, count: int) returns (result: int, events: seq<ReadyEvent>)
      requires Valid()
      requires |revents| == |descriptors|
      requires count > 0 ==> count == ReadyCount(revents)
      modifies this
      ensures Valid() && Interest() == old(Interest()) && indexes == old(indexes)
      ensures lastMaxEvents == |indexes|
      ensures result == count
      ensures count <= 0 ==> events == []
      ensures count > 0 ==> |events| == count
      ensures forall i, j :: 0 <= i < j < |events| ==> events[i].fd != events[j].fd
      ensures forall e :: e in events ==>
        && e.fd in indexes && indexes[e.fd] < |revents|
        && revents[indexes[e.fd]] != {}
        && (e.read <==> PollIn in revents[indexes[e.fd]])
        && (e.write <==> PollOut in revents[indexes[e.fd]])
        && (e.error <==> exists bit :: bit in revents[indexes[e.fd]] && bit in {PollErr, PollHup, PollNval})
      ensures count > 0 ==> forall fd :: fd in indexes && revents[indexes[fd]] != {} ==>
        exists e :: e in events && e.fd == fd
    {
      hide EventsOf, ReadyCount, Inverse, InterestOf, Answered;
      lastMaxEvents := |descriptors|;
      SlotsMatchIndexes(descriptors, indexes);
      events := [];
      if count > 0 {
        descriptors := Answered(descriptors, revents);
        AnsweredKeeps(old(descriptors), indexes, revents);
        EventsExact(descriptors, indexes);
        EventsCounted(old(descriptors), revents);
        EventsOfStart(descriptors);
        ghost var all := EventsOf(descriptors, |descriptors|);
        forall e | e in all ensures FlagsMatch(e, revents[indexes[e.fd]]) {
          ReportedMatches(descriptors[indexes[e.fd]]);
        }
        forall fd | fd in indexes && revents[indexes[fd]] != {} ensures exists e :: e in all && e.fd == fd {
          assert Reported(descriptors[indexes[fd]]) in all;
        }
        for i := 0 to |descriptors|
          invariant descriptors == Answered(old(descriptors), revents)
          invariant indexes == old(indexes) && lastMaxEvents == |indexes|
          invariant events == EventsOf(descriptors, i)
        {
          EventsOfStep(descriptors, i);
          if descriptors[i].revents != {} {
            events := events + [Reported(descriptors[i])];
          }
        }
      }
      result := count;
    }
  }

  /** The descriptors after the kernel stored its answer in them. */
  function Answered(ds: seq<PollFd>, revents: seq<set<PollBit>>): (r: seq<PollFd>)
    requires |revents| == |ds|
  {
    seq(|ds|, i requires 0 <= i < |ds| => ds[i].(revents := revents[i]))
  }

  /** Storing answers registers nothing and forgets nothing. */
  lemma AnsweredKeeps(ds: seq<PollFd>, indexes: map<int, nat>, revents: seq<set<PollBit>>)
    requires |revents| == |ds| && Inverse(ds, indexes)
    ensures var r := Answered(ds, revents);
      && Inverse(r, indexes) && InterestOf(r, indexes) == InterestOf(ds, indexes)
      && |r| == |ds| && forall fd :: fd in indexes ==>
           indexes[fd] < |ds| && r[indexes[fd]].revents == revents[indexes[fd]] && r[indexes[fd]].fd == fd
  {
    InterestIs(Answered(ds, revents), indexes, InterestOf(ds, indexes));
  }

  /** The reports of the first `n` slots. */
  function EventsOf(ds: seq<PollFd>, n: nat): seq<ReadyEvent>
    requires n <= |ds|
  {
    if n == 0 then []
    else EventsOf(ds, n - 1) + (if ds[n - 1].revents == {} then [] else [Reported(ds[n - 1])])
  }

  lemma EventsOfStart(ds: seq<PollFd>)
    ensures EventsOf(ds, 0) == []
  {
  }

  lemma EventsOfStep(ds: seq<PollFd>, n: nat)
    requires n < |ds|
    ensures EventsOf(ds, n + 1) ==
      if ds[n].revents == {} then EventsOf(ds, n) else EventsOf(ds, n) + [Reported(ds[n])]
  {
  }

  lemma {:induction false} EventsBefore(ds: seq<PollFd>, indexes: map<int, nat>, n: nat)
    requires Inverse(ds, indexes) && n <= |ds|
    ensures var es := EventsOf(ds, n);
      && (forall i, j :: 0 <= i < j < |es| ==> es[i].fd != es[j].fd)
      && (forall e :: e in es ==>
            e.fd in indexes && indexes[e.fd] < n && ds[indexes[e.fd]].revents != {} && e == Reported(ds[indexes[e.fd]]))
      && (forall k :: 0 <= k < n && ds[k].revents != {} ==> Reported(ds[k]) in es)
  {
    if n > 0 {
      EventsBefore(ds, indexes, n - 1);
      assert ds[n - 1].fd in indexes;
    }
  }

  /** Each ready descriptor is reported once, as itself; no other is. */
  lemma EventsExact(ds: seq<PollFd>, indexes: map<int, nat>)
    requires Inverse(ds, indexes)
    ensures var es := EventsOf(ds, |ds|);
      && (forall i, j :: 0 <= i < j < |es| ==> es[i].fd != es[j].fd)
      && (forall e :: e in es ==>
            e.fd in indexes && ds[indexes[e.fd]].revents != {} && e == Reported(ds[indexes[e.fd]]))
      && (forall fd :: fd in indexes && ds[indexes[fd]].revents != {} ==> Reported(ds[indexes[fd]]) in es)
  {
    EventsBefore(ds, indexes, |ds|);
  }

  lemma {:induction false} CountedBefore(ds: seq<PollFd>, revents: seq<set<PollBit>>, n: nat)
    requires |revents| == |ds| && n <= |ds|
    ensures |EventsOf(Answered(ds, revents), n)| == ReadyCount(revents[..n])
  {
    if n > 0 {
      CountedBefore(ds, revents, n - 1);
      assert revents[..n][..n - 1] == revents[..n - 1];
    }
  }

  lemma EventsCounted(ds: seq<PollFd>, revents: seq<set<PollBit>>)
    requires |revents| == |ds|
    ensures |Answered(ds, revents)| == |ds|
    ensures |EventsOf(Answered(ds, revents), |ds|)| == ReadyCount(revents)
  {
    CountedBefore(ds, revents, |ds|);
    assert revents[..|ds|] == revents;
  }

  ghost function FdSet(ds: seq<PollFd>): set<int> {
    set i | 0 <= i < |ds| :: ds[i].fd
  }

  lemma {:induction false} DistinctCount(ds: seq<PollFd>)
    requires forall i, j :: 0 <= i < j < |ds| ==> ds[i].fd != ds[j].fd
    ensures |FdSet(ds)| == |ds|
  {
    if ds != [] {
      var n := |ds| - 1;
      DistinctCount(ds[..n]);
      assert FdSet(ds) == FdSet(ds[..n]) + {ds[n].fd};
    }
  }

  /** As many slots as descriptors: the array has no stale entry. */
  lemma SlotsMatchIndexes(ds: seq<PollFd>, indexes: map<int, nat>)
    requires Inverse(ds, indexes)
    ensures |ds| == |indexes|
  {
    assert FdSet(ds) == indexes.Keys by {
      forall fd | fd in indexes ensures fd in FdSet(ds) {
        assert ds[indexes[fd]].fd == fd;
      }
    }
    DistinctCount(ds);
  }

  // --------------------------------------------------------------- whole runs

  datatype Call =
    | Adding(fd: int)
    | Removing(fd: int)
    | Setting(fd: int, enabled: bool)
    | Waiting(revents: seq<set<PollBit>>, count: int)

  /** Only a new descriptor is added, and poll(2) answers for every slot. */
  ghost predicate Permitted(m: map<int, bool>, call: Call) {
    match call
    case Adding(fd) => fd !in m
    case Waiting(revents, count) => |revents| == |m| && (count > 0 ==> count == ReadyCount(revents))
    case _ => true
  }

  /** What a call does to the map; to the array it is a swap-remove or less. */
  function After(m: map<int, bool>, call: Call): map<int, bool> {
    match call
    case Adding(fd) => m[fd := false]
    case Removing(fd) => m - {fd}
    case Setting(fd, enabled) => if fd in m then m[fd := enabled] else m
    case Waiting(_, _) => m
  }

  ghost predicate PermittedRun(m: map<int, bool>, calls: seq<Call>)
    decreases |calls|
  {
    calls == [] || (Permitted(m, calls[0]) && PermittedRun(After(m, calls[0]), calls[1..]))
  }

  function AfterAll(m: map<int, bool>, calls: seq<Call>): map<int, bool>
    decreases |calls|
  {
    if calls == [] then m else AfterAll(After(m, calls[0]), calls[1..])
  }

  /** Through any run of calls the array is a map from descriptor to interest. */
  method Perform(d: PollDispatcher, calls: seq<Call>)
    requires d.Valid() && PermittedRun(d.Interest(), calls)
    modifies d
    ensures d.Valid() && d.Interest() == AfterAll(old(d.Interest()), calls)
    ensures |d.descriptors| == |d.Interest()|
    decreases |calls|
  {
    hide Inverse, InterestOf, ReadyCount;
    SlotsMatchIndexes(d.descriptors, d.indexes);
    InterestKeys(d);
    if calls == [] {
      return;
    }
    match calls[0] {
      case Adding(fd) => var _ := d.Add(fd);
      case Removing(fd) => var _ := d.Remove(fd);
      case Setting(fd, enabled) => var _ := d.SetWriteInterest(fd, enabled);
      case Waiting(revents, count) => var _, _ := d.Wait(revents, count);
    }
    Perform(d, calls[1..]);
  }

  lemma InterestKeys(d: PollDispatcher)
    requires d.Valid()
    ensures d.Interest().Keys == d.indexes.Keys && |d.Interest()| == |d.indexes|
  {
    assert |d.Interest()| == |d.Interest().Keys|;
    assert |d.indexes| == |d.indexes.Keys|;
  }
}
