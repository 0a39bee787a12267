/** The offer schedule of the load generator and its accounting.

    Rates, durations and periods are exact reals. `active_indices` is
    0..active-1, so a client's position in it is its index.
  */
module Offers {
  import opened Arithmetic

  // ------------------------------------------------------------------ strides

  /** first, first + step, ... below `limit`: Python's range(limit)[first::step]. */
  function Stride(first: nat, step: nat, limit: nat): seq<nat>
    requires step > 0
    decreases limit - first
  {
    if first >= limit then [] else [first] + Stride(first + step, step, limit)
  }

  /** Sum of `g` over a list. */
  function Total(list: seq<nat>, g: nat -> nat): nat {
    if list == [] then 0 else g(list[0]) + Total(list[1..], g)
  }

  function One(x: nat): nat { 1 }

  lemma TotalCons(x: nat, rest: seq<nat>, g: nat -> nat)
    ensures Total([x] + rest, g) == g(x) + Total(rest, g)
  {
    assert ([x] + rest)[1..] == rest;
  }

  lemma {:induction false} TotalAppend(list: seq<nat>, x: nat, g: nat -> nat)
    ensures Total(list + [x], g) == Total(list, g) + g(x)
  {
    if list == [] {
      assert list + [x] == [x];
    } else {
      assert (list + [x])[1..] == list[1..] + [x];
      TotalAppend(list[1..], x, g);
    }
  }

  lemma {:induction false} TotalOfOnes(list: seq<nat>)
    ensures Total(list, One) == |list|
  {
    if list != [] {
      TotalOfOnes(list[1..]);
    }
  }

  lemma {:induction false} TotalOfZeros(list: seq<nat>, g: nat -> nat)
    requires forall i :: 0 <= i < |list| ==> g(list[i]) == 0
    ensures Total(list, g) == 0
  {
    if list != [] {
      TotalOfZeros(list[1..], g);
    }
  }

  lemma StrideTotal(first: nat, step: nat, limit: nat, g: nat -> nat)
    requires step > 0
    ensures Total(Stride(first, step, limit), g)
         == if first >= limit then 0 else g(first) + Total(Stride(first + step, step, limit), g)
  {
    if first < limit {
      TotalCons(first, Stride(first + step, step, limit), g);
    }
  }

  /** A stride has 1 + (limit - 1 - first) / step elements. */
  lemma {:induction false} StrideLength(first: nat, step: nat, limit: nat)
    requires step > 0 && first < limit
    ensures |Stride(first, step, limit)| == 1 + (limit - 1 - first) / step
    ensures Total(Stride(first, step, limit), One) == |Stride(first, step, limit)|
    decreases limit - first
  {
    StrideTotal(first, step, limit, One);
    if first + step < limit {
      StrideLength(first + step, step, limit);
      QuotientStep(limit - 1 - first, step);
    } else {
      StrideTotal(first + step, step, limit, One);
      SmallQuotient(limit - 1 - first, step);
    }
  }

  lemma {:induction false} StrideAt(first: nat, step: nat, limit: nat, i: nat)
    requires step > 0
    ensures var stride := Stride(first, step, limit);
      && (i < |stride| <==> first + i * step < limit)
      && (i < |stride| ==> stride[i] == first + i * step)
    decreases i
  {
    if i > 0 {
      OneMoreTimes(i - 1, step);
      if first < limit {
        StrideAt(first + step, step, limit, i - 1);
      }
    }
  }

  /** Sum of `g` over `count` strides that start at first, first + 1, ... */
  function Strides(first: nat, count: nat, step: nat, limit: nat, g: nat -> nat): nat
    requires step > 0
  {
    if count == 0 then 0
    else Strides(first, count - 1, step, limit, g) + Total(Stride(first + count - 1, step, limit), g)
  }

  /** Sum of `g` over first, first + 1, ..., limit - 1. */
  function Range(first: nat, limit: nat, g: nat -> nat): nat
    decreases limit - first
  {
    if first >= limit then 0 else g(first) + Range(first + 1, limit, g)
  }

  lemma {:induction false} StridesShift(first: nat, count: nat, step: nat, limit: nat, g: nat -> nat)
    requires step > 0 && count > 0
    ensures Strides(first, count, step, limit, g)
         == Total(Stride(first, step, limit), g) + Strides(first + 1, count - 1, step, limit, g)
  {
    if count > 1 {
      StridesShift(first, count - 1, step, limit, g);
    }
  }

  /** The strides with one step and all offsets split the numbers below the
      limit: nothing is counted twice or left out. */
  lemma {:induction false} StridesPartition(first: nat, step: nat, limit: nat, g: nat -> nat)
    requires step > 0
    ensures Strides(first, step, step, limit, g) == Range(first, limit, g)
    decreases limit - first
  {
    if first >= limit {
      EmptyStrides(first, step, step, limit, g);
    } else {
      StridesShift(first, step, step, limit, g);
      StridesPartition(first + 1, step, limit, g);
      StrideTotal(first, step, limit, g);
    }
  }

  lemma {:induction false} EmptyStrides(first: nat, count: nat, step: nat, limit: nat, g: nat -> nat)
    requires step > 0 && first >= limit
    ensures Strides(first, count, step, limit, g) == 0
  {
    if count > 0 {
      EmptyStrides(first, count - 1, step, limit, g);
    }
  }

  lemma {:induction false} RangeOfOnes(first: nat, limit: nat)
    requires first <= limit
    ensures Range(first, limit, One) == limit - first
    decreases limit - first
  {
    if first < limit {
      RangeOfOnes(first + 1, limit);
    }
  }

  // -------------------------------------------------------------------- phase

  /** One measured phase; times in nanoseconds. */
  datatype Phase = Phase(rate: real, duration: real, start: nat, active: nat, maxOverdue: nat, maxLag: int) {
    predicate Valid() {
      rate > 0.0 && duration >= 0.0 && active > 0
    }

    /** int(rate * duration). */
    function Offers(): (r: int)
      requires Valid()
      ensures r >= 0
    {
      assert rate * duration >= 0.0;
      (rate * duration).Floor
    }

    function Deadline(): int
    {
      start + (duration * 1000000000.0).Floor
    }

    function Period(): (r: real)
      requires Valid()
      ensures r > 0.0 && r * rate == 1000000000.0
    {
      1000000000.0 / rate
    }

    /** When the first offer of the client at `position` is due. */
    function FirstSlot(position: nat): int
      requires Valid()
    {
      (start as real + position as real * Period()).Floor
    }

    function PeriodPerClient(): int
      requires Valid()
    {
      (1000000000.0 * active as real / rate).Floor
    }

    /** When offer number `x` is due: its client's first slot plus whole periods. */
    function DueAt(x: nat): int
      requires Valid()
    {
      FirstSlot(x % active) + (x / active) * PeriodPerClient()
    }
  }

  /** A due time is never after the exact time of the offer. */
  lemma DueAtMost(p: Phase, x: nat)
    requires p.Valid()
    ensures p.DueAt(x) as real <= p.start as real + x as real * p.Period()
  {
    var position, k := x % p.active, x / p.active;
    var period := p.Period();
    var exact := 1000000000.0 * p.active as real / p.rate;
    FloorBounds(p.start as real + position as real * period);
    FloorBounds(exact);
    assert exact == p.active as real * period;
    TimesMonotone(p.PeriodPerClient() as real, exact, k as real);
    assert x == position + k * p.active;
    SplitTimes(x, k * p.active, position, period);
    assert (k * p.active) as real * period == exact * k as real;
    assert (k * p.PeriodPerClient()) as real == p.PeriodPerClient() as real * k as real;
  }

  /** Nor much before it: by less than a nanosecond, and one more for each
      offer its client had before. */
  lemma DueAtLeast(p: Phase, x: nat)
    requires p.Valid()
    ensures p.start as real + x as real * p.Period() - 1.0 - (x / p.active) as real < p.DueAt(x) as real
  {
    var position, k := x % p.active, x / p.active;
    var period := p.Period();
    var exact := 1000000000.0 * p.active as real / p.rate;
    FloorBounds(p.start as real + position as real * period);
    FloorBounds(exact);
    assert exact == p.active as real * period;
    assert x == position + k * p.active;
    SplitTimes(x, k * p.active, position, period);
    WholePeriods(k, p.active, period, exact, p.PeriodPerClient());
  }

  /** Rounding the period of a client down costs less than one nanosecond a period. */
  lemma WholePeriods(k: nat, active: nat, period: real, exact: real, rounded: int)
    requires exact == active as real * period && exact < rounded as real + 1.0
    ensures (k * rounded) as real >= (k * active) as real * period - k as real
  {
    TimesMonotone(exact - 1.0, rounded as real, k as real);
    assert (exact - 1.0) * k as real == exact * k as real - k as real;
    assert (k * active) as real * period == exact * k as real;
    assert (k * rounded) as real == rounded as real * k as real;
  }

  /** No offer was popped earlier than that before its exact time. */
  ghost predicate NotEarly(p: Phase, ready: seq<Due>, now: int)
    requires p.Valid()
  {
    forall i :: 0 <= i < |ready| ==>
      var x := ready[i].entry.sequence;
      p.start as real + x as real * p.Period() - 1.0 - (x / p.active) as real < now as real
  }

  lemma ReadyNotEarly(p: Phase, ready: seq<Due>, now: int)
    requires p.Valid() && ReadyOk(p, ready, now)
    ensures NotEarly(p, ready, now)
  {
    hide p.DueAt, p.Period, p.Offers;
    forall i | 0 <= i < |ready|
      ensures var x := ready[i].entry.sequence;
        p.start as real + x as real * p.Period() - 1.0 - (x / p.active) as real < now as real
    {
      DueAtLeast(p, ready[i].entry.sequence);
    }
  }

  /** A thousand offers in a second by a hundred clients, a millisecond apart:
      client 7's come at 7 ms, 107 ms and so on. By one client alone they come
      at 0 ms, 1 ms and so on. */
  lemma EveryMillisecond(x: nat)
    requires x < 1000
    ensures var p := Phase(1000.0, 1.0, 5, 100, 32, 0);
      && p.Valid() && p.Offers() == 1000 && p.Deadline() == 1000000005
      && p.FirstSlot(7) == 7000005 && p.PeriodPerClient() == 100000000 && p.DueAt(x) == 5 + x * 1000000
    ensures var p := Phase(1000.0, 1.0, 5, 1, 32, 0);
      && p.Valid() && p.Offers() == 1000 && p.PeriodPerClient() == 1000000 && p.DueAt(x) == 5 + x * 1000000
  {
    assert 1000000000.0 / 1000.0 == 1000000.0;
    assert 1000000000.0 * 100.0 / 1000.0 == 100000000.0;
    DivMod(x, 100);
    DivMod(x, 1);
    MillisecondSlot(x % 100);
    MillisecondSlot(x % 1);
    MillisecondSlot(7);
  }

  lemma MillisecondSlot(position: nat)
    ensures (5 as real + position as real * 1000000.0).Floor == 5 + position * 1000000
  {
    assert 5 as real + position as real * 1000000.0 == (5 + position * 1000000) as real;
  }

  /** The time of all offers up to `x` fits in the phase. */
  lemma OffersFit(p: Phase, x: nat)
    requires p.Valid() && x < p.Offers()
    ensures x as real * p.Period() + p.Period() <= p.duration * 1000000000.0
  {
    FloorBounds(p.rate * p.duration);
    OfferTime(p.rate, p.duration, p.Period(), x as real);
  }

  lemma OfferTime(rate: real, duration: real, period: real, x: real)
    requires x + 1.0 <= rate * duration && period > 0.0 && period * rate == 1000000000.0
    ensures x * period + period <= duration * 1000000000.0
  {
    TimesMonotone(x + 1.0, rate * duration, period);
    OneMoreReal(x, period);
    Rearrange(rate, duration, period);
  }

  lemma PeriodAtLeastOne(p: Phase)
    requires p.Valid() && p.rate <= 1000000000.0
    ensures p.Period() >= 1.0
  {
    var period := p.Period();
    assert period * p.rate == 1000000000.0;
    FactorAtLeastOne(period, p.rate);
  }

  /** Up to one offer per nanosecond, every offer is due before the deadline. */
  lemma DueBeforeDeadline(p: Phase, x: nat)
    requires p.Valid() && p.rate <= 1000000000.0 && x < p.Offers()
    ensures p.DueAt(x) < p.Deadline()
  {
    hide p.DueAt, p.Period, p.Offers, p.Valid;
    DueAtMost(p, x);
    OffersFit(p, x);
    PeriodAtLeastOne(p);
    FloorBounds(p.duration * 1000000000.0);
  }

  lemma {:induction false} DueMonotoneStep(p: Phase, x: nat)
    requires p.Valid()
    ensures p.DueAt(x) <= p.DueAt(x + 1)
  {
    var a, period := p.active, p.Period();
    var k, position := x / a, x % a;
    DivMod(x, a);
    if position + 1 < a {
      DivIs(x + 1, a, k, position + 1);
      DivMod(x + 1, a);
      assert (x + 1) % a == position + 1;
      TimesMonotone(position as real, (position + 1) as real, period);
    } else {
      OneMoreTimes(k, a);
      DivIs(x + 1, a, k + 1, 0);
      DivMod(x + 1, a);
      assert (x + 1) % a == 0;
      LastSlot(p);
      OneMoreTimesInt(k, p.PeriodPerClient());
    }
  }

  /** The last client's first slot is at most one period per client after the start. */
  lemma LastSlot(p: Phase)
    requires p.Valid()
    ensures p.FirstSlot(0) == p.start && p.FirstSlot(p.active - 1) <= p.start + p.PeriodPerClient()
  {
    var exact := 1000000000.0 * p.active as real / p.rate;
    assert exact == p.active as real * p.Period();
    TimesMonotone((p.active - 1) as real, p.active as real, p.Period());
    FloorBounds(exact);
    FloorBounds(p.start as real + (p.active - 1) as real * p.Period());
  }

  lemma {:induction false} DueMonotone(p: Phase, x: nat, y: nat)
    requires p.Valid() && x <= y
    ensures p.DueAt(x) <= p.DueAt(y)
    decreases y - x
  {
    if x < y {
      DueMonotone(p, x, y - 1);
      DueMonotoneStep(p, y - 1);
    }
  }

  /** 1 for an offer that is due only at or after the deadline. */
  function Late(p: Phase): nat -> nat
    requires p.Valid()
  {
    x => if p.DueAt(x) >= p.Deadline() then 1 else 0
  }

  lemma {:induction false} LateCount(p: Phase, first: nat)
    requires p.Valid() && first < p.Offers()
    ensures Range(first, p.Offers(), Late(p)) == 0 <==> p.DueAt(p.Offers() - 1) < p.Deadline()
    decreases p.Offers() - first
  {
    if first + 1 < p.Offers() {
      LateCount(p, first + 1);
    } else {
      assert Range(first + 1, p.Offers(), Late(p)) == 0;
    }
    DueMonotone(p, first, p.Offers() - 1);
  }

  // ----------------------------------------------------------------- schedule

  /** A heap entry: the next offer of one client. */
  datatype Entry = Entry(scheduled: int, sequence: nat, client: nat)

  /** The order of the heap's tuples; sequences never repeat in one heap. */
  predicate Before(a: Entry, b: Entry) {
    a.scheduled < b.scheduled || (a.scheduled == b.scheduled && a.sequence <= b.sequence)
  }

  /** What is still to come from an entry: its offer and its client's later ones. */
  function Ahead(p: Phase, e: Entry, g: nat -> nat): nat
    requires p.Valid()
  {
    Total(Stride(e.sequence, p.active, p.Offers()), g)
  }

  function Tally(p: Phase, schedule: seq<Entry>, g: nat -> nat): nat
    requires p.Valid()
  {
    if schedule == [] then 0 else Tally(p, schedule[..|schedule| - 1], g) + Ahead(p, schedule[|schedule| - 1], g)
  }

  lemma TallyAppend(p: Phase, schedule: seq<Entry>, e: Entry, g: nat -> nat)
    requires p.Valid()
    ensures Tally(p, schedule + [e], g) == Tally(p, schedule, g) + Ahead(p, e, g)
  {
    assert (schedule + [e])[..|schedule|] == schedule;
  }

  lemma {:induction false} TallyRemove(p: Phase, schedule: seq<Entry>, k: nat, g: nat -> nat)
    requires p.Valid() && k < |schedule|
    ensures Tally(p, schedule[..k] + schedule[k + 1..], g) + Ahead(p, schedule[k], g) == Tally(p, schedule, g)
  {
    var n := |schedule| - 1;
    var r := schedule[..k] + schedule[k + 1..];
    if k < n {
      TallyRemove(p, schedule[..n], k, g);
      assert r[..|r| - 1] == schedule[..n][..k] + schedule[..n][k + 1..];
    } else {
      assert r == schedule[..n];
    }
  }

  /** An entry holds an offer that exists, at its due time. */
  ghost predicate EntryOk(p: Phase, e: Entry)
    requires p.Valid()
  {
    e.sequence < p.Offers() && e.scheduled == p.DueAt(e.sequence)
  }

  ghost predicate ScheduleOk(p: Phase, schedule: seq<Entry>)
    requires p.Valid()
  {
    forall i :: 0 <= i < |schedule| ==> EntryOk(p, schedule[i])
  }

  function ClientShare(p: Phase, client: nat, g: nat -> nat): nat
    requires p.Valid()
  {
    if client >= p.active then 0 else Total(Stride(client, p.active, p.Offers()), g)
  }

  function ClientShares(p: Phase, g: nat -> nat): nat -> nat
    requires p.Valid()
  {
    client => ClientShare(p, client, g)
  }

  /** All offers of a worker's clients. */
  function Share(p: Phase, clients: seq<nat>, g: nat -> nat): nat
    requires p.Valid()
  {
    Total(clients, ClientShares(p, g))
  }

  /** A client's next offer is due one period per client later. */
  lemma NextDue(p: Phase, x: nat)
    requires p.Valid()
    ensures p.DueAt(x + p.active) == p.DueAt(x) + p.PeriodPerClient()
  {
    var a := p.active;
    DivMod(x, a);
    OneMoreTimes(x / a, a);
    DivIs(x + a, a, x / a + 1, x % a);
    DivMod(x + a, a);
    assert (x + a) % a == x % a;
    OneMoreTimesInt(x / a, p.PeriodPerClient());
  }

  lemma FirstDue(p: Phase, client: nat)
    requires p.Valid() && client < p.active
    ensures p.DueAt(client) == p.FirstSlot(client)
  {
    DivIs(client, p.active, 0, client);
  }

  ghost function Cut(schedule: seq<Entry>, k: nat): seq<Entry>
    requires k < |schedule|
  {
    schedule[..k] + schedule[k + 1..]
  }

  /** `after` is `before` with one occurrence of `e` taken out. */
  ghost predicate Without(before: seq<Entry>, after: seq<Entry>, e: Entry) {
    exists k :: 0 <= k < |before| && before[k] == e && after == Cut(before, k)
  }

  lemma WithoutTally(p: Phase, before: seq<Entry>, after: seq<Entry>, e: Entry, g: nat -> nat)
    requires p.Valid() && Without(before, after, e)
    ensures Tally(p, after, g) + Ahead(p, e, g) == Tally(p, before, g)
  {
    var k :| 0 <= k < |before| && before[k] == e && after == Cut(before, k);
    TallyRemove(p, before, k, g);
  }

  lemma WithoutOk(p: Phase, before: seq<Entry>, after: seq<Entry>, e: Entry)
    requires p.Valid() && Without(before, after, e) && ScheduleOk(p, before)
    ensures ScheduleOk(p, after) && EntryOk(p, e) && |after| == |before| - 1
  {
  }

  // ------------------------------------------------------------------- workers

  /** The offer counters and the heap of one worker. */
  class Worker {
    var schedule: seq<Entry>
    var offered: nat
    var sent: nat
    var missed: nat
    ghost var counted: seq<nat>  // the numbers of the offers popped so far

    constructor ()
      ensures schedule == [] && counted == [] && offered == sent == missed == 0
    {
      schedule, offered, sent, missed, counted := [], 0, 0, 0, [];
    }

    /** heapq.heappop: take out the least entry. */
    method HeapPop() returns (e: Entry)
      requires schedule != []
      modifies this`schedule
      ensures forall i :: 0 <= i < |old(schedule)| ==> Before(e, old(schedule)[i])
      ensures Without(old(schedule), schedule, e)
    {
      var k := Least();
      e := schedule[k];
      schedule := schedule[..k] + schedule[k + 1..];
      assert schedule == Cut(old(schedule), k);
    }

    /** Where the least entry is: schedule[0] of the real heap. */
    method Least() returns (k: nat)
      requires schedule != []
      ensures k < |schedule| && forall i :: 0 <= i < |schedule| ==> Before(schedule[k], schedule[i])
    {
      k := 0;
      for i := 1 to |schedule|
        invariant k < i <= |schedule|
        invariant forall j :: 0 <= j < i ==> Before(schedule[k], schedule[j])
      {
        if !Before(schedule[k], schedule[i]) {
          k := i;
        }
      }
    }

    /** Push the first offer of each of the worker's active clients. */
    method ScheduleForClients(p: Phase, clients: seq<nat>)
      requires p.Valid() && schedule == []
      modifies this`schedule
      ensures ScheduleOk(p, schedule) && OwnClients(schedule, clients)
      ensures forall g: nat -> nat :: Tally(p, schedule, g) == Share(p, clients, g)
    {
      var targetOffers := p.Offers();
      if targetOffers == 0 {
        forall g: nat -> nat ensures Share(p, clients, g) == 0 {
          NothingToShare(p, clients, g);
        }
        return;
      }
      for i := 0 to |clients|
        invariant ScheduleOk(p, schedule) && OwnClients(schedule, clients)
        invariant forall g: nat -> nat :: Tally(p, schedule, g) == Share(p, clients[..i], g)
      {
        var position := clients[i];
        assert clients[..i + 1] == clients[..i] + [position];
        ghost var was := schedule;
        if position < p.active && position < targetOffers {
          var e := Entry(p.FirstSlot(position), position, position);
          FirstDue(p, position);
          schedule := schedule + [e];
          forall g: nat -> nat ensures Tally(p, schedule, g) == Tally(p, was, g) + ClientShare(p, position, g) {
            TallyAppend(p, was, e, g);
          }
        }
        forall g: nat -> nat
          ensures Share(p, clients[..i + 1], g) == Share(p, clients[..i], g) + ClientShare(p, position, g)
        {
          TotalAppend(clients[..i], position, ClientShares(p, g));
        }
      }
      assert clients[..|clients|] == clients;
    }

    /** Pop the offers that are due, at most `maxOverdue` of them, each with
        whether it is past the permitted lag. */
    method DueOffers(p: Phase, now: int) returns (ready: seq<Due>)
      requires p.Valid() && ScheduleOk(p, schedule)
      modifies this`schedule
      ensures ScheduleOk(p, schedule) && ReadyOk(p, ready, now) && |ready| <= p.maxOverdue
      ensures forall g: nat -> nat :: Tally(p, schedule, g) + TallyDue(p, ready, g) == old(Tally(p, schedule, g))
      ensures |ready| == p.maxOverdue || forall i :: 0 <= i < |schedule| ==> schedule[i].scheduled > now
      // least first: in order, and before all that is left
      ensures InOrder(ready) && AllBefore(ready, schedule)
      ensures forall i, j :: 0 <= i < j < |ready| ==> var a, b := ready[i].entry, ready[j].entry;
        a.scheduled < b.scheduled || (a.scheduled == b.scheduled && a.sequence <= b.sequence)
      // every due offer is popped unless the cap is reached
      ensures Popped(old(schedule), ready, now, p.maxOverdue)
      // nothing comes up that was not there, and nothing is popped if nothing is due
      ensures forall e :: e in schedule ==> e in old(schedule)
      ensures forall i :: 0 <= i < |ready| ==> ready[i].entry in old(schedule)
      ensures ready == [] ==> schedule == old(schedule)
      ensures ready == [] <==> p.maxOverdue == 0 || NoneDue(old(schedule), now)
    {
      hide LeftOrPopped, Popped;
      ready := [];
      NonePopped(schedule);
      while schedule != [] && |ready| < p.maxOverdue
        invariant ScheduleOk(p, schedule) && ReadyOk(p, ready, now) && |ready| <= p.maxOverdue
        invariant forall g: nat -> nat :: Tally(p, schedule, g) + TallyDue(p, ready, g) == old(Tally(p, schedule, g))
        invariant InOrder(ready) && AllBefore(ready, schedule)
        invariant forall e :: e in schedule ==> e in old(schedule)
        invariant forall i :: 0 <= i < |ready| ==> ready[i].entry in old(schedule)
        invariant LeftOrPopped(old(schedule), schedule, ready)
        invariant ready == [] ==> schedule == old(schedule)
        decreases |schedule|
      {
        var k := Least();
        if schedule[k].scheduled > now {
          PoppedAll(old(schedule), schedule, ready, now, p.maxOverdue);
          return;
        }
        ghost var before, popped := schedule, ready;
        var e := HeapPop();
        assert Before(e, before[k]);
        WithoutOk(p, before, schedule, e);
        WithoutOrder(ready, before, schedule, Due(e, now - e.scheduled > p.maxLag));
        LeftOrPoppedNext(old(schedule), before, schedule, ready, Due(e, now - e.scheduled > p.maxLag));
        ready := ready + [Due(e, now - e.scheduled > p.maxLag)];
        forall g: nat -> nat
          ensures Tally(p, schedule, g) + TallyDue(p, ready, g) == Tally(p, before, g) + TallyDue(p, popped, g)
        {
          WithoutTally(p, before, schedule, e, g);
          TallyDueAppend(p, popped, ready[|popped|], g);
        }
      }
      PoppedAll(old(schedule), schedule, ready, now, p.maxOverdue);
    }

    /** Count one popped offer, schedule its client's next one, and note it as
        sent or missed; `rest` are the popped offers still to be counted. */
    method CountOffer(p: Phase, due: Due, accepted: bool, ghost rest: seq<Due>, ghost clients: seq<nat>,
                      ghost nows: seq<int>)
      requires p.Valid() && EntryOk(p, due.entry) && due.entry.client in clients
      requires nows != [] && due.entry.scheduled <= nows[|nows| - 1]
      requires Counting(p, [due] + rest, clients, nows)
      modifies this
      ensures Counting(p, rest, clients, nows)
      ensures counted == old(counted) + [due.entry.sequence] && offered == old(offered) + 1
      ensures sent == old(sent) + (if due.missed || !accepted then 0 else 1)
    {
      hide Conserved, ScheduleOk, CountedInTime;
      var next := Following(p, due.entry);
      OfferKeeps(p, schedule, if next.sequence < p.Offers() then schedule + [next] else schedule, due.entry);
      ConservedNext(p, counted, schedule, if next.sequence < p.Offers() then schedule + [next] else schedule, due, rest,
                    clients);
      assert nows[..|nows| - 1] + [nows[|nows| - 1]] == nows;
      OfferInTime(p, counted, due.entry, nows[..|nows| - 1], nows[|nows| - 1]);
      offered := offered + 1;
      counted := counted + [due.entry.sequence];
      if next.sequence < p.Offers() {
        schedule := schedule + [next];
      }
      if due.missed || !accepted {
        missed := missed + 1;
      } else {
        sent := sent + 1;
      }
    }

    /** Pop the offers due at `now`, to be counted one by one. */
    method PopOffers(p: Phase, now: int, ghost clients: seq<nat>, ghost nows: seq<int>) returns (ready: seq<Due>)
      requires p.Valid() && Balanced(p, clients, nows)
      modifies this`schedule
      ensures Counting(p, ready, clients, nows + [now])
      ensures ReadyOk(p, ready, now) && |ready| <= p.maxOverdue && InOrder(ready)
      ensures forall i :: 0 <= i < |ready| ==> ready[i].entry.client in clients
      ensures ready == [] ==> schedule == old(schedule)
      ensures ready == [] <==> p.maxOverdue == 0 || NoneDue(old(schedule), now)
      ensures Popped(old(schedule), ready, now, p.maxOverdue)
    {
      hide Tally, TallyDue, Share, Total, InOrder, Before, ScheduleOk, CountedInTime, Popped;
      ghost var heap := schedule;
      ready := DueOffers(p, now);
      ConservedStart(p, counted, heap, schedule, ready, clients);
      StillInTime(p, counted, nows, now);
    }

    /** Offer what is due at `now`. `accepts` says of each offer whether its
        connection is open and has room for it. */
    method TakeOffers(p: Phase, now: int, accepts: nat -> bool, ghost clients: seq<nat>, ghost nows: seq<int>)
      returns (ghost taken: seq<Due>)
      requires p.Valid() && Balanced(p, clients, nows)
      modifies this
      ensures Balanced(p, clients, nows + [now])
      ensures ReadyOk(p, taken, now) && |taken| <= p.maxOverdue && InOrder(taken)
      ensures offered == old(offered) + |taken| && missed == old(missed) + MissedIn(taken, accepts)
      ensures sent + MissedIn(taken, accepts) == old(sent) + |taken|
      ensures counted == old(counted) + Numbers(taken)
      ensures NotEarly(p, taken, now)
      ensures taken == [] ==> schedule == old(schedule)
      ensures taken == [] <==> p.maxOverdue == 0 || NoneDue(old(schedule), now)
      ensures Popped(old(schedule), taken, now, p.maxOverdue)
    {
      hide Popped, Conserved, ScheduleOk, CountedInTime, InOrder, EntryOk, NotEarly;
      var ready := PopOffers(p, now, clients, nows);
      ReadyNotEarly(p, ready, now);
      taken := ready;
      assert ready[0..] == ready && Numbers(ready)[..0] == [];
      for i := 0 to |ready|
        invariant Counting(p, ready[i..], clients, nows + [now])
        invariant offered == old(offered) + i && missed == old(missed) + MissedIn(ready[..i], accepts)
        invariant counted == old(counted) + Numbers(ready)[..i]
        invariant ready == [] ==> schedule == old(schedule)
      {
        assert ready[..i + 1][..i] == ready[..i];
        assert ready[i..] == [ready[i]] + ready[i + 1..];
        ReadyEntry(p, ready, now, i);
        CountOffer(p, ready[i], accepts(ready[i].entry.sequence), ready[i + 1..], clients, nows + [now]);
      }
      assert ready[|ready|..] == [] && ready[..|ready|] == ready && Numbers(ready)[..|ready|] == Numbers(ready);
      CountingEnds(p, clients, nows + [now]);
    }

    lemma CountingEnds(p: Phase, clients: seq<nat>, nows: seq<int>)
      requires p.Valid() && Counting(p, [], clients, nows)
      ensures Balanced(p, clients, nows)
    {
      ConservedEnd(p, counted, schedule, clients);
    }

    /** Popped offers are being counted: `rest` are those to come. */
    ghost predicate Counting(p: Phase, rest: seq<Due>, clients: seq<nat>, nows: seq<int>)
      requires p.Valid()
      reads this
    {
      && ScheduleOk(p, schedule) && OwnClients(schedule, clients)
      && offered == |counted| == sent + missed
      && CountedInTime(p, counted, nows)
      && Conserved(p, counted, schedule, rest, clients)
    }

    /** Every offer of the worker's clients was popped once or is still ahead
        of exactly one heap entry; every popped one was sent or missed. */
    ghost predicate Balanced(p: Phase, clients: seq<nat>, nows: seq<int>)
      requires p.Valid()
      reads this
    {
      && ScheduleOk(p, schedule) && OwnClients(schedule, clients)
      && offered == |counted| == sent + missed
      && CountedInTime(p, counted, nows)
      && (forall g: nat -> nat :: Total(counted, g) + Tally(p, schedule, g) == Share(p, clients, g))
    }

    /** Right after scheduling, and after the last round. */
    lemma Begins(p: Phase, clients: seq<nat>)
      requires p.Valid() && ScheduleOk(p, schedule) && OwnClients(schedule, clients)
      requires forall g: nat -> nat :: Tally(p, schedule, g) == Share(p, clients, g)
      requires counted == [] && offered == sent == missed == 0
      ensures Balanced(p, clients, [])
    {
      NothingCounted(p, schedule, clients);
    }

    lemma Ends(p: Phase, clients: seq<nat>, nows: seq<int>)
      requires p.Valid() && Balanced(p, clients, nows)
      ensures ScheduleOk(p, schedule) && sent + missed == offered
      ensures offered + Tally(p, schedule, One) == Share(p, clients, One)
      ensures OnTime(p) ==> Lost(p, schedule) == 0
      ensures InTime(p, nows) && NothingDue(p, schedule) ==> Lost(p, schedule) == Share(p, clients, Late(p))
      ensures InTime(p, nows) && p.Offers() <= p.active ==> Lost(p, schedule) == Share(p, clients, Late(p))
    {
      BalancedMeans(p, counted, schedule, clients, nows, InTime(p, nows) && NothingDue(p, schedule));
    }

    lemma KeptUp(p: Phase, clients: seq<nat>, nows: seq<int>)
      requires p.Valid() && Balanced(p, clients, nows)
      requires p.Deadline() <= p.start || |counted| >= Share(p, clients, One) || NothingDue(p, schedule)
      ensures NothingDue(p, schedule)
    {
      KeepsUp(p, counted, schedule, clients);
    }

    /** The accounting of what is left at the deadline: an entry due before it
        counts for all its client's remaining offers, as missed. */
    method AccountLeftovers(p: Phase)
      requires p.Valid() && ScheduleOk(p, schedule) && sent + missed == offered
      modifies this`offered, this`missed
      ensures offered + Lost(p, schedule) == old(offered) + Tally(p, schedule, One)
      ensures sent + missed == offered
    {
      for i := 0 to |schedule|
        invariant offered + Lost(p, schedule[..i]) == old(offered) + Tally(p, schedule[..i], One)
        invariant sent + missed == offered
      {
        assert schedule[..i + 1][..i] == schedule[..i];
        var e := schedule[i];
        StrideLength(e.sequence, p.active, p.Offers());
        if e.scheduled < p.Deadline() {
          var remaining := 1 + (p.Offers() - 1 - e.sequence) / p.active;
          offered := offered + remaining;
          missed := missed + remaining;
        }
      }
      assert schedule[..|schedule|] == schedule;
    }

    /** One phase of one worker; `nows` are the clock readings of its rounds.
        `keptUp` says that none of them was past the deadline and that no
        offer due before it was left. */
    method RunPhase(p: Phase, clients: seq<nat>, nows: seq<int>, accepts: nat -> bool)
      returns (ghost keptUp: bool, ghost rounds: seq<seq<Due>>)
      requires p.Valid() && schedule == [] && counted == [] && offered == sent == missed == 0
      modifies this
      ensures sent + missed == offered
      // nothing is lost but what is ahead of entries due after the end
      ensures offered + Lost(p, schedule) == Share(p, clients, One)
      ensures OnTime(p) ==> offered == Share(p, clients, One)
      // a worker that kept up counts exactly the offers due in time
      ensures keptUp <==> InTime(p, nows) && NothingDue(p, schedule)
      ensures keptUp ==> offered + Share(p, clients, Late(p)) == Share(p, clients, One)
      // as does one with at most one offer a client, and a diligent one keeps up
      ensures InTime(p, nows) && p.Offers() <= p.active ==>
        offered + Share(p, clients, Late(p)) == Share(p, clients, One)
      ensures Diligent(p, nows, Share(p, clients, One)) ==> keptUp
      // what was popped is sent unless late at its round's reading or refused
      ensures RoundsOk(p, rounds, nows) && counted == Numbers(Flat(rounds))
      ensures sent + MissedIn(Flat(rounds), accepts) == |Flat(rounds)|
    {
      hide *;
      NothingFlat();
      ScheduleForClients(p, clients);
      Begins(p, clients);
      rounds := [];
      NoneMissed(accepts);
      NoRoundsOk(p);
      assert nows[..0] == [];
      for i := 0 to |nows|
        invariant Balanced(p, clients, nows[..i])
        invariant RoundsOk(p, rounds, nows[..i]) && counted == Numbers(Flat(rounds))
        invariant sent + MissedIn(Flat(rounds), accepts) == |Flat(rounds)|
        invariant Diligent(p, nows, Share(p, clients, One)) ==> NothingDue(p, schedule) || |counted| >= i
      {
        assert nows[..i + 1] == nows[..i] + [nows[i]];
        ghost var before, already := schedule, |counted|;
        ghost var taken := TakeOffers(p, nows[i], accepts, clients, nows[..i]);
        OneRoundOk(p, rounds, nows, i, taken);
        MissedBoth(Flat(rounds), taken, accepts);
        if Diligent(p, nows, Share(p, clients, One)) {
          DiligentRound(p, nows, Share(p, clients, One), i);
          NothingDueThen(p, before);
          RoundKeepsUp(p, before, schedule, |taken|, already, nows[i], i);
        }
        rounds := rounds + [taken];
      }
      assert nows[..|nows|] == nows;
      if Diligent(p, nows, Share(p, clients, One)) {
        DiligentEnd(p, nows, Share(p, clients, One));
        KeptUp(p, clients, nows);
      }
      keptUp := InTime(p, nows) && NothingDue(p, schedule);
      Ends(p, clients, nows);
      AccountLeftovers(p);
    }
  }

  lemma NothingCounted(p: Phase, schedule: seq<Entry>, clients: seq<nat>)
    requires p.Valid() && forall g: nat -> nat :: Tally(p, schedule, g) == Share(p, clients, g)
    ensures forall g: nat -> nat :: Total([], g) + Tally(p, schedule, g) == Share(p, clients, g)
    ensures CountedInTime(p, [], [])
  {
  }

  /** What balance says at the end of the rounds. */
  lemma BalancedMeans(p: Phase, counted: seq<nat>, schedule: seq<Entry>, clients: seq<nat>, nows: seq<int>,
                      keptUp: bool)
    requires p.Valid() && ScheduleOk(p, schedule) && CountedInTime(p, counted, nows)
    requires forall g: nat -> nat :: Total(counted, g) + Tally(p, schedule, g) == Share(p, clients, g)
    requires keptUp ==> InTime(p, nows) && NothingDue(p, schedule)
    ensures |counted| + Tally(p, schedule, One) == Share(p, clients, One)
    ensures OnTime(p) ==> Lost(p, schedule) == 0
    ensures keptUp ==> |counted| + Share(p, clients, Late(p)) == Share(p, clients, One)
    ensures keptUp ==> Lost(p, schedule) == Share(p, clients, Late(p))
    ensures InTime(p, nows) && p.Offers() <= p.active ==> Lost(p, schedule) == Share(p, clients, Late(p))
  {
    TotalOfOnes(counted);
    if InTime(p, nows) && p.Offers() <= p.active {
      OneEachLost(p, schedule);
      CountedOnTime(p, counted, nows);
      assert Total(counted, Late(p)) + Tally(p, schedule, Late(p)) == Share(p, clients, Late(p));
    }
    assert Total(counted, One) + Tally(p, schedule, One) == Share(p, clients, One);
    if OnTime(p) {
      NothingLost(p, schedule);
    }
    if keptUp {
      AllLost(p, schedule);
      CountedOnTime(p, counted, nows);
      assert Total(counted, Late(p)) + Tally(p, schedule, Late(p)) == Share(p, clients, Late(p));
    }
  }

  // ------------------------------------------------------------- popped offers

  datatype Due = Due(entry: Entry, missed: bool)

  /** The numbers of popped offers. */
  function Numbers(ready: seq<Due>): (numbers: seq<nat>)
    ensures |numbers| == |ready| && forall i :: 0 <= i < |ready| ==> numbers[i] == ready[i].entry.sequence
  {
    seq(|ready|, i requires 0 <= i < |ready| => ready[i].entry.sequence)
  }

  /** All entries are of the worker's own clients. */
  ghost predicate OwnClients(schedule: seq<Entry>, clients: seq<nat>) {
    forall e :: e in schedule ==> e.client in clients
  }

  /** Every entry that was due is among the popped, unless those are as many as
      may be popped at once. */
  ghost predicate Popped(schedule: seq<Entry>, ready: seq<Due>, now: int, most: nat) {
    |ready| == most ||
    forall e :: e in schedule && e.scheduled <= now ==> exists i :: 0 <= i < |ready| && ready[i].entry == e
  }

  lemma NoRoundsOk(p: Phase)
    requires p.Valid()
    ensures RoundsOk(p, [], []) && Numbers([]) == []
  {
  }

  lemma OneRoundOk(p: Phase, rounds: seq<seq<Due>>, nows: seq<int>, i: nat, taken: seq<Due>)
    requires p.Valid() && i < |nows| && RoundsOk(p, rounds, nows[..i])
    requires ReadyOk(p, taken, nows[i]) && NotEarly(p, taken, nows[i]) && |taken| <= p.maxOverdue
    ensures RoundsOk(p, rounds + [taken], nows[..i + 1])
    ensures Flat(rounds + [taken]) == Flat(rounds) + taken
    ensures Numbers(Flat(rounds + [taken])) == Numbers(Flat(rounds)) + Numbers(taken)
  {
    hide ReadyOk, NotEarly;
    FlatMore(rounds, taken);
  }

  lemma DiligentRound(p: Phase, nows: seq<int>, share: nat, i: nat)
    requires Diligent(p, nows, share) && i < |nows|
    ensures p.maxOverdue > 0 && nows[i] == p.Deadline() - 1
  {
  }

  lemma DiligentEnd(p: Phase, nows: seq<int>, share: nat)
    requires Diligent(p, nows, share)
    ensures InTime(p, nows) && (p.Deadline() <= p.start || |nows| >= share)
  {
  }

  /** A reading just before the deadline: what is due then is due in time. */
  lemma RoundKeepsUp(p: Phase, before: seq<Entry>, after: seq<Entry>, popped: nat, counted: nat, now: int, i: nat)
    requires p.maxOverdue > 0 && now == p.Deadline() - 1
    requires NothingDue(p, before) || counted >= i
    requires popped == 0 ==> after == before && NoneDue(before, now)
    requires NothingDue(p, before) ==> popped == 0
    ensures NothingDue(p, after) || counted + popped >= i + 1
  {
  }

  lemma NothingDueThen(p: Phase, schedule: seq<Entry>)
    ensures NothingDue(p, schedule) ==> NoneDue(schedule, p.Deadline() - 1)
  {
  }

  /** Every entry is still there or among the popped. */
  ghost predicate LeftOrPopped(before: seq<Entry>, after: seq<Entry>, ready: seq<Due>) {
    forall e :: e in before ==> e in after || exists i :: 0 <= i < |ready| && ready[i].entry == e
  }

  lemma NonePopped(schedule: seq<Entry>)
    ensures LeftOrPopped(schedule, schedule, [])
  {
  }

  lemma PoppedAll(before: seq<Entry>, after: seq<Entry>, ready: seq<Due>, now: int, most: nat)
    requires LeftOrPopped(before, after, ready)
    requires |ready| == most || forall i :: 0 <= i < |after| ==> after[i].scheduled > now
    ensures Popped(before, ready, now, most)
  {
  }

  lemma LeftOrPoppedNext(start: seq<Entry>, before: seq<Entry>, after: seq<Entry>, ready: seq<Due>, due: Due)
    requires LeftOrPopped(start, before, ready) && Without(before, after, due.entry)
    ensures LeftOrPopped(start, after, ready + [due])
  {
    var k :| 0 <= k < |before| && before[k] == due.entry && after == Cut(before, k);
    forall e | e in start ensures e in after || exists i :: 0 <= i < |ready + [due]| && (ready + [due])[i].entry == e {
      if e in before {
        var j :| 0 <= j < |before| && before[j] == e;
        if j == k {
          assert (ready + [due])[|ready|].entry == e;
        } else {
          assert after[if j < k then j else j - 1] == e;
        }
      } else {
        var i :| 0 <= i < |ready| && ready[i].entry == e;
        assert (ready + [due])[i].entry == e;
      }
    }
  }

  ghost predicate NoneDue(schedule: seq<Entry>, now: int) {
    forall i :: 0 <= i < |schedule| ==> schedule[i].scheduled > now
  }

  lemma ReadyEntry(p: Phase, ready: seq<Due>, now: int, i: nat)
    requires p.Valid() && ReadyOk(p, ready, now) && i < |ready|
    ensures EntryOk(p, ready[i].entry) && ready[i].entry.scheduled <= now
  {
  }

  /** How many of them are past the permitted lag or not accepted. */
  function MissedIn(ready: seq<Due>, accepts: nat -> bool): nat {
    if ready == [] then 0
    else
      var last := ready[|ready| - 1];
      MissedIn(ready[..|ready| - 1], accepts) + (if last.missed || !accepts(last.entry.sequence) then 1 else 0)
  }

  function Flat<T>(parts: seq<seq<T>>): seq<T> {
    if parts == [] then [] else Flat(parts[..|parts| - 1]) + parts[|parts| - 1]
  }

  lemma FlatMore<T>(parts: seq<seq<T>>, part: seq<T>)
    ensures Flat(parts + [part]) == Flat(parts) + part
  {
    assert (parts + [part])[..|parts|] == parts;
  }

  lemma {:induction false} FlatBoth<T>(a: seq<seq<T>>, b: seq<seq<T>>)
    ensures Flat(a + b) == Flat(a) + Flat(b)
  {
    if b == [] {
      assert a + b == a;
    } else {
      var n := |b| - 1;
      FlatBoth(a, b[..n]);
      assert (a + b)[..|a + b| - 1] == a + b[..n];
    }
  }

  lemma NothingFlat()
    ensures Flat<seq<Due>>([]) == [] && Flat<Due>([]) == []
  {
  }

  lemma NoneMissed(accepts: nat -> bool)
    ensures MissedIn([], accepts) == 0
  {
  }

  lemma {:induction false} MissedBoth(a: seq<Due>, b: seq<Due>, accepts: nat -> bool)
    ensures MissedIn(a + b, accepts) == MissedIn(a, accepts) + MissedIn(b, accepts)
  {
    if b == [] {
      assert a + b == a;
    } else {
      var n := |b| - 1;
      MissedBoth(a, b[..n], accepts);
      assert (a + b)[..|a + b| - 1] == a + b[..n];
    }
  }

  /** What each round popped was due at its clock reading, and was marked as
      missed exactly if it was past the permitted lag. */
  ghost predicate RoundsOk(p: Phase, rounds: seq<seq<Due>>, nows: seq<int>)
    requires p.Valid()
  {
    && |rounds| == |nows|
    && forall i :: 0 <= i < |rounds| ==>
         ReadyOk(p, rounds[i], nows[i]) && NotEarly(p, rounds[i], nows[i]) && |rounds[i]| <= p.maxOverdue
  }

  ghost predicate InOrder(ready: seq<Due>) {
    forall i, j :: 0 <= i < j < |ready| ==> Before(ready[i].entry, ready[j].entry)
  }

  ghost predicate AllBefore(ready: seq<Due>, schedule: seq<Entry>) {
    forall i, k :: 0 <= i < |ready| && 0 <= k < |schedule| ==> Before(ready[i].entry, schedule[k])
  }

  /** Popping the least entry keeps the order. */
  lemma WithoutOrder(ready: seq<Due>, before: seq<Entry>, after: seq<Entry>, due: Due)
    requires InOrder(ready) && AllBefore(ready, before) && Without(before, after, due.entry)
    requires forall i :: 0 <= i < |before| ==> Before(due.entry, before[i])
    ensures InOrder(ready + [due]) && AllBefore(ready + [due], after)
  {
    var k :| 0 <= k < |before| && before[k] == due.entry && after == Cut(before, k);
    forall j | 0 <= j < |after| ensures after[j] == before[if j < k then j else j + 1] {
    }
  }

  ghost predicate ReadyOk(p: Phase, ready: seq<Due>, now: int)
    requires p.Valid()
  {
    forall i :: 0 <= i < |ready| ==>
      && EntryOk(p, ready[i].entry) && ready[i].entry.scheduled <= now
      && (ready[i].missed <==> now - ready[i].entry.scheduled > p.maxLag)
  }

  function TallyDue(p: Phase, ready: seq<Due>, g: nat -> nat): nat
    requires p.Valid()
  {
    if ready == [] then 0 else Ahead(p, ready[0].entry, g) + TallyDue(p, ready[1..], g)
  }

  lemma TallyDueCons(p: Phase, d: Due, rest: seq<Due>, g: nat -> nat)
    requires p.Valid()
    ensures TallyDue(p, [d] + rest, g) == Ahead(p, d.entry, g) + TallyDue(p, rest, g)
  {
    assert ([d] + rest)[1..] == rest;
  }

  lemma {:induction false} TallyDueAppend(p: Phase, ready: seq<Due>, d: Due, g: nat -> nat)
    requires p.Valid()
    ensures TallyDue(p, ready + [d], g) == TallyDue(p, ready, g) + Ahead(p, d.entry, g)
  {
    if ready == [] {
      assert ready + [d] == [d];
    } else {
      assert (ready + [d])[1..] == ready[1..] + [d];
      TallyDueAppend(p, ready[1..], d, g);
    }
  }

  /** Every popped offer was due at some clock reading. */
  ghost predicate CountedInTime(p: Phase, counted: seq<nat>, nows: seq<int>)
    requires p.Valid()
  {
    forall i :: 0 <= i < |counted| ==> DueBy(p, counted[i], nows)
  }

  ghost predicate DueBy(p: Phase, x: nat, nows: seq<int>)
    requires p.Valid()
  {
    exists k :: 0 <= k < |nows| && p.DueAt(x) <= nows[k]
  }

  lemma StillInTime(p: Phase, counted: seq<nat>, nows: seq<int>, now: int)
    requires p.Valid() && CountedInTime(p, counted, nows)
    ensures CountedInTime(p, counted, nows + [now])
  {
    forall i | 0 <= i < |counted|
      ensures DueBy(p, counted[i], nows + [now])
    {
      assert DueBy(p, counted[i], nows);
      var k :| 0 <= k < |nows| && p.DueAt(counted[i]) <= nows[k];
      assert (nows + [now])[k] == nows[k];
    }
  }

  /** The next offer of the same client. */
  function Following(p: Phase, e: Entry): Entry
    requires p.Valid()
  {
    Entry(e.scheduled + p.PeriodPerClient(), e.sequence + p.active, e.client)
  }

  lemma OfferKeeps(p: Phase, before: seq<Entry>, after: seq<Entry>, e: Entry)
    requires p.Valid() && ScheduleOk(p, before) && EntryOk(p, e)
    requires after == if Following(p, e).sequence < p.Offers() then before + [Following(p, e)] else before
    ensures ScheduleOk(p, after)
  {
    NextDue(p, e.sequence);
  }

  lemma OfferInTime(p: Phase, counted: seq<nat>, e: Entry, nows: seq<int>, now: int)
    requires p.Valid() && CountedInTime(p, counted, nows + [now])
    requires EntryOk(p, e) && e.scheduled <= now
    ensures CountedInTime(p, counted + [e.sequence], nows + [now])
  {
    assert (nows + [now])[|nows|] == now;
    assert DueBy(p, e.sequence, nows + [now]);
  }

  /** Counting an offer and scheduling the next one keeps the balance. */
  lemma OfferBalance(p: Phase, counted: seq<nat>, before: seq<Entry>, after: seq<Entry>, due: Due, rest: seq<Due>,
                     g: nat -> nat)
    requires p.Valid() && EntryOk(p, due.entry)
    requires var next := Following(p, due.entry);
      after == if next.sequence < p.Offers() then before + [next] else before
    ensures Total(counted + [due.entry.sequence], g) + Tally(p, after, g) + TallyDue(p, rest, g)
         == Total(counted, g) + Tally(p, before, g) + TallyDue(p, [due] + rest, g)
  {
    var e, next := due.entry, Following(p, due.entry);
    TotalAppend(counted, e.sequence, g);
    TallyDueCons(p, due, rest, g);
    StrideTotal(e.sequence, p.active, p.Offers(), g);
    StrideTotal(next.sequence, p.active, p.Offers(), g);
    TallyAppend(p, before, next, g);
  }

  /** Every offer was counted, is ahead of a heap entry, or is about to be. */
  ghost predicate Conserved(p: Phase, counted: seq<nat>, schedule: seq<Entry>, rest: seq<Due>, clients: seq<nat>)
    requires p.Valid()
  {
    forall g: nat -> nat :: Total(counted, g) + Tally(p, schedule, g) + TallyDue(p, rest, g) == Share(p, clients, g)
  }

  lemma ConservedStart(p: Phase, counted: seq<nat>, heap: seq<Entry>, schedule: seq<Entry>, ready: seq<Due>,
                       clients: seq<nat>)
    requires p.Valid()
    requires forall g: nat -> nat :: Total(counted, g) + Tally(p, heap, g) == Share(p, clients, g)
    requires forall g: nat -> nat :: Tally(p, schedule, g) + TallyDue(p, ready, g) == Tally(p, heap, g)
    ensures Conserved(p, counted, schedule, ready, clients)
  {
  }

  lemma ConservedNext(p: Phase, counted: seq<nat>, before: seq<Entry>, after: seq<Entry>, due: Due, rest: seq<Due>,
                      clients: seq<nat>)
    requires p.Valid() && EntryOk(p, due.entry) && Conserved(p, counted, before, [due] + rest, clients)
    requires var next := Following(p, due.entry);
      after == if next.sequence < p.Offers() then before + [next] else before
    ensures Conserved(p, counted + [due.entry.sequence], after, rest, clients)
  {
    forall g: nat -> nat
      ensures Total(counted + [due.entry.sequence], g) + Tally(p, after, g) + TallyDue(p, rest, g)
           == Share(p, clients, g)
    {
      OfferBalance(p, counted, before, after, due, rest, g);
    }
  }

  lemma ConservedEnd(p: Phase, counted: seq<nat>, schedule: seq<Entry>, clients: seq<nat>)
    requires p.Valid() && Conserved(p, counted, schedule, [], clients)
    ensures forall g: nat -> nat :: Total(counted, g) + Tally(p, schedule, g) == Share(p, clients, g)
  {
    forall g: nat -> nat ensures TallyDue(p, [], g) == 0 {
    }
  }

  /** The clock was never read at or past the deadline. */
  ghost predicate InTime(p: Phase, nows: seq<int>) {
    forall i :: 0 <= i < |nows| ==> nows[i] < p.Deadline()
  }

  /** Nothing that is due before the deadline is left. */
  ghost predicate NothingDue(p: Phase, schedule: seq<Entry>) {
    forall i :: 0 <= i < |schedule| ==> schedule[i].scheduled >= p.Deadline()
  }

  lemma CountedOnTime(p: Phase, counted: seq<nat>, nows: seq<int>)
    requires p.Valid() && CountedInTime(p, counted, nows)
    requires InTime(p, nows)
    ensures Total(counted, Late(p)) == 0
  {
    TotalOfZeros(counted, Late(p));
  }

  // -------------------------------------------------------------- lost offers

  /** Offers ahead of entries that are due only at or after the deadline:
      the final accounting skips those entries. */
  function Lost(p: Phase, schedule: seq<Entry>): nat
    requires p.Valid()
  {
    if schedule == [] then 0
    else
      var e := schedule[|schedule| - 1];
      Lost(p, schedule[..|schedule| - 1]) + (if e.scheduled >= p.Deadline() then Ahead(p, e, One) else 0)
  }

  /** The last offer is due before the deadline. */
  predicate OnTime(p: Phase)
    requires p.Valid()
  {
    p.Offers() == 0 || p.DueAt(p.Offers() - 1) < p.Deadline()
  }

  /** Up to one offer per nanosecond this always holds. */
  lemma OnTimeAtNormalRates(p: Phase)
    requires p.Valid() && p.rate <= 1000000000.0
    ensures OnTime(p)
  {
    if p.Offers() > 0 {
      DueBeforeDeadline(p, p.Offers() - 1);
    }
  }

  lemma {:induction false} NothingLost(p: Phase, schedule: seq<Entry>)
    requires p.Valid() && ScheduleOk(p, schedule) && OnTime(p)
    ensures Lost(p, schedule) == 0
  {
    if schedule != [] {
      var n := |schedule| - 1;
      NothingLost(p, schedule[..n]);
      assert EntryOk(p, schedule[n]);
      DueMonotone(p, schedule[n].sequence, p.Offers() - 1);
    }
  }

  lemma {:induction false} AllLate(p: Phase, first: nat)
    requires p.Valid() && p.DueAt(first) >= p.Deadline()
    ensures Total(Stride(first, p.active, p.Offers()), Late(p)) == Total(Stride(first, p.active, p.Offers()), One)
    decreases p.Offers() - first
  {
    StrideTotal(first, p.active, p.Offers(), Late(p));
    StrideTotal(first, p.active, p.Offers(), One);
    if first < p.Offers() {
      DueMonotone(p, first, first + p.active);
      AllLate(p, first + p.active);
    }
  }

  lemma {:induction false} AllLost(p: Phase, schedule: seq<Entry>)
    requires p.Valid() && ScheduleOk(p, schedule)
    requires NothingDue(p, schedule)
    ensures Lost(p, schedule) == Tally(p, schedule, One) == Tally(p, schedule, Late(p))
  {
    if schedule != [] {
      var n := |schedule| - 1;
      AllLost(p, schedule[..n]);
      assert EntryOk(p, schedule[n]);
      AllLate(p, schedule[n].sequence);
    }
  }

  /** With at most one offer a client, each late entry loses its one offer. */
  lemma {:induction false} OneEachLost(p: Phase, schedule: seq<Entry>)
    requires p.Valid() && ScheduleOk(p, schedule) && p.Offers() <= p.active
    ensures Lost(p, schedule) == Tally(p, schedule, Late(p))
  {
    if schedule != [] {
      var n := |schedule| - 1;
      var e := schedule[n];
      OneEachLost(p, schedule[..n]);
      assert EntryOk(p, e);
      StrideTotal(e.sequence, p.active, p.Offers(), One);
      StrideTotal(e.sequence, p.active, p.Offers(), Late(p));
      StrideTotal(e.sequence + p.active, p.active, p.Offers(), One);
      StrideTotal(e.sequence + p.active, p.active, p.Offers(), Late(p));
    }
  }

  // ------------------------------------------------------------------- diligence

  /** Clock readings with which a worker keeps up: one for each of its offers,
      all just before the deadline; none are needed, or possible, in a phase
      that ends as it starts. */
  ghost predicate Diligent(p: Phase, nows: seq<int>, share: nat) {
    && p.maxOverdue > 0
    && (forall i :: 0 <= i < |nows| ==> nows[i] == p.Deadline() - 1)
    && (p.Deadline() <= p.start || |nows| >= share)
  }

  lemma DueAfterStart(p: Phase, x: nat)
    requires p.Valid()
    ensures p.DueAt(x) >= p.start
  {
    var position, k := x % p.active, x / p.active;
    TimesMonotone(0.0, position as real, p.Period());
    FloorBounds(p.start as real + position as real * p.Period());
    FloorBounds(1000000000.0 * p.active as real / p.rate);
    assert k * p.PeriodPerClient() >= 0;
  }

  lemma {:induction false} EntriesAhead(p: Phase, schedule: seq<Entry>)
    requires p.Valid() && ScheduleOk(p, schedule)
    ensures Tally(p, schedule, One) >= |schedule|
  {
    if schedule != [] {
      var n := |schedule| - 1;
      EntriesAhead(p, schedule[..n]);
      assert EntryOk(p, schedule[n]);
      StrideTotal(schedule[n].sequence, p.active, p.Offers(), One);
    }
  }

  /** Once as many offers were popped as there are, nothing is left. */
  lemma KeepsUp(p: Phase, counted: seq<nat>, schedule: seq<Entry>, clients: seq<nat>)
    requires p.Valid() && ScheduleOk(p, schedule)
    requires forall g: nat -> nat :: Total(counted, g) + Tally(p, schedule, g) == Share(p, clients, g)
    requires p.Deadline() <= p.start || |counted| >= Share(p, clients, One) || NothingDue(p, schedule)
    ensures NothingDue(p, schedule)
  {
    TotalOfOnes(counted);
    assert Total(counted, One) + Tally(p, schedule, One) == Share(p, clients, One);
    EntriesAhead(p, schedule);
    if p.Deadline() <= p.start {
      forall i | 0 <= i < |schedule| ensures schedule[i].scheduled >= p.Deadline() {
        assert EntryOk(p, schedule[i]);
        DueAfterStart(p, schedule[i].sequence);
      }
    }
  }

  lemma NothingToShare(p: Phase, clients: seq<nat>, g: nat -> nat)
    requires p.Valid() && p.Offers() == 0
    ensures Share(p, clients, g) == 0
  {
    TotalOfZeros(clients, ClientShares(p, g));
  }

  // ------------------------------------------------------------- all workers

  /** clients[offset::workers] for each offset, for clients 0..connections-1. */
  function PartitionClients(connections: nat, workers: nat): seq<seq<nat>>
    requires workers > 0
  {
    seq(workers, offset requires 0 <= offset => Stride(offset, workers, connections))
  }

  /** Worker number `o` has the clients o, o + workers, and so on. */
  lemma PartitionAt(connections: nat, workers: nat, o: nat, i: nat)
    requires o < workers
    ensures var parts := PartitionClients(connections, workers);
      && |parts| == workers
      && (i < |parts[o]| <==> o + i * workers < connections)
      && (i < |parts[o]| ==> parts[o][i] == o + i * workers)
  {
    StrideAt(o, workers, connections, i);
  }

  /** The clients of the first `n` workers. */
  function Shares(p: Phase, partition: seq<seq<nat>>, g: nat -> nat): nat
    requires p.Valid()
  {
    if partition == [] then 0
    else Shares(p, partition[..|partition| - 1], g) + Share(p, partition[|partition| - 1], g)
  }

  lemma {:induction false} SharesAreStrides(p: Phase, connections: nat, workers: nat, n: nat, g: nat -> nat)
    requires p.Valid() && workers > 0 && n <= workers
    ensures Shares(p, PartitionClients(connections, workers)[..n], g)
         == Strides(0, n, workers, connections, ClientShares(p, g))
  {
    if n > 0 {
      SharesAreStrides(p, connections, workers, n - 1, g);
      var parts := PartitionClients(connections, workers);
      assert parts[..n][..n - 1] == parts[..n - 1];
    }
  }

  /** Clients beyond the active ones have no offers. */
  lemma {:induction false} ActiveShares(p: Phase, first: nat, connections: nat, g: nat -> nat)
    requires p.Valid() && p.active <= connections && first <= p.active
    ensures Range(first, connections, ClientShares(p, g)) == Strides(first, p.active - first, p.active, p.Offers(), g)
    decreases p.active - first
  {
    if first < p.active {
      ActiveShares(p, first + 1, connections, g);
      StridesShift(first, p.active - first, p.active, p.Offers(), g);
    } else {
      IdleShares(p, first, connections, g);
    }
  }

  lemma {:induction false} IdleShares(p: Phase, first: nat, connections: nat, g: nat -> nat)
    requires p.Valid() && p.active <= first
    ensures Range(first, connections, ClientShares(p, g)) == 0
    decreases connections - first
  {
    if first < connections {
      IdleShares(p, first + 1, connections, g);
    }
  }

  /** The workers' shares are all the offers of the phase, each once. */
  lemma SharesCoverPhase(p: Phase, connections: nat, workers: nat, g: nat -> nat)
    requires p.Valid() && workers > 0 && p.active <= connections
    ensures Shares(p, PartitionClients(connections, workers), g) == Range(0, p.Offers(), g)
  {
    var parts := PartitionClients(connections, workers);
    assert parts[..workers] == parts;
    SharesAreStrides(p, connections, workers, workers, g);
    StridesPartition(0, workers, connections, ClientShares(p, g));
    ActiveShares(p, 0, connections, g);
    StridesPartition(0, p.active, p.Offers(), g);
  }

  /** All workers' phases; `histories` are their clock readings. Whatever was
      popped before the deadline, offered operations add up to
      floor(rate * duration) when the last offer is due in time. When it is
      not, workers that all keep up count fewer. */
  method RunAllWorkers(p: Phase, connections: nat, workers: nat, histories: seq<seq<int>>, accepts: nat -> bool)
    returns (offered: nat, sent: nat, missed: nat, ghost allKeptUp: bool, ghost popped: seq<seq<seq<Due>>>)
    requires p.Valid() && workers > 0 && p.active <= connections && |histories| == workers
    ensures sent + missed == offered <= p.Offers()
    ensures OnTime(p) ==> offered == (p.rate * p.duration).Floor
    ensures allKeptUp ==> (offered == p.Offers() <==> OnTime(p))
    ensures AllInTime(p, histories) && p.Offers() <= p.active ==> (offered == p.Offers() <==> OnTime(p))
    ensures AllDiligent(p, histories) ==> allKeptUp
    // in every worker, what was popped is sent unless late or refused
    ensures |popped| == workers && forall i :: 0 <= i < workers ==> RoundsOk(p, popped[i], histories[i])
    ensures sent + MissedIn(Flat(Flat(popped)), accepts) == |Flat(Flat(popped))|
  {
    hide Share, Shares, Range, OnTime, Diligent, InTime, PartitionClients, Late, RoundsOk, MissedIn, Flat;
    popped := [];
    NoneMissed(accepts);
    NothingFlat();
    NoParts(p);
    PartsAreWorkers(p, connections, workers);
    offered, sent, missed, allKeptUp := 0, 0, 0, true;
    var parts := PartitionClients(connections, workers);
    for i := 0 to workers
      invariant sent + missed == offered <= Shares(p, parts[..i], One)
      invariant OnTime(p) ==> offered == Shares(p, parts[..i], One)
      invariant allKeptUp || (AllInTime(p, histories) && p.Offers() <= p.active) ==>
        offered + Shares(p, parts[..i], Late(p)) == Shares(p, parts[..i], One)
      invariant AllDiligent(p, histories) ==> allKeptUp
      invariant |popped| == i && forall j :: 0 <= j < i ==> RoundsOk(p, popped[j], histories[j])
      invariant sent + MissedIn(Flat(Flat(popped)), accepts) == |Flat(Flat(popped))|
    {
      PartOfShares(p, connections, workers, i);
      NextPart(p, parts, i, One);
      NextPart(p, parts, i, Late(p));
      DiligentEnough(p, histories[i], Share(p, parts[i], One));
      var worker := new Worker();
      ghost var keptUp, rounds := worker.RunPhase(p, parts[i], histories[i], accepts);
      FlatMore(popped, rounds);
      FlatBoth(Flat(popped), rounds);
      MissedBoth(Flat(Flat(popped)), Flat(rounds), accepts);
      popped := popped + [rounds];
      offered, sent, missed := offered + worker.offered, sent + worker.sent, missed + worker.missed;
      allKeptUp := allKeptUp && keptUp;
    }
    assert parts[..workers] == parts;
    SharesCoverPhase(p, connections, workers, One);
    RangeOfOnes(0, p.Offers());
    LateOffersAreMissing(p, connections, workers);
  }

  /** There are offers due too late exactly when the last one is. */
  lemma LateOffersAreMissing(p: Phase, connections: nat, workers: nat)
    requires p.Valid() && workers > 0 && p.active <= connections
    ensures Shares(p, PartitionClients(connections, workers), Late(p)) == 0 <==> OnTime(p)
  {
    SharesCoverPhase(p, connections, workers, Late(p));
    if p.Offers() > 0 {
      LateCount(p, 0);
    }
  }

  ghost predicate AllInTime(p: Phase, histories: seq<seq<int>>) {
    forall i :: 0 <= i < |histories| ==> InTime(p, histories[i])
  }

  ghost predicate AllDiligent(p: Phase, histories: seq<seq<int>>)
    requires p.Valid()
  {
    forall i :: 0 <= i < |histories| ==> Diligent(p, histories[i], p.Offers())
  }

  lemma NoParts(p: Phase)
    requires p.Valid()
    ensures forall g: nat -> nat :: Shares(p, [], g) == 0
  {
  }

  lemma PartsAreWorkers(p: Phase, connections: nat, workers: nat)
    requires workers > 0
    ensures |PartitionClients(connections, workers)| == workers
  {
  }

  lemma NextPart(p: Phase, parts: seq<seq<nat>>, i: nat, g: nat -> nat)
    requires p.Valid() && i < |parts|
    ensures Shares(p, parts[..i + 1], g) == Shares(p, parts[..i], g) + Share(p, parts[i], g)
  {
    assert parts[..i + 1][..i] == parts[..i];
  }

  lemma DiligentEnough(p: Phase, nows: seq<int>, share: nat)
    requires p.Valid() && share <= p.Offers()
    ensures Diligent(p, nows, p.Offers()) ==> Diligent(p, nows, share)
  {
  }

  /** A worker's share is part of the whole. */
  lemma PartOfShares(p: Phase, connections: nat, workers: nat, i: nat)
    requires p.Valid() && p.active <= connections && i < workers
    ensures Share(p, PartitionClients(connections, workers)[i], One) <= p.Offers()
  {
    var parts := PartitionClients(connections, workers);
    SharesGrow(p, parts, i, workers);
    assert parts[..workers] == parts;
    SharesCoverPhase(p, connections, workers, One);
    RangeOfOnes(0, p.Offers());
  }

  lemma {:induction false} SharesGrow(p: Phase, parts: seq<seq<nat>>, i: nat, n: nat)
    requires p.Valid() && i < n <= |parts|
    ensures Share(p, parts[i], One) <= Shares(p, parts[..n], One)
  {
    assert parts[..n][..n - 1] == parts[..n - 1];
    if i < n - 1 {
      SharesGrow(p, parts, i, n - 1);
    }
  }

  // ------------------------------------------------------------- losing offers

  /** Clock readings that a real clock can give: between start and deadline,
      never going back. */
  ghost predicate Possible(p: Phase, nows: seq<int>) {
    && (forall i :: 0 <= i < |nows| ==> p.start <= nows[i] < p.Deadline())
    && (forall i, j :: 0 <= i < j < |nows| ==> nows[i] <= nows[j])
  }

  /** As many readings just before the deadline as there are offers. */
  function Steady(p: Phase): (nows: seq<int>)
    requires p.Valid()
    ensures p.maxOverdue > 0 ==> Diligent(p, nows, p.Offers())
    ensures Possible(p, nows)
  {
    if p.Deadline() <= p.start then [] else seq(p.Offers(), _ => p.Deadline() - 1)
  }

  /** When the last offer is due too late, offers can be lost: there are clock
      readings that a real clock can give with which fewer are counted, and
      whatever the connections accept. Together with `RunAllWorkers`, whose
      count is exact whenever the last offer is due in time: every history
      counts all offers if and only if that is so. */
  method LoseOffers(p: Phase, connections: nat, workers: nat, accepts: nat -> bool)
    returns (histories: seq<seq<int>>, offered: nat)
    requires p.Valid() && p.maxOverdue > 0 && workers > 0 && p.active <= connections && !OnTime(p)
    ensures |histories| == workers && forall i :: 0 <= i < workers ==> Possible(p, histories[i])
    ensures offered < p.Offers()
  {
    histories := seq(workers, _ => Steady(p));
    var sent, missed;
    ghost var keptUp, popped;
    offered, sent, missed, keptUp, popped := RunAllWorkers(p, connections, workers, histories, accepts);
  }

  /** Three offers at two per nanosecond in 1.5 ns. */
  function Rushed(): Phase {
    Phase(2000000000.0, 0.0000000015, 0, 3, 32, 0)
  }

  /** Above one offer per nanosecond the last offer can be too late: these are
      due at 0, 0 and 1, with the deadline at 1. */
  lemma TooFast()
    ensures Rushed().Valid() && Rushed().Offers() == 3 && !OnTime(Rushed())
  {
    var p := Rushed();
    assert p.rate * p.duration == 3.0;
    assert p.Period() == 0.5;
    assert p.DueAt(2) == 1;
    assert p.Deadline() == 1;
  }

  /** And then offers are lost in every run whose clock stays before the deadline. */
  method RushedLoses(connections: nat, workers: nat, histories: seq<seq<int>>, accepts: nat -> bool)
    returns (offered: nat)
    requires workers > 0 && connections >= 3 && |histories| == workers && AllInTime(Rushed(), histories)
    ensures offered < 3
  {
    TooFast();
    var sent, missed;
    ghost var keptUp, popped;
    offered, sent, missed, keptUp, popped := RunAllWorkers(Rushed(), connections, workers, histories, accepts);
  }
}
