/** The state of one connection and its bounded output queue. */
module ServerCommon {
  import opened Text
  import opened Sockets
  import opened Readiness

  const MAX_DATA_SIZE: nat := 256
  const MAX_FRAME_BYTES: nat := 4096
  const MAX_INPUT_BUFFER_BYTES: nat := 8192
  const MAX_PENDING_OUTPUT_BYTES: nat := 16384
  const MAX_BYTES_READ_PER_POLL: nat := 8192
  const MAX_BYTES_WRITTEN_PER_POLL: nat := 8192
  const MAX_PROCESSED_FRAMES_PER_POLL: nat := 32

  lemma Limits()
    ensures MAX_DATA_SIZE == 256 && MAX_BYTES_READ_PER_POLL == 8192 && MAX_PROCESSED_FRAMES_PER_POLL == 32
    ensures MAX_FRAME_BYTES == 4096 && MAX_INPUT_BUFFER_BYTES == 8192
    ensures MAX_PENDING_OUTPUT_BYTES == 16384 && MAX_BYTES_WRITTEN_PER_POLL == 8192
  {
  }

  function Min(a: nat, b: nat): (r: nat)
    ensures r <= a && r <= b && (r == a || r == b)
  {
    if a <= b then a else b
  }

  function Max(a: nat, b: nat): (r: nat)
    ensures r >= a && r >= b && (r == a || r == b)
  {
    if a <= b then b else a
  }

  datatype PendingWrite = PendingWrite(data: Bytes, offset: nat)

  /** The bytes of a queue entry that the kernel has not taken. */
  function Tail(p: PendingWrite): Bytes {
    if p.offset <= |p.data| then p.data[p.offset..] else []
  }

  function Unsent(queue: seq<PendingWrite>): Bytes {
    if queue == [] then [] else Tail(queue[0]) + Unsent(queue[1..])
  }

  lemma {:induction false} UnsentAppend(queue: seq<PendingWrite>, p: PendingWrite)
    ensures Unsent(queue + [p]) == Unsent(queue) + Tail(p)
  {
    if queue == [] {
      assert queue + [p] == [p];
    } else {
      assert (queue + [p])[1..] == queue[1..] + [p];
      UnsentAppend(queue[1..], p);
    }
  }

  /** A snapshot of the output side of a connection. `outbox` and `base` are
      not in the program: the messages queueing accepted so far, and how many
      bytes the kernel had taken when the write budget was last refilled. */
  datatype Output = Output(
    outbox: seq<Bytes>, queue: seq<PendingWrite>, size: nat, peak: nat, armed: bool,
    budgetIteration: nat, budget: nat, base: nat)

  const NO_OUTPUT := Output([], [], 0, 0, false, 0, 0, 0)

  /** A snapshot of a connection. `frames` and `handled` are not in the
      program: the raw frames cut from the input so far, and the stripped
      frames given to the command interpreter. */
  datatype Connection = Connection(
    fd: int, username: Bytes, currRoom: nat, active: bool, input: Bytes,
    frames: seq<Bytes>, handled: seq<Bytes>, out: Output)

  /** The queue is the unsent rest of the byte stream: what the kernel took,
      then what is queued, is every accepted message in order. */
  ghost predicate StreamOk(o: Output, taken: Bytes) {
    && (forall i :: 0 <= i < |o.queue| ==> o.queue[i].offset < |o.queue[i].data|)
    && o.size == |Unsent(o.queue)|
    && o.size <= o.peak <= MAX_PENDING_OUTPUT_BYTES
    && taken + Unsent(o.queue) == Concat(o.outbox)
  }

  /** Bytes given to the kernel since the budget was refilled, plus what is
      left of the budget, are one full budget. */
  ghost predicate BudgetOk(o: Output, taken: Bytes, now: nat) {
    && o.budgetIteration <= now
    && o.budget <= MAX_BYTES_WRITTEN_PER_POLL
    && (o.budgetIteration != 0 ==> |taken| + o.budget == o.base + MAX_BYTES_WRITTEN_PER_POLL)
  }

  /** Output is consistent, and write interest is wanted exactly while bytes wait. */
  ghost predicate OutputOk(o: Output, taken: Bytes, now: nat) {
    && StreamOk(o, taken)
    && BudgetOk(o, taken, now)
    && (o.queue != [] <==> o.armed)
  }

  /** What may still be written in iteration `now`. */
  function Budget(o: Output, now: nat): nat {
    if o.budgetIteration == now then o.budget else MAX_BYTES_WRITTEN_PER_POLL
  }

  /** The write budget after its first use in iteration `now`. */
  function Refilled(o: Output, taken: Bytes, now: nat): Output {
    if o.budgetIteration == now then o
    else o.(budgetIteration := now, budget := MAX_BYTES_WRITTEN_PER_POLL, base := |taken|)
  }

  /** Other connections and other logs are as they were. */
  ghost predicate OnlyTouched(fd: int, before: map<int, Bytes>, after: map<int, Bytes>) {
    && fd in before && fd in after
    && after == before[fd := after[fd]]
    && before[fd] <= after[fd]
  }

  class ServerClock {
    var serverIteration: nat

    constructor ()
      ensures serverIteration == 1
    {
      serverIteration := 1;
    }

    method BeginServerIteration()
      modifies this
      ensures serverIteration == old(serverIteration) + 1
    {
      serverIteration := serverIteration + 1;
    }
  }

  class ClientConnection {
    const fd: int
    var username: Bytes
    var currRoom: nat
    var inputBuffer: Bytes
    var outputQueue: seq<PendingWrite>
    var outputQueueSize: nat
    var peakPendingOutputBytes: nat
    var active: bool
    var writeInterestEnabled: bool
    var writeBudgetIteration: nat
    var writeBudgetRemaining: nat
    ghost var outbox: seq<Bytes>
    ghost var budgetBase: nat
    ghost var frames: seq<Bytes>
    ghost var handled: seq<Bytes>

    constructor (fd: int)
      ensures this.fd == fd
      ensures View() == Connection(fd, [], 0, false, [], [], [], NO_OUTPUT)
    {
      this.fd := fd;
      username, currRoom, active, inputBuffer := [], 0, false, [];
      outputQueue, outputQueueSize, peakPendingOutputBytes := [], 0, 0;
      writeInterestEnabled, writeBudgetIteration, writeBudgetRemaining := false, 0, 0;
      outbox, budgetBase, frames, handled := [], 0, [], [];
    }

    ghost function Out(): Output
      reads this
    {
      Output(outbox, outputQueue, outputQueueSize, peakPendingOutputBytes, writeInterestEnabled,
             writeBudgetIteration, writeBudgetRemaining, budgetBase)
    }

    ghost function View(): Connection
      reads this
    {
      Connection(fd, username, currRoom, active, inputBuffer, frames, handled, Out())
    }

    /** Refill the write budget on its first use in an iteration. */
    method RefillWriteBudget(clock: ServerClock, ghost taken: Bytes)
      modifies this`writeBudgetIteration, this`writeBudgetRemaining, this`budgetBase
      ensures Out() == old(Refilled(Out(), taken, clock.serverIteration))
    {
      if writeBudgetIteration != clock.serverIteration {
        writeBudgetIteration := clock.serverIteration;
        writeBudgetRemaining := MAX_BYTES_WRITTEN_PER_POLL;
        budgetBase := |taken|;
      }
    }
  }

  /** Which descriptors sends broke down on or write interest was refused for,
      and where sends would have blocked. */
  ghost function LogOf(kernel: Kernel, dispatcher: ReadinessDispatcher): SendLog
    reads kernel`log, dispatcher`refusals
  {
    kernel.log.(broken := kernel.log.broken + dispatcher.refusals)
  }

  /** The log says nothing new about descriptors outside `to`. */
  ghost predicate LoggedFor(to: set<int>, before: SendLog, after: SendLog) {
    forall fd :: fd !in to ==> after.broken[fd] == before.broken[fd] && after.blocked[fd] == before.blocked[fd]
  }

  /** It names only `fd`, at most once. */
  ghost predicate LoggedOnce(fd: int, before: SendLog, after: SendLog) {
    && LoggedFor({fd}, before, after)
    && before.broken[fd] <= after.broken[fd] <= before.broken[fd] + 1
    && before.blocked[fd] <= after.blocked[fd] <= before.blocked[fd] + 1
  }

  lemma NothingLogged(fd: int, log: SendLog)
    ensures LoggedOnce(fd, log, log)
  {
  }

  /** What the kernel logged and what the dispatcher refused, taken together. */
  lemma LogsJoined(fd: int, before: SendLog, after: SendLog, refused: multiset<int>, more: multiset<int>)
    requires LoggedOnce(fd, before, after)
    requires more == refused || (more == refused + multiset{fd} && after.broken[fd] == before.broken[fd])
    ensures var a, b := before.(broken := before.broken + refused), after.(broken := after.broken + more);
      && LoggedOnce(fd, a, b)
      && (b.broken[fd] == a.broken[fd] <==> after.broken[fd] == before.broken[fd] && more == refused)
  {
  }

  /** `send`, repeated while it is interrupted. */
  method SendRetrying(kernel: Kernel, fd: int, data: Bytes) returns (r: SendResult)
    requires fd in kernel.taken && data != []
    modifies kernel`interruptsLeft, kernel`log, kernel`taken
    ensures !r.SendInterrupted?
    ensures kernel.log == AfterSend(old(kernel.log), fd, r)
    ensures r.Wrote? ==> r.count <= |data|
    ensures kernel.taken ==
      if r.Wrote? then old(kernel.taken)[fd := old(kernel.taken)[fd] + data[..r.count]] else old(kernel.taken)
    ensures kernel.generous ==> r == Wrote(|data|)
  {
    r := kernel.Send(fd, data);
    while r.SendInterrupted?
      invariant kernel.log == AfterSend(old(kernel.log), fd, r)
      invariant r.Wrote? ==> r.count <= |data|
      invariant kernel.taken ==
        if r.Wrote? then old(kernel.taken)[fd := old(kernel.taken)[fd] + data[..r.count]] else old(kernel.taken)
      invariant kernel.generous ==> r == Wrote(|data|) || r.SendInterrupted?
      decreases kernel.interruptsLeft, r.SendInterrupted?
    {
      r := kernel.Send(fd, data);
    }
  }

  lemma Regroup(a: Bytes, u: Bytes, d: Bytes, k: nat)
    requires k <= |d| && (u == [] || k == 0)
    ensures (a + d[..k]) + (u + d[k..]) == (a + u) + d
  {
    assert d == d[..k] + d[k..];
  }

  /** Accepting a message, of which the kernel already took the first
      `offset` bytes, extends the stream by exactly its bytes. */
  lemma StreamGrows(o: Output, taken: Bytes, data: Bytes, offset: nat)
    requires StreamOk(o, taken)
    requires offset < |data| && (o.queue == [] || offset == 0)
    ensures var queue := o.queue + [PendingWrite(data[offset..], 0)];
      && (taken + data[..offset]) + Unsent(queue) == Concat(o.outbox + [data])
      && |Unsent(queue)| == o.size + |data| - offset
  {
    var p := PendingWrite(data[offset..], 0);
    assert Tail(p) == data[offset..];
    UnsentAppend(o.queue, p);
    ConcatAppend(o.outbox, data);
    Regroup(taken, Unsent(o.queue), data, offset);
  }

  /** A message the kernel took whole, or an empty one, leaves the queue alone. */
  lemma StreamTaken(o: Output, taken: Bytes, data: Bytes)
    requires StreamOk(o, taken)
    requires o.queue == [] || data == []
    ensures taken + data + Unsent(o.queue) == Concat(o.outbox + [data])
  {
    ConcatAppend(o.outbox, data);
    if data == [] {
      assert taken + data == taken;
      assert Concat(o.outbox) + data == Concat(o.outbox);
    } else {
      assert taken + data + [] == taken + data;
      assert taken + [] == taken;
    }
  }

  function Enqueued(o: Output, rest: Bytes): Output {
    if rest == [] then o
    else o.(queue := o.queue + [PendingWrite(rest, 0)], size := o.size + |rest|,
            peak := Max(o.peak, o.size + |rest|))
  }

  /** Sending the first `sent` bytes of a message now and queueing the rest
      keeps the connection consistent. */
  lemma QueueKeepsOutputOk(o: Output, taken: Bytes, now: nat, data: Bytes, sent: nat, after: Output)
    requires now > 0 && OutputOk(o, taken, now)
    requires |data| <= MAX_PENDING_OUTPUT_BYTES - o.size
    requires sent <= |data| && (o.queue == [] || sent == 0) && sent <= Budget(o, now)
    requires var spent := Refilled(o, taken, now);
      var e := Enqueued(spent.(budget := spent.budget - sent), data[sent..]);
      after == e.(outbox := o.outbox + [data], armed := e.queue != [])
    ensures OutputOk(after, taken + data[..sent], now) && after.peak == Max(o.peak, after.size)
  {
    if sent < |data| {
      StreamGrows(o, taken, data, sent);
    } else {
      assert data[..sent] == data;
      StreamTaken(o, taken, data);
    }
  }

  /** The fast path: with nothing queued, offer the message to the kernel. */
  method SendNow(client: ClientConnection, data: Bytes, kernel: Kernel, clock: ServerClock)
    returns (ok: bool, sent: nat)
    requires client.fd in kernel.taken
    requires BudgetOk(client.Out(), kernel.taken[client.fd], clock.serverIteration)
    modifies client`writeBudgetIteration, client`writeBudgetRemaining, client`budgetBase
    modifies kernel`interruptsLeft, kernel`log, kernel`taken
    ensures sent <= |data| && (old(client.outputQueue) != [] ==> ok && sent == 0)
    ensures sent <= old(Budget(client.Out(), clock.serverIteration))
    ensures !ok ==> sent == 0
    ensures kernel.taken == old(kernel.taken)[client.fd := old(kernel.taken)[client.fd] + data[..sent]]
    ensures sent == 0 ==> kernel.taken == old(kernel.taken)
    ensures OnlyTouched(client.fd, old(kernel.taken), kernel.taken)
    ensures client.View() == old(client.View()).(out := client.Out())
    ensures |kernel.taken[client.fd]| + Budget(client.Out(), clock.serverIteration)
         == old(|kernel.taken[client.fd]| + Budget(client.Out(), clock.serverIteration))
    ensures var o := old(Refilled(client.Out(), kernel.taken[client.fd], clock.serverIteration));
      client.Out() == o.(budget := o.budget - sent)
    ensures kernel.generous ==>
      ok && sent == if old(client.outputQueue) != [] then 0
                    else Min(|data|, old(Budget(client.Out(), clock.serverIteration)))
    // it fails exactly if the send breaks down, and a send is made exactly if it can be
    ensures ok <==> kernel.log.broken[client.fd] == old(kernel.log.broken)[client.fd]
    ensures LoggedOnce(client.fd, old(kernel.log), kernel.log)
    ensures kernel.generous ==> kernel.log == old(kernel.log)
    ensures sent > 0 || kernel.log != old(kernel.log) <==>
      old(client.outputQueue) == [] && data != [] && old(Budget(client.Out(), clock.serverIteration)) != 0
  {
    client.RefillWriteBudget(clock, kernel.taken[client.fd]);
    ok, sent := true, 0;
    assert kernel.taken[client.fd] + data[..0] == kernel.taken[client.fd];
    if client.outputQueue == [] && data != [] && client.writeBudgetRemaining != 0 {
      var bytesToSend := Min(|data|, client.writeBudgetRemaining);
      var written := SendRetrying(kernel, client.fd, data[..bytesToSend]);
      match written
      case Wrote(count) =>
        assert data[..bytesToSend][..count] == data[..count];
        client.writeBudgetRemaining := client.writeBudgetRemaining - count;
        ok, sent := count != 0, count;
      case SendWouldBlock =>
      case _ =>
        ok := false;
    }
  }

  /** The slow path: keep what the kernel did not take, and ask for write
      readiness unless that is already done. */
  method EnqueueRest(client: ClientConnection, rest: Bytes, dispatcher: ReadinessDispatcher) returns (ok: bool)
    requires client.fd in dispatcher.interest && dispatcher.interest[client.fd] == client.writeInterestEnabled
    requires client.writeInterestEnabled ==> client.outputQueue != []
    modifies client`outputQueue, client`outputQueueSize, client`peakPendingOutputBytes, client`writeInterestEnabled
    modifies dispatcher
    ensures var e := old(Enqueued(client.Out(), rest));
      client.Out() == e.(armed := if ok then e.queue != [] else e.armed)
    ensures client.View() == old(client.View()).(out := client.Out())
    ensures client.fd in dispatcher.interest && dispatcher.interest[client.fd] == client.writeInterestEnabled
    ensures dispatcher.interest == old(dispatcher.interest)[client.fd := dispatcher.interest[client.fd]]
    ensures dispatcher.reliable ==> ok
    ensures dispatcher.refusals ==
      if ok then old(dispatcher.refusals) else old(dispatcher.refusals) + multiset{client.fd}
  {
    if rest != [] {
      client.outputQueue := client.outputQueue + [PendingWrite(rest, 0)];
      client.outputQueueSize := client.outputQueueSize + |rest|;
      client.peakPendingOutputBytes := Max(client.peakPendingOutputBytes, client.outputQueueSize);
    }
    if client.outputQueue != [] && !client.writeInterestEnabled {
      ok := dispatcher.SetWriteInterest(client.fd, true);
      if !ok {
        return false;
      }
      client.writeInterestEnabled := true;
    }
    ok := true;
  }

  /** Queue one message. It joins the stream whole, or is refused. */
  method QueueOutputCommon(client: ClientConnection, data: Bytes,
                           kernel: Kernel, dispatcher: ReadinessDispatcher, clock: ServerClock)
    returns (ok: bool)
    requires clock.serverIteration > 0
    requires client.fd in kernel.taken
    requires client.fd in dispatcher.interest && dispatcher.interest[client.fd] == client.writeInterestEnabled
    requires OutputOk(client.Out(), kernel.taken[client.fd], clock.serverIteration)
    modifies client, kernel`interruptsLeft, kernel`log, kernel`taken, dispatcher
    ensures client.View() == old(client.View()).(out := client.Out())
    ensures OnlyTouched(client.fd, old(kernel.taken), kernel.taken)
    ensures client.fd in dispatcher.interest
    ensures dispatcher.interest == old(dispatcher.interest)[client.fd := dispatcher.interest[client.fd]]
    // the message is queued and everything agrees again
    ensures ok ==> client.outbox == old(client.outbox) + [data]
    ensures ok ==> OutputOk(client.Out(), kernel.taken[client.fd], clock.serverIteration)
    ensures ok ==> dispatcher.interest[client.fd] == client.writeInterestEnabled
    // or it is not
    ensures !ok ==> client.outbox == old(client.outbox)
    ensures old(client.outputQueueSize) + |data| > MAX_PENDING_OUTPUT_BYTES ==>
      !ok && client.View() == old(client.View()) && kernel.taken == old(kernel.taken)
    ensures old(client.outputQueueSize) + |data| <= MAX_PENDING_OUTPUT_BYTES ==>
      kernel.generous && dispatcher.reliable ==> ok
    // it is refused exactly if it does not fit, its send breaks down, or write interest is refused
    ensures ok <==>
      && old(client.outputQueueSize) + |data| <= 16384
      && LogOf(kernel, dispatcher).broken[client.fd] == old(LogOf(kernel, dispatcher)).broken[client.fd]
    ensures LoggedOnce(client.fd, old(LogOf(kernel, dispatcher)), LogOf(kernel, dispatcher))
    ensures kernel.generous ==> kernel.log == old(kernel.log)
    ensures dispatcher.reliable ==> dispatcher.refusals == old(dispatcher.refusals)
    // a send is made exactly if nothing waits and the budget allows
    ensures kernel.taken != old(kernel.taken) || kernel.log != old(kernel.log) <==>
      && old(client.outputQueueSize) + |data| <= 16384 && old(client.outputQueue) == [] && data != []
      && old(Budget(client.Out(), clock.serverIteration)) != 0
    ensures ok ==> client.peakPendingOutputBytes == Max(old(client.peakPendingOutputBytes), client.outputQueueSize)
    // pace: what the kernel took came out of this iteration's budget
    ensures |kernel.taken[client.fd]| + Budget(client.Out(), clock.serverIteration)
         == old(|kernel.taken[client.fd]| + Budget(client.Out(), clock.serverIteration))
    // no byte overtakes one that waits
    ensures old(client.outputQueue) != [] ==> kernel.taken == old(kernel.taken)
  {
    hide LoggedOnce, LoggedFor, StreamOk, BudgetOk, Budget, Tail, Concat, Unsent;
    ok := false;
    NothingLogged(client.fd, LogOf(kernel, dispatcher));
    if client.outputQueueSize > MAX_PENDING_OUTPUT_BYTES ||
      |data| > MAX_PENDING_OUTPUT_BYTES - client.outputQueueSize {
      return;
    }
    ghost var o, taken, log, refused := client.Out(), kernel.taken[client.fd], kernel.log, dispatcher.refusals;
    var sent: nat;
    ok, sent := SendNow(client, data, kernel, clock);
    ghost var spent := client.Out();
    LogsJoined(client.fd, log, kernel.log, refused, refused);
    if ok {
      ok := EnqueueRest(client, data[sent..], dispatcher);
      if ok {
        client.outbox := client.outbox + [data];
        QueueKeepsOutputOk(o, taken, clock.serverIteration, data, sent, client.Out());
      }
      LogsJoined(client.fd, log, kernel.log, refused, dispatcher.refusals);
      SameBudget(spent, client.Out(), clock.serverIteration);
    }
  }

  lemma SameBudget(o: Output, p: Output, now: nat)
    requires p.budgetIteration == o.budgetIteration && p.budget == o.budget
    ensures Budget(p, now) == Budget(o, now)
  {
  }

  /** The output state after the kernel took `n` more bytes of the first entry. */
  function Flushed(o: Output, n: nat): Output
    requires o.queue != [] && n <= |Tail(o.queue[0])| && n <= o.size && n <= o.budget
  {
    var front := o.queue[0].(offset := o.queue[0].offset + n);
    o.(queue := if front.offset == |front.data| then o.queue[1..] else [front] + o.queue[1..],
       size := o.size - n, budget := o.budget - n)
  }

  lemma FlushKeepsStream(o: Output, taken: Bytes, n: nat)
    requires StreamOk(o, taken)
    requires o.queue != [] && n <= |Tail(o.queue[0])| && n <= o.budget
    ensures n <= o.size
    ensures StreamOk(Flushed(o, n), taken + Tail(o.queue[0])[..n])
  {
    var p, rest := o.queue[0], o.queue[1..];
    UnsentCons(p, rest);
    assert [p] + rest == o.queue;
    FlushLeaves(o, n);
    FlushSplits(taken, Tail(p), n, Unsent(rest));
    hide Unsent, Tail, Concat;
    var queue := Flushed(o, n).queue;
    forall i | 0 <= i < |queue| ensures queue[i].offset < |queue[i].data| {
      LaterEntries(o, n, i);
    }
  }

  lemma UnsentCons(p: PendingWrite, rest: seq<PendingWrite>)
    ensures Unsent([p] + rest) == Tail(p) + Unsent(rest)
    ensures |Unsent([p] + rest)| >= |Tail(p)|
  {
    assert ([p] + rest)[1..] == rest;
  }

  lemma TailLater(p: PendingWrite, n: nat)
    requires n <= |Tail(p)|
    ensures Tail(p.(offset := p.offset + n)) == Tail(p)[n..]
  {
  }

  lemma TailAtEnd(p: PendingWrite)
    requires p.offset == |p.data|
    ensures Tail(p) == []
  {
  }

  lemma FlushSplits(taken: Bytes, tail: Bytes, n: nat, rest: Bytes)
    requires n <= |tail|
    ensures (taken + tail[..n]) + (tail[n..] + rest) == taken + (tail + rest)
    ensures |tail[n..] + rest| == |tail + rest| - n
  {
    assert tail[..n] + tail[n..] == tail;
    Assoc(taken, tail[..n], tail[n..] + rest);
    Assoc(tail[..n], tail[n..], rest);
  }

  lemma LaterEntries(o: Output, n: nat, i: nat)
    requires o.queue != [] && n <= |Tail(o.queue[0])| && n <= o.size && n <= o.budget
    requires forall k :: 0 <= k < |o.queue| ==> o.queue[k].offset < |o.queue[k].data|
    requires i < |Flushed(o, n).queue|
    ensures var p := Flushed(o, n).queue[i]; p.offset < |p.data|
  {
  }

  /** What is unsent after `n` bytes of the first entry went out. */
  lemma FlushLeaves(o: Output, n: nat)
    requires o.queue != [] && n <= |Tail(o.queue[0])| && n <= o.size && n <= o.budget
    ensures Unsent(Flushed(o, n).queue) == Tail(o.queue[0])[n..] + Unsent(o.queue[1..])
  {
    hide Unsent, Tail;
    var p, rest := o.queue[0], o.queue[1..];
    var front := p.(offset := p.offset + n);
    TailLater(p, n);
    if front.offset == |front.data| {
      TailAtEnd(front);
    } else {
      UnsentCons(front, rest);
    }
  }

  /** Write queued bytes until the queue or the budget is used up or the
      kernel stops taking them. */
  method FlushOutputCommon(client: ClientConnection,
                           kernel: Kernel, dispatcher: ReadinessDispatcher, clock: ServerClock)
    returns (ok: bool)
    requires clock.serverIteration > 0
    requires client.fd in kernel.taken
    requires client.fd in dispatcher.interest && dispatcher.interest[client.fd] == client.writeInterestEnabled
    requires OutputOk(client.Out(), kernel.taken[client.fd], clock.serverIteration)
    modifies client, kernel`interruptsLeft, kernel`log, kernel`taken, dispatcher
    ensures client.View() == old(client.View()).(out := client.Out())
    ensures client.outbox == old(client.outbox)
    ensures OnlyTouched(client.fd, old(kernel.taken), kernel.taken)
    ensures client.fd in dispatcher.interest
    ensures dispatcher.interest == old(dispatcher.interest)[client.fd := dispatcher.interest[client.fd]]
    ensures StreamOk(client.Out(), kernel.taken[client.fd])
    ensures ok ==> OutputOk(client.Out(), kernel.taken[client.fd], clock.serverIteration)
    ensures ok ==> dispatcher.interest[client.fd] == client.writeInterestEnabled
    ensures |kernel.taken[client.fd]| + Budget(client.Out(), clock.serverIteration)
         == old(|kernel.taken[client.fd]| + Budget(client.Out(), clock.serverIteration))
    // a kernel that takes everything gets all that the budget allows
    ensures kernel.generous && dispatcher.reliable ==>
      ok && client.outputQueueSize == old(client.outputQueueSize
        - Min(client.outputQueueSize, Budget(client.Out(), clock.serverIteration)))
    // it fails exactly if a send breaks down or the interest cannot be dropped
    ensures ok <==> LogOf(kernel, dispatcher).broken[client.fd] == old(LogOf(kernel, dispatcher)).broken[client.fd]
    ensures LoggedOnce(client.fd, old(LogOf(kernel, dispatcher)), LogOf(kernel, dispatcher))
    ensures kernel.generous ==> kernel.log == old(kernel.log)
    ensures dispatcher.reliable ==> dispatcher.refusals == old(dispatcher.refusals)
    // and it sends all that is queued and the budget allows unless a send would block
    ensures ok && kernel.log.blocked[client.fd] == old(kernel.log.blocked)[client.fd] ==>
      client.outputQueueSize == old(client.outputQueueSize
        - Min(client.outputQueueSize, Budget(client.Out(), clock.serverIteration)))
  {
    hide LoggedOnce, Concat, Unsent;
    ghost var log, refused := kernel.log, dispatcher.refusals;
    ok := WriteQueued(client, kernel, clock);
    LogsJoined(client.fd, log, kernel.log, refused, refused);
    if ok && client.outputQueue == [] && client.writeInterestEnabled {
      ok := dispatcher.SetWriteInterest(client.fd, false);
      if ok {
        client.writeInterestEnabled := false;
      }
      LogsJoined(client.fd, log, kernel.log, refused, dispatcher.refusals);
    }
  }

  /** The send loop of a flush. */
  method WriteQueued(client: ClientConnection, kernel: Kernel, clock: ServerClock) returns (ok: bool)
    requires clock.serverIteration > 0
    requires client.fd in kernel.taken
    requires StreamOk(client.Out(), kernel.taken[client.fd])
    requires BudgetOk(client.Out(), kernel.taken[client.fd], clock.serverIteration)
    modifies client`outputQueue, client`outputQueueSize
    modifies client`writeBudgetIteration, client`writeBudgetRemaining, client`budgetBase
    modifies kernel`interruptsLeft, kernel`log, kernel`taken
    ensures OnlyTouched(client.fd, old(kernel.taken), kernel.taken)
    ensures StreamOk(client.Out(), kernel.taken[client.fd])
    ensures BudgetOk(client.Out(), kernel.taken[client.fd], clock.serverIteration)
    ensures old(client.outputQueue) == [] ==> client.outputQueue == []
    ensures |kernel.taken[client.fd]| + Budget(client.Out(), clock.serverIteration)
         == old(|kernel.taken[client.fd]| + Budget(client.Out(), clock.serverIteration))
    ensures kernel.generous ==> ok && kernel.log == old(kernel.log)
    ensures ok && kernel.log.blocked[client.fd] == old(kernel.log.blocked)[client.fd] ==>
      client.outputQueueSize == old(client.outputQueueSize
        - Min(client.outputQueueSize, Budget(client.Out(), clock.serverIteration)))
    ensures ok <==> kernel.log.broken[client.fd] == old(kernel.log.broken)[client.fd]
    ensures LoggedOnce(client.fd, old(kernel.log), kernel.log)
  {
    hide Concat, Tail;
    client.RefillWriteBudget(clock, kernel.taken[client.fd]);
    while client.outputQueue != [] && client.writeBudgetRemaining != 0
      invariant client.writeBudgetIteration == clock.serverIteration
      invariant OnlyTouched(client.fd, old(kernel.taken), kernel.taken)
      invariant StreamOk(client.Out(), kernel.taken[client.fd])
      invariant BudgetOk(client.Out(), kernel.taken[client.fd], clock.serverIteration)
      invariant old(client.outputQueue) == [] ==> client.outputQueue == []
      invariant kernel.log == old(kernel.log)
      invariant |kernel.taken[client.fd]| + client.writeBudgetRemaining
             == old(|kernel.taken[client.fd]| + Budget(client.Out(), clock.serverIteration))
      decreases client.writeBudgetRemaining
    {
      ghost var o, taken := client.Out(), kernel.taken[client.fd];
      var written := WriteFront(client, kernel);
      if written == SendWouldBlock {
        break;
      }
      if !written.Wrote? || written.count == 0 {
        return false;
      }
      FlushKeepsStream(o, taken, written.count);
    }
    ok := true;
  }

  /** One send of a flush: offer the first entry, within the budget. */
  method WriteFront(client: ClientConnection, kernel: Kernel) returns (r: SendResult)
    requires client.fd in kernel.taken
    requires StreamOk(client.Out(), kernel.taken[client.fd])
    requires client.outputQueue != [] && client.writeBudgetRemaining != 0
    modifies client`outputQueue, client`outputQueueSize, client`writeBudgetRemaining
    modifies kernel`interruptsLeft, kernel`log, kernel`taken
    ensures !r.SendInterrupted? && kernel.log == AfterSend(old(kernel.log), client.fd, r)
    ensures !r.Wrote? || r.count == 0 ==> kernel.taken == old(kernel.taken) && client.Out() == old(client.Out())
    ensures r.Wrote? && r.count > 0 ==>
      && r.count <= old(|Tail(client.outputQueue[0])|) && r.count <= old(client.writeBudgetRemaining)
      && r.count <= old(client.outputQueueSize)
      && client.Out() == old(Flushed(client.Out(), r.count))
      && kernel.taken == old(kernel.taken)[client.fd :=
           old(kernel.taken[client.fd] + Tail(client.outputQueue[0])[..r.count])]
    ensures kernel.generous ==> r.Wrote? && r.count > 0
  {
    ghost var o, taken := client.Out(), kernel.taken[client.fd];
    var pending := client.outputQueue[0];
    var bytesRemaining := |pending.data| - pending.offset;
    var bytesToSend := Min(bytesRemaining, client.writeBudgetRemaining);
    var rest := pending.data[pending.offset..];
    r := SendRetrying(kernel, client.fd, rest[..bytesToSend]);
    if r.Wrote? {
      assert rest[..bytesToSend][..r.count] == rest[..r.count];
      if r.count == 0 {
        assert taken + rest[..0] == taken;
      } else {
        FlushKeepsStream(o, taken, r.count);
        pending := pending.(offset := pending.offset + r.count);
        client.outputQueueSize := client.outputQueueSize - r.count;
        client.writeBudgetRemaining := client.writeBudgetRemaining - r.count;
        client.outputQueue := if pending.offset == |pending.data| then client.outputQueue[1..]
                              else client.outputQueue[0 := pending];
        assert client.outputQueue == Flushed(o, r.count).queue;
      }
    }
  }
}
