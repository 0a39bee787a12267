/** Runs of the server as sequences of abstract steps. */
module ServerRuns {
  import opened Text
  import opened Sockets
  import opened Readiness
  import opened ServerCommon
  import opened Messages
  import opened ServerState
  import opened ServerEffects

  datatype Step =
    | Feeding(fd: int, data: Bytes)             // bytes arrive
    | Naming(fd: int)                           // the first frame is the username
    | Framing(fd: int, ok: bool, reached: nat)  // one frame of a named client
    | Expelling(fd: int)                        // a limit was broken
    | Closing(fd: int)                          // the peer is gone
    | Flushing(fd: int)                         // the descriptor is writable
    | Welcoming(fd: int, newcomers: set<int>)   // the listener is readable
    | Ticking(fd: int)                          // a new iteration begins

  /** The first frame in the buffer is complete and not too long. */
  ghost predicate FrameReady(c: Connection) {
    IndexOf(c.input, LF) < |c.input| && IndexOf(c.input, LF) <= MAX_FRAME_BYTES
  }

  /** Too much is buffered, or the first frame is too long. */
  ghost predicate OverLimit(c: Connection) {
    |c.input| > MAX_INPUT_BUFFER_BYTES || IndexOf(c.input, LF) > MAX_FRAME_BYTES
  }

  /** What one step may do. */
  ghost predicate Does(s: State, step: Step, t: State) {
    match step
    case Feeding(fd, data) => fd in s.clients && data != [] && t == Fed(s, fd, data)
    case Naming(fd) =>
      && fd in s.clients && !s.clients[fd].conn.active && FrameReady(s.clients[fd].conn)
      && var newline := IndexOf(s.clients[fd].conn.input, LF);
         Admitted(AfterCut(s, fd, newline), t, fd, StripCr(s.clients[fd].conn.input[..newline]))
    case Framing(fd, ok, reached) =>
      && fd in s.clients && s.clients[fd].conn.active && FrameReady(s.clients[fd].conn)
      && var newline := IndexOf(s.clients[fd].conn.input, LF);
         var frame := StripCr(s.clients[fd].conn.input[..newline]);
         FrameDone(Logged(AfterCut(s, fd, newline), fd, frame), t, fd, frame, ok, reached)
    case Expelling(fd) => fd in s.clients && OverLimit(s.clients[fd].conn) && t == Dropped(s, fd)
    case Closing(fd) => fd in s.clients && Parted(s, t, fd, ClosedText(s.clients[fd].conn.username))
    case Flushing(fd) => FlushDone(s, t, fd)
    case Welcoming(_, newcomers) => Welcomed(s, t) && newcomers == t.clients.Keys - s.clients.Keys
    case Ticking(_) => t == s.(now := s.now + 1)
  }

  /** From `s` the steps lead to `t`. */
  ghost predicate Path(s: State, steps: seq<Step>, t: State)
    decreases |steps|
  {
    if steps == [] then s == t
    else exists u :: Does(s, steps[0], u) && Path(u, steps[1..], t)
  }

  /** The steps are all about one descriptor. */
  ghost predicate About(steps: seq<Step>, fd: int) {
    forall i :: 0 <= i < |steps| ==> steps[i].fd == fd
  }

  lemma NoSteps(s: State, fd: int)
    ensures Path(s, [], s) && About([], fd)
  {
  }

  lemma SingleStep(s: State, step: Step, t: State)
    requires Does(s, step, t)
    ensures Path(s, [step], t) && About([step], step.fd)
  {
    hide Does;
    assert Path(t, [step][1..], t);
  }

  /** Runs compose. */
  lemma {:induction false} PathsJoin(s: State, a: seq<Step>, u: State, b: seq<Step>, t: State)
    requires Path(s, a, u) && Path(u, b, t)
    ensures Path(s, a + b, t)
    ensures forall fd :: About(a, fd) && About(b, fd) ==> About(a + b, fd)
    decreases |a|
  {
    hide Does;
    if a == [] {
      assert a + b == b;
    } else {
      var v :| Does(s, a[0], v) && Path(v, a[1..], u);
      PathsJoin(v, a[1..], u, b, t);
      assert (a + b)[1..] == a[1..] + b;
    }
  }

  /** A run and one step more. */
  lemma OneMoreStep(s: State, steps: seq<Step>, u: State, step: Step, t: State)
    requires Path(s, steps, u) && Does(u, step, t)
    ensures Path(s, steps + [step], t)
    ensures About(steps, step.fd) ==> About(steps + [step], step.fd)
  {
    hide Does;
    SingleStep(u, step, t);
    PathsJoin(s, steps, u, [step], t);
  }

  lemma NameIsStep(s: State, t: State, fd: int, newline: nat, name: Bytes)
    requires fd in s.clients && !s.clients[fd].conn.active
    requires newline == IndexOf(s.clients[fd].conn.input, LF) && newline < |s.clients[fd].conn.input|
    requires newline <= MAX_FRAME_BYTES
    requires name == StripCr(s.clients[fd].conn.input[..newline])
    requires Admitted(AfterCut(s, fd, newline), t, fd, name)
    ensures Does(s, Naming(fd), t)
  {
    hide Admitted, AfterCut;
  }

  lemma FrameIsStep(s: State, t: State, fd: int, newline: nat, frame: Bytes, ok: bool, reached: nat)
    requires fd in s.clients && s.clients[fd].conn.active
    requires newline == IndexOf(s.clients[fd].conn.input, LF) && newline < |s.clients[fd].conn.input|
    requires newline <= MAX_FRAME_BYTES
    requires frame == StripCr(s.clients[fd].conn.input[..newline])
    requires FrameDone(Logged(AfterCut(s, fd, newline), fd, frame), t, fd, frame, ok, reached)
    ensures Does(s, Framing(fd, ok, reached), t)
  {
    hide FrameDone, AfterCut, Logged;
  }

  lemma ExpelIsStep(s: State, fd: int)
    requires fd in s.clients && OverLimit(s.clients[fd].conn)
    ensures Does(s, Expelling(fd), Dropped(s, fd))
  {
  }

  lemma FeedIsStep(s: State, fd: int, data: Bytes)
    requires fd in s.clients && data != []
    ensures Does(s, Feeding(fd, data), Fed(s, fd, data))
  {
  }

  lemma CloseIsStep(s: State, t: State, fd: int)
    requires fd in s.clients && Parted(s, t, fd, ClosedText(s.clients[fd].conn.username))
    ensures Does(s, Closing(fd), t)
  {
  }

  lemma FlushIsStep(s: State, t: State, fd: int)
    requires FlushDone(s, t, fd)
    ensures Does(s, Flushing(fd), t)
  {
  }

  lemma WelcomeIsStep(s: State, t: State, fd: int)
    requires Welcomed(s, t)
    ensures Does(s, Welcoming(fd, t.clients.Keys - s.clients.Keys), t)
  {
  }

  lemma TickIsStep(s: State, t: State)
    requires t == s.(now := s.now + 1)
    ensures Does(s, Ticking(0), t)
  {
  }

  // ------------------------------------------------------------------- reading

  /** The bytes that a run receives from one client. */
  function FedTo(steps: seq<Step>, fd: int): Bytes {
    if steps == [] then []
    else (if steps[0].Feeding? && steps[0].fd == fd then steps[0].data else []) + FedTo(steps[1..], fd)
  }

  lemma FedFirst(step: Step, rest: seq<Step>, fd: int)
    ensures FedTo([step] + rest, fd) == FedTo([step], fd) + FedTo(rest, fd)
  {
    assert ([step] + rest)[1..] == rest;
    assert [step][1..] == [] && FedTo([], fd) == [];
  }

  lemma {:induction false} FedBoth(a: seq<Step>, b: seq<Step>, fd: int)
    ensures FedTo(a + b, fd) == FedTo(a, fd) + FedTo(b, fd)
  {
    if a == [] {
      assert a + b == b;
    } else {
      assert (a + b)[1..] == a[1..] + b;
      FedBoth(a[1..], b, fd);
    }
  }

  /** How many frames of named clients were handled. */
  function Framings(steps: seq<Step>): nat {
    if steps == [] then 0 else (if steps[0].Framing? then 1 else 0) + Framings(steps[1..])
  }

  /** How many usernames were taken. */
  function Namings(steps: seq<Step>): nat {
    if steps == [] then 0 else (if steps[0].Naming? then 1 else 0) + Namings(steps[1..])
  }

  lemma {:induction false} CountsAdd(a: seq<Step>, b: seq<Step>)
    ensures Framings(a + b) == Framings(a) + Framings(b) && Namings(a + b) == Namings(a) + Namings(b)
  {
    if a == [] {
      assert a + b == b;
    } else {
      assert (a + b)[1..] == a[1..] + b;
      CountsAdd(a[1..], b);
    }
  }

  lemma OneCounts(step: Step)
    ensures Framings([step]) == (if step.Framing? then 1 else 0) && Namings([step]) == (if step.Naming? then 1 else 0)
  {
    assert [step][1..] == [];
  }

  /** Only buffered frames were handled. */
  ghost predicate FramesOnly(steps: seq<Step>) {
    forall i :: 0 <= i < |steps| ==> steps[i].Naming? || steps[i].Framing? || steps[i].Expelling?
  }

  lemma NoFrames()
    ensures FramesOnly([]) && Framings([]) == 0 && Namings([]) == 0
  {
  }

  lemma OneMoreFrame(steps: seq<Step>, step: Step)
    requires FramesOnly(steps) && (step.Naming? || step.Framing? || step.Expelling?)
    ensures FramesOnly(steps + [step])
    ensures Framings(steps + [step]) == Framings(steps) + (if step.Framing? then 1 else 0)
    ensures Namings(steps + [step]) == Namings(steps) + (if step.Naming? then 1 else 0)
  {
    CountsAdd(steps, [step]);
    OneCounts(step);
  }

  lemma {:induction false} FramesFeedNothing(steps: seq<Step>, fd: int)
    requires FramesOnly(steps)
    ensures FedTo(steps, fd) == []
  {
    if steps != [] {
      FramesFeedNothing(steps[1..], fd);
    }
  }

  /** The client is gone, or its last frame asked to stop. */
  ghost predicate Ended(steps: seq<Step>, t: State, fd: int) {
    fd !in t.clients || (steps != [] && steps[|steps| - 1].Framing? && !steps[|steps| - 1].ok)
  }

  ghost predicate Closes(steps: seq<Step>) {
    steps != [] && steps[|steps| - 1].Closing?
  }

  /** The bytes that answers to `recv` brought. */
  function DataOf(answers: seq<(int, ReceiveResult)>): Bytes {
    if answers == [] then []
    else (if answers[0].1.Received? then answers[0].1.data else []) + DataOf(answers[1..])
  }

  lemma {:induction false} DataAppend(answers: seq<(int, ReceiveResult)>, last: (int, ReceiveResult))
    ensures DataOf(answers + [last]) == DataOf(answers) + (if last.1.Received? then last.1.data else [])
  {
    if answers == [] {
      assert answers + [last] == [last];
    } else {
      assert (answers + [last])[1..] == answers[1..] + [last];
      DataAppend(answers[1..], last);
      Assoc(if answers[0].1.Received? then answers[0].1.data else [], DataOf(answers[1..]),
            if last.1.Received? then last.1.data else []);
    }
  }

  /** One call of `recv` and what followed from its answer. */
  ghost predicate RoundRead(fd: int, answer: ReceiveResult, steps: seq<Step>, stopped: bool, t: State) {
    match answer
    case Received(data) => FedTo(steps, fd) == data && stopped == Ended(steps, t, fd) && steps != [] && !Closes(steps)
    case NothingToRead => steps == [] && !stopped && fd in t.clients
    case _ => steps == [Closing(fd)] && stopped && fd !in t.clients
  }

  /** Several calls, of which only the last may have brought no data. */
  ghost predicate AllRead(fd: int, answers: seq<(int, ReceiveResult)>, steps: seq<Step>, stopped: bool, t: State) {
    && (forall i :: 0 <= i < |answers| ==> answers[i].0 == fd)
    && (forall i :: 0 <= i < |answers| - 1 ==> answers[i].1.Received?)
    && DataOf(answers) == FedTo(steps, fd)
    && stopped == Ended(steps, t, fd)
    && (Closes(steps) <==> answers != [] && Hangup(answers[|answers| - 1].1))
    && (answers != [] && answers[|answers| - 1].1.NothingToRead? ==> !stopped)
  }

  /** The peer closed the connection, or reading it failed. */
  predicate Hangup(answer: ReceiveResult) {
    answer.PeerClosed? || answer.ReceiveFailed?
  }

  lemma NothingRead(fd: int, t: State)
    requires fd in t.clients
    ensures AllRead(fd, [], [], false, t)
  {
  }

  /** One call more after calls that all brought data. */
  lemma OneMoreRead(fd: int, answers: seq<(int, ReceiveResult)>, steps: seq<Step>, s: State,
                    answer: ReceiveResult, more: seq<Step>, stopped: bool, t: State)
    requires AllRead(fd, answers, steps, false, s)
    requires answers == [] || answers[|answers| - 1].1.Received?
    requires RoundRead(fd, answer, more, stopped, t)
    ensures AllRead(fd, answers + [(fd, answer)], steps + more, stopped, t)
  {
    hide DataOf, FedTo;
    DataAppend(answers, (fd, answer));
    FedBoth(steps, more, fd);
    ClosingFeedsNothing(fd);
    if answer.NothingToRead? {
      assert steps + more == steps;
      assert DataOf(answers) + [] == DataOf(answers);
    }
  }

  lemma ClosingFeedsNothing(fd: int)
    ensures FedTo([Closing(fd)], fd) == [] && FedTo([], fd) == []
  {
    assert [Closing(fd)][1..] == [];
  }

  /** What one call of HandleRead did: bytes received, frames handled by an
      active client, frames cut from the buffer, and whether a handler, a
      limit or the peer ended it. */
  datatype ReadOutcome = ReadOutcome(received: nat, handled: nat, cut: nat, stopped: bool)

  /** A read asks for data at least once. It counts every byte and every frame,
      and after data it goes on unless the client is gone, a frame asked to
      stop, or a budget of this event is used up. */
  ghost predicate Reading(fd: int, answers: seq<(int, ReceiveResult)>, steps: seq<Step>, outcome: ReadOutcome,
                          t: State) {
    && answers != [] && AllRead(fd, answers, steps, outcome.stopped, t)
    && outcome.received == |DataOf(answers)|
    && outcome.handled == Framings(steps) && outcome.cut == Framings(steps) + Namings(steps)
    && (answers[|answers| - 1].1.Received? ==>
          outcome.stopped || outcome.received >= MAX_BYTES_READ_PER_POLL
          || outcome.handled == MAX_PROCESSED_FRAMES_PER_POLL)
  }

  lemma ReadingIs(fd: int, answers: seq<(int, ReceiveResult)>, steps: seq<Step>, outcome: ReadOutcome, t: State)
    requires answers != [] && AllRead(fd, answers, steps, outcome.stopped, t)
    requires outcome.received == |DataOf(answers)|
    requires outcome.handled == Framings(steps) && outcome.cut == Framings(steps) + Namings(steps)
    requires answers[|answers| - 1].1.Received? ==>
      outcome.stopped || outcome.received >= MAX_BYTES_READ_PER_POLL || outcome.handled == MAX_PROCESSED_FRAMES_PER_POLL
    ensures Reading(fd, answers, steps, outcome, t)
  {
    hide AllRead, DataOf, Framings, Namings;
  }

  lemma NoData()
    ensures DataOf([]) == []
  {
  }

  /** Data, and then only buffered frames. */
  lemma FedThenFrames(fd: int, data: Bytes, steps: seq<Step>, stopped: bool, t: State)
    requires FramesOnly(steps) && stopped == Ended(steps, t, fd)
    ensures RoundRead(fd, Received(data), [Feeding(fd, data)] + steps, stopped, t)
    ensures Framings([Feeding(fd, data)] + steps) == Framings(steps)
    ensures Namings([Feeding(fd, data)] + steps) == Namings(steps)
  {
    var fed := [Feeding(fd, data)];
    FedBoth(fed, steps, fd);
    FramesFeedNothing(steps, fd);
    CountsAdd(fed, steps);
    OneCounts(fed[0]);
    assert fed[1..] == [] && data + [] == data;
    assert steps != [] ==> (fed + steps)[|fed + steps| - 1] == steps[|steps| - 1];
  }

  lemma NothingCame(fd: int, t: State)
    requires fd in t.clients
    ensures RoundRead(fd, NothingToRead, [], false, t)
  {
  }

  lemma HungUp(s: State, answer: ReceiveResult, fd: int, t: State)
    requires (answer.PeerClosed? || answer.ReceiveFailed?) && Does(s, Closing(fd), t)
    ensures RoundRead(fd, answer, [Closing(fd)], true, t)
    ensures Framings([Closing(fd)]) == 0 && Namings([Closing(fd)]) == 0
  {
    hide Delivers, Spares, ClosedText, Audience;
    OneCounts(Closing(fd));
  }

  // ------------------------------------------------------------------ events

  /** The handling of one event: the states before, after reading or accepting,
      and after flushing; the steps up to the second and the kernel's answers. */
  datatype Handled = Handled(before: State, steps: seq<Step>, outcome: ReadOutcome,
                             answers: seq<(int, ReceiveResult)>, accepts: seq<AcceptResult>,
                             middle: State, after: State)

  /** What an event means: the listener accepts; a known client is read exactly
      if it is readable or in error, and flushed exactly if it is writable and
      still there; for an unknown descriptor nothing is done. */
  ghost predicate EventMeans(e: ReadyEvent, listener: int, h: Handled) {
    if e.fd == listener then
      && h.answers == [] && h.after == h.middle
      && if e.read then
           && Accepting(h.before, h.accepts, h.middle)
           && h.steps == [Welcoming(e.fd, h.middle.clients.Keys - h.before.clients.Keys)]
         else h.steps == [] && h.accepts == [] && h.middle == h.before
    else
      && h.accepts == []
      && (if e.fd in h.before.clients && (e.read || e.error) then
            Path(h.before, h.steps, h.middle) && Reading(e.fd, h.answers, h.steps, h.outcome, h.middle)
          else h.steps == [] && h.answers == [] && h.middle == h.before)
      && (if e.fd in h.middle.clients && e.write then FlushDone(h.middle, h.after, e.fd)
          else h.after == h.middle)
  }

  /** All steps of the event. */
  ghost function StepsOf(e: ReadyEvent, listener: int, h: Handled): seq<Step> {
    h.steps + if e.fd != listener && e.fd in h.middle.clients && e.write then [Flushing(e.fd)] else []
  }

  lemma ListenerHandled(e: ReadyEvent, listener: int, h: Handled)
    requires e.fd == listener && h.answers == [] && h.after == h.middle
    requires if e.read then
        && Accepting(h.before, h.accepts, h.middle)
        && h.steps == [Welcoming(e.fd, h.middle.clients.Keys - h.before.clients.Keys)]
      else h.steps == [] && h.accepts == [] && h.middle == h.before
    ensures EventMeans(e, listener, h) && StepsOf(e, listener, h) == h.steps
  {
    hide Accepting;
  }

  lemma ListenerMeans(e: ReadyEvent, listener: int, h: Handled)
    requires EventMeans(e, listener, h) && e.fd == listener
    ensures if e.read then Welcomed(h.before, h.after) else h.after == h.before
    ensures h.answers == []
  {
    hide Welcomed, Accounted;
  }

  /** A client is asked for data exactly if it is readable or in error, and if
      it is writable and still there the last thing done is to flush it. */
  lemma ClientMeans(e: ReadyEvent, listener: int, h: Handled)
    requires EventMeans(e, listener, h) && e.fd != listener
    ensures h.answers != [] <==> e.fd in h.before.clients && (e.read || e.error)
    ensures var steps := StepsOf(e, listener, h);
      && (e.write && e.fd in h.after.clients ==> steps != [] && steps[|steps| - 1] == Flushing(e.fd))
      && (e.fd in h.before.clients && e.write && !e.read && !e.error ==> steps == [Flushing(e.fd)])
    ensures e.fd !in h.before.clients ==> h.after == h.before
    ensures e.fd in h.before.clients && !e.read && !e.error ==>
      if e.write then FlushDone(h.before, h.after, e.fd) else h.after == h.before
  {
    hide AllRead, Path, SentOnly, Parted;
    if e.fd !in h.middle.clients && e.write {
      assert h.after == h.middle;
    }
  }

  lemma ClientHandled(e: ReadyEvent, listener: int, h: Handled, steps: seq<Step>)
    requires e.fd != listener && h.accepts == []
    requires if e.fd in h.before.clients && (e.read || e.error) then
        Path(h.before, h.steps, h.middle) && Reading(e.fd, h.answers, h.steps, h.outcome, h.middle)
      else h.steps == [] && h.answers == [] && h.middle == h.before
    requires if e.fd in h.middle.clients && e.write then FlushDone(h.middle, h.after, e.fd) else h.after == h.middle
    requires steps == if e.fd in h.middle.clients && e.write then h.steps + [Flushing(e.fd)] else h.steps
    ensures EventMeans(e, listener, h) && steps == StepsOf(e, listener, h)
  {
    hide Path, Reading, FlushDone;
    assert h.steps + [] == h.steps;
  }

  // ----------------------------------------------------------------- batches

  /** The events were handled one after the other, each from where the one
      before it ended. */
  ghost predicate Served(s: State, ready: seq<ReadyEvent>, listener: int, served: seq<Handled>, t: State)
    decreases |ready|
  {
    |served| == |ready| &&
    if ready == [] then s == t
    else
      var n := |ready| - 1;
      && EventMeans(ready[n], listener, served[n]) && served[n].after == t
      && Served(s, ready[..n], listener, served[..n], served[n].before)
  }

  ghost function AllSteps(ready: seq<ReadyEvent>, listener: int, served: seq<Handled>): seq<Step>
    requires |served| == |ready|
  {
    if ready == [] then []
    else
      var n := |ready| - 1;
      AllSteps(ready[..n], listener, served[..n]) + StepsOf(ready[n], listener, served[n])
  }

  ghost function AllAnswers(served: seq<Handled>): seq<(int, ReceiveResult)> {
    if served == [] then [] else AllAnswers(served[..|served| - 1]) + served[|served| - 1].answers
  }

  ghost function AllAccepts(served: seq<Handled>): seq<AcceptResult> {
    if served == [] then [] else AllAccepts(served[..|served| - 1]) + served[|served| - 1].accepts
  }

  lemma NobodyServed(s: State, listener: int)
    ensures Served(s, [], listener, [], s) && AllSteps([], listener, []) == []
    ensures AllAnswers([]) == [] && AllAccepts([]) == []
  {
  }

  lemma OneMoreServed(s: State, ready: seq<ReadyEvent>, listener: int, served: seq<Handled>, t: State,
                      e: ReadyEvent, h: Handled)
    requires Served(s, ready, listener, served, t)
    requires EventMeans(e, listener, h) && h.before == t
    ensures |served| == |ready|
    ensures Served(s, ready + [e], listener, served + [h], h.after)
    ensures AllSteps(ready + [e], listener, served + [h])
         == AllSteps(ready, listener, served) + StepsOf(e, listener, h)
    ensures AllAnswers(served + [h]) == AllAnswers(served) + h.answers
    ensures AllAccepts(served + [h]) == AllAccepts(served) + h.accepts
  {
    hide EventMeans, StepsOf;
    assert (ready + [e])[..|ready|] == ready && (served + [h])[..|served|] == served;
  }

  lemma NextEvent<T>(ready: seq<T>, i: nat)
    requires i <= |ready|
    ensures i < |ready| ==> ready[..i + 1] == ready[..i] + [ready[i]]
    ensures ready[..|ready|] == ready
  {
  }

  /** A batch is a tick and then its events. */
  ghost predicate BatchServed(s: State, ready: seq<ReadyEvent>, listener: int, served: seq<Handled>, t: State) {
    Served(s.(now := s.now + 1), ready, listener, served, t)
  }

  lemma BatchIs(s: State, ready: seq<ReadyEvent>, listener: int, served: seq<Handled>, u: State, t: State)
    requires u == s.(now := s.now + 1) && Served(u, ready, listener, served, t)
    ensures BatchServed(s, ready, listener, served, t) && |served| == |ready|
  {
    hide EventMeans;
  }

  /** The batches of a run were served one after the other. */
  ghost predicate AllServed(s: State, batches: seq<seq<ReadyEvent>>, listener: int, rounds: seq<seq<Handled>>, t: State)
    decreases |batches|
  {
    |rounds| == |batches| &&
    if batches == [] then s == t
    else
      var n := |batches| - 1;
      exists u ::
        AllServed(s, batches[..n], listener, rounds[..n], u) && BatchServed(u, batches[n], listener, rounds[n], t)
  }

  lemma NoBatches(s: State, listener: int)
    ensures AllServed(s, [], listener, [], s)
  {
  }

  lemma OneMoreBatch(s: State, batches: seq<seq<ReadyEvent>>, listener: int, rounds: seq<seq<Handled>>, t: State,
                     ready: seq<ReadyEvent>, served: seq<Handled>, u: State)
    requires AllServed(s, batches, listener, rounds, t) && BatchServed(t, ready, listener, served, u)
    ensures AllServed(s, batches + [ready], listener, rounds + [served], u)
  {
    hide BatchServed;
    assert (batches + [ready])[..|batches|] == batches && (rounds + [served])[..|rounds|] == rounds;
    assert AllServed(s, (batches + [ready])[..|batches|], listener, (rounds + [served])[..|rounds|], t)
        && BatchServed(t, (batches + [ready])[|batches|], listener, (rounds + [served])[|rounds|], u);
  }

  /** One tick, then steps about the descriptors that were ready. */
  ghost predicate InBatch(steps: seq<Step>, ready: seq<ReadyEvent>) {
    && steps != [] && steps[0].Ticking?
    && forall i :: 1 <= i < |steps| ==> exists k :: 0 <= k < |ready| && ready[k].fd == steps[i].fd
  }

  lemma OnlyTick(ready: seq<ReadyEvent>)
    ensures InBatch([Ticking(0)], ready)
  {
  }

  lemma EventInBatch(steps: seq<Step>, more: seq<Step>, ready: seq<ReadyEvent>, k: nat)
    requires InBatch(steps, ready) && k < |ready| && About(more, ready[k].fd)
    ensures InBatch(steps + more, ready)
  {
    forall i | |steps| <= i < |steps + more|
      ensures ready[k].fd == (steps + more)[i].fd
    {
      assert (steps + more)[i] == more[i - |steps|];
    }
  }
}
