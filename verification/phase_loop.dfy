/** The phase loop of one worker with its connections: offers that come due are
    sent on them, and what they read is served in between. */
module PhaseLoop {
  import opened Text
  import opened Sockets
  import opened LoadGenerator
  import opened RelayTheorems
  import O = Offers

  /** One round: the clock reading, and the clients that become ready after it. */
  datatype Round = Round(now: int, ready: seq<Ready>, cursor: nat)

  /** Where each of the worker's clients is. */
  ghost predicate Placed(place: map<nat, nat>, clients: seq<nat>, logs: seq<Log>) {
    forall c :: c in clients ==> c in place && place[c] < |logs| && logs[place[c]].index == c
  }

  /** What is sent for an offer. */
  function FrameFor(p: Phase, payload: nat, client: nat, sequence: nat, sentNs: nat): Bytes {
    if p.workload == Direct then "WHERE\n" else Relayable(p.token, client, sequence, sentNs, payload) + [LF]
  }

  lemma FrameIs(p: Phase, payload: nat, client: nat, sequence: nat, sentNs: nat)
    ensures FrameFor(p, payload, client, sequence, sentNs) ==
      if p.workload == Direct then "WHERE\n"
      else "BENCH|" + (p.token + ("|" + Decimal(client) + "|" + Decimal(sequence) + "|" + Decimal(sentNs) + "|"))
           + Filler(payload) + "\n"
  {
    hide Decimal;
    if p.workload != Direct {
      FieldsIs(p.token, client, sequence, sentNs);
      assert Relayable(p.token, client, sequence, sentNs, payload)
          == Fields(p.token, client, sequence, sentNs) + Filler(payload);
    }
  }

  lemma FieldsIs(token: Bytes, client: nat, sequence: nat, sentNs: nat)
    ensures Fields(token, client, sequence, sentNs)
         == "BENCH|" + (token + ("|" + Decimal(client) + "|" + Decimal(sequence) + "|" + Decimal(sentNs) + "|"))
  {
    var a, b, c := Decimal(client), Decimal(sequence), Decimal(sentNs);
    hide Decimal;
    assert "|" + a + "|" + b + "|" + c + "|" == "|" + (a + "|" + (b + "|" + (c + "|")));
    assert token + ("|" + (a + "|" + (b + "|" + (c + "|")))) == token + "|" + (a + "|" + (b + "|" + (c + "|")));
    assert "BENCH|" + (token + "|" + (a + "|" + (b + "|" + (c + "|")))) == Fields(token, client, sequence, sentNs);
  }

  /** What became of one popped offer: whether its client was closed, how many
      bytes waited there, the frame, and whether it was queued. */
  datatype Attempt = Attempt(due: O.Due, closed: bool, waiting: nat, frame: Bytes, queued: bool)

  /** Exactly an offer that is not late, whose client is open and has room, is
      queued. */
  ghost predicate Fair(a: Attempt) {
    a.queued <==> !a.due.missed && !a.closed && a.waiting + |a.frame| <= 65536
  }

  function Queued(attempts: seq<Attempt>): nat {
    if attempts == [] then 0
    else Queued(attempts[..|attempts| - 1]) + (if attempts[|attempts| - 1].queued then 1 else 0)
  }

  lemma {:induction false} QueuedBoth(a: seq<Attempt>, b: seq<Attempt>)
    ensures Queued(a + b) == Queued(a) + Queued(b)
  {
    if b == [] {
      assert a + b == a;
    } else {
      assert (a + b)[..|a + b| - 1] == a + b[..|b| - 1];
      QueuedBoth(a, b[..|b| - 1]);
    }
  }

  /** Send one popped offer, unless it is late, its client is closed, or its
      send buffer is full; and count it. */
  method SendOffer(w: O.Worker, g: Generator, p: O.Phase, due: O.Due, place: map<nat, nat>, payload: nat,
                   ghost rest: seq<O.Due>, ghost clients: seq<nat>, ghost nows: seq<int>)
    returns (ghost attempt: Attempt, ghost sentNs: nat)
    requires p.Valid() && O.EntryOk(p, due.entry) && due.entry.client in clients
    requires nows != [] && due.entry.scheduled <= nows[|nows| - 1]
    requires w.Counting(p, [due] + rest, clients, nows)
    requires g.Valid() && Placed(place, clients, g.logs)
    modifies w
    modifies g`clients, g`sendErrors, g`interest, g`logs, g`tally, g.kernel`taken, g.kernel`log, g.kernel`interruptsLeft
    ensures w.Counting(p, rest, clients, nows) && g.Valid() && Placed(place, clients, g.logs)
    ensures SameOpen(old(g.clients), g.clients)
    ensures w.sent - old(w.sent) == g.tally.sent - old(g.tally.sent)
    // one attempt at its client's connection, with its frame, exactly counted
    ensures attempt.due == due && Fair(attempt)
    ensures var k := place[due.entry.client];
      && k < |old(g.clients)| && attempt.closed == old(g.clients)[k].closed
      && attempt.waiting == |old(g.clients)[k].sendBuffer|
      && attempt.frame == FrameFor(g.phase, payload, due.entry.client, due.entry.sequence, sentNs)
      && g.logs == if attempt.queued then
           old(g.logs)[k := Requested(g.phase.workload, old(g.logs)[k], attempt.frame, sentNs)]
         else old(g.logs)
    ensures w.counted == old(w.counted) + [due.entry.sequence]
    ensures w.sent == old(w.sent) + (if attempt.queued then 1 else 0)
  {
    hide *;
    g.LogsFit();
    PlaceOf(place, clients, g.logs, due.entry.client);
    var k := place[due.entry.client];
    var accepted := false;
    sentNs := *;
    ghost var frame0 := FrameFor(g.phase, payload, due.entry.client, due.entry.sequence, sentNs);
    attempt := Attempt(due, g.clients[k].closed, |g.clients[k].sendBuffer|, frame0, false);
    StillOpen(g.clients);
    if !due.missed && !g.clients[k].closed {
      var sent: nat := *;
      sentNs := sent;
      var frame := FrameFor(g.phase, payload, due.entry.client, due.entry.sequence, sent);
      ghost var had, were := g.logs, g.clients;
      accepted := g.QueueClientFrame(k, frame, sent);
      attempt := attempt.(frame := frame, queued := accepted);
      if accepted {
        StillPlaced(place, clients, had, k, g.phase.workload, frame, sent);
        QueuedOpen(were, g.clients, k);
      }
    }
    IsFair(attempt);
    w.CountOffer(p, due, accepted, rest, clients, nows);
  }

  lemma IsFair(a: Attempt)
    requires a.queued <==> !a.due.missed && !a.closed && a.waiting + |a.frame| <= 65536
    ensures Fair(a)
  {
  }

  /** The same clients are open. */
  ghost predicate SameOpen(were: seq<Client>, now: seq<Client>) {
    |now| == |were| && forall k :: 0 <= k < |now| ==> now[k].closed == were[k].closed
  }

  lemma StillOpen(clients: seq<Client>)
    ensures SameOpen(clients, clients)
  {
  }

  lemma SameOpenBoth(a: seq<Client>, b: seq<Client>, c: seq<Client>)
    requires SameOpen(a, b) && SameOpen(b, c)
    ensures SameOpen(a, c)
  {
  }

  lemma QueuedOpen(were: seq<Client>, now: seq<Client>, k: nat)
    requires k < |were| == |now|
    requires now == were[k := were[k].(sendBuffer := now[k].sendBuffer, pending := now[k].pending)]
    ensures SameOpen(were, now)
  {
  }

  lemma PlaceOf(place: map<nat, nat>, clients: seq<nat>, logs: seq<Log>, c: nat)
    requires Placed(place, clients, logs) && c in clients
    ensures c in place && place[c] < |logs|
  {
  }

  lemma StillPlaced(place: map<nat, nat>, clients: seq<nat>, logs: seq<Log>, k: nat, w: Workload, frame: Bytes,
                    sentNs: int)
    requires Placed(place, clients, logs) && k < |logs|
    ensures Placed(place, clients, logs[k := Requested(w, logs[k], frame, sentNs)])
  {
  }

  lemma LaterPlaced(place: map<nat, nat>, clients: seq<nat>, before: seq<Log>, after: seq<Log>)
    requires Placed(place, clients, before) && |after| == |before|
    requires forall k :: 0 <= k < |after| ==> Later(before[k], after[k])
    ensures Placed(place, clients, after)
  {
  }

  /** The offers attempted. */
  function Dues(attempts: seq<Attempt>): (dues: seq<O.Due>)
    ensures |dues| == |attempts| && forall i :: 0 <= i < |dues| ==> dues[i] == attempts[i].due
  {
    seq(|attempts|, i requires 0 <= i < |attempts| => attempts[i].due)
  }

  ghost predicate AllFair(attempts: seq<Attempt>) {
    forall i :: 0 <= i < |attempts| ==> Fair(attempts[i])
  }

  lemma OneMoreAttempt(attempts: seq<Attempt>, a: Attempt)
    requires AllFair(attempts) && Fair(a)
    ensures AllFair(attempts + [a]) && Queued(attempts + [a]) == Queued(attempts) + (if a.queued then 1 else 0)
    ensures Dues(attempts + [a]) == Dues(attempts) + [a.due]
    ensures O.Numbers(Dues(attempts + [a])) == O.Numbers(Dues(attempts)) + [a.due.entry.sequence]
  {
    assert (attempts + [a])[..|attempts|] == attempts;
  }

  lemma NoAttempts()
    ensures AllFair([]) && Queued([]) == 0 && Dues([]) == [] && O.Numbers([]) == []
  {
  }

  /** Pop what is due and send it. */
  method SendOffers(w: O.Worker, g: Generator, p: O.Phase, now: int, place: map<nat, nat>, payload: nat,
                    ghost clients: seq<nat>, ghost nows: seq<int>)
    returns (ghost attempts: seq<Attempt>)
    requires p.Valid() && w.Balanced(p, clients, nows)
    requires g.Valid() && Placed(place, clients, g.logs)
    modifies w
    modifies g`clients, g`sendErrors, g`interest, g`logs, g`tally, g.kernel`taken, g.kernel`log, g.kernel`interruptsLeft
    ensures w.Balanced(p, clients, nows + [now]) && g.Valid() && Placed(place, clients, g.logs)
    ensures SameOpen(old(g.clients), g.clients)
    ensures w.sent - old(w.sent) == g.tally.sent - old(g.tally.sent)
    // all that is due is attempted, up to the cap, and exactly counted
    ensures O.Popped(old(w.schedule), Dues(attempts), now, p.maxOverdue)
    ensures |attempts| <= p.maxOverdue && O.ReadyOk(p, Dues(attempts), now) && AllFair(attempts)
    ensures attempts == [] ==> w.schedule == old(w.schedule)
    ensures attempts == [] <==> p.maxOverdue == 0 || O.NoneDue(old(w.schedule), now)
    ensures w.counted == old(w.counted) + O.Numbers(Dues(attempts)) && w.sent == old(w.sent) + Queued(attempts)
  {
    hide *;
    var ready := w.PopOffers(p, now, clients, nows);
    assert ready[0..] == ready && ready[..0] == [];
    attempts := [];
    NoAttempts();
    StillOpen(g.clients);
    ghost var counted := w.counted;
    assert counted + [] == counted;
    for i := 0 to |ready|
      invariant w.Counting(p, ready[i..], clients, nows + [now]) && g.Valid() && Placed(place, clients, g.logs)
      invariant SameOpen(old(g.clients), g.clients)
      invariant w.sent - old(w.sent) == g.tally.sent - old(g.tally.sent)
      invariant Dues(attempts) == ready[..i] && AllFair(attempts)
      invariant w.counted == counted + O.Numbers(Dues(attempts)) && w.sent == old(w.sent) + Queued(attempts)
      invariant ready == [] ==> w.schedule == old(w.schedule)
    {
      assert ready[i..] == [ready[i]] + ready[i + 1..];
      O.ReadyEntry(p, ready, now, i);
      ghost var were := g.clients;
      ghost var attempt, sentNs := SendOffer(w, g, p, ready[i], place, payload, ready[i + 1..], clients, nows + [now]);
      SameOpenBoth(old(g.clients), were, g.clients);
      OneMoreAttempt(attempts, attempt);
      Assoc(counted, O.Numbers(Dues(attempts)), [ready[i].entry.sequence]);
      assert ready[..i + 1] == ready[..i] + [ready[i]];
      attempts := attempts + [attempt];
    }
    assert ready[|ready|..] == [] && ready[..|ready|] == ready;
    w.CountingEnds(p, clients, nows + [now]);
  }

  ghost function Readings(rounds: seq<Round>): (nows: seq<int>)
    ensures |nows| == |rounds| && forall i :: 0 <= i < |rounds| ==> nows[i] == rounds[i].now
  {
    seq(|rounds|, i requires 0 <= i < |rounds| => rounds[i].now)
  }

  // ------------------------------------------------------------------- serving

  /** Every client that was reported readable in the round, and is open now, was
      asked for data in it. */
  ghost predicate RoundHeard(p: Phase, round: Round, clients: seq<Client>, answers: seq<(int, ReceiveResult)>) {
    p.maxRecvCalls > 0 && p.maxRecvBytes > 0 ==>
      forall e :: e in round.ready && e.read && e.client < |clients| && !clients[e.client].closed ==>
        AskedSince(answers, 0, e.client)
  }

  ghost predicate RoundsHeard(p: Phase, rounds: seq<Round>, clients: seq<Client>,
                              answers: seq<seq<(int, ReceiveResult)>>) {
    |answers| == |rounds| && forall i :: 0 <= i < |rounds| ==> RoundHeard(p, rounds[i], clients, answers[i])
  }

  /** Nobody who was closed is open. */
  ghost predicate StayClosed(were: seq<Client>, now: seq<Client>) {
    |now| == |were| && forall k :: 0 <= k < |now| && were[k].closed ==> now[k].closed
  }

  lemma NoRounds(p: Phase, clients: seq<Client>)
    ensures RoundsHeard(p, [], clients, []) && StayClosed(clients, clients) && O.Flat<(int, ReceiveResult)>([]) == []
  {
  }

  lemma StillHeard(p: Phase, rounds: seq<Round>, were: seq<Client>, now: seq<Client>,
                   answers: seq<seq<(int, ReceiveResult)>>)
    requires RoundsHeard(p, rounds, were, answers) && StayClosed(were, now)
    ensures RoundsHeard(p, rounds, now, answers)
  {
    forall i | 0 <= i < |rounds| ensures RoundHeard(p, rounds[i], now, answers[i]) {
      assert RoundHeard(p, rounds[i], were, answers[i]);
    }
  }

  lemma OneMoreRound(p: Phase, rounds: seq<Round>, i: nat, were: seq<Client>, now: seq<Client>,
                     answers: seq<seq<(int, ReceiveResult)>>, more: seq<(int, ReceiveResult)>)
    requires i < |rounds| && RoundsHeard(p, rounds[..i], were, answers) && StayClosed(were, now)
    requires RoundHeard(p, rounds[i], now, more)
    ensures RoundsHeard(p, rounds[..i + 1], now, answers + [more])
  {
    StillHeard(p, rounds[..i], were, now, answers);
    hide RoundHeard;
  }

  lemma JoinedMore(before: seq<(int, ReceiveResult)>, answers: seq<seq<(int, ReceiveResult)>>,
                   more: seq<(int, ReceiveResult)>)
    ensures before + O.Flat(answers + [more]) == before + O.Flat(answers) + more
  {
    O.FlatMore(answers, more);
    Assoc(before, O.Flat(answers), more);
  }

  lemma AskedFrom(receives: seq<(int, ReceiveResult)>, from: nat, k: nat)
    requires from <= |receives| && AskedSince(receives, from, k)
    ensures AskedSince(receives[from..], 0, k)
  {
    var i :| from <= i < |receives| && receives[i].0 == k;
    assert receives[from..][i - from].0 == k;
  }

  /** Serve the clients of one round. */
  method ServeRound(g: Generator, round: Round) returns (ghost answers: seq<(int, ReceiveResult)>)
    requires g.Valid() && g.phase.connections > 0
    requires forall e :: e in round.ready ==> e.client < |g.clients|
    modifies g`clients, g`tally, g`logs, g`disconnects, g`interest, g`sendErrors, g.kernel
    ensures g.Valid() && StayClosed(old(g.clients), g.clients) && g.tally.sent == old(g.tally.sent)
    ensures |g.logs| == |old(g.logs)| && forall k :: 0 <= k < |g.logs| ==> Later(old(g.logs)[k], g.logs[k])
    ensures g.kernel.receives == old(g.kernel.receives) + answers && RoundHeard(g.phase, round, g.clients, answers)
  {
    hide g.Valid, Later, AskedSince;
    g.LogsFit();
    ghost var before, were := g.kernel.receives, g.clients;
    var _ := g.ServiceEvents(round.ready, round.cursor);
    answers := g.kernel.receives[|before|..];
    forall e | e in round.ready && e.read && !g.clients[e.client].closed
        && g.phase.maxRecvCalls > 0 && g.phase.maxRecvBytes > 0
      ensures AskedSince(answers, 0, e.client)
    {
      AskedFrom(g.kernel.receives, |before|, e.client);
    }
  }

  /** After the deadline, answers that are still coming in. */
  method Drain(g: Generator, drain: seq<Round>) returns (ghost answers: seq<seq<(int, ReceiveResult)>>)
    requires g.Valid() && g.phase.connections > 0
    requires forall r, e :: r in drain && e in r.ready ==> e.client < |g.clients|
    modifies g, g.kernel
    ensures g.Valid() && g.tally.sent == old(g.tally.sent) && StayClosed(old(g.clients), g.clients)
    ensures g.kernel.receives == old(g.kernel.receives) + O.Flat(answers)
    ensures RoundsHeard(g.phase, drain, g.clients, answers)
  {
    hide *;
    answers := [];
    NoRounds(g.phase, g.clients);
    assert drain[..0] == [] && g.kernel.receives + [] == g.kernel.receives;
    for i := 0 to |drain|
      invariant g.Valid() && |g.clients| == |old(g.clients)| && g.tally.sent == old(g.tally.sent)
      invariant StayClosed(old(g.clients), g.clients)
      invariant g.kernel.receives == old(g.kernel.receives) + O.Flat(answers)
      invariant RoundsHeard(g.phase, drain[..i], g.clients, answers)
    {
      assert drain[i] in drain;
      ghost var were := g.clients;
      ghost var more := ServeRound(g, drain[i]);
      ClosedThrough(old(g.clients), were, g.clients);
      OneMoreRound(g.phase, drain, i, were, g.clients, answers, more);
      JoinedMore(old(g.kernel.receives), answers, more);
      answers := answers + [more];
    }
    assert drain[..|drain|] == drain;
  }

  lemma ClosedThrough(a: seq<Client>, b: seq<Client>, c: seq<Client>)
    requires StayClosed(a, b) && StayClosed(b, c)
    ensures StayClosed(a, c) && |c| == |a|
  {
  }

  lemma OpenThrough(a: seq<Client>, b: seq<Client>)
    requires SameOpen(a, b)
    ensures StayClosed(a, b) && |b| == |a|
  {
  }

  /** The attempts of each round: of offers due at its reading, marked as missed
      exactly if late, all attempted fairly. */
  ghost predicate RoundsMade(p: O.Phase, attempts: seq<seq<Attempt>>, rounds: seq<Round>)
    requires p.Valid()
  {
    && |attempts| == |rounds|
    && forall i :: 0 <= i < |rounds| ==> O.ReadyOk(p, Dues(attempts[i]), rounds[i].now) && AllFair(attempts[i])
  }

  lemma MoreAttempts(p: O.Phase, attempts: seq<seq<Attempt>>, rounds: seq<Round>, i: nat, more: seq<Attempt>)
    requires p.Valid() && i < |rounds| && RoundsMade(p, attempts, rounds[..i])
    requires O.ReadyOk(p, Dues(more), rounds[i].now) && AllFair(more)
    ensures RoundsMade(p, attempts + [more], rounds[..i + 1])
    ensures Queued(O.Flat(attempts + [more])) == Queued(O.Flat(attempts)) + Queued(more)
    ensures O.Numbers(Dues(O.Flat(attempts + [more]))) == O.Numbers(Dues(O.Flat(attempts))) + O.Numbers(Dues(more))
  {
    hide AllFair, O.ReadyOk, Queued, Dues, O.Numbers, O.Flat;
    O.FlatMore(attempts, more);
    QueuedBoth(O.Flat(attempts), more);
    NumbersBoth(O.Flat(attempts), more);
  }

  lemma NumbersBoth(a: seq<Attempt>, b: seq<Attempt>)
    ensures O.Numbers(Dues(a + b)) == O.Numbers(Dues(a)) + O.Numbers(Dues(b))
  {
  }

  lemma NothingMade(p: O.Phase)
    requires p.Valid()
    ensures RoundsMade(p, [], []) && O.Flat<Attempt>([]) == []
  {
  }

  /** A whole phase of one worker: rounds until the deadline, the accounting of
      what is left, and the draining of answers. Every offer is sent or missed;
      what its offers are counted as sent is what its connections sent, namely
      those popped that were not late and whose client was open and had room;
      each request sent is answered or still pending; and in every round the
      readable clients were read. */
  method RunPhase(w: O.Worker, g: Generator, p: O.Phase, clients: seq<nat>, place: map<nat, nat>, payload: nat,
                  rounds: seq<Round>, drain: seq<Round>)
    returns (ghost attempts: seq<seq<Attempt>>, ghost answers: seq<seq<(int, ReceiveResult)>>,
             ghost late: seq<seq<(int, ReceiveResult)>>)
    requires p.Valid() && w.schedule == [] && w.counted == [] && w.offered == w.sent == w.missed == 0
    requires g.Valid() && g.tally.sent == 0 && g.phase.connections > 0 && Placed(place, clients, g.logs)
    requires forall r, e :: r in rounds + drain && e in r.ready ==> e.client < |g.clients|
    modifies w, g, g.kernel
    ensures g.Valid() && w.sent + w.missed == w.offered && w.sent == g.tally.sent
    ensures g.phase.workload == Direct ==> g.tally.completions + Sum(g.clients, Waiting()) == w.sent
    ensures w.offered <= O.Share(p, clients, O.One)
    ensures O.OnTime(p) ==> w.offered == O.Share(p, clients, O.One)
    // enough readings just before the deadline attempt exactly the offers due in time
    ensures O.Diligent(p, Readings(rounds), O.Share(p, clients, O.One)) ==>
      O.NothingDue(p, w.schedule) && w.offered + O.Share(p, clients, O.Late(p)) == O.Share(p, clients, O.One)
    ensures RoundsMade(p, attempts, rounds)
    ensures w.counted == O.Numbers(Dues(O.Flat(attempts))) && w.sent == Queued(O.Flat(attempts))
    ensures g.kernel.receives == old(g.kernel.receives) + O.Flat(answers) + O.Flat(late)
    ensures RoundsHeard(g.phase, rounds, g.clients, answers) && RoundsHeard(g.phase, drain, g.clients, late)
  {
    hide *;
    ghost var receives, were0 := g.kernel.receives, g.clients;
    w.ScheduleForClients(p, clients);
    w.Begins(p, clients);
    NoAttempts();
    NothingMade(p);
    NoRounds(g.phase, g.clients);
    ghost var nows := Readings(rounds);
    attempts, answers := [], [];
    assert rounds[..0] == [] && receives + [] == receives;
    for i := 0 to |rounds|
      invariant w.Balanced(p, clients, nows[..i]) && g.Valid() && Placed(place, clients, g.logs)
      invariant |g.clients| == |old(g.clients)| && w.sent == g.tally.sent
      invariant RoundsMade(p, attempts, rounds[..i])
      invariant w.counted == O.Numbers(Dues(O.Flat(attempts))) && w.sent == Queued(O.Flat(attempts))
      invariant O.Diligent(p, nows, O.Share(p, clients, O.One)) ==> O.NothingDue(p, w.schedule) || |w.counted| >= i
      invariant g.kernel.receives == receives + O.Flat(answers)
      invariant RoundsHeard(g.phase, rounds[..i], g.clients, answers)
    {
      assert nows[..i + 1] == nows[..i] + [nows[i]];
      assert rounds[i] in rounds + drain;
      ghost var were, schedule, counted := g.clients, w.schedule, |w.counted|;
      ghost var more := SendOffers(w, g, p, rounds[i].now, place, payload, clients, nows[..i]);
      MoreAttempts(p, attempts, rounds, i, more);
      if O.Diligent(p, nows, O.Share(p, clients, O.One)) {
        O.DiligentRound(p, nows, O.Share(p, clients, O.One), i);
        O.NothingDueThen(p, schedule);
        O.RoundKeepsUp(p, schedule, w.schedule, |more|, counted, rounds[i].now, i);
      }
      attempts := attempts + [more];
      OpenThrough(were, g.clients);
      ghost var before, open := g.logs, g.clients;
      ghost var heard := ServeRound(g, rounds[i]);
      ClosedThrough(were, open, g.clients);
      OneMoreRound(g.phase, rounds, i, were, g.clients, answers, heard);
      JoinedMore(receives, answers, heard);
      answers := answers + [heard];
      LaterPlaced(place, clients, before, g.logs);
    }
    assert nows[..|rounds|] == nows && rounds[..|rounds|] == rounds;
    if O.Diligent(p, nows, O.Share(p, clients, O.One)) {
      O.DiligentEnd(p, nows, O.Share(p, clients, O.One));
      w.KeptUp(p, clients, nows);
    }
    w.Ends(p, clients, nows);
    w.AccountLeftovers(p);
    forall r | r in drain ensures r in rounds + drain {
    }
    ghost var open := g.clients;
    late := Drain(g, drain);
    StillHeard(g.phase, rounds, open, g.clients, answers);
    BooksBalance(g);
  }
}
