/** What the invariant means for users of the server, and for every run. */
module ServerTheorems {
  import opened Text
  import opened Sockets
  import opened Readiness
  import opened Rooms
  import opened ServerCommon
  import opened Messages
  import opened ServerState
  import opened ServerEffects

  // ------------------------------------------------------------- membership

  /** Between events every named client is listed once, in its own room only;
      clients without a name are listed nowhere; every listed descriptor is a
      named client of that room; no room but main-room is empty. */
  lemma MembershipExact(s: State, fd: int)
    requires Inv(s, {}, {})
    ensures s.rooms != [] && s.rooms[0].roomIdx == 0 && s.rooms[0].roomName == MAIN_ROOM
    ensures forall i, j :: 0 <= i < j < |s.rooms| ==>
      s.rooms[i].roomIdx != s.rooms[j].roomIdx && s.rooms[i].roomName != s.rooms[j].roomName
    ensures forall i :: 0 < i < |s.rooms| ==> s.rooms[i].subscribed != []
    ensures fd in s.clients && s.clients[fd].conn.active ==> exists i, k ::
      && 0 <= i < |s.rooms| && 0 <= k < |s.rooms[i].subscribed|
      && s.rooms[i].roomIdx == s.clients[fd].conn.currRoom && s.rooms[i].subscribed[k] == fd
      && forall j, l :: 0 <= j < |s.rooms| && 0 <= l < |s.rooms[j].subscribed| && s.rooms[j].subscribed[l] == fd ==>
           j == i && l == k
    ensures !(fd in s.clients && s.clients[fd].conn.active) ==>
      forall i :: 0 <= i < |s.rooms| ==> fd !in s.rooms[i].subscribed
  {
    hide LinksOk;
    SubscribedOnce(s.rooms, Where(s.clients), {}, fd);
  }

  /** WHERE answers "room not found" exactly when the client is in the room
      whose name is empty. The room itself always exists. */
  lemma WhereAnswers(s: State, fd: int)
    requires Inv(s, {}, {}) && fd in s.clients && s.clients[fd].conn.active
    ensures FindId(s.rooms, s.clients[fd].conn.currRoom) < |s.rooms|
    ensures WhereText(RoomName(s, fd)) == Notice("room not found") <==> RoomName(s, fd) == []
  {
    hide Inv, RoomName, NameOf;
    RoomFound(s, fd, {}, {});
    var room := RoomName(s, fd);
    if room != [] {
      assert WhereText(room)[10] == 'y' && Notice("room not found")[10] == 'r';
    }
  }

  lemma EmptyRoomTokens()
    ensures TokensOf("JOIN  ") == ["JOIN", []] && TokensOf("WHERE") == ["WHERE"]
  {
    hide TokensOf, Rejoin;
    JoinNothing();
    TokensOfRejoin(["JOIN", []]);
    WhereAlone();
    TokensUnique("WHERE", ["WHERE"]);
  }

  lemma JoinNothing()
    ensures Rejoin(["JOIN", []]) == "JOIN  "
  {
    hide Rejoin;
    var empty: Bytes := [];
    NoWords();
    RejoinCons(empty, []);
    RejoinCons("JOIN", [empty]);
    assert [empty] + [] == [empty] && ["JOIN"] + [empty] == ["JOIN", empty];
  }

  lemma WhereAlone()
    ensures Rejoin(["WHERE"]) == SpaceEnded("WHERE")
  {
    hide Rejoin;
    NoWords();
    RejoinCons("WHERE", []);
    assert ["WHERE"] + [] == ["WHERE"];
  }

  lemma NoWords()
    ensures Rejoin([]) == []
  {
  }

  /** JOIN and two spaces take a client to the room with the empty name. */
  lemma EmptyRoomEntered(s: State, t: State, fd: int, ok: bool, reached: nat)
    requires Inv(s, {}, {}) && FrameDone(s, t, fd, "JOIN  ", ok, reached) && fd in t.clients
    ensures RoomName(t, fd) == []
  {
    hide Inv, Relocated, TokensOf, NameOf, Broadcasted;
    EmptyRoomTokens();
    if RoomName(s, fd) == [] {
      RejoinedName(s, t, fd);
    } else {
      RelocatedName(s, t, fd, []);
    }
  }

  lemma RejoinedName(s: State, t: State, fd: int)
    requires Rejoined(s, t, fd)
    ensures fd in t.clients && RoomName(t, fd) == RoomName(s, fd)
  {
    SameIds(s.rooms, t.rooms, s.clients[fd].conn.currRoom);
  }

  lemma RelocatedName(s: State, t: State, fd: int, name: Bytes)
    requires Relocated(s, t, fd, name) && fd in t.clients
    ensures RoomName(t, fd) == name
  {
  }

  /** And there it is told that its room was not found. */
  lemma EmptyRoomNotFound(s: State, t: State, u: State, fd: int, okJoin: bool, m: nat, okWhere: bool, n: nat)
    requires Inv(s, {}, {}) && FrameDone(s, t, fd, "JOIN  ", okJoin, m) && fd in t.clients
    requires FrameDone(t, u, fd, "WHERE", okWhere, n) && fd in u.clients
    ensures u.clients[fd].conn.out.outbox == t.clients[fd].conn.out.outbox + [Notice("room not found")]
  {
    hide Inv, Relocated, TokensOf, Broadcasted, RoomName;
    EmptyRoomTokens();
    EmptyRoomEntered(s, t, fd, okJoin, m);
    hide Settle, Paced, Notice;
  }

  // ---------------------------------------------------------------- framing

  /** However the bytes were cut into reads: the frames a client has sent are,
      in order, the first lines of its byte stream; the first is its name, the
      others were handled once each, without their carriage return. */
  lemma FramesAreLines(s: State, fd: int)
    requires Inv(s, {}, {}) && fd in s.clients
    ensures var l := s.clients[fd];
      && Lines(l.given) == l.conn.frames + Lines(l.conn.input)
      && (forall i :: 0 <= i < |l.conn.frames| ==> |l.conn.frames[i]| <= MAX_FRAME_BYTES)
      && |l.conn.input| <= MAX_INPUT_BUFFER_BYTES
    ensures var l := s.clients[fd];
      l.conn.active ==>
        && Lines(l.given) != [] && l.conn.username == StripCr(Lines(l.given)[0])
        && 1 + |l.conn.handled| <= |Lines(l.given)|
        && forall i :: 0 <= i < |l.conn.handled| ==> l.conn.handled[i] == StripCr(Lines(l.given)[i + 1])
  {
    hide Seated, LinkLive, StripCr, Orderly;
    var l := s.clients[fd];
    LinesOfJoin(l.conn.frames, l.conn.input);
    if l.conn.active {
      var lines := Lines(l.given);
      forall i | 0 <= i < |l.conn.handled| ensures l.conn.handled[i] == StripCr(lines[i + 1]) {
        assert l.conn.frames[1..][i] == lines[i + 1];
      }
    }
  }

  // ---------------------------------------------------------------- messages

  /** The text of a chat message survives: it is the frame, with a space
      added at its end unless it has one. */
  lemma ChatTextIsFrame(user: Bytes, frame: Bytes)
    ensures ChatText(user, TokensOf(frame)) == "> " + user + ": " + SpaceEnded(frame) + [LF]
  {
    RejoinTokens(frame);
  }

  /** A chat message of a newline-free frame is one line. */
  lemma ChatIsLine(user: Bytes, frame: Bytes)
    requires LineFree(user) && LineFree(frame)
    ensures IsMessage(ChatText(user, TokensOf(frame)))
    ensures Lines(ChatText(user, TokensOf(frame))) == ["> " + user + ": " + SpaceEnded(frame)]
  {
    hide Lines, IsMessage, TokensOf;
    TokensAreLineFree(frame);
    ChatIsMessage(user, TokensOf(frame));
    RejoinTokens(frame);
  }

  // ------------------------------------------------------------------ streams

  /** What a client's peer has been sent is always a prefix of the prompt and
      then its messages in order; the rest of them is what is queued, at most
      16384 bytes, and the server waits for write readiness exactly while
      something is queued. */
  lemma StreamExact(s: State, fd: int)
    requires Inv(s, {}, {}) && fd in s.clients
    ensures var l := s.clients[fd];
      && l.conn.out.outbox != [] && l.conn.out.outbox[0] == PROMPT
      && l.taken + Unsent(l.conn.out.queue) == PROMPT + Concat(l.conn.out.outbox[1..])
      && |Unsent(l.conn.out.queue)| == l.conn.out.size <= MAX_PENDING_OUTPUT_BYTES
      && (l.conn.out.queue != [] <==> l.wanted)
  {
    hide Seated, Framed, Interpreted;
  }

  /** A peer that has received everything, splits it at newlines after the
      prompt and keeps the lines that begin with the mark of a message gets
      exactly its messages in order: no message is joined, split or lost, and
      what lies between them are room tables. */
  lemma DrainedStreamSplits(s: State, fd: int)
    requires Inv(s, {}, {}) && fd in s.clients && s.clients[fd].conn.out.queue == []
    ensures var l := s.clients[fd];
      && PROMPT <= l.taken && l.conn.out.outbox != []
      && (forall m :: m in l.conn.out.outbox[1..] ==> Posted(m))
      && Marked(Lines(l.taken[|PROMPT|..])) == Bodies(l.conn.out.outbox[1..])
  {
    hide Seated, Framed, Interpreted, StreamOk, PROMPT, Posted, Marked, Bodies, Lines;
    StreamExact(s, fd);
    var l := s.clients[fd];
    var rest := l.conn.out.outbox[1..];
    assert Unsent(l.conn.out.queue) == [];
    assert l.taken == PROMPT + Concat(rest) by {
      assert l.taken + [] == l.taken;
    }
    assert l.taken[|PROMPT|..] == Concat(rest);
    forall m | m in rest ensures Posted(m) {
      var i :| 0 <= i < |rest| && rest[i] == m;
      assert l.conn.out.outbox[i + 1] == m;
    }
    MessagesRecovered(rest);
  }

  // ------------------------------------------------------------------ draining

  /** If the kernel takes all it is offered and nothing new is queued, two
      server iterations empty any queue and stop waiting for write readiness. */
  method DrainInTwoIterations(client: ClientConnection, kernel: Kernel, dispatcher: ReadinessDispatcher,
                              clock: ServerClock)
    requires kernel.generous && dispatcher.reliable
    requires client.fd in kernel.taken
    requires client.fd in dispatcher.interest && dispatcher.interest[client.fd] == client.writeInterestEnabled
    requires OutputOk(client.Out(), kernel.taken[client.fd], clock.serverIteration)
    modifies client, kernel`interruptsLeft, kernel`log, kernel`taken, dispatcher, clock
    ensures client.outputQueue == [] && !client.writeInterestEnabled
    ensures client.fd in dispatcher.interest && !dispatcher.interest[client.fd]
    ensures client.fd in kernel.taken && kernel.taken[client.fd] == Concat(client.outbox)
    ensures client.outbox == old(client.outbox)
  {
    hide StreamOk;
    QueueBound(client.Out(), kernel.taken[client.fd]);
    clock.BeginServerIteration();
    var ok := FlushOutputCommon(client, kernel, dispatcher, clock);
    clock.BeginServerIteration();
    ok := FlushOutputCommon(client, kernel, dispatcher, clock);
    QueueEmpty(client.Out(), kernel.taken[client.fd]);
  }

  lemma QueueBound(o: Output, taken: Bytes)
    requires StreamOk(o, taken)
    ensures o.size <= MAX_PENDING_OUTPUT_BYTES
  {
  }

  lemma QueueEmpty(o: Output, taken: Bytes)
    requires StreamOk(o, taken) && o.size == 0
    ensures o.queue == [] && taken == Concat(o.outbox)
  {
    NothingUnsent(o.queue);
    assert taken + [] == taken;
  }

  lemma NothingUnsent(queue: seq<PendingWrite>)
    requires forall i :: 0 <= i < |queue| ==> queue[i].offset < |queue[i].data|
    ensures Unsent(queue) == [] <==> queue == []
  {
  }
}
