/** The chat server: one event at a time. */
module ChatServers {
  import opened Text
  import opened Sockets
  import opened Readiness
  import opened Rooms
  import opened ServerCommon
  import opened Messages
  import opened ServerState
  import opened ServerEffects
  import opened ServerRuns

  /** The connections of a client table. */
  ghost function Range(clients: map<int, ClientConnection>): set<ClientConnection> {
    set fd | fd in clients :: clients[fd]
  }

  lemma AddedThenRemoved<V>(m: map<int, V>, fd: int, v: V)
    requires fd !in m
    ensures m[fd := v] - {fd} == m
  {
  }

  lemma RangeShrinks(a: map<int, ClientConnection>, b: map<int, ClientConnection>)
    requires forall k :: k in a ==> k in b && a[k] == b[k]
    ensures Range(a) <= Range(b)
  {
  }

  class ChatServer {
    const dispatcher: ReadinessDispatcher
    const kernel: Kernel
    const clock: ServerClock
    const listener: int
    var clients: map<int, ClientConnection>
    var rooms: seq<ChatRoom>

    /** The client table, the dispatcher and the open sockets name the same
        descriptors; the listener is registered for reading only. */
    ghost predicate Wired()
      reads this`clients, dispatcher, kernel
    {
      && listener !in clients
      && dispatcher.interest.Keys == clients.Keys + {listener}
      && !dispatcher.interest[listener]
      && kernel.taken.Keys == clients.Keys
      && kernel.given.Keys == clients.Keys
      && (forall fd :: fd in clients ==> clients[fd].fd == fd)
      && Quiet()
    }

    /** A kernel that takes every byte and a dispatcher that refuses nothing
        leave nothing in the log. */
    ghost predicate Quiet()
      reads kernel`log, dispatcher`refusals
    {
      && (kernel.generous ==> kernel.log == NO_SENDS)
      && (dispatcher.reliable ==> dispatcher.refusals == multiset{})
    }

    ghost function LinkOf(fd: int): Link
      requires Wired() && fd in clients
      reads this`clients, dispatcher, kernel, Range(clients)
    {
      Link(clients[fd].View(), dispatcher.interest[fd], kernel.taken[fd], kernel.given[fd])
    }

    ghost function Snapshot(): State
      requires Wired()
      reads this, dispatcher, kernel, clock, Range(clients)
    {
      State(map fd | fd in clients :: LinkOf(fd), rooms, clock.serverIteration, LogOf(kernel, dispatcher))
    }

    /** What holds between events. */
    ghost predicate Valid()
      reads this, dispatcher, kernel, clock, Range(clients)
    {
      Wired() && Inv(Snapshot(), {}, {})
    }

    /** Where no call of the kernel or the dispatcher is refused, the log stays
        empty, so that nobody is ever troubled. */
    lemma NeverTroubled()
      requires Wired() && kernel.generous && dispatcher.reliable
      ensures Snapshot().log == NO_SENDS
    {
    }

    ghost predicate Live(client: ClientConnection)
      reads this`clients
    {
      client.fd in clients && clients[client.fd] == client
    }

    constructor (dispatcher: ReadinessDispatcher, kernel: Kernel, clock: ServerClock, listener: int)
      requires dispatcher.interest == map[listener := false]
      requires kernel.taken == map[] && kernel.given == map[]
      requires kernel.log == NO_SENDS && dispatcher.refusals == multiset{}
      requires clock.serverIteration > 0
      ensures Valid() && clients == map[] && rooms == [ChatRoom(0, MAIN_ROOM, [])]
      ensures this.dispatcher == dispatcher && this.kernel == kernel && this.clock == clock && this.listener == listener
    {
      this.dispatcher, this.kernel, this.clock, this.listener := dispatcher, kernel, clock, listener;
      clients := map[];
      rooms := [ChatRoom(0, MAIN_ROOM, [])];
    }

    /** What the snapshot says about a client is what its record says. */
    lemma Known(fd: int)
      requires Wired() && fd in Snapshot().clients
      ensures fd in clients && LinkOf(fd) == Snapshot().clients[fd] && clients[fd] in Range(clients)
      ensures clients[fd].active == LinkOf(fd).conn.active && clients[fd].currRoom == LinkOf(fd).conn.currRoom
      ensures clock.serverIteration == Snapshot().now
    {
    }

    lemma Shared()
      requires Wired()
      ensures Snapshot().rooms == rooms && Snapshot().now == clock.serverIteration
      ensures Snapshot().clients.Keys == clients.Keys
      ensures Snapshot().log == LogOf(kernel, dispatcher)
    {
    }

    /** Nothing but the room table changed. */
    twostate lemma OnlyRooms()
      requires old(Wired()) && clients == old(clients)
      requires dispatcher.interest == old(dispatcher.interest)
      requires kernel.taken == old(kernel.taken) && kernel.given == old(kernel.given)
      requires kernel.log == old(kernel.log) && dispatcher.refusals == old(dispatcher.refusals)
      requires clock.serverIteration == old(clock.serverIteration)
      requires forall f :: f in clients ==> clients[f].View() == old(clients[f].View())
      ensures Wired() && Snapshot() == old(Snapshot()).(rooms := rooms)
      ensures rooms == old(rooms) ==> Snapshot() == old(Snapshot())
    {
      assert Snapshot().clients == old(Snapshot()).clients;
    }

    /** Nothing but one client's record and the room table changed. */
    twostate lemma OnlyRecord(client: ClientConnection)
      requires old(Wired()) && clients == old(clients) && Live(client)
      requires dispatcher.interest == old(dispatcher.interest)
      requires kernel.taken == old(kernel.taken) && kernel.given == old(kernel.given)
      requires kernel.log == old(kernel.log) && dispatcher.refusals == old(dispatcher.refusals)
      requires clock.serverIteration == old(clock.serverIteration)
      requires forall f :: f in clients && clients[f] != client ==> clients[f].View() == old(clients[f].View())
      ensures Wired() && Snapshot() == WithConn(old(Snapshot()), client.fd, client.View()).(rooms := rooms)
      ensures rooms == old(rooms) ==> Snapshot() == WithConn(old(Snapshot()), client.fd, client.View())
    {
      RecordWired(client);
      RecordClients(client);
      Rest();
    }

    /** What a snapshot holds beside the clients. */
    twostate lemma Rest()
      requires old(Wired()) && Wired() && clock.serverIteration == old(clock.serverIteration)
      requires kernel.log == old(kernel.log) && dispatcher.refusals == old(dispatcher.refusals)
      ensures Snapshot() == old(Snapshot()).(clients := Snapshot().clients, rooms := rooms)
      ensures old(Snapshot()).rooms == old(rooms)
    {
    }

    twostate lemma RecordClients(client: ClientConnection)
      requires old(Wired()) && Wired() && clients == old(clients) && Live(client)
      requires dispatcher.interest == old(dispatcher.interest)
      requires kernel.taken == old(kernel.taken) && kernel.given == old(kernel.given)
      requires kernel.log == old(kernel.log) && dispatcher.refusals == old(dispatcher.refusals)
      requires forall f :: f in clients && clients[f] != client ==> clients[f].View() == old(clients[f].View())
      ensures client.fd in old(Snapshot()).clients
      ensures Snapshot().clients == WithConn(old(Snapshot()), client.fd, client.View()).clients
    {
      hide Wired, LinkOf;
      forall f | f in clients
        ensures LinkOf(f) == if f == client.fd then old(LinkOf(f)).(conn := client.View()) else old(LinkOf(f))
      {
        RecordLink(client, f);
      }
    }

    twostate lemma RecordLink(client: ClientConnection, new f: int)
      requires old(Wired()) && Wired() && clients == old(clients) && Live(client) && f in clients
      requires dispatcher.interest == old(dispatcher.interest)
      requires kernel.taken == old(kernel.taken) && kernel.given == old(kernel.given)
      requires kernel.log == old(kernel.log) && dispatcher.refusals == old(dispatcher.refusals)
      requires clients[f] != client ==> clients[f].View() == old(clients[f].View())
      ensures LinkOf(f) == if f == client.fd then old(LinkOf(f)).(conn := client.View()) else old(LinkOf(f))
    {
    }

    twostate lemma RecordWired(client: ClientConnection)
      requires old(Wired()) && clients == old(clients)
      requires dispatcher.interest == old(dispatcher.interest)
      requires kernel.taken == old(kernel.taken) && kernel.given == old(kernel.given)
      requires kernel.log == old(kernel.log) && dispatcher.refusals == old(dispatcher.refusals)
      ensures Wired()
    {
    }

    /** Only `fd`'s link and the log changed. */
    twostate lemma SnapshotReplaced(client: ClientConnection)
      requires old(Wired()) && Wired()
      requires clients == old(clients) && rooms == old(rooms) && Live(client)
      requires clock.serverIteration == old(clock.serverIteration)
      requires forall fd :: fd in clients && fd != client.fd ==> LinkOf(fd) == old(LinkOf(fd))
      ensures Snapshot() == old(Snapshot()).(clients := old(Snapshot()).clients[client.fd := LinkOf(client.fd)],
                                             log := LogOf(kernel, dispatcher))
    {
      var s := old(Snapshot());
      assert Snapshot().clients == s.clients[client.fd := LinkOf(client.fd)];
    }

    method QueueOutput(client: ClientConnection, data: Bytes) returns (ok: bool)
      requires Wired() && Live(client) && clock.serverIteration > 0
      requires LinkLive(LinkOf(client.fd), clock.serverIteration)
      modifies client, kernel`interruptsLeft, kernel`log, kernel`taken, dispatcher
      ensures Wired()
      ensures Snapshot() == old(Snapshot()).(clients := old(Snapshot()).clients[client.fd := LinkOf(client.fd)],
                                             log := LogOf(kernel, dispatcher))
      ensures LoggedOnce(client.fd, old(LogOf(kernel, dispatcher)), LogOf(kernel, dispatcher))
      ensures Pace(LinkOf(client.fd), clock.serverIteration) == old(Pace(LinkOf(client.fd), clock.serverIteration))
      ensures LinkOf(client.fd).given == old(LinkOf(client.fd).given)
      ensures LinkOf(client.fd).conn == old(LinkOf(client.fd).conn).(out := LinkOf(client.fd).conn.out)
      ensures ok ==> Got(old(LinkOf(client.fd)), LinkOf(client.fd), data)
      ensures ok ==> LinkLive(LinkOf(client.fd), clock.serverIteration)
      ensures ok <==>
        && old(Fits(LinkOf(client.fd), data))
        && LogOf(kernel, dispatcher).broken[client.fd] == old(LogOf(kernel, dispatcher)).broken[client.fd]
    {
      hide Snapshot, OutputOk, Budget, Concat;
      ok := QueueOutputCommon(client, data, kernel, dispatcher, clock);
      SnapshotReplaced(client);
    }

    method FlushOutput(client: ClientConnection) returns (ok: bool)
      requires Wired() && Live(client) && clock.serverIteration > 0
      requires LinkLive(LinkOf(client.fd), clock.serverIteration)
      modifies client, kernel`interruptsLeft, kernel`log, kernel`taken, dispatcher
      ensures Wired()
      ensures Snapshot() == old(Snapshot()).(clients := old(Snapshot()).clients[client.fd := LinkOf(client.fd)],
                                             log := LogOf(kernel, dispatcher))
      ensures LoggedOnce(client.fd, old(LogOf(kernel, dispatcher)), LogOf(kernel, dispatcher))
      ensures OnlySent(old(LinkOf(client.fd)), LinkOf(client.fd), clock.serverIteration)
      ensures ok ==>
        LogOf(kernel, dispatcher).blocked[client.fd] == old(LogOf(kernel, dispatcher)).blocked[client.fd] ==>
        SentAll(old(LinkOf(client.fd)), LinkOf(client.fd), clock.serverIteration)
      ensures ok ==> LinkLive(LinkOf(client.fd), clock.serverIteration)
      ensures ok <==> LogOf(kernel, dispatcher).broken[client.fd] == old(LogOf(kernel, dispatcher)).broken[client.fd]
    {
      hide Snapshot, OutputOk, Budget, Concat;
      ok := FlushOutputCommon(client, kernel, dispatcher, clock);
      SnapshotReplaced(client);
    }

    method RemoveFromRooms(fd: int)
      modifies this`rooms
      ensures rooms == RemoveAll(old(rooms), {fd})
    {
      for i := 0 to |rooms|
        invariant |rooms| == |old(rooms)|
        invariant forall j :: 0 <= j < i ==> rooms[j] == RemoveAll(old(rooms), {fd})[j]
        invariant forall j :: i <= j < |rooms| ==> rooms[j] == old(rooms)[j]
      {
        rooms := rooms[i := rooms[i].(subscribed := Without(rooms[i].subscribed, {fd}))];
      }
    }

    method DeleteEmptyRoom(roomId: nat)
      modifies this`rooms
      ensures rooms == DeleteEmpty(old(rooms), roomId)
    {
      var room := FindId(rooms, roomId);
      if room < |rooms| && rooms[room].roomName != MAIN_ROOM && rooms[room].subscribed == [] {
        rooms := rooms[..room] + rooms[room + 1..];
      }
    }

    /** Drop a client: its place in the rooms, its registration, its socket,
        its entry, and the room it leaves empty. */
    method Disconnect(fd: int)
      requires Wired()
      modifies this`clients, this`rooms, dispatcher, kernel`taken, kernel`given
      ensures Wired()
      ensures clients == old(clients) - {fd}
      ensures fd !in old(clients) ==> Snapshot() == old(Snapshot())
      ensures fd in old(clients) ==> Snapshot() == Dropped(old(Snapshot()), fd)
    {
      hide *;
      if fd !in clients {
        assert clients == clients - {fd};
        return;
      }
      var oldRoom := clients[fd].currRoom;
      RemoveFromRooms(fd);
      var _ := dispatcher.Remove(fd);
      kernel.Close(fd);
      clients := clients - {fd};
      DeleteEmptyRoom(oldRoom);
      SnapshotWithout(fd);
    }

    /** Only `fd`'s link is gone. */
    twostate lemma SnapshotWithout(fd: int)
      requires old(Wired()) && fd in old(clients)
      requires clients == old(clients) - {fd}
      requires rooms == DeleteEmpty(RemoveAll(old(rooms), {fd}), old(clients[fd].currRoom))
      requires dispatcher.interest == old(dispatcher.interest) - {fd}
      requires kernel.taken == old(kernel.taken) - {fd} && kernel.given == old(kernel.given) - {fd}
      requires kernel.log == old(kernel.log) && dispatcher.refusals == old(dispatcher.refusals)
      requires clock.serverIteration == old(clock.serverIteration)
      requires forall f :: f in clients ==> clients[f].View() == old(clients[f].View())
      ensures Wired() && Snapshot() == Dropped(old(Snapshot()), fd)
    {
      assert Snapshot().clients == old(Snapshot()).clients - {fd};
    }

    /** Send a notice to every member of a room except one. A member that
        cannot take it is dropped, and the others still get theirs. */
    method NotifyRoom(roomId: nat, excludedFd: int, message: Bytes, ghost shaky: set<int>, ghost vacant: set<nat>)
      requires Wired() && Inv(Snapshot(), shaky, vacant) && shaky <= {excludedFd}
      requires roomId !in vacant && Posted(message)
      modifies this`clients, this`rooms, dispatcher, Range(clients)
      modifies kernel`interruptsLeft, kernel`log, kernel`taken, kernel`given
      ensures Wired() && Inv(Snapshot(), shaky, vacant)
      ensures forall f :: f in clients ==> f in old(clients) && clients[f] == old(clients)[f]
      ensures Delivers(old(Snapshot()), Snapshot(), old(Audience(Snapshot(), roomId, excludedFd)), message, roomId)
      ensures Spares(old(Snapshot()), Snapshot(), old(Audience(Snapshot(), roomId, excludedFd)), message)
    {
      hide *;
      ghost var s := Snapshot();
      Shared();
      AudienceIs(s, roomId, excludedFd, shaky, vacant);
      NothingDelivered(s, message, roomId, shaky, vacant);
      var room := FindId(rooms, roomId);
      if room == |rooms| {
        NotifiedMeans(s, s, {}, message, roomId, shaky, vacant);
        return;
      }
      var recipients := rooms[room].subscribed;
      for i := 0 to |recipients|
        invariant Wired()
        invariant forall f :: f in clients ==> f in old(clients) && clients[f] == old(clients)[f]
        invariant Notified(s, Snapshot(), FirstOf(recipients, i, excludedFd), message, roomId, shaky, vacant)
      {
        FirstOfStep(recipients, i, excludedFd);
        if recipients[i] != excludedFd {
          RangeShrinks(clients, old(clients));
          var _ := GiveMember(recipients, i, excludedFd, message, roomId, s, shaky, vacant);
        }
      }
      NotifiedMeans(s, Snapshot(), FirstOf(recipients, |recipients|, excludedFd), message, roomId, shaky, vacant);
    }

    /** The common step of a notification and of a broadcast: give the next
        member of the list the message, or drop it. */
    method GiveMember(recipients: seq<int>, i: nat, excludedFd: int, message: Bytes, roomId: nat,
                      ghost s: State, ghost shaky: set<int>, ghost vacant: set<nat>)
      returns (ok: bool)
      requires Wired() && Posted(message) && roomId !in vacant && shaky <= {excludedFd}
      requires FindId(s.rooms, roomId) < |s.rooms| && recipients == s.rooms[FindId(s.rooms, roomId)].subscribed
      requires i < |recipients| && recipients[i] != excludedFd
      requires Notified(s, Snapshot(), FirstOf(recipients, i, excludedFd), message, roomId, shaky, vacant)
      modifies this`clients, this`rooms, dispatcher, Range(clients)
      modifies kernel`interruptsLeft, kernel`log, kernel`taken, kernel`given
      ensures Wired()
      ensures forall f :: f in clients ==> f in old(clients) && clients[f] == old(clients)[f]
      ensures Notified(s, Snapshot(), FirstOf(recipients, i, excludedFd) + {recipients[i]}, message, roomId,
                       shaky, vacant)
      ensures recipients[i] in old(clients) && recipients[i] in s.clients
      ensures clients.Keys == if ok then old(clients.Keys) else old(clients.Keys) - {recipients[i]}
    {
      hide *;
      var fd := recipients[i];
      ghost var t, done := Snapshot(), FirstOf(recipients, i, excludedFd);
      StillMember(s, t, recipients, i, excludedFd, roomId, message, shaky, vacant);
      Known(fd);
      ok := true;
      if fd in clients && clients[fd].active && clients[fd].currRoom == roomId {
        ok := GiveOrDrop(fd, message);
        Shared();
        OneMore(s, t, Snapshot(), done, fd, message, roomId, shaky, vacant);
      }
    }

    /** Queue a message for one client, or drop the client. */
    method GiveOrDrop(fd: int, message: Bytes) returns (ok: bool)
      requires Wired() && fd in clients && clock.serverIteration > 0
      requires LinkLive(LinkOf(fd), clock.serverIteration)
      modifies this`clients, this`rooms, dispatcher, clients[fd]
      modifies kernel`interruptsLeft, kernel`log, kernel`taken, kernel`given
      ensures Wired()
      ensures forall f :: f in clients ==> f in old(clients) && clients[f] == old(clients)[f]
      ensures clients == if ok then old(clients) else old(clients) - {fd}
      ensures OneStep(old(Snapshot()), Snapshot(), fd, message)
      ensures ok <==>
        && old(Fits(LinkOf(fd), message))
        && LogOf(kernel, dispatcher).broken[fd] == old(LogOf(kernel, dispatcher)).broken[fd]
    {
      ghost var s := Snapshot();
      ok := QueueOutput(clients[fd], message);
      if !ok {
        DroppedForgets(s, fd, LinkOf(fd), LogOf(kernel, dispatcher));
        Disconnect(fd);
      }
    }

    /** An id above every id in use. */
    method FreshRoomId() returns (nextId: nat)
      ensures nextId == NextId(rooms)
    {
      nextId := 0;
      for i := 0 to |rooms|
        invariant nextId == NextIdBefore(rooms, i)
      {
        nextId := Max(nextId, rooms[i].roomIdx + 1);
      }
    }

    /** Enter the room called `name`, creating it when there is none. */
    method JoinRoom(client: ClientConnection, name: Bytes)
      requires Wired() && Live(client)
      modifies this`rooms, client`currRoom
      ensures Wired() && Snapshot() == Entered(old(Snapshot()), client.fd, name)
    {
      hide Snapshot, LinkOf, Wired, RemoveAll, NextIdBefore;
      OfLive(client);
      Shared();
      var room := FindName(rooms, name);
      if room == |rooms| {
        var nextId := FreshRoomId();
        rooms := rooms + [ChatRoom(nextId, name, [])];
      }
      ghost var open := rooms;
      assert open == WithRoom(old(rooms), name);
      room := FindName(rooms, name);
      RemoveFromRooms(client.fd);
      rooms := rooms[room := rooms[room].(subscribed := rooms[room].subscribed + [client.fd])];
      client.currRoom := rooms[room].roomIdx;
      OnlyRecord(client);
    }

    /** A chat message to the rest of the sender's room. It stops at the first
        member that cannot take it, which is dropped. `reached` counts the
        list entries dealt with. */
    method Broadcast(sender: ClientConnection, words: seq<Bytes>) returns (ok: bool, ghost reached: nat)
      requires Wired() && Inv(Snapshot(), {}, {}) && Live(sender) && sender.active && AllLineFree(words)
      modifies this`clients, this`rooms, dispatcher, Range(clients)
      modifies kernel`interruptsLeft, kernel`log, kernel`taken, kernel`given
      ensures Wired() && Inv(Snapshot(), {}, {})
      ensures forall f :: f in clients ==> f in old(clients) && clients[f] == old(clients)[f]
      ensures Broadcasted(old(Snapshot()), Snapshot(), sender.fd, words, ok, reached)
    {
      hide *;
      var output := ChatMessage(sender.username, words);
      OnlyRooms();
      ghost var s := Snapshot();
      Shared();
      OfLive(sender);
      NamesAreLineFree(s, sender.fd, {}, {});
      ChatIsPosted(sender.username, words);
      RoomFound(s, sender.fd, {}, {});
      AudienceIs(s, sender.currRoom, sender.fd, {}, {});
      NothingDelivered(s, output, sender.currRoom, {}, {});
      ok, reached := false, 0;
      var room := FindId(rooms, sender.currRoom);
      if room == |rooms| {
        assert false;  // the sender's room always exists
        return;
      }
      var fd, id, destinations := sender.fd, sender.currRoom, rooms[room].subscribed;
      for i := 0 to |destinations|
        invariant Wired() && reached == i
        invariant forall f :: f in clients ==> f in old(clients) && clients[f] == old(clients)[f]
        invariant clients.Keys == s.clients.Keys
        invariant Notified(s, Snapshot(), FirstOf(destinations, i, fd), output, id, {}, {})
      {
        FirstOfStep(destinations, i, fd);
        reached := i + 1;
        if destinations[i] != fd {
          RangeShrinks(clients, old(clients));
          ok := GiveMember(destinations, i, fd, output, id, s, {}, {});
          if !ok {
            NotifiedMeans(s, Snapshot(), FirstOf(destinations, reached, fd), output, id, {}, {});
            Shared();
            BroadcastIs(s, Snapshot(), fd, words, ok, reached);
            return;
          }
        }
      }
      ok := true;
      NotifiedMeans(s, Snapshot(), FirstOf(destinations, reached, fd), output, id, {}, {});
      Shared();
      BroadcastIs(s, Snapshot(), fd, words, ok, reached);
    }

    /** The text of a chat message. */
    method ChatMessage(username: Bytes, words: seq<Bytes>) returns (output: Bytes)
      ensures output == ChatText(username, words)
    {
      output := "> " + username + ": ";
      for i := 0 to |words|
        invariant output == "> " + username + ": " + Rejoin(words[..i])
      {
        assert words[..i + 1] == words[..i] + [words[i]];
        RejoinAppend(words[..i], words[i]);
        output := output + (words[i] + [SPACE]);
      }
      assert words[..|words|] == words;
      output := output + [LF];
    }

    lemma StaysLive(client: ClientConnection)
      requires Wired() && client.fd in clients && clients[client.fd] == client
      ensures Live(client)
      ensures client.fd in Snapshot().clients && client in Range(clients)
      ensures LinkOf(client.fd).conn == client.View() && Snapshot().clients[client.fd] == LinkOf(client.fd)
      ensures client.View().username == client.username && client.View().currRoom == client.currRoom
      ensures client.View().active == client.active && client.View().input == client.inputBuffer
    {
    }

    lemma OfLive(client: ClientConnection)
      requires Wired() && Live(client)
      ensures client.fd in clients && clients[client.fd] == client
      ensures client.fd in Snapshot().clients && client in Range(clients)
      ensures LinkOf(client.fd).conn == client.View() && Snapshot().clients[client.fd] == LinkOf(client.fd)
      ensures client.View().username == client.username && client.View().currRoom == client.currRoom
      ensures client.View().active == client.active && client.View().input == client.inputBuffer
    {
    }

    /** Send one answer to a client, or drop it. */
    method Reply(client: ClientConnection, message: Bytes) returns (ok: bool)
      requires Wired() && Inv(Snapshot(), {}, {}) && Live(client) && Posted(message)
      modifies this`clients, this`rooms, dispatcher, Range(clients)
      modifies kernel`interruptsLeft, kernel`log, kernel`taken, kernel`given
      ensures Wired() && Inv(Snapshot(), {}, {})
      ensures forall f :: f in clients ==> f in old(clients) && clients[f] == old(clients)[f]
      ensures Answered(old(Snapshot()), Snapshot(), client.fd, message, ok)
    {
      hide *;
      ghost var s := Snapshot();
      Shared();
      OfLive(client);
      LinkFacts(s, client.fd, {}, {});
      ok := GiveOrDrop(client.fd, message);
      Shared();
      AnswerKeeps(s, Snapshot(), client.fd, message, ok);
    }

    /** The answer to LIST: split at newlines it is the table, with one line
        per room. */
    method RoomList() returns (output: Bytes)
      ensures output == ListText(rooms)
      ensures NamesLineFree(rooms) ==> Lines(output) == TableLines(rooms)
    {
      output := RULE + [LF] + COLUMNS + [LF] + RULE + [LF];
      HeaderText();
      assert HEADER + RoomLines(rooms)[..0] == HEADER;
      hide JoinLines, Lines;
      for i := 0 to |rooms|
        invariant output == JoinLines(HEADER + RoomLines(rooms)[..i])
      {
        var room := rooms[i];
        JoinLinesAppend(HEADER + RoomLines(rooms)[..i], RoomLine(room));
        NextLine(HEADER, RoomLines(rooms), i);
        output := output + (RoomLine(room) + [LF]);
      }
      assert RoomLines(rooms)[..|rooms|] == RoomLines(rooms);
      JoinLinesAppend(HEADER + RoomLines(rooms), RULE);
      output := output + (RULE + [LF]);
      if NamesLineFree(rooms) {
        ListSplits(rooms);
      }
    }

    /** Tell the rest of a client's room that it goes, then drop it. */
    method Part(client: ClientConnection, message: Bytes, ghost shaky: set<int>)
      requires Wired() && Inv(Snapshot(), shaky, {}) && Live(client) && Posted(message)
      requires shaky <= {client.fd}
      modifies this`clients, this`rooms, dispatcher, Range(clients)
      modifies kernel`interruptsLeft, kernel`log, kernel`taken, kernel`given
      ensures Wired() && Inv(Snapshot(), {}, {})
      ensures forall f :: f in clients ==> f in old(clients) && clients[f] == old(clients)[f]
      ensures Parted(old(Snapshot()), Snapshot(), client.fd, message)
    {
      hide *;
      ghost var s := Snapshot();
      Shared();
      OfLive(client);
      NotifyRoom(client.currRoom, client.fd, message, shaky, {});
      ghost var t := Snapshot();
      Shared();
      Disconnect(client.fd);
      PartingIs(s, t, Snapshot(), client.fd, message, shaky);
    }

    /** Move a client to another room, telling both rooms. */
    method Relocate(client: ClientConnection, name: Bytes)
      requires Wired() && Inv(Snapshot(), {}, {}) && Live(client) && client.active && LineFree(name)
      requires NameOf(rooms, client.currRoom) != name
      modifies this`clients, this`rooms, dispatcher, Range(clients)
      modifies kernel`interruptsLeft, kernel`log, kernel`taken, kernel`given
      ensures Wired() && Inv(Snapshot(), {}, {})
      ensures forall f :: f in clients ==> f in old(clients) && clients[f] == old(clients)[f]
      ensures Relocated(old(Snapshot()), Snapshot(), client.fd, name)
    {
      hide *;
      ghost var s, user := Snapshot(), client.username;
      var fd := client.fd;
      OfLive(client);
      var oldRoom := client.currRoom;
      var oldName := NameOf(rooms, oldRoom);
      Shared();
      NamesAreLineFree(s, fd, {}, {});
      TextsPosted(user, oldName);
      TextsPosted(user, name);
      NotifyRoom(oldRoom, fd, LeftText(client.username, oldName), {}, {});
      ghost var a := Snapshot();
      Untold(s, a, oldRoom, fd, LeftText(user, oldName));
      Shared();
      StaysLive(client);
      EnteredKeeps(a, fd, name);
      JoinRoom(client, name);
      ghost var b := Snapshot();
      StaysLive(client);
      NewRoomDiffers(s, a, b, fd, name, LeftText(user, oldName));
      RangeShrinks(clients, old(clients));
      NotifyRoom(client.currRoom, -1, JoinedText(client.username, name), {}, {oldRoom});
      ghost var c := Snapshot();
      Shared();
      label told:
      DeleteEmptyRoom(oldRoom);
      OnlyRooms@told();
      VacatedIs(c, oldRoom);
      MovesAre(s, a, b, c, fd, name, oldName);
      MoveRelocates(s, a, b, c, fd, name);
    }

    /** Enter one's own room again. */
    method JoinAgain(client: ClientConnection, name: Bytes)
      requires Wired() && Inv(Snapshot(), {}, {}) && Live(client) && client.active && LineFree(name)
      requires NameOf(rooms, client.currRoom) == name
      modifies this`rooms, client`currRoom
      ensures Wired() && Inv(Snapshot(), {}, {})
      ensures Rejoined(old(Snapshot()), Snapshot(), client.fd)
    {
      hide Wired, Snapshot, LinkOf, Inv, Entered, Rejoined, DeleteEmpty;
      ghost var s := Snapshot();
      OfLive(client);
      Shared();
      var oldRoom := client.currRoom;
      JoinRoom(client, name);
      Shared();
      label joined:
      DeleteEmptyRoom(oldRoom);
      OnlyRooms@joined();
      RejoinIs(s, Snapshot(), client.fd, name);
    }

    /** Answer LIST. */
    method ListRooms(client: ClientConnection) returns (ok: bool)
      requires Wired() && Inv(Snapshot(), {}, {}) && Live(client)
      modifies this`clients, this`rooms, dispatcher, Range(clients)
      modifies kernel`interruptsLeft, kernel`log, kernel`taken, kernel`given
      ensures Wired() && Inv(Snapshot(), {}, {})
      ensures forall f :: f in clients ==> f in old(clients) && clients[f] == old(clients)[f]
      ensures Answered(old(Snapshot()), Snapshot(), client.fd, ListText(old(rooms)), ok)
    {
      hide Wired, Snapshot, Inv, Answered, Posted, Live;
      ghost var s := Snapshot();
      OfLive(client);
      Shared();
      NamesAreLineFree(s, client.fd, {}, {});
      var output := RoomList();
      OnlyRooms();
      ok := Reply(client, output);
    }

    /** Interpret a frame that starts with a command word. */
    method RunCommand(sender: ClientConnection, frame: Bytes, words: seq<Bytes>) returns (ok: bool)
      requires Wired() && Inv(Snapshot(), {}, {}) && Live(sender) && sender.active
      requires frame != [] && LineFree(frame) && words == TokensOf(frame) && IsCommand(words)
      modifies this`clients, this`rooms, dispatcher, Range(clients)
      modifies kernel`interruptsLeft, kernel`log, kernel`taken, kernel`given
      ensures Wired() && Inv(Snapshot(), {}, {})
      ensures forall f :: f in clients ==> f in old(clients) && clients[f] == old(clients)[f]
      ensures FrameDone(old(Snapshot()), Snapshot(), sender.fd, frame, ok, 0)
    {
      hide Wired, Snapshot, LinkOf, Inv, Relocated, Rejoined, Parted, Answered, Broadcasted, Live, Range, NameOf;
      hide QuitText, WhereText, ListText, TokensOf, Posted, LineFree;
      OfLive(sender);
      Shared();
      TokensAreLineFree(frame);
      NamesAreLineFree(Snapshot(), sender.fd, {}, {});
      TextsPosted(sender.username, NameOf(rooms, sender.currRoom));
      if words[0] == "LIST" {
        ok := ListRooms(sender);
      } else if words[0] == "JOIN" && |words| == 2 {
        if NameOf(rooms, sender.currRoom) != words[1] {
          Relocate(sender, words[1]);
        } else {
          JoinAgain(sender, words[1]);
        }
        ok := true;
      } else if words[0] == "LEAVE" && sender.currRoom != 0 {
        LeaveMeans(Snapshot(), sender.fd);
        Relocate(sender, MAIN_ROOM);
        ok := true;
      } else if words[0] == "WHERE" && |words| == 1 {
        ok := Reply(sender, WhereText(NameOf(rooms, sender.currRoom)));
      } else if words[0] == "QUIT" {
        Part(sender, QuitText(sender.username), {});
        ok := false;
      } else {
        ok := true;
      }
    }

    /** Handle one frame of an active client. The frame joins the client's
        record of handled frames. */
    method ProcessFrame(sender: ClientConnection, frame: Bytes) returns (ok: bool, ghost reached: nat)
      requires Wired() && Live(sender) && sender.active && LineFree(frame)
      requires Inv(Logged(Snapshot(), sender.fd, frame), {}, {})
      modifies this`clients, this`rooms, dispatcher, Range(clients)
      modifies kernel`interruptsLeft, kernel`log, kernel`taken, kernel`given
      ensures Wired() && Inv(Snapshot(), {}, {})
      ensures forall f :: f in clients ==> f in old(clients) && clients[f] == old(clients)[f]
      ensures FrameDone(Logged(old(Snapshot()), sender.fd, frame), Snapshot(), sender.fd, frame, ok, reached)
    {
      hide Wired, Snapshot, LinkOf, Inv, Relocated, Rejoined, Parted, Answered, Broadcasted, Live, Range;
      hide TokensOf, LineFree;
      OfLive(sender);
      sender.handled := sender.handled + [frame];
      StaysLive(sender);
      OnlyRecord(sender);
      label noted:
      ok, reached := true, 0;
      if frame != [] {
        var words := Tokens(frame);
        OnlyRooms@noted();
        StaysLive(sender);
        if IsCommand(words) {
          ok := RunCommand(sender, frame, words);
        } else {
          TokensAreLineFree(frame);
          ok, reached := Broadcast(sender, words);
        }
      }
    }

    /** Take the frame that ends at `newline` out of the buffer. */
    method CutFrame(client: ClientConnection, newline: nat) returns (frame: Bytes)
      requires Wired() && Live(client) && newline < |client.inputBuffer|
      modifies client`inputBuffer, client`frames
      ensures Wired() && Snapshot() == AfterCut(old(Snapshot()), client.fd, newline)
      ensures frame == StripCr(old(client.inputBuffer[..newline]))
    {
      hide Wired, Snapshot, LinkOf;
      OfLive(client);
      frame := client.inputBuffer[..newline];
      client.frames := client.frames + [frame];
      client.inputBuffer := client.inputBuffer[newline + 1..];
      OnlyRecord(client);
      frame := StripCr(frame);
    }

    /** The first frame of a connection is its username: the client enters
        main-room, and everyone there is told. */
    method Authenticate(client: ClientConnection, name: Bytes, ghost s: State)
      requires Wired() && Live(client) && !client.active && LineFree(name)
      requires Inv(s, {}, {}) && Arrives(s, Snapshot(), client.fd, name)
      modifies this`clients, this`rooms, dispatcher, Range(clients)
      modifies kernel`interruptsLeft, kernel`log, kernel`taken, kernel`given
      ensures Wired() && Inv(Snapshot(), {}, {})
      ensures forall f :: f in clients ==> f in old(clients) && clients[f] == old(clients)[f]
      ensures Admitted(old(Snapshot()), Snapshot(), client.fd, name)
    {
      hide Wired, Snapshot, LinkOf, Inv, Delivers, Spares, Audience, Entered, Admitted, Arrives, JoinedText;
      OfLive(client);
      ghost var r := Snapshot();
      client.username := name;
      client.active := true;
      StaysLive(client);
      OnlyRecord(client);
      ghost var n := Snapshot();
      JoinRoom(client, MAIN_ROOM);
      ghost var e := Snapshot();
      StaysLive(client);
      ArrivalKeeps(s, r, n, e, client.fd, name);
      NotifyRoom(client.currRoom, -1, JoinedText(client.username, MAIN_ROOM), {}, {});
      AdmittedIs(r, n, e, Snapshot(), client.fd, name);
    }

    /** Drop a client that broke a limit. */
    method Expel(fd: int)
      requires Wired() && Inv(Snapshot(), {}, {}) && fd in clients
      modifies this`clients, this`rooms, dispatcher, kernel`taken, kernel`given
      ensures Wired() && Inv(Snapshot(), {}, {}) && clients == old(clients) - {fd}
      ensures Snapshot() == Dropped(old(Snapshot()), fd) && Paced(old(Snapshot()), Snapshot())
    {
      hide *;
      ghost var s := Snapshot();
      Shared();
      Disconnect(fd);
      DropKeeps(s, fd);
    }

    /** Handle the first frame in the buffer, which ends at `newline`: the
        username of a new client, or a frame of a named one. */
    method HandleFrame(client: ClientConnection, newline: nat) returns (alive: bool, ghost step: Step)
      requires Wired() && Inv(Snapshot(), {}, {}) && Live(client)
      requires newline < |client.inputBuffer| && newline == IndexOf(client.inputBuffer, LF)
      requires newline <= MAX_FRAME_BYTES
      modifies this`clients, this`rooms, dispatcher, Range(clients)
      modifies kernel`interruptsLeft, kernel`log, kernel`taken, kernel`given
      ensures Wired() && Inv(Snapshot(), {}, {})
      ensures forall f :: f in clients ==> f in old(clients) && clients[f] == old(clients)[f]
      ensures Paced(old(Snapshot()), Snapshot())
      ensures Does(old(Snapshot()), step, Snapshot()) && step.fd == client.fd
      ensures if old(client.active) then step.Framing? else step.Naming?
      ensures alive == (client.fd in clients && (step.Framing? ==> step.ok))
      ensures alive ==> Live(client) && client.active && client.inputBuffer == old(client.inputBuffer[newline + 1..])
    {
      hide *;
      var fd := client.fd;
      ghost var s := Snapshot();
      OfLive(client);
      var frame := CutFrame(client, newline);
      ghost var r := Snapshot();
      StaysLive(client);
      if !client.active {
        ArrivesIs(s, r, fd, newline);
        Authenticate(client, frame, s);
        AdmittedKeeps(s, r, Snapshot(), fd, newline, frame);
        NameIsStep(s, Snapshot(), fd, newline, frame);
        step := Naming(fd);
        alive := fd in clients;
      } else {
        CutAndLogged(s, fd, newline);
        ghost var reached;
        var ok;
        ok, reached := ProcessFrame(client, frame);
        FrameKeepsRest(s, r, Snapshot(), fd, newline, frame, ok, reached);
        FrameIsStep(s, Snapshot(), fd, newline, frame, ok, reached);
        step := Framing(fd, ok, reached);
        alive := ok && fd in clients;
      }
      Shared();
      if alive {
        StaysLive(client);
      }
    }

    /** Handle buffered frames until none is complete or the cap is reached.
        `cut` counts the frames taken from the buffer. */
    method HandleFrames(client: ClientConnection, already: nat)
      returns (framesProcessed: nat, stopped: bool, ghost cut: nat, ghost steps: seq<Step>)
      requires Wired() && Inv(Snapshot(), {}, {}) && Live(client)
      requires already < MAX_PROCESSED_FRAMES_PER_POLL
      modifies this`clients, this`rooms, dispatcher, Range(clients)
      modifies kernel`interruptsLeft, kernel`log, kernel`taken, kernel`given
      ensures Wired() && Inv(Snapshot(), {}, {})
      ensures forall f :: f in clients ==> f in old(clients) && clients[f] == old(clients)[f]
      ensures Paced(old(Snapshot()), Snapshot())
      ensures Path(old(Snapshot()), steps, Snapshot()) && About(steps, client.fd)
      ensures already <= framesProcessed <= MAX_PROCESSED_FRAMES_PER_POLL
      ensures cut <= framesProcessed - already + (if old(client.active) then 0 else 1)
      // the counts are those of the steps
      ensures FramesOnly(steps)
      ensures framesProcessed == already + Framings(steps) && cut == Framings(steps) + Namings(steps)
      ensures stopped == Ended(steps, Snapshot(), client.fd)
      ensures !stopped ==> Live(client) && (client.active || (!old(client.active) && cut == 0))
      ensures !stopped && framesProcessed < MAX_PROCESSED_FRAMES_PER_POLL ==>
        LF !in client.inputBuffer && |client.inputBuffer| <= MAX_FRAME_BYTES
    {
      hide *;
      ghost var s := Snapshot();
      PacedSame(s);
      NoSteps(s, client.fd);
      NoFrames();
      Goes([], client);
      framesProcessed, cut, steps := already, 0, [];
      OfLive(client);
      while framesProcessed < MAX_PROCESSED_FRAMES_PER_POLL
        invariant Wired() && Inv(Snapshot(), {}, {}) && Live(client) && Paced(s, Snapshot())
        invariant forall f :: f in clients ==> f in old(clients) && clients[f] == old(clients)[f]
        invariant Path(s, steps, Snapshot()) && About(steps, client.fd)
        invariant already <= framesProcessed <= MAX_PROCESSED_FRAMES_PER_POLL
        invariant cut <= framesProcessed - already + (if old(client.active) then 0 else 1)
        invariant FramesOnly(steps) && !Ended(steps, Snapshot(), client.fd)
        invariant framesProcessed == already + Framings(steps) && cut == Framings(steps) + Namings(steps)
        invariant client.active || (!old(client.active) && cut == 0 && framesProcessed == already)
        decreases |client.inputBuffer|
      {
        ghost var t := Snapshot();
        OfLive(client);
        RangeShrinks(clients, old(clients));
        var newline := IndexOf(client.inputBuffer, LF);
        if newline == |client.inputBuffer| {
          if |client.inputBuffer| > MAX_FRAME_BYTES {
            ExpelIsStep(t, client.fd);
            Expel(client.fd);
            PacedTransitive(s, t, Snapshot());
            OneMoreStep(s, steps, t, Expelling(client.fd), Snapshot());
            OneMoreFrame(steps, Expelling(client.fd));
            Gone(steps + [Expelling(client.fd)], client.fd);
            return framesProcessed, true, cut, steps + [Expelling(client.fd)];
          }
          return framesProcessed, false, cut, steps;
        }
        if newline > MAX_FRAME_BYTES {
          ExpelIsStep(t, client.fd);
          Expel(client.fd);
          PacedTransitive(s, t, Snapshot());
          OneMoreStep(s, steps, t, Expelling(client.fd), Snapshot());
          OneMoreFrame(steps, Expelling(client.fd));
          Gone(steps + [Expelling(client.fd)], client.fd);
          return framesProcessed, true, cut, steps + [Expelling(client.fd)];
        }
        cut := cut + 1;
        if client.active {
          framesProcessed := framesProcessed + 1;
        }
        ghost var step;
        var alive;
        alive, step := HandleFrame(client, newline);
        PacedTransitive(s, t, Snapshot());
        OneMoreStep(s, steps, t, step, Snapshot());
        OneMoreFrame(steps, step);
        LastStep(steps, step, client.fd);
        steps := steps + [step];
        if !alive {
          return framesProcessed, true, cut, steps;
        }
      }
      stopped := false;
    }

    /** With the client there and no frame that asked to stop, reading goes on. */
    lemma Goes(steps: seq<Step>, client: ClientConnection)
      requires Wired() && Live(client) && steps == []
      ensures !Ended(steps, Snapshot(), client.fd)
    {
    }

    lemma Gone(steps: seq<Step>, fd: int)
      requires Wired() && fd !in clients
      ensures Ended(steps, Snapshot(), fd)
    {
    }

    lemma LastStep(steps: seq<Step>, step: Step, fd: int)
      requires Wired()
      ensures Ended(steps + [step], Snapshot(), fd) == (fd !in clients || (step.Framing? && !step.ok))
    {
    }

    /** `recv` once, appending what arrives to the client's buffer. */
    method ReceiveOnce(client: ClientConnection) returns (r: ReceiveResult)
      requires Wired() && Live(client)
      modifies client`inputBuffer, kernel`given, kernel`totalGiven, kernel`receives
      ensures Wired()
      ensures Snapshot() == if r.Received? then Fed(old(Snapshot()), client.fd, r.data) else old(Snapshot())
      ensures r.Received? ==> 1 <= |r.data| <= MAX_DATA_SIZE && client.inputBuffer == old(client.inputBuffer) + r.data
      ensures !r.Received? ==> client.inputBuffer == old(client.inputBuffer)
      ensures kernel.totalGiven == old(kernel.totalGiven) + (if r.Received? then |r.data| else 0)
      ensures kernel.receives == old(kernel.receives) + [(client.fd, r)]
    {
      hide Snapshot;
      ghost var s := Snapshot();
      OfLive(client);
      Shared();
      r := kernel.Receive(client.fd, MAX_DATA_SIZE);
      if r.Received? {
        client.inputBuffer := client.inputBuffer + r.data;
        SnapshotReplaced(client);
      } else {
        OnlyRooms();
      }
    }

    /** The connection ended: tell the room, then drop the client. */
    method CloseClient(client: ClientConnection)
      requires Wired() && Inv(Snapshot(), {}, {}) && Live(client)
      modifies this`clients, this`rooms, dispatcher, Range(clients)
      modifies kernel`interruptsLeft, kernel`log, kernel`taken, kernel`given
      ensures Wired() && Inv(Snapshot(), {}, {})
      ensures forall f :: f in clients ==> f in old(clients) && clients[f] == old(clients)[f]
      ensures Parted(old(Snapshot()), Snapshot(), client.fd, ClosedText(old(client.username)))
      ensures Paced(old(Snapshot()), Snapshot())
    {
      hide *;
      ghost var s, message := Snapshot(), ClosedText(client.username);
      OfLive(client);
      NamesAreLineFree(s, client.fd, {}, {});
      TextsPosted(client.username, []);
      Part(client, ClosedText(client.username), {});
      PartedPaced(s, Snapshot(), client.fd, message);
    }

    /** Check the buffer limit after a read, then handle complete frames. */
    method TakeIn(client: ClientConnection, already: nat, ghost s: State, ghost data: Bytes)
      returns (framesProcessed: nat, stopped: bool, ghost cut: nat, ghost steps: seq<Step>)
      requires Wired() && Live(client) && already < MAX_PROCESSED_FRAMES_PER_POLL
      requires Inv(s, {}, {}) && client.fd in s.clients && Snapshot() == Fed(s, client.fd, data) && data != []
      modifies this`clients, this`rooms, dispatcher, Range(clients)
      modifies kernel`interruptsLeft, kernel`log, kernel`taken, kernel`given
      ensures Wired() && Inv(Snapshot(), {}, {})
      ensures forall f :: f in clients ==> f in old(clients) && clients[f] == old(clients)[f]
      ensures Paced(s, Snapshot())
      ensures Path(s, steps, Snapshot()) && About(steps, client.fd)
      ensures already <= framesProcessed <= MAX_PROCESSED_FRAMES_PER_POLL
      ensures cut <= framesProcessed - already + (if old(client.active) then 0 else 1)
      ensures framesProcessed == already + Framings(steps) && cut == Framings(steps) + Namings(steps)
      ensures RoundRead(client.fd, Received(data), steps, stopped, Snapshot())
      ensures !stopped ==> Live(client) && (client.active || (!old(client.active) && cut == 0))
      ensures !stopped && framesProcessed < MAX_PROCESSED_FRAMES_PER_POLL ==>
        LF !in client.inputBuffer && |client.inputBuffer| <= MAX_FRAME_BYTES
    {
      hide *;
      ghost var t, fed := Snapshot(), Feeding(client.fd, data);
      OfLive(client);
      FeedIsStep(s, client.fd, data);
      SingleStep(s, fed, t);
      if |client.inputBuffer| > MAX_INPUT_BUFFER_BYTES {
        OverfedDropped(s, client.fd, data);
        ExpelIsStep(t, client.fd);
        Disconnect(client.fd);
        OneMoreStep(s, [fed], t, Expelling(client.fd), Snapshot());
        NoFrames();
        OneMoreFrame([], Expelling(client.fd));
        assert [] + [Expelling(client.fd)] == [Expelling(client.fd)];
        Gone([Expelling(client.fd)], client.fd);
        Shared();
        FedThenFrames(client.fd, data, [Expelling(client.fd)], true, Snapshot());
        return already, true, 0, [fed] + [Expelling(client.fd)];
      }
      FedKeeps(s, client.fd, data);
      framesProcessed, stopped, cut, steps := HandleFrames(client, already);
      PacedTransitive(s, t, Snapshot());
      PathsJoin(s, [fed], t, steps, Snapshot());
      FedThenFrames(client.fd, data, steps, stopped, Snapshot());
      steps := [fed] + steps;
    }

    /** One `recv` and the handling of what it completed. `again` says that
        reading goes on; `stopped` that a handler, a limit or the peer ended it. */
    method ReadRound(client: ClientConnection, already: nat)
      returns (count: nat, framesProcessed: nat, again: bool, ghost stopped: bool, ghost cut: nat,
               ghost steps: seq<Step>, ghost answer: ReceiveResult)
      requires Wired() && Inv(Snapshot(), {}, {}) && Live(client) && already < MAX_PROCESSED_FRAMES_PER_POLL
      modifies this`clients, this`rooms, dispatcher, Range(clients), kernel`interruptsLeft
      modifies kernel`log, kernel`taken, kernel`given, kernel`totalGiven, kernel`receives
      ensures Wired() && Inv(Snapshot(), {}, {})
      ensures forall f :: f in clients ==> f in old(clients) && clients[f] == old(clients)[f]
      ensures Paced(old(Snapshot()), Snapshot())
      ensures Path(old(Snapshot()), steps, Snapshot()) && About(steps, client.fd)
      ensures count <= MAX_DATA_SIZE && kernel.totalGiven == old(kernel.totalGiven) + count
      ensures already <= framesProcessed <= MAX_PROCESSED_FRAMES_PER_POLL
      ensures cut <= framesProcessed - already + (if old(client.active) then 0 else 1)
      ensures framesProcessed == already + Framings(steps) && cut == Framings(steps) + Namings(steps)
      ensures kernel.receives == old(kernel.receives) + [(client.fd, answer)]
      ensures RoundRead(client.fd, answer, steps, stopped, Snapshot())
      ensures count == if answer.Received? then |answer.data| else 0
      ensures again <==> answer.Received? && !stopped
      ensures again ==> count > 0 && !stopped
      ensures !stopped ==> Live(client) && (client.active || (!old(client.active) && cut == 0))
      ensures !stopped && !again ==>
        count == 0 && framesProcessed == already && client.inputBuffer == old(client.inputBuffer)
      ensures again && framesProcessed < MAX_PROCESSED_FRAMES_PER_POLL ==>
        LF !in client.inputBuffer && |client.inputBuffer| <= MAX_FRAME_BYTES
    {
      hide *;
      ghost var t := Snapshot();
      PacedSame(t);
      OfLive(client);
      var r := ReceiveOnce(client);
      count, framesProcessed, again, stopped, cut, steps, answer := 0, already, false, false, 0, [], r;
      NoSteps(t, client.fd);
      NoFrames();
      StaysLive(client);
      match r
      case Received(data) =>
        count := |data|;
        var done;
        framesProcessed, done, cut, steps := TakeIn(client, already, t, data);
        again, stopped := !done, done;
      case NothingToRead =>
        NothingCame(client.fd, Snapshot());
      case _ =>
        CloseClient(client);
        CloseIsStep(t, Snapshot(), client.fd);
        HungUp(t, r, client.fd, Snapshot());
        SingleStep(t, Closing(client.fd), Snapshot());
        steps := [Closing(client.fd)];
        stopped := true;
    }

    /** Read from a client and handle its frames, within the read budgets. */
    method HandleRead(fd: int)
      returns (ghost outcome: ReadOutcome, ghost steps: seq<Step>, ghost answers: seq<(int, ReceiveResult)>)
      requires Wired() && Inv(Snapshot(), {}, {})
      modifies this`clients, this`rooms, dispatcher, Range(clients), kernel`interruptsLeft
      modifies kernel`log, kernel`taken, kernel`given, kernel`totalGiven, kernel`receives
      ensures Wired() && Inv(Snapshot(), {}, {})
      ensures forall f :: f in clients ==> f in old(clients) && clients[f] == old(clients)[f]
      ensures Paced(old(Snapshot()), Snapshot())
      ensures Path(old(Snapshot()), steps, Snapshot()) && About(steps, fd)
      ensures fd !in old(clients) ==>
        Snapshot() == old(Snapshot()) && outcome == ReadOutcome(0, 0, 0, true) && steps == [] && answers == []
      // the kernel was asked, and everything it gave was counted and handled
      ensures kernel.receives == old(kernel.receives) + answers
      ensures fd in old(clients) ==> Reading(fd, answers, steps, outcome, Snapshot())
      // at most 8191 bytes, one more read, 32 frames and a username
      ensures kernel.totalGiven == old(kernel.totalGiven) + outcome.received
      ensures outcome.received < MAX_BYTES_READ_PER_POLL + MAX_DATA_SIZE
      ensures outcome.handled <= MAX_PROCESSED_FRAMES_PER_POLL && outcome.cut <= outcome.handled + 1
      // below the frame cap only an incomplete, short frame stays buffered
      ensures !outcome.stopped ==> fd in clients
      ensures !outcome.stopped && outcome.received > 0 && outcome.handled < MAX_PROCESSED_FRAMES_PER_POLL ==>
        LF !in clients[fd].inputBuffer && |clients[fd].inputBuffer| <= MAX_FRAME_BYTES
    {
      hide *;
      ghost var s := Snapshot();
      PacedSame(s);
      Shared();
      Limits();
      outcome, steps, answers := ReadOutcome(0, 0, 0, true), [], [];
      NoSteps(s, fd);
      if fd !in clients {
        assert kernel.receives + answers == kernel.receives;
        return;
      }
      var client := clients[fd];
      Found(fd);
      NothingRead(fd, s);
      NoFrames();
      NoData();
      assert kernel.receives + [] == kernel.receives;
      var bytesRead: nat, framesProcessed: nat, again := 0, 0, true;
      ghost var cut: nat, stopped := 0, false;
      while again && bytesRead < MAX_BYTES_READ_PER_POLL && framesProcessed < MAX_PROCESSED_FRAMES_PER_POLL
        invariant Wired() && Inv(Snapshot(), {}, {}) && Paced(s, Snapshot())
        invariant Path(s, steps, Snapshot()) && About(steps, fd)
        invariant forall f :: f in clients ==> f in old(clients) && clients[f] == old(clients)[f]
        invariant kernel.receives == old(kernel.receives) + answers
        invariant AllRead(fd, answers, steps, stopped, Snapshot())
        invariant framesProcessed == Framings(steps) && cut == Framings(steps) + Namings(steps)
        invariant bytesRead == |DataOf(answers)|
        invariant answers == [] ==> bytesRead == 0 && framesProcessed == 0 && !stopped
        invariant again <==> !stopped && (answers == [] || answers[|answers| - 1].1.Received?)
        invariant !stopped ==> Live(client) && client.fd in clients && clients[client.fd] == client
        invariant bytesRead < MAX_BYTES_READ_PER_POLL + MAX_DATA_SIZE
        invariant kernel.totalGiven == old(kernel.totalGiven) + bytesRead
        invariant framesProcessed <= MAX_PROCESSED_FRAMES_PER_POLL
        invariant cut <= framesProcessed + (if stopped || client.active then 1 else 0)
        invariant !stopped && bytesRead > 0 && framesProcessed < MAX_PROCESSED_FRAMES_PER_POLL ==>
          LF !in client.inputBuffer && |client.inputBuffer| <= MAX_FRAME_BYTES
        decreases again, MAX_BYTES_READ_PER_POLL - bytesRead
      {
        ghost var t := Snapshot();
        RangeShrinks(clients, old(clients));
        var count;
        ghost var more, round, answer;
        count, framesProcessed, again, stopped, more, round, answer := ReadRound(client, framesProcessed);
        bytesRead, cut := bytesRead + count, cut + more;
        PathsJoin(s, steps, t, round, Snapshot());
        OneMoreRead(fd, answers, steps, t, answer, round, stopped, Snapshot());
        DataAppend(answers, (fd, answer));
        CountsAdd(steps, round);
        Assoc(old(kernel.receives), answers, [(fd, answer)]);
        answers, steps := answers + [(fd, answer)], steps + round;
        PacedTransitive(s, t, Snapshot());
        if !stopped {
          OfLive(client);
        }
      }
      outcome := ReadOutcome(bytesRead, framesProcessed, cut, stopped);
      ReadingIs(fd, answers, steps, outcome, Snapshot());
    }

    lemma Found(fd: int)
      requires Wired() && fd in clients
      ensures clients[fd].fd == fd && Live(clients[fd]) && clients[fd] in Range(clients)
    {
    }

    // --------------------------------------------------------------- accepting

    /** A registered newcomer. */
    twostate predicate Added(new client: ClientConnection)
      reads *
    {
      && client.fd !in old(clients) && client.fd != listener && client.fd >= 0
      && clients == old(clients)[client.fd := client] && rooms == old(rooms)
      && dispatcher.interest == old(dispatcher.interest)[client.fd := false]
      && kernel.taken == old(kernel.taken)[client.fd := []] && kernel.given == old(kernel.given)[client.fd := []]
      && kernel.log == old(kernel.log) && dispatcher.refusals == old(dispatcher.refusals)
      && clock.serverIteration == old(clock.serverIteration)
      && (forall f :: f in old(clients) ==> old(clients)[f].View() == old(clients[f].View()))
      && client.View() == NewLink(client.fd).conn
    }

    twostate lemma AddedIsWired(new client: ClientConnection)
      requires old(Wired()) && Added(client)
      ensures Wired() && Live(client) && LinkOf(client.fd) == NewLink(client.fd)
      ensures Snapshot().rooms == old(Snapshot()).rooms && Snapshot().now == old(Snapshot()).now
    {
    }

    twostate lemma AddedLinkSame(new client: ClientConnection, f: int)
      requires old(Wired()) && Added(client) && Wired() && f in old(clients)
      ensures f in clients && f != client.fd && LinkOf(f) == old(LinkOf(f))
    {
    }

    twostate lemma AddedLinks(new client: ClientConnection)
      requires old(Wired()) && Added(client) && Wired()
      requires LinkOf(client.fd) == NewLink(client.fd)
      ensures Snapshot().clients == old(Snapshot()).clients[client.fd := NewLink(client.fd)]
    {
      hide Wired, LinkOf, NewLink;
      var m := old(Snapshot()).clients[client.fd := NewLink(client.fd)];
      assert Snapshot().clients.Keys == m.Keys by { hide Wired, LinkOf, NewLink; }
      forall f | f in m ensures f in Snapshot().clients && Snapshot().clients[f] == m[f] {
        if f != client.fd {
          AddedLinkSame(client, f);
        }
      }
    }

    lemma WiredKeys()
      requires Wired()
      ensures listener !in clients && dispatcher.interest.Keys == clients.Keys + {listener}
      ensures kernel.taken.Keys == clients.Keys && kernel.given.Keys == clients.Keys
    {
    }

    /** One `accept`. A new connection is registered and prompted for a
        username; if either fails it is closed again. */
    method AcceptOnce() returns (again: bool, ghost answer: AcceptResult)
      requires Wired() && Inv(Snapshot(), {}, {})
      modifies this`clients, this`rooms, dispatcher, kernel`interruptsLeft, kernel`arrivalsLeft
      modifies kernel`log, kernel`taken, kernel`given, kernel`accepts
      ensures Wired() && Inv(Snapshot(), {}, {})
      ensures forall f :: f in old(clients) ==> f in clients && clients[f] == old(clients)[f]
      ensures forall f :: f in clients && f !in old(clients) ==> fresh(clients[f])
      ensures Welcomed(old(Snapshot()), Snapshot())
      ensures kernel.accepts == old(kernel.accepts) + [answer]
      ensures Accounted(old(Snapshot()), [answer], Snapshot())
      ensures again <==> answer.Accepted? || answer.AcceptInterrupted?
      ensures again ==>
        || kernel.arrivalsLeft < old(kernel.arrivalsLeft)
        || (kernel.arrivalsLeft == old(kernel.arrivalsLeft) && kernel.interruptsLeft < old(kernel.interruptsLeft))
    {
      hide *;
      ghost var s := Snapshot();
      Shared();
      var fd, added;
      fd, added, again, answer := AcceptSocket();
      if added {
        var client := new ClientConnection(fd);
        clients := clients[fd := client];
        NewcomerAdded(client);
        Prompt(client, s);
        AddedThenRemoved(old(clients), fd, client);
      } else {
        LogIsFree(s, Snapshot());
      }
    }

    /** Accept a connection and register it; one that cannot be registered is
        closed. */
    method AcceptSocket() returns (fd: int, added: bool, again: bool, ghost answer: AcceptResult)
      requires Wired()
      modifies dispatcher, kernel`interruptsLeft, kernel`arrivalsLeft, kernel`taken, kernel`given, kernel`accepts
      ensures kernel.accepts == old(kernel.accepts) + [answer]
      ensures again <==> answer.Accepted? || answer.AcceptInterrupted?
      ensures !added ==> Wired() && Snapshot() == old(Snapshot()).(log := Snapshot().log)
      ensures !added ==> Welcomed(old(Snapshot()), Snapshot()) && Accounted(old(Snapshot()), [answer], Snapshot())
      ensures added ==>
        && fd >= 0 && fd != listener && fd !in clients && answer == Accepted(fd)
        && dispatcher.interest == old(dispatcher.interest)[fd := false]
        && kernel.taken == old(kernel.taken)[fd := []] && kernel.given == old(kernel.given)[fd := []]
        && dispatcher.refusals == old(dispatcher.refusals) && kernel.arrivalsLeft < old(kernel.arrivalsLeft)
      ensures again ==>
        || kernel.arrivalsLeft < old(kernel.arrivalsLeft)
        || (kernel.arrivalsLeft == old(kernel.arrivalsLeft) && kernel.interruptsLeft < old(kernel.interruptsLeft))
    {
      hide *;
      WiredKeys();
      Shared();
      fd, added := -1, false;
      var r := kernel.Accept(listener);
      again, answer := r.Accepted? || r.AcceptInterrupted?, r;
      if r.Accepted? {
        fd := r.fd;
        added := dispatcher.Add(fd);
        if !added {
          kernel.Close(fd);
          AddedThenRemoved(old(kernel.taken), fd, []);
          AddedThenRemoved(old(kernel.given), fd, []);
        }
      }
      if !added {
        ghost var s := old(Snapshot());
        OnlyRefused(if r.Accepted? then multiset{fd} else multiset{});
        NobodyAccounted(s, Snapshot(), r);
      }
    }

    /** Nothing changed but that a call of the dispatcher was refused. */
    twostate lemma OnlyRefused(refused: multiset<int>)
      requires old(Wired()) && clients == old(clients) && rooms == old(rooms)
      requires dispatcher.interest == old(dispatcher.interest)
      requires kernel.taken == old(kernel.taken) && kernel.given == old(kernel.given)
      requires kernel.log == old(kernel.log) && dispatcher.refusals == old(dispatcher.refusals) + refused
      requires dispatcher.reliable ==> refused == multiset{}
      requires clock.serverIteration == old(clock.serverIteration)
      requires forall f :: f in clients ==> clients[f].View() == old(clients[f].View())
      ensures Wired() && Snapshot() == old(Snapshot()).(log := Snapshot().log)
      ensures Snapshot().log.broken == old(Snapshot()).log.broken + refused
    {
      assert Snapshot().clients == old(Snapshot()).clients;
    }

    twostate lemma NewcomerAdded(new client: ClientConnection)
      requires old(Wired()) && client.fd !in old(clients) && client.fd != listener && client.fd >= 0
      requires clients == old(clients)[client.fd := client] && rooms == old(rooms)
      requires dispatcher.interest == old(dispatcher.interest)[client.fd := false]
      requires kernel.taken == old(kernel.taken)[client.fd := []] && kernel.given == old(kernel.given)[client.fd := []]
      requires kernel.log == old(kernel.log) && dispatcher.refusals == old(dispatcher.refusals)
      requires clock.serverIteration == old(clock.serverIteration)
      requires forall f :: f in old(clients) ==> old(clients)[f].View() == old(clients[f].View())
      requires client.View() == Connection(client.fd, [], 0, false, [], [], [], NO_OUTPUT)
      ensures Wired() && Live(client)
      ensures Snapshot() == WithNewcomer(old(Snapshot()), client.fd)
    {
      AddedIsWired(client);
      AddedLinks(client);
    }

    /** Ask a newcomer for its username, or drop it again. */
    method Prompt(client: ClientConnection, ghost s: State)
      requires Wired() && Live(client) && Inv(s, {}, {}) && client.fd !in s.clients && client.fd >= 0
      requires Snapshot() == WithNewcomer(s, client.fd)
      modifies this`clients, this`rooms, dispatcher, client
      modifies kernel`interruptsLeft, kernel`log, kernel`taken, kernel`given
      ensures Wired() && Inv(Snapshot(), {}, {})
      ensures Welcomed(s, Snapshot()) && Accounted(s, [Accepted(client.fd)], Snapshot())
      ensures clients == old(clients) || clients == old(clients) - {client.fd}
    {
      hide *;
      var fd := client.fd;
      ghost var a := Snapshot();
      OfLive(client);
      NewcomerLive(s, fd);
      Shared();
      var ok := GiveOrDrop(fd, PROMPT);
      PromptedKeeps(s, a, Snapshot(), fd);
    }

    /** Accept until nothing is waiting or `accept` fails. */
    method AcceptConnections() returns (ghost answers: seq<AcceptResult>)
      requires Wired() && Inv(Snapshot(), {}, {})
      modifies this`clients, this`rooms, dispatcher, kernel`interruptsLeft, kernel`arrivalsLeft
      modifies kernel`log, kernel`taken, kernel`given, kernel`accepts
      ensures Wired() && Inv(Snapshot(), {}, {})
      ensures forall f :: f in old(clients) ==> f in clients && clients[f] == old(clients)[f]
      ensures forall f :: f in clients && f !in old(clients) ==> fresh(clients[f])
      ensures kernel.accepts == old(kernel.accepts) + answers
      ensures Accepting(old(Snapshot()), answers, Snapshot())
    {
      hide *;
      ghost var s := Snapshot();
      NobodyWelcomed(s);
      var again := true;
      answers := [];
      assert kernel.accepts + answers == kernel.accepts;
      while again
        invariant Wired() && Inv(Snapshot(), {}, {}) && Welcomed(s, Snapshot())
        invariant forall f :: f in old(clients) ==> f in clients && clients[f] == old(clients)[f]
        invariant forall f :: f in clients && f !in old(clients) ==> fresh(clients[f])
        invariant kernel.accepts == old(kernel.accepts) + answers && Accounted(s, answers, Snapshot())
        invariant forall i :: 0 <= i < |answers| - 1 ==> answers[i].Accepted? || answers[i].AcceptInterrupted?
        invariant again <==>
          answers == [] || answers[|answers| - 1].Accepted? || answers[|answers| - 1].AcceptInterrupted?
        decreases again, kernel.arrivalsLeft, kernel.interruptsLeft
      {
        ghost var t := Snapshot();
        ghost var answer;
        again, answer := AcceptOnce();
        WelcomedBoth(s, t, Snapshot());
        AccountedBoth(s, t, Snapshot(), answers, [answer]);
        Assoc(old(kernel.accepts), answers, [answer]);
        answers := answers + [answer];
      }
      AcceptingIs(s, answers, Snapshot());
    }

    // ------------------------------------------------------------------ events

    /** Flush a writable client; if that fails it is announced and dropped. */
    method HandleWritable(client: ClientConnection)
      requires Wired() && Inv(Snapshot(), {}, {}) && Live(client)
      modifies this`clients, this`rooms, dispatcher, Range(clients)
      modifies kernel`interruptsLeft, kernel`log, kernel`taken, kernel`given
      ensures Wired() && Inv(Snapshot(), {}, {})
      ensures forall f :: f in clients ==> f in old(clients) && clients[f] == old(clients)[f]
      ensures FlushDone(old(Snapshot()), Snapshot(), client.fd)
    {
      hide *;
      ghost var s := Snapshot();
      OfLive(client);
      Shared();
      LinkFacts(s, client.fd, {}, {});
      NamesAreLineFree(s, client.fd, {}, {});
      ghost var before := LinkOf(client.fd);
      var ok := FlushOutput(client);
      ghost var t := Snapshot();
      StaysLive(client);
      Shared();
      TroubledIs(s, t, client.fd);
      SentKeepsName(before, LinkOf(client.fd), clock.serverIteration);
      FlushedKeeps(s, t, client.fd, LinkOf(client.fd), ok);
      TextsPosted(client.username, []);
      if !ok {
        Part(client, ClosedText(client.username), {client.fd});
      }
      FlushIs(s, t, Snapshot(), client.fd, ok);
    }

    /** The listener is ready. */
    method HandleListener(event: ReadyEvent) returns (ghost steps: seq<Step>, ghost done: Handled)
      requires Wired() && Inv(Snapshot(), {}, {}) && event.fd == listener
      modifies this`clients, this`rooms, dispatcher, kernel, Range(clients)
      ensures Wired() && Inv(Snapshot(), {}, {})
      ensures forall f :: f in clients ==> (f in old(clients) && clients[f] == old(clients)[f]) || fresh(clients[f])
      ensures Paced(old(Snapshot()), Snapshot())
      ensures Path(old(Snapshot()), steps, Snapshot()) && About(steps, event.fd)
      ensures EventMeans(event, listener, done) && steps == StepsOf(event, listener, done)
      ensures done.before == old(Snapshot()) && done.after == Snapshot()
      ensures kernel.receives == old(kernel.receives) + done.answers
      ensures kernel.accepts == old(kernel.accepts) + done.accepts
    {
      hide *;
      ghost var s := Snapshot();
      PacedSame(s);
      Shared();
      steps := [];
      NoSteps(s, event.fd);
      ghost var accepts := [];
      assert kernel.receives + [] == kernel.receives && kernel.accepts + [] == kernel.accepts;
      if event.read {
        accepts := AcceptConnections();
        AcceptingMeans(s, accepts, Snapshot());
        WelcomedPaced(s, Snapshot());
        WelcomeIsStep(s, Snapshot(), event.fd);
        steps := [Welcoming(event.fd, Snapshot().clients.Keys - s.clients.Keys)];
        SingleStep(s, steps[0], Snapshot());
      }
      done := Handled(s, steps, ReadOutcome(0, 0, 0, true), [], accepts, Snapshot(), Snapshot());
      ListenerHandled(event, listener, done);
    }

    /** A client's descriptor is ready. */
    method HandleClient(event: ReadyEvent) returns (ghost steps: seq<Step>, ghost done: Handled)
      requires Wired() && Inv(Snapshot(), {}, {}) && event.fd != listener
      modifies this`clients, this`rooms, dispatcher, kernel, Range(clients)
      ensures Wired() && Inv(Snapshot(), {}, {})
      ensures forall f :: f in clients ==> (f in old(clients) && clients[f] == old(clients)[f]) || fresh(clients[f])
      ensures Paced(old(Snapshot()), Snapshot())
      ensures Path(old(Snapshot()), steps, Snapshot()) && About(steps, event.fd)
      ensures EventMeans(event, listener, done) && steps == StepsOf(event, listener, done)
      ensures done.before == old(Snapshot()) && done.after == Snapshot()
      ensures kernel.receives == old(kernel.receives) + done.answers
      ensures kernel.accepts == old(kernel.accepts) + done.accepts
    {
      hide *;
      ghost var s := Snapshot();
      PacedSame(s);
      Shared();
      steps := [];
      NoSteps(s, event.fd);
      ghost var outcome, answers := ReadOutcome(0, 0, 0, true), [];
      assert kernel.receives + [] == kernel.receives && kernel.accepts + [] == kernel.accepts;
      if event.read || event.error {
        outcome, steps, answers := HandleRead(event.fd);
      }
      ghost var t := Snapshot();
      Shared();
      done := Handled(s, steps, outcome, answers, [], t, t);
      if event.write && event.fd in clients {
        RangeShrinks(clients, old(clients));
        Found(event.fd);
        HandleWritable(clients[event.fd]);
        FlushPaced(t, Snapshot(), event.fd);
        FlushIsStep(t, Snapshot(), event.fd);
        OneMoreStep(s, steps, t, Flushing(event.fd), Snapshot());
        steps := steps + [Flushing(event.fd)];
        PacedTransitive(s, t, Snapshot());
        done := done.(after := Snapshot());
      }
      ClientHandled(event, listener, done, steps);
    }

    /** One readiness event. */
    method HandleEvent(event: ReadyEvent) returns (ghost steps: seq<Step>, ghost done: Handled)
      requires Wired() && Inv(Snapshot(), {}, {})
      modifies this`clients, this`rooms, dispatcher, kernel, Range(clients)
      ensures Wired() && Inv(Snapshot(), {}, {})
      ensures forall f :: f in clients ==> (f in old(clients) && clients[f] == old(clients)[f]) || fresh(clients[f])
      ensures Paced(old(Snapshot()), Snapshot())
      ensures Path(old(Snapshot()), steps, Snapshot()) && About(steps, event.fd)
      // the event was handled as it means, and the kernel asked accordingly
      ensures EventMeans(event, listener, done) && steps == StepsOf(event, listener, done)
      ensures done.before == old(Snapshot()) && done.after == Snapshot()
      ensures kernel.receives == old(kernel.receives) + done.answers
      ensures kernel.accepts == old(kernel.accepts) + done.accepts
      ensures event.fd in old(clients) ==> (event.read || event.error <==> kernel.receives != old(kernel.receives))
      ensures event.write && event.fd in clients && event.fd != listener ==>
        steps != [] && steps[|steps| - 1] == Flushing(event.fd)
      ensures event.fd in old(clients) && event.write && !event.read && !event.error ==> steps == [Flushing(event.fd)]
      ensures event.fd == listener ==>
        if event.read then Welcomed(old(Snapshot()), Snapshot()) else Snapshot() == old(Snapshot())
      ensures event.fd != listener && event.fd !in old(clients) ==> Snapshot() == old(Snapshot())
      ensures event.fd in old(clients) && !event.read && !event.error ==>
        if event.write then FlushDone(old(Snapshot()), Snapshot(), event.fd) else Snapshot() == old(Snapshot())
    {
      hide *;
      WiredKeys();
      Shared();
      if event.fd == listener {
        steps, done := HandleListener(event);
        ListenerMeans(event, listener, done);
      } else {
        steps, done := HandleClient(event);
        ClientMeans(event, listener, done);
      }
      Shared();
    }

    /** One round of the main loop: a new iteration, then the ready events in
        order, each handled as it means. In one iteration no connection is sent
        more than 8192 bytes. */
    method ServeBatch(ready: seq<ReadyEvent>) returns (ghost steps: seq<Step>, ghost served: seq<Handled>)
      requires Wired() && Inv(Snapshot(), {}, {})
      modifies this`clients, this`rooms, dispatcher, kernel, clock, Range(clients)
      ensures Wired() && Inv(Snapshot(), {}, {})
      ensures forall f :: f in clients ==> (f in old(clients) && clients[f] == old(clients)[f]) || fresh(clients[f])
      ensures WithinBudget(old(Snapshot()), Snapshot())
      ensures Path(old(Snapshot()), steps, Snapshot()) && InBatch(steps, ready)
      ensures BatchServed(old(Snapshot()), ready, listener, served, Snapshot())
      ensures steps == [Ticking(0)] + AllSteps(ready, listener, served)
      ensures kernel.receives == old(kernel.receives) + AllAnswers(served)
      ensures kernel.accepts == old(kernel.accepts) + AllAccepts(served)
    {
      hide *;
      ghost var s := Snapshot();
      Shared();
      clock.BeginServerIteration();
      Ticked();
      ghost var t := Snapshot();
      TickKeeps(s, t);
      PacedSame(t);
      TickIsStep(s, t);
      SingleStep(s, Ticking(0), t);
      steps, served := [Ticking(0)], [];
      OnlyTick(ready);
      NobodyServed(t, listener);
      assert ready[..0] == [] && kernel.receives + [] == kernel.receives && kernel.accepts + [] == kernel.accepts;
      for i := 0 to |ready|
        invariant Wired() && Inv(Snapshot(), {}, {}) && Paced(t, Snapshot())
        invariant Path(s, steps, Snapshot()) && InBatch(steps, ready)
        invariant forall f :: f in clients ==> (f in old(clients) && clients[f] == old(clients)[f]) || fresh(clients[f])
        invariant |served| == i && Served(t, ready[..i], listener, served, Snapshot())
        invariant steps == [Ticking(0)] + AllSteps(ready[..i], listener, served)
        invariant kernel.receives == old(kernel.receives) + AllAnswers(served)
        invariant kernel.accepts == old(kernel.accepts) + AllAccepts(served)
      {
        ghost var u := Snapshot();
        InReach(old(clients));
        ghost var more, done := HandleEvent(ready[i]);
        PacedTransitive(t, u, Snapshot());
        PathsJoin(s, steps, u, more, Snapshot());
        EventInBatch(steps, more, ready, i);
        OneMoreServed(t, ready[..i], listener, served, u, ready[i], done);
        NextEvent(ready, i);
        Assoc([Ticking(0)], AllSteps(ready[..i], listener, served), more);
        Assoc(old(kernel.receives), AllAnswers(served), done.answers);
        Assoc(old(kernel.accepts), AllAccepts(served), done.accepts);
        steps, served := steps + more, served + [done];
      }
      NextEvent(ready, |ready|);
      BudgetHolds(s, t, Snapshot());
      BatchIs(s, ready, listener, served, t, Snapshot());
    }

    twostate lemma Ticked()
      requires old(Wired()) && clients == old(clients) && rooms == old(rooms)
      requires dispatcher.interest == old(dispatcher.interest)
      requires kernel.taken == old(kernel.taken) && kernel.given == old(kernel.given)
      requires kernel.log == old(kernel.log) && dispatcher.refusals == old(dispatcher.refusals)
      requires forall f :: f in clients ==> clients[f].View() == old(clients[f].View())
      ensures Wired() && Snapshot() == old(Snapshot()).(now := clock.serverIteration)
    {
      assert Snapshot().clients == old(Snapshot()).clients;
    }

    /** Every connection is an old one or was created since. */
    twostate lemma InReach(new before: map<int, ClientConnection>)
      requires before == old(clients)
      requires forall f :: f in clients ==> (f in before && clients[f] == before[f]) || fresh(clients[f])
      ensures forall c :: c in Range(clients) ==> c in Range(before) || fresh(c)
    {
    }

    /** The main loop, over the batches that arrive before the shutdown
        signal: the invariant holds after every one, all that happened is a
        sequence of steps, and every event of every batch was handled. */
    method Run(batches: seq<seq<ReadyEvent>>) returns (ghost steps: seq<Step>, ghost rounds: seq<seq<Handled>>)
      requires Valid()
      modifies this`clients, this`rooms, dispatcher, kernel, clock, Range(clients)
      ensures Valid() && Path(old(Snapshot()), steps, Snapshot())
      ensures AllServed(old(Snapshot()), batches, listener, rounds, Snapshot())
    {
      hide *;
      ValidMeans();
      steps, rounds := [], [];
      NoSteps(Snapshot(), 0);
      NoBatches(Snapshot(), listener);
      assert batches[..0] == [];
      for i := 0 to |batches|
        invariant Wired() && Inv(Snapshot(), {}, {})
        invariant Path(old(Snapshot()), steps, Snapshot())
        invariant AllServed(old(Snapshot()), batches[..i], listener, rounds, Snapshot())
        invariant forall f :: f in clients ==> (f in old(clients) && clients[f] == old(clients)[f]) || fresh(clients[f])
      {
        InReach(old(clients));
        ghost var t := Snapshot();
        ghost var more, served := ServeBatch(batches[i]);
        PathsJoin(old(Snapshot()), steps, t, more, Snapshot());
        OneMoreBatch(old(Snapshot()), batches[..i], listener, rounds, t, batches[i], served, Snapshot());
        NextEvent(batches, i);
        steps, rounds := steps + more, rounds + [served];
      }
      NextEvent(batches, |batches|);
      ValidMeans();
    }

    lemma ValidMeans()
      ensures Valid() <==> Wired() && Inv(Snapshot(), {}, {})
    {
    }
  }
}
