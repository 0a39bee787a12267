/** What each event does to the server, stated on snapshots. */
module ServerEffects {
  import opened Text
  import opened Sockets
  import opened Rooms
  import opened Messages
  import opened ServerCommon
  import opened ServerState

  /** The commands; every other first word makes the frame a chat message. */
  predicate IsCommand(words: seq<Bytes>) {
    words != [] && words[0] in {"LIST", "JOIN", "LEAVE", "QUIT", "WHERE"}
  }

  /** The state with another record for `fd`. */
  ghost function WithConn(s: State, fd: int, c: Connection): State
    requires fd in s.clients
  {
    s.(clients := s.clients[fd := s.clients[fd].(conn := c)])
  }

  // ------------------------------------------------------------ changing room

  /** The state after `fd` entered the room called `name`. */
  ghost function Entered(s: State, fd: int, name: Bytes): State
    requires fd in s.clients
  {
    var open := WithRoom(s.rooms, name);
    var k := FindName(open, name);
    WithConn(s, fd, s.clients[fd].conn.(currRoom := open[k].roomIdx)).(rooms := Moved(open, fd, k))
  }

  lemma WhereMoved(clients: map<int, Link>, fd: int, l: Link, where: map<int, nat>)
    requires fd in clients && l.conn.active
    requires where - {fd} == Where(clients) - {fd}
    ensures Where(clients[fd := l]) == where[fd := l.conn.currRoom]
  {
    var now := Where(clients[fd := l]);
    forall f ensures f in now <==> f in where[fd := l.conn.currRoom] {
      assert f != fd ==> (f in where - {fd} <==> f in Where(clients) - {fd});
    }
    forall f | f in now ensures now[f] == where[fd := l.conn.currRoom][f] {
      if f != fd {
        assert f in where - {fd} && (where - {fd})[f] == (Where(clients) - {fd})[f];
      }
    }
  }

  lemma EnteredSeats(s: State, fd: int, name: Bytes, where: map<int, nat>)
    requires fd in s.clients && s.clients[fd].conn.active && LineFree(name)
    requires Seated(s.rooms, where, {})
    requires where - {fd} == Where(s.clients) - {fd}
    ensures var t := Entered(s, fd, name);
      && Seated(t.rooms, Where(t.clients), if fd in where then {where[fd]} else {})
      && NameOf(t.rooms, t.clients[fd].conn.currRoom) == name
  {
    hide Seated, Moved, WithRoom, NameOf;
    var open := WithRoom(s.rooms, name);
    var k := FindName(open, name);
    JoinKeeps(s.rooms, where, fd, name, open, k);
    WhereMoved(s.clients, fd, Entered(s, fd, name).clients[fd], where);
  }

  /** A client that changes room leaves everything consistent but, perhaps,
      its old room empty. */
  lemma EnteredKeeps(s: State, fd: int, name: Bytes)
    requires Inv(s, {}, {}) && fd in s.clients && s.clients[fd].conn.active && LineFree(name)
    ensures var t := Entered(s, fd, name);
      && Inv(t, {}, {s.clients[fd].conn.currRoom})
      && NameOf(t.rooms, t.clients[fd].conn.currRoom) == name
  {
    hide Seated, Moved, WithRoom, NameOf;
    EnteredSeats(s, fd, name, Where(s.clients));
  }

  // ------------------------------------------------------------ frame effects

  /** Nothing about a surviving client's input or identity changed. */
  ghost predicate InputKept(s: State, t: State) {
    forall fd :: fd in t.clients ==>
      && fd in s.clients
      && t.clients[fd].given == s.clients[fd].given
      && var c := t.clients[fd].conn;
         c == s.clients[fd].conn.(out := c.out, currRoom := c.currRoom)
  }

  /** A chat message: the members of the sender's room but the sender get one
      copy each, in list order, up to the first that cannot take it. */
  ghost predicate Broadcasted(s: State, t: State, fd: int, words: seq<Bytes>, ok: bool, reached: nat) {
    && fd in s.clients
    && var id := s.clients[fd].conn.currRoom;
    && var message := ChatText(s.clients[fd].conn.username, words);
    && FindId(s.rooms, id) < |s.rooms|
    && var list := s.rooms[FindId(s.rooms, id)].subscribed;
    && reached <= |list|
    && Delivers(s, t, FirstOf(list, reached, fd), message, id)
    && Spares(s, t, FirstOf(list, reached, fd), message)
    && if ok then
         reached == |list| && t.clients.Keys == s.clients.Keys
       else
         && reached > 0 && list[reached - 1] != fd
         && list[reached - 1] in s.clients
         && t.clients.Keys == s.clients.Keys - {list[reached - 1]}
  }

  /** The client got one more message and is now in another room. */
  ghost predicate GotAndMoved(before: Link, after: Link, message: Bytes) {
    && after.conn == before.conn.(out := after.conn.out, currRoom := after.conn.currRoom)
    && after.conn.out.outbox == before.conn.out.outbox + [message]
    && after.given == before.given
  }

  ghost function RoomName(s: State, fd: int): Bytes
    requires fd in s.clients
  {
    NameOf(s.rooms, s.clients[fd].conn.currRoom)
  }

  ghost predicate InRoom(s: State, fd: int, name: Bytes) {
    fd in s.clients && s.clients[fd].conn.active && RoomName(s, fd) == name
  }

  /** What a move of `fd` is to another client: in the room left it hears one
      notice, in the room joined another, elsewhere nothing. */
  ghost predicate OtherHears(s: State, t: State, fd: int, name: Bytes, f: int) {
    && fd in s.clients && f in s.clients
    && var user := s.clients[fd].conn.username;
    && var left, joined := LeftText(user, RoomName(s, fd)), JoinedText(user, name);
    if InRoom(s, f, RoomName(s, fd)) then
      && (f in t.clients ==> Got(s.clients[f], t.clients[f], left))
      && (f in t.clients <==> Fits(s.clients[f], left) && !Troubled(s, t, f))
    else if InRoom(s, f, name) then
      && (f in t.clients ==> Got(s.clients[f], t.clients[f], joined))
      && (f in t.clients <==> Fits(s.clients[f], joined) && !Troubled(s, t, f))
    else f in t.clients && t.clients[f] == s.clients[f] && !Troubled(s, t, f)
  }

  /** What it is to the mover: one notice, in its new room. */
  ghost predicate MoverHears(s: State, t: State, fd: int, name: Bytes) {
    && fd in s.clients
    && var joined := JoinedText(s.clients[fd].conn.username, name);
    && (fd in t.clients ==> GotAndMoved(s.clients[fd], t.clients[fd], joined))
    && (fd in t.clients <==> Fits(s.clients[fd], joined) && !Troubled(s, t, fd))
  }

  /** What it is to the lists: everyone keeps its place, except that those who
      are gone are missing and the mover ends the list of its new room. */
  ghost predicate ListsMoved(s: State, t: State, fd: int, name: Bytes) {
    forall n :: ListNamed(t.rooms, n)
      == ListAfter(ListNamed(s.rooms, n), s.clients.Keys - t.clients.Keys, fd, n == name && fd in t.clients)
  }

  ghost function ListAfter(list: seq<int>, gone: set<int>, fd: int, here: bool): seq<int> {
    Without(list, gone + {fd}) + (if here then [fd] else [])
  }

  /** `fd` moves from its room to the room called `name`: those it leaves hear
      that it left, those it joins and itself that it joined, nobody else
      hears anything, and nobody else changes room. */
  ghost predicate Relocated(s: State, t: State, fd: int, name: Bytes) {
    && fd in s.clients
    && t.clients.Keys <= s.clients.Keys
    && Paced(s, t)
    && (forall f :: f in s.clients && f != fd ==> OtherHears(s, t, fd, name, f))
    && (forall f :: f in t.clients && f != fd && t.clients[f].conn.active ==> RoomName(t, f) == RoomName(s, f))
    && MoverHears(s, t, fd, name)
    && (fd in t.clients ==> RoomName(t, fd) == name)
    && ListsMoved(s, t, fd, name)
  }

  /** Joining one's own room only moves the client to the end of its list. */
  ghost predicate Rejoined(s: State, t: State, fd: int) {
    && fd in s.clients && t.clients == s.clients && t.now == s.now
    && var k := FindId(s.rooms, s.clients[fd].conn.currRoom);
    && k < |s.rooms| && t.rooms == Moved(s.rooms, fd, k)
  }

  /** The client is gone and the rest of its room was told. */
  ghost predicate Parted(s: State, t: State, fd: int, message: Bytes) {
    && fd in s.clients && fd !in t.clients
    && var id := s.clients[fd].conn.currRoom;
    && Delivers(s, t, Audience(s, id, fd) + {fd}, message, id)
    && Spares(s, t, Audience(s, id, fd), message)
    && LoggedFor(Audience(s, id, fd), s.log, t.log)
  }

  /** The client got an answer, or is gone; nobody else noticed. */
  ghost predicate Answered(s: State, t: State, fd: int, message: Bytes, ok: bool) {
    && fd in s.clients
    && Delivers(s, t, {fd}, message, s.clients[fd].conn.currRoom)
    && Spares(s, t, {fd}, message)
    && ok == (fd in t.clients)
  }

  /** The effect of one frame from `fd`. */
  ghost predicate FrameDone(s: State, t: State, fd: int, frame: Bytes, ok: bool, reached: nat) {
    fd in s.clients &&
    var words := TokensOf(frame);
    var me := s.clients[fd].conn;
    if frame == [] then ok && t == s
    else if !IsCommand(words) then Broadcasted(s, t, fd, words, ok, reached)
    else if words[0] == "LIST" then Answered(s, t, fd, ListText(s.rooms), ok)
    else if words[0] == "JOIN" && |words| == 2 then
      ok && if RoomName(s, fd) == words[1] then Rejoined(s, t, fd) else Relocated(s, t, fd, words[1])
    else if words[0] == "LEAVE" && me.currRoom != 0 then ok && Relocated(s, t, fd, MAIN_ROOM)
    else if words[0] == "WHERE" && |words| == 1 then Answered(s, t, fd, WhereText(RoomName(s, fd)), ok)
    else if words[0] == "QUIT" then !ok && Parted(s, t, fd, QuitText(me.username))
    else ok && t == s
  }

  /** Whatever a frame does, it neither reads nor loses anyone's input, and
      takes no more than the iteration's write budget. */
  lemma FrameKeepsInput(s: State, t: State, fd: int, frame: Bytes, ok: bool, reached: nat)
    requires FrameDone(s, t, fd, frame, ok, reached)
    ensures InputKept(s, t) && Paced(s, t)
  {
    hide Delivers, Relocated, TokensOf, WhereText, ListText, QuitText, ChatText, RoomName, Paced, InputKept;
    NothingKept(s);
    if frame != [] {
      var words := TokensOf(frame);
      var me := s.clients[fd].conn;
      if !IsCommand(words) {
        var list := s.rooms[FindId(s.rooms, me.currRoom)].subscribed;
        DeliversKeepsInput(s, t, FirstOf(list, reached, fd), ChatText(me.username, words), me.currRoom);
      } else if words[0] == "LIST" {
        DeliversKeepsInput(s, t, {fd}, ListText(s.rooms), me.currRoom);
      } else if words[0] == "JOIN" && |words| == 2 {
        if RoomName(s, fd) == words[1] {
          RejoinedKeepsInput(s, t, fd);
        } else {
          RelocatedKeepsInput(s, t, fd, words[1]);
        }
      } else if words[0] == "LEAVE" && me.currRoom != 0 {
        RelocatedKeepsInput(s, t, fd, MAIN_ROOM);
      } else if words[0] == "WHERE" && |words| == 1 {
        DeliversKeepsInput(s, t, {fd}, WhereText(RoomName(s, fd)), me.currRoom);
      } else if words[0] == "QUIT" {
        DeliversKeepsInput(s, t, Audience(s, me.currRoom, fd) + {fd}, QuitText(me.username), me.currRoom);
      }
    }
  }

  lemma NothingKept(s: State)
    ensures InputKept(s, s) && Paced(s, s)
  {
  }

  lemma DeliversKeepsInput(s: State, t: State, to: set<int>, message: Bytes, id: nat)
    requires Delivers(s, t, to, message, id)
    ensures InputKept(s, t) && Paced(s, t)
  {
    hide Settle, Paced, Fits;
  }

  lemma RejoinedKeepsInput(s: State, t: State, fd: int)
    requires Rejoined(s, t, fd)
    ensures InputKept(s, t) && Paced(s, t)
  {
    hide Moved, FindId;
  }

  lemma RelocatedKeepsInput(s: State, t: State, fd: int, name: Bytes)
    requires Relocated(s, t, fd, name)
    ensures InputKept(s, t) && Paced(s, t)
  {
    hide InRoom, LeftText, JoinedText, Fits, Paced, RoomName, ListsMoved;
  }

  // --------------------------------------------------------------- room names

  /** A client's room exists. */
  lemma RoomFound(s: State, fd: int, shaky: set<int>, vacant: set<nat>)
    requires Inv(s, shaky, vacant) && fd in s.clients && s.clients[fd].conn.active
    ensures FindId(s.rooms, s.clients[fd].conn.currRoom) < |s.rooms|
  {
    MemberIsSubscribed(s, s.clients[fd].conn.currRoom, fd, vacant);
  }

  /** Two clients are in the same room exactly if their rooms have the same name. */
  lemma SameRoomSameName(s: State, f: int, g: int, shaky: set<int>, vacant: set<nat>)
    requires Inv(s, shaky, vacant)
    requires f in s.clients && s.clients[f].conn.active && g in s.clients && s.clients[g].conn.active
    ensures s.clients[f].conn.currRoom == s.clients[g].conn.currRoom <==> RoomName(s, f) == RoomName(s, g)
  {
    RoomFound(s, f, shaky, vacant);
    RoomFound(s, g, shaky, vacant);
  }

  /** A delivery renames no survivor's room. */
  lemma DeliversKeepsNames(s: State, t: State, to: set<int>, message: Bytes, id: nat, f: int,
                           shaky: set<int>, vacant: set<nat>)
    requires Inv(s, shaky, vacant) && Inv(t, shaky, vacant) && Delivers(s, t, to, message, id)
    requires f in t.clients && t.clients[f].conn.active
    ensures f in s.clients && s.clients[f].conn.active
    ensures t.clients[f].conn.currRoom == s.clients[f].conn.currRoom && RoomName(t, f) == RoomName(s, f)
  {
    RoomFound(t, f, shaky, vacant);
    RoomsAreOk(s, shaky, vacant);
    SettleKeepsNames(s.rooms, s.clients.Keys - t.clients.Keys, id, t.clients[f].conn.currRoom);
  }

  lemma EnteredKeepsNames(s: State, fd: int, name: Bytes, f: int)
    requires Inv(s, {}, {}) && fd in s.clients && LineFree(name)
    requires f in s.clients && f != fd && s.clients[f].conn.active
    ensures RoomName(Entered(s, fd, name), f) == RoomName(s, f)
  {
    RoomFound(s, f, {}, {});
    JoinKeepsNames(s.rooms, fd, name, s.clients[f].conn.currRoom);
  }

  /** The old room is deleted if it is empty: the last step of a move. */
  ghost function Vacated(s: State, id: nat): State {
    s.(rooms := DeleteEmpty(s.rooms, id))
  }

  lemma VacatedIs(s: State, id: nat)
    ensures Vacated(s, id) == s.(rooms := DeleteEmpty(s.rooms, id))
  {
  }

  lemma VacatedKeeps(s: State, id: nat)
    requires Inv(s, {}, {id})
    ensures Inv(Vacated(s, id), {}, {})
  {
    DeleteEmptyKeeps(s.rooms, Where(s.clients), id, {id});
    assert {id} - {id} == {};
  }

  lemma VacatedKeepsNames(s: State, id: nat, f: int)
    requires Inv(s, {}, {id}) && f in s.clients && s.clients[f].conn.active
    ensures RoomName(Vacated(s, id), f) == RoomName(s, f)
  {
    VacatedKeeps(s, id);
    RoomFound(Vacated(s, id), f, {}, {});
    RemoveAllNone(s.rooms, {});
    SettleKeepsNames(s.rooms, {}, id, s.clients[f].conn.currRoom);
  }

  // ---------------------------------------------------------------- moving on

  /** The four steps of a move: tell the old room, enter the new one, tell
      the new room, delete the old room if it is empty. */
  ghost predicate Moves(s: State, a: State, b: State, c: State, fd: int, name: Bytes) {
    && Inv(s, {}, {}) && fd in s.clients && s.clients[fd].conn.active && LineFree(name) && RoomName(s, fd) != name
    && var id, user := s.clients[fd].conn.currRoom, s.clients[fd].conn.username;
    && Inv(a, {}, {})
    && Delivers(s, a, Audience(s, id, fd), LeftText(user, RoomName(s, fd)), id)
    && Spares(s, a, Audience(s, id, fd), LeftText(user, RoomName(s, fd)))
    && fd in a.clients && b == Entered(a, fd, name)
    && Inv(c, {}, {id})
    && Delivers(b, c, Audience(b, b.clients[fd].conn.currRoom, -1), JoinedText(user, name), b.clients[fd].conn.currRoom)
    && Spares(b, c, Audience(b, b.clients[fd].conn.currRoom, -1), JoinedText(user, name))
  }

  lemma MovesAre(s: State, a: State, b: State, c: State, fd: int, name: Bytes, oldName: Bytes)
    requires Inv(s, {}, {}) && fd in s.clients && s.clients[fd].conn.active && LineFree(name)
    requires oldName == NameOf(s.rooms, s.clients[fd].conn.currRoom) && oldName != name
    requires Inv(a, {}, {}) && fd in a.clients && b == Entered(a, fd, name)
    requires Inv(c, {}, {s.clients[fd].conn.currRoom})
    requires var id, left := s.clients[fd].conn.currRoom, LeftText(s.clients[fd].conn.username, oldName);
      Delivers(s, a, Audience(s, id, fd), left, id) && Spares(s, a, Audience(s, id, fd), left)
    requires var id, joined := b.clients[fd].conn.currRoom, JoinedText(s.clients[fd].conn.username, name);
      Delivers(b, c, Audience(b, id, -1), joined, id) && Spares(b, c, Audience(b, id, -1), joined)
    ensures Moves(s, a, b, c, fd, name)
  {
    hide Inv, Delivers, Spares, LeftText, JoinedText, Moved, WithRoom;
  }

  /** Who hears what in a move, member by member. */
  lemma MoveForOther(s: State, a: State, b: State, c: State, fd: int, name: Bytes, f: int)
    requires Moves(s, a, b, c, fd, name) && f in s.clients && f != fd
    ensures OtherHears(s, c, fd, name, f)
  {
    hide Inv, LeftText, JoinedText, Settle;
    var id := s.clients[fd].conn.currRoom;
    EnteredKeeps(a, fd, name);
    LinkFacts(s, f, {}, {});
    if s.clients[f].conn.active {
      SameRoomSameName(s, f, fd, {}, {});
      if f in a.clients {
        DeliversKeepsNames(s, a, Audience(s, id, fd), LeftText(s.clients[fd].conn.username, RoomName(s, fd)), id, f,
                           {}, {});
        EnteredKeepsNames(a, fd, name, f);
        SameRoomSameName(b, f, fd, {}, {id});
      }
    }
  }

  lemma MoveForSelf(s: State, a: State, b: State, c: State, fd: int, name: Bytes)
    requires Moves(s, a, b, c, fd, name)
    ensures MoverHears(s, c, fd, name)
    ensures fd in c.clients ==> c.clients[fd].conn.active && RoomName(c, fd) == name
  {
    hide Inv, LeftText, JoinedText, Settle;
    var id := s.clients[fd].conn.currRoom;
    EnteredKeeps(a, fd, name);
    LinkFacts(s, fd, {}, {});
    if fd in c.clients {
      var to := b.clients[fd].conn.currRoom;
      DeliversKeepsNames(b, c, Audience(b, to, -1), JoinedText(s.clients[fd].conn.username, name), to, fd, {}, {id});
    }
  }

  /** What became of one list: three departures and one arrival. */
  lemma ListAfterMove(list: seq<int>, left: set<int>, fd: int, last: seq<int>, joined: set<int>)
    requires (last == [] || last == [fd])
    ensures Without(Without(Without(list, left), {fd}) + last, joined)
         == Without(list, left + joined + {fd}) + (if fd in joined then [] else last)
  {
    WithoutAppend(Without(Without(list, left), {fd}), last, joined);
    WithoutTwice(list, left, {fd});
    WithoutTwice(list, left + {fd}, joined);
    assert left + {fd} + joined == left + joined + {fd};
    if last == [fd] {
      assert last[..0] == [];
    }
  }

  lemma ListOfRooms(rooms: seq<ChatRoom>, left: set<int>, id: nat, fd: int, name: Bytes, joined: set<int>, to: nat,
                    n: Bytes)
    requires RoomsOk(rooms) && LineFree(name)
    requires var a := Settle(rooms, left, id);
      && RoomsOk(a)
      && var open := WithRoom(a, name);
         var b := Moved(open, fd, FindName(open, name));
      && RoomsOk(b) && RoomsOk(Settle(b, joined, to))
    ensures var open := WithRoom(Settle(rooms, left, id), name);
      var b := Moved(open, fd, FindName(open, name));
      ListNamed(DeleteEmpty(Settle(b, joined, to), id), n)
        == ListAfter(ListNamed(rooms, n), left + joined, fd, n == name && fd !in joined)
  {
    hide Settle, DeleteEmpty, RoomsOk, ListNamed, Without, Moved, WithRoom;
    var a := Settle(rooms, left, id);
    var open := WithRoom(a, name);
    var b := Moved(open, fd, FindName(open, name));
    ListSettled(rooms, left, id, n);
    ListMoved(a, fd, name, n);
    ListSettled(b, joined, to, n);
    ListKept(Settle(b, joined, to), id, n);
    ListAfterMove(ListNamed(rooms, n), left, fd, if n == name then [fd] else [], joined);
  }

  lemma MoveLists(s: State, a: State, b: State, c: State, fd: int, name: Bytes)
    requires Moves(s, a, b, c, fd, name)
    ensures fd in s.clients && ListsMoved(s, Vacated(c, s.clients[fd].conn.currRoom), fd, name)
  {
    hide Moves, Inv, Settle, DeleteEmpty, RoomsOk, ListNamed, ListAfter, Without, Moved, WithRoom, FindName;
    MoveRooms(s, a, b, c, fd, name);
    var id := s.clients[fd].conn.currRoom;
    var d := Vacated(c, id);
    var left, joined := s.clients.Keys - a.clients.Keys, b.clients.Keys - c.clients.Keys;
    var to := b.clients[fd].conn.currRoom;
    assert left + joined == s.clients.Keys - d.clients.Keys;
    assert fd !in joined <==> fd in d.clients;
    forall n
      ensures ListNamed(d.rooms, n)
           == ListAfter(ListNamed(s.rooms, n), s.clients.Keys - d.clients.Keys, fd, n == name && fd in d.clients)
    {
      ListOfRooms(s.rooms, left, id, fd, name, joined, to, n);
    }
  }

  lemma MoveRooms(s: State, a: State, b: State, c: State, fd: int, name: Bytes)
    requires Moves(s, a, b, c, fd, name)
    ensures fd in s.clients && LineFree(name)
    ensures RoomsOk(s.rooms) && RoomsOk(a.rooms) && RoomsOk(b.rooms) && RoomsOk(c.rooms)
    ensures a.rooms == Settle(s.rooms, s.clients.Keys - a.clients.Keys, s.clients[fd].conn.currRoom)
    ensures b.rooms == Moved(WithRoom(a.rooms, name), fd, FindName(WithRoom(a.rooms, name), name))
    ensures fd in b.clients && c.rooms == Settle(b.rooms, b.clients.Keys - c.clients.Keys, b.clients[fd].conn.currRoom)
    ensures fd in a.clients && a.clients.Keys == b.clients.Keys && c.clients.Keys <= b.clients.Keys <= s.clients.Keys
  {
    hide Inv, Settle, Moved, WithRoom, LeftText, JoinedText, Audience;
    EnteredKeeps(a, fd, name);
    RoomsAreOk(s, {}, {});
    RoomsAreOk(a, {}, {});
    RoomsAreOk(b, {}, {s.clients[fd].conn.currRoom});
    RoomsAreOk(c, {}, {s.clients[fd].conn.currRoom});
  }

  lemma MoveKeepsNames(s: State, a: State, b: State, c: State, fd: int, name: Bytes, f: int)
    requires Moves(s, a, b, c, fd, name)
    requires f in c.clients && f != fd && c.clients[f].conn.active
    ensures f in s.clients && RoomName(c, f) == RoomName(s, f)
  {
    hide Inv, LeftText, JoinedText, Settle;
    var id, user := s.clients[fd].conn.currRoom, s.clients[fd].conn.username;
    EnteredKeeps(a, fd, name);
    DeliversKeepsNames(b, c, Audience(b, b.clients[fd].conn.currRoom, -1), JoinedText(user, name),
                       b.clients[fd].conn.currRoom, f, {}, {id});
    EnteredKeepsNames(a, fd, name, f);
    DeliversKeepsNames(s, a, Audience(s, id, fd), LeftText(user, RoomName(s, fd)), id, f, {}, {});
  }

  lemma EnteredPaced(s: State, fd: int, name: Bytes)
    requires fd in s.clients
    ensures Paced(s, Entered(s, fd, name))
  {
  }

  /** A move does exactly what Relocated says, and leaves no empty room. */
  lemma MoveRelocates(s: State, a: State, b: State, c: State, fd: int, name: Bytes)
    requires Moves(s, a, b, c, fd, name)
    ensures var d := Vacated(c, s.clients[fd].conn.currRoom);
      Inv(d, {}, {}) && Relocated(s, d, fd, name)
  {
    MoveInvariants(s, a, b, c, fd, name);
    hide Troubled, Inv, Moves, OtherHears, MoverHears, ListsMoved, Paced, RoomName;
    var id := s.clients[fd].conn.currRoom;
    var d := Vacated(c, id);
    VacatedKeeps(c, id);
    MoveForSelf(s, a, b, c, fd, name);
    VacatedTellsMover(s, c, fd, name, id);
    MoveLists(s, a, b, c, fd, name);
    forall f | f in s.clients && f != fd ensures OtherHears(s, d, fd, name, f) {
      MoveForOther(s, a, b, c, fd, name, f);
      VacatedTellsOther(s, c, fd, name, f, id);
    }
    forall f | f in d.clients && f != fd && d.clients[f].conn.active ensures RoomName(d, f) == RoomName(s, f) {
      MoveKeepsNames(s, a, b, c, fd, name, f);
      VacatedKeepsNames(c, id, f);
    }
    if fd in c.clients {
      VacatedKeepsNames(c, id, fd);
    }
    VacatedPaced(s, c, id);
  }

  lemma MoveInvariants(s: State, a: State, b: State, c: State, fd: int, name: Bytes)
    requires Moves(s, a, b, c, fd, name)
    ensures fd in s.clients && Inv(c, {}, {s.clients[fd].conn.currRoom})
    ensures c.clients.Keys <= s.clients.Keys && Paced(s, c)
  {
    hide Inv, LeftText, JoinedText, Settle, Got, Entered, Spares;
    EnteredPaced(a, fd, name);
    PacedTransitive(s, a, b);
    PacedTransitive(s, b, c);
    EnteredClients(a, fd, name);
  }

  lemma EnteredClients(s: State, fd: int, name: Bytes)
    requires fd in s.clients
    ensures Entered(s, fd, name).clients.Keys == s.clients.Keys
  {
  }

  lemma VacatedTellsMover(s: State, c: State, fd: int, name: Bytes, id: nat)
    requires MoverHears(s, c, fd, name)
    ensures MoverHears(s, Vacated(c, id), fd, name)
  {
    hide GotAndMoved, JoinedText, Fits;
  }

  lemma VacatedTellsOther(s: State, c: State, fd: int, name: Bytes, f: int, id: nat)
    requires OtherHears(s, c, fd, name, f)
    ensures OtherHears(s, Vacated(c, id), fd, name, f)
  {
    hide Got, JoinedText, LeftText, Fits, InRoom, RoomName;
  }

  lemma VacatedPaced(s: State, c: State, id: nat)
    requires Paced(s, c)
    ensures Paced(s, Vacated(c, id))
  {
  }

  lemma BroadcastIs(s: State, t: State, fd: int, words: seq<Bytes>, ok: bool, reached: nat)
    requires fd in s.clients && FindId(s.rooms, s.clients[fd].conn.currRoom) < |s.rooms|
    requires var list := s.rooms[FindId(s.rooms, s.clients[fd].conn.currRoom)].subscribed;
      && reached <= |list|
      && Delivers(s, t, FirstOf(list, reached, fd), ChatText(s.clients[fd].conn.username, words),
                  s.clients[fd].conn.currRoom)
      && Spares(s, t, FirstOf(list, reached, fd), ChatText(s.clients[fd].conn.username, words))
      && if ok then
           reached == |list| && t.clients.Keys == s.clients.Keys
         else
           && reached > 0 && list[reached - 1] != fd && list[reached - 1] in s.clients
           && t.clients.Keys == s.clients.Keys - {list[reached - 1]}
    ensures Broadcasted(s, t, fd, words, ok, reached)
  {
  }

  lemma AnswerKeeps(s: State, t: State, fd: int, message: Bytes, ok: bool)
    requires Inv(s, {}, {}) && OneStep(s, t, fd, message) && Posted(message)
    requires t.clients.Keys == if ok then s.clients.Keys else s.clients.Keys - {fd}
    ensures Inv(t, {}, {}) && Answered(s, t, fd, message, ok)
  {
    hide Inv, Delivers;
    OneStepKeeps(s, t, fd, message, {}, {});
  }

  /** Telling the room and then dropping the client. */
  lemma PartingIs(s: State, t: State, u: State, fd: int, message: Bytes, shaky: set<int>)
    requires fd in s.clients && Inv(s, shaky, {}) && Inv(t, shaky, {}) && shaky <= {fd}
    requires var id := s.clients[fd].conn.currRoom;
      && Delivers(s, t, Audience(s, id, fd), message, id)
      && Spares(s, t, Audience(s, id, fd), message)
    requires fd in t.clients ==> u == Dropped(t, fd)
    ensures fd in t.clients
    ensures Inv(u, {}, {}) && Parted(s, u, fd, message)
  {
    hide Inv, Settle;
    var id := s.clients[fd].conn.currRoom;
    assert t.clients[fd] == s.clients[fd];
    DroppedKeeps(t, fd, shaky, {});
    DroppedDelivers(t, fd, message, t.log);
    RoomsAreOk(s, shaky, {});
    DeliversBoth(s, t, u, Audience(s, id, fd), {fd}, message, id);
    assert shaky - {fd} == {} && {} - {id} == {};
  }

  lemma TextsPosted(user: Bytes, room: Bytes)
    requires LineFree(user) && LineFree(room)
    ensures Posted(LeftText(user, room)) && Posted(JoinedText(user, room))
    ensures Posted(QuitText(user)) && Posted(ClosedText(user)) && Posted(WhereText(room))
  {
    hide IsMessage, LeftText, JoinedText, QuitText, ClosedText, WhereText;
    NoticesAreLines(user, room);
  }

  lemma ChatIsPosted(user: Bytes, words: seq<Bytes>)
    requires LineFree(user) && AllLineFree(words)
    ensures Posted(ChatText(user, words))
  {
    hide IsMessage;
    ChatIsMessage(user, words);
  }

  /** Names of users and rooms hold no newline, so what is posted is lines. */
  lemma NamesAreLineFree(s: State, fd: int, shaky: set<int>, vacant: set<nat>)
    requires Inv(s, shaky, vacant) && fd in s.clients
    ensures LineFree(s.clients[fd].conn.username) && LineFree(RoomName(s, fd)) && LineFree([])
    ensures RoomName(s, fd) == NameOf(s.rooms, s.clients[fd].conn.currRoom)
    ensures Posted(ListText(s.rooms)) && LineFree(MAIN_ROOM)
  {
    TableIsPosted(s.rooms);
  }

  /** A client left out of a notification is untouched by it. */
  lemma Untold(s: State, t: State, id: nat, fd: int, message: Bytes)
    requires fd in s.clients && Delivers(s, t, Audience(s, id, fd), message, id)
    ensures fd in t.clients && t.clients[fd] == s.clients[fd]
  {
  }

  lemma NewRoomDiffers(s: State, a: State, b: State, fd: int, name: Bytes, message: Bytes)
    requires Inv(s, {}, {}) && Inv(a, {}, {}) && fd in s.clients && fd in a.clients && a.clients[fd] == s.clients[fd]
    requires s.clients[fd].conn.active && LineFree(name) && NameOf(s.rooms, s.clients[fd].conn.currRoom) != name
    requires b == Entered(a, fd, name)
    requires var id := s.clients[fd].conn.currRoom; Delivers(s, a, Audience(s, id, fd), message, id)
    ensures Inv(b, {}, {s.clients[fd].conn.currRoom})
    ensures fd in b.clients && b.clients[fd].conn.currRoom != s.clients[fd].conn.currRoom
  {
    hide Inv, Delivers, Moved, WithRoom, NameOf;
    var id := s.clients[fd].conn.currRoom;
    EnteredKeeps(a, fd, name);
    DeliversKeepsNames(s, a, Audience(s, id, fd), message, id, fd, {}, {});
    RoomFound(a, fd, {}, {});
    RoomsAreOk(a, {}, {});
    JoinKeepsNames(a.rooms, fd, name, id);
  }

  // -------------------------------------------------------------- frame cases

  /** The state once `frame` is noted as handled by `fd`. */
  ghost function Logged(s: State, fd: int, frame: Bytes): State
    requires fd in s.clients
  {
    var c := s.clients[fd].conn;
    WithConn(s, fd, c.(handled := c.handled + [frame]))
  }

  lemma RejoinIs(s: State, t: State, fd: int, name: Bytes)
    requires Inv(s, {}, {}) && fd in s.clients && s.clients[fd].conn.active && LineFree(name)
    requires RoomName(s, fd) == name
    requires t == Vacated(Entered(s, fd, name), s.clients[fd].conn.currRoom)
    ensures Inv(t, {}, {}) && Rejoined(s, t, fd)
  {
    hide LinksOk, Membership;
    var id := s.clients[fd].conn.currRoom;
    EnteredKeeps(s, fd, name);
    RoomFound(s, fd, {}, {});
    var k := FindId(s.rooms, id);
    FindNameIs(s.rooms, k);
    var e := Entered(s, fd, name);
    assert e.clients == s.clients;
    assert e.rooms == Moved(s.rooms, fd, k);
    SameIds(s.rooms, e.rooms, id);
    VacatedKeeps(e, id);
  }

  /** Outside main-room the room's name is not main-room's. */
  lemma LeaveMeans(s: State, fd: int)
    requires Inv(s, {}, {}) && fd in s.clients && s.clients[fd].conn.active && s.clients[fd].conn.currRoom != 0
    ensures RoomName(s, fd) != MAIN_ROOM && LineFree(MAIN_ROOM)
  {
    hide LinksOk, Membership;
    RoomFound(s, fd, {}, {});
  }

  // ------------------------------------------------------------------- frames

  /** The state after `fd`'s next frame, which ends at `newline`, was cut off. */
  ghost function AfterCut(s: State, fd: int, newline: nat): State
    requires fd in s.clients && newline < |s.clients[fd].conn.input|
  {
    var c := s.clients[fd].conn;
    WithConn(s, fd, c.(frames := c.frames + [c.input[..newline]], input := c.input[newline + 1..]))
  }

  lemma CutKeepsFraming(c: Connection, given: Bytes, newline: nat)
    requires Framed(c, given)
    requires newline < |c.input| && newline == IndexOf(c.input, LF) && newline <= MAX_FRAME_BYTES
    ensures Framed(c.(frames := c.frames + [c.input[..newline]], input := c.input[newline + 1..]), given)
    ensures LineFree(c.input[..newline]) && LineFree(StripCr(c.input[..newline]))
  {
    var raw, rest := c.input[..newline], c.input[newline + 1..];
    JoinLinesAppend(c.frames, raw);
    CutAt(c.input, LF);
    Assoc(JoinLines(c.frames), raw + [LF], rest);
    Assoc(JoinLines(c.frames), raw, [LF]);
  }

  /** Cutting a frame of an active client and noting it as handled. */
  lemma CutAndLogged(s: State, fd: int, newline: nat)
    requires Inv(s, {}, {}) && fd in s.clients && s.clients[fd].conn.active
    requires var c := s.clients[fd].conn;
      newline < |c.input| && newline == IndexOf(c.input, LF) && newline <= MAX_FRAME_BYTES
    ensures var frame := StripCr(s.clients[fd].conn.input[..newline]);
      LineFree(frame) && Inv(Logged(AfterCut(s, fd, newline), fd, frame), {}, {})
  {
    hide Framed, Seated, LinkLive, StripCr;
    var l := s.clients[fd];
    var c := l.conn;
    var raw := c.input[..newline];
    CutKeepsFraming(c, l.given, newline);
    var d := c.(frames := c.frames + [raw], input := c.input[newline + 1..], handled := c.handled + [StripCr(raw)]);
    assert d.frames[1..] == c.frames[1..] + [raw];
    assert d.handled == StripAll(d.frames[1..]);
    var e := c.(frames := c.frames + [raw], input := c.input[newline + 1..]);
    assert Framed(d, l.given) == Framed(e, l.given) by { FramedIgnoresHandled(e, d.handled, l.given); }
    LiveIgnoresRest(l, l.(conn := d), s.now);
    LinkReplaced(s, fd, l.(conn := d), {}, {});
    assert {} - {fd} == {};
    assert Logged(AfterCut(s, fd, newline), fd, StripCr(raw)).clients == s.clients[fd := l.(conn := d)];
  }

  lemma FramedIgnoresHandled(c: Connection, handled: seq<Bytes>, given: Bytes)
    ensures Framed(c.(handled := handled), given) == Framed(c, given)
  {
  }

  // ----------------------------------------------------------- authentication

  ghost function Named(s: State, fd: int, name: Bytes): State
    requires fd in s.clients
  {
    WithConn(s, fd, s.clients[fd].conn.(username := name, active := true))
  }

  /** `r` is `s` after the first frame of `fd` was cut off; it reads `name`. */
  ghost predicate Arrives(s: State, r: State, fd: int, name: Bytes) {
    && fd in s.clients && !s.clients[fd].conn.active
    && var input := s.clients[fd].conn.input;
    && var newline := IndexOf(input, LF);
    && newline < |input| && newline <= MAX_FRAME_BYTES
    && r == AfterCut(s, fd, newline) && name == StripCr(input[..newline])
  }

  /** The new member is in main-room under its name, and everyone in
      main-room, itself included, got the notice or is gone. */
  ghost predicate Admitted(r: State, t: State, fd: int, name: Bytes) {
    && fd in r.clients
    && var e := Entered(Named(r, fd, name), fd, MAIN_ROOM);
    && e.clients[fd].conn.currRoom == 0
    && Delivers(e, t, Audience(e, 0, -1), JoinedText(name, MAIN_ROOM), 0)
    && Spares(e, t, Audience(e, 0, -1), JoinedText(name, MAIN_ROOM))
  }

  lemma ArrivedLink(l: Link, m: Link, fd: int, name: Bytes, newline: nat, now: nat)
    requires LinkOk(l, fd) && LinkLive(l, now) && !l.conn.active
    requires newline == IndexOf(l.conn.input, LF) && newline < |l.conn.input| && newline <= MAX_FRAME_BYTES
    requires name == StripCr(l.conn.input[..newline])
    requires var c := l.conn;
      m == l.(conn := c.(frames := c.frames + [c.input[..newline]], input := c.input[newline + 1..],
                         username := name, active := true, currRoom := 0))
    ensures LinkOk(m, fd) && LinkLive(m, now)
  {
    hide Framed, LinkLive, StripCr;
    var c := l.conn;
    CutKeepsFraming(c, l.given, newline);
    var f := c.(frames := c.frames + [c.input[..newline]], input := c.input[newline + 1..]);
    FramedIgnoresName(f, name, 0, l.given);
    assert m.conn.frames == [c.input[..newline]] && m.conn.frames[1..] == [];
    LiveIgnoresRest(l, m, now);
  }

  /** Entering main-room under a name leaves everything consistent. */
  lemma ArrivalKeeps(s: State, r: State, n: State, e: State, fd: int, name: Bytes)
    requires Inv(s, {}, {}) && Arrives(s, r, fd, name)
    requires n == Named(r, fd, name) && e == Entered(n, fd, MAIN_ROOM)
    ensures Inv(e, {}, {}) && fd in e.clients && e.clients[fd].conn.currRoom == 0
    ensures e.clients[fd].conn.username == name && Posted(JoinedText(name, MAIN_ROOM))
  {
    hide LinkOk, Seated, LinkLive, StripCr, JoinedText, Moved, WithRoom;
    RoomsAreOk(s, {}, {});
    MainRoomIsZero(s.rooms);
    ArrivesIs(s, r, fd, IndexOf(s.clients[fd].conn.input, LF));
    TextsPosted(name, MAIN_ROOM);
    WhereArrives(s.clients, n.clients, fd);
    EnteredSeats(n, fd, MAIN_ROOM, Where(s.clients));
    ArrivedLink(s.clients[fd], e.clients[fd], fd, name, IndexOf(s.clients[fd].conn.input, LF), s.now);
  }

  lemma WhereArrives(before: map<int, Link>, after: map<int, Link>, fd: int)
    requires fd in before && !before[fd].conn.active && fd in after && after == before[fd := after[fd]]
    ensures Where(after) - {fd} == Where(before) - {fd} && fd !in Where(before)
  {
  }

  lemma MainRoomIsZero(rooms: seq<ChatRoom>)
    requires RoomsOk(rooms)
    ensures WithRoom(rooms, MAIN_ROOM) == rooms && FindName(rooms, MAIN_ROOM) == 0 && LineFree(MAIN_ROOM)
    ensures rooms[0].roomIdx == 0
  {
    FindNameIs(rooms, 0);
  }

  lemma FramedIgnoresName(c: Connection, name: Bytes, room: nat, given: Bytes)
    ensures Framed(c.(username := name, active := true, currRoom := room), given) == Framed(c, given)
  {
  }

  lemma LiveIgnoresRest(l: Link, m: Link, now: nat)
    requires LinkLive(l, now) && m.conn.out == l.conn.out && m.wanted == l.wanted && m.taken == l.taken
    ensures LinkLive(m, now)
  {
  }

  lemma AdmittedIs(r: State, n: State, e: State, t: State, fd: int, name: Bytes)
    requires fd in r.clients && n == Named(r, fd, name) && e == Entered(n, fd, MAIN_ROOM)
    requires e.clients[fd].conn.currRoom == 0
    requires Delivers(e, t, Audience(e, 0, -1), JoinedText(name, MAIN_ROOM), 0)
    requires Spares(e, t, Audience(e, 0, -1), JoinedText(name, MAIN_ROOM))
    ensures Admitted(r, t, fd, name)
  {
    hide Delivers, Spares, Audience, Entered, Named;
  }

  lemma DropKeeps(s: State, fd: int)
    requires Inv(s, {}, {}) && fd in s.clients
    ensures Inv(Dropped(s, fd), {}, {}) && Paced(s, Dropped(s, fd))
  {
    hide Inv;
    DroppedKeeps(s, fd, {}, {});
    assert {} - {fd} == {} && {} - {s.clients[fd].conn.currRoom} == {};
  }

  lemma ArrivesIs(s: State, r: State, fd: int, newline: nat)
    requires fd in s.clients && !s.clients[fd].conn.active
    requires var input := s.clients[fd].conn.input;
      newline == IndexOf(input, LF) && newline < |input| && newline <= MAX_FRAME_BYTES
    requires r == AfterCut(s, fd, newline) && Inv(s, {}, {})
    ensures Arrives(s, r, fd, StripCr(s.clients[fd].conn.input[..newline]))
    ensures LineFree(StripCr(s.clients[fd].conn.input[..newline]))
  {
    hide Framed;
    CutKeepsFraming(s.clients[fd].conn, s.clients[fd].given, newline);
  }

  /** After authentication the rest of the buffer is still there. */
  lemma AdmittedKeeps(s: State, r: State, t: State, fd: int, newline: nat, name: Bytes)
    requires fd in s.clients && newline < |s.clients[fd].conn.input| && r == AfterCut(s, fd, newline)
    requires Admitted(r, t, fd, name)
    ensures Paced(s, t)
    ensures fd in t.clients ==>
      t.clients[fd].conn.active && t.clients[fd].conn.input == s.clients[fd].conn.input[newline + 1..]
  {
    hide Moved, WithRoom, Settle, JoinedText;
  }

  /** After a frame the rest of the buffer is still there. */
  lemma FrameKeepsRest(s: State, r: State, t: State, fd: int, newline: nat, frame: Bytes,
                       ok: bool, reached: nat)
    requires fd in s.clients && newline < |s.clients[fd].conn.input| && r == AfterCut(s, fd, newline)
    requires FrameDone(Logged(r, fd, frame), t, fd, frame, ok, reached) && s.clients[fd].conn.active
    ensures Paced(s, t)
    ensures fd in t.clients ==>
      t.clients[fd].conn.active && t.clients[fd].conn.input == s.clients[fd].conn.input[newline + 1..]
  {
    hide FrameDone;
    FrameKeepsInput(Logged(r, fd, frame), t, fd, frame, ok, reached);
  }

  // ------------------------------------------------------------------ reading

  /** The state after `data` arrived for `fd`. */
  ghost function Fed(s: State, fd: int, data: Bytes): (t: State)
    requires fd in s.clients
    ensures fd in t.clients
  {
    var l := s.clients[fd];
    s.(clients := s.clients[fd := l.(conn := l.conn.(input := l.conn.input + data), given := l.given + data)])
  }

  lemma FedKeeps(s: State, fd: int, data: Bytes)
    requires Inv(s, {}, {}) && fd in s.clients
    requires |Fed(s, fd, data).clients[fd].conn.input| <= MAX_INPUT_BUFFER_BYTES
    ensures Inv(Fed(s, fd, data), {}, {}) && Paced(s, Fed(s, fd, data))
  {
    hide Seated, OutputOk;
    var l := s.clients[fd];
    Assoc(JoinLines(l.conn.frames), l.conn.input, data);
    LinkReplaced(s, fd, Fed(s, fd, data).clients[fd], {}, {});
    assert {} - {fd} == {};
  }

  /** Dropping a client whose buffer is over the limit is dropping it as it was. */
  lemma OverfedDropped(s: State, fd: int, data: Bytes)
    requires Inv(s, {}, {}) && fd in s.clients
    ensures fd in Fed(s, fd, data).clients && Dropped(Fed(s, fd, data), fd) == Dropped(s, fd)
    ensures Inv(Dropped(s, fd), {}, {}) && Paced(s, Dropped(s, fd))
  {
    hide Inv;
    DropKeeps(s, fd);
    DroppedForgets(s, fd, Fed(s, fd, data).clients[fd], s.log);
  }

  lemma PacedSame(s: State)
    ensures Paced(s, s)
  {
  }

  lemma PartedPaced(s: State, t: State, fd: int, message: Bytes)
    requires Parted(s, t, fd, message)
    ensures Paced(s, t)
  {
  }

  // ---------------------------------------------------------------- accepting

  function NewLink(fd: int): Link {
    Link(Connection(fd, [], 0, false, [], [], [], NO_OUTPUT), false, [], [])
  }

  /** Nobody who was there is affected; newcomers were prompted and no more. */
  ghost predicate Welcomed(s: State, t: State) {
    && t.rooms == s.rooms && t.now == s.now
    && (forall fd :: fd in s.clients ==> fd in t.clients && t.clients[fd] == s.clients[fd] && !Troubled(s, t, fd))
    && (forall fd :: fd in t.clients && fd !in s.clients ==>
          && t.clients[fd].conn == NewLink(fd).conn.(out := t.clients[fd].conn.out)
          && t.clients[fd].conn.out.outbox == [PROMPT]
          && t.clients[fd].given == [])
    && Paced(s, t)
  }

  /** Every connection accepted is a client now, or was troubled once: it could
      not be registered or prompted. */
  ghost predicate Accounted(s: State, answers: seq<AcceptResult>, t: State) {
    forall fd ::
      if fd in s.clients then multiset(answers)[Accepted(fd)] == 0
      else s.log.broken[fd] + multiset(answers)[Accepted(fd)] == t.log.broken[fd] + (if fd in t.clients then 1 else 0)
  }

  /** Connections were accepted until none was waiting or `accept` failed. */
  ghost predicate Accepting(s: State, answers: seq<AcceptResult>, t: State) {
    && Welcomed(s, t) && Accounted(s, answers, t)
    && answers != []
    && (answers[|answers| - 1].NoneWaiting? || answers[|answers| - 1].AcceptFailed?)
    && forall i :: 0 <= i < |answers| - 1 ==> answers[i].Accepted? || answers[i].AcceptInterrupted?
  }

  lemma NobodyWelcomed(s: State)
    ensures Welcomed(s, s) && Accounted(s, [], s)
  {
  }

  lemma AcceptingIs(s: State, answers: seq<AcceptResult>, t: State)
    requires Welcomed(s, t) && Accounted(s, answers, t) && answers != []
    requires answers[|answers| - 1].NoneWaiting? || answers[|answers| - 1].AcceptFailed?
    requires forall i :: 0 <= i < |answers| - 1 ==> answers[i].Accepted? || answers[i].AcceptInterrupted?
    ensures Accepting(s, answers, t)
  {
    hide Welcomed, Accounted;
  }

  lemma AcceptingMeans(s: State, answers: seq<AcceptResult>, t: State)
    requires Accepting(s, answers, t)
    ensures Welcomed(s, t)
  {
    hide Welcomed, Accounted;
  }

  lemma AccountedBoth(s: State, t: State, u: State, a: seq<AcceptResult>, b: seq<AcceptResult>)
    requires Welcomed(s, t) && Welcomed(t, u) && Accounted(s, a, t) && Accounted(t, b, u)
    ensures Accounted(s, a + b, u)
  {
    assert multiset(a + b) == multiset(a) + multiset(b);
  }

  /** One answer that brought no client. */
  lemma NobodyAccounted(s: State, t: State, answer: AcceptResult)
    requires t == s.(log := t.log)
    requires if answer.Accepted? then answer.fd !in s.clients && t.log.broken == s.log.broken + multiset{answer.fd}
             else t.log.broken == s.log.broken
    ensures Welcomed(s, t) && Accounted(s, [answer], t)
  {
  }

  lemma WelcomedBoth(s: State, t: State, u: State)
    requires Welcomed(s, t) && Welcomed(t, u)
    ensures Welcomed(s, u)
  {
  }

  ghost function WithNewcomer(s: State, fd: int): State {
    s.(clients := s.clients[fd := NewLink(fd)])
  }

  lemma NewcomerLive(s: State, fd: int)
    requires Inv(s, {}, {})
    ensures fd in WithNewcomer(s, fd).clients
    ensures WithNewcomer(s, fd).now > 0 && LinkLive(WithNewcomer(s, fd).clients[fd], WithNewcomer(s, fd).now)
  {
  }

  /** A newcomer that was prompted joins the invariant; one that could not be
      prompted leaves no trace but in the log. */
  lemma PromptedKeeps(s: State, a: State, t: State, fd: int)
    requires Inv(s, {}, {}) && fd !in s.clients && fd >= 0 && a == WithNewcomer(s, fd)
    requires OneStep(a, t, fd, PROMPT)
    ensures Inv(t, {}, {}) && Welcomed(s, t) && Accounted(s, [Accepted(fd)], t)
  {
    hide Seated, LinkLive, LinkOk, Got, Dropped;
    if fd in t.clients {
      assert t == s.(clients := s.clients[fd := t.clients[fd]], log := t.log);
      NewcomerOk(t.clients[fd], fd);
      WhereIgnoresNewcomer(s.clients, t.clients, fd);
    } else {
      UnpromptedDropped(s, a, fd);
    }
  }

  lemma NewcomerOk(l: Link, fd: int)
    requires fd >= 0 && Got(NewLink(fd), l, PROMPT)
    ensures LinkOk(l, fd) && !l.conn.active
    ensures l.conn == NewLink(fd).conn.(out := l.conn.out) && l.conn.out.outbox == [PROMPT] && l.given == []
  {
  }

  lemma WhereIgnoresNewcomer(before: map<int, Link>, after: map<int, Link>, fd: int)
    requires fd !in before && fd in after && after == before[fd := after[fd]] && !after[fd].conn.active
    ensures Where(after) == Where(before)
  {
  }

  lemma UnpromptedDropped(s: State, a: State, fd: int)
    requires Inv(s, {}, {}) && fd !in s.clients && a == WithNewcomer(s, fd)
    ensures Dropped(a, fd) == s
  {
    hide LinksOk;
    assert a.clients - {fd} == s.clients;
    forall i, f | 0 <= i < |s.rooms| && f in s.rooms[i].subscribed ensures f !in {fd} {
      assert f in Where(s.clients);
    }
    RemoveAllNone(s.rooms, {fd});
    SettleNone(s.rooms, 0, {});
    RemoveAllNone(s.rooms, {});
  }

  lemma WelcomedPaced(s: State, t: State)
    requires Welcomed(s, t)
    ensures Paced(s, t)
  {
  }

  // ----------------------------------------------------------------- flushing

  /** At most, queued bytes of the client were sent. */
  ghost predicate OnlySent(before: Link, after: Link, now: nat) {
    && after.conn == before.conn.(out := after.conn.out) && after.conn.out.outbox == before.conn.out.outbox
    && after.given == before.given && Pace(after, now) == Pace(before, now)
  }

  /** `u` is `s` with the link of `fd` replaced by `l`, from which only bytes
      were sent. */
  ghost predicate SentOnly(s: State, u: State, fd: int, l: Link) {
    && fd in s.clients && u == s.(clients := s.clients[fd := l], log := u.log)
    && OnlySent(s.clients[fd], l, s.now) && LoggedOnce(fd, s.log, u.log)
  }

  lemma SentKeepsName(before: Link, after: Link, now: nat)
    requires OnlySent(before, after, now)
    ensures after.conn.username == before.conn.username
  {
  }

  /** As much of the queue was sent as the write budget allowed. */
  ghost predicate SentAll(before: Link, after: Link, now: nat) {
    after.conn.out.size == before.conn.out.size - Min(before.conn.out.size, Budget(before.conn.out, now))
  }

  /** A writable client's queue moved on, by all the budget allows unless a
      send would block, and nobody else noticed; or its send broke down or its
      interest was refused, the client is gone and its room was told. */
  ghost predicate FlushDone(s: State, t: State, fd: int) {
    && fd in s.clients
    && (fd in t.clients <==> !Troubled(s, t, fd))
    && if fd in t.clients then
         && SentOnly(s, t, fd, t.clients[fd])
         && (t.log.blocked[fd] == s.log.blocked[fd] ==> SentAll(s.clients[fd], t.clients[fd], s.now))
       else exists u, l :: SentOnly(s, u, fd, l) && Parted(u, t, fd, ClosedText(s.clients[fd].conn.username))
  }

  lemma FlushedKeeps(s: State, t: State, fd: int, l: Link, ok: bool)
    requires Inv(s, {}, {}) && fd in s.clients && t == s.(clients := s.clients[fd := l], log := t.log)
    requires OnlySent(s.clients[fd], l, s.now) && (ok ==> LinkLive(l, s.now)) && LoggedOnce(fd, s.log, t.log)
    ensures Inv(t, if ok then {} else {fd}, {}) && SentOnly(s, t, fd, l) && fd in t.clients && t.clients[fd] == l
  {
    hide Seated, LinkLive;
    WhereReplaced(s.clients, fd, l);
  }

  lemma FlushIs(s: State, t: State, u: State, fd: int, ok: bool)
    requires fd in t.clients && SentOnly(s, t, fd, t.clients[fd]) && (ok <==> !Troubled(s, t, fd))
    requires ok && t.log.blocked[fd] == s.log.blocked[fd] ==> SentAll(s.clients[fd], t.clients[fd], s.now)
    requires if ok then u == t else Parted(t, u, fd, ClosedText(s.clients[fd].conn.username))
    ensures FlushDone(s, u, fd)
  {
    hide Delivers, Spares, ClosedText, Audience, OnlySent, SentAll;
    if !ok {
      assert SentOnly(s, t, fd, t.clients[fd]);
      PartedSilently(t, u, fd, ClosedText(s.clients[fd].conn.username));
    }
  }

  lemma PartedSilently(s: State, t: State, fd: int, message: Bytes)
    requires Parted(s, t, fd, message)
    ensures !Troubled(s, t, fd)
  {
    hide Delivers, Spares;
  }

  lemma FlushPaced(s: State, t: State, fd: int)
    requires FlushDone(s, t, fd)
    ensures Paced(s, t)
  {
    hide ClosedText, Audience, Settle, Spares;
  }

  // --------------------------------------------------------------- iterations

  /** In one iteration no connection got more than a full write budget;
      a descriptor used again counts from nothing. */
  ghost predicate WithinBudget(s: State, t: State) {
    forall fd :: fd in t.clients ==>
      |t.clients[fd].taken| <= (if fd in s.clients then |s.clients[fd].taken| else 0) + MAX_BYTES_WRITTEN_PER_POLL
  }

  lemma TickKeeps(s: State, t: State)
    requires Inv(s, {}, {}) && t == s.(now := s.now + 1)
    ensures Inv(t, {}, {})
  {
    hide Seated, StreamOk, LinkOk;
  }

  lemma BudgetHolds(s: State, t: State, u: State)
    requires Inv(s, {}, {}) && t == s.(now := s.now + 1) && Paced(t, u)
    ensures WithinBudget(s, u)
  {
    hide Seated, StreamOk, LinkOk;
    forall fd | fd in s.clients
      ensures Pace(t.clients[fd], t.now) == |s.clients[fd].taken| + MAX_BYTES_WRITTEN_PER_POLL
    {
      LinkFacts(s, fd, {}, {});
    }
  }
}
