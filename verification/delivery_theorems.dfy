/** Which messages a client gets, over one step and over whole runs. */
module DeliveryTheorems {
  import opened Text
  import opened Rooms
  import opened Messages
  import opened ServerState
  import opened ServerEffects
  import opened ServerRuns
  import opened RunTheorems

  // ------------------------------------------------------- what a step addresses

  /** What a move of `fd` to the room called `name` addresses to client `f`. */
  ghost function MoveAddressed(s: State, fd: int, name: Bytes, f: int): seq<Bytes>
    requires fd in s.clients
  {
    var user := s.clients[fd].conn.username;
    if f == fd then [JoinedText(user, name)]
    else if InRoom(s, f, RoomName(s, fd)) then [LeftText(user, RoomName(s, fd))]
    else if InRoom(s, f, name) then [JoinedText(user, name)]
    else []
  }

  /** The first `reached` members of the sender's room but the sender. */
  ghost function FirstMembers(s: State, fd: int, reached: nat): set<int>
    requires fd in s.clients
  {
    var room := FindId(s.rooms, s.clients[fd].conn.currRoom);
    if room < |s.rooms| && reached <= |s.rooms[room].subscribed| then FirstOf(s.rooms[room].subscribed, reached, fd)
    else {}
  }

  /** What one frame of `fd` does; a chat message is addressed to the first
      `reached` members of the sender's room but the sender. */
  ghost function FrameAddressed(s: State, fd: int, frame: Bytes, reached: nat, f: int): seq<Bytes>
    requires fd in s.clients
  {
    var words, me := TokensOf(frame), s.clients[fd].conn;
    if frame == [] then []
    else if !IsCommand(words) then if f in FirstMembers(s, fd, reached) then [ChatText(me.username, words)] else []
    else if words[0] == "LIST" then if f == fd then [ListText(s.rooms)] else []
    else if words[0] == "JOIN" && |words| == 2 then
      if RoomName(s, fd) == words[1] then [] else MoveAddressed(s, fd, words[1], f)
    else if words[0] == "LEAVE" && me.currRoom != 0 then MoveAddressed(s, fd, MAIN_ROOM, f)
    else if words[0] == "WHERE" && |words| == 1 then if f == fd then [WhereText(RoomName(s, fd))] else []
    else if words[0] == "QUIT" then if f in Audience(s, me.currRoom, fd) then [QuitText(me.username)] else []
    else []
  }

  /** The state in which the next frame of `fd` is handled, and the frame. */
  ghost function FrameOf(s: State, fd: int): Bytes
    requires fd in s.clients
  {
    StripCr(s.clients[fd].conn.input[..IndexOf(s.clients[fd].conn.input, LF)])
  }

  ghost function Taken(s: State, fd: int): State
    requires fd in s.clients && FrameReady(s.clients[fd].conn)
  {
    AfterCut(s, fd, IndexOf(s.clients[fd].conn.input, LF))
  }

  /** What a step from `s` to `t` addresses to client `f`. A notice that leaves
      nobody out excludes -1, which is no descriptor. */
  ghost function Addressed(s: State, step: Step, t: State, f: int): seq<Bytes> {
    if step.fd !in s.clients then []
    else
      var me := s.clients[step.fd].conn;
      match step
      case Naming(fd) =>
        if (f == fd && f != -1) || f in Audience(s, 0, -1) then [JoinedText(FrameOf(s, fd), MAIN_ROOM)] else []
      case Framing(fd, _, reached) =>
        if !FrameReady(me) then []
        else FrameAddressed(Logged(Taken(s, fd), fd, FrameOf(s, fd)), fd, FrameOf(s, fd), reached, f)
      case Closing(fd) =>
        if f in Audience(s, me.currRoom, fd) then [ClosedText(me.username)] else []
      case Flushing(fd) =>
        if fd !in t.clients && f in Audience(s, me.currRoom, fd) then [ClosedText(me.username)] else []
      case _ => []
  }

  /** The client got exactly these messages more. */
  ghost predicate Posts(s: State, t: State, f: int, messages: seq<Bytes>) {
    && f in s.clients && f in t.clients
    && t.clients[f].conn.out.outbox == s.clients[f].conn.out.outbox + messages
  }

  lemma NothingPosted(s: State, t: State, f: int)
    requires f in s.clients && f in t.clients && t.clients[f].conn.out.outbox == s.clients[f].conn.out.outbox
    ensures Posts(s, t, f, [])
  {
  }

  lemma DeliversPosts(s: State, t: State, to: set<int>, message: Bytes, id: nat, f: int)
    requires Delivers(s, t, to, message, id) && f in t.clients
    ensures Posts(s, t, f, if f in to then [message] else [])
  {
    hide Settle, Paced, Fits;
  }

  lemma PartedPosts(s: State, t: State, fd: int, message: Bytes, f: int)
    requires Parted(s, t, fd, message) && f in t.clients
    ensures Posts(s, t, f, if f in Audience(s, s.clients[fd].conn.currRoom, fd) then [message] else [])
  {
    hide Delivers, Spares;
    var id := s.clients[fd].conn.currRoom;
    DeliversPosts(s, t, Audience(s, id, fd) + {fd}, message, id, f);
  }

  lemma RelocatedPosts(s: State, t: State, fd: int, name: Bytes, f: int)
    requires Relocated(s, t, fd, name) && f in t.clients
    ensures fd in s.clients && Posts(s, t, f, MoveAddressed(s, fd, name, f))
  {
    hide InRoom, LeftText, JoinedText, Fits, Paced, RoomName, ListsMoved;
    if f != fd {
      assert OtherHears(s, t, fd, name, f);
    }
  }

  lemma FramePosts(s: State, t: State, fd: int, frame: Bytes, ok: bool, reached: nat, f: int)
    requires FrameDone(s, t, fd, frame, ok, reached) && f in t.clients
    ensures fd in s.clients && Posts(s, t, f, FrameAddressed(s, fd, frame, reached, f))
  {
    hide Delivers, Relocated, MoveAddressed, TokensOf, ListText, WhereText, QuitText, ChatText, RoomName, Posts, Spares;
    var words := TokensOf(frame);
    var me := s.clients[fd].conn;
    if frame == [] {
      NothingPosted(s, t, f);
    } else if !IsCommand(words) {
      var list := s.rooms[FindId(s.rooms, me.currRoom)].subscribed;
      DeliversPosts(s, t, FirstOf(list, reached, fd), ChatText(me.username, words), me.currRoom, f);
    } else if words[0] == "LIST" {
      DeliversPosts(s, t, {fd}, ListText(s.rooms), me.currRoom, f);
    } else if words[0] == "JOIN" && |words| == 2 {
      if RoomName(s, fd) == words[1] {
        NothingPosted(s, t, f);
      } else {
        RelocatedPosts(s, t, fd, words[1], f);
      }
    } else if words[0] == "LEAVE" && me.currRoom != 0 {
      RelocatedPosts(s, t, fd, MAIN_ROOM, f);
    } else if words[0] == "WHERE" && |words| == 1 {
      DeliversPosts(s, t, {fd}, WhereText(RoomName(s, fd)), me.currRoom, f);
    } else if words[0] == "QUIT" {
      PartedPosts(s, t, fd, QuitText(me.username), f);
    } else {
      NothingPosted(s, t, f);
    }
  }

  lemma AdmittedPosts(s: State, fd: int, t: State, f: int)
    requires Does(s, Naming(fd), t) && f in t.clients
    ensures Posts(s, t, f, Addressed(s, Naming(fd), t, f))
  {
    hide Delivers, Moved, WithRoom, JoinedText, StripCr, Posts;
    var name, r := FrameOf(s, fd), Taken(s, fd);
    var e := Entered(Named(r, fd, name), fd, MAIN_ROOM);
    DeliversPosts(e, t, Audience(e, 0, -1), JoinedText(name, MAIN_ROOM), 0, f);
    NewAudience(s, fd, f);
    PostsKnown(e, t, f, Addressed(s, Naming(fd), t, f));
    NewClients(s, fd, f);
    SamePosts(s, e, t, f, Addressed(s, Naming(fd), t, f));
  }

  /** After a client took its name, main-room holds it and those there before. */
  lemma NewAudience(s: State, fd: int, f: int)
    requires fd in s.clients && !s.clients[fd].conn.active && FrameReady(s.clients[fd].conn)
    requires Entered(Named(Taken(s, fd), fd, FrameOf(s, fd)), fd, MAIN_ROOM).clients[fd].conn.currRoom == 0
    ensures f in Audience(Entered(Named(Taken(s, fd), fd, FrameOf(s, fd)), fd, MAIN_ROOM), 0, -1)
       <==> (f == fd && f != -1) || f in Audience(s, 0, -1)
  {
    hide Moved, WithRoom, StripCr;
  }

  lemma NewClients(s: State, fd: int, f: int)
    requires fd in s.clients && !s.clients[fd].conn.active && FrameReady(s.clients[fd].conn)
    requires f in Entered(Named(Taken(s, fd), fd, FrameOf(s, fd)), fd, MAIN_ROOM).clients
    ensures f in s.clients
    ensures Entered(Named(Taken(s, fd), fd, FrameOf(s, fd)), fd, MAIN_ROOM).clients[f].conn.out == s.clients[f].conn.out
  {
    hide Moved, WithRoom, StripCr;
  }

  lemma SamePosts(s: State, e: State, t: State, f: int, messages: seq<Bytes>)
    requires Posts(e, t, f, messages) && f in s.clients && e.clients[f].conn.out.outbox == s.clients[f].conn.out.outbox
    ensures Posts(s, t, f, messages)
  {
  }

  lemma FramingPosts(s: State, fd: int, ok: bool, reached: nat, t: State, f: int)
    requires Does(s, Framing(fd, ok, reached), t) && f in t.clients
    ensures Posts(s, t, f, Addressed(s, Framing(fd, ok, reached), t, f))
  {
    hide FrameDone, FrameAddressed, StripCr, Posts;
    var r := Logged(Taken(s, fd), fd, FrameOf(s, fd));
    FramePosts(r, t, fd, FrameOf(s, fd), ok, reached, f);
    PostsKnown(r, t, f, FrameAddressed(r, fd, FrameOf(s, fd), reached, f));
    SamePosts(r, r, t, f, FrameAddressed(r, fd, FrameOf(s, fd), reached, f));
    SamePosts(s, r, t, f, FrameAddressed(r, fd, FrameOf(s, fd), reached, f));
  }

  lemma PostsKnown(s: State, t: State, f: int, messages: seq<Bytes>)
    requires Posts(s, t, f, messages)
    ensures f in s.clients && f in t.clients
  {
  }

  lemma FlushPosts(s: State, t: State, fd: int, f: int)
    requires FlushDone(s, t, fd) && f in t.clients
    ensures Posts(s, t, f, Addressed(s, Flushing(fd), t, f))
  {
    hide Parted, Pace, SentAll;
    if fd !in t.clients {
      var u, l :| SentOnly(s, u, fd, l) && Parted(u, t, fd, ClosedText(s.clients[fd].conn.username));
      PartedPosts(u, t, fd, ClosedText(s.clients[fd].conn.username), f);
    }
  }

  /** Each step gives a surviving client exactly what it addresses to it. */
  lemma StepDelivers(s: State, step: Step, t: State, f: int)
    requires Does(s, step, t) && !Admits(step, f) && f in t.clients
    ensures Posts(s, t, f, Addressed(s, step, t, f))
  {
    match step
    case Feeding(fd, data) =>
    case Naming(fd) =>
      AdmittedPosts(s, fd, t, f);
    case Framing(fd, ok, reached) =>
      FramingPosts(s, fd, ok, reached, t, f);
    case Expelling(fd) =>
    case Closing(fd) =>
      PartedPosts(s, t, fd, ClosedText(s.clients[fd].conn.username), f);
    case Flushing(fd) =>
      FlushPosts(s, t, fd, f);
    case Welcoming(_, _) =>
    case Ticking(_) =>
  }

  // ----------------------------------------------------------------- whole runs

  /** Along the run the steps address exactly these messages to `f`, in order. */
  ghost predicate Told(s: State, steps: seq<Step>, t: State, f: int, messages: seq<Bytes>)
    decreases |steps|
  {
    if steps == [] then s == t && messages == []
    else exists u: State, n: nat ::
      TellsFirst(s, steps[0], u, f, messages, n) && Told(u, steps[1..], t, f, messages[n..])
  }

  ghost predicate TellsFirst(s: State, step: Step, u: State, f: int, messages: seq<Bytes>, n: nat) {
    Does(s, step, u) && n <= |messages| && messages[..n] == Addressed(s, step, u, f)
  }

  /** Over any run that does not admit a new connection on its descriptor, what
      a client got is exactly what the steps addressed to it, in order: nothing
      is lost, doubled, reordered or misdirected. */
  lemma {:induction false} RunDelivers(s: State, steps: seq<Step>, t: State, f: int)
    returns (messages: seq<Bytes>)
    requires Path(s, steps, t) && f in t.clients && NeverAdmits(steps, f)
    ensures Posts(s, t, f, messages) && Told(s, steps, t, f, messages)
    decreases |steps|
  {
    hide Does, Posts, Addressed;
    if steps == [] {
      messages := [];
      NothingPosted(s, t, f);
    } else {
      var step, rest := steps[0], steps[1..];
      var u :| Does(s, step, u) && Path(u, rest, t);
      AdmitsFirst(steps, f);
      var later := RunDelivers(u, rest, t, f);
      PostsKnown(u, t, f, later);
      StepDelivers(s, step, u, f);
      var first := Addressed(s, step, u, f);
      messages := first + later;
      PostsBoth(s, u, t, f, first, later);
      assert messages[..|first|] == first && messages[|first|..] == later;
      assert TellsFirst(s, step, u, f, messages, |first|);
    }
  }

  lemma PostsBoth(s: State, u: State, t: State, f: int, a: seq<Bytes>, b: seq<Bytes>)
    requires Posts(s, u, f, a) && Posts(u, t, f, b)
    ensures Posts(s, t, f, a + b)
  {
    Assoc(s.clients[f].conn.out.outbox, a, b);
  }

  // -------------------------------------------------------------------- isolation

  lemma FirstOfGrows(list: seq<int>, n: nat, excluded: int)
    requires n <= |list|
    ensures FirstOf(list, n, excluded) <= FirstOf(list, |list|, excluded)
  {
    FirstOfIs(list, n, excluded);
    FirstOfIs(list, |list|, excluded);
    forall x | x in FirstOf(list, n, excluded) ensures x in FirstOf(list, |list|, excluded) {
      var i :| 0 <= i < n && list[i] == x;
    }
  }

  /** A chat message is addressed to nobody outside the sender's room; if its
      frame reports success, to everyone else in it. */
  lemma ChatStaysInRoom(s: State, fd: int, ok: bool, reached: nat, t: State, f: int)
    requires Inv(s, {}, {}) && Does(s, Framing(fd, ok, reached), t)
    requires FrameOf(s, fd) != [] && !IsCommand(TokensOf(FrameOf(s, fd)))
    ensures var told := Addressed(s, Framing(fd, ok, reached), t, f) != [];
      && (told ==> f in Audience(s, s.clients[fd].conn.currRoom, fd))
      && (ok ==> (told <==> f in Audience(s, s.clients[fd].conn.currRoom, fd)))
  {
    hide Inv, Delivers, StripCr, TokensOf, ChatText, FirstOf;
    AudienceIs(s, s.clients[fd].conn.currRoom, fd, {}, {});
    var list := s.rooms[FindId(s.rooms, s.clients[fd].conn.currRoom)].subscribed;
    FirstOfGrows(list, reached, fd);
  }
}
