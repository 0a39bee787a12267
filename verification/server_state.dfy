/** Snapshots of the whole server, its invariant, and what delivering a
    message, dropping a connection and moving between rooms do to it. */
module ServerState {
  import opened Text
  import opened Sockets
  import opened Rooms
  import opened Messages
  import opened ServerCommon

  /** A client with everything that is known about its descriptor: the
      connection, the dispatcher's write bit and the two byte logs. */
  datatype Link = Link(conn: Connection, wanted: bool, taken: Bytes, given: Bytes)

  /** `log` says on which descriptors sends broke down or interest was refused,
      and where sends would have blocked. */
  datatype State = State(clients: map<int, Link>, rooms: seq<ChatRoom>, now: nat, log: SendLog)

  // --------------------------------------------------------------- invariant

  function StripAll(frames: seq<Bytes>): (r: seq<Bytes>)
    ensures |r| == |frames|
    ensures forall i :: 0 <= i < |r| ==> r[i] == StripCr(frames[i])
  {
    seq(|frames|, i requires 0 <= i < |frames| => StripCr(frames[i]))
  }

  /** Input framing conserves bytes: the frames cut so far, each with its
      newline, and then the buffer, are all bytes received. */
  ghost predicate Framed(c: Connection, given: Bytes) {
    && JoinLines(c.frames) + c.input == given
    && AllLineFree(c.frames)
    && (forall i :: 0 <= i < |c.frames| ==> |c.frames[i]| <= MAX_FRAME_BYTES)
    && |c.input| <= MAX_INPUT_BUFFER_BYTES
  }

  /** The first frame became the username; every later one was handled, once
      and in order, without its carriage return. */
  ghost predicate Interpreted(c: Connection) {
    if c.active then c.frames != [] && c.username == StripCr(c.frames[0]) && c.handled == StripAll(c.frames[1..])
    else c.frames == [] && c.handled == [] && c.username == [] && c.currRoom == 0
  }

  /** The prompt first, then messages of one line each and room tables. */
  ghost predicate Orderly(outbox: seq<Bytes>) {
    && outbox != [] && outbox[0] == PROMPT
    && (forall i :: 1 <= i < |outbox| ==> Posted(outbox[i]))
  }

  ghost predicate LinkOk(l: Link, fd: int) {
    && l.conn.fd == fd && fd >= 0
    && LineFree(l.conn.username)
    && Framed(l.conn, l.given)
    && Interpreted(l.conn)
    && Orderly(l.conn.out.outbox)
  }

  /** Queue, interest flag and dispatcher agree: no wake-up is lost. */
  ghost predicate LinkLive(l: Link, now: nat) {
    OutputOk(l.conn.out, l.taken, now) && l.wanted == l.conn.out.armed
  }

  /** The room of every client that has sent its username. */
  ghost function Where(clients: map<int, Link>): map<int, nat> {
    map fd | fd in clients && clients[fd].conn.active :: clients[fd].conn.currRoom
  }

  ghost predicate LinksOk(clients: map<int, Link>, now: nat, shaky: set<int>) {
    && (forall fd :: fd in clients ==> LinkOk(clients[fd], fd))
    && (forall fd :: fd in clients && fd !in shaky ==> LinkLive(clients[fd], now))
  }

  /** The server's invariant. Between events `shaky` and `vacant` are empty;
      inside one, `shaky` holds a client whose output just failed and which is
      about to be dropped, and `vacant` the room a client is moving out of. */
  ghost predicate Inv(s: State, shaky: set<int>, vacant: set<nat>) {
    && s.now > 0
    && Seated(s.rooms, Where(s.clients), vacant)
    && LinksOk(s.clients, s.now, shaky)
  }

  // --------------------------------------------------------------- deliveries

  /** Bytes taken so far plus what may still be written in this iteration. */
  function Pace(l: Link, now: nat): nat {
    |l.taken| + Budget(l.conn.out, now)
  }

  /** No connection got more out of the iteration's write budget than it had. */
  ghost predicate Paced(s: State, t: State) {
    && t.now == s.now
    && forall fd :: fd in t.clients ==>
         || Pace(t.clients[fd], t.now) == MAX_BYTES_WRITTEN_PER_POLL
         || (fd in s.clients && Pace(t.clients[fd], t.now) == Pace(s.clients[fd], s.now))
  }

  lemma PacedTransitive(s: State, t: State, u: State)
    requires Paced(s, t) && Paced(t, u)
    ensures Paced(s, u)
  {
  }

  /** The client got exactly one more message and is otherwise as before. */
  ghost predicate Got(before: Link, after: Link, message: Bytes) {
    && after.conn == before.conn.(out := after.conn.out)
    && after.conn.out.outbox == before.conn.out.outbox + [message]
    && after.given == before.given
    && Fits(before, message)
  }

  /** Every client in `to` got exactly one copy or is gone; nothing else about
      any client changed; room `id`, where they all were, settled; only they
      were sent anything. */
  ghost predicate Delivers(s: State, t: State, to: set<int>, message: Bytes, id: nat) {
    && t.clients.Keys <= s.clients.Keys
    && (forall fd :: fd in s.clients && fd !in to ==> fd in t.clients && t.clients[fd] == s.clients[fd])
    && (forall fd :: fd in t.clients && fd in to ==> Got(s.clients[fd], t.clients[fd], message))
    && t.rooms == Settle(s.rooms, s.clients.Keys - t.clients.Keys, id)
    && Paced(s, t)
    && LoggedFor(to, s.log, t.log)
  }

  /** There is room for the message in the client's output queue. */
  predicate Fits(l: Link, message: Bytes) {
    l.conn.out.size + |message| <= MAX_PENDING_OUTPUT_BYTES
  }

  /** A send to `fd` broke down, or its write interest was refused. */
  ghost predicate Troubled(s: State, t: State, fd: int) {
    t.log.broken[fd] != s.log.broken[fd]
  }

  lemma TroubledIs(s: State, t: State, fd: int)
    ensures Troubled(s, t, fd) <==> t.log.broken[fd] != s.log.broken[fd]
  {
  }

  lemma LogIsFree(s: State, t: State)
    requires Inv(s, {}, {}) && t == s.(log := t.log)
    ensures Inv(t, {}, {})
  {
  }

  /** Exactly those were dropped that had no room for the message or whose own
      send or interest failed. */
  ghost predicate Spares(s: State, t: State, to: set<int>, message: Bytes) {
    forall fd :: fd in to && fd in s.clients ==>
      (fd in t.clients <==> Fits(s.clients[fd], message) && !Troubled(s, t, fd))
  }

  /** The members of room `id` except `excluded`. */
  ghost function Audience(s: State, id: nat, excluded: int): set<int> {
    set fd | fd in s.clients && fd != excluded && s.clients[fd].conn.active && s.clients[fd].conn.currRoom == id
  }

  /** Dropping `fd`, which was in room `id`. */
  ghost function Dropped(s: State, fd: int): State
    requires fd in s.clients
  {
    State(s.clients - {fd}, Settle(s.rooms, {fd}, s.clients[fd].conn.currRoom), s.now, s.log)
  }

  lemma WhereWithout(clients: map<int, Link>, fd: int)
    ensures Where(clients - {fd}) == Where(clients) - {fd}
  {
  }

  lemma WhereReplaced(clients: map<int, Link>, fd: int, l: Link)
    requires fd in clients
    requires l.conn.active == clients[fd].conn.active && l.conn.currRoom == clients[fd].conn.currRoom
    ensures Where(clients[fd := l]) == Where(clients)
  {
  }

  /** What happened to a client's link does not matter once it is dropped. */
  lemma DroppedForgets(s: State, fd: int, l: Link, log: SendLog)
    requires fd in s.clients && l.conn.currRoom == s.clients[fd].conn.currRoom
    ensures Dropped(s.(clients := s.clients[fd := l], log := log), fd) == Dropped(s, fd).(log := log)
  {
    assert s.clients[fd := l] - {fd} == s.clients - {fd};
  }

  lemma DroppedKeeps(s: State, fd: int, shaky: set<int>, vacant: set<nat>)
    requires Inv(s, shaky, vacant) && fd in s.clients
    ensures Inv(Dropped(s, fd), shaky - {fd}, vacant - {s.clients[fd].conn.currRoom})
  {
    var id := s.clients[fd].conn.currRoom;
    SettleKeeps(s.rooms, Where(s.clients), {fd}, id, vacant);
    WhereWithout(s.clients, fd);
  }

  lemma DroppedDelivers(s: State, fd: int, message: Bytes, log: SendLog)
    requires fd in s.clients && LoggedFor({fd}, s.log, log)
    ensures Delivers(s, Dropped(s, fd).(log := log), {fd}, message, s.clients[fd].conn.currRoom)
  {
    assert s.clients.Keys - (s.clients - {fd}).Keys == {fd};
  }

  /** Replacing one link without touching room or state of the client. */
  lemma LinkReplaced(s: State, fd: int, l: Link, shaky: set<int>, vacant: set<nat>)
    requires Inv(s, shaky, vacant) && fd in s.clients
    requires LinkOk(l, fd) && LinkLive(l, s.now)
    requires l.conn.active == s.clients[fd].conn.active && l.conn.currRoom == s.clients[fd].conn.currRoom
    ensures Inv(s.(clients := s.clients[fd := l]), shaky - {fd}, vacant)
  {
    WhereReplaced(s.clients, fd, l);
  }

  lemma GotOk(before: Link, after: Link, message: Bytes, fd: int)
    requires LinkOk(before, fd) && Got(before, after, message) && Posted(message)
    ensures LinkOk(after, fd)
  {
  }

  lemma SeatedRooms(rooms: seq<ChatRoom>, where: map<int, nat>, vacant: set<nat>)
    requires Seated(rooms, where, vacant)
    ensures RoomsOk(rooms) && Occupied(rooms, vacant)
  {
  }

  /** One message to one client. */
  lemma OneGot(s: State, fd: int, l: Link, log: SendLog, message: Bytes, id: nat, shaky: set<int>, vacant: set<nat>)
    requires Inv(s, shaky, vacant) && fd in s.clients && id !in vacant && LoggedFor({fd}, s.log, log)
    requires Got(s.clients[fd], l, message) && LinkLive(l, s.now) && Posted(message)
    requires Pace(l, s.now) == Pace(s.clients[fd], s.now)
    ensures Inv(s.(clients := s.clients[fd := l], log := log), shaky - {fd}, vacant)
    ensures Delivers(s, s.(clients := s.clients[fd := l], log := log), {fd}, message, id)
  {
    hide LinkOk, Seated, Settle;
    GotOk(s.clients[fd], l, message, fd);
    LinkReplaced(s, fd, l, shaky, vacant);
    SeatedRooms(s.rooms, Where(s.clients), vacant);
    SettleNone(s.rooms, id, vacant);
    assert s.clients.Keys - s.clients[fd := l].Keys == {};
  }

  /** A notification under way: `done` are the members it reached. */
  ghost predicate Notified(s: State, t: State, done: set<int>, message: Bytes, id: nat,
                           shaky: set<int>, vacant: set<nat>) {
    && Inv(s, shaky, vacant) && Inv(t, shaky, vacant)
    && Delivers(s, t, done, message, id) && Spares(s, t, done, message)
  }

  lemma NothingDelivered(s: State, message: Bytes, id: nat, shaky: set<int>, vacant: set<nat>)
    requires Inv(s, shaky, vacant) && id !in vacant
    ensures Notified(s, s, {}, message, id, shaky, vacant)
  {
    SettleNone(s.rooms, id, vacant);
    assert s.clients.Keys - s.clients.Keys == {};
  }

  /** Everyone who is to hear something in room `id` is in its list. */
  lemma AudienceIs(s: State, id: nat, excluded: int, shaky: set<int>, vacant: set<nat>)
    requires Inv(s, shaky, vacant)
    ensures FindId(s.rooms, id) == |s.rooms| ==> Audience(s, id, excluded) == {}
    ensures FindId(s.rooms, id) < |s.rooms| ==> var list := s.rooms[FindId(s.rooms, id)].subscribed;
      Audience(s, id, excluded) == FirstOf(list, |list|, excluded) && FirstOf(list, 0, excluded) == {}
    ensures FindId(s.rooms, id) < |s.rooms| ==> NoDuplicates(s.rooms[FindId(s.rooms, id)].subscribed)
  {
    var k := FindId(s.rooms, id);
    if k < |s.rooms| {
      FirstOfIs(s.rooms[k].subscribed, |s.rooms[k].subscribed|, excluded);
    }
    forall fd ensures fd in Audience(s, id, excluded) <==>
      k < |s.rooms| && fd in s.rooms[k].subscribed && fd != excluded
    {
      MemberIsSubscribed(s, id, fd, vacant);
    }
  }

  lemma LinkFacts(s: State, fd: int, shaky: set<int>, vacant: set<nat>)
    requires Inv(s, shaky, vacant) && fd in s.clients
    ensures s.now > 0 && LinkOk(s.clients[fd], fd)
    ensures fd !in shaky ==> LinkLive(s.clients[fd], s.now)
  {
  }

  lemma MemberIsSubscribed(s: State, id: nat, fd: int, vacant: set<nat>)
    requires Seated(s.rooms, Where(s.clients), vacant)
    ensures var k := FindId(s.rooms, id);
      fd in Where(s.clients) && Where(s.clients)[fd] == id <==> k < |s.rooms| && fd in s.rooms[k].subscribed
  {
    var w := Where(s.clients);
    if fd in w && w[fd] == id {
      assert Subscribed(s.rooms, fd, id);
      var i :| 0 <= i < |s.rooms| && s.rooms[i].roomIdx == id && fd in s.rooms[i].subscribed;
      FindIdIs(s.rooms, i);
    }
  }

  /** Deliveries add up. */
  lemma DeliversBoth(s: State, t: State, u: State, a: set<int>, b: set<int>, message: Bytes, id: nat)
    requires RoomsOk(s.rooms) && a !! b
    requires Delivers(s, t, a, message, id) && Delivers(t, u, b, message, id)
    ensures Delivers(s, u, a + b, message, id)
    ensures Spares(s, t, a, message) && Spares(t, u, b, message) ==> Spares(s, u, a + b, message)
    ensures Spares(s, t, a, message) ==> Spares(s, u, a, message)
  {
    SettleTwice(s.rooms, s.clients.Keys - t.clients.Keys, t.clients.Keys - u.clients.Keys, id);
    assert s.clients.Keys - t.clients.Keys + (t.clients.Keys - u.clients.Keys) == s.clients.Keys - u.clients.Keys;
    PacedTransitive(s, t, u);
  }

  /** What trying to give one client a message does: it gets the message and
      stays consistent, or, if it has no room for it, its send breaks down or
      its interest is refused, it is dropped. */
  ghost predicate OneStep(s: State, t: State, fd: int, message: Bytes) {
    && fd in s.clients
    && LoggedOnce(fd, s.log, t.log)
    && (fd in t.clients <==> Fits(s.clients[fd], message) && !Troubled(s, t, fd))
    && if fd in t.clients then
         && t == s.(clients := s.clients[fd := t.clients[fd]], log := t.log)
         && Got(s.clients[fd], t.clients[fd], message)
         && LinkLive(t.clients[fd], t.now)
         && Pace(t.clients[fd], t.now) == Pace(s.clients[fd], s.now)
       else t == Dropped(s, fd).(log := t.log)
  }

  lemma OneStepKeeps(s: State, t: State, fd: int, message: Bytes, shaky: set<int>, vacant: set<nat>)
    requires Inv(s, shaky, vacant) && OneStep(s, t, fd, message) && Posted(message)
    requires fd !in shaky && s.clients[fd].conn.currRoom !in vacant
    ensures Inv(t, shaky, vacant)
    ensures Delivers(s, t, {fd}, message, s.clients[fd].conn.currRoom) && Spares(s, t, {fd}, message)
  {
    if fd in t.clients {
      OneGot(s, fd, t.clients[fd], t.log, message, s.clients[fd].conn.currRoom, shaky, vacant);
    } else {
      DroppedKeeps(s, fd, shaky, vacant);
      DroppedDelivers(s, fd, message, t.log);
    }
    assert shaky - {fd} == shaky;
  }

  /** One more recipient of a notification. */
  lemma OneMore(r: State, s: State, t: State, done: set<int>, fd: int, message: Bytes, id: nat,
                shaky: set<int>, vacant: set<nat>)
    requires Notified(r, s, done, message, id, shaky, vacant) && fd !in done
    requires OneStep(s, t, fd, message) && Posted(message)
    requires fd !in shaky && s.clients[fd].conn.currRoom == id && id !in vacant
    ensures Notified(r, t, done + {fd}, message, id, shaky, vacant)
  {
    hide Delivers, OneStep, Seated, LinksOk;
    OneStepKeeps(s, t, fd, message, shaky, vacant);
    RoomsAreOk(r, shaky, vacant);
    DeliversBoth(r, s, t, done, {fd}, message, id);
  }

  lemma RoomsAreOk(s: State, shaky: set<int>, vacant: set<nat>)
    requires Inv(s, shaky, vacant)
    ensures RoomsOk(s.rooms)
  {
  }

  lemma NotifiedMeans(s: State, t: State, done: set<int>, message: Bytes, id: nat, shaky: set<int>, vacant: set<nat>)
    requires Notified(s, t, done, message, id, shaky, vacant)
    ensures Inv(t, shaky, vacant) && Delivers(s, t, done, message, id) && Spares(s, t, done, message)
  {
  }

  /** A listed member that was not reached yet is as it was. */
  lemma StillMember(s: State, t: State, recipients: seq<int>, i: nat, excluded: int, id: nat,
                    message: Bytes, shaky: set<int>, vacant: set<nat>)
    requires FindId(s.rooms, id) < |s.rooms| && recipients == s.rooms[FindId(s.rooms, id)].subscribed
    requires i < |recipients| && recipients[i] != excluded && shaky <= {excluded}
    requires Notified(s, t, FirstOf(recipients, i, excluded), message, id, shaky, vacant)
    ensures var fd := recipients[i];
      && fd !in FirstOf(recipients, i, excluded) && fd !in shaky
      && fd in t.clients && fd in s.clients && t.clients[fd] == s.clients[fd]
      && t.clients[fd].conn.active && t.clients[fd].conn.currRoom == id
      && t.now > 0 && LinkLive(t.clients[fd], t.now)
  {
    hide LinkOk, LinkLive;
    NextIsNew(recipients, i, excluded);
    MemberIsSubscribed(s, id, recipients[i], vacant);
  }
}
