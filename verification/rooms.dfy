/** The room table: room records with their subscriber lists. */
module Rooms {
  import opened Text

  /** A room; `subscribed` lists its members' descriptors in joining order. */
  datatype ChatRoom = ChatRoom(roomIdx: nat, roomName: Bytes, subscribed: seq<int>)

  const MAIN_ROOM: Bytes := "main-room"

  // ------------------------------------------------------ subscriber lists

  predicate NoDuplicates(s: seq<int>) {
    forall i, j :: 0 <= i < j < |s| ==> s[i] != s[j]
  }

  /** The list without the descriptors in `gone`, in the same order. */
  function Without(s: seq<int>, gone: set<int>): (r: seq<int>)
    ensures forall x :: x in r <==> x in s && x !in gone
  {
    if s == [] then []
    else
      var front, last := s[..|s| - 1], s[|s| - 1];
      assert s == front + [last];
      if last in gone then Without(front, gone) else Without(front, gone) + [last]
  }

  lemma {:induction false} WithoutKeepsDistinct(s: seq<int>, gone: set<int>)
    requires NoDuplicates(s)
    ensures NoDuplicates(Without(s, gone))
  {
    if s != [] {
      WithoutKeepsDistinct(s[..|s| - 1], gone);
      assert s[|s| - 1] !in s[..|s| - 1];
    }
  }

  lemma {:induction false} WithoutTwice(s: seq<int>, a: set<int>, b: set<int>)
    ensures Without(Without(s, a), b) == Without(s, a + b)
  {
    if s != [] {
      var front, last := s[..|s| - 1], s[|s| - 1];
      WithoutTwice(front, a, b);
      if last !in a {
        var kept := Without(front, a) + [last];
        assert kept[..|kept| - 1] == Without(front, a);
      }
    }
  }

  lemma {:induction false} WithoutNone(s: seq<int>, gone: set<int>)
    requires forall x :: x in s ==> x !in gone
    ensures Without(s, gone) == s
  {
    if s != [] {
      WithoutNone(s[..|s| - 1], gone);
      assert s == s[..|s| - 1] + [s[|s| - 1]];
    }
  }

  /** The first `n` descriptors of a list, except one. */
  ghost function FirstOf(s: seq<int>, n: nat, excluded: int): set<int>
    requires n <= |s|
  {
    if n == 0 then {}
    else FirstOf(s, n - 1, excluded) + (if s[n - 1] == excluded then {} else {s[n - 1]})
  }

  lemma FirstOfStep(s: seq<int>, n: nat, excluded: int)
    requires n < |s|
    ensures s[n] == excluded ==> FirstOf(s, n + 1, excluded) == FirstOf(s, n, excluded)
    ensures s[n] != excluded ==> FirstOf(s, n + 1, excluded) == FirstOf(s, n, excluded) + {s[n]}
  {
  }

  lemma {:induction false} FirstOfIs(s: seq<int>, n: nat, excluded: int)
    requires n <= |s|
    ensures forall x :: x in FirstOf(s, n, excluded) <==> x != excluded && exists i :: 0 <= i < n && s[i] == x
  {
    if n > 0 {
      FirstOfIs(s, n - 1, excluded);
    }
  }

  /** In a list without repetitions the next descriptor is new. */
  lemma NextIsNew(s: seq<int>, n: nat, excluded: int)
    requires NoDuplicates(s) && n < |s|
    ensures s[n] !in FirstOf(s, n, excluded)
  {
    FirstOfIs(s, n, excluded);
  }

  // ---------------------------------------------------------- finding rooms

  /** find_if by room id: the first match, or the end. */
  function FindId(rooms: seq<ChatRoom>, id: nat, start: nat := 0): (i: nat)
    requires start <= |rooms|
    ensures start <= i <= |rooms|
    ensures i < |rooms| ==> rooms[i].roomIdx == id
    ensures forall j :: start <= j < i ==> rooms[j].roomIdx != id
    decreases |rooms| - start
  {
    if start == |rooms| || rooms[start].roomIdx == id then start else FindId(rooms, id, start + 1)
  }

  /** find_if by room name: the first match, or the end. */
  function FindName(rooms: seq<ChatRoom>, name: Bytes, start: nat := 0): (i: nat)
    requires start <= |rooms|
    ensures start <= i <= |rooms|
    ensures i < |rooms| ==> rooms[i].roomName == name
    ensures forall j :: start <= j < i ==> rooms[j].roomName != name
    decreases |rooms| - start
  {
    if start == |rooms| || rooms[start].roomName == name then start else FindName(rooms, name, start + 1)
  }

  function NameOf(rooms: seq<ChatRoom>, id: nat): Bytes {
    var i := FindId(rooms, id);
    if i == |rooms| then [] else rooms[i].roomName
  }

  // ------------------------------------------------------- changes of rooms

  /** Every list without the descriptors in `gone`. */
  function RemoveAll(rooms: seq<ChatRoom>, gone: set<int>): (r: seq<ChatRoom>)
    ensures |r| == |rooms|
    ensures forall i :: 0 <= i < |r| ==> r[i] == rooms[i].(subscribed := Without(rooms[i].subscribed, gone))
  {
    seq(|rooms|, i requires 0 <= i < |rooms| => rooms[i].(subscribed := Without(rooms[i].subscribed, gone)))
  }

  /** The table without slot `i`. */
  function Cut(rooms: seq<ChatRoom>, i: nat): (r: seq<ChatRoom>)
    requires i < |rooms|
    ensures |r| == |rooms| - 1
    ensures forall j :: 0 <= j < i ==> r[j] == rooms[j]
    ensures forall j :: i <= j < |r| ==> r[j] == rooms[j + 1]
  {
    rooms[..i] + rooms[i + 1..]
  }

  /** Room `id` is dropped if it is empty and not main-room. */
  function DeleteEmpty(rooms: seq<ChatRoom>, id: nat): seq<ChatRoom> {
    var i := FindId(rooms, id);
    if i < |rooms| && rooms[i].roomName != MAIN_ROOM && rooms[i].subscribed == [] then
      Cut(rooms, i)
    else rooms
  }

  /** The rooms after the connections in `gone`, all of them in room `id`, left. */
  function Settle(rooms: seq<ChatRoom>, gone: set<int>, id: nat): seq<ChatRoom> {
    DeleteEmpty(RemoveAll(rooms, gone), id)
  }

  /** One more than the largest id of the first `n` rooms. */
  function NextIdBefore(rooms: seq<ChatRoom>, n: nat): (id: nat)
    requires n <= |rooms|
    ensures forall i :: 0 <= i < n ==> rooms[i].roomIdx < id
    ensures id == 0 || exists i :: 0 <= i < n && rooms[i].roomIdx == id - 1
  {
    if n == 0 then 0
    else
      var rest, last := NextIdBefore(rooms, n - 1), rooms[n - 1].roomIdx + 1;
      if rest < last then last else rest
  }

  function NextId(rooms: seq<ChatRoom>): (id: nat)
    ensures forall i :: 0 <= i < |rooms| ==> rooms[i].roomIdx < id
    ensures id == 0 || exists i :: 0 <= i < |rooms| && rooms[i].roomIdx == id - 1
  {
    NextIdBefore(rooms, |rooms|)
  }

  /** The rooms with one called `name` among them. */
  function WithRoom(rooms: seq<ChatRoom>, name: Bytes): (r: seq<ChatRoom>)
    ensures FindName(r, name) < |r|
  {
    if FindName(rooms, name) < |rooms| then rooms
    else
      var r := rooms + [ChatRoom(NextId(rooms), name, [])];
      assert r[|rooms|].roomName == name;
      r
  }

  /** `fd` moves to the end of list `k`. */
  function Moved(rooms: seq<ChatRoom>, fd: int, k: nat): seq<ChatRoom>
    requires k < |rooms|
  {
    var r := RemoveAll(rooms, {fd});
    r[k := r[k].(subscribed := r[k].subscribed + [fd])]
  }

  // ---------------------------------------------------------------- invariant

  /** main-room is first with id 0; ids and names are unique; no list repeats. */
  ghost predicate RoomsOk(rooms: seq<ChatRoom>) {
    && rooms != [] && rooms[0].roomIdx == 0 && rooms[0].roomName == MAIN_ROOM
    && (forall i, j :: 0 <= i < j < |rooms| ==>
          rooms[i].roomIdx != rooms[j].roomIdx && rooms[i].roomName != rooms[j].roomName)
    && (forall i :: 0 <= i < |rooms| ==> NoDuplicates(rooms[i].subscribed) && LineFree(rooms[i].roomName))
  }

  /** `fd` is in the list of room `id`. */
  ghost predicate Subscribed(rooms: seq<ChatRoom>, fd: int, id: nat) {
    exists i :: 0 <= i < |rooms| && rooms[i].roomIdx == id && fd in rooms[i].subscribed
  }

  /** The lists are the exact inverse of `where`, the room of every active client. */
  ghost predicate Membership(rooms: seq<ChatRoom>, where: map<int, nat>) {
    && (forall i, fd :: 0 <= i < |rooms| && fd in rooms[i].subscribed ==>
          fd in where && where[fd] == rooms[i].roomIdx)
    && (forall fd :: fd in where ==> Subscribed(rooms, fd, where[fd]))
  }

  /** No room but main-room is empty, except those in `vacant`. */
  ghost predicate Occupied(rooms: seq<ChatRoom>, vacant: set<nat>) {
    forall i :: 0 < i < |rooms| && rooms[i].subscribed == [] ==> rooms[i].roomIdx in vacant
  }

  ghost predicate Seated(rooms: seq<ChatRoom>, where: map<int, nat>, vacant: set<nat>) {
    RoomsOk(rooms) && Membership(rooms, where) && Occupied(rooms, vacant)
  }

  lemma FindIdIs(rooms: seq<ChatRoom>, k: nat)
    requires RoomsOk(rooms) && k < |rooms|
    ensures FindId(rooms, rooms[k].roomIdx) == k
  {
    var i := FindId(rooms, rooms[k].roomIdx);
    assert i <= k;
  }

  lemma FindNameIs(rooms: seq<ChatRoom>, k: nat)
    requires RoomsOk(rooms) && k < |rooms|
    ensures FindName(rooms, rooms[k].roomName) == k
  {
    var i := FindName(rooms, rooms[k].roomName);
    assert i <= k;
  }

  /** A client is in the list of its own room and in no other, exactly once. */
  lemma SubscribedOnce(rooms: seq<ChatRoom>, where: map<int, nat>, vacant: set<nat>, fd: int)
    requires Seated(rooms, where, vacant)
    ensures fd in where ==> exists i, k ::
      && 0 <= i < |rooms| && 0 <= k < |rooms[i].subscribed|
      && rooms[i].roomIdx == where[fd] && rooms[i].subscribed[k] == fd
      && forall j, l :: 0 <= j < |rooms| && 0 <= l < |rooms[j].subscribed| && rooms[j].subscribed[l] == fd ==>
           j == i && l == k
    ensures fd !in where ==> forall i :: 0 <= i < |rooms| ==> fd !in rooms[i].subscribed
  {
    if fd in where {
      assert Subscribed(rooms, fd, where[fd]);
      var i :| 0 <= i < |rooms| && rooms[i].roomIdx == where[fd] && fd in rooms[i].subscribed;
      var k :| 0 <= k < |rooms[i].subscribed| && rooms[i].subscribed[k] == fd;
      forall j, l | 0 <= j < |rooms| && 0 <= l < |rooms[j].subscribed| && rooms[j].subscribed[l] == fd
        ensures j == i && l == k
      {
        assert fd in rooms[j].subscribed;
        assert rooms[j].roomIdx == rooms[i].roomIdx;
      }
    }
  }

  // ------------------------------------------------------------- departures

  lemma RemoveAllOk(rooms: seq<ChatRoom>, gone: set<int>)
    requires RoomsOk(rooms)
    ensures RoomsOk(RemoveAll(rooms, gone))
  {
    forall i | 0 <= i < |rooms| ensures NoDuplicates(RemoveAll(rooms, gone)[i].subscribed) {
      WithoutKeepsDistinct(rooms[i].subscribed, gone);
    }
  }

  lemma SameIds(rooms: seq<ChatRoom>, others: seq<ChatRoom>, id: nat)
    requires |rooms| == |others|
    requires forall i :: 0 <= i < |rooms| ==> rooms[i].roomIdx == others[i].roomIdx
    ensures FindId(rooms, id) == FindId(others, id)
  {
    var i, j := FindId(rooms, id), FindId(others, id);
    assert forall k :: 0 <= k < i ==> others[k].roomIdx != id;
    assert forall k :: 0 <= k < j ==> rooms[k].roomIdx != id;
  }

  lemma RemoveAllMembership(rooms: seq<ChatRoom>, where: map<int, nat>, gone: set<int>)
    requires Membership(rooms, where)
    ensures Membership(RemoveAll(rooms, gone), where - gone)
  {
    hide Without;
    var r := RemoveAll(rooms, gone);
    forall fd | fd in where - gone ensures Subscribed(r, fd, where[fd]) {
      assert Subscribed(rooms, fd, where[fd]);
      var i :| 0 <= i < |rooms| && rooms[i].roomIdx == where[fd] && fd in rooms[i].subscribed;
      assert r[i].roomIdx == where[fd] && fd in r[i].subscribed;
    }
  }

  lemma RemoveAllOccupied(rooms: seq<ChatRoom>, where: map<int, nat>, gone: set<int>, id: nat, vacant: set<nat>)
    requires Membership(rooms, where) && Occupied(rooms, vacant)
    requires forall fd :: fd in gone && fd in where ==> where[fd] == id
    ensures Occupied(RemoveAll(rooms, gone), vacant + {id})
  {
    var r := RemoveAll(rooms, gone);
    forall i | 0 < i < |r| && r[i].subscribed == [] ensures r[i].roomIdx in vacant + {id} {
      if rooms[i].subscribed != [] {
        var fd := rooms[i].subscribed[0];
        assert fd in rooms[i].subscribed && fd !in r[i].subscribed;
      }
    }
  }

  lemma CutOk(rooms: seq<ChatRoom>, i: nat)
    requires RoomsOk(rooms) && 0 < i < |rooms|
    ensures RoomsOk(Cut(rooms, i))
  {
  }

  lemma CutMembership(rooms: seq<ChatRoom>, where: map<int, nat>, i: nat)
    requires Membership(rooms, where)
    requires 0 < i < |rooms| && rooms[i].subscribed == []
    ensures Membership(Cut(rooms, i), where)
  {
    var r := Cut(rooms, i);
    forall fd | fd in where ensures Subscribed(r, fd, where[fd]) {
      assert Subscribed(rooms, fd, where[fd]);
      var k :| 0 <= k < |rooms| && rooms[k].roomIdx == where[fd] && fd in rooms[k].subscribed;
      assert r[if k < i then k else k - 1] == rooms[k];
    }
  }

  lemma CutOccupied(rooms: seq<ChatRoom>, i: nat, vacant: set<nat>)
    requires RoomsOk(rooms) && Occupied(rooms, vacant) && 0 < i < |rooms|
    ensures Occupied(Cut(rooms, i), vacant - {rooms[i].roomIdx})
  {
    var r := Cut(rooms, i);
    forall j | 0 < j < |r| && r[j].subscribed == [] ensures r[j].roomIdx in vacant - {rooms[i].roomIdx} {
      assert r[j] == rooms[if j < i then j else j + 1];
    }
  }

  lemma KeptOccupied(rooms: seq<ChatRoom>, id: nat, vacant: set<nat>)
    requires RoomsOk(rooms) && Occupied(rooms, vacant)
    requires var i := FindId(rooms, id); i < |rooms| ==> rooms[i].roomName == MAIN_ROOM || rooms[i].subscribed != []
    ensures Occupied(rooms, vacant - {id})
  {
    forall j | 0 < j < |rooms| && rooms[j].subscribed == [] ensures rooms[j].roomIdx != id {
      FindIdIs(rooms, j);
    }
  }

  lemma DeleteEmptyKeeps(rooms: seq<ChatRoom>, where: map<int, nat>, id: nat, vacant: set<nat>)
    requires Seated(rooms, where, vacant)
    ensures Seated(DeleteEmpty(rooms, id), where, vacant - {id})
  {
    var i := FindId(rooms, id);
    if i < |rooms| && rooms[i].roomName != MAIN_ROOM && rooms[i].subscribed == [] {
      assert i > 0;
      hide RoomsOk, Membership, Occupied;
      CutOk(rooms, i);
      CutMembership(rooms, where, i);
      CutOccupied(rooms, i, vacant);
    } else {
      hide RoomsOk, Membership, Occupied;
      KeptOccupied(rooms, id, vacant);
    }
  }

  /** Departures keep the room table consistent and drop a room they empty. */
  lemma SettleKeeps(rooms: seq<ChatRoom>, where: map<int, nat>, gone: set<int>, id: nat, vacant: set<nat>)
    requires Seated(rooms, where, vacant)
    requires forall fd :: fd in gone && fd in where ==> where[fd] == id
    ensures Seated(Settle(rooms, gone, id), where - gone, vacant - {id})
  {
    RemoveAllOk(rooms, gone);
    RemoveAllMembership(rooms, where, gone);
    RemoveAllOccupied(rooms, where, gone, id, vacant);
    DeleteEmptyKeeps(RemoveAll(rooms, gone), where - gone, id, vacant + {id});
    assert vacant + {id} - {id} == vacant - {id};
  }

  lemma RemoveAllTwice(rooms: seq<ChatRoom>, a: set<int>, b: set<int>)
    ensures RemoveAll(RemoveAll(rooms, a), b) == RemoveAll(rooms, a + b)
  {
    forall i | 0 <= i < |rooms|
      ensures RemoveAll(RemoveAll(rooms, a), b)[i] == RemoveAll(rooms, a + b)[i]
    {
      WithoutTwice(rooms[i].subscribed, a, b);
    }
  }

  lemma RemoveAllCut(rooms: seq<ChatRoom>, i: nat, gone: set<int>)
    requires i < |rooms|
    ensures RemoveAll(Cut(rooms, i), gone) == Cut(RemoveAll(rooms, gone), i)
  {
  }

  /** A deleted room is not found again. */
  lemma CutNotFound(rooms: seq<ChatRoom>, i: nat)
    requires RoomsOk(rooms) && i < |rooms|
    ensures FindId(Cut(rooms, i), rooms[i].roomIdx) == |rooms| - 1
  {
    var r := Cut(rooms, i);
    assert forall j :: 0 <= j < |r| ==> r[j].roomIdx != rooms[i].roomIdx;
  }

  /** Leaving one after the other is leaving together, even when the first
      departure already deleted the room. */
  lemma SettleTwice(rooms: seq<ChatRoom>, a: set<int>, b: set<int>, id: nat)
    requires RoomsOk(rooms)
    ensures Settle(Settle(rooms, a, id), b, id) == Settle(rooms, a + b, id)
  {
    var r := RemoveAll(rooms, a);
    var i := FindId(r, id);
    RemoveAllOk(rooms, a);
    RemoveAllTwice(rooms, a, b);
    if DeleteEmpty(r, id) != r {
      RemoveAllCut(r, i, b);
      RemoveAllOk(r, b);
      CutNotFound(RemoveAll(r, b), i);
      SameIds(r, RemoveAll(r, b), id);
      assert RemoveAll(r, b)[i].subscribed == [];
    }
  }

  lemma RemoveAllNone(rooms: seq<ChatRoom>, gone: set<int>)
    requires forall i, fd :: 0 <= i < |rooms| && fd in rooms[i].subscribed ==> fd !in gone
    ensures RemoveAll(rooms, gone) == rooms
  {
    forall i | 0 <= i < |rooms| ensures RemoveAll(rooms, gone)[i] == rooms[i] {
      WithoutNone(rooms[i].subscribed, gone);
    }
  }

  /** When nobody leaves, an occupied room or main-room stays as it is. */
  lemma SettleNone(rooms: seq<ChatRoom>, id: nat, vacant: set<nat>)
    requires RoomsOk(rooms) && Occupied(rooms, vacant) && id !in vacant
    ensures Settle(rooms, {}, id) == rooms
  {
    RemoveAllNone(rooms, {});
  }

  /** Rooms keep their names: a room still there after a change of lists or
      deletions answers to the name it had. */
  lemma SettleKeepsNames(rooms: seq<ChatRoom>, gone: set<int>, id: nat, k: nat)
    requires RoomsOk(rooms)
    ensures var r := Settle(rooms, gone, id);
      FindId(r, k) < |r| ==> FindId(rooms, k) < |rooms| && NameOf(r, k) == NameOf(rooms, k)
  {
    var m := RemoveAll(rooms, gone);
    var r := Settle(rooms, gone, id);
    SameIds(rooms, m, k);
    var at := FindId(r, k);
    if at < |r| && r != m {
      RemoveAllOk(rooms, gone);
      var i := FindId(m, id);
      FindIdIs(m, if at < i then at else at + 1);
    }
  }

  // ---------------------------------------------------------------- joining

  lemma WithRoomOk(rooms: seq<ChatRoom>, name: Bytes)
    requires RoomsOk(rooms) && LineFree(name)
    ensures RoomsOk(WithRoom(rooms, name))
  {
    var r := WithRoom(rooms, name);
    if FindName(rooms, name) == |rooms| {
      assert r[|rooms|].roomName == name;
      FindNameIs(r, |rooms|);
    }
  }

  lemma MovedOk(rooms: seq<ChatRoom>, fd: int, k: nat)
    requires RoomsOk(rooms) && k < |rooms|
    ensures RoomsOk(Moved(rooms, fd, k))
  {
    RemoveAllOk(rooms, {fd});
  }

  lemma MovedMembership(rooms: seq<ChatRoom>, where: map<int, nat>, fd: int, k: nat)
    requires Membership(rooms, where) && k < |rooms|
    ensures Membership(Moved(rooms, fd, k), where[fd := rooms[k].roomIdx])
  {
    var r := Moved(rooms, fd, k);
    var now := where[fd := rooms[k].roomIdx];
    forall f | f in now ensures Subscribed(r, f, now[f]) {
      if f == fd {
        assert fd in r[k].subscribed;
      } else {
        assert Subscribed(rooms, f, where[f]);
        var i :| 0 <= i < |rooms| && rooms[i].roomIdx == where[f] && f in rooms[i].subscribed;
        assert f in r[i].subscribed;
      }
    }
  }

  /** Only the room the client left may now be empty. */
  lemma MovedOccupied(rooms: seq<ChatRoom>, where: map<int, nat>, fd: int, k: nat)
    requires Membership(rooms, where) && k < |rooms|
    requires forall i :: 0 < i < |rooms| && i != k ==> rooms[i].subscribed != []
    ensures Occupied(Moved(rooms, fd, k), if fd in where then {where[fd]} else {})
  {
    var r := Moved(rooms, fd, k);
    forall i | 0 < i < |r| && r[i].subscribed == []
      ensures fd in where && r[i].roomIdx == where[fd]
    {
      var f := rooms[i].subscribed[0];
      assert f in rooms[i].subscribed && f !in r[i].subscribed;
    }
  }

  lemma WithRoomMembership(rooms: seq<ChatRoom>, where: map<int, nat>, name: Bytes)
    requires Membership(rooms, where)
    ensures Membership(WithRoom(rooms, name), where)
  {
    var open := WithRoom(rooms, name);
    if open != rooms {
      assert open[|rooms|].subscribed == [];
      forall f | f in where ensures Subscribed(open, f, where[f]) {
        assert Subscribed(rooms, f, where[f]);
        var i :| 0 <= i < |rooms| && rooms[i].roomIdx == where[f] && f in rooms[i].subscribed;
        assert open[i] == rooms[i];
      }
    }
  }

  /** Entering a room by name, creating it when needed, keeps the table
      consistent; only the room left behind may now be empty. */
  lemma JoinKeeps(rooms: seq<ChatRoom>, where: map<int, nat>, fd: int, name: Bytes, open: seq<ChatRoom>, k: nat)
    requires Seated(rooms, where, {}) && LineFree(name)
    requires open == WithRoom(rooms, name) && k == FindName(open, name)
    ensures Seated(Moved(open, fd, k), where[fd := open[k].roomIdx], if fd in where then {where[fd]} else {})
    ensures NameOf(Moved(open, fd, k), open[k].roomIdx) == name
  {
    WithRoomOk(rooms, name);
    WithRoomMembership(rooms, where, name);
    MovedMembership(open, where, fd, k);
    MovedOccupied(open, where, fd, k);
    MovedOk(open, fd, k);
    FindIdIs(Moved(open, fd, k), k);
  }

  /** Entering a room renames none. */
  lemma JoinKeepsNames(rooms: seq<ChatRoom>, fd: int, name: Bytes, id: nat)
    requires RoomsOk(rooms) && LineFree(name) && FindId(rooms, id) < |rooms|
    ensures var open := WithRoom(rooms, name);
      NameOf(Moved(open, fd, FindName(open, name)), id) == NameOf(rooms, id)
  {
    var open := WithRoom(rooms, name);
    WithRoomOk(rooms, name);
    var r := Moved(open, fd, FindName(open, name));
    SameIds(open, r, id);
    FindIdIs(open, FindId(rooms, id));
  }

  // ------------------------------------------------------------- lists by name

  /** The members of the room called `name`, in joining order. */
  function ListNamed(rooms: seq<ChatRoom>, name: Bytes): seq<int> {
    var i := FindName(rooms, name);
    if i < |rooms| then rooms[i].subscribed else []
  }

  lemma ListIs(rooms: seq<ChatRoom>, i: nat)
    requires RoomsOk(rooms) && i < |rooms|
    ensures ListNamed(rooms, rooms[i].roomName) == rooms[i].subscribed
  {
    FindNameIs(rooms, i);
  }

  lemma SameNames(rooms: seq<ChatRoom>, others: seq<ChatRoom>, name: Bytes)
    requires |rooms| == |others|
    requires forall i :: 0 <= i < |rooms| ==> rooms[i].roomName == others[i].roomName
    ensures FindName(rooms, name) == FindName(others, name)
  {
    var i, j := FindName(rooms, name), FindName(others, name);
    assert forall k :: 0 <= k < i ==> others[k].roomName != name;
    assert forall k :: 0 <= k < j ==> rooms[k].roomName != name;
  }

  lemma {:induction false} WithoutAppend(a: seq<int>, b: seq<int>, gone: set<int>)
    ensures Without(a + b, gone) == Without(a, gone) + Without(b, gone)
  {
    if b == [] {
      assert a + b == a;
    } else {
      var front, last := b[..|b| - 1], b[|b| - 1];
      WithoutAppend(a, front, gone);
      assert (a + b)[..|a + b| - 1] == a + front;
    }
  }

  /** Departures only take members out of lists, also where they delete a room. */
  lemma ListSettled(rooms: seq<ChatRoom>, gone: set<int>, id: nat, name: Bytes)
    requires RoomsOk(rooms)
    ensures ListNamed(Settle(rooms, gone, id), name) == Without(ListNamed(rooms, name), gone)
  {
    SameNames(rooms, RemoveAll(rooms, gone), name);
    RemoveAllOk(rooms, gone);
    ListKept(RemoveAll(rooms, gone), id, name);
  }

  lemma ListKept(rooms: seq<ChatRoom>, id: nat, name: Bytes)
    requires RoomsOk(rooms)
    ensures ListNamed(DeleteEmpty(rooms, id), name) == ListNamed(rooms, name)
  {
    var r, i, k := DeleteEmpty(rooms, id), FindId(rooms, id), FindName(rooms, name);
    if r != rooms {
      CutOk(rooms, i);
      forall j | 0 <= j < |r| ensures r[j] == rooms[if j < i then j else j + 1] {
      }
      if k < |rooms| && k != i {
        ListIs(r, if k < i then k else k - 1);
      } else {
        NoSuchName(rooms, i, name);
      }
    }
  }

  /** A name that only a deleted room had is gone. */
  lemma NoSuchName(rooms: seq<ChatRoom>, i: nat, name: Bytes)
    requires RoomsOk(rooms) && i < |rooms| && (FindName(rooms, name) == i || FindName(rooms, name) == |rooms|)
    ensures FindName(Cut(rooms, i), name) == |rooms| - 1
  {
    var r := Cut(rooms, i);
    forall j | 0 <= j < |r| ensures r[j].roomName != name {
      var m := if j < i then j else j + 1;
      assert r[j] == rooms[m];
      FindNameIs(rooms, m);
    }
  }

  /** Moving to a room takes a member out of every list and ends that room's. */
  lemma ListMoved(rooms: seq<ChatRoom>, fd: int, to: Bytes, name: Bytes)
    requires RoomsOk(rooms) && LineFree(to)
    ensures var open := WithRoom(rooms, to);
      ListNamed(Moved(open, fd, FindName(open, to)), name)
        == Without(ListNamed(rooms, name), {fd}) + (if name == to then [fd] else [])
  {
    var open := WithRoom(rooms, to);
    var k := FindName(open, to);
    WithRoomOk(rooms, to);
    ListOpened(rooms, to, name);
    var r := Moved(open, fd, k);
    SameNames(open, r, name);
    if name != to {
      assert FindName(open, name) != k;
    }
  }

  lemma ListOpened(rooms: seq<ChatRoom>, to: Bytes, name: Bytes)
    requires RoomsOk(rooms) && LineFree(to)
    ensures ListNamed(WithRoom(rooms, to), name) == ListNamed(rooms, name)
  {
    var open := WithRoom(rooms, to);
    WithRoomOk(rooms, to);
    var k := FindName(rooms, name);
    if k < |rooms| {
      ListIs(open, k);
    } else if FindName(open, name) < |open| {
      assert FindName(open, name) == |rooms|;
      assert open[|rooms|].subscribed == [];
    }
  }
}
