/** What a client's next frame does, told by its bytes. */
module FrameTheorems {
  import opened Text
  import opened Sockets
  import opened Rooms
  import opened Messages
  import opened ServerState
  import opened ServerEffects
  import opened ServerRuns
  import opened DeliveryTheorems

  // --------------------------------------------------------------- first words

  /** The text is the word, or begins with the word and a space. */
  predicate Opens(text: Bytes, word: Bytes) {
    text == word || word + " " <= text
  }

  /** Two space-free words that both end at the first space are the same. */
  lemma SameFirstWord(a: Bytes, b: Bytes, x: Bytes, y: Bytes)
    requires SPACE !in a && SPACE !in b && a + [SPACE] + x == b + [SPACE] + y
    ensures a == b
  {
    IndexAfter(a, SPACE, x);
    IndexAfter(b, SPACE, y);
  }

  lemma SpaceEndedOpens(text: Bytes, word: Bytes)
    requires text != [] && SPACE !in word
    ensures Opens(text, word) <==> word + [SPACE] <= SpaceEnded(text)
  {
    if text[|text| - 1] != SPACE && word + [SPACE] <= SpaceEnded(text) && |word| == |text| {
      assert SpaceEnded(text)[..|word|] == text;
      assert (word + [SPACE])[..|word|] == word;
    }
  }

  /** A text opens with a word exactly if that is its first token. */
  lemma FirstToken(text: Bytes, word: Bytes)
    requires text != [] && SPACE !in word
    ensures TokensOf(text) != [] && (Opens(text, word) <==> TokensOf(text)[0] == word)
  {
    hide SpaceEnded, Opens;
    var words := TokensOf(text);
    RejoinTokens(text);
    TokensAreSpaceFree(text);
    SpaceEndedOpens(text, word);
    var rest := Rejoin(words[1..]);
    assert SpaceEnded(text) == words[0] + [SPACE] + rest;
    assert words[0] in words;
    if word + [SPACE] <= SpaceEnded(text) {
      SameFirstWord(word, words[0], SpaceEnded(text)[|word| + 1..], rest);
    }
  }

  // ------------------------------------------------------------------- frames

  /** A client's next line, up to its newline or carriage return and newline,
      is this text. */
  ghost predicate NextIs(s: State, fd: int, text: Bytes) {
    && fd in s.clients
    && '\n' !in text && (text != [] ==> text[|text| - 1] != '\r')
    && (text + "\n" <= s.clients[fd].conn.input || text + "\r\n" <= s.clients[fd].conn.input)
  }

  ghost predicate Says(s: State, fd: int, text: Bytes) {
    NextIs(s, fd, text) && s.clients[fd].conn.active
  }

  lemma NextIsFrame(s: State, fd: int, text: Bytes)
    requires NextIs(s, fd, text)
    ensures IndexOf(s.clients[fd].conn.input, LF) < |s.clients[fd].conn.input| && FrameOf(s, fd) == text
  {
    var input := s.clients[fd].conn.input;
    if text + [LF] <= input {
      IndexAfter(text, LF, input[|text| + 1..]);
      assert input == text + [LF] + input[|text| + 1..];
    } else {
      IndexAfter(text + [CR], LF, input[|text| + 2..]);
      assert input == text + [CR] + [LF] + input[|text| + 2..];
    }
  }

  /** The state in which the frame is handled: only the speaker's record of
      its input has changed. */
  ghost predicate Handling(s: State, r: State, fd: int) {
    && fd in s.clients && fd in r.clients && r.rooms == s.rooms && r.now == s.now && r.log == s.log
    && r.clients == s.clients[fd := r.clients[fd]]
    && var c := r.clients[fd].conn;
       c == s.clients[fd].conn.(input := c.input, frames := c.frames, handled := c.handled)
  }

  lemma SaidIsHandled(s: State, fd: int, text: Bytes, ok: bool, reached: nat, t: State) returns (r: State)
    requires Says(s, fd, text) && Does(s, Framing(fd, ok, reached), t)
    ensures Handling(s, r, fd) && FrameDone(r, t, fd, text, ok, reached)
    ensures forall id, f :: f != fd ==> (f in Audience(r, id, fd) <==> f in Audience(s, id, fd))
    ensures RoomName(r, fd) == RoomName(s, fd)
  {
    hide FrameDone, StripCr;
    NextIsFrame(s, fd, text);
    r := Logged(Taken(s, fd), fd, text);
  }

  /** The client got exactly this message, or is gone because it had no room
      for it or its own send or interest failed. */
  ghost predicate IsTold(s: State, t: State, f: int, message: Bytes) {
    && f in s.clients
    && (f in t.clients ==> t.clients[f].conn.out.outbox == s.clients[f].conn.out.outbox + [message])
    && (f in t.clients <==>
          s.clients[f].conn.out.size + |message| <= 16384 && t.log.broken[f] == s.log.broken[f])
  }

  /** Nothing about the client changed. */
  ghost predicate Undisturbed(s: State, t: State, f: int) {
    f in s.clients && f in t.clients && t.clients[f] == s.clients[f]
  }

  lemma DeliversTells(s: State, r: State, t: State, fd: int, to: set<int>, message: Bytes, id: nat, f: int)
    requires Handling(s, r, fd) && f in s.clients
    requires Delivers(r, t, to, message, id)
    ensures f in to && Spares(r, t, {f}, message) ==> IsTold(s, t, f, message)
    ensures f !in to && f != fd ==> Undisturbed(s, t, f)
    ensures f !in to ==> f in t.clients && t.clients[f].conn.out == s.clients[f].conn.out
  {
    hide Settle, Paced;
    if f in to && Spares(r, t, {f}, message) {
      assert f in {f};
    }
  }

  lemma SparesEach(s: State, t: State, to: set<int>, message: Bytes, f: int)
    requires Spares(s, t, to, message) && f in to
    ensures Spares(s, t, {f}, message)
  {
    hide Fits, Troubled;
  }

  // ----------------------------------------------------------------------- QUIT

  /** QUIT, with or without more words: the speaker is gone, everyone else in
      its room was told once, and nobody outside the room heard anything. */
  lemma QuitLeaves(s: State, fd: int, text: Bytes, ok: bool, reached: nat, t: State, f: int)
    requires Says(s, fd, text) && Opens(text, "QUIT") && Does(s, Framing(fd, ok, reached), t)
    ensures !ok && fd !in t.clients
    ensures f in s.clients && f != fd ==>
      if f in Audience(s, s.clients[fd].conn.currRoom, fd) then
        IsTold(s, t, f, "> server: " + s.clients[fd].conn.username + " has disconnected\n")
      else Undisturbed(s, t, f)
  {
    hide Does, Handling, TokensOf, Delivers, Spares, IsTold, Audience, RoomName, Opens, Says;
    OpensSomething(text, "QUIT");
    FirstToken(text, "QUIT");
    var r := SaidIsHandled(s, fd, text, ok, reached, t);
    SpeakerSame(s, r, fd);
    QuitIs(s.clients[fd].conn.username);
    var id, message := s.clients[fd].conn.currRoom, QuitText(s.clients[fd].conn.username);
    if f in s.clients && f != fd {
      DeliversTells(s, r, t, fd, Audience(r, id, fd) + {fd}, message, id, f);
      if f in Audience(r, id, fd) {
        SparesEach(r, t, Audience(r, id, fd), message, f);
      }
    }
  }

  lemma OpensSomething(text: Bytes, word: Bytes)
    requires Opens(text, word) && word != []
    ensures text != []
  {
  }

  lemma SpeakerSame(s: State, r: State, fd: int)
    requires Handling(s, r, fd)
    ensures fd in s.clients && r.clients.Keys == s.clients.Keys && r.rooms == s.rooms
    ensures r.clients[fd].conn.username == s.clients[fd].conn.username
    ensures r.clients[fd].conn.currRoom == s.clients[fd].conn.currRoom
    ensures r.clients[fd].conn.out == s.clients[fd].conn.out
  {
  }

  lemma QuitIs(user: Bytes)
    ensures QuitText(user) == "> server: " + user + " has disconnected\n"
  {
    assert "> server: " + (user + " has disconnected") + [LF] == "> server: " + user + " has disconnected\n";
  }

  // --------------------------------------------------------------- LIST and WHERE

  /** What an answer is to the speaker and to everyone else. */
  lemma AnswerTells(s: State, r: State, t: State, fd: int, message: Bytes, ok: bool, f: int)
    requires Handling(s, r, fd) && Answered(r, t, fd, message, ok)
    ensures IsTold(s, t, fd, message) && ok == (fd in t.clients)
    ensures f in s.clients && f != fd ==> Undisturbed(s, t, f)
  {
    hide Delivers, Spares, IsTold;
    SpeakerSame(s, r, fd);
    DeliversTells(s, r, t, fd, {fd}, message, s.clients[fd].conn.currRoom, fd);
    if f in s.clients && f != fd {
      DeliversTells(s, r, t, fd, {fd}, message, s.clients[fd].conn.currRoom, f);
    }
  }

  /** LIST, with or without more words: the speaker gets the table, one line
      for each room, and nobody else anything. */
  lemma ListAnswers(s: State, fd: int, text: Bytes, ok: bool, reached: nat, t: State, f: int)
    returns (table: Bytes, rows: seq<Bytes>)
    requires Inv(s, {}, {}) && Says(s, fd, text) && Opens(text, "LIST") && Does(s, Framing(fd, ok, reached), t)
    ensures IsTold(s, t, fd, table) && ok == (fd in t.clients)
    ensures Lines(table) ==
      ["+------+----------------+", "| ID   | Room           |", "+------+----------------+"] + rows
      + ["+------+----------------+"]
    ensures |rows| == |s.rooms|
    ensures forall i :: 0 <= i < |rows| ==>
      rows[i] == "| " + Decimal(s.rooms[i].roomIdx) + "\t| " + s.rooms[i].roomName
    ensures f in s.clients && f != fd ==> Undisturbed(s, t, f)
  {
    hide Does, Handling, TokensOf, Answered, IsTold, RoomName, Opens, Says, Inv, Lines, Decimal, ListText;
    OpensSomething(text, "LIST");
    FirstToken(text, "LIST");
    var r := SaidIsHandled(s, fd, text, ok, reached, t);
    SpeakerSame(s, r, fd);
    table, rows := ListText(s.rooms), RoomLines(s.rooms);
    AnswerTells(s, r, t, fd, table, ok, f);
    RoomNamesLineFree(s);
    ListSplits(s.rooms);
  }

  lemma RoomNamesLineFree(s: State)
    requires Inv(s, {}, {})
    ensures NamesLineFree(s.rooms)
  {
  }

  /** WHERE alone: the speaker is told its room, and nobody else anything. */
  lemma WhereTells(s: State, fd: int, text: Bytes, ok: bool, reached: nat, t: State, f: int)
    requires Says(s, fd, text) && SpaceEnded(text) == "WHERE " && Does(s, Framing(fd, ok, reached), t)
    ensures IsTold(s, t, fd, if RoomName(s, fd) == [] then "> server: room not found\n"
                             else "> server: you are in room " + RoomName(s, fd) + "\n")
    ensures ok == (fd in t.clients)
    ensures f in s.clients && f != fd ==> Undisturbed(s, t, f)
  {
    hide Does, Handling, TokensOf, Answered, IsTold, RoomName, Says, SpaceEnded;
    OneWord(text, "WHERE");
    var r := SaidIsHandled(s, fd, text, ok, reached, t);
    SpeakerSame(s, r, fd);
    WhereIs(RoomName(s, fd));
    AnswerTells(s, r, t, fd, WhereText(RoomName(s, fd)), ok, f);
  }

  lemma OneWord(text: Bytes, word: Bytes)
    requires SPACE !in word && SpaceEnded(text) == word + [SPACE]
    ensures text != [] && TokensOf(text) == [word]
  {
    hide TokensOf;
    RejoinCons(word, []);
    assert [word] + [] == [word];
    TokensUnique(text, [word]);
  }

  lemma TwoWords(text: Bytes, first: Bytes, second: Bytes)
    requires SPACE !in first && SPACE !in second && SpaceEnded(text) == first + [SPACE] + second + [SPACE]
    ensures text != [] && TokensOf(text) == [first, second]
  {
    hide TokensOf;
    RejoinCons(second, []);
    RejoinCons(first, [second]);
    assert [second] + [] == [second] && [first] + [second] == [first, second];
    TokensUnique(text, [first, second]);
  }

  lemma WhereIs(room: Bytes)
    ensures WhereText(room) == if room == [] then "> server: room not found\n"
                               else "> server: you are in room " + room + "\n"
  {
    assert "> server: " + ("you are in room " + room) + [LF] == "> server: you are in room " + room + "\n";
  }

  // -------------------------------------------------------------- JOIN and LEAVE

  /** What a move is to client `f`: the mover is told that it joined, those in
      the room it leaves that it left, those in the room it enters that it
      joined, and nobody else anything. */
  ghost predicate MoveTells(s: State, t: State, fd: int, name: Bytes, f: int) {
    && fd in s.clients && f in s.clients
    && var user := s.clients[fd].conn.username;
       if f == fd then IsTold(s, t, f, "> server: " + user + " joined room " + name + "\n")
       else if InRoom(s, f, RoomName(s, fd)) then
         IsTold(s, t, f, "> server: " + user + " left room " + RoomName(s, fd) + "\n")
       else if InRoom(s, f, name) then IsTold(s, t, f, "> server: " + user + " joined room " + name + "\n")
       else Undisturbed(s, t, f)
  }

  lemma MoveIs(user: Bytes, room: Bytes)
    ensures LeftText(user, room) == "> server: " + user + " left room " + room + "\n"
    ensures JoinedText(user, room) == "> server: " + user + " joined room " + room + "\n"
  {
    assert "> server: " + (user + " left room " + room) + [LF] == "> server: " + user + " left room " + room + "\n";
    assert "> server: " + (user + " joined room " + room) + [LF] == "> server: " + user + " joined room " + room + "\n";
  }

  lemma RelocatedTells(s: State, r: State, t: State, fd: int, name: Bytes, f: int)
    requires Handling(s, r, fd) && Relocated(r, t, fd, name) && f in s.clients
    ensures MoveTells(s, t, fd, name, f) && (fd in t.clients ==> RoomName(t, fd) == name)
  {
    hide Paced, ListsMoved, LeftText, JoinedText, NameOf;
    var user := s.clients[fd].conn.username;
    MoveIs(user, RoomName(s, fd));
    MoveIs(user, name);
    if f != fd {
      assert OtherHears(r, t, fd, name, f);
    }
  }

  /** Nobody heard anything and nobody changed room. */
  ghost predicate NothingTold(s: State, t: State, fd: int) {
    && fd in s.clients && t.clients.Keys == s.clients.Keys
    && (forall f :: f in s.clients && f != fd ==> Undisturbed(s, t, f))
    && t.clients[fd].conn.out == s.clients[fd].conn.out
    && RoomName(t, fd) == RoomName(s, fd)
  }

  lemma SameTells(s: State, r: State, fd: int)
    requires Handling(s, r, fd)
    ensures NothingTold(s, r, fd)
  {
  }

  lemma RejoinedTells(s: State, r: State, t: State, fd: int)
    requires Handling(s, r, fd) && Rejoined(r, t, fd)
    ensures NothingTold(s, t, fd)
  {
    SameIds(r.rooms, t.rooms, r.clients[fd].conn.currRoom);
  }

  /** JOIN and one word: the speaker is in the room of that name afterwards,
      and exactly those of both rooms hear of it; in its own room nothing. */
  lemma JoinMoves(s: State, fd: int, text: Bytes, name: Bytes, ok: bool, reached: nat, t: State, f: int)
    requires Says(s, fd, text) && SPACE !in name && SpaceEnded(text) == "JOIN " + name + " "
    requires Does(s, Framing(fd, ok, reached), t)
    ensures ok && (fd in t.clients ==> RoomName(t, fd) == name)
    ensures if RoomName(s, fd) == name then NothingTold(s, t, fd)
            else f in s.clients ==> MoveTells(s, t, fd, name, f)
  {
    hide Does, Handling, TokensOf, Relocated, Rejoined, MoveTells, NothingTold, RoomName, Says, SpaceEnded;
    assert "JOIN " + name + " " == "JOIN" + [SPACE] + name + [SPACE];
    TwoWords(text, "JOIN", name);
    var r := SaidIsHandled(s, fd, text, ok, reached, t);
    SpeakerSame(s, r, fd);
    if RoomName(s, fd) == name {
      RejoinedTells(s, r, t, fd);
      NothingMoves(s, t, fd);
    } else {
      RelocatedTells(s, r, t, fd, name, fd);
      if f in s.clients {
        RelocatedTells(s, r, t, fd, name, f);
      }
    }
  }

  lemma NothingMoves(s: State, t: State, fd: int)
    requires NothingTold(s, t, fd)
    ensures fd in t.clients && RoomName(t, fd) == RoomName(s, fd)
  {
  }

  /** LEAVE, with or without more words: outside main-room the speaker is in
      main-room afterwards and both rooms hear of it; in main-room nothing. */
  lemma LeaveReturns(s: State, fd: int, text: Bytes, ok: bool, reached: nat, t: State, f: int)
    requires Says(s, fd, text) && Opens(text, "LEAVE") && Does(s, Framing(fd, ok, reached), t)
    ensures ok
    ensures if s.clients[fd].conn.currRoom == 0 then NothingTold(s, t, fd)
            else
              && (fd in t.clients ==> RoomName(t, fd) == "main-room")
              && (f in s.clients ==> MoveTells(s, t, fd, "main-room", f))
  {
    hide Does, Handling, TokensOf, Relocated, MoveTells, NothingTold, RoomName, Says, Opens;
    OpensSomething(text, "LEAVE");
    FirstToken(text, "LEAVE");
    var r := SaidIsHandled(s, fd, text, ok, reached, t);
    SpeakerSame(s, r, fd);
    if s.clients[fd].conn.currRoom == 0 {
      SameTells(s, r, fd);
    } else {
      RelocatedTells(s, r, t, fd, "main-room", fd);
      if f in s.clients {
        RelocatedTells(s, r, t, fd, "main-room", f);
      }
    }
  }

  /** JOIN without or with several words, WHERE with any, and an empty frame do
      nothing. */
  lemma OthersIgnored(s: State, fd: int, text: Bytes, ok: bool, reached: nat, t: State)
    requires Says(s, fd, text) && Does(s, Framing(fd, ok, reached), t)
    requires
      || text == []
      || (Opens(text, "WHERE") && SpaceEnded(text) != "WHERE ")
      || (Opens(text, "JOIN") && forall name :: SPACE !in name ==> SpaceEnded(text) != "JOIN " + name + " ")
    ensures ok && NothingTold(s, t, fd)
  {
    hide Does, Handling, TokensOf, NothingTold, RoomName, Says, Opens, SpaceEnded, Rejoin;
    var words := TokensOf(text);
    var r := SaidIsHandled(s, fd, text, ok, reached, t);
    SameTells(s, r, fd);
    if text != [] {
      FirstToken(text, "WHERE");
      FirstToken(text, "JOIN");
      RejoinTokens(text);
      TokensAreSpaceFree(text);
      if Opens(text, "WHERE") && |words| == 1 {
        OneRejoined(words);
      } else if Opens(text, "JOIN") && |words| == 2 {
        assert words[1] in words;
        TwoRejoined(words);
      }
    }
  }

  lemma OneRejoined(words: seq<Bytes>)
    requires |words| == 1
    ensures Rejoin(words) == words[0] + " "
  {
    RejoinCons(words[0], []);
    assert words == [words[0]] + [];
  }

  lemma TwoRejoined(words: seq<Bytes>)
    requires |words| == 2
    ensures Rejoin(words) == words[0] + " " + words[1] + " "
  {
    OneRejoined(words[1..]);
    RejoinCons(words[0], words[1..]);
    assert words == [words[0]] + words[1..];
  }

  // ------------------------------------------------------------------------ chat

  /** Every other text is a chat message: on success everyone else in the room
      got it and nobody is gone; otherwise some did, up to one that is gone.
      Nobody outside the room hears it, and the speaker does not either. */
  lemma ElseChat(s: State, fd: int, text: Bytes, ok: bool, reached: nat, t: State, f: int)
    requires Inv(s, {}, {}) && Says(s, fd, text) && Does(s, Framing(fd, ok, reached), t) && text != []
    requires forall word :: word in ["LIST", "JOIN", "LEAVE", "QUIT", "WHERE"] ==> !Opens(text, word)
    ensures fd in t.clients && t.clients[fd].conn.out == s.clients[fd].conn.out
    ensures ok <==> t.clients.Keys == s.clients.Keys
    ensures var message := "> " + s.clients[fd].conn.username + ": " + SpaceEnded(text) + "\n";
      f in s.clients && f != fd ==>
        if f in Audience(s, s.clients[fd].conn.currRoom, fd) then
          IsTold(s, t, f, message) || (!ok && Undisturbed(s, t, f))
        else Undisturbed(s, t, f)
  {
    hide Does, Handling, TokensOf, Delivers, Spares, IsTold, Undisturbed, RoomName, Opens, Says, Inv, ChatText;
    hide SpaceEnded;
    var words: seq<Bytes> := ["LIST", "JOIN", "LEAVE", "QUIT", "WHERE"];
    assert words[0] == "LIST" && words[1] == "JOIN" && words[2] == "LEAVE" && words[3] == "QUIT" && words[4] == "WHERE";
    NoCommand(text);
    var r := SaidIsHandled(s, fd, text, ok, reached, t);
    SpeakerSame(s, r, fd);
    var id, message := s.clients[fd].conn.currRoom, ChatText(s.clients[fd].conn.username, TokensOf(text));
    ChatIs(s.clients[fd].conn.username, text);
    var list := s.rooms[FindId(s.rooms, id)].subscribed;
    var to := FirstOf(list, reached, fd);
    AudienceIs(s, id, fd, {}, {});
    FirstOfGrows(list, reached, fd);
    DeliversTells(s, r, t, fd, to, message, id, fd);
    FirstOfIs(list, reached, fd);
    if f in s.clients && f != fd {
      DeliversTells(s, r, t, fd, to, message, id, f);
      if f in to {
        SparesEach(r, t, to, message, f);
      }
    }
  }

  lemma NoCommand(text: Bytes)
    requires text != []
    requires !Opens(text, "LIST") && !Opens(text, "JOIN") && !Opens(text, "LEAVE") && !Opens(text, "QUIT")
    requires !Opens(text, "WHERE")
    ensures !IsCommand(TokensOf(text))
  {
    hide Opens, TokensOf;
    FirstToken(text, "LIST");
    FirstToken(text, "JOIN");
    FirstToken(text, "LEAVE");
    FirstToken(text, "QUIT");
    FirstToken(text, "WHERE");
  }

  lemma ChatIs(user: Bytes, text: Bytes)
    ensures ChatText(user, TokensOf(text)) == "> " + user + ": " + SpaceEnded(text) + "\n"
  {
    RejoinTokens(text);
  }

  // ------------------------------------------------------------------- usernames

  /** The first line is the username: its client is in main-room under that
      name, everyone there is told, and nobody else hears anything. */
  lemma NameEnters(s: State, fd: int, name: Bytes, t: State, f: int)
    requires Inv(s, {}, {}) && NextIs(s, fd, name) && Does(s, Naming(fd), t) && f in s.clients
    ensures fd in t.clients ==>
      t.clients[fd].conn.active && t.clients[fd].conn.username == name && t.clients[fd].conn.currRoom == 0
    ensures if f == fd || f in Audience(s, 0, fd) then IsTold(s, t, f, "> server: " + name + " joined room main-room\n")
            else Undisturbed(s, t, f)
  {
    hide Moved, WithRoom, JoinedText, StripCr, Delivers, LinksOk, Seated;
    NextIsFrame(s, fd, name);
    LinkFacts(s, f, {}, {});
    NameIs(name);
    var e := Entered(Named(Taken(s, fd), fd, name), fd, MAIN_ROOM);
    var to, message := Audience(e, 0, -1), JoinedText(name, MAIN_ROOM);
    AdmittedTells(e, t, to, message, f);
    AdmittedTells(e, t, to, message, fd);
  }

  lemma NameIs(name: Bytes)
    ensures JoinedText(name, MAIN_ROOM) == "> server: " + name + " joined room main-room\n"
  {
    MoveIs(name, MAIN_ROOM);
    assert " joined room " + MAIN_ROOM + "\n" == " joined room main-room\n";
    assert "> server: " + name + " joined room " + MAIN_ROOM + "\n"
        == "> server: " + name + (" joined room " + MAIN_ROOM + "\n");
  }

  lemma AdmittedTells(s: State, t: State, to: set<int>, message: Bytes, f: int)
    requires Delivers(s, t, to, message, 0) && Spares(s, t, to, message) && f in s.clients
    ensures if f in to then IsTold(s, t, f, message) else Undisturbed(s, t, f)
    ensures f in t.clients ==> t.clients[f].conn == s.clients[f].conn.(out := t.clients[f].conn.out)
  {
    hide Settle, Paced;
  }

  // ------------------------------------------------------------------ connections

  /** Accepting leaves everyone there alone; the newcomers are asked for their
      names and have said nothing; and each connection accepted is a newcomer
      or was troubled once. */
  lemma NewcomersPrompted(s: State, answers: seq<AcceptResult>, t: State, fd: int)
    requires Accepting(s, answers, t)
    ensures fd in s.clients ==> Undisturbed(s, t, fd)
    ensures fd in t.clients && fd !in s.clients ==>
      && t.clients[fd].conn.out.outbox == ["enter your username: "]
      && !t.clients[fd].conn.active && t.clients[fd].given == []
    ensures fd !in s.clients ==>
      s.log.broken[fd] + multiset(answers)[Accepted(fd)] == t.log.broken[fd] + (if fd in t.clients then 1 else 0)
  {
    hide Paced;
  }

  /** A client whose peer hung up, or whose queue could not be flushed, is gone:
      everyone else in its room is told, named or not, and nobody else hears
      anything. */
  lemma HangupTells(s: State, fd: int, t: State, f: int)
    requires Does(s, Closing(fd), t) || (Does(s, Flushing(fd), t) && fd !in t.clients)
    ensures fd in s.clients && fd !in t.clients
    ensures f in s.clients && f != fd ==>
      if f in Audience(s, s.clients[fd].conn.currRoom, fd) then
        IsTold(s, t, f, "> server: " + s.clients[fd].conn.username + " disconnected\n")
      else Undisturbed(s, t, f)
  {
    hide Parted, ClosedText;
    var message := ClosedText(s.clients[fd].conn.username);
    ClosedIs(s.clients[fd].conn.username);
    if f in s.clients && f != fd {
      if Does(s, Closing(fd), t) {
        PartedTells(s, s, t, fd, message, f);
      } else {
        var u, l :| SentOnly(s, u, fd, l) && Parted(u, t, fd, message);
        PartedTells(s, u, t, fd, message, f);
      }
    }
    PartingDrops(s, t, fd, message);
  }

  lemma PartingDrops(s: State, t: State, fd: int, message: Bytes)
    ensures Parted(s, t, fd, message) ==> fd !in t.clients
  {
  }

  lemma PartedTells(s: State, u: State, t: State, fd: int, message: Bytes, f: int)
    requires fd in s.clients && f in s.clients && f != fd && Parted(u, t, fd, message)
    requires u == s || exists l :: SentOnly(s, u, fd, l)
    ensures if f in Audience(s, s.clients[fd].conn.currRoom, fd) then IsTold(s, t, f, message) else Undisturbed(s, t, f)
  {
    hide Settle, Paced, OnlySent;
    if u != s {
      var l :| SentOnly(s, u, fd, l);
      SentKeepsRoom(s, u, fd, l);
    }
  }

  lemma SentKeepsRoom(s: State, u: State, fd: int, l: Link)
    requires SentOnly(s, u, fd, l)
    ensures fd in s.clients && l.conn.currRoom == s.clients[fd].conn.currRoom
  {
  }

  lemma ClosedIs(user: Bytes)
    ensures ClosedText(user) == "> server: " + user + " disconnected\n"
  {
    assert "> server: " + (user + " disconnected") + [LF] == "> server: " + user + " disconnected\n";
  }
}
