/** The texts the server sends, and their lines. */
module Messages {
  import opened Text
  import opened Rooms

  const PROMPT: Bytes := "enter your username: "

  function Notice(text: Bytes): Bytes {
    "> server: " + text + [LF]
  }

  function LeftText(user: Bytes, room: Bytes): Bytes { Notice(user + " left room " + room) }

  function JoinedText(user: Bytes, room: Bytes): Bytes { Notice(user + " joined room " + room) }

  function QuitText(user: Bytes): Bytes { Notice(user + " has disconnected") }

  function ClosedText(user: Bytes): Bytes { Notice(user + " disconnected") }

  function WhereText(room: Bytes): Bytes {
    if room == [] then Notice("room not found") else Notice("you are in room " + room)
  }

  function ChatText(user: Bytes, words: seq<Bytes>): Bytes {
    "> " + user + ": " + Rejoin(words) + [LF]
  }

  // ---------------------------------------------------------------- the room table

  const RULE: Bytes := "+------+----------------+"

  const COLUMNS: Bytes := "| ID   | Room           |"

  const HEADER: seq<Bytes> := [RULE, COLUMNS, RULE]

  function RoomLine(room: ChatRoom): Bytes {
    "| " + Decimal(room.roomIdx) + "\t| " + room.roomName
  }

  /** One line per room, in order. */
  function RoomLines(rooms: seq<ChatRoom>): (lines: seq<Bytes>)
    ensures |lines| == |rooms| && forall i :: 0 <= i < |rooms| ==> lines[i] == RoomLine(rooms[i])
  {
    seq(|rooms|, i requires 0 <= i < |rooms| => RoomLine(rooms[i]))
  }

  function TableLines(rooms: seq<ChatRoom>): seq<Bytes> {
    HEADER + RoomLines(rooms) + [RULE]
  }

  /** The answer to LIST. */
  function ListText(rooms: seq<ChatRoom>): Bytes {
    JoinLines(TableLines(rooms))
  }

  ghost predicate NamesLineFree(rooms: seq<ChatRoom>) {
    forall i :: 0 <= i < |rooms| ==> LineFree(rooms[i].roomName)
  }

  lemma HeaderText()
    ensures JoinLines(HEADER) == RULE + [LF] + COLUMNS + [LF] + RULE + [LF]
  {
    ThreeLines(RULE, COLUMNS, RULE);
  }

  lemma ThreeLines(a: Bytes, b: Bytes, c: Bytes)
    ensures JoinLines([a, b, c]) == a + [LF] + b + [LF] + c + [LF]
  {
    JoinLinesAppend([], a);
    JoinLinesAppend([a], b);
    JoinLinesAppend([a, b], c);
    assert [] + [a] == [a] && [a] + [b] == [a, b] && [a, b] + [c] == [a, b, c];
  }

  lemma NextLine(a: seq<Bytes>, b: seq<Bytes>, i: nat)
    requires i < |b|
    ensures a + b[..i] + [b[i]] == a + b[..i + 1]
  {
  }

  /** Every line of the table is one, and none begins like a message. */
  lemma TableIsLines(rooms: seq<ChatRoom>)
    requires NamesLineFree(rooms)
    ensures AllLineFree(TableLines(rooms))
    ensures forall i :: 0 <= i < |TableLines(rooms)| ==> TableLines(rooms)[i] != [] && TableLines(rooms)[i][0] != '>'
  {
    forall i | 0 <= i < |rooms| ensures LineFree(RoomLine(rooms[i])) {
      assert LF !in Decimal(rooms[i].roomIdx);
    }
  }

  /** Splitting the answer gives the table back: three lines of header, one
      line per room, and a rule. */
  lemma ListSplits(rooms: seq<ChatRoom>)
    requires NamesLineFree(rooms)
    ensures Lines(ListText(rooms)) == TableLines(rooms)
  {
    TableIsLines(rooms);
    LinesOfJoin(TableLines(rooms), []);
    assert ListText(rooms) + [] == ListText(rooms);
    assert TableLines(rooms) + Lines([]) == TableLines(rooms);
  }

  lemma {:induction false} JoinLinesEnd(lines: seq<Bytes>)
    ensures Terminated(JoinLines(lines))
  {
    if lines != [] {
      JoinLinesAppend(lines[..|lines| - 1], lines[|lines| - 1]);
      assert lines == lines[..|lines| - 1] + [lines[|lines| - 1]];
    }
  }

  // ------------------------------------------------------------- what gets posted

  /** One line that begins with the mark of a message. */
  predicate IsMessage(m: Bytes) {
    IsLine(m) && m[0] == '>'
  }

  ghost predicate IsTable(m: Bytes) {
    exists rooms :: NamesLineFree(rooms) && m == ListText(rooms)
  }

  /** What a client can be sent after the prompt. */
  ghost predicate Posted(m: Bytes) {
    IsMessage(m) || IsTable(m)
  }

  lemma TableIsPosted(rooms: seq<ChatRoom>)
    requires NamesLineFree(rooms)
    ensures Posted(ListText(rooms))
  {
  }

  lemma NoticeIsLine(text: Bytes)
    requires LineFree(text)
    ensures IsMessage(Notice(text)) && Lines(Notice(text)) == ["> server: " + text]
  {
    assert LineFree("> server: " + text);
    IsLineMade("> server: " + text);
  }

  /** Every notice and WHERE answer is one line. */
  lemma NoticesAreLines(user: Bytes, room: Bytes)
    requires LineFree(user) && LineFree(room)
    ensures IsMessage(LeftText(user, room)) && IsMessage(JoinedText(user, room))
    ensures IsMessage(QuitText(user)) && IsMessage(ClosedText(user)) && IsMessage(WhereText(room))
  {
    hide IsMessage, Notice;
    assert LineFree(user + " left room " + room) && LineFree(user + " joined room " + room);
    NoticeIsLine(user + " left room " + room);
    NoticeIsLine(user + " joined room " + room);
    NoticeIsLine(user + " has disconnected");
    NoticeIsLine(user + " disconnected");
    NoticeIsLine("room not found");
    NoticeIsLine("you are in room " + room);
  }

  lemma {:induction false} RejoinIsLineFree(words: seq<Bytes>)
    requires AllLineFree(words)
    ensures LineFree(Rejoin(words))
  {
    if words != [] {
      RejoinIsLineFree(words[1..]);
    }
  }

  /** A chat message is one line. */
  lemma ChatIsMessage(user: Bytes, words: seq<Bytes>)
    requires LineFree(user) && AllLineFree(words)
    ensures IsMessage(ChatText(user, words)) && Lines(ChatText(user, words)) == ["> " + user + ": " + Rejoin(words)]
  {
    RejoinIsLineFree(words);
    assert LineFree("> " + user + ": " + Rejoin(words));
    IsLineMade("> " + user + ": " + Rejoin(words));
  }

  // -------------------------------------------------------------------- recovery

  /** The lines that begin with the mark of a message. */
  function Marked(lines: seq<Bytes>): seq<Bytes> {
    if lines == [] then []
    else (if lines[0] != [] && lines[0][0] == '>' then [lines[0]] else []) + Marked(lines[1..])
  }

  /** The texts of the messages, without tables, each without its newline. */
  function Bodies(messages: seq<Bytes>): seq<Bytes> {
    if messages == [] then []
    else (if IsMessage(messages[0]) then [messages[0][..|messages[0]| - 1]] else []) + Bodies(messages[1..])
  }

  lemma {:induction false} MarkedAppend(a: seq<Bytes>, b: seq<Bytes>)
    ensures Marked(a + b) == Marked(a) + Marked(b)
  {
    if a == [] {
      assert a + b == b;
    } else {
      assert (a + b)[1..] == a[1..] + b;
      MarkedAppend(a[1..], b);
    }
  }

  lemma {:induction false} NothingMarked(lines: seq<Bytes>)
    requires forall i :: 0 <= i < |lines| ==> lines[i] != [] && lines[i][0] != '>'
    ensures Marked(lines) == []
  {
    if lines != [] {
      NothingMarked(lines[1..]);
    }
  }

  lemma MessageMarked(m: Bytes)
    requires IsMessage(m)
    ensures Marked(Lines(m)) == [m[..|m| - 1]]
  {
    var body := m[..|m| - 1];
    assert m == body + [LF];
    IsLineMade(body);
    assert body[0] == '>' by {
      assert m[0] == body[0];
    }
    hide Lines, IsMessage;
    OneMarked(body);
  }

  lemma OneMarked(line: Bytes)
    requires line != [] && line[0] == '>'
    ensures Marked([line]) == [line]
  {
    assert [line][1..] == [];
  }

  lemma TableMarked(m: Bytes)
    requires IsTable(m)
    ensures Terminated(m) && Marked(Lines(m)) == [] && !IsMessage(m)
  {
    var rooms :| NamesLineFree(rooms) && m == ListText(rooms);
    ListSplits(rooms);
    TableIsLines(rooms);
    NothingMarked(TableLines(rooms));
    JoinLinesEnd(TableLines(rooms));
    if IsMessage(m) {
      MessageMarked(m);
    }
  }

  /** A reader that splits the stream at newlines and keeps the marked lines
      gets exactly the messages in order; what is between them are tables. */
  lemma {:induction false} MessagesRecovered(messages: seq<Bytes>)
    requires forall m :: m in messages ==> Posted(m)
    ensures Marked(Lines(Concat(messages))) == Bodies(messages)
  {
    hide Posted, Marked, IsMessage, Lines;
    if messages == [] {
      NoMarks();
    } else {
      var m, rest := messages[0], messages[1..];
      MessagesRecovered(rest);
      PostedMarked(m);
      LinesConcat(m, Concat(rest));
      MarkedAppend(Lines(m), Lines(Concat(rest)));
    }
  }

  lemma NoMarks()
    ensures Marked(Lines(Concat([]))) == []
  {
  }

  lemma PostedMarked(m: Bytes)
    requires Posted(m)
    ensures Terminated(m)
    ensures Marked(Lines(m)) == if IsMessage(m) then [m[..|m| - 1]] else []
  {
    if IsMessage(m) {
      MessageMarked(m);
    } else {
      TableMarked(m);
    }
  }
}
