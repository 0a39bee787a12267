/** What the load generator can rely on: its books balance, and the chat server
    relays its frames so that their receivers recognise them. */
module RelayTheorems {
  import opened Text
  import opened LoadGenerator
  import opened Messages
  import opened ServerTheorems

  /** At any moment of a phase: latencies, completions, deliveries and requests
      agree, requests are either answered or pending, relayed messages are
      counted as often as their lines were read, every client has read
      exactly the complete lines it received, and, absent send errors, bytes
      sent and bytes buffered are the queued frames in order. */
  lemma BooksBalance(g: Generator)
    requires g.Valid()
    ensures |g.tally.latencies| == g.tally.completions <= g.tally.deliveries
    ensures g.phase.workload == Direct ==>
      g.tally.completions == g.tally.deliveries && g.tally.completions + Sum(g.clients, Waiting()) == g.tally.sent
    ensures g.phase.workload != Direct ==>
      g.tally.deliveries == Sum(g.logs, RelayedOf(g.phase)) && g.tally.completions == Sum(g.logs, CompletedOf(g.phase))
    ensures forall k :: 0 <= k < |g.clients| ==> ClientBalanced(g, k)
  {
    WaitingIsDifference(g.clients, g.logs);
    forall k | 0 <= k < |g.clients| ensures ClientBalanced(g, k) {
      assert g.clients[k] in g.clients;
      LinesRead(g.clients[k], g.logs[k], g.kernel.taken[k], g.kernel.given[k], g.sendErrors);
    }
  }

  ghost predicate ClientBalanced(g: Generator, k: nat)
    reads g, g.kernel
  {
    && k < |g.clients| == |g.logs| && k in g.kernel.taken && k in g.kernel.given
    && var c, l := g.clients[k], g.logs[k];
    && |c.sendBuffer| <= MAX_CLIENT_SEND_QUEUE
    && (g.sendErrors == 0 ==> g.kernel.taken[k] + c.sendBuffer == l.queued)
    && (!c.closed ==> k in g.interest && g.interest[k] == (c.sendBuffer != []))
    && |l.skipped| <= |g.kernel.given[k]|
    && l.lines == Lines(g.kernel.given[k][|l.skipped|..]) && c.buffer == Rest(g.kernel.given[k][|l.skipped|..])
    && l.asked == l.answered + c.pending
  }

  // -------------------------------------------------------------- recognition

  /** The fields of a broadcast frame before its last one. */
  function Fields(token: Bytes, sender: nat, sequence: nat, sentNs: nat): Bytes {
    "BENCH|" + (token + "|" + (Decimal(sender) + "|" + (Decimal(sequence) + "|" + (Decimal(sentNs) + "|"))))
  }

  /** A frame of the broadcast workload, without its newline. */
  function Relayable(token: Bytes, sender: nat, sequence: nat, sentNs: nat, payload: nat): Bytes {
    Fields(token, sender, sequence, sentNs) + Filler(payload)
  }

  function Filler(n: nat): (s: Bytes)
    ensures |s| == n && forall i :: 0 <= i < n ==> s[i] == 'x'
  {
    seq(n, _ => 'x')
  }

  lemma SplitStep(head: Bytes, rest: Bytes, limit: nat)
    requires '|' !in head && limit > 0
    ensures Split(head + "|" + rest, limit) == [head] + Split(rest, limit - 1)
  {
    IndexAfter(head, '|', rest);
  }

  lemma BarOfMark(s: Bytes, j: nat)
    requires FoundAt(s, "BENCH|", j)
    ensures j + 5 < |s| && s[j + 5] == '|'
  {
    assert s[j..j + 6][5] == '|';
  }

  lemma NoBarBefore(prefix: Bytes, rest: Bytes)
    requires '|' !in prefix
    ensures forall i :: 0 <= i < |prefix| + 5 ==> (prefix + ("BENCH|" + rest))[i] != '|'
  {
    var line := prefix + ("BENCH|" + rest);
    assert forall i :: 0 <= i < |prefix| ==> line[i] == prefix[i];
    assert forall i :: |prefix| <= i < |prefix| + 5 ==> line[i] == "BENCH|"[i - |prefix|];
  }

  /** The first mark follows a prefix without bars. */
  lemma MarkFound(prefix: Bytes, rest: Bytes)
    requires '|' !in prefix
    ensures Find(prefix + ("BENCH|" + rest), "BENCH|", 0) == |prefix|
  {
    hide Find, FoundAt;
    var line := prefix + ("BENCH|" + rest);
    MarkAt(prefix, rest);
    NoBarBefore(prefix, rest);
    BarOfMark(line, Find(line, "BENCH|", 0));
  }

  lemma MarkAt(prefix: Bytes, rest: Bytes)
    ensures FoundAt(prefix + ("BENCH|" + rest), "BENCH|", |prefix|)
  {
    var line, mark := prefix + ("BENCH|" + rest), "BENCH|";
    assert line[|prefix|..] == mark + rest;
    assert line[|prefix|..|prefix| + 6] == mark;
  }

  lemma DecimalHasNoBar(n: nat)
    ensures '|' !in Decimal(n)
  {
  }

  lemma SplitFields(token: Bytes, sender: nat, sequence: nat, sentNs: nat, last: Bytes)
    requires '|' !in token && '|' !in last
    ensures Split(Fields(token, sender, sequence, sentNs) + last, 5)
         == ["BENCH", token, Decimal(sender), Decimal(sequence), Decimal(sentNs), last]
  {
    hide Split, Decimal, Fields;
    DecimalHasNoBar(sender);
    DecimalHasNoBar(sequence);
    DecimalHasNoBar(sentNs);
    FieldsThen(token, sender, sequence, sentNs, last);
    SplitThree(token, Decimal(sender), Decimal(sequence) + "|" + (Decimal(sentNs) + "|" + last));
    SplitTwo(Decimal(sequence), Decimal(sentNs), last);
  }

  lemma SplitThree(token: Bytes, sender: Bytes, rest: Bytes)
    requires '|' !in token && '|' !in sender
    ensures Split("BENCH" + "|" + (token + "|" + (sender + "|" + rest)), 5) == ["BENCH", token, sender] + Split(rest, 2)
  {
    hide Split;
    SplitStep("BENCH", token + "|" + (sender + "|" + rest), 5);
    SplitStep(token, sender + "|" + rest, 4);
    SplitStep(sender, rest, 3);
  }

  lemma SplitTwo(a: Bytes, b: Bytes, last: Bytes)
    requires '|' !in a && '|' !in b
    ensures Split(a + "|" + (b + "|" + last), 2) == [a, b, last]
  {
    hide Split;
    SplitStep(a, b + "|" + last, 2);
    SplitStep(b, last, 1);
    LastField(last);
  }

  lemma FieldsThen(token: Bytes, sender: nat, sequence: nat, sentNs: nat, last: Bytes)
    ensures Fields(token, sender, sequence, sentNs) + last
         == "BENCH" + "|"
            + (token + "|" + (Decimal(sender) + "|" + (Decimal(sequence) + "|" + (Decimal(sentNs) + "|" + last))))
  {
    hide Decimal;
    var f4 := Decimal(sentNs) + "|";
    var f3 := Decimal(sequence) + "|" + f4;
    var f2 := Decimal(sender) + "|" + f3;
    Assoc(Decimal(sequence) + "|", f4, last);
    Assoc(Decimal(sender) + "|", f3, last);
    Assoc(token + "|", f2, last);
    Assoc("BENCH|", token + "|" + f2, last);
  }

  lemma LastField(last: Bytes)
    ensures Split(last, 0) == [last]
  {
  }

  /** The receiver cuts a relayed line into the fields of its frame. */
  lemma RelayedSplits(p: Phase, user: Bytes, sender: nat, sequence: nat, sentNs: nat, payload: nat)
    requires '|' !in user && '|' !in p.token
    ensures var line := RelayedLine(p, user, sender, sequence, sentNs, payload);
      var marker := Find(line, "BENCH|", 0);
      && 0 <= marker <= |line|
      && Split(line[marker..], 5)
         == ["BENCH", p.token, Decimal(sender), Decimal(sequence), Decimal(sentNs), Filler(payload) + [SPACE]]
  {
    hide Split, Find, Decimal, Fields;
    var last := Filler(payload) + [SPACE];
    NoBars(user, payload);
    SplitFields(p.token, sender, sequence, sentNs, last);
    MarkThere(p, user, sender, sequence, sentNs, last);
  }

  /** What the chat server makes of a broadcast frame, read as a line by its
      receiver, names the sender and the time it was sent. */
  lemma RelayedIsRecognised(p: Phase, user: Bytes, sender: nat, sequence: nat, sentNs: nat, payload: nat)
    requires '|' !in user && '|' !in p.token
    ensures ReadRelayed(p, RelayedLine(p, user, sender, sequence, sentNs, payload)) == Just((sender, sentNs))
    ensures ChatText(user, TokensOf(Relayable(p.token, sender, sequence, sentNs, payload)))
         == RelayedLine(p, user, sender, sequence, sentNs, payload) + [LF]
  {
    hide Split, Find, Decimal, Rejoin, TokensOf, Fields, ReadInt, RelayedLine;
    RelayedSplits(p, user, sender, sequence, sentNs, payload);
    ReadDecimal(sender);
    ReadDecimal(sentNs);
    RelayedText(p, user, sender, sequence, sentNs, payload);
  }

  lemma RelayedText(p: Phase, user: Bytes, sender: nat, sequence: nat, sentNs: nat, payload: nat)
    ensures ChatText(user, TokensOf(Relayable(p.token, sender, sequence, sentNs, payload)))
         == RelayedLine(p, user, sender, sequence, sentNs, payload) + [LF]
  {
    hide Decimal, Rejoin, TokensOf, Fields;
    ChatTextIsFrame(user, Relayable(p.token, sender, sequence, sentNs, payload));
    SpaceAdded(p.token, sender, sequence, sentNs, payload);
  }

  /** It completes the operation at the client after its sender, the last one's
      at the first, and at no other. */
  lemma SuccessorCompletes(p: Phase, index: nat, pending: seq<int>, user: Bytes, sender: nat, sequence: nat,
                           sentNs: nat, payload: nat)
    requires '|' !in user && '|' !in p.token && p.workload != Direct && p.connections > 0
    requires index < p.connections && sender < p.connections
    ensures AnswerTo(p, index, pending, RelayedLine(p, user, sender, sequence, sentNs, payload))
         == if index == sender + 1 || (index == 0 && sender == p.connections - 1) then Just(sentNs) else Nothing
  {
    hide ReadRelayed, RelayedLine;
    RelayedIsRecognised(p, user, sender, sequence, sentNs, payload);
    if sender == p.connections - 1 {
      Wraps(sender, 1, p.connections);
      SmallRemainder(sender, p.connections);
    } else {
      SmallRemainder(sender + 1, p.connections);
    }
  }

  /** A relayed line of another phase counts for nothing. */
  lemma OtherTokenIgnored(p: Phase, q: Phase, user: Bytes, sender: nat, sequence: nat, sentNs: nat, payload: nat)
    requires '|' !in user && '|' !in q.token && q.token != p.token
    ensures ReadRelayed(p, RelayedLine(q, user, sender, sequence, sentNs, payload)) == Nothing
  {
    hide Split, Find, Decimal, ReadInt, RelayedLine;
    RelayedSplits(q, user, sender, sequence, sentNs, payload);
  }

  /** So does a line without the mark, or with too few fields after it. */
  lemma OtherLinesIgnored(p: Phase, line: Bytes, last: Bytes)
    requires '|' !in p.token && '|' !in last
    ensures '|' !in line ==> ReadRelayed(p, line) == Nothing
    ensures ReadRelayed(p, "BENCH|" + (p.token + "|" + last)) == Nothing
  {
    hide Split, ReadInt;
    if '|' !in line && Find(line, "BENCH|", 0) != -1 {
      BarOfMark(line, Find(line, "BENCH|", 0));
    }
    var short := "BENCH|" + (p.token + "|" + last);
    MarkFound([], p.token + "|" + last);
    assert [] + short == short && short[0..] == short;
    assert short == "BENCH" + "|" + (p.token + "|" + last);
    SplitStep("BENCH", p.token + "|" + last, 5);
    SplitStep(p.token, last, 4);
    LastFieldOf(last, 3);
  }

  lemma LastFieldOf(last: Bytes, limit: nat)
    requires '|' !in last
    ensures Split(last, limit) == [last]
  {
  }

  function RelayedLine(p: Phase, user: Bytes, sender: nat, sequence: nat, sentNs: nat, payload: nat): Bytes {
    "> " + user + ": " + (Fields(p.token, sender, sequence, sentNs) + (Filler(payload) + [SPACE]))
  }

  lemma MarkThere(p: Phase, user: Bytes, sender: nat, sequence: nat, sentNs: nat, last: Bytes)
    requires '|' !in "> " + user + ": "
    ensures var line := "> " + user + ": " + (Fields(p.token, sender, sequence, sentNs) + last);
      var marker := Find(line, "BENCH|", 0);
      0 <= marker <= |line| && line[marker..] == Fields(p.token, sender, sequence, sentNs) + last
  {
    hide Decimal, Find;
    var prefix := "> " + user + ": ";
    var rest := p.token + "|" + (Decimal(sender) + "|" + (Decimal(sequence) + "|" + (Decimal(sentNs) + "|")));
    Assoc("BENCH|", rest, last);
    MarkFound(prefix, rest + last);
  }

  lemma NoBars(user: Bytes, payload: nat)
    requires '|' !in user
    ensures '|' !in "> " + user + ": " && '|' !in Filler(payload) + [SPACE]
  {
  }

  /** A frame does not end in a space, so the server adds one. */
  lemma SpaceAdded(token: Bytes, sender: nat, sequence: nat, sentNs: nat, payload: nat)
    ensures SpaceEnded(Relayable(token, sender, sequence, sentNs, payload))
         == Fields(token, sender, sequence, sentNs) + (Filler(payload) + [SPACE])
  {
    hide Decimal;
    var fields := Fields(token, sender, sequence, sentNs);
    EndsWithBar(token, sender, sequence, sentNs);
    Assoc(fields, Filler(payload), [SPACE]);
  }

  lemma EndsWithBar(token: Bytes, sender: nat, sequence: nat, sentNs: nat)
    ensures var fields := Fields(token, sender, sequence, sentNs);
      fields != [] && fields[|fields| - 1] == '|'
  {
    hide Decimal;
    var f4 := Decimal(sentNs) + "|";
    var f3 := Decimal(sequence) + "|" + f4;
    var f2 := Decimal(sender) + "|" + f3;
    assert f3[|f3| - 1] == '|' && f2[|f2| - 1] == '|';
    var f1 := token + "|" + f2;
    assert f1[|f1| - 1] == '|';
  }

  /** The server's answer to WHERE in the main room completes a request. */
  lemma WhereIsRecognised(p: Phase, index: nat, pending: seq<int>)
    requires p.workload == Direct && pending != []
    ensures exists line ::
      WhereText("main-room") == line + [LF] && AnswerTo(p, index, pending, line) == Just(pending[0])
  {
    var line := "> server: " + WHERE_RESPONSE;
    assert FoundAt(line, WHERE_RESPONSE, 10) by {
      assert line[10..10 + |WHERE_RESPONSE|] == WHERE_RESPONSE;
    }
    assert Contains(line, WHERE_RESPONSE);
    assert WhereText("main-room") == line + [LF];
  }
}
