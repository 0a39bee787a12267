/** One worker of the load generator: its clients' send buffers, the answers
    they wait for, and the lines they read. */
module LoadGenerator {
  import opened Arithmetic
  import opened Text
  import opened Sockets

  const MAX_CLIENT_SEND_QUEUE: nat := 65536
  const WHERE_RESPONSE: Bytes := "you are in room main-room"

  lemma Constants()
    ensures MAX_CLIENT_SEND_QUEUE == 65536 && WHERE_RESPONSE == "you are in room main-room"
  {
  }

  datatype Workload = Direct | Relayed | Setup

  datatype Maybe<T> = Nothing | Just(value: T)

  /** What a phase fixes; the deadline is in nanoseconds. */
  datatype Phase = Phase(workload: Workload, token: Bytes, connections: nat, maxRecvCalls: nat, maxRecvBytes: nat,
                         deadline: int)

  datatype Client = Client(index: nat, buffer: Bytes, pending: seq<int>, sendBuffer: Bytes, closed: bool)

  /** What happened on one client's connection in this phase: the bytes meant to be sent
      on it, those received before, the lines read since, and the send times of
      all requests and of the answered ones. */
  datatype Log = Log(index: nat, queued: Bytes, skipped: Bytes, lines: seq<Bytes>, asked: seq<int>, answered: seq<int>)

  // -------------------------------------------------------------------- lines

  predicate FoundAt(s: Bytes, pattern: Bytes, i: nat) {
    i + |pattern| <= |s| && s[i..i + |pattern|] == pattern
  }

  /** The first occurrence of `pattern` at or after `start`, or -1. */
  function Find(s: Bytes, pattern: Bytes, start: nat): (i: int)
    requires start <= |s|
    ensures i == -1 || (start <= i && FoundAt(s, pattern, i))
    ensures forall j :: start <= j && (i == -1 || j < i) ==> !FoundAt(s, pattern, j)
    decreases |s| - start
  {
    if FoundAt(s, pattern, start) then start
    else if start == |s| then -1
    else Find(s, pattern, start + 1)
  }

  predicate Contains(s: Bytes, pattern: Bytes) {
    Find(s, pattern, 0) != -1
  }

  /** split(b"|", limit): at most `limit` cuts. */
  function Split(s: Bytes, limit: nat): (fields: seq<Bytes>)
    ensures 1 <= |fields| <= limit + 1
    decreases limit
  {
    var i := IndexOf(s, '|');
    if limit == 0 || i == |s| then [s] else [s[..i]] + Split(s[i + 1..], limit - 1)
  }

  /** Fields with a bar between each two. */
  function Glued(fields: seq<Bytes>): Bytes {
    if fields == [] then []
    else if |fields| == 1 then fields[0]
    else fields[0] + "|" + Glued(fields[1..])
  }

  /** Cutting loses nothing, cuts at the first bars, and at all of them if there
      are no more than the limit. */
  lemma {:induction false} SplitExactly(s: Bytes, limit: nat)
    ensures var fields := Split(s, limit);
      && Glued(fields) == s
      && (forall i :: 0 <= i < |fields| - 1 ==> '|' !in fields[i])
      && (|fields| == limit + 1 || '|' !in fields[|fields| - 1])
    decreases limit
  {
    hide Split, Glued;
    var i := IndexOf(s, '|');
    SplitsAt(s, limit, i);
    if limit > 0 && i < |s| {
      var rest := Split(s[i + 1..], limit - 1);
      SplitExactly(s[i + 1..], limit - 1);
      CutAt(s, '|');
      GluedCons(s[..i], rest);
      BarFreeCons(s[..i], rest);
    }
  }

  lemma SplitsAt(s: Bytes, limit: nat, i: nat)
    requires i == IndexOf(s, '|')
    ensures limit > 0 && i < |s| ==> Split(s, limit) == [s[..i]] + Split(s[i + 1..], limit - 1)
    ensures limit == 0 || i == |s| ==> Split(s, limit) == [s] && Glued([s]) == s
  {
  }

  lemma BarFreeCons(head: Bytes, tail: seq<Bytes>)
    requires '|' !in head && tail != [] && forall i :: 0 <= i < |tail| - 1 ==> '|' !in tail[i]
    ensures var fields := [head] + tail;
      fields[|fields| - 1] == tail[|tail| - 1] && forall i :: 0 <= i < |fields| - 1 ==> '|' !in fields[i]
  {
    forall i | 0 < i < |tail| ensures ([head] + tail)[i] == tail[i - 1] {
    }
  }

  lemma GluedCons(head: Bytes, tail: seq<Bytes>)
    requires tail != []
    ensures Glued([head] + tail) == head + "|" + Glued(tail)
  {
    assert ([head] + tail)[1..] == tail;
  }

  predicate IsBlank(c: char) {
    c == ' ' || '\t' <= c <= '\r'
  }

  /** Without blanks at either end. */
  function Trim(s: Bytes): Bytes
    decreases |s|
  {
    if s == [] then []
    else if IsBlank(s[0]) then Trim(s[1..])
    else if IsBlank(s[|s| - 1]) then Trim(s[..|s| - 1])
    else s
  }

  predicate IsDigit(c: char) {
    '0' <= c <= '9'
  }

  /** Digits, with single underscores allowed between them. */
  predicate IsNumeral(s: Bytes) {
    && s != [] && IsDigit(s[0]) && IsDigit(s[|s| - 1])
    && (forall i :: 0 <= i < |s| ==> IsDigit(s[i]) || s[i] == '_')
    && (forall i, j :: 0 <= i < |s| && 0 <= j < |s| && j == i + 1 ==> IsDigit(s[i]) || IsDigit(s[j]))
  }

  function DigitsOf(s: Bytes): Bytes {
    if s == [] then []
    else
      var front, last := s[..|s| - 1], s[|s| - 1];
      if IsDigit(last) then DigitsOf(front) + [last] else DigitsOf(front)
  }

  /** int(): a numeral with an optional sign, between blanks. */
  function ReadInt(s: Bytes): Maybe<int> {
    var t := Trim(s);
    var signed := t != [] && (t[0] == '-' || t[0] == '+');
    var numeral := if signed then t[1..] else t;
    if !IsNumeral(numeral) then Nothing
    else
      var n: int := Value(DigitsOf(numeral));
      Just(if signed && t[0] == '-' then -n else n)
  }

  lemma {:induction false} DigitsAreAll(s: Bytes)
    requires forall i :: 0 <= i < |s| ==> IsDigit(s[i])
    ensures DigitsOf(s) == s
  {
    if s != [] {
      DigitsAreAll(s[..|s| - 1]);
      assert s == s[..|s| - 1] + [s[|s| - 1]];
    }
  }

  /** A number is read as it was written. */
  lemma ReadDecimal(n: nat)
    ensures ReadInt(Decimal(n)) == Just(n)
  {
    hide Trim, Decimal, DigitsOf, Value;
    var s := Decimal(n);
    forall i | 0 <= i < |s| ensures IsDigit(s[i]) {
      assert s[i] in s;
    }
    Bare(s);
    DigitsAreAll(s);
    ValueOfDecimal(n);
  }

  lemma Bare(s: Bytes)
    requires s != [] && !IsBlank(s[0]) && !IsBlank(s[|s| - 1])
    ensures Trim(s) == s
  {
  }

  lemma OneDigit(c: char)
    requires IsDigit(c)
    ensures IsNumeral([c]) && DigitsOf([c]) == [c] && Value([c]) == c as nat - '0' as nat
  {
    assert [c][..0] == [];
  }

  lemma TwoDigits(a: char, b: char)
    requires IsDigit(a) && IsDigit(b)
    ensures IsNumeral([a, b]) && DigitsOf([a, b]) == [a, b]
    ensures Value([a, b]) == (a as nat - '0' as nat) * 10 + (b as nat - '0' as nat)
  {
    OneDigit(a);
    assert [a, b][..1] == [a];
  }

  /** A sign is read, blanks around are read over. */
  lemma SignsRead()
    ensures ReadInt("-5") == Just(-5) && ReadInt("+7") == Just(7)
    ensures ReadInt(" 42\n") == Just(42)
  {
    hide Value, DigitsOf, IsNumeral, Trim;
    OneDigit('5');
    OneDigit('7');
    TwoDigits('4', '2');
    Bare("-5");
    Bare("+7");
    BlanksAround();
    assert "-5"[1..] == "5" && "+7"[1..] == "7";
  }

  lemma BlanksAround()
    ensures Trim(" 42\n") == "42"
  {
    assert " 42\n"[1..] == "42\n" && "42\n"[..2] == "42";
    assert Trim("42\n") == Trim("42") == "42";
  }

  /** As are single underscores between digits. */
  lemma UnderscoreRead()
    ensures ReadInt("1_0") == Just(10)
  {
    Bare("1_0");
    assert IsNumeral("1_0");
    OneDigit('1');
    TwoDigits('1', '0');
    assert "1_"[..1] == "1" && "1_0"[..2] == "1_";
    assert DigitsOf("1_") == "1" && DigitsOf("1_0") == "10";
  }

  /** Anything else is no number. */
  lemma NoInts()
    ensures ReadInt([]) == Nothing && ReadInt("-") == Nothing && ReadInt("--5") == Nothing
    ensures ReadInt("1__0") == Nothing && ReadInt("_1") == Nothing && ReadInt("1_") == Nothing
    ensures ReadInt("1 0") == Nothing
  {
    hide Trim, Value, DigitsOf;
    NothingBare();
    Bare("-");
    Bare("--5");
    Bare("1__0");
    Bare("_1");
    Bare("1_");
    Bare("1 0");
    assert "-"[1..] == [] && "--5"[1..] == "-5";
    assert "1__0"[1] == "1__0"[2] == '_' && "1 0"[1] == ' ';
  }

  lemma NothingBare()
    ensures Trim([]) == []
  {
  }

  /** The sender and the time of a relayed line of this phase. */
  function ReadRelayed(p: Phase, line: Bytes): Maybe<(int, int)> {
    var marker := Find(line, "BENCH|", 0);
    if marker == -1 then Nothing
    else
      var fields := Split(line[marker..], 5);
      if |fields| != 6 || fields[1] != p.token then Nothing
      else
        match (ReadInt(fields[2]), ReadInt(fields[4]))
        case (Just(sender), Just(sentNs)) => Just((sender, sentNs))
        case _ => Nothing
  }

  // -------------------------------------------------------------------- sums

  function Sum<T>(list: seq<T>, size: T -> nat): nat {
    if list == [] then 0 else Sum(list[..|list| - 1], size) + size(list[|list| - 1])
  }

  lemma {:induction false} SumUpdate<T>(list: seq<T>, k: nat, x: T, size: T -> nat)
    requires k < |list|
    ensures Sum(list[k := x], size) == Sum(list, size) - size(list[k]) + size(x)
  {
    var n := |list| - 1;
    var more := list[k := x];
    if k < n {
      SumUpdate(list[..n], k, x, size);
      assert more[..n] == list[..n][k := x];
    } else {
      assert more[..n] == list[..n];
    }
  }

  function Asked(): Log -> nat { (l: Log) => |l.asked| }
  function Answered(): Log -> nat { (l: Log) => |l.answered| }
  function Waiting(): Client -> nat { (c: Client) => |c.pending| }

  /** Requests not yet answered, over all clients. */
  lemma {:induction false} WaitingIsDifference(clients: seq<Client>, logs: seq<Log>)
    requires |clients| == |logs|
    requires forall k :: 0 <= k < |clients| ==> logs[k].asked == logs[k].answered + clients[k].pending
    ensures Sum(logs, Asked()) == Sum(logs, Answered()) + Sum(clients, Waiting())
  {
    if clients != [] {
      var n := |clients| - 1;
      WaitingIsDifference(clients[..n], logs[..n]);
    }
  }

  // ------------------------------------------------------------------ clients

  /** One client against its log and the kernel's. */
  ghost predicate ClientOk(c: Client, l: Log, taken: Bytes, given: Bytes, errors: nat) {
    && |c.sendBuffer| <= MAX_CLIENT_SEND_QUEUE
    && (errors == 0 ==> taken + c.sendBuffer == l.queued)
    && given == l.skipped + (JoinLines(l.lines) + c.buffer)
    && AllLineFree(l.lines)
    && l.asked == l.answered + c.pending
    && l.index == c.index
  }

  /** The lines read are the lines received, if none is left in the buffer. */
  lemma LinesRead(c: Client, l: Log, taken: Bytes, given: Bytes, errors: nat)
    requires ClientOk(c, l, taken, given, errors) && LineFree(c.buffer)
    ensures |l.skipped| <= |given| && l.lines == Lines(given[|l.skipped|..]) && c.buffer == Rest(given[|l.skipped|..])
  {
    var stream := JoinLines(l.lines) + c.buffer;
    assert given[|l.skipped|..] == stream;
    NoLines(c.buffer);
    LinesOfJoin(l.lines, c.buffer);
    assert l.lines + [] == l.lines;
    JoinOfLines(stream);
    SameEnd(JoinLines(l.lines), c.buffer, Rest(stream));
  }

  lemma NoLines(s: Bytes)
    requires LineFree(s)
    ensures Lines(s) == []
  {
  }

  lemma SameEnd(a: Bytes, b: Bytes, c: Bytes)
    requires a + b == a + c
    ensures b == c
  {
    assert (a + b)[|a|..] == b && (a + c)[|a|..] == c;
  }

  /** Every client against both logs. */
  ghost predicate LinksOk(clients: seq<Client>, logs: seq<Log>, taken: map<int, Bytes>, given: map<int, Bytes>,
                          errors: nat) {
    && |logs| == |clients|
    && forall k :: 0 <= k < |clients| ==>
         k in taken && k in given && ClientOk(clients[k], logs[k], taken[k], given[k], errors)
  }

  lemma LinkOf(clients: seq<Client>, logs: seq<Log>, taken: map<int, Bytes>, given: map<int, Bytes>, errors: nat,
               k: nat)
    requires LinksOk(clients, logs, taken, given, errors) && k < |clients|
    ensures |logs| == |clients| && k in taken && k in given
    ensures ClientOk(clients[k], logs[k], taken[k], given[k], errors)
  {
  }

  /** One client and its logs change, the others stay. */
  lemma LinkChanged(clients: seq<Client>, logs: seq<Log>, taken: map<int, Bytes>, given: map<int, Bytes>, errors: nat,
                    k: nat, c: Client, l: Log, t: Bytes, g: Bytes, later: nat)
    requires LinksOk(clients, logs, taken, given, errors) && k < |clients|
    requires ClientOk(c, l, t, g, later) && errors <= later
    ensures LinksOk(clients[k := c], logs[k := l], taken[k := t], given[k := g], later)
  {
  }

  // ---------------------------------------------------------------- the counts

  /** The counters of a phase. */
  datatype Tally = Tally(
    sent: nat, completions: nat, deliveries: nat,
    completedByDeadline: nat, deliveriesByDeadline: nat,
    latencies: seq<int>)

  /** How many of a client's lines are relayed messages of the phase, and how
      many of those complete an operation. */
  function RelayedOf(p: Phase): Log -> nat { (l: Log) => RelayedIn(p, l.lines) }
  function CompletedOf(p: Phase): Log -> nat { (l: Log) => |Completed(p, l.index, [], l.lines)| }

  /** As many latencies as completions, no more completions than deliveries.
      For the direct workload every request was sent, and answered at most
      once; otherwise the lines read are counted, exactly. */
  ghost predicate CountsOk(p: Phase, t: Tally, logs: seq<Log>) {
    && |t.latencies| == t.completions <= t.deliveries
    && t.completedByDeadline <= t.completions
    && t.completedByDeadline <= t.deliveriesByDeadline <= t.deliveries
    && (if p.workload == Direct then
          t.sent == Sum(logs, Asked()) && t.completions == t.deliveries == Sum(logs, Answered())
        else
          t.deliveries == Sum(logs, RelayedOf(p)) && t.completions == Sum(logs, CompletedOf(p)))
  }

  function Requested(w: Workload, l: Log, frame: Bytes, sentNs: int): Log {
    l.(queued := l.queued + frame, asked := if w == Direct then l.asked + [sentNs] else l.asked)
  }

  lemma CountRequest(p: Phase, t: Tally, logs: seq<Log>, k: nat, frame: Bytes, sentNs: int)
    requires CountsOk(p, t, logs) && k < |logs|
    ensures CountsOk(p, t.(sent := t.sent + 1), logs[k := Requested(p.workload, logs[k], frame, sentNs)])
  {
    var l := Requested(p.workload, logs[k], frame, sentNs);
    SumUpdate(logs, k, l, Asked());
    SumUpdate(logs, k, l, Answered());
    SumUpdate(logs, k, l, RelayedOf(p));
    SumUpdate(logs, k, l, CompletedOf(p));
  }

  /** One delivery, and the completion it may be. */
  function Delivered(t: Tally, completed: bool, byDeadline: bool, latency: int): Tally {
    var late := if byDeadline then 0 else 1;
    var t1 := t.(deliveries := t.deliveries + 1, deliveriesByDeadline := t.deliveriesByDeadline + 1 - late);
    if !completed then t1
    else t1.(completions := t.completions + 1, completedByDeadline := t.completedByDeadline + 1 - late,
             latencies := t.latencies + [latency])
  }

  /** What one line means to the client `index` that awaits the answers to the
      requests sent at the times `pending`: the send time of what it completes. */
  function AnswerTo(p: Phase, index: nat, pending: seq<int>, line: Bytes): Maybe<int> {
    if p.workload == Direct then
      if Contains(line, WHERE_RESPONSE) && pending != [] then Just(pending[0]) else Nothing
    else
      match ReadRelayed(p, line)
      case Just((sender, sentNs)) =>
        if p.connections > 0 && index == (sender + 1) % p.connections then Just(sentNs) else Nothing
      case Nothing => Nothing
  }

  function Left(p: Phase, pending: seq<int>, answers: nat): seq<int> {
    if p.workload == Direct && answers <= |pending| then pending[answers..] else pending
  }

  /** The send times of everything that a client's lines complete, in order.
      Direct requests are answered oldest first. */
  function Completed(p: Phase, index: nat, pending: seq<int>, lines: seq<Bytes>): (times: seq<int>)
    ensures p.workload == Direct ==> times <= pending
    decreases |lines|
  {
    if lines == [] then []
    else
      match AnswerTo(p, index, pending, lines[0])
      case Just(sentNs) => [sentNs] + Completed(p, index, Left(p, pending, 1), lines[1..])
      case Nothing => Completed(p, index, pending, lines[1..])
  }

  /** How many of the lines are relayed messages of this phase. */
  function RelayedIn(p: Phase, lines: seq<Bytes>): nat {
    if lines == [] then 0 else (if ReadRelayed(p, lines[0]).Just? then 1 else 0) + RelayedIn(p, lines[1..])
  }

  lemma {:induction false} RelayedAppend(p: Phase, a: seq<Bytes>, b: seq<Bytes>)
    ensures RelayedIn(p, a + b) == RelayedIn(p, a) + RelayedIn(p, b)
  {
    if a == [] {
      assert a + b == b;
    } else {
      assert (a + b)[1..] == a[1..] + b;
      RelayedAppend(p, a[1..], b);
    }
  }

  lemma LeftLeft(p: Phase, pending: seq<int>, i: nat, j: nat)
    requires p.workload == Direct ==> i + j <= |pending|
    ensures Left(p, Left(p, pending, i), j) == Left(p, pending, i + j)
  {
  }

  lemma {:induction false} CompletedAppend(p: Phase, index: nat, pending: seq<int>, a: seq<Bytes>, b: seq<Bytes>)
    ensures var first := Completed(p, index, pending, a);
      Completed(p, index, pending, a + b) == first + Completed(p, index, Left(p, pending, |first|), b)
    decreases |a|
  {
    hide AnswerTo;
    if a == [] {
      assert a + b == b;
      assert Left(p, pending, 0) == pending;
    } else {
      assert (a + b)[1..] == a[1..] + b;
      match AnswerTo(p, index, pending, a[0])
      case Just(sentNs) =>
        var rest := Completed(p, index, Left(p, pending, 1), a[1..]);
        CompletedAppend(p, index, Left(p, pending, 1), a[1..], b);
        CompletedFits(p, index, pending, a);
        LeftLeft(p, pending, 1, |rest|);
        Assoc([sentNs], rest, Completed(p, index, Left(p, pending, 1 + |rest|), b));
      case Nothing =>
        CompletedAppend(p, index, pending, a[1..], b);
    }
  }

  lemma CompletedFits(p: Phase, index: nat, pending: seq<int>, lines: seq<Bytes>)
    ensures p.workload == Direct ==> |Completed(p, index, pending, lines)| <= |pending|
  {
  }

  /** From one moment to a later one, a client read some lines, and what they
      complete and deliver was counted and taken from its pending requests. */
  ghost predicate Progress(p: Phase, c0: Client, l0: Log, t0: Tally, c: Client, l: Log, t: Tally) {
    && c.index == c0.index
    && l0.lines <= l.lines
    && var lines := l.lines[|l0.lines|..];
       var times := Completed(p, c0.index, c0.pending, lines);
    && t.sent == t0.sent
    && |t.latencies| == |t0.latencies| + |times|
    && t.deliveries == t0.deliveries + (if p.workload == Direct then |times| else RelayedIn(p, lines))
    && c.pending == Left(p, c0.pending, |times|)
    && l == l0.(lines := l.lines, answered := if p.workload == Direct then l0.answered + times else l0.answered)
  }

  lemma ProgressStarts(p: Phase, c: Client, l: Log, t: Tally, d: Client)
    requires d.index == c.index && d.pending == c.pending
    ensures Progress(p, c, l, t, d, l, t)
  {
    assert l.lines[|l.lines|..] == [];
    assert l.answered + [] == l.answered;
  }

  lemma ProgressAlso(p: Phase, c0: Client, l0: Log, t0: Tally, c1: Client, l1: Log, t1: Tally, d1: Client, c2: Client,
                     l2: Log, t2: Tally)
    requires Progress(p, c0, l0, t0, c1, l1, t1) && Progress(p, d1, l1, t1, c2, l2, t2)
    requires d1.index == c1.index && d1.pending == c1.pending
    ensures Progress(p, c0, l0, t0, c2, l2, t2)
  {
    hide Left, Completed;
    var a, b := l1.lines[|l0.lines|..], l2.lines[|l1.lines|..];
    LinesMore(l0.lines, l1.lines, l2.lines);
    var first := Completed(p, c0.index, c0.pending, a);
    var second := Completed(p, c0.index, c1.pending, b);
    CompletedAppend(p, c0.index, c0.pending, a, b);
    RelayedAppend(p, a, b);
    CompletedFits(p, c0.index, c0.pending, a + b);
    LeftLeft(p, c0.pending, |first|, |second|);
    Assoc(l0.answered, first, second);
  }

  lemma LinesMore(a: seq<Bytes>, b: seq<Bytes>, c: seq<Bytes>)
    requires a <= b && b <= c
    ensures a <= c && c[|a|..] == b[|a|..] + c[|b|..]
  {
  }

  /** One line more. */
  lemma OneLine(p: Phase, c: Client, l: Log, t: Tally, line: Bytes, d: Client, m: Log, u: Tally)
    requires p.connections > 0 && d.index == c.index && u.sent == t.sent
    requires var answer := AnswerTo(p, c.index, c.pending, line);
      && |u.latencies| == |t.latencies| + (if answer.Just? then 1 else 0)
      && u.deliveries == t.deliveries + (if p.workload == Direct then (if answer.Just? then 1 else 0)
                                         else if ReadRelayed(p, line).Just? then 1 else 0)
      && d.pending == (if answer.Just? then Left(p, c.pending, 1) else c.pending)
      && m == l.(lines := l.lines + [line],
                 answered := if answer.Just? && p.workload == Direct then l.answered + [answer.value] else l.answered)
    ensures Progress(p, c, l, t, d, m, u)
  {
    hide AnswerTo, ReadRelayed, Completed, RelayedIn;
    assert m.lines[|l.lines|..] == [line];
    CompletedOne(p, c.index, c.pending, line);
    assert l.answered + [] == l.answered;
    assert Left(p, c.pending, 0) == c.pending;
  }

  lemma CompletedOne(p: Phase, index: nat, pending: seq<int>, line: Bytes)
    ensures var answer := AnswerTo(p, index, pending, line);
      Completed(p, index, pending, [line]) == if answer.Just? then [answer.value] else []
    ensures RelayedIn(p, [line]) == if ReadRelayed(p, line).Just? then 1 else 0
  {
    hide AnswerTo, ReadRelayed;
    assert [line][1..] == [];
    assert RelayedIn(p, []) == 0;
    assert forall rest :: Completed(p, index, rest, []) == [];
  }

  /** A direct request's answer, or a line that is none. */
  lemma CountDirect(p: Phase, t: Tally, logs: seq<Log>, k: nat, line: Bytes, answer: seq<int>, byDeadline: bool,
                    latency: int)
    requires p.workload == Direct && CountsOk(p, t, logs) && k < |logs| && |answer| <= 1
    ensures CountsOk(p, if answer == [] then t else Delivered(t, true, byDeadline, latency),
                     logs[k := logs[k].(lines := logs[k].lines + [line], answered := logs[k].answered + answer)])
  {
    var l := logs[k].(lines := logs[k].lines + [line], answered := logs[k].answered + answer);
    SumUpdate(logs, k, l, Asked());
    SumUpdate(logs, k, l, Answered());
  }

  /** A line of another workload: a relayed message, which may complete its
      operation here, or none. */
  lemma CountRelayed(p: Phase, t: Tally, logs: seq<Log>, k: nat, line: Bytes, byDeadline: bool, latency: int)
    requires p.workload != Direct && CountsOk(p, t, logs) && k < |logs|
    ensures CountsOk(p, if ReadRelayed(p, line).Nothing? then t
                        else Delivered(t, AnswerTo(p, logs[k].index, [], line).Just?, byDeadline, latency),
                     logs[k := logs[k].(lines := logs[k].lines + [line])])
  {
    hide ReadRelayed, Sum;
    var l := logs[k].(lines := logs[k].lines + [line]);
    SumUpdate(logs, k, l, RelayedOf(p));
    SumUpdate(logs, k, l, CompletedOf(p));
    RelayedAppend(p, logs[k].lines, [line]);
    CompletedAppend(p, logs[k].index, [], logs[k].lines, [line]);
    CompletedOne(p, logs[k].index, [], line);
    OthersAnswer(p, logs[k].index, [], line);
  }

  /** Only direct requests are answered in turn. */
  lemma OthersAnswer(p: Phase, index: nat, pending: seq<int>, line: Bytes)
    requires p.workload != Direct
    ensures AnswerTo(p, index, pending, line) == AnswerTo(p, index, [], line)
    ensures ReadRelayed(p, line).Nothing? ==> AnswerTo(p, index, pending, line).Nothing?
    ensures forall n :: Left(p, pending, n) == pending
  {
  }

  class Generator {
    const phase: Phase
    const kernel: Kernel
    var clients: seq<Client>
    var tally: Tally
    var sendErrors: nat
    var disconnects: set<nat>
    /** The selector: the write bit of each registered client. */
    var interest: map<int, bool>
    ghost var logs: seq<Log>

    /** The selector knows the open clients, and awaits writing for those with
        something left to send. */
    ghost predicate WritesAwaited()
      reads this
    {
      && (forall k :: k in interest <==> 0 <= k < |clients| && !clients[k].closed)
      && (forall k :: k in interest ==> interest[k] == (clients[k].sendBuffer != []))
    }

    /** The same but for client `k`, whose interest is being updated. */
    ghost predicate OthersAwaited(k: nat)
      reads this
    {
      && (forall j :: j in interest <==> 0 <= j < |clients| && !clients[j].closed)
      && (forall j :: j in interest && j != k ==> interest[j] == (clients[j].sendBuffer != []))
    }

    ghost predicate Valid()
      reads this, kernel
    {
      && LinksOk(clients, logs, kernel.taken, kernel.given, sendErrors)
      && CountsOk(phase, tally, logs)
      && WritesAwaited()
      && (forall c :: c in clients ==> LineFree(c.buffer))
    }

    /** The start of a phase with the clients of the last one: what they read
        and awaited is forgotten, what they have yet to send is not. */
    constructor (phase: Phase, kernel: Kernel, previous: seq<Client>)
      requires forall k :: 0 <= k < |previous| ==>
        k in kernel.taken && k in kernel.given && |previous[k].sendBuffer| <= MAX_CLIENT_SEND_QUEUE
      ensures Valid() && this.phase == phase && this.kernel == kernel
      ensures |clients| == |previous| && tally.sent == 0 && sendErrors == 0 && disconnects == {}
      ensures forall k :: 0 <= k < |clients| ==> clients[k] == previous[k].(buffer := [], pending := [])
    {
      this.phase, this.kernel := phase, kernel;
      clients := Cleared(previous);
      interest := OpenOnes(previous);
      logs := StartLogs(kernel.taken, kernel.given, previous);
      tally, sendErrors, disconnects := Tally(0, 0, 0, 0, 0, []), 0, {};
      new;
      NothingAsked(phase, logs);
    }

    /** update_interest */
    method UpdateInterest(k: nat)
      requires k in interest && k < |clients| && OthersAwaited(k)
      modifies this`interest
      ensures WritesAwaited() && interest == old(interest)[k := clients[k].sendBuffer != []]
    {
      interest := interest[k := clients[k].sendBuffer != []];
    }

    /** Send until the buffer is empty, the kernel takes no more, or it fails;
        Python repeats a send that a signal interrupts. */
    method SendBuffered(k: nat)
      requires k < |clients| && k in kernel.taken
      modifies this`clients, this`sendErrors, kernel`taken, kernel`log, kernel`interruptsLeft
      ensures |clients| == |old(clients)|
      ensures clients == old(clients)[k := old(clients)[k].(sendBuffer := clients[k].sendBuffer)]
      ensures |clients[k].sendBuffer| <= |old(clients)[k].sendBuffer|
      ensures kernel.generous ==> clients[k].sendBuffer == [] && sendErrors == old(sendErrors)
      // an error empties the buffer and is counted once; otherwise no byte is lost
      ensures sendErrors == old(sendErrors) || (sendErrors == old(sendErrors) + 1 && clients[k].sendBuffer == [])
      ensures k in kernel.taken && kernel.taken == old(kernel.taken)[k := kernel.taken[k]]
      ensures sendErrors == old(sendErrors) ==>
        kernel.taken[k] + clients[k].sendBuffer == old(kernel.taken[k] + clients[k].sendBuffer)
      // exactly a send that broke down is an error, and only one that would block leaves bytes behind
      ensures kernel.log == Sends(old(kernel.log), k, sendErrors != old(sendErrors), clients[k].sendBuffer != [])
    {
      ghost var c0, taken0, log0 := clients[k], kernel.taken[k], kernel.log;
      while clients[k].sendBuffer != []
        invariant |clients| == |old(clients)| && sendErrors == old(sendErrors)
        invariant kernel.log == log0
        invariant k in kernel.taken && kernel.taken == old(kernel.taken)[k := kernel.taken[k]]
        invariant clients == old(clients)[k := c0.(sendBuffer := clients[k].sendBuffer)]
        invariant kernel.taken[k] + clients[k].sendBuffer == taken0 + c0.sendBuffer
        invariant |clients[k].sendBuffer| <= |c0.sendBuffer|
        decreases |clients[k].sendBuffer|, kernel.interruptsLeft
      {
        var c := clients[k];
        ghost var before := kernel.taken[k];
        var r := kernel.Send(k, c.sendBuffer);
        if r.SendInterrupted? {
          continue;
        }
        if r.SendWouldBlock? {
          break;
        }
        if !r.Wrote? || r.count == 0 {
          sendErrors := sendErrors + 1;
          clients := clients[k := c.(sendBuffer := [])];
          break;
        }
        SentPart(before, c.sendBuffer, r.count);
        clients := clients[k := c.(sendBuffer := c.sendBuffer[r.count..])];
      }
    }

    /** flush_client_send */
    method FlushClientSend(k: nat)
      requires k < |clients| && !clients[k].closed && OthersAwaited(k)
      requires LinksOk(clients, logs, kernel.taken, kernel.given, sendErrors)
      modifies this`clients, this`sendErrors, this`interest, kernel`taken, kernel`log, kernel`interruptsLeft
      ensures LinksOk(clients, logs, kernel.taken, kernel.given, sendErrors) && WritesAwaited()
      ensures sendErrors >= old(sendErrors) && |clients| == |old(clients)|
      ensures clients == old(clients)[k := old(clients)[k].(sendBuffer := clients[k].sendBuffer)]
      ensures kernel.generous ==> clients[k].sendBuffer == [] && sendErrors == old(sendErrors)
      // an error empties the buffer and is counted once; otherwise no byte is lost
      ensures sendErrors == old(sendErrors) || (sendErrors == old(sendErrors) + 1 && clients[k].sendBuffer == [])
      ensures k in old(kernel.taken) && k in kernel.taken && (sendErrors == old(sendErrors) ==>
        kernel.taken[k] + clients[k].sendBuffer == old(kernel.taken[k] + clients[k].sendBuffer))
      ensures forall fd :: fd in old(kernel.taken) && fd != k ==>
        fd in kernel.taken && kernel.taken[fd] == old(kernel.taken)[fd]
      // exactly a send that broke down is an error, and only one that would block leaves bytes behind
      ensures kernel.log == Sends(old(kernel.log), k, sendErrors != old(sendErrors), clients[k].sendBuffer != [])
    {
      hide LinksOk, ClientOk, Sends;
      LinkOf(clients, logs, kernel.taken, kernel.given, sendErrors, k);
      ghost var c0, taken0 := clients[k], kernel.taken[k];
      SendBuffered(k);
      Flushed(c0, logs[k], taken0, kernel.given[k], old(sendErrors), clients[k].sendBuffer, kernel.taken[k],
              sendErrors);
      LinkChanged(old(clients), logs, old(kernel.taken), kernel.given, old(sendErrors),
                  k, clients[k], logs[k], kernel.taken[k], kernel.given[k], sendErrors);
      assert logs[k := logs[k]] == logs && kernel.given[k := kernel.given[k]] == kernel.given;
      assert clients == old(clients)[k := clients[k]];
      UpdateInterest(k);
    }

    /** Queue a frame and try to send it; a full buffer refuses it whole. */
    method QueueClientFrame(k: nat, frame: Bytes, sentNs: int) returns (ok: bool)
      requires k < |clients| && !clients[k].closed && Valid()
      modifies this`clients, this`sendErrors, this`interest, this`logs, this`tally
      modifies kernel`taken, kernel`log, kernel`interruptsLeft
      ensures Valid() && |clients| == |old(clients)| && |logs| == |old(logs)| && k < |logs|
      ensures ok == (|old(clients)[k].sendBuffer| + |frame| <= 65536)
      ensures !ok ==>
        clients == old(clients) && logs == old(logs) && tally == old(tally) && kernel.taken == old(kernel.taken)
      ensures ok ==> tally == old(tally).(sent := old(tally).sent + 1)
      ensures ok ==> logs == old(logs)[k := Requested(phase.workload, old(logs)[k], frame, sentNs)]
      // a queued frame is sent behind what waited, unless a send blocks or breaks down
      ensures ok ==> clients == old(clients)[k := old(clients)[k].(
        sendBuffer := clients[k].sendBuffer,
        pending := old(clients)[k].pending + if phase.workload == Direct then [sentNs] else [])]
      ensures ok ==>
        kernel.log == Sends(old(kernel.log), k, sendErrors != old(sendErrors), clients[k].sendBuffer != [])
    {
      hide LinksOk, ClientOk, CountsOk, Requested, Sends;
      LinkOf(clients, logs, kernel.taken, kernel.given, sendErrors, k);
      var c := clients[k];
      if |c.sendBuffer| + |frame| > MAX_CLIENT_SEND_QUEUE {
        return false;
      }
      c := c.(sendBuffer := c.sendBuffer + frame);
      assert c.pending + [] == c.pending;
      if phase.workload == Direct {
        c := c.(pending := c.pending + [sentNs]);
      }
      ghost var l := Requested(phase.workload, logs[k], frame, sentNs);
      QueuedOk(clients[k], logs[k], kernel.taken[k], kernel.given[k], sendErrors, phase.workload, frame, sentNs);
      LinkChanged(clients, logs, kernel.taken, kernel.given, sendErrors, k, c, l, kernel.taken[k], kernel.given[k],
                  sendErrors);
      CountRequest(phase, tally, logs, k, frame, sentNs);
      assert kernel.taken[k := kernel.taken[k]] == kernel.taken && kernel.given[k := kernel.given[k]] == kernel.given;
      clients, logs := clients[k := c], logs[k := l];
      tally := tally.(sent := tally.sent + 1);
      FlushClientSend(k);
      ok := true;
    }

    method CloseClient(k: nat)
      requires k < |clients|
      modifies this`clients, this`disconnects, this`interest
      ensures clients == old(clients)[k := old(clients)[k].(closed := true)]
      ensures interest == if old(clients)[k].closed then old(interest) else old(interest) - {k}
      ensures disconnects ==
        if old(clients)[k].closed then old(disconnects) else old(disconnects) + {clients[k].index}
    {
      if clients[k].closed {
        return;
      }
      clients := clients[k := clients[k].(closed := true)];
      disconnects := disconnects + {clients[k].index};
      interest := interest - {k};
    }

    /** One received line: an answer to the client's oldest request, or a
        relayed message, which completes its operation when it reaches the
        client after its sender. */
    method HandleLine(k: nat, line: Bytes, receivedNs: int)
      requires k < |clients| == |logs| && CountsOk(phase, tally, logs)
      requires phase.connections > 0 && logs[k].index == clients[k].index
      requires logs[k].asked == logs[k].answered + clients[k].pending
      modifies this`clients, this`tally, this`logs
      ensures |logs| == |clients| == |old(clients)| && CountsOk(phase, tally, logs)
      ensures clients == old(clients)[k := old(clients)[k].(pending := clients[k].pending)]
      ensures logs == old(logs)[k := old(logs)[k].(lines := old(logs)[k].lines + [line], answered := logs[k].answered)]
      ensures logs[k].asked == logs[k].answered + clients[k].pending
      ensures tally.latencies == match AnswerTo(phase, old(clients)[k].index, old(clients)[k].pending, line)
        case Just(sentNs) => old(tally).latencies + [receivedNs - sentNs]
        case Nothing => old(tally).latencies
      // what arrives up to the deadline is counted as such
      ensures tally.completedByDeadline - old(tally.completedByDeadline)
           == if receivedNs <= phase.deadline then tally.completions - old(tally.completions) else 0
      ensures tally.deliveriesByDeadline - old(tally.deliveriesByDeadline)
           == if receivedNs <= phase.deadline then tally.deliveries - old(tally.deliveries) else 0
      ensures Progress(phase, old(clients)[k], old(logs)[k], old(tally), clients[k], logs[k], tally)
    {
      hide Sum, Find, ReadRelayed, Progress, CountsOk;
      var c := clients[k];
      ghost var l, t := logs[k], tally;
      var byDeadline := receivedNs <= phase.deadline;
      if phase.workload == Direct {
        if Find(line, WHERE_RESPONSE, 0) != -1 && c.pending != [] {
          var sentNs := c.pending[0];
          CountDirect(phase, tally, logs, k, line, [sentNs], byDeadline, receivedNs - sentNs);
          clients := clients[k := c.(pending := c.pending[1..])];
          logs := logs[k := l.(lines := l.lines + [line], answered := l.answered + [sentNs])];
          assert c.pending == [sentNs] + c.pending[1..];
          tally := Delivered(tally, true, byDeadline, receivedNs - sentNs);
        } else {
          CountDirect(phase, tally, logs, k, line, [], byDeadline, 0);
          logs := logs[k := l.(lines := l.lines + [line])];
          assert l.answered + [] == l.answered;
        }
      } else {
        OthersAnswer(phase, c.index, c.pending, line);
        match ReadRelayed(phase, line) {
          case Nothing =>
            CountRelayed(phase, tally, logs, k, line, byDeadline, 0);
          case Just((sender, sentNs)) =>
            var completed := c.index == (sender + 1) % phase.connections;
            CountRelayed(phase, tally, logs, k, line, byDeadline, receivedNs - sentNs);
            tally := Delivered(tally, completed, byDeadline, receivedNs - sentNs);
        }
        logs := logs[k := l.(lines := l.lines + [line])];
      }
      OneLine(phase, c, l, t, line, clients[k], logs[k], tally);
    }

    /** Handle the complete lines of a client's buffer. */
    method HandleLines(k: nat)
      requires k < |clients| && phase.connections > 0 && CountsOk(phase, tally, logs)
      requires LinksOk(clients, logs, kernel.taken, kernel.given, sendErrors)
      modifies this`clients, this`tally, this`logs
      ensures LinksOk(clients, logs, kernel.taken, kernel.given, sendErrors) && CountsOk(phase, tally, logs)
      ensures |clients| == |old(clients)| && clients == old(clients)[k := clients[k]]
      ensures |logs| == |old(logs)| == |clients| && logs == old(logs)[k := logs[k]]
      ensures OnlyRead(old(clients)[k], clients[k]) && LineFree(clients[k].buffer)
      ensures Progress(phase, old(clients)[k], old(logs)[k], old(tally), clients[k], logs[k], tally)
    {
      hide LinksOk, CountsOk, ClientOk, AnswerTo, JoinLines, Progress;
      LinkOf(clients, logs, kernel.taken, kernel.given, sendErrors, k);
      ghost var c0, l0, t0 := clients[k], logs[k], tally;
      ProgressStarts(phase, c0, l0, t0, c0);
      while LF in clients[k].buffer
        invariant |clients| == |old(clients)| == |logs| && CountsOk(phase, tally, logs)
        invariant LinksOk(clients, logs, kernel.taken, kernel.given, sendErrors)
        invariant OnlyRead(c0, clients[k]) && clients == old(clients)[k := clients[k]]
        invariant logs == old(logs)[k := logs[k]]
        invariant Progress(phase, c0, l0, t0, clients[k], logs[k], tally)
        decreases |clients[k].buffer|
      {
        LinkOf(clients, logs, kernel.taken, kernel.given, sendErrors, k);
        var c := clients[k];
        ghost var l, t, were, had := logs[k], tally, clients, logs;
        var i := IndexOf(c.buffer, LF);
        CutAt(c.buffer, LF);
        var line := c.buffer[..i];
        LineTaken(c, l, kernel.taken[k], kernel.given[k], sendErrors, line, i);
        clients := clients[k := c.(buffer := c.buffer[i + 1..])];
        ghost var d := clients[k];
        var receivedNs: int := *;
        HandleLine(k, line, receivedNs);
        ProgressAlso(phase, c0, l0, t0, c, l, t, d, clients[k], logs[k], tally);
        Answers(were[k], clients[k], l, logs[k], kernel.taken[k], kernel.given[k], sendErrors, line, i);
        LinkChanged(were, had, kernel.taken, kernel.given, sendErrors, k, clients[k], logs[k], kernel.taken[k],
                    kernel.given[k], sendErrors);
        assert kernel.taken[k := kernel.taken[k]] == kernel.taken && kernel.given[k := kernel.given[k]] == kernel.given;
        assert clients == were[k := clients[k]] && logs == had[k := logs[k]];
      }
    }

    /** One `recv`: handle the lines it completes; the end of the stream or an
        error closes the client. */
    method ReadOnce(k: nat, limit: nat) returns (r: ReceiveResult)
      requires k < |clients| && !clients[k].closed && Valid() && phase.connections > 0 && limit > 0
      modifies this`clients, this`tally, this`logs, this`disconnects, this`interest
      modifies kernel`given, kernel`totalGiven, kernel`receives
      ensures Valid()
      ensures OneChanged(old(clients), clients, old(logs), logs, k)
      ensures clients[k].closed == (r.PeerClosed? || r.ReceiveFailed?)
      ensures disconnects == old(disconnects) + if clients[k].closed then {clients[k].index} else {}
      ensures kernel.receives == old(kernel.receives) + [(k, r)]
      ensures r.Received? ==> |r.data| <= limit && |r.data| <= 16384
      ensures kernel.totalGiven == old(kernel.totalGiven) + (if r.Received? then |r.data| else 0)
      ensures Progress(phase, old(clients)[k], old(logs)[k], old(tally), clients[k], logs[k], tally)
    {
      hide LinksOk, CountsOk, ClientOk, Progress;
      LinkOf(clients, logs, kernel.taken, kernel.given, sendErrors, k);
      ghost var given0, c, l, t := kernel.given, clients[k], logs[k], tally;
      ProgressStarts(phase, c, l, t, c);
      ProgressStarts(phase, c, l, t, c.(closed := true));
      r := kernel.Receive(k, if limit < 16384 then limit else 16384);
      assert logs[k := logs[k]] == logs && kernel.taken[k := kernel.taken[k]] == kernel.taken;
      match r
      case NothingToRead =>
      case Received(data) =>
        Heard(c, l, kernel.taken[k], given0[k], sendErrors, data);
        LinkChanged(clients, logs, kernel.taken, given0, sendErrors,
                    k, c.(buffer := c.buffer + data), l, kernel.taken[k], kernel.given[k], sendErrors);
        clients := clients[k := clients[k].(buffer := clients[k].buffer + data)];
        ghost var d := clients[k];
        HandleLines(k);
        ProgressAlso(phase, c, l, t, c, l, t, d, clients[k], logs[k], tally);
      case _ =>
        ghost var were := clients;
        CloseClient(k);
        Heard(c, l, kernel.taken[k], kernel.given[k], sendErrors, []);
        LinkChanged(were, logs, kernel.taken, kernel.given, sendErrors,
                    k, clients[k], l, kernel.taken[k], kernel.given[k], sendErrors);
        assert kernel.given[k := kernel.given[k]] == kernel.given;
    }

    /** Read from one client, within the phase's limits on calls and bytes, and
        handle every complete line; the end of the stream closes the client. */
    method ProcessClientRead(k: nat)
      requires k < |clients| && !clients[k].closed && Valid() && phase.connections > 0
      modifies this`clients, this`tally, this`logs, this`disconnects, this`interest
      modifies kernel`given, kernel`totalGiven, kernel`receives
      ensures Valid() && OneChanged(old(clients), clients, old(logs), logs, k)
      ensures disconnects == old(disconnects) + if clients[k].closed then {clients[k].index} else {}
      ensures old(kernel.receives) <= kernel.receives
      ensures ReadsMade(kernel.receives[|old(kernel.receives)|..], k, phase, clients[k].closed,
                        kernel.totalGiven - old(kernel.totalGiven))
      ensures kernel.totalGiven <= old(kernel.totalGiven) + phase.maxRecvBytes
      ensures Progress(phase, old(clients)[k], old(logs)[k], old(tally), clients[k], logs[k], tally)
    {
      LogsFit();
      hide *;
      ghost var were, had, t0, before, total := clients, logs, tally, kernel.receives, kernel.totalGiven;
      ghost var made: seq<(int, ReceiveResult)> := [];
      ProgressStarts(phase, were[k], had[k], t0, were[k]);
      NoReads(k);
      var calls, bytesRead, again := 0, 0, true;
      while again && calls < phase.maxRecvCalls && bytesRead < phase.maxRecvBytes
        invariant Valid() && OneChanged(were, clients, had, logs, k)
        invariant disconnects == old(disconnects) + if clients[k].closed then {clients[k].index} else {}
        invariant Progress(phase, were[k], had[k], t0, clients[k], logs[k], tally)
        invariant bytesRead <= phase.maxRecvBytes && kernel.totalGiven == total + bytesRead
        invariant kernel.receives == before + made && |made| == calls <= phase.maxRecvCalls
        invariant ReadsSoFar(made, k, again, clients[k].closed) && (made == [] ==> bytesRead == 0)
        decreases phase.maxRecvCalls - calls
      {
        AgainIsOpen(made, k, clients[k].closed);
        ghost var cs, ls, t := clients, logs, tally;
        var r := ReadOnce(k, phase.maxRecvBytes - bytesRead);
        ProgressAlso(phase, were[k], had[k], t0, cs[k], ls[k], t, cs[k], clients[k], logs[k], tally);
        OneChangedAgain(were, cs, clients, had, ls, logs, k);
        OneRead(before, made, k, r);
        made := made + [(k, r)];
        again, calls := r.Received?, calls + 1;
        if again {
          bytesRead := bytesRead + |r.data|;
        }
      }
      ReadsEnd(before, made, k, phase, again, clients[k].closed, bytesRead);
    }

    /** Serve one ready client: read it, then send to it if it is still open. */
    method ServiceEvent(e: Ready)
      requires Valid() && phase.connections > 0 && e.client < |clients|
      modifies this`clients, this`tally, this`logs, this`disconnects, this`interest, this`sendErrors,
               kernel`taken, kernel`given, kernel`totalGiven, kernel`interruptsLeft, kernel`log, kernel`receives
      ensures Valid() && |clients| == |old(clients)| && |logs| == |old(logs)| == |clients|
      ensures tally.sent == old(tally).sent && Later(old(logs)[e.client], logs[e.client])
      ensures clients == old(clients)[e.client := clients[e.client]] && logs == old(logs)[e.client := logs[e.client]]
      ensures Served(phase, e, old(clients)[e.client], clients[e.client], old(kernel.receives), kernel.receives,
                     old(kernel.log), kernel.log)
      ensures disconnects == old(disconnects) + NewlyClosed(old(clients), clients)
      ensures sendErrors == old(sendErrors) + |kernel.log.broken| - |old(kernel.log.broken)|
    {
      hide LinksOk, CountsOk, ClientOk, Progress, ReadsMade, Sends, OneChanged;
      LogsFit();
      ghost var c, l, t, before, log := clients[e.client], logs[e.client], tally, kernel.receives, kernel.log;
      ghost var cs := clients;
      NobodyClosed(cs);
      if !clients[e.client].closed {
        if e.read {
          ghost var were, had := clients, logs;
          ProcessClientRead(e.client);
          OneChangedMeans(were, clients, had, logs, e.client);
          ProgressIsLater(phase, c, l, t, clients[e.client], logs[e.client], tally);
          ReadsAsk(before, kernel.receives, e.client, phase, clients[e.client].closed,
                   kernel.totalGiven - old(kernel.totalGiven));
        }
        ghost var d := clients[e.client];
        if e.write && !clients[e.client].closed {
          FlushClientSend(e.client);
          SendsOnly(log, e.client, sendErrors != old(sendErrors), clients[e.client].sendBuffer != []);
        }
        OneClosed(cs, clients, e.client);
      }
    }

    /** Serve one batch of ready clients, beginning where the last batch's
        cursor points; a client closed on the way is skipped. */
    method ServiceEvents(events: seq<Ready>, cursor: nat) returns (next: nat)
      requires Valid() && phase.connections > 0
      requires forall e :: e in events ==> e.client < |clients|
      modifies this`clients, this`tally, this`logs, this`disconnects, this`interest, this`sendErrors,
               kernel`taken, kernel`given, kernel`totalGiven, kernel`interruptsLeft, kernel`log, kernel`receives
      ensures Valid() && |clients| == |old(clients)| && |logs| == |old(logs)| == |clients|
      ensures tally.sent == old(tally).sent && next == NextCursor(events, cursor)
      ensures forall k :: 0 <= k < |clients| ==> Later(old(logs)[k], logs[k])
      ensures forall k :: 0 <= k < |clients| && (forall e :: e in events ==> e.client != k) ==>
        clients[k] == old(clients)[k] && logs[k] == old(logs)[k]
      ensures forall k :: 0 <= k < |clients| && old(clients)[k].closed ==> clients[k].closed
      ensures old(kernel.receives) <= kernel.receives
      // exactly the newly closed clients and the sends that broke down are noted
      ensures disconnects == old(disconnects) + NewlyClosed(old(clients), clients)
      ensures sendErrors == old(sendErrors) + |kernel.log.broken| - |old(kernel.log.broken)|
      // every client that was open and is readable was asked for data, every one
      // that is open and writable was sent all it has unless a send blocked
      ensures forall e :: e in events ==>
        Attended(phase, e, old(clients)[e.client], clients[e.client], old(kernel.receives), kernel.receives,
                 old(kernel.log), kernel.log)
    {
      hide LinksOk, CountsOk, ClientOk, Served, Attended, SoFar, NewlyClosed;
      LogsFit();
      var rotated := RotateReady(events, cursor);
      next := NextCursor(events, cursor);
      RotatedHasAll(events, cursor);
      ghost var were, had, before, log := clients, logs, kernel.receives, kernel.log;
      SoFarNothing(phase, were, before, log);
      NobodyClosed(were);
      assert rotated[..0] == [];
      for i := 0 to |rotated|
        invariant Valid() && |clients| == |were| && |logs| == |had| == |clients|
        invariant tally.sent == old(tally).sent
        invariant forall k :: 0 <= k < |clients| ==> Later(had[k], logs[k])
        invariant forall k :: 0 <= k < |clients| && (forall e :: e in events ==> e.client != k) ==>
          clients[k] == were[k] && logs[k] == had[k]
        invariant disconnects == old(disconnects) + NewlyClosed(were, clients)
        invariant sendErrors == old(sendErrors) + |kernel.log.broken| - |log.broken|
        invariant SoFar(phase, rotated[..i], were, clients, before, kernel.receives, log, kernel.log)
      {
        var e := rotated[i];
        assert e in rotated;
        assert rotated[..i + 1] == rotated[..i] + [e];
        ghost var cs, made, sends := clients, kernel.receives, kernel.log;
        ServiceEvent(e);
        OneMoreEvent(phase, rotated[..i], e, were, cs, clients, before, made, kernel.receives, log, sends, kernel.log);
      }
      assert rotated[..|rotated|] == rotated;
      SoFarMeans(phase, rotated, were, clients, before, kernel.receives, log, kernel.log);
    }

    lemma LogsFit()
      requires Valid()
      ensures |logs| == |clients|
    {
    }
  }

  /** Lines were read and requests answered; nothing else happened. */
  ghost predicate Later(before: Log, after: Log) {
    && after == before.(lines := after.lines, answered := after.answered)
    && before.lines <= after.lines && before.answered <= after.answered
  }

  lemma ProgressIsLater(p: Phase, c0: Client, l0: Log, t0: Tally, c: Client, l: Log, t: Tally)
    requires Progress(p, c0, l0, t0, c, l, t)
    ensures Later(l0, l) && t.sent == t0.sent
  {
  }

  datatype Ready = Ready(client: nat, read: bool, write: bool)

  /** Since `from` answers, `recv` was called for client `k`. */
  ghost predicate AskedSince(receives: seq<(int, ReceiveResult)>, from: nat, k: nat) {
    exists i :: from <= i < |receives| && receives[i].0 == k
  }

  /** What one event does to its client: a closed one is left alone; an open one
      is asked for data exactly if it is readable, closes only then, and if it
      is still open and writable has nothing left to send unless a send blocked. */
  ghost predicate Served(p: Phase, e: Ready, was: Client, now: Client, before: seq<(int, ReceiveResult)>,
                         receives: seq<(int, ReceiveResult)>, log: SendLog, after: SendLog) {
    && now == was.(buffer := now.buffer, pending := now.pending, closed := now.closed, sendBuffer := now.sendBuffer)
    && before <= receives && log.blocked <= after.blocked
    && (was.closed ==> now == was && receives == before && after == log)
    && (!e.read ==> receives == before && now.closed == was.closed)
    && (e.read && !was.closed && p.maxRecvCalls > 0 && p.maxRecvBytes > 0 ==> AskedSince(receives, |before|, e.client))
    && (now.closed && !was.closed ==> AskedSince(receives, |before|, e.client))
    && (e.write && !now.closed ==> now.sendBuffer == [] || after.blocked[e.client] > log.blocked[e.client])
    && (!e.write ==> now.sendBuffer == was.sendBuffer)
    && (now.sendBuffer == was.sendBuffer || now.sendBuffer == [] || after.blocked[e.client] > log.blocked[e.client])
  }

  /** What an event means at the end of its batch. */
  ghost predicate Attended(p: Phase, e: Ready, was: Client, now: Client, before: seq<(int, ReceiveResult)>,
                           receives: seq<(int, ReceiveResult)>, log: SendLog, after: SendLog) {
    && (e.read && !was.closed && p.maxRecvCalls > 0 && p.maxRecvBytes > 0 ==> AskedSince(receives, |before|, e.client))
    && (e.write && !now.closed ==> now.sendBuffer == [] || after.blocked[e.client] > log.blocked[e.client])
  }

  /** What a batch keeps about client `k` so far. */
  ghost predicate Kept(was: Client, now: Client, before: seq<(int, ReceiveResult)>,
                       receives: seq<(int, ReceiveResult)>, log: SendLog, after: SendLog, k: nat) {
    && before <= receives && log.blocked <= after.blocked
    && (was.closed ==> now.closed)
    && (now.closed && !was.closed ==> AskedSince(receives, |before|, k))
  }

  /** Who was open and is closed now. */
  function NewlyClosed(were: seq<Client>, now: seq<Client>): set<nat> {
    set k | 0 <= k < |were| && k < |now| && now[k].closed && !were[k].closed :: now[k].index
  }

  lemma NobodyClosed(clients: seq<Client>)
    ensures NewlyClosed(clients, clients) == {}
  {
  }

  lemma OneClosed(were: seq<Client>, now: seq<Client>, k: nat)
    requires k < |were| == |now| && now == were[k := now[k]] && !were[k].closed
    ensures NewlyClosed(were, now) == if now[k].closed then {now[k].index} else {}
  {
    if now[k].closed {
      assert now[k].index in NewlyClosed(were, now);
    }
  }

  lemma ClosedBoth(were: seq<Client>, cs: seq<Client>, now: seq<Client>, k: nat)
    requires |were| == |cs| == |now| && k < |cs| && now == cs[k := now[k]] && now[k].index == cs[k].index
    requires forall j :: 0 <= j < |cs| && were[j].closed ==> cs[j].closed
    requires cs[k].closed ==> now[k].closed
    ensures NewlyClosed(were, now) == NewlyClosed(were, cs) + NewlyClosed(cs, now)
  {
    forall x | x in NewlyClosed(were, cs) ensures x in NewlyClosed(were, now) {
      var j :| 0 <= j < |cs| && cs[j].closed && !were[j].closed && cs[j].index == x;
      assert now[j].closed && now[j].index == x;
    }
    forall x | x in NewlyClosed(cs, now) ensures x in NewlyClosed(were, now) {
      var j :| 0 <= j < |cs| && now[j].closed && !cs[j].closed && now[j].index == x;
      assert !were[j].closed;
    }
    forall x | x in NewlyClosed(were, now) ensures x in NewlyClosed(were, cs) || x in NewlyClosed(cs, now) {
      var j :| 0 <= j < |cs| && now[j].closed && !were[j].closed && now[j].index == x;
      assert cs[j].index == x;
    }
  }

  /** The events `done` were attended to. */
  ghost predicate SoFar(p: Phase, done: seq<Ready>, were: seq<Client>, now: seq<Client>,
                        before: seq<(int, ReceiveResult)>, receives: seq<(int, ReceiveResult)>,
                        log: SendLog, after: SendLog) {
    && |now| == |were| && before <= receives && log.blocked <= after.blocked
    && (forall k :: 0 <= k < |were| ==> Kept(were[k], now[k], before, receives, log, after, k))
    && (forall i :: 0 <= i < |done| ==>
          && done[i].client < |were|
          && Attended(p, done[i], were[done[i].client], now[done[i].client], before, receives, log, after))
  }

  lemma SoFarNothing(p: Phase, clients: seq<Client>, receives: seq<(int, ReceiveResult)>, log: SendLog)
    ensures SoFar(p, [], clients, clients, receives, receives, log, log)
  {
  }

  lemma OneMoreEvent(p: Phase, done: seq<Ready>, e: Ready, were: seq<Client>, cs: seq<Client>, now: seq<Client>,
                     before: seq<(int, ReceiveResult)>, made: seq<(int, ReceiveResult)>,
                     receives: seq<(int, ReceiveResult)>, log: SendLog, sends: SendLog, after: SendLog)
    requires SoFar(p, done, were, cs, before, made, log, sends)
    requires e.client < |cs| == |now| && now == cs[e.client := now[e.client]]
    requires Served(p, e, cs[e.client], now[e.client], made, receives, sends, after)
    ensures SoFar(p, done + [e], were, now, before, receives, log, after)
    ensures NewlyClosed(were, now) == NewlyClosed(were, cs) + NewlyClosed(cs, now)
  {
    ServedGrows(p, e, cs[e.client], now[e.client], made, receives, sends, after);
    SoFarMeans(p, done, were, cs, before, made, log, sends);
    ClosedBoth(were, cs, now, e.client);
    hide Kept, Attended, Served, NewlyClosed;
    forall k | 0 <= k < |were| ensures Kept(were[k], now[k], before, receives, log, after, k) {
      OneMoreKept(p, e, were[k], cs[k], cs[e.client], now[e.client], before, made, receives, log, sends, after, k);
    }
    EventAttended(p, e, were[e.client], cs[e.client], now[e.client], before, made, receives, log, sends, after);
    forall i | 0 <= i < |done|
      ensures Attended(p, done[i], were[done[i].client], now[done[i].client], before, receives, log, after)
    {
      var k := done[i].client;
      StillAttended(p, done[i], e, were[k], cs[k], cs[e.client], now[e.client], before, made, receives, log, sends,
                    after);
    }
  }

  lemma ServedGrows(p: Phase, e: Ready, was: Client, now: Client, before: seq<(int, ReceiveResult)>,
                    receives: seq<(int, ReceiveResult)>, log: SendLog, after: SendLog)
    requires Served(p, e, was, now, before, receives, log, after)
    ensures before <= receives && log.blocked <= after.blocked
    ensures now.index == was.index && (was.closed ==> now.closed)
  {
  }

  lemma SoFarMeans(p: Phase, done: seq<Ready>, were: seq<Client>, now: seq<Client>,
                   before: seq<(int, ReceiveResult)>, receives: seq<(int, ReceiveResult)>, log: SendLog, after: SendLog)
    requires SoFar(p, done, were, now, before, receives, log, after)
    ensures before <= receives && |now| == |were|
    ensures forall k :: 0 <= k < |now| && were[k].closed ==> now[k].closed
    ensures forall e :: e in done ==>
      e.client < |were| && Attended(p, e, were[e.client], now[e.client], before, receives, log, after)
  {
    hide Attended;
  }

  lemma AskedMore(before: seq<(int, ReceiveResult)>, made: seq<(int, ReceiveResult)>,
                  receives: seq<(int, ReceiveResult)>, k: nat)
    requires before <= made <= receives
    requires AskedSince(made, |before|, k) || AskedSince(receives, |made|, k)
    ensures AskedSince(receives, |before|, k)
  {
    if AskedSince(made, |before|, k) {
      var i :| |before| <= i < |made| && made[i].0 == k;
      assert receives[i].0 == k;
    }
  }

  lemma OneMoreKept(p: Phase, e: Ready, was: Client, c: Client, d: Client, now: Client,
                    before: seq<(int, ReceiveResult)>, made: seq<(int, ReceiveResult)>,
                    receives: seq<(int, ReceiveResult)>, log: SendLog, sends: SendLog, after: SendLog, k: nat)
    requires Kept(was, c, before, made, log, sends, k) && Served(p, e, d, now, made, receives, sends, after)
    requires k == e.client ==> c == d
    ensures Kept(was, if k == e.client then now else c, before, receives, log, after, k)
  {
    hide AskedSince;
    if AskedSince(made, |before|, k) || AskedSince(receives, |made|, k) {
      AskedMore(before, made, receives, k);
    }
  }

  lemma EventAttended(p: Phase, e: Ready, was: Client, c: Client, now: Client,
                      before: seq<(int, ReceiveResult)>, made: seq<(int, ReceiveResult)>,
                      receives: seq<(int, ReceiveResult)>, log: SendLog, sends: SendLog, after: SendLog)
    requires Kept(was, c, before, made, log, sends, e.client) && Served(p, e, c, now, made, receives, sends, after)
    ensures Attended(p, e, was, now, before, receives, log, after)
  {
    hide AskedSince;
    if AskedSince(made, |before|, e.client) || AskedSince(receives, |made|, e.client) {
      AskedMore(before, made, receives, e.client);
    }
  }

  /** Later events take nothing back. */
  lemma StillAttended(p: Phase, r: Ready, e: Ready, was: Client, c: Client, d: Client, now: Client,
                      before: seq<(int, ReceiveResult)>, made: seq<(int, ReceiveResult)>,
                      receives: seq<(int, ReceiveResult)>, log: SendLog, sends: SendLog, after: SendLog)
    requires Attended(p, r, was, c, before, made, log, sends) && before <= made && log.blocked <= sends.blocked
    requires Served(p, e, d, now, made, receives, sends, after) && (r.client == e.client ==> c == d)
    ensures Attended(p, r, was, if r.client == e.client then now else c, before, receives, log, after)
  {
    hide AskedSince;
    if AskedSince(made, |before|, r.client) {
      AskedMore(before, made, receives, r.client);
    }
  }

  lemma OneChangedMeans(were: seq<Client>, now: seq<Client>, had: seq<Log>, have: seq<Log>, k: nat)
    requires OneChanged(were, now, had, have, k)
    ensures k < |were| == |now| == |had| == |have| && now == were[k := now[k]] && have == had[k := have[k]]
    ensures var c := now[k]; c == were[k].(buffer := c.buffer, pending := c.pending, closed := c.closed)
  {
  }

  lemma ReadsAsk(before: seq<(int, ReceiveResult)>, receives: seq<(int, ReceiveResult)>, k: nat, p: Phase,
                 closed: bool, bytes: int)
    requires before <= receives && ReadsMade(receives[|before|..], k, p, closed, bytes)
    ensures closed || (p.maxRecvCalls > 0 && p.maxRecvBytes > 0) ==> AskedSince(receives, |before|, k)
  {
    var made := receives[|before|..];
    if made != [] {
      assert made[0] == receives[|before|];
    }
  }

  lemma SendsOnly(log: SendLog, k: int, broken: bool, blocked: bool)
    ensures log.blocked <= Sends(log, k, broken, blocked).blocked
    ensures blocked ==> Sends(log, k, broken, blocked).blocked[k] > log.blocked[k]
    ensures |Sends(log, k, broken, blocked).broken| == |log.broken| + if broken then 1 else 0
  {
  }

  /** rotate_ready: begin at the cursor, which then moves on by one. */
  function RotateReady(events: seq<Ready>, cursor: nat): seq<Ready> {
    if events == [] then [] else events[cursor % |events|..] + events[..cursor % |events|]
  }

  function NextCursor(events: seq<Ready>, cursor: nat): nat {
    if events == [] then cursor else (cursor % |events| + 1) % |events|
  }

  lemma Wraps(c: nat, i: nat, n: nat)
    requires n > 0 && i <= n
    ensures (c + i) % n == if c % n + i < n then c % n + i else c % n + i - n
  {
    DivMod(c, n);
    DivMod(c + i, n);
    OneMoreTimes(c / n, n);
    if c % n + i < n {
      DivIs(c + i, n, c / n, c % n + i);
    } else {
      DivIs(c + i, n, c / n + 1, c % n + i - n);
    }
  }

  /** Rotation serves every ready client exactly as often as it was reported. */
  lemma RotatedHasAll(events: seq<Ready>, cursor: nat)
    ensures multiset(RotateReady(events, cursor)) == multiset(events)
    ensures forall e :: e in RotateReady(events, cursor) <==> e in events
    ensures |RotateReady(events, cursor)| == |events|
  {
    if events != [] {
      var k := cursor % |events|;
      assert events == events[..k] + events[k..];
    }
  }

  /** In turn from the cursor on, which moves on by one. */
  lemma RotatedAt(events: seq<Ready>, cursor: nat, i: nat)
    requires i < |events|
    ensures |RotateReady(events, cursor)| == |events|
    ensures RotateReady(events, cursor)[i] == events[(cursor + i) % |events|]
    ensures NextCursor(events, cursor) == (cursor + 1) % |events|
  {
    var n, k := |events|, cursor % |events|;
    Wraps(cursor, i, n);
    Wraps(cursor, 1, n);
    Wraps(k, 1, n);
    SmallRemainder(k, n);
    RotatedPlace(events, k, i);
  }

  lemma SmallRemainder(k: nat, n: nat)
    requires k < n
    ensures k % n == k
  {
  }

  lemma RotatedPlace<T>(s: seq<T>, k: nat, i: nat)
    requires k < |s| && i < |s|
    ensures (s[k..] + s[..k])[i] == s[if k + i < |s| then k + i else k + i - |s|]
  {
  }

  /** Only client `k` and its log changed, and what it has yet to send did not. */
  ghost predicate OneChanged(were: seq<Client>, now: seq<Client>, had: seq<Log>, have: seq<Log>, k: nat) {
    && k < |were| == |now| == |had| == |have|
    && now == were[k := now[k]] && have == had[k := have[k]]
    && var c := now[k]; c == were[k].(buffer := c.buffer, pending := c.pending, closed := c.closed)
  }

  lemma OneChangedAgain(a: seq<Client>, b: seq<Client>, c: seq<Client>, d: seq<Log>, e: seq<Log>, f: seq<Log>, k: nat)
    requires OneChanged(a, b, d, e, k) && OneChanged(b, c, e, f, k)
    ensures OneChanged(a, c, d, f, k)
  {
  }

  /** The answers to one client's reads: at most the permitted number, all
      bytes but the last, which may end the round. The end of the stream or an
      error closes the client, and nothing else does; otherwise reading ends
      when nothing is there or a limit is reached. */
  ghost predicate ReadsMade(made: seq<(int, ReceiveResult)>, k: nat, p: Phase, closed: bool, bytes: int) {
    && |made| <= p.maxRecvCalls
    && (forall i :: 0 <= i < |made| ==> made[i].0 == k)
    && (forall i :: 0 <= i < |made| - 1 ==> made[i].1.Received?)
    && (closed <==> made != [] && (made[|made| - 1].1.PeerClosed? || made[|made| - 1].1.ReceiveFailed?))
    && (closed || |made| == p.maxRecvCalls || bytes >= p.maxRecvBytes ||
        (made != [] && made[|made| - 1].1.NothingToRead?))
    && (made == [] ==> bytes == 0)
  }

  /** The same while reading goes on, as long as `again` holds. */
  ghost predicate ReadsSoFar(made: seq<(int, ReceiveResult)>, k: nat, again: bool, closed: bool) {
    && (forall i :: 0 <= i < |made| ==> made[i].0 == k)
    && (forall i :: 0 <= i < |made| - 1 ==> made[i].1.Received?)
    && (again <==> made == [] || made[|made| - 1].1.Received?)
    && (closed <==> made != [] && (made[|made| - 1].1.PeerClosed? || made[|made| - 1].1.ReceiveFailed?))
  }

  lemma NoReads(k: nat)
    ensures ReadsSoFar([], k, true, false)
  {
  }

  lemma OneRead(before: seq<(int, ReceiveResult)>, made: seq<(int, ReceiveResult)>, k: nat, r: ReceiveResult)
    requires ReadsSoFar(made, k, true, false)
    ensures ReadsSoFar(made + [(k, r)], k, r.Received?, r.PeerClosed? || r.ReceiveFailed?)
    ensures before + made + [(k, r)] == before + (made + [(k, r)])
  {
  }

  lemma ReadsEnd(before: seq<(int, ReceiveResult)>, made: seq<(int, ReceiveResult)>, k: nat, p: Phase, again: bool,
                 closed: bool,
                 bytes: int)
    requires ReadsSoFar(made, k, again, closed) && |made| <= p.maxRecvCalls
    requires again ==> |made| == p.maxRecvCalls || bytes >= p.maxRecvBytes
    requires made == [] ==> bytes == 0
    ensures before <= before + made && ReadsMade((before + made)[|before|..], k, p, closed, bytes)
  {
    assert (before + made)[|before|..] == made;
  }

  lemma AgainIsOpen(made: seq<(int, ReceiveResult)>, k: nat, closed: bool)
    requires ReadsSoFar(made, k, true, closed)
    ensures !closed
  {
  }

  function Cleared(previous: seq<Client>): (clients: seq<Client>)
    ensures |clients| == |previous|
    ensures forall k :: 0 <= k < |previous| ==> clients[k] == previous[k].(buffer := [], pending := [])
  {
    seq(|previous|, k requires 0 <= k < |previous| => previous[k].(buffer := [], pending := []))
  }

  function OpenOnes(clients: seq<Client>): (m: map<int, bool>)
    ensures forall k :: k in m <==> 0 <= k < |clients| && !clients[k].closed
    ensures forall k :: k in m ==> m[k] == (clients[k].sendBuffer != [])
  {
    if clients == [] then map[]
    else
      var n := |clients| - 1;
      var m := OpenOnes(clients[..n]);
      if clients[n].closed then m else m[n := clients[n].sendBuffer != []]
  }

  ghost function StartLogs(taken: map<int, Bytes>, given: map<int, Bytes>, clients: seq<Client>): (logs: seq<Log>)
    requires forall k :: 0 <= k < |clients| ==> k in taken && k in given
    ensures |logs| == |clients|
    ensures forall k :: 0 <= k < |clients| ==>
      logs[k] == Log(clients[k].index, taken[k] + clients[k].sendBuffer, given[k], [], [], [])
  {
    seq(|clients|, k requires 0 <= k < |clients| =>
      Log(clients[k].index, taken[k] + clients[k].sendBuffer, given[k], [], [], []))
  }

  /** Reading changes only a client's buffer and its pending requests. */
  ghost predicate OnlyRead(before: Client, after: Client) {
    after == before.(buffer := after.buffer, pending := after.pending)
  }

  lemma {:induction false} NothingAsked(p: Phase, logs: seq<Log>)
    requires forall l :: l in logs ==> l.asked == [] && l.answered == [] && l.lines == []
    ensures Sum(logs, Asked()) == 0 && Sum(logs, Answered()) == 0
    ensures Sum(logs, RelayedOf(p)) == 0 && Sum(logs, CompletedOf(p)) == 0
  {
    if logs != [] {
      NothingAsked(p, logs[..|logs| - 1]);
      assert logs[|logs| - 1] in logs;
    }
  }

  /** The log after sends to `k`, of which one may have broken down or blocked. */
  ghost function Sends(log: SendLog, k: int, broken: bool, blocked: bool): SendLog {
    SendLog(log.broken + (if broken then multiset{k} else multiset{}),
            log.blocked + (if blocked then multiset{k} else multiset{}))
  }

  lemma SentPart(taken: Bytes, data: Bytes, n: nat)
    requires n <= |data|
    ensures (taken + data[..n]) + data[n..] == taken + data
  {
    assert data == data[..n] + data[n..];
    Assoc(taken, data[..n], data[n..]);
  }

  /** Sending moves bytes from the buffer to the kernel; only an error drops any. */
  lemma Flushed(c: Client, l: Log, taken: Bytes, given: Bytes, errors: nat, left: Bytes, nowTaken: Bytes, later: nat)
    requires ClientOk(c, l, taken, given, errors) && |left| <= |c.sendBuffer| && errors <= later
    requires later == errors ==> nowTaken + left == taken + c.sendBuffer
    ensures ClientOk(c.(sendBuffer := left), l, nowTaken, given, later)
  {
  }

  lemma QueuedOk(c: Client, l: Log, taken: Bytes, given: Bytes, errors: nat, w: Workload, frame: Bytes, sentNs: int)
    requires ClientOk(c, l, taken, given, errors) && |c.sendBuffer| + |frame| <= MAX_CLIENT_SEND_QUEUE
    ensures var queued := c.(sendBuffer := c.sendBuffer + frame);
      ClientOk(if w == Direct then queued.(pending := c.pending + [sentNs]) else queued,
               Requested(w, l, frame, sentNs), taken, given, errors)
  {
    Assoc(taken, c.sendBuffer, frame);
    Assoc(l.answered, c.pending, [sentNs]);
  }

  lemma Heard(c: Client, l: Log, taken: Bytes, given: Bytes, errors: nat, data: Bytes)
    requires ClientOk(c, l, taken, given, errors)
    ensures ClientOk(c.(buffer := c.buffer + data), l, taken, given + data, errors)
    ensures ClientOk(c.(closed := true), l, taken, given, errors)
  {
    Assoc(JoinLines(l.lines), c.buffer, data);
    Assoc(l.skipped, JoinLines(l.lines) + c.buffer, data);
  }

  /** Moving the first line from the buffer to the lines read. */
  lemma LineTaken(c: Client, l: Log, taken: Bytes, given: Bytes, errors: nat, line: Bytes, i: nat)
    requires ClientOk(c, l, taken, given, errors)
    requires i < |c.buffer| && line == c.buffer[..i] && LineFree(line) && c.buffer == line + [LF] + c.buffer[i + 1..]
    ensures ClientOk(c.(buffer := c.buffer[i + 1..]), l.(lines := l.lines + [line]), taken, given, errors)
    ensures l.asked == l.answered + c.pending && l.index == c.index
  {
    JoinLinesAppend(l.lines, line);
    Assoc(JoinLines(l.lines), line + [LF], c.buffer[i + 1..]);
    Assoc(JoinLines(l.lines), line, [LF]);
  }

  lemma Answers(c: Client, after: Client, l: Log, m: Log, taken: Bytes, given: Bytes, errors: nat, line: Bytes, i: nat)
    requires i < |c.buffer|
    requires ClientOk(c.(buffer := c.buffer[i + 1..]), l.(lines := l.lines + [line]), taken, given, errors)
    requires after == c.(buffer := c.buffer[i + 1..], pending := after.pending)
    requires m == l.(lines := l.lines + [line], answered := m.answered) && m.asked == m.answered + after.pending
    ensures ClientOk(after, m, taken, given, errors)
  {
  }
}
