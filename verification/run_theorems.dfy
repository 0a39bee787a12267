/** What a whole run of the server keeps for every client. */
module RunTheorems {
  import opened Text
  import opened Rooms
  import opened Messages
  import opened ServerState
  import opened ServerEffects
  import opened ServerRuns
  import opened ServerTheorems

  /** The client's input is as it was, and it got some more messages. */
  ghost predicate Extends(before: Link, after: Link) {
    && after.given == before.given
    && after.conn.frames == before.conn.frames && after.conn.handled == before.conn.handled
    && before.conn.out.outbox <= after.conn.out.outbox
  }

  ghost predicate AllExtend(s: State, t: State) {
    forall fd :: fd in t.clients ==> fd in s.clients && Extends(s.clients[fd], t.clients[fd])
  }

  lemma DeliversExtends(s: State, t: State, to: set<int>, message: Bytes, id: nat)
    requires Delivers(s, t, to, message, id)
    ensures AllExtend(s, t)
  {
    hide Settle, Paced, Fits;
  }

  lemma RelocatedExtends(s: State, t: State, fd: int, name: Bytes)
    requires Relocated(s, t, fd, name)
    ensures AllExtend(s, t)
  {
    hide InRoom, LeftText, JoinedText, Fits, Paced, RoomName, ListsMoved;
  }

  lemma FrameExtends(s: State, t: State, fd: int, frame: Bytes, ok: bool, reached: nat)
    requires FrameDone(s, t, fd, frame, ok, reached)
    ensures AllExtend(s, t)
  {
    hide Delivers, Relocated, TokensOf, ListText, WhereText, QuitText, ChatText, RoomName;
    var words := TokensOf(frame);
    if frame != [] {
      if !IsCommand(words) {
        var id := s.clients[fd].conn.currRoom;
        DeliversExtends(s, t, FirstOf(s.rooms[FindId(s.rooms, id)].subscribed, reached, fd),
                        ChatText(s.clients[fd].conn.username, words), id);
      } else if words[0] == "LIST" {
        DeliversExtends(s, t, {fd}, ListText(s.rooms), s.clients[fd].conn.currRoom);
      } else if words[0] == "JOIN" && |words| == 2 {
        if RoomName(s, fd) != words[1] {
          RelocatedExtends(s, t, fd, words[1]);
        }
      } else if words[0] == "LEAVE" && s.clients[fd].conn.currRoom != 0 {
        RelocatedExtends(s, t, fd, MAIN_ROOM);
      } else if words[0] == "WHERE" && |words| == 1 {
        DeliversExtends(s, t, {fd}, WhereText(RoomName(s, fd)), s.clients[fd].conn.currRoom);
      } else if words[0] == "QUIT" {
        PartedExtends(s, t, fd, QuitText(s.clients[fd].conn.username));
      }
    }
  }

  lemma PartedExtends(s: State, t: State, fd: int, message: Bytes)
    requires Parted(s, t, fd, message)
    ensures AllExtend(s, t)
  {
    hide Delivers;
    var id := s.clients[fd].conn.currRoom;
    DeliversExtends(s, t, Audience(s, id, fd) + {fd}, message, id);
  }

  /** The client is still there: it was fed `data`, its frames and messages so
      far are the first of those it has now. */
  ghost predicate Continues(s: State, t: State, fd: int, data: Bytes) {
    && fd in s.clients && fd in t.clients
    && t.clients[fd].given == s.clients[fd].given + data
    && s.clients[fd].conn.frames <= t.clients[fd].conn.frames
    && s.clients[fd].conn.handled <= t.clients[fd].conn.handled
    && s.clients[fd].conn.out.outbox <= t.clients[fd].conn.out.outbox
  }

  lemma ExtendContinues(s: State, t: State, fd: int)
    requires AllExtend(s, t) && fd in t.clients
    ensures Continues(s, t, fd, [])
  {
    assert s.clients[fd].given + [] == s.clients[fd].given;
  }

  lemma ContinuesBoth(s: State, t: State, u: State, fd: int, a: Bytes, b: Bytes)
    requires Continues(s, t, fd, a) && Continues(t, u, fd, b)
    ensures Continues(s, u, fd, a + b)
  {
    Assoc(s.clients[fd].given, a, b);
  }

  /** Cutting a frame and noting it. */
  lemma CutContinues(s: State, fd: int, newline: nat, frame: Bytes, f: int)
    requires fd in s.clients && newline < |s.clients[fd].conn.input| && f in s.clients
    ensures Continues(s, AfterCut(s, fd, newline), f, [])
    ensures Continues(s, Logged(AfterCut(s, fd, newline), fd, frame), f, [])
  {
    assert s.clients[f].given + [] == s.clients[f].given;
  }

  lemma AdmittedContinues(r: State, t: State, fd: int, name: Bytes, f: int)
    requires Admitted(r, t, fd, name) && f in t.clients
    ensures Continues(r, t, f, [])
  {
    hide Delivers, Moved, WithRoom, JoinedText;
    var e := Entered(Named(r, fd, name), fd, MAIN_ROOM);
    DeliversExtends(e, t, Audience(e, 0, -1), JoinedText(name, MAIN_ROOM), 0);
    assert r.clients[f].given + [] == r.clients[f].given;
  }

  /** The step admits a new connection on this descriptor. */
  ghost predicate Admits(step: Step, fd: int) {
    step.Welcoming? && fd in step.newcomers
  }

  ghost predicate NeverAdmits(steps: seq<Step>, fd: int) {
    forall i :: 0 <= i < |steps| ==> !Admits(steps[i], fd)
  }

  /** Each step keeps what a surviving client has, and feeds it at most its own
      bytes; a client that it does not admit was there before. */
  lemma StepContinues(s: State, step: Step, t: State, fd: int)
    requires Does(s, step, t) && !Admits(step, fd) && fd in t.clients
    ensures Continues(s, t, fd, FedTo([step], fd))
  {
    hide Admitted, FrameDone, Parted, AfterCut, Logged, StripCr, FrameReady, OverLimit;
    assert [step][1..] == [] && FedTo([], fd) == [];
    match step
    case Feeding(_, data) =>
      FedContinues(s, step.fd, data, fd);
    case Naming(_) =>
      NamingContinues(s, step.fd, t, fd);
    case Framing(_, ok, reached) =>
      FramingContinues(s, step.fd, ok, reached, t, fd);
    case Expelling(_) =>
      assert AllExtend(s, t);
      ExtendContinues(s, t, fd);
    case Closing(_) =>
      PartedExtends(s, t, step.fd, ClosedText(s.clients[step.fd].conn.username));
      ExtendContinues(s, t, fd);
    case Flushing(_) =>
      FlushContinues(s, t, step.fd, fd);
    case Welcoming(_, _) =>
      assert t.clients[fd] == s.clients[fd];
      NothingHappened(s, fd);
    case Ticking(_) =>
      ExtendContinues(s, t, fd);
  }

  lemma FedContinues(s: State, fd: int, data: Bytes, f: int)
    requires fd in s.clients && f in Fed(s, fd, data).clients
    ensures Continues(s, Fed(s, fd, data), f, FedTo([Feeding(fd, data)], f))
  {
    assert [Feeding(fd, data)][1..] == [];
    assert FedTo([Feeding(fd, data)], f) == if f == fd then data else [];
    assert s.clients[f].given + [] == s.clients[f].given;
  }

  lemma NamingContinues(s: State, fd: int, t: State, f: int)
    requires Does(s, Naming(fd), t) && f in t.clients
    ensures Continues(s, t, f, [])
  {
    hide Admitted, AfterCut, StripCr;
    var newline := IndexOf(s.clients[fd].conn.input, LF);
    var r, name := AfterCut(s, fd, newline), StripCr(s.clients[fd].conn.input[..newline]);
    AdmittedContinues(r, t, fd, name, f);
    CutKeepsClients(s, fd, newline, name);
    CutContinues(s, fd, newline, name, f);
    ContinuesBoth(s, r, t, f, [], []);
  }

  lemma CutKeepsClients(s: State, fd: int, newline: nat, frame: Bytes)
    requires fd in s.clients && newline < |s.clients[fd].conn.input|
    ensures AfterCut(s, fd, newline).clients.Keys == s.clients.Keys
    ensures Logged(AfterCut(s, fd, newline), fd, frame).clients.Keys == s.clients.Keys
  {
  }

  lemma FramingContinues(s: State, fd: int, ok: bool, reached: nat, t: State, f: int)
    requires Does(s, Framing(fd, ok, reached), t) && f in t.clients
    ensures Continues(s, t, f, [])
  {
    hide FrameDone, AfterCut, Logged, StripCr;
    var newline := IndexOf(s.clients[fd].conn.input, LF);
    var frame := StripCr(s.clients[fd].conn.input[..newline]);
    CutKeepsClients(s, fd, newline, frame);
    var r := Logged(AfterCut(s, fd, newline), fd, frame);
    FrameExtends(r, t, fd, frame, ok, reached);
    CutContinues(s, fd, newline, frame, f);
    ExtendContinues(r, t, f);
    ContinuesBoth(s, r, t, f, [], []);
  }

  lemma FlushContinues(s: State, t: State, fd: int, f: int)
    requires FlushDone(s, t, fd) && f in t.clients
    ensures Continues(s, t, f, [])
  {
    hide Parted, Pace;
    if fd in t.clients {
      assert AllExtend(s, t);
    } else {
      var u, l :| SentOnly(s, u, fd, l) && Parted(u, t, fd, ClosedText(s.clients[fd].conn.username));
      PartedExtends(u, t, fd, ClosedText(s.clients[fd].conn.username));
    }
    ExtendContinues(s, t, f);
  }

  /** Through any run that does not admit a new connection on its descriptor, a
      client that is still there was there all along; it received exactly the
      bytes fed to it, and its frames and messages only grew. */
  lemma {:induction false} RunConserves(s: State, steps: seq<Step>, t: State, fd: int)
    requires Path(s, steps, t) && fd in t.clients
    requires NeverAdmits(steps, fd)
    ensures Continues(s, t, fd, FedTo(steps, fd))
    decreases |steps|
  {
    hide Does, Continues;
    if steps == [] {
      NothingHappened(s, fd);
    } else {
      var step, rest := steps[0], steps[1..];
      var u :| Does(s, step, u) && Path(u, rest, t);
      assert NeverAdmits(rest, fd) && !Admits(step, fd);
      RunConserves(u, rest, t, fd);
      StillThere(u, t, fd, FedTo(rest, fd));
      StepContinues(s, step, u, fd);
      ContinuesBoth(s, u, t, fd, FedTo([step], fd), FedTo(rest, fd));
      FedFirst(step, rest, fd);
      assert steps == [step] + rest;
    }
  }

  lemma StillThere(s: State, t: State, fd: int, data: Bytes)
    requires Continues(s, t, fd, data)
    ensures fd in s.clients
  {
  }

  lemma NothingHappened(s: State, fd: int)
    requires fd in s.clients
    ensures Continues(s, s, fd, [])
  {
    assert s.clients[fd].given + [] == s.clients[fd].given;
  }

  /** What a descriptor has received after a run that found `base` there: a
      new connection on it begins with nothing. */
  function Heard(base: Bytes, steps: seq<Step>, fd: int): Bytes
    decreases |steps|
  {
    if steps == [] then base
    else
      var next := if steps[0].Feeding? && steps[0].fd == fd then base + steps[0].data
                  else if steps[0].Welcoming? && fd in steps[0].newcomers then []
                  else base;
      Heard(next, steps[1..], fd)
  }

  /** Where a run ends with a client that was not there before, what was there
      before does not matter. */
  lemma {:induction false} NewcomerHeard(s: State, steps: seq<Step>, t: State, fd: int, a: Bytes, b: Bytes)
    requires Path(s, steps, t) && fd in t.clients && fd !in s.clients
    ensures Heard(a, steps, fd) == Heard(b, steps, fd)
    decreases |steps|
  {
    hide Does;
    var step, rest := steps[0], steps[1..];
    var u :| Does(s, step, u) && Path(u, rest, t);
    if !Admits(step, fd) {
      NotAdmitted(s, step, u, fd);
      NewcomerHeard(u, rest, t, fd,
                    if step.Feeding? && step.fd == fd then a + step.data else a,
                    if step.Feeding? && step.fd == fd then b + step.data else b);
    }
  }

  lemma NotAdmitted(s: State, step: Step, u: State, fd: int)
    requires Does(s, step, u) && !Admits(step, fd) && fd !in s.clients
    ensures fd !in u.clients
  {
    hide Does;
    if fd in u.clients {
      StepContinues(s, step, u, fd);
      StillThere(s, u, fd, FedTo([step], fd));
    }
  }

  lemma NewcomerIsNew(s: State, step: Step, u: State, fd: int)
    requires Does(s, step, u) && Admits(step, fd)
    ensures fd !in s.clients && fd in u.clients && u.clients[fd].given == [] && u.clients[fd].conn.frames == []
    ensures u.clients[fd].conn.out.outbox == [PROMPT]
  {
  }

  /** Through any run, a client that is there in the end received exactly what
      was fed to its descriptor since its connection was admitted, or on top of
      what it had if it was there from the start. */
  lemma {:induction false} RunReceives(s: State, steps: seq<Step>, t: State, fd: int)
    requires Path(s, steps, t) && fd in t.clients
    ensures t.clients[fd].given == Heard(if fd in s.clients then s.clients[fd].given else [], steps, fd)
    decreases |steps|
  {
    hide Does, Continues;
    if steps != [] {
      var step, rest := steps[0], steps[1..];
      var u :| Does(s, step, u) && Path(u, rest, t);
      RunReceives(u, rest, t, fd);
      if Admits(step, fd) {
        NewcomerIsNew(s, step, u, fd);
      } else if fd in u.clients {
        StepContinues(s, step, u, fd);
        GivenGrew(s, u, fd, step);
      } else {
        var base := if fd in s.clients then s.clients[fd].given else [];
        NewcomerHeard(u, rest, t, fd, [], if step.Feeding? && step.fd == fd then base + step.data else base);
      }
    }
  }

  lemma GivenGrew(s: State, u: State, fd: int, step: Step)
    requires Continues(s, u, fd, FedTo([step], fd))
    ensures fd in s.clients && fd in u.clients
    ensures u.clients[fd].given
         == if step.Feeding? && step.fd == fd then s.clients[fd].given + step.data else s.clients[fd].given
  {
    assert [step][1..] == [] && FedTo([], fd) == [];
    if step.Feeding? && step.fd == fd {
      assert step.data + [] == step.data;
    } else {
      assert s.clients[fd].given + [] == s.clients[fd].given;
    }
  }

  /** How the bytes were cut into reads does not matter: what a client that
      connected during the run, or had sent nothing before it, has said by its
      end, its name and the frames handled since, are the first lines of all
      it sent. */
  lemma ChunksDoNotMatter(s: State, steps: seq<Step>, t: State, fd: int)
    requires Inv(t, {}, {}) && Path(s, steps, t) && fd in t.clients
    requires fd in s.clients && NeverAdmits(steps, fd) ==> s.clients[fd].given == []
    ensures var c, lines := t.clients[fd].conn, Lines(Heard([], steps, fd));
      && lines == c.frames + Lines(c.input)
      && (c.active ==>
            && lines != [] && c.username == StripCr(lines[0]) && 1 + |c.handled| <= |lines|
            && forall i :: 0 <= i < |c.handled| ==> c.handled[i] == StripCr(lines[i + 1]))
  {
    hide Inv, Path, Lines, StripCr, Heard;
    RunReceives(s, steps, t, fd);
    if !NeverAdmits(steps, fd) {
      AdmissionForgets(steps, fd, if fd in s.clients then s.clients[fd].given else [], []);
    }
    assert t.clients[fd].given == Heard([], steps, fd);
    FramesAreLines(t, fd);
  }

  lemma AdmitsFirst(steps: seq<Step>, fd: int)
    requires steps != []
    ensures NeverAdmits(steps, fd) <==> !Admits(steps[0], fd) && NeverAdmits(steps[1..], fd)
  {
    forall i | 0 < i < |steps| ensures steps[i] == steps[1..][i - 1] {
    }
    if !Admits(steps[0], fd) && NeverAdmits(steps[1..], fd) {
      forall i | 0 <= i < |steps| ensures !Admits(steps[i], fd) {
        assert i > 0 ==> steps[i] == steps[1..][i - 1];
      }
    }
  }

  lemma {:induction false} AdmissionForgets(steps: seq<Step>, fd: int, a: Bytes, b: Bytes)
    requires !NeverAdmits(steps, fd)
    ensures Heard(a, steps, fd) == Heard(b, steps, fd)
    decreases |steps|
  {
    var step, rest := steps[0], steps[1..];
    if !Admits(step, fd) {
      AdmitsFirst(steps, fd);
      AdmissionForgets(rest, fd, if step.Feeding? && step.fd == fd then a + step.data else a,
                       if step.Feeding? && step.fd == fd then b + step.data else b);
    }
  }

  /** A client that was admitted during a run is, from that moment on, one that
      starts with the prompt alone and only adds to what it has. */
  lemma {:induction false} AdmittedDuring(s: State, steps: seq<Step>, t: State, fd: int)
    returns (n: nat, u: State)
    requires Path(s, steps, t) && fd in t.clients && !NeverAdmits(steps, fd)
    ensures n <= |steps| && Path(s, steps[..n], u) && Path(u, steps[n..], t)
    ensures NeverAdmits(steps[n..], fd) && Continues(u, t, fd, FedTo(steps[n..], fd))
    ensures u.clients[fd].given == [] && u.clients[fd].conn.frames == [] && u.clients[fd].conn.out.outbox == [PROMPT]
    decreases |steps|
  {
    hide Does, Continues;
    var step, rest := steps[0], steps[1..];
    var v :| Does(s, step, v) && Path(v, rest, t);
    if NeverAdmits(rest, fd) {
      AdmitsFirst(steps, fd);
      n, u := 1, v;
      NewcomerIsNew(s, step, v, fd);
      SingleStep(s, step, v);
      assert steps[..1] == [step];
      RunConserves(v, rest, t, fd);
      StillThere(v, t, fd, FedTo(rest, fd));
    } else {
      var m;
      m, u := AdmittedDuring(v, rest, t, fd);
      n := m + 1;
      assert steps[n..] == rest[m..];
      SingleStep(s, step, v);
      PathsJoin(s, [step], v, rest[..m], u);
      assert [step] + rest[..m] == steps[..n];
      StillThere(u, t, fd, FedTo(rest[m..], fd));
    }
  }
}
