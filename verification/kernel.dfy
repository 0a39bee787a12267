/** The operating system, as an adversary with a log.

    `accept`, `recv`, `send` and `close` answer as they like within what the
    system calls promise. The log of each open connection says which bytes the
    kernel took from the server and which it handed over.
  */
module Sockets {
  import opened Text

  datatype SendResult =
    | Wrote(count: nat)
    | SendWouldBlock  // EAGAIN or EWOULDBLOCK
    | SendInterrupted // EINTR
    | SendFailed      // any other error

  datatype ReceiveResult =
    | Received(data: Bytes)
    | PeerClosed
    | NothingToRead   // EAGAIN, EWOULDBLOCK or EINTR
    | ReceiveFailed

  datatype AcceptResult =
    | Accepted(fd: int)
    | NoneWaiting     // EAGAIN or EWOULDBLOCK
    | AcceptInterrupted
    | AcceptFailed

  /** Which descriptors `send` broke down on or would have blocked on, and how
      often. */
  datatype SendLog = SendLog(broken: multiset<int>, blocked: multiset<int>)

  const NO_SENDS := SendLog(multiset{}, multiset{})

  /** The answers after which the connection is of no more use. */
  predicate Breaks(r: SendResult) {
    r.SendFailed? || r == Wrote(0)
  }

  ghost function AfterSend(log: SendLog, fd: int, r: SendResult): SendLog {
    if Breaks(r) then log.(broken := log.broken + multiset{fd})
    else if r.SendWouldBlock? then log.(blocked := log.blocked + multiset{fd})
    else log
  }

  class Kernel {
    /** How often a call may still be interrupted by a signal: an arbitrary,
        finite number. */
    var interruptsLeft: nat
    /** How many connections may still arrive: an arbitrary, finite number. */
    var arrivalsLeft: nat
    /** Bytes taken from the server on each open connection. */
    var taken: map<int, Bytes>
    /** Bytes handed to the server on each open connection. */
    var given: map<int, Bytes>
    /** Bytes handed to the server on all connections, open or not. */
    var totalGiven: nat
    /** All answers to `recv`, with the descriptor asked about. */
    ghost var receives: seq<(int, ReceiveResult)>
    /** Failed and blocked sends. */
    ghost var log: SendLog
    /** All answers to `accept`. */
    ghost var accepts: seq<AcceptResult>
    /** A kernel that takes every byte it is offered. */
    const generous: bool

    constructor (generous: bool, interrupts: nat, arrivals: nat)
      ensures taken == map[] && given == map[] && this.generous == generous
      ensures receives == [] && log == NO_SENDS && accepts == []
    {
      this.generous := generous;
      interruptsLeft, arrivalsLeft := interrupts, arrivals;
      taken, given, totalGiven, receives, log, accepts := map[], map[], 0, [], NO_SENDS, [];
    }

    method Send(fd: int, data: Bytes) returns (r: SendResult)
      requires fd in taken && data != []
      modifies this`interruptsLeft, this`log, this`taken
      ensures log == AfterSend(old(log), fd, r)
      ensures r.Wrote? ==> r.count <= |data|
      ensures taken == if r.Wrote? then old(taken)[fd := old(taken)[fd] + data[..r.count]] else old(taken)
      ensures if r.SendInterrupted? then interruptsLeft < old(interruptsLeft) else interruptsLeft == old(interruptsLeft)
      ensures generous ==> r == Wrote(|data|) || r.SendInterrupted?
    {
      var choice: int, count: nat := *, *;
      if interruptsLeft > 0 && choice == 0 {
        interruptsLeft := interruptsLeft - 1;
        return SendInterrupted;
      }
      if !generous && choice == 1 {
        log := AfterSend(log, fd, SendWouldBlock);
        return SendWouldBlock;
      }
      if !generous && choice == 2 {
        log := AfterSend(log, fd, SendFailed);
        return SendFailed;
      }
      if generous || count > |data| {
        count := |data|;
      }
      taken := taken[fd := taken[fd] + data[..count]];
      r := Wrote(count);
      log := AfterSend(log, fd, r);
    }

    method Receive(fd: int, capacity: nat) returns (r: ReceiveResult)
      requires fd in given && capacity > 0
      modifies this`given, this`totalGiven, this`receives
      ensures receives == old(receives) + [(fd, r)]
      ensures r.Received? ==> 1 <= |r.data| <= capacity
      ensures given == if r.Received? then old(given)[fd := old(given)[fd] + r.data] else old(given)
      ensures totalGiven == old(totalGiven) + (if r.Received? then |r.data| else 0)
    {
      var choice: int, data: Bytes := *, *;
      if |data| > capacity {
        data := data[..capacity];
      }
      r := if choice == 0 then PeerClosed
           else if choice == 1 then ReceiveFailed
           else if data == [] then NothingToRead
           else Received(data);
      if r.Received? {
        given, totalGiven := given[fd := given[fd] + data], totalGiven + |data|;
      }
      receives := receives + [(fd, r)];
    }

    /** A new connection gets a descriptor that is not in use. */
    method Accept(listener: int) returns (r: AcceptResult)
      modifies this`interruptsLeft, this`arrivalsLeft, this`taken, this`given, this`accepts
      ensures accepts == old(accepts) + [r]
      ensures interruptsLeft <= old(interruptsLeft) && arrivalsLeft <= old(arrivalsLeft)
      ensures r.AcceptInterrupted? ==> interruptsLeft < old(interruptsLeft)
      ensures r.Accepted? ==> arrivalsLeft < old(arrivalsLeft)
      ensures r.Accepted? ==> r.fd >= 0 && r.fd != listener && r.fd !in old(taken) && r.fd !in old(given)
      ensures taken == if r.Accepted? then old(taken)[r.fd := []] else old(taken)
      ensures given == if r.Accepted? then old(given)[r.fd := []] else old(given)
    {
      var choice: int, fd: int, free: bool := *, *, *;
      if interruptsLeft > 0 && choice == 0 {
        interruptsLeft := interruptsLeft - 1;
        r := AcceptInterrupted;
      } else if choice == 1 {
        r := AcceptFailed;
      } else if arrivalsLeft == 0 || !free || fd < 0 || fd == listener || fd in taken || fd in given {
        r := NoneWaiting;
      } else {
        arrivalsLeft := arrivalsLeft - 1;
        taken, given := taken[fd := []], given[fd := []];
        r := Accepted(fd);
      }
      accepts := accepts + [r];
    }

    method Close(fd: int)
      modifies this`taken, this`given
      ensures taken == old(taken) - {fd} && given == old(given) - {fd}
    {
      taken, given := taken - {fd}, given - {fd};
    }
  }
}
