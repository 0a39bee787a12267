/** The readiness interface, as a map from descriptor to write interest. */
module Readiness {

  /** One ready descriptor; the flag bits READY_READ, READY_WRITE, READY_ERROR. */
  datatype ReadyEvent = ReadyEvent(fd: int, read: bool, write: bool, error: bool)

  /** What the chat server may assume of either back end. Read interest is
      always on, so the state is the write bit of each registered descriptor.
      Adding and changing interest may be refused, as epoll_ctl can refuse;
      a refused call changes nothing. */
  class ReadinessDispatcher {
    var interest: map<int, bool>
    /** On which descriptors calls were refused, and how often. */
    ghost var refusals: multiset<int>
    const reliable: bool  // no call is refused

    constructor (reliable: bool)
      ensures interest == map[] && refusals == multiset{} && this.reliable == reliable
    {
      this.reliable := reliable;
      interest, refusals := map[], multiset{};
    }

    method Add(fd: int) returns (ok: bool)
      requires fd !in interest
      modifies this
      ensures reliable ==> ok
      ensures interest == if ok then old(interest)[fd := false] else old(interest)
      ensures refusals == if ok then old(refusals) else old(refusals) + multiset{fd}
    {
      ok := *;
      ok := ok || reliable;
      if ok {
        interest := interest[fd := false];
      } else {
        refusals := refusals + multiset{fd};
      }
    }

    method Remove(fd: int) returns (ok: bool)
      modifies this`interest
      ensures ok == (fd in old(interest))
      ensures interest == old(interest) - {fd}
    {
      ok := fd in interest;
      interest := interest - {fd};
    }

    method SetWriteInterest(fd: int, enabled: bool) returns (ok: bool)
      modifies this
      ensures ok ==> fd in old(interest)
      ensures reliable && fd in old(interest) ==> ok
      ensures interest == if ok then old(interest)[fd := enabled] else old(interest)
      ensures refusals == if ok then old(refusals) else old(refusals) + multiset{fd}
    {
      ok := *;
      ok := (ok || reliable) && fd in interest;
      if ok {
        interest := interest[fd := enabled];
      } else {
        refusals := refusals + multiset{fd};
      }
    }
  }
}
