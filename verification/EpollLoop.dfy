/**
 The registration side of the event loop, src/net/epoll_loop.cc: the kernel's interest list and the
 callback table beside it.
 */
module EpollLoops {

  datatype Events = Events(read: bool, write: bool)

  const READ := Events(true, false)
  const READ_WRITE := Events(true, true)

  type Callback = nat

  class EpollLoop {
    var initialised: bool
    var interest: map<int, Events>
    var callbacks: map<int, Callback>

    /** Whatever the kernel can report an event for has a callback. */
    ghost predicate Valid()
      reads this
    {
      && interest.Keys <= callbacks.Keys
      && forall fd :: fd in interest ==> initialised && fd >= 0
    }

    constructor ()
      ensures Valid() && !initialised && interest == map[] && callbacks == map[]
    {
      initialised, interest, callbacks := false, map[], map[];
    }

    method Init(created: bool) returns (ok: bool)
      requires Valid()
      modifies this`initialised
      ensures Valid() && ok == initialised == (old(initialised) || created)
    {
      initialised := initialised || created;
      return initialised;
    }

    /** `accepts` is the kernel's answer for a descriptor that it does not watch yet. */
    method AddFd(fd: int, events: Events, callback: Callback, accepts: bool) returns (ok: bool)
      requires Valid()
      modifies this`interest, this`callbacks
      ensures Valid()
      ensures ok == (initialised && fd >= 0 && fd !in old(interest) && accepts)
      ensures interest == if ok then old(interest)[fd := events] else old(interest)
      ensures callbacks == if ok then old(callbacks)[fd := callback] else old(callbacks)
    {
      if !initialised || fd < 0 || fd in interest || !accepts {
        return false;
      }
      interest := interest[fd := events];
      callbacks := callbacks[fd := callback];
      return true;
    }

    /** Changes a registration that exists, and nothing otherwise. */
    method ModifyFd(fd: int, events: Events) returns (ok: bool)
      requires Valid()
      modifies this`interest
      ensures Valid() && interest.Keys == old(interest).Keys
      ensures ok == (initialised && fd in old(interest))
      ensures interest == if ok then old(interest)[fd := events] else old(interest)
    {
      if !initialised || fd < 0 || fd !in interest {
        return false;
      }
      interest := interest[fd := events];
      return true;
    }

    method RemoveFd(fd: int) returns (ok: bool)
      requires Valid()
      modifies this`interest, this`callbacks
      ensures Valid()
      ensures ok == (initialised && fd in old(interest))
      ensures interest == if ok then old(interest) - {fd} else old(interest)
      ensures callbacks == if ok then old(callbacks) - {fd} else old(callbacks)
    {
      if !initialised || fd < 0 || fd !in interest {
        return false;
      }
      interest := interest - {fd};
      callbacks := callbacks - {fd};
      return true;
    }
  }
}
