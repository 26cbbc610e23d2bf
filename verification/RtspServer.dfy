/**
 The server's own bookkeeping, src/core/rtsp_server.cc:241-311 and 363-376 and 471-504, one handler at a time;
 `Server` has the same handlers as steps among those of the other thread.
 */
module RtspServers {
  import opened FdGuards
  import opened EpollLoops
  import opened Sessions
  import opened Service

  /** The map that is left of `was` without `gone`. */
  ghost predicate LeftOf<V>(was: map<int, V>, now: map<int, V>, gone: set<int>) {
    now == was - gone
  }

  lemma NothingGone<V>(was: map<int, V>, s: set<int>)
    ensures LeftOf(was, was, s - s)
  {
  }

  lemma OneMoreGone<V>(was: map<int, V>, now: map<int, V>, s: set<int>, left: set<int>, x: int)
    requires left <= s && x in left && LeftOf(was, now, s - left)
    ensures LeftOf(was, now - {x}, s - (left - {x}))
  {
  }

  lemma AllGone<V>(was: map<int, V>, now: map<int, V>, s: set<int>)
    requires LeftOf(was, now, s - {})
    ensures now == was - s
  {
    assert s - {} == s;
  }

  class RtspServer {
    const maxSessions: nat
    const bufferSize: nat
    const connectionTimeout: int
    const sessionTimeout: int
    const epoll: EpollLoop
    const table: FdTable
    var sessions: map<int, Session>
    var totalConnections: nat
    var timedOutSessions: nat

    ghost predicate Valid()
      reads this, epoll, table
    {
      && epoll.Valid() && epoll.interest.Keys <= table.open && |sessions| <= maxSessions
      && forall fd :: fd in sessions ==> fd in epoll.interest
    }

    constructor (maxSessions: nat, bufferSize: nat, connectionTimeout: int, sessionTimeout: int,
                 epoll: EpollLoop, table: FdTable)
      requires epoll.Valid() && epoll.interest.Keys <= table.open
      ensures Valid() && sessions == map[] && totalConnections == timedOutSessions == 0
      ensures this.maxSessions == maxSessions && this.bufferSize == bufferSize
      ensures this.connectionTimeout == connectionTimeout && this.sessionTimeout == sessionTimeout
      ensures this.epoll == epoll && this.table == table
    {
      this.maxSessions, this.bufferSize := maxSessions, bufferSize;
      this.connectionTimeout, this.sessionTimeout := connectionTimeout, sessionTimeout;
      this.epoll, this.table := epoll, table;
      sessions := map[];
      totalConnections, timedOutSessions := 0, 0;
    }

    /**
     `accepted` and `watched` are the kernel's answers to `accept` and to the registration.  The result is the
     new session's descriptor, or -1; whatever is refused leaves no descriptor open and no trace in the map.
     */
    method OnNewConnection(accepted: bool, watched: bool, id: string, now: nat) returns (fd: int)
      requires Valid()
      modifies this`sessions, this`totalConnections, epoll`interest, epoll`callbacks, table
      ensures Valid()
      ensures fd >= 0 <==> accepted && old(|sessions|) < maxSessions && epoll.initialised && watched
      ensures totalConnections == old(totalConnections) + if accepted && old(|sessions|) < maxSessions then 1 else 0
      ensures fd >= 0 ==> fd !in old(table.open) && table.open == old(table.open) + {fd}
      ensures fd >= 0 ==> fd in sessions && sessions == old(sessions)[fd := sessions[fd]] && fresh(sessions[fd])
                          && sessions[fd].Valid() && sessions[fd].Holds() == Owned(fd)
                          && sessions[fd].TheView() == View(Init, "", "", false, now)
      ensures epoll.interest
           == if fd >= 0 then old(epoll.interest)[fd := Events(true, false)] else old(epoll.interest)
      ensures fd < 0 ==> sessions == old(sessions) && table.open == old(table.open)
    {
      hide SoleOwners, Session.Valid, Session.TheView, Session.Holds, EpollLoop.Valid;
      var client := table.Open(accepted);
      if client < 0 {
        return -1;
      }
      assert client !in sessions && client !in epoll.interest;
      if |sessions| >= maxSessions {
        table.Close(client);
        return -1;
      }
      totalConnections := totalConnections + 1;
      var ok := epoll.AddFd(client, READ, 0, watched);
      if !ok {
        table.Close(client);
        return -1;
      }
      InsertSession(client, id, now);
      return client;
    }

    /** Its end: creates the session and puts it into the map. */
    method InsertSession(fd: int, id: string, now: nat)
      requires Owned(fd) <= table.open && fd !in sessions
      modifies this`sessions
      ensures |sessions| == |old(sessions)| + 1
      ensures fd in sessions && sessions == old(sessions)[fd := sessions[fd]] && fresh(sessions[fd])
      ensures sessions[fd].Valid() && sessions[fd].Holds() == Owned(fd)
      ensures sessions[fd].TheView() == View(Init, "", "", false, now)
    {
      hide SoleOwners, Session.Valid;
      var session := new Session(table, fd, bufferSize, id, now);
      sessions := sessions[fd := session];
      assert sessions.Keys == old(sessions).Keys + {fd};
      assert |sessions.Keys| == |old(sessions).Keys| + 1;
    }

    /** Forgets the session and stops watching it; another pointer may keep the session itself alive. */
    method CloseConnection(fd: int)
      requires Valid()
      modifies this`sessions, epoll`interest, epoll`callbacks
      ensures Valid() && sessions == old(sessions) - {fd}
      ensures epoll.interest == if fd in old(sessions) then old(epoll.interest) - {fd} else old(epoll.interest)
    {
      if fd in sessions {
        var _ := epoll.RemoveFd(fd);
        sessions := sessions - {fd};
        assert |sessions.Keys| <= |old(sessions).Keys|;
      }
    }

    /** What `CheckTimeouts` collects. */
    function Expired(now: nat): (gone: set<int>)
      reads this, sessions.Values
      ensures gone <= sessions.Keys
    {
      set fd | fd in sessions &&
        (sessions[fd].phase == Phase.Teardown
         || IsTimedOut(View(sessions[fd].phase, "", "", false, sessions[fd].lastActivity),
                       connectionTimeout, sessionTimeout, now))
    }

    /** The first half of `CheckTimeouts`, under the lock. */
    method CollectExpired(now: nat) returns (collected: set<int>)
      ensures collected == Expired(now)
    {
      var unseen: set<int> := sessions.Keys;
      collected := {};
      while exists fd: int :: fd in unseen
        invariant unseen <= sessions.Keys && collected == Expired(now) - unseen
        decreases unseen
      {
        var fd: int :| fd in unseen;
        var session := sessions[fd];
        var timedOut := session.TimedOut(connectionTimeout, sessionTimeout, now);
        if session.phase == Phase.Teardown || timedOut {
          collected := collected + {fd};
        }
        unseen := unseen - {fd};
      }
    }

    method CloseTimedOut(fd: int)
      requires Valid() && fd in sessions
      modifies this`sessions, this`timedOutSessions, epoll`interest, epoll`callbacks
      ensures Valid() && sessions == old(sessions) - {fd} && epoll.interest == old(epoll.interest) - {fd}
      ensures timedOutSessions == old(timedOutSessions) + 1
    {
      timedOutSessions := timedOutSessions + 1;
      CloseConnection(fd);
    }

    /** Exactly the expired sessions go, and each counts once. */
    method CheckTimeouts(now: nat)
      requires Valid()
      modifies this`sessions, this`timedOutSessions, epoll`interest, epoll`callbacks
      ensures Valid()
      ensures var off := connectionTimeout <= 0 && sessionTimeout <= 0;
              var gone := if off then {} else old(Expired(now));
              && sessions == old(sessions) - gone
              && timedOutSessions == old(timedOutSessions) + |gone|
              && epoll.interest == old(epoll.interest) - gone
    {
      hide Expired, Valid, EpollLoop.Valid;
      assert sessions - {} == sessions && epoll.interest - {} == epoll.interest;
      if connectionTimeout <= 0 && sessionTimeout <= 0 {
        return;
      }
      var collected := CollectExpired(now);
      CloseAll(collected);
    }

    /** The second half of `CheckTimeouts`: one critical section for each session. */
    method CloseAll(expired: set<int>)
      requires Valid() && expired <= sessions.Keys
      modifies this`sessions, this`timedOutSessions, epoll`interest, epoll`callbacks
      ensures Valid() && sessions == old(sessions) - expired && epoll.interest == old(epoll.interest) - expired
      ensures timedOutSessions == old(timedOutSessions) + |expired|
    {
      hide *;
      ghost var was, watched, count := sessions, epoll.interest, timedOutSessions;
      var left := expired;
      NothingGone(was, expired);
      NothingGone(watched, expired);
      while exists fd: int :: fd in left
        invariant Valid() && left <= expired && left <= sessions.Keys
        invariant LeftOf(was, sessions, expired - left) && LeftOf(watched, epoll.interest, expired - left)
        invariant timedOutSessions == count + |expired| - |left|
        decreases left
      {
        var fd: int :| fd in left;
        OneMoreGone(was, sessions, expired, left, fd);
        OneMoreGone(watched, epoll.interest, expired, left, fd);
        CloseTimedOut(fd);
        left := left - {fd};
      }
      assert left == {};
      AllGone(was, sessions, expired);
      AllGone(watched, epoll.interest, expired);
    }
  }
}
