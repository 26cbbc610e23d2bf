/**
 Ownership of file descriptors: src/net/fd_guard.h, over the process's table of open descriptors.
 */
module FdGuards {

  /** The kernel's table of open descriptors. */
  class FdTable {
    var open: set<int>

    constructor ()
      ensures open == {}
    {
      open := {};
    }

    /** `socket` or `accept`: a descriptor that is not open, or -1. */
    method Open(success: bool) returns (fd: int)
      modifies this
      ensures success ==> 0 <= fd && fd !in old(open) && open == old(open) + {fd}
      ensures !success ==> fd == -1 && open == old(open)
    {
      if !success {
        return -1;
      }
      FreshFdExists(open);
      fd :| 0 <= fd && fd !in open;
      open := open + {fd};
    }

    method Close(fd: int)
      modifies this
      ensures open == old(open) - {fd}
    {
      open := open - {fd};
    }
  }

  lemma FreshFdExists(open: set<int>)
    ensures exists fd :: 0 <= fd && fd !in open
  {
    var top := Above(open);
    assert top !in open;
  }

  lemma Above(s: set<int>) returns (m: nat)
    ensures forall x :: x in s ==> x < m
    decreases |s|
  {
    m := 0;
    if exists x: int :: x in s {
      var x: int :| x in s;
      m := Above(s - {x});
      assert forall y :: y in s ==> y == x || y in s - {x};
      m := if x < m then m else x + 1;
    }
  }

  /** What a guard owns: its descriptor, when it holds one. */
  function Owned(fd: int): set<int> {
    if fd >= 0 then {fd} else {}
  }

  /** Every valid guard of the family holds an open descriptor that no other guard of the family holds. */
  ghost predicate SoleOwners(guards: set<FdGuard>, table: FdTable)
    reads guards, table
  {
    && (forall g :: g in guards ==> g.table == table && Owned(g.fd) <= table.open)
    && (forall g, h :: g in guards && h in guards && g != h ==> Owned(g.fd) !! Owned(h.fd))
  }

  class FdGuard {
    const table: FdTable
    var fd: int

    constructor (table: FdTable, fd: int)
      ensures this.table == table && this.fd == fd
    {
      this.table := table;
      this.fd := fd;
    }

    predicate IsValid()
      reads this
    {
      fd >= 0
    }

    /** Closes the descriptor once; a second call does nothing. */
    method Close(ghost family: set<FdGuard>)
      requires this in family && SoleOwners(family, table)
      modifies this, table
      ensures fd < 0 && table.open == old(table.open) - Owned(old(fd))
      ensures SoleOwners(family, table)
    {
      if fd >= 0 {
        table.Close(fd);
        fd := -1;
      }
    }

    /** Takes over `newFd`; ownership is kept if that is open and owned by nobody, this guard included. */
    method Reset(newFd: int, ghost family: set<FdGuard>)
      requires this in family && SoleOwners(family, table)
      modifies this, table
      ensures fd == newFd && table.open == old(table.open) - Owned(old(fd))
      ensures Owned(newFd) <= old(table.open) && (forall g :: g in family ==> old(Owned(g.fd)) !! Owned(newFd)) ==>
                SoleOwners(family, table)
    {
      Close(family);
      fd := newFd;
    }

    /** Gives the descriptor up without closing it. */
    method Release(ghost family: set<FdGuard>) returns (r: int)
      requires this in family && SoleOwners(family, table)
      modifies this
      ensures r == old(fd) && fd == -1
      ensures SoleOwners(family, table) && forall g :: g in family ==> Owned(g.fd) !! Owned(r)
    {
      r := fd;
      fd := -1;
    }

    /** Move assignment, self-assignment included. */
    method MoveFrom(other: FdGuard, ghost family: set<FdGuard>)
      requires this in family && other in family && SoleOwners(family, table)
      modifies this, other, table
      ensures fd == old(other.fd) && (other != this ==> other.fd == -1)
      ensures table.open == if other == this then old(table.open) else old(table.open) - Owned(old(fd))
      ensures SoleOwners(family, table)
    {
      if this != other {
        Close(family);
        fd := other.fd;
        other.fd := -1;
      }
    }
  }
}
