/**
 The record the manager keeps for one lock: what `graspLock` and `freeLock` do to it once
 their parameters have been checked. `GraspRec` and `ReleaseRec` are the specification; the class
 `MiLock` is the C struct, with the waiting list in a fixed array that is shifted in place.
 */
module Locks {
  import opened Limits

  const LOCK_NUM: nat := 1024

  datatype LockState = LOCKED | FREE

  datatype LockRec = LockRec(state: LockState, owner: int, lasthostid: int, waiting: seq<int>)

  const InitialLock: LockRec := LockRec(FREE, -1, -1, [])

  /** The new record and `graspLock`'s result: the last holder, -3 (busy, queued) or -4 (already the owner). */
  function GraspRec(r: LockRec, host: int): (LockRec, int) {
    if r.state == FREE then
      (r.(state := LOCKED, owner := host), r.lasthostid)
    else if r.owner == host then
      (r, -4)
    else
      (r.(waiting := r.waiting + [host]), -3)
  }

  /** The new record and `freeLock`'s result: the next owner, -3 (free), -4 (not the owner) or -5 (nobody waits). */
  function ReleaseRec(r: LockRec, host: int): (LockRec, int) {
    if r.state == FREE then
      (r, -3)
    else if r.owner != host then
      (r, -4)
    else if r.waiting == [] then
      (LockRec(FREE, -1, host, []), -5)
    else
      (LockRec(LOCKED, r.waiting[0], host, r.waiting[1..]), r.waiting[0])
  }

  class MiLock {
    var state: LockState
    var owner: int
    var lasthostid: int
    const waitingList: array<int>
    var waitingListCount: nat

    /** Unused slots of the waiting list hold -1. */
    ghost predicate Valid()
      reads this, waitingList
    {
      && waitingList.Length == MAX_HOST_NUM
      && waitingListCount <= MAX_HOST_NUM
      && forall k :: waitingListCount <= k < MAX_HOST_NUM ==> waitingList[k] == -1
    }

    ghost function View(): LockRec
      reads this, waitingList
      requires Valid()
    {
      LockRec(state, owner, lasthostid, waitingList[..waitingListCount])
    }

    constructor ()
      ensures Valid() && View() == InitialLock && fresh(waitingList)
    {
      state, owner, lasthostid, waitingListCount := FREE, -1, -1, 0;
      waitingList := new int[MAX_HOST_NUM](_ => -1);
    }

    /** The array write needs a free slot; `OneLock.WaitingListFits` shows that there always is one. */
    method Grasp(hostid: int) returns (r: int)
      requires Valid()
      requires state == LOCKED && owner != hostid ==> waitingListCount < MAX_HOST_NUM
      modifies this, waitingList
      ensures Valid() && (View(), r) == GraspRec(old(View()), hostid)
    {
      if state == FREE {
        state, owner := LOCKED, hostid;
        return lasthostid;
      }
      if owner == hostid {
        return -4;
      }
      waitingList[waitingListCount] := hostid;
      waitingListCount := waitingListCount + 1;
      assert waitingList[..waitingListCount] == old(waitingList[..waitingListCount]) + [hostid];
      return -3;
    }

    method Release(hostid: int) returns (r: int)
      requires Valid()
      modifies this, waitingList
      ensures Valid() && (View(), r) == ReleaseRec(old(View()), hostid)
    {
      if state == FREE {
        return -3;
      }
      if owner != hostid {
        return -4;
      }
      if waitingListCount == 0 {
        state, owner, lasthostid := FREE, -1, hostid;
        return -5;
      }
      var waitinghostid := waitingList[0];
      for i := 0 to waitingListCount - 1
        modifies waitingList
        invariant forall k :: 0 <= k < i ==> waitingList[k] == old(waitingList[k + 1])
        invariant forall k :: i <= k < MAX_HOST_NUM ==> waitingList[k] == old(waitingList[k])
      {
        waitingList[i] := waitingList[i + 1];
      }
      waitingList[waitingListCount - 1] := -1;
      waitingListCount := waitingListCount - 1;
      owner, lasthostid := waitinghostid, hostid;
      assert waitingList[..waitingListCount] == old(waitingList[..waitingListCount])[1..];
      return waitinghostid;
    }
  }
}
