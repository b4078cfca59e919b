/** The lock part of `syn.c` as it is: global arrays changed in place, messages appended to an outbox. */
module SynNodes {
  import opened Limits
  import opened Locks
  import opened Syn

  class SynNode {
    const me: nat
    const n: nat
    const locks: seq<MiLock>
    const myLocks: array<bool>
    var waitFlag: bool
    var lasthostid: int
    var outbox: seq<Envelope>

    ghost const Repr: set<object>

    ghost predicate Valid()
      reads this, Repr
    {
      && me < n <= MAX_HOST_NUM
      && |locks| == LOCK_NUM
      && this in Repr && myLocks in Repr
      && myLocks.Length == LOCK_NUM
      && (forall i :: 0 <= i < LOCK_NUM ==> locks[i] in Repr && locks[i].waitingList in Repr && locks[i].Valid())
      && (forall i, j :: 0 <= i < j < LOCK_NUM ==> locks[i] != locks[j] && locks[i].waitingList != locks[j].waitingList)
    }

    ghost function LockView(l: nat): LockRec
      reads this, Repr
      requires Valid() && l < LOCK_NUM
    {
      locks[l].View()
    }

    ghost function View(): (s: SynState)
      reads this, Repr
      requires Valid()
      ensures WellFormed(s)
    {
      SynState(me, n, seq(LOCK_NUM, l requires 0 <= l < LOCK_NUM && Valid() reads this, Repr => LockView(l)),
               myLocks[..], waitFlag, lasthostid)
    }

    constructor (me: nat, n: nat)
      requires me < n <= MAX_HOST_NUM
      ensures Valid() && fresh(Repr) && View() == Initial(me, n) && outbox == []
    {
      this.me, this.n := me, n;
      var ls: seq<MiLock> := [];
      ghost var r: set<object> := {};
      for i := 0 to LOCK_NUM
        invariant |ls| == i && fresh(r)
        invariant forall k :: 0 <= k < i ==>
          ls[k] in r && ls[k].waitingList in r && ls[k].Valid() && ls[k].View() == InitialLock
        invariant forall k :: 0 <= k < i ==> fresh(ls[k]) && fresh(ls[k].waitingList)
        invariant forall j, k :: 0 <= j < k < i ==> ls[j] != ls[k] && ls[j].waitingList != ls[k].waitingList
      {
        var l := new MiLock();
        ls := ls + [l];
        r := r + {l, l.waitingList};
      }
      locks := ls;
      var held := new bool[LOCK_NUM](_ => false);
      myLocks := held;
      waitFlag, lasthostid, outbox := false, -1, [];
      Repr := r + {held, this};
      new;
      assert View().locks == Initial(me, n).locks;
      assert View().myLocks == Initial(me, n).myLocks;
    }

    ghost predicate RoomFor(lockno: int, hostid: int)
      reads this, Repr
      requires Valid()
    {
      ValidLock(lockno) && locks[lockno].state == LOCKED && locks[lockno].owner != hostid ==>
        locks[lockno].waitingListCount < MAX_HOST_NUM
    }

    method GraspLock(lockno: int, hostid: int) returns (r: int)
      requires Valid() && RoomFor(lockno, hostid)
      modifies Repr
      ensures Valid() && outbox == old(outbox)
      ensures (View(), r) == Syn.GraspLock(old(View()), lockno, hostid)
    {
      if lockno < 0 || lockno >= LOCK_NUM || hostid < 0 || hostid >= n {
        return -5;
      }
      if lockno % n != me {
        return -2;
      }
      ghost var before := View();
      r := locks[lockno].Grasp(hostid);
      assert View().locks == before.locks[lockno := GraspRec(before.locks[lockno], hostid).0];
    }

    method FreeLock(lockno: int, hostid: int) returns (r: int)
      requires Valid()
      modifies Repr
      ensures Valid() && outbox == old(outbox)
      ensures (View(), r) == Syn.FreeLock(old(View()), lockno, hostid)
    {
      if lockno < 0 || lockno >= LOCK_NUM || hostid < 0 || hostid >= n {
        return -1;
      }
      if lockno % n != me {
        return -2;
      }
      ghost var before := View();
      r := locks[lockno].Release(hostid);
      assert View().locks == before.locks[lockno := ReleaseRec(before.locks[lockno], hostid).0];
    }

    /** The parameter check lets -1 through; its remainder then never equals the manager's id. */
    method GrantLock(lockno: int, hostid: int)
      requires Valid()
      modifies this`outbox
      ensures Valid() && View() == old(View())
      ensures outbox == old(outbox) + Granting(View(), lockno, hostid)
    {
      if lockno < -1 || lockno >= LOCK_NUM || hostid < 0 || hostid >= n {
        return;
      }
      if hostid == me {
        return;
      }
      if CRemainder(lockno, n) != me {
        return;
      }
      outbox := outbox + [Envelope(hostid, Msg.GrantLock(lockno, locks[lockno].lasthostid))];
    }

    method HandleAcquireMsg(lockno: int, from: nat)
      requires Valid() && RoomFor(lockno, from)
      modifies Repr
      ensures Valid()
      ensures View() == HandleAcquire(old(View()), lockno, from).0
      ensures outbox == old(outbox) + HandleAcquire(old(View()), lockno, from).1
    {
      if lockno >= 0 && lockno <= LOCK_NUM {
        var result := GraspLock(lockno, from);
        if result >= -1 {
          GrantLock(lockno, from);
        }
      }
    }

    method HandleReleaseMsg(lockno: int, from: nat)
      requires Valid()
      modifies Repr
      ensures Valid()
      ensures View() == HandleRelease(old(View()), lockno, from).0
      ensures outbox == old(outbox) + HandleRelease(old(View()), lockno, from).1
    {
      if lockno >= 0 && lockno < LOCK_NUM {
        var result := FreeLock(lockno, from);
        if result >= 0 {
          if result == me {
            lasthostid, waitFlag := from, false;
            myLocks[lockno] := true;
          } else {
            GrantLock(lockno, result);
          }
        }
      }
    }

    method HandleGrantMsg(lockno: int, last: int)
      requires Valid()
      modifies Repr
      ensures Valid() && outbox == old(outbox)
      ensures View() == HandleGrant(old(View()), lockno, last)
    {
      if lockno >= 0 && lockno < LOCK_NUM {
        lasthostid := last;
        myLocks[lockno] := true;
        waitFlag := false;
      }
    }

    method MiLockBegin(lockno: int) returns (r: LockStart)
      requires Valid() && RoomFor(lockno, me)
      modifies Repr
      ensures Valid()
      ensures View() == LockBegin(old(View()), lockno).0 && r == LockBegin(old(View()), lockno).2
      ensures outbox == old(outbox) + LockBegin(old(View()), lockno).1
    {
      if lockno < 0 || lockno >= LOCK_NUM {
        return Refused(-1);
      }
      if myLocks[lockno] {
        return Refused(-2);
      }
      if lockno % n == me {
        var result := GraspLock(lockno, me);
        if result == -3 {
          waitFlag := true;
          return Blocked;
        } else if result >= -1 {
          return Given(result);
        }
        return Refused(result);
      }
      outbox := outbox + [Envelope(lockno % n, AcqLock(lockno))];
      waitFlag := true;
      return Blocked;
    }

    /** `mi_lock` goes on after `waitFlag` was cleared: from whom it fetches intervals, which it then forgets. */
    method MiLockWoken(lockno: nat) returns (source: Source)
      requires Valid() && ValidLock(lockno)
      modifies this`lasthostid
      ensures Valid() && outbox == old(outbox)
      ensures (View(), source) == WokenSource(old(View()), lockno)
    {
      if lasthostid != -1 && lasthostid != me {
        source := Fetch(lasthostid);
        lasthostid := -1;
      } else if lockno % n == me {
        source := NoInterval;
      } else {
        source := OwnInterval;
      }
      assert View().locks == old(View()).locks;
    }

    /** What `mi_unlock` does after `addNewInterval`; a remote host clears `myLocks` only after the send. */
    method MiUnlockRelease(lockno: nat) returns (failed: bool)
      requires Valid() && ValidLock(lockno)
      modifies Repr
      ensures Valid() && (failed <==> UnlockFails(old(View()), lockno))
      ensures View() == UnlockRelease(old(View()), lockno).0
      ensures outbox == old(outbox) + UnlockRelease(old(View()), lockno).1
    {
      if lockno % n == me {
        myLocks[lockno] := false;
        var result := FreeLock(lockno, me);
        if result == -5 {
          return false;
        } else if result >= 0 && result != me {
          GrantLock(lockno, result);
          return false;
        }
        return true;
      } else {
        outbox := outbox + [Envelope(lockno % n, RlsLock(lockno))];
        return false;
      }
    }
  }
}
