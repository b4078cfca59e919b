/** Host 0's barrier tables, changed in place: `barrierFlags` and `barrierTimestamps` of `syn.c` and `mem.c`. */
module BarrierNodes {
  import opened Vectors
  import Barrier

  class BarrierTables {
    const hostnum: nat
    const flags: array<int>
    const rows: array2<int>

    ghost predicate Valid()
      reads this, flags, rows
    {
      && flags.Length == hostnum && rows.Length0 == rows.Length1 == hostnum
      && forall h :: 0 <= h < hostnum ==> flags[h] == 0 || flags[h] == 1
    }

    ghost function Flags(): (f: seq<bool>)
      reads this, flags, rows
      requires Valid()
      ensures |f| == hostnum
    {
      seq(hostnum, h requires 0 <= h < hostnum reads flags => flags[h] == 1)
    }

    ghost function Row(h: nat): (v: Vec)
      reads this, flags, rows
      requires Valid() && h < hostnum
      ensures |v| == hostnum
    {
      seq(hostnum, i requires 0 <= i < hostnum reads rows => rows[h, i])
    }

    ghost function Rows(): (r: seq<Vec>)
      reads this, flags, rows
      requires Valid()
      ensures |r| == hostnum
    {
      seq(hostnum, h requires 0 <= h < hostnum && Valid() reads this, flags, rows => Row(h))
    }

    constructor (n: nat)
      ensures Valid() && hostnum == n && fresh(flags) && fresh(rows)
      ensures Flags() == seq(n, _ => false) && Rows() == seq(n, _ => Unset(n))
    {
      hostnum := n;
      flags := new int[n](_ => 0);
      rows := new int[n, n]((_, _) => -1);
      new;
      assert forall g :: 0 <= g < n ==> Row(g) == Unset(n);
    }

    /** A vector from host `h`'s messages is taken once a round: when it is one, and none has been taken yet. */
    method TakeVector(h: nat, ts: Vec)
      requires Valid() && h < hostnum && |ts| == hostnum
      modifies rows
      ensures Valid()
      ensures Rows()
        == if Barrier.IsSet(ts) && !Barrier.IsSet(old(Rows()[h])) then old(Rows())[h := ts] else old(Rows())
    {
      if ts[0] != -1 && rows[h, 0] == -1 {
        for i := 0 to hostnum
          invariant forall k :: 0 <= k < i ==> rows[h, k] == ts[k]
          invariant forall g, k :: 0 <= g < hostnum && 0 <= k < hostnum && g != h ==> rows[g, k] == old(rows[g, k])
        {
          rows[h, i] := ts[i];
        }
        assert Row(h) == ts;
        assert forall g :: 0 <= g < hostnum && g != h ==> Row(g) == old(Row(g));
      }
      assert old(Rows()[h])[0] == old(rows[h, 0]);
    }

    /** Whether all hosts have entered. */
    method AllArrived() returns (r: bool)
      requires Valid()
      ensures r <==> Barrier.AllSet(Flags())
    {
      for i := 0 to hostnum
        invariant forall k :: 0 <= k < i ==> flags[k] == 1
      {
        if flags[i] != 1 {
          assert !Flags()[i];
          return false;
        }
      }
      return true;
    }

    /** The vector that `returnAllBarrierInfo` broadcasts. */
    method NewVector() returns (ts: Vec)
      requires Valid()
      ensures ts == Barrier.ExitVec(Rows())
    {
      ts := [];
      for i := 0 to hostnum
        invariant |ts| == i && forall k :: 0 <= k < i ==> ts[k] == rows[k, k] + 1
      {
        ts := ts + [rows[i, i] + 1];
      }
      assert forall k :: 0 <= k < hostnum ==> Rows()[k][k] == rows[k, k];
    }

    method Clear()
      requires Valid()
      modifies flags, rows
      ensures Valid() && Flags() == seq(hostnum, _ => false) && Rows() == seq(hostnum, _ => Unset(hostnum))
    {
      for i := 0 to hostnum
        modifies rows
        invariant forall g, k :: 0 <= g < i && 0 <= k < hostnum ==> rows[g, k] == -1
      {
        for j := 0 to hostnum
          invariant forall g, k :: 0 <= g < i && 0 <= k < hostnum ==> rows[g, k] == -1
          invariant forall k :: 0 <= k < j ==> rows[i, k] == -1
        {
          rows[i, j] := -1;
        }
      }
      for i := 0 to hostnum
        modifies flags
        invariant forall k :: 0 <= k < i ==> flags[k] == 0
        invariant forall k :: i <= k < hostnum ==> flags[k] == old(flags[k])
      {
        flags[i] := 0;
      }
      assert forall g :: 0 <= g < hostnum ==> Row(g) == Unset(hostnum);
    }

    /** `checkBarrierFlags`: when all have entered, the vector to broadcast, with flags and rows cleared. */
    method CheckBarrierFlags() returns (complete: bool, ts: Vec)
      requires Valid()
      modifies flags, rows
      ensures Valid() && (complete <==> Barrier.AllSet(old(Flags())))
      ensures complete ==> ts == Barrier.ExitVec(old(Rows()))
                           && Flags() == seq(hostnum, _ => false) && Rows() == seq(hostnum, _ => Unset(hostnum))
      ensures !complete ==> Flags() == old(Flags()) && Rows() == old(Rows())
    {
      complete := AllArrived();
      ts := [];
      if complete {
        ts := NewVector();
        Clear();
      }
    }
  }
}
