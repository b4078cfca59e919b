/**
 A barrier after a one-lock run. The vector all hosts get is above every vector before it, whenever each
 host entered; every host learns of every write notice; and what it can then read is current.
 */
module BarrierAfterLocks {
  import opened Options
  import opened Vectors
  import opened Diffs
  import opened HostMem
  import opened CriticalLog
  import opened World
  import opened QuietSteps
  import opened Receiving
  import opened Writing
  import opened Coherence
  import opened CoherentSteps
  import opened OwnLists
  import opened BarrierSpread
  import Barrier
  import CopySteps
  import FreshRuns
  import Guarantees
  import OneLock
  import System
  import VectorChain

  // ----- the vector -----

  /** The current vectors of all hosts. */
  ghost function CurrentVectors(w: World): (r: seq<Vec>)
    requires Basic(w)
    ensures |r| == w.n && forall h :: 0 <= h < w.n ==> r[h] == NowTs(w.mems[h]) && |r[h]| == w.n
  {
    seq(w.n, h requires 0 <= h < w.n && MemBasic(w, h) => NowTs(w.mems[h]))
  }

  lemma NonNegative(w: World, h: nat)
    requires Basic(w) && h < w.n && Knowledge(w, h)
    ensures Barrier.VecOk(w.n, NowTs(w.mems[h]))
  {
    var k := Known(w.log, h);
    if k > 0 {
      LogAfterZero(w.n, |w.cur|, w.log, k - 1);
      VectorChain.LaterAbove(w.n, |w.cur|, w.log, 0, k);
    }
  }

  /** If the hosts of a one-lock run all enter a barrier, its new vector is strictly above each host's vector. */
  lemma BarrierVectorDominates(s: System.Sys, actions: seq<System.Action>, j: nat)
    requires System.Init(s) && System.Run(s, actions) && j < s.w.n
    ensures var t := System.Exec(s, actions);
            && Basic(t.w) && t.w.n == s.w.n
            && Barrier.RoundOk(t.w.n, CurrentVectors(t.w))
            && After(Barrier.ExitVec(CurrentVectors(t.w)), NowTs(t.w.mems[j]))
  {
    Guarantees.Reached(s, actions);
    var w := System.Exec(s, actions).w;
    var round := CurrentVectors(w);
    forall h | 0 <= h < w.n
      ensures Barrier.VecOk(w.n, round[h])
    {
      assert Knowledge(w, h);
      NonNegative(w, h);
    }
    forall i | 0 <= i < w.n
      ensures round[j][i] <= round[i][i] + 1
    {
      Guarantees.VectorsFormChain(s, actions, j, i);
    }
    Barrier.ExitDominates(round, j);
  }

  // ----- hosts that enter at different moments -----

  /** From here on host `h` makes no lock calls: it waits in the barrier. */
  ghost predicate StaysOut(s: System.Sys, actions: seq<System.Action>, h: nat)
    requires System.Run(s, actions)
    decreases |actions|
  {
    && h < |s.lk.phase| && s.lk.phase[h] == OneLock.Out
    && (actions != [] ==> StaysOut(System.Next(s, actions[0]), actions[1..], h))
  }

  /** Only a host that has just been given the lock, or is inside, changes its own interval list. */
  lemma OwnListStays(s: System.Sys, a: System.Action, h: nat)
    requires Good(s) && System.Enabled(s, a) && h < s.w.n && s.lk.phase[h] == OneLock.Out
    requires a.EnterOwn? || a.Unlock? || (a.Fault? && s.w.mems[a.h].pages[a.p].state == RDONLY)
    ensures h < |System.Next(s, a).w.mems| && System.Next(s, a).w.mems[h] == s.w.mems[h]
  {
    assert a.h != h;
  }

  lemma IntervalsForOther(s: System.Sys, i: nat, h: nat)
    requires Good(s) && System.Enabled(s, System.Receive(i)) && h < s.w.n && s.lk.phase[h] == OneLock.Out
    requires s.wire[i].msg.Intervals?
    ensures h < |System.Next(s, System.Receive(i)).w.mems| && System.Next(s, System.Receive(i)).w.mems[h] == s.w.mems[h]
  {
    var g := WireHolder(s, i);
    Guarantees.ReplyIs(s, g);
    var m := ReceiveIntervalsEnters(s, i, g);
  }

  /** A step while a host is outside leaves its own intervals alone. */
  lemma OutsideStep(s: System.Sys, a: System.Action, h: nat)
    requires Good(s) && System.Enabled(s, a) && h < s.w.n && s.lk.phase[h] == OneLock.Out
    ensures Good(System.Next(s, a)) && System.Next(s, a).w.n == s.w.n
    ensures System.Next(s, a).w.mems[h].procs[h] == s.w.mems[h].procs[h]
    ensures NowTs(System.Next(s, a).w.mems[h]) == NowTs(s.w.mems[h])
  {
    StepKeeps(s, a);
    Guarantees.StepWrites(s, a, 0);
    assert MemBasic(s.w, h);
    if a.EnterOwn? || a.Unlock? || (a.Fault? && s.w.mems[a.h].pages[a.p].state == RDONLY) {
      OwnListStays(s, a, h);
    } else if a.Receive? && s.wire[a.i].msg.Intervals? {
      IntervalsForOther(s, a.i, h);
    } else {
      Guarantees.StepIntervals(s, a);
      SameIntervalsNow(s.w, System.Next(s, a).w, h);
    }
  }

  lemma SameIntervalsNow(v: World, w: World, h: nat)
    requires Basic(v) && Basic(w) && Guarantees.SameIntervals(v, w) && h < v.n
    ensures w.mems[h].procs[h] == v.mems[h].procs[h] && NowTs(w.mems[h]) == NowTs(v.mems[h])
  {
    assert MemBasic(v, h) && MemBasic(w, h);
    assert w.mems[h].procs == v.mems[h].procs;
  }

  lemma {:induction false} OutsideKeeps(s: System.Sys, actions: seq<System.Action>, h: nat)
    requires Good(s) && System.Run(s, actions) && h < s.w.n && StaysOut(s, actions, h)
    ensures Good(System.Exec(s, actions)) && System.Exec(s, actions).w.n == s.w.n
    ensures System.Exec(s, actions).w.mems[h].procs[h] == s.w.mems[h].procs[h]
    ensures NowTs(System.Exec(s, actions).w.mems[h]) == NowTs(s.w.mems[h])
    decreases |actions|
  {
    if actions != [] {
      OutsideStep(s, actions[0], h);
      OutsideKeeps(System.Next(s, actions[0]), actions[1..], h);
    }
  }

  /** Host `h` enters the barrier after `k` actions of the run, and waits. */
  ghost predicate EntersAfter(s: System.Sys, actions: seq<System.Action>, h: nat, k: nat) {
    && k <= |actions| && System.Run(s, actions[..k])
    && System.Run(System.Exec(s, actions[..k]), actions[k..])
    && StaysOut(System.Exec(s, actions[..k]), actions[k..], h)
  }

  /** And it enters with this vector. */
  ghost predicate EntersWith(s: System.Sys, actions: seq<System.Action>, h: nat, k: nat, v: Vec) {
    && EntersAfter(s, actions, h, k)
    && var t := System.Exec(s, actions[..k]);
       Basic(t.w) && h < t.w.n && v == NowTs(t.w.mems[h])
  }

  /** What a host that entered earlier sent then is what it would send at the end. */
  lemma EntryKept(s: System.Sys, actions: seq<System.Action>, h: nat, k: nat)
    requires System.Init(s) && System.Run(s, actions) && h < s.w.n && EntersAfter(s, actions, h, k)
    ensures var t, u := System.Exec(s, actions[..k]), System.Exec(s, actions);
            && Good(t) && Good(u) && t.w.n == u.w.n == s.w.n
            && NowTs(u.w.mems[h]) == NowTs(t.w.mems[h]) && EntryMsgs(u.w, h) == EntryMsgs(t.w, h)
  {
    System.RunSplit(s, actions, k);
    Guarantees.Reached(s, actions[..k]);
    OutsideKeeps(System.Exec(s, actions[..k]), actions[k..], h);
  }

  /**
   Whenever the hosts entered, with vectors `round`, the vector they leave with is strictly above each of
   these, and it is the one the barrier's state machine gives them if it recorded `round`.
  */
  lemma LateEntriesDominated(s: System.Sys, actions: seq<System.Action>, cuts: seq<nat>, round: seq<Vec>, j: nat)
    requires System.Init(s) && System.Run(s, actions) && j < s.w.n && |cuts| == |round| == s.w.n
    requires forall h :: 0 <= h < s.w.n ==> EntersWith(s, actions, h, cuts[h], round[h])
    ensures Barrier.RoundOk(s.w.n, round) && After(Barrier.ExitVec(round), round[j])
    ensures Basic(System.Exec(s, actions).w) && CurrentVectors(System.Exec(s, actions).w) == round
  {
    BarrierVectorDominates(s, actions, j);
    var w := System.Exec(s, actions).w;
    forall h | 0 <= h < s.w.n
      ensures round[h] == NowTs(w.mems[h])
    {
      EntryKept(s, actions, h, cuts[h]);
    }
    assert CurrentVectors(w) == round;
  }

  /**
   A host that leaves the barrier, in any run of it whose round has the vectors of a one-lock run, is above
   them all.
  */
  lemma LeavesAboveAll(b: Barrier.State, before: seq<Barrier.Action>, a: Barrier.Action, h: nat,
                       s: System.Sys, actions: seq<System.Action>, j: nat)
    requires Barrier.Init(b) && Barrier.Run(b, before) && h < b.n && Barrier.Enabled(Barrier.Exec(b, before), a)
    requires System.Init(s) && System.Run(s, actions) && j < s.w.n == b.n
    requires Basic(System.Exec(s, actions).w)
    requires var t, u := Barrier.Exec(b, before), Barrier.Next(Barrier.Exec(b, before), a);
             && Barrier.Shape(t) && Barrier.Shape(u) && h < t.n == u.n && u.left[h] != t.left[h]
             && 0 < u.left[h] <= |u.rounds| && u.rounds[u.left[h] - 1] == CurrentVectors(System.Exec(s, actions).w)
    ensures var w := System.Exec(s, actions).w;
            && j < w.n
            && After(Barrier.Next(Barrier.Exec(b, before), a).vecs[h], NowTs(w.mems[j]))
  {
    BarrierVectorDominates(s, actions, j);
    Barrier.LeavesWithRoundVector(b, before, a, h);
  }

  // ----- the notices -----

  /** Every host is between critical sections, in the barrier. */
  ghost predicate AllEntered(s: System.Sys) {
    forall h :: 0 <= h < |s.lk.phase| ==> s.lk.phase[h] == OneLock.Out
  }

  /** The state in which the barrier's exchange begins. */
  lemma BeforeExchange(s: System.Sys, actions: seq<System.Action>)
    requires System.Init(s) && System.Run(s, actions) && AllEntered(System.Exec(s, actions))
    ensures var w := System.Exec(s, actions).w;
            && Inv(w) && AllOwnOk(w) && w.inside.None? && w.n == s.w.n && |w.cur| == |s.w.cur|
            && var v := Barrier.ExitVec(CurrentVectors(w));
               |v| == w.n && v[0] != -1
  {
    InitGood(s);
    InitOrdered(s);
    RunOrdered(s, actions);
    Guarantees.Reached(s, actions);
    var t := System.Exec(s, actions);
    assert Knowledge(t.w, 0);
    NonNegative(t.w, 0);
  }

  /** The memory of host `i` after the barrier, the other hosts' entry messages being handled in this order. */
  ghost predicate Leaves(w: World, order: seq<nat>, i: nat, m: Mem) {
    && Basic(w) && i < w.n && Wf(w.mems[i]) && w.mems[i].n == w.n && Wf(Gathered(w, order))
    && Gathered(w, order).n == w.n
    && var v := Barrier.ExitVec(CurrentVectors(w));
       && (i != 0 ==>
             forall k :: 0 <= k < |ExitMsgs(w, Manager(w, order, v), v, i)| ==>
               Packing.ExitWf(ExitMsgs(w, Manager(w, order, v), v, i)[k], w.n, |w.mems[i].pages|))
       && m == AfterBarrier(w, order, v, i)
  }

  /** No exit message for host `i` is addressed to another: `returnAllBarrierInfo` gets some wrong in long intervals. */
  ghost predicate Addressed(w: World, order: seq<nat>, i: nat) {
    && Basic(w) && i < w.n && Wf(Gathered(w, order)) && Gathered(w, order).n == w.n
    && (i != 0 ==> Packing.Reaches(Manager(w, order, Barrier.ExitVec(CurrentVectors(w))), NowTs(w.mems[i]), i))
  }

  /** None is if no critical section wrote more than 1024 pages. */
  lemma SmallAddressed(s: System.Sys, actions: seq<System.Action>, order: seq<nat>, i: nat)
    requires System.Init(s) && System.Run(s, actions) && AllEntered(System.Exec(s, actions))
    requires AllOthers(s.w.n, order) && i < s.w.n
    requires forall k :: 0 <= k < |System.Exec(s, actions).w.log| ==>
      |System.Exec(s, actions).w.log[k].pages| <= MAX_WN_NUM
    ensures Addressed(System.Exec(s, actions).w, order, i)
  {
    BeforeExchange(s, actions);
    var w := System.Exec(s, actions).w;
    SmallSectionsReach(w, order, Barrier.ExitVec(CurrentVectors(w)), i);
  }

  /**
   After the barrier every host has the new vector, which is above every host's vector at entry, and has
   every interval with notices of every host, with each notice in its page's list. Its own list starts afresh.
  */
  lemma BarrierTellsAll(s: System.Sys, actions: seq<System.Action>, order: seq<nat>, i: nat) returns (m: Mem)
    requires System.Init(s) && System.Run(s, actions) && AllEntered(System.Exec(s, actions))
    requires AllOthers(s.w.n, order) && i < s.w.n && Addressed(System.Exec(s, actions).w, order, i)
    ensures var w := System.Exec(s, actions).w;
            && Leaves(w, order, i, m) && w.n == s.w.n && Spread(w, i, m)
            && NowTs(m) == Barrier.ExitVec(CurrentVectors(w)) && StartsAfresh(w, i, m, NowTs(m))
            && (forall j :: 0 <= j < w.n ==> After(NowTs(m), NowTs(w.mems[j])))
            && forall j, iv :: 0 <= j < w.n && iv in w.mems[j].procs[j] && iv.pages != [] ==>
                 VectorChain.HasInterval(m, j, iv)
  {
    BeforeExchange(s, actions);
    var w := System.Exec(s, actions).w;
    var v := Barrier.ExitVec(CurrentVectors(w));
    BarrierSpreads(w, order, v, i);
    m := AfterBarrier(w, order, v, i);
    forall j | 0 <= j < w.n
      ensures After(v, NowTs(w.mems[j]))
    {
      BarrierVectorDominates(s, actions, j);
    }
    forall j, iv | 0 <= j < w.n && iv in w.mems[j].procs[j] && iv.pages != []
      ensures VectorChain.HasInterval(m, j, iv)
    {
      assert Knowledge(w, j);
      SpreadHas(w, i, m, j, iv);
    }
  }

  /** After a safe run and a barrier, every host reads the bytes last written from every page it can read. */
  lemma BarrierFreshness(s: System.Sys, actions: seq<System.Action>, order: seq<nat>, i: nat, m: Mem, p: nat)
    requires System.Init(s) && System.Run(s, actions) && FreshRuns.SafeRun(s, actions)
    requires AllEntered(System.Exec(s, actions)) && AllOthers(s.w.n, order) && i < s.w.n && p < |s.w.cur|
    requires Addressed(System.Exec(s, actions).w, order, i) && Leaves(System.Exec(s, actions).w, order, i, m)
    ensures p < |m.pages|
    ensures m.pages[p].state == RDONLY || m.pages[p].state == WRITE ==>
              m.pages[p].bytes == FreshRuns.LastWritten(actions, p)
  {
    var m' := BarrierTellsAll(s, actions, order, i);
    InitGood(s);
    FreshRuns.SafeConsistent(s, actions);
    Guarantees.Reached(s, actions);
    FreshRuns.CurrentIsLastWritten(s, actions, p);
    var w := System.Exec(s, actions).w;
    assert Conserved(w, i, p);
    if m.pages[p].state == RDONLY || m.pages[p].state == WRITE {
      SpreadReadsCurrent(w, i, m, p);
    }
  }
}
