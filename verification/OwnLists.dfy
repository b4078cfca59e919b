/**
 A host's own interval list in a one-lock run: strictly ordered by timestamp, newest first, and ending
 with the one barrier interval it started with. So what it sends when it enters a barrier rebuilds
 exactly its part of the history.
 */
module OwnLists {
  import opened Options
  import opened Vectors
  import opened Diffs
  import opened HostMem
  import opened CriticalLog
  import opened World
  import opened QuietSteps
  import opened Receiving
  import opened Writing
  import opened VectorChain
  import opened System
  import opened Coherence
  import opened CoherentSteps
  import opened Guarantees
  import opened Packing
  import Allocation
  import MemCells
  import OneLock

  ghost predicate NewestFirst(list: seq<Interval>) {
    forall i, j :: 0 <= i < j < |list| ==> After(list[i].ts, list[j].ts)
  }

  /** The oldest interval is the barrier interval, and the only one. */
  ghost predicate BarrierLast(list: seq<Interval>) {
    list != [] && forall i :: 0 <= i < |list| ==> (list[i].isBarrier <==> i == |list| - 1)
  }

  ghost predicate Ordered(list: seq<Interval>) {
    NewestFirst(list) && BarrierLast(list)
  }

  ghost predicate OwnOk(w: World, h: nat)
    requires Basic(w) && h < w.n
  {
    Ordered(w.mems[h].procs[h])
  }

  ghost predicate AllOwnOk(w: World)
    requires Basic(w)
  {
    forall h :: 0 <= h < w.n ==> OwnOk(w, h)
  }

  // ----- every step -----

  lemma PushOrdered(iv: Interval, list: seq<Interval>)
    requires Ordered(list) && After(iv.ts, list[0].ts) && !iv.isBarrier
    ensures Ordered([iv] + list)
  {
    var r := [iv] + list;
    forall i, j | 0 <= i < j < |r|
      ensures After(r[i].ts, r[j].ts)
    {
      if i == 0 && j > 1 {
        AfterTransitive(iv.ts, list[0].ts, list[j - 1].ts);
      }
    }
  }

  lemma SameOwn(v: World, w: World)
    requires Basic(v) && Basic(w) && AllOwnOk(v) && SameIntervals(v, w)
    ensures AllOwnOk(w)
  {
    forall h | 0 <= h < w.n
      ensures OwnOk(w, h)
    {
      assert OwnOk(v, h) && MemBasic(v, h) && MemBasic(w, h);
      assert w.mems[h].procs == v.mems[h].procs;
    }
  }

  /** Only host `h`'s own list changed: a newer interval is in front of it. */
  lemma PushedOwn(v: World, w: World, h: nat, iv: Interval)
    requires Basic(v) && Basic(w) && AllOwnOk(v) && w.n == v.n && h < v.n
    requires forall g :: 0 <= g < v.n && g != h ==> w.mems[g] == v.mems[g]
    requires w.mems[h].procs[h] == [iv] + v.mems[h].procs[h]
    requires v.mems[h].procs[h] != [] ==> After(iv.ts, v.mems[h].procs[h][0].ts)
    requires !iv.isBarrier
    ensures AllOwnOk(w)
  {
    assert OwnOk(v, h);
    PushOrdered(iv, v.mems[h].procs[h]);
    forall g | 0 <= g < w.n
      ensures OwnOk(w, g)
    {
      assert OwnOk(v, g);
    }
  }

  lemma EnteredOwn(s: Sys, h: nat, m: Mem)
    requires Good(s) && AllOwnOk(s.w) && h < s.w.n && s.lk.phase[h].Woken? && Ready(s.w, h, m)
    ensures Shape(Entered(s, h, m)) && AllOwnOk(Entered(s, h, m).w)
  {
    WokenHistory(s, h);
    EnteredShape(s, h, m);
    EnterAbove(s, h, m, h);
    assert Knowledge(s.w, h);
    PushedOwn(s.w, Enter(s.w, h, m), h, Interval(NowTs(m), [], false));
  }

  lemma EnterOwnOrdered(s: Sys, h: nat)
    requires Good(s) && AllOwnOk(s.w) && Enabled(s, EnterOwn(h)) && Basic(Next(s, EnterOwn(h)).w)
    ensures AllOwnOk(Next(s, EnterOwn(h)).w)
  {
    WokenHistory(s, h);
    OwnReady(s.w, h);
    EnteredOwn(s, h, OwnMem(s.w, h));
  }

  lemma ReceiveOrdered(s: Sys, i: nat)
    requires Good(s) && AllOwnOk(s.w) && Enabled(s, Receive(i)) && s.wire[i].msg.Intervals?
    ensures Basic(Next(s, Receive(i)).w) && AllOwnOk(Next(s, Receive(i)).w)
  {
    var h := WireHolder(s, i);
    ReplyIs(s, h);
    var m := ReceiveIntervalsEnters(s, i, h);
    EnteredOwn(s, h, m);
  }

  lemma LeaveOrdered(w: World, h: nat)
    requires Basic(w) && AllOwnOk(w) && h < w.n && w.inside == Some(h) && Knowledge(w, h) && Basic(Leave(w, h))
    ensures AllOwnOk(Leave(w, h))
  {
    LeaveVector(w, h);
    LeaveAbove(w, h, h);
    PushedOwn(w, Leave(w, h), h, Interval(Bump(w.mems[h].procs[h][0].ts, h), [], false));
  }

  /** A write notice changes the pages of the newest own interval, not its timestamp. */
  lemma WriteFaultOrdered(w: World, h: nat, p: nat)
    requires Inv(w) && AllOwnOk(w) && w.inside == Some(h) && h < w.n && p < |w.cur|
    requires w.mems[h].pages[p].state == RDONLY
    requires Basic(WriteFaulted(w, h, p))
    ensures AllOwnOk(WriteFaulted(w, h, p))
  {
    var v := WriteFaulted(w, h, p);
    FaultEffect(w, h, p);
    assert Knowledge(w, h);
    var last := AsInterval(Last(w)).(pages := Last(w).pages + [p]);
    assert v.mems[h].procs[h] == w.mems[h].procs[h][0 := last];
    forall g | 0 <= g < v.n
      ensures OwnOk(v, g)
    {
      assert OwnOk(w, g);
    }
  }

  lemma StepOrdered(s: Sys, a: Action)
    requires Good(s) && AllOwnOk(s.w) && Enabled(s, a) && Good(Next(s, a))
    ensures AllOwnOk(Next(s, a).w)
  {
    if a.EnterOwn? {
      EnterOwnOrdered(s, a.h);
    } else if a.Unlock? {
      InsideHolder(s, a.h);
      LeaveOrdered(s.w, a.h);
    } else if a.Receive? && s.wire[a.i].msg.Intervals? {
      ReceiveOrdered(s, a.i);
    } else if a.Fault? && s.w.mems[a.h].pages[a.p].state == RDONLY {
      InsideHolder(s, a.h);
      WriteFaultOrdered(s.w, a.h, a.p);
    } else {
      StepIntervals(s, a);
      SameOwn(s.w, Next(s, a).w);
    }
  }

  // ----- every run -----

  lemma {:induction false} RunOrdered(s: Sys, actions: seq<Action>)
    requires Good(s) && AllOwnOk(s.w) && Run(s, actions)
    ensures Good(Exec(s, actions)) && AllOwnOk(Exec(s, actions).w)
    decreases |actions|
  {
    if actions != [] {
      StepKeeps(s, actions[0]);
      StepOrdered(s, actions[0]);
      RunOrdered(Next(s, actions[0]), actions[1..]);
    }
  }

  lemma InitOrdered(s: Sys)
    requires Init(s) && Good(s)
    ensures AllOwnOk(s.w)
  {
    forall h | 0 <= h < s.w.n
      ensures OwnOk(s.w, h)
    {
      assert InitialMem(s.w.mems[h], h, s.w.n);
    }
  }

  /** In every run a host's own intervals have distinct timestamps, each strictly after all older ones. */
  lemma OwnIntervalsOrdered(s: Sys, actions: seq<Action>, h: nat)
    requires Init(s) && Run(s, actions) && h < s.w.n
    ensures var t := Exec(s, actions);
            && Shape(t) && t.w.n == s.w.n
            && NewestFirst(t.w.mems[h].procs[h]) && BarrierLast(t.w.mems[h].procs[h])
            && forall i, j :: 0 <= i < j < |t.w.mems[h].procs[h]| ==>
                 t.w.mems[h].procs[h][i].ts != t.w.mems[h].procs[h][j].ts
  {
    InitGood(s);
    InitOrdered(s);
    RunOrdered(s, actions);
    Reached(s, actions);
    var list := Exec(s, actions).w.mems[h].procs[h];
    assert OwnOk(Exec(s, actions).w, h);
    forall i, j | 0 <= i < j < |list|
      ensures list[i].ts != list[j].ts
    {
      StrictPartialOrder(list[i].ts, list[j].ts, list[j].ts);
    }
  }

  // ----- the own component counts the intervals -----

  ghost predicate Counted(w: World, h: nat)
    requires Basic(w) && h < w.n
  {
    NowTs(w.mems[h])[h] == |w.mems[h].procs[h]| - 1
  }

  ghost predicate AllCounted(w: World)
    requires Basic(w)
  {
    forall h :: 0 <= h < w.n ==> Counted(w, h)
  }

  /** One host opens one interval. */
  lemma OneMoreCounted(v: World, w: World, h: nat, iv: Interval)
    requires Basic(v) && Basic(w) && AllCounted(v) && w.n == v.n && h < v.n && Knowledge(v, h) && Knowledge(w, h)
    requires forall g :: 0 <= g < v.n && g != h ==> w.mems[g] == v.mems[g]
    requires w.mems[h].procs[h] == [iv] + v.mems[h].procs[h]
    requires 2 * SectionsOf(w.log, |w.log|, h) - (if w.inside == Some(h) then 1 else 0)
             == 2 * SectionsOf(v.log, |v.log|, h) - (if v.inside == Some(h) then 1 else 0) + 1
    ensures AllCounted(w)
  {
    OwnCounts(v, h);
    OwnCounts(w, h);
    forall g | 0 <= g < w.n
      ensures Counted(w, g)
    {
      assert Counted(v, g);
    }
  }

  lemma EnterCounted(w: World, h: nat, m: Mem)
    requires Basic(w) && AllCounted(w) && w.inside.None? && h < w.n && Ready(w, h, m) && Basic(Enter(w, h, m))
    requires Knowledge(w, h) && Knowledge(Enter(w, h, m), h)
    ensures AllCounted(Enter(w, h, m))
  {
    SectionsPrefix(Enter(w, h, m).log, w.log, |w.log|, h);
    OneMoreCounted(w, Enter(w, h, m), h, Interval(NowTs(m), [], false));
  }

  lemma LeaveCounted(w: World, h: nat)
    requires Basic(w) && AllCounted(w) && h < w.n && w.inside == Some(h) && Knowledge(w, h)
    requires Basic(Leave(w, h)) && Knowledge(Leave(w, h), h)
    ensures AllCounted(Leave(w, h))
  {
    OneMoreCounted(w, Leave(w, h), h, Interval(Bump(w.mems[h].procs[h][0].ts, h), [], false));
  }

  lemma WriteFaultCounted(w: World, h: nat, p: nat)
    requires Inv(w) && AllCounted(w) && w.inside == Some(h) && h < w.n && p < |w.cur|
    requires w.mems[h].pages[p].state == RDONLY && Basic(WriteFaulted(w, h, p))
    ensures AllCounted(WriteFaulted(w, h, p))
  {
    var v := WriteFaulted(w, h, p);
    FaultEffect(w, h, p);
    assert Knowledge(w, h);
    forall g | 0 <= g < v.n
      ensures Counted(v, g)
    {
      assert Counted(w, g);
    }
  }

  lemma SameCounted(v: World, w: World)
    requires Basic(v) && Basic(w) && AllCounted(v) && SameIntervals(v, w)
    ensures AllCounted(w)
  {
    forall h | 0 <= h < w.n
      ensures Counted(w, h)
    {
      assert Counted(v, h) && MemBasic(v, h) && MemBasic(w, h);
      assert w.mems[h].procs == v.mems[h].procs;
    }
  }

  /** The memory with which a host enters without fetching. */
  lemma OwnEntered(s: Sys, h: nat)
    requires Good(s) && Enabled(s, EnterOwn(h))
    ensures s.w.inside.None? && h < s.w.n && Next(s, EnterOwn(h)).w == Enter(s.w, h, OwnMem(s.w, h))
    ensures Ready(s.w, h, OwnMem(s.w, h))
  {
    WokenHistory(s, h);
    OwnReady(s.w, h);
  }

  lemma EnterOwnCounted(s: Sys, h: nat)
    requires Good(s) && AllCounted(s.w) && Enabled(s, EnterOwn(h)) && Inv(Next(s, EnterOwn(h)).w)
    ensures AllCounted(Next(s, EnterOwn(h)).w)
  {
    OwnEntered(s, h);
    EnterCounted(s.w, h, OwnMem(s.w, h));
  }

  /** And after fetching. */
  lemma FetchEntered(s: Sys, i: nat) returns (h: nat, m: Mem)
    requires Good(s) && Enabled(s, Receive(i)) && s.wire[i].msg.Intervals?
    ensures s.w.inside.None? && h < s.w.n && Ready(s.w, h, m) && Next(s, Receive(i)).w == Enter(s.w, h, m)
  {
    h := WireHolder(s, i);
    ReplyIs(s, h);
    m := ReceiveIntervalsEnters(s, i, h);
    WokenHistory(s, h);
  }

  lemma ReceiveCounted(s: Sys, i: nat)
    requires Good(s) && AllCounted(s.w) && Enabled(s, Receive(i)) && s.wire[i].msg.Intervals?
    requires Inv(Next(s, Receive(i)).w)
    ensures AllCounted(Next(s, Receive(i)).w)
  {
    var h, m := FetchEntered(s, i);
    EnterCounted(s.w, h, m);
  }

  lemma StepCounted(s: Sys, a: Action)
    requires Good(s) && AllCounted(s.w) && Enabled(s, a) && Good(Next(s, a))
    ensures AllCounted(Next(s, a).w)
  {
    if a.EnterOwn? {
      EnterOwnCounted(s, a.h);
    } else if a.Unlock? {
      InsideHolder(s, a.h);
      LeaveCounted(s.w, a.h);
    } else if a.Receive? && s.wire[a.i].msg.Intervals? {
      ReceiveCounted(s, a.i);
    } else if a.Fault? && s.w.mems[a.h].pages[a.p].state == RDONLY {
      InsideHolder(s, a.h);
      WriteFaultCounted(s.w, a.h, a.p);
    } else {
      StepIntervals(s, a);
      SameCounted(s.w, Next(s, a).w);
    }
  }

  lemma {:induction false} RunCounted(s: Sys, actions: seq<Action>)
    requires Good(s) && AllCounted(s.w) && Run(s, actions)
    ensures Good(Exec(s, actions)) && AllCounted(Exec(s, actions).w)
    decreases |actions|
  {
    if actions != [] {
      StepKeeps(s, actions[0]);
      StepCounted(s, actions[0]);
      RunCounted(Next(s, actions[0]), actions[1..]);
    }
  }

  /** In every run a host's own component is the number of intervals it has opened. */
  lemma ComponentCountsIntervals(s: Sys, actions: seq<Action>, h: nat)
    requires Init(s) && Run(s, actions) && h < s.w.n
    ensures var t := Exec(s, actions);
            && Shape(t) && t.w.n == s.w.n
            && NowTs(t.w.mems[h])[h] == |t.w.mems[h].procs[h]| - 1
  {
    InitGood(s);
    assert AllCounted(s.w) by {
      forall g | 0 <= g < s.w.n
        ensures Counted(s.w, g)
      {
        assert InitialMem(s.w.mems[g], g, s.w.n);
      }
    }
    RunCounted(s, actions);
    Reached(s, actions);
    assert Counted(Exec(s, actions).w, h);
  }

  // ----- the start -----

  /** `initmem` and `mi_alloc` together make the memory with which runs start. */
  lemma StartsInitial(me: nat, n: nat, count: nat)
    requires me < n
    ensures var pages := seq(count, p requires p >= 0 => (Allocation.SlotOf(me, n, p).state, ZeroPage()));
            InitialMem(MemCells.InitialModel(me, n, pages), me, n)
  {
  }

  // ----- entering a barrier -----

  lemma WholeListSent(list: seq<Interval>)
    requires BarrierLast(list)
    ensures SinceBarrier(list) == list
  {
    SinceBarrierAt(list, |list| - 1);
    assert list[..|list|] == list;
  }

  /** Pages of a critical section are distinct, so their first occurrences are all of them, in order. */
  lemma {:induction false} DistinctAppend(pages: seq<nat>)
    requires Distinct(pages)
    ensures AppendNew([], pages) == pages
    decreases |pages|
  {
    if pages != [] {
      var last := |pages| - 1;
      DistinctAppend(pages[..last]);
      assert pages == pages[..last] + [pages[last]];
    }
  }

  /** Of intervals without barrier marks and with distinct pages, those with notices are rebuilt as they are. */
  lemma {:induction false} RebuiltIsList(list: seq<Interval>)
    requires forall i :: 0 <= i < |list| && list[i].pages != [] ==> Distinct(list[i].pages) && !list[i].isBarrier
    ensures Rebuilt(list) == WithNotices(list)
  {
    if list != [] {
      RebuiltIsList(list[1..]);
      if list[0].pages != [] {
        DistinctAppend(list[0].pages);
      }
      assert [] + Rebuilt(list[1..]) == Rebuilt(list[1..]);
    }
  }

  lemma OwnPages(w: World, h: nat, i: nat)
    requires Basic(w) && h < w.n && Knowledge(w, h) && i < |w.mems[h].procs[h]| && w.mems[h].procs[h][i].pages != []
    ensures var iv := w.mems[h].procs[h][i];
            Distinct(iv.pages) && !iv.isBarrier && forall k :: 0 <= k < |iv.pages| ==> iv.pages[k] < |w.cur|
  {
    var k := IntervalEntry(w, h, h, w.mems[h].procs[h][i]);
    assert EntryOk(w.n, |w.cur|, w.log, k);
  }

  /**
   After any one-lock run, a manager that has none of a host's intervals gets from the host's entry messages
   exactly the host's part of the history: every critical section with notices, newest first, with its pages.
  */
  lemma EntryAfterLocks(s: Sys, actions: seq<Action>, h: nat, m: Mem)
    requires Init(s) && Run(s, actions) && h < s.w.n && Wf(m) && m.n == s.w.n && m.me != h && |m.pages| == |s.w.cur|
    requires Shape(Exec(s, actions)) && Exec(s, actions).w.n == s.w.n
    requires var list := Exec(s, actions).w.mems[h].procs[h];
             forall i, k :: 0 <= i < |list| && 0 <= k < |m.procs[h]| ==> m.procs[h][k].ts != list[i].ts
    ensures var t := Exec(s, actions);
            var list := t.w.mems[h].procs[h];
            var msgs := EntryMessages(NowTs(t.w.mems[h]), m.n, EntryPackets(h, SinceBarrier(list)));
            && SinceBarrier(list) == list
            && (forall k :: 0 <= k < |msgs| ==> MsgWf(msgs[k], m.n, |m.pages|))
            && RoundTripped(m, h, list, HandleInfos(m, msgs))
            && HandleInfos(m, msgs).procs[h] == KnownList(t.w.log, |t.w.log|, h) + m.procs[h]
  {
    OwnIntervalsOrdered(s, actions, h);
    Reached(s, actions);
    var w := Exec(s, actions).w;
    var list := w.mems[h].procs[h];
    assert Knowledge(w, h) && MemBasic(w, h);
    WholeListSent(list);
    forall i | 0 <= i < |list| && list[i].pages != []
      ensures Distinct(list[i].pages) && !list[i].isBarrier
      ensures forall k :: 0 <= k < |list[i].pages| ==> list[i].pages[k] < |w.cur|
    {
      OwnPages(w, h, i);
    }
    EntryRoundTrip(m, h, list, NowTs(w.mems[h]));
    RebuiltIsList(list);
    OwnIsHistory(w, h);
  }

  lemma OwnIsHistory(w: World, h: nat)
    requires Basic(w) && h < w.n && Knowledge(w, h)
    ensures WithNotices(w.mems[h].procs[h]) == KnownList(w.log, |w.log|, h)
  {
    assert Knows(w.log, w.mems[h], h, Known(w.log, h));
    NoIntervalsBetween(w.log, Known(w.log, h), |w.log|, h);
  }
}
