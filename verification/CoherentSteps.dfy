/** Every step of the one-lock system keeps its invariant. */
module CoherentSteps {
  import opened Options
  import opened Vectors
  import opened Diffs
  import opened HostMem
  import opened CriticalLog
  import PageStates
  import opened DiffFetching
  import opened World
  import opened QuietSteps
  import opened Receiving
  import opened Writing
  import opened FetchSources
  import opened System
  import opened Coherence
  import OneLock

  // ----- the holder -----

  lemma OneHolder(lk: OneLock.State, h: nat)
    requires OneLock.Inv(lk) && h < lk.n && OneLock.Holds(lk.phase[h])
    ensures lk.rec.state == OneLock.Locks.LOCKED && lk.rec.owner == h
    ensures forall g :: 0 <= g < lk.n && OneLock.Holds(lk.phase[g]) ==> g == h
    ensures lk.released + [h] == lk.granted && lk.rec.lasthostid == OneLock.LastOf(lk.released)
    ensures lk.phase[h].Woken? ==> lk.phase[h].last == OneLock.LastOf(lk.released)
  {
    assert OneLock.HostOk(lk, h);
    forall g | 0 <= g < lk.n && OneLock.Holds(lk.phase[g])
      ensures g == h
    {
      assert OneLock.HostOk(lk, g);
    }
  }

  /** A step of the holder that leaves the lock alone. */
  lemma HolderGood(s: Sys, t: Sys, h: nat)
    requires Good(s) && h < s.w.n && OneLock.Holds(s.lk.phase[h])
    requires t.lk == s.lk && Inv(t.w) && t.w.n == s.w.n && t.w.inside == s.w.inside && |t.ops| == |s.ops|
    requires |t.w.log| == |s.w.log| && forall k :: 0 <= k < |s.w.log| ==> t.w.log[k].host == s.w.log[k].host
    requires forall g :: 0 <= g < s.w.n && g != h ==> t.ops[g] == s.ops[g]
    requires OpOk(t, h) && Shapes(t)
    ensures Good(t)
  {
    OneHolder(s.lk, h);
  }

  /** What a woken host knows of the history. */
  lemma WokenHistory(s: Sys, h: nat)
    requires Good(s) && h < s.w.n && s.lk.phase[h].Woken?
    ensures s.w.inside.None?
    ensures !MustFetch(s, h) ==> Known(s.w.log, h) == |s.w.log| && !s.lk.phase[h].byRelease
    ensures MustFetch(s, h) ==> s.w.log != [] && Known(s.w.log, s.lk.phase[h].last) == |s.w.log|
  {
    OneHolder(s.lk, h);
    assert OneLock.HostOk(s.lk, h);
    forall x | 0 <= x < s.w.n
      ensures s.w.inside != Some(x)
    {
      assert OneLock.Holds(OneLock.Inside);
    }
    assert Sections(s.lk) == s.lk.released;
    if s.w.log != [] {
      assert s.w.log[|s.w.log| - 1].host == OneLock.LastOf(s.lk.released);
    }
  }

  // ----- shapes that carry over -----

  /** The copy starts where it did and has received the same diffs. */
  ghost predicate SameReceived(e: PageEntry, f: PageEntry, me: nat) {
    && f.start == e.start && |f.notices| == |e.notices|
    && forall j, ts :: 0 <= j < |e.notices| && j != me ==> DiffOf(f.notices[j], ts) == DiffOf(e.notices[j], ts)
  }

  /** The history only gained critical sections without notices; the bytes may have changed. */
  ghost predicate HistoryGrows(v: World, w: World) {
    && w.n == v.n && |w.cur| == |v.cur| && |v.log| <= |w.log|
    && (forall k :: 0 <= k < |v.log| ==> w.log[k] == v.log[k])
    && (forall k :: |v.log| <= k < |w.log| ==> w.log[k].pages == [])
  }

  ghost predicate Carries(s: Sys, t: Sys, h: nat, p: nat)
    requires Shape(s) && Shape(t) && t.w.n == s.w.n && |t.w.cur| == |s.w.cur| && h < s.w.n && p < |s.w.cur|
  {
    && SameReceived(s.w.mems[h].pages[p], t.w.mems[h].pages[p], h)
    && (!InLoop(s.ops[h]) || (t.ops[h] == s.ops[h] && t.w.mems[h].pages[p] == s.w.mems[h].pages[p]))
  }

  lemma ShapeCarries(s: Sys, t: Sys, h: nat, p: nat, k1: nat, k2: nat)
    requires Shape(s) && Shape(t) && HistoryGrows(s.w, t.w) && h < s.w.n && p < |s.w.cur| && k2 < k1 < |t.w.log|
    requires Carries(s, t, h, p) && (k1 < |s.w.log| ==> ShapeOk(s, h, p, k1, k2))
    ensures ShapeOk(t, h, p, k1, k2)
  {
    if k1 < |s.w.log| {
      assert t.w.log[k1] == s.w.log[k1] && t.w.log[k2] == s.w.log[k2];
    }
  }

  lemma ShapesCarry(s: Sys, t: Sys)
    requires Shape(s) && Shape(t) && Shapes(s) && HistoryGrows(s.w, t.w)
    requires forall h, p :: 0 <= h < s.w.n && 0 <= p < |s.w.cur| ==> Carries(s, t, h, p)
    ensures Shapes(t)
  {
    forall h, p, k1, k2 | 0 <= h < t.w.n && 0 <= p < |t.w.cur| && 0 <= k2 < k1 < |t.w.log|
      ensures ShapeOk(t, h, p, k1, k2)
    {
      assert k1 < |s.w.log| ==> ShapeOk(s, h, p, k1, k2);
      ShapeCarries(s, t, h, p, k1, k2);
    }
  }

  lemma ShapesSame(s: Sys, t: Sys)
    requires Shape(s) && Shape(t) && Shapes(s) && t.w == s.w
    requires forall h :: 0 <= h < s.w.n ==> t.ops[h] == s.ops[h] || !InLoop(s.ops[h])
    ensures Shapes(t)
  {
    ShapesCarry(s, t);
  }

  // ----- the lock protocol -----

  lemma LockPhase(lk: OneLock.State, a: OneLock.Action, h: nat)
    requires OneLock.Inv(lk) && OneLock.Enabled(lk, a) && !a.Enter? && !a.Leave? && h < lk.n
    ensures var t := OneLock.Next(lk, a);
            && t.n == lk.n && |t.phase| == lk.n
            && (OneLock.Holds(t.phase[h]) ==>
                  t.phase[h] == lk.phase[h] ||
                    (t.phase[h].Woken? && forall g :: 0 <= g < lk.n ==> !OneLock.Holds(lk.phase[g])))
            && (OneLock.Holds(lk.phase[h]) && !OneLock.Holds(t.phase[h]) ==> lk.phase[h] == OneLock.Leaving)
            && (t.phase[h] == OneLock.Inside <==> lk.phase[h] == OneLock.Inside)
  {
    assert OneLock.HostOk(lk, h);
    forall g | 0 <= g < lk.n && OneLock.Holds(lk.phase[g])
      ensures lk.rec.state == OneLock.Locks.LOCKED && lk.rec.owner == g
      ensures lk.down[g] == [] && lk.up[g] == []
    {
      assert OneLock.HostOk(lk, g);
    }
    if a.LocalGrasp? || a.DeliverAcq? {
      OneLock.AskRecord(lk, a);
    } else if a.LocalRelease? || a.DeliverRls? {
      OneLock.FreeRecord(lk, a);
    }
  }

  lemma AskSections(lk: OneLock.State, a: OneLock.Action)
    requires OneLock.Inv(lk) && OneLock.Enabled(lk, a) && OneLock.Inv(OneLock.Next(lk, a))
    requires a.LocalGrasp? || a.DeliverAcq?
    ensures Sections(OneLock.Next(lk, a)) == Sections(lk)
  {
    OneLock.AskRecord(lk, a);
    assert OneLock.HostOk(lk, OneLock.Subject(lk, a));
  }

  lemma FreeSections(lk: OneLock.State, a: OneLock.Action)
    requires OneLock.Inv(lk) && OneLock.Enabled(lk, a) && OneLock.Inv(OneLock.Next(lk, a))
    requires a.LocalRelease? || a.DeliverRls?
    ensures Sections(OneLock.Next(lk, a)) == Sections(lk)
  {
    OneLock.FreeRecord(lk, a);
    assert OneLock.HostOk(lk, OneLock.Subject(lk, a));
    if lk.rec.waiting != [] {
      assert OneLock.HostOk(lk, lk.rec.waiting[0]);
    }
  }

  lemma LockSections(lk: OneLock.State, a: OneLock.Action)
    requires OneLock.Inv(lk) && OneLock.Enabled(lk, a) && OneLock.Inv(OneLock.Next(lk, a))
    ensures Sections(OneLock.Next(lk, a)) == if a.Enter? then Sections(lk) + [a.h] else Sections(lk)
  {
    if a.LocalGrasp? || a.DeliverAcq? {
      AskSections(lk, a);
    } else if a.LocalRelease? || a.DeliverRls? {
      FreeSections(lk, a);
    } else {
      assert OneLock.HostOk(lk, a.h);
    }
  }

  lemma LockOps(s: Sys, b: OneLock.Action)
    requires Good(s) && OneLock.Enabled(s.lk, b) && !b.Enter? && !b.Leave?
    requires Shape(s.(lk := OneLock.Next(s.lk, b)))
    ensures OpsOk(s.(lk := OneLock.Next(s.lk, b)))
  {
    var t := s.(lk := OneLock.Next(s.lk, b));
    forall h | 0 <= h < s.w.n
      ensures OneLock.Holds(t.lk.phase[h]) ==> OpOk(t, h)
      ensures !OneLock.Holds(t.lk.phase[h]) ==> t.ops[h] == Idle
      ensures s.wire != [] && OneLock.Holds(s.lk.phase[h]) ==> OneLock.Holds(t.lk.phase[h])
    {
      LockPhase(s.lk, b, h);
    }
  }

  lemma LockKeeps(s: Sys, b: OneLock.Action)
    requires Good(s) && OneLock.Enabled(s.lk, b) && !b.Enter? && !b.Leave?
    ensures Good(s.(lk := OneLock.Next(s.lk, b)))
  {
    var t := s.(lk := OneLock.Next(s.lk, b));
    OneLock.StepInv(s.lk, b);
    LockSections(s.lk, b);
    forall h | 0 <= h < s.w.n
      ensures t.lk.n == s.lk.n
      ensures t.lk.phase[h] == OneLock.Inside <==> s.lk.phase[h] == OneLock.Inside
    {
      LockPhase(s.lk, b, h);
    }
    assert t.lk.n == s.lk.n;
    LockOps(s, b);
    ShapesSame(s, t);
  }

  // ----- entering and leaving -----

  lemma StartFetchKeeps(s: Sys, h: nat)
    requires Good(s) && Enabled(s, StartFetch(h))
    ensures Good(Next(s, StartFetch(h)))
  {
    var t := Next(s, StartFetch(h));
    assert OpOk(s, h);
    ShapesSame(s, t);
    HolderGood(s, t, h);
  }

  /** The history grows by one critical section without notices, and no received diff changes. */
  lemma EnterShapes(s: Sys, t: Sys)
    requires Shape(s) && Shape(t) && Shapes(s) && QuietStep(s.w, t.w)
    requires forall g :: 0 <= g < s.w.n ==> !InLoop(s.ops[g])
    ensures Shapes(t)
  {
    forall g, p | 0 <= g < s.w.n && 0 <= p < |s.w.cur|
      ensures Carries(s, t, g, p)
    {
      assert Quiet(s.w.mems[g].pages[p], t.w.mems[g].pages[p], g);
    }
    ShapesCarry(s, t);
  }

  ghost function Entered(s: Sys, h: nat, m: Mem): Sys
    requires Shape(s) && h < s.w.n && s.lk.phase[h].Woken? && Wf(m)
  {
    Sys(OneLock.Next(s.lk, OneLock.Enter(h)), Enter(s.w, h, m), s.ops[h := Idle], [])
  }

  lemma EnterLinked(s: Sys, h: nat, m: Mem)
    requires Good(s) && h < s.w.n && s.lk.phase[h].Woken? && Wf(m) && Shape(Entered(s, h, m))
    ensures OneLock.Inv(Entered(s, h, m).lk) && Linked(Entered(s, h, m)) && OpsOk(Entered(s, h, m))
  {
    OneHolder(s.lk, h);
    OneLock.StepInv(s.lk, OneLock.Enter(h));
    LockSections(s.lk, OneLock.Enter(h));
    assert OpOk(s, h);
  }

  lemma NoLoops(s: Sys, h: nat)
    requires Good(s) && h < s.w.n && OneLock.Holds(s.lk.phase[h]) && s.lk.phase[h] != OneLock.Inside
    ensures forall g :: 0 <= g < s.w.n ==> !InLoop(s.ops[g])
  {
    OneHolder(s.lk, h);
    assert OpOk(s, h);
  }

  lemma EnterGood(s: Sys, h: nat, m: Mem)
    requires Good(s) && h < s.w.n && s.lk.phase[h].Woken? && Ready(s.w, h, m)
    ensures Good(Entered(s, h, m))
  {
    EnteredShape(s, h, m);
    EnterLinked(s, h, m);
    NoLoops(s, h);
    EnterShapes(s, Entered(s, h, m));
  }

  lemma EnteredShape(s: Sys, h: nat, m: Mem)
    requires Good(s) && h < s.w.n && s.lk.phase[h].Woken? && Ready(s.w, h, m)
    ensures Shape(Entered(s, h, m)) && Inv(Entered(s, h, m).w) && QuietStep(s.w, Entered(s, h, m).w)
  {
    WokenHistory(s, h);
    EnterKeeps(s.w, h, m);
    EnterBasic(s.w, h, m);
  }

  lemma EnterOwnKeeps(s: Sys, h: nat)
    requires Good(s) && Enabled(s, EnterOwn(h))
    ensures Good(Next(s, EnterOwn(h)))
  {
    WokenHistory(s, h);
    OwnReady(s.w, h);
    assert OpOk(s, h);
    EnterGood(s, h, OwnMem(s.w, h));
    assert s.ops[h := Idle] == s.ops;
  }

  ghost function Unlocked(s: Sys, h: nat): Sys
    requires Shape(s) && h < s.w.n && s.lk.phase[h] == OneLock.Inside
  {
    s.(lk := OneLock.Next(s.lk, OneLock.Leave(h)), w := Leave(s.w, h))
  }

  lemma UnlockedShapes(s: Sys, h: nat)
    requires Good(s) && h < s.w.n && s.lk.phase[h] == OneLock.Inside && Shape(Unlocked(s, h))
    ensures Shapes(Unlocked(s, h))
  {
    ShapesCarry(s, Unlocked(s, h));
  }

  lemma UnlockKeeps(s: Sys, h: nat)
    requires Good(s) && Enabled(s, Unlock(h))
    ensures Good(Next(s, Unlock(h)))
  {
    OneHolder(s.lk, h);
    OneLock.StepInv(s.lk, OneLock.Leave(h));
    LockSections(s.lk, OneLock.Leave(h));
    LeaveKeeps(s.w, h);
    assert OpOk(s, h);
    UnlockedShapes(s, h);
  }

  // ----- requests -----

  /** The message in flight belongs to the holder. */
  lemma WireHolder(s: Sys, i: nat) returns (h: nat)
    requires Good(s) && i < |s.wire|
    ensures h < s.w.n && OneLock.Holds(s.lk.phase[h]) && OpOk(s, h)
    ensures s.wire == [s.wire[0]] && i == 0 && s.ops[h] != Idle
    ensures Without(s.wire, i) == []
  {
    h :| 0 <= h < s.w.n && OneLock.Holds(s.lk.phase[h]);
  }

  lemma ServeIntervalsKeeps(s: Sys, i: nat, h: nat)
    requires Good(s) && Enabled(s, Serve(i)) && h < s.w.n && OneLock.Holds(s.lk.phase[h]) && s.ops[h] == WaitIntervals
    requires i == 0 && |s.wire| == 1 && OpOk(s, h)
    ensures Good(Next(s, Serve(i))) && Next(s, Serve(i)).wire != []
  {
    var t := Next(s, Serve(i));
    assert Without(s.wire, 0) == [];
    ShapesSame(s, t);
    HolderGood(s, t, h);
  }

  lemma ServeWholeKeeps(s: Sys, i: nat, h: nat)
    requires Good(s) && Enabled(s, Serve(i)) && h < s.w.n && OneLock.Holds(s.lk.phase[h]) && s.ops[h].WaitWhole?
    requires i == 0 && |s.wire| == 1 && OpOk(s, h)
    ensures Good(Next(s, Serve(i))) && Next(s, Serve(i)).wire != []
  {
    var t := Next(s, Serve(i));
    assert Without(s.wire, 0) == [];
    FetchTargetCurrent(s.w, h, s.ops[h].p);
    ShapesSame(s, t);
    HolderGood(s, t, h);
  }

  lemma ServeKeeps(s: Sys, i: nat)
    requires Good(s) && Enabled(s, Serve(i))
    ensures Good(Next(s, Serve(i))) && Next(s, Serve(i)).wire != []
  {
    var h := WireHolder(s, i);
    match s.ops[h] {
      case WaitIntervals => ServeIntervalsKeeps(s, i, h);
      case WaitWhole(_) => ServeWholeKeeps(s, i, h);
      case WaitOne(_, _) => ServeOneKeeps(s, i, h);
      case _ =>
    }
  }

  /** Serving a diff changes own notices only. */
  lemma ServedShapes(s: Sys, t: Sys, j: nat, ts: Vec, p: nat)
    requires Good(s) && j < s.w.n && p < |s.w.cur| && t.w == Served(s.w, j, ts, p) && Shape(t) && t.ops == s.ops
    requires s.ops[j] == Idle
    ensures Shapes(t)
  {
    ShapesCarry(s, t);
  }

  /** The host asked for a diff knows the critical section it belongs to. */
  lemma AskedKnows(s: Sys, h: nat) returns (k: nat)
    requires Shape(s) && Inv(s.w) && h < s.w.n && s.ops[h].WaitOne? && OpOk(s, h)
    ensures var p, c := s.ops[h].p, s.ops[h].at;
            && k < |s.w.log| && s.w.log[k].host == c.host && p in s.w.log[k].pages
            && s.w.log[k].ts == s.w.mems[h].pages[p].notices[c.host][c.pos].ts
  {
    assert Knowledge(s.w, h);
    k := NoticeEntry(s.w, h, s.ops[h].at.host, s.ops[h].p, s.ops[h].at.pos);
  }

  lemma ServeOneAnswers(s: Sys, h: nat) returns (d: Page)
    requires Shape(s) && Inv(s.w) && h < s.w.n && s.ops[h].WaitOne? && OpOk(s, h) && s.w.inside == Some(h)
    requires |s.wire| == 1 && IsRequest(s.wire[0].msg)
    ensures var p, c := s.ops[h].p, s.ops[h].at;
            var ts := s.w.mems[h].pages[p].notices[c.host][c.pos].ts;
            && s.wire[0] == Envelope(h, c.host, FetchOne(p, ts))
            && Answer(s.w, s.wire[0]) == (Served(s.w, c.host, ts, p), [Envelope(c.host, h, One(p, ts, d))])
            && DiffOf(Served(s.w, c.host, ts, p).mems[c.host].pages[p].notices[c.host], ts) == Some(d)
            && Inv(Served(s.w, c.host, ts, p))
  {
    var p, c := s.ops[h].p, s.ops[h].at;
    var k := AskedKnows(s, h);
    WriterAnswers(s.w, c.host, p, k);
    d := GrantedDiff(s.w.mems[c.host], s.w.log[k].ts, p).value;
    QuietSteps.ServeKeeps(s.w, c.host, s.w.log[k].ts, p);
  }

  lemma ServeOneKeeps(s: Sys, i: nat, h: nat)
    requires Good(s) && Enabled(s, Serve(i)) && h < s.w.n && OneLock.Holds(s.lk.phase[h]) && s.ops[h].WaitOne?
    requires i == 0 && |s.wire| == 1 && OpOk(s, h)
    ensures Good(Next(s, Serve(i))) && Next(s, Serve(i)).wire != []
  {
    var p, c := s.ops[h].p, s.ops[h].at;
    var ts := s.w.mems[h].pages[p].notices[c.host][c.pos].ts;
    var d := ServeOneAnswers(s, h);
    OneHolder(s.lk, h);
    var t := s.(w := Served(s.w, c.host, ts, p), wire := [Envelope(c.host, h, One(p, ts, d))]);
    assert Without(s.wire, 0) == [];
    assert t == Next(s, Serve(i));
    ServedShapes(s, t, c.host, ts, p);
    ServedGood(s, t, h, ts, d);
  }

  lemma ServedGood(s: Sys, t: Sys, h: nat, ts: Vec, d: Page)
    requires Good(s) && h < s.w.n && OneLock.Holds(s.lk.phase[h]) && s.ops[h].WaitOne? && OpOk(s, h)
    requires var p, c := s.ops[h].p, s.ops[h].at;
             && ts == s.w.mems[h].pages[p].notices[c.host][c.pos].ts
             && t == s.(w := Served(s.w, c.host, ts, p), wire := [Envelope(c.host, h, One(p, ts, d))])
             && DiffOf(t.w.mems[c.host].pages[p].notices[c.host], ts) == Some(d)
    requires Inv(t.w) && Shapes(t)
    ensures Good(t)
  {
    assert t.w.mems[h] == s.w.mems[h];
    HolderGood(s, t, h);
  }

  // ----- replies -----

  lemma ReplyEnters(s: Sys, h: nat, g: nat)
    requires Shape(s) && h < s.w.n && g < s.w.n && s.lk.phase[h].Woken? && AllWf(Grant(s.w, h, g).1, s.w.n, |s.w.cur|)
    requires Enabled(s, Receive(0)) && s.wire == [Envelope(g, h, Intervals(Grant(s.w, h, g).0, Grant(s.w, h, g).1))]
    ensures Next(s, Receive(0)) == Entered(s, h, FetchedMem(s.w, h, g))
  {
    assert Without(s.wire, 0) == [];
  }

  lemma ReceiveIntervalsEnters(s: Sys, i: nat, h: nat) returns (m: Mem)
    requires Good(s) && Enabled(s, Receive(i)) && h < s.w.n && s.ops[h] == WaitIntervals
    requires i == 0 && |s.wire| == 1 && OpOk(s, h)
    ensures Ready(s.w, h, m) && Next(s, Receive(i)) == Entered(s, h, m)
  {
    var g := s.lk.phase[h].last;
    WokenHistory(s, h);
    FetchReady(s.w, h, g);
    m := FetchedMem(s.w, h, g);
    ReplyEnters(s, h, g);
  }

  lemma ReceiveIntervalsKeeps(s: Sys, i: nat, h: nat)
    requires Good(s) && Enabled(s, Receive(i)) && h < s.w.n && s.ops[h] == WaitIntervals
    requires i == 0 && |s.wire| == 1 && OpOk(s, h)
    ensures Good(Next(s, Receive(i)))
  {
    var m := ReceiveIntervalsEnters(s, i, h);
    EnterGood(s, h, m);
  }

  lemma WholeShape(s: Sys, t: Sys, h: nat, p: nat, bytes: Page, g: nat, q: nat, k1: nat, k2: nat)
    requires Shape(s) && s.w.inside == Some(h) && h < s.w.n && p < |s.w.cur| && t.w == GotPage(s.w, h, p, bytes)
    requires Knowledge(s.w, h)
    requires Shape(t) && !InLoop(s.ops[h]) && g < s.w.n && (g != h ==> t.ops[g] == s.ops[g])
    requires q < |s.w.cur| && k2 < k1 < |s.w.log| && ShapeOk(s, g, q, k1, k2)
    ensures ShapeOk(t, g, q, k1, k2)
  {
    LogCompare(s.w.n, |s.w.cur|, s.w.log, k2, |s.w.log| - 1);
  }

  lemma WholeShapes(s: Sys, t: Sys, h: nat, p: nat, bytes: Page)
    requires Good(s) && s.w.inside == Some(h) && h < s.w.n && p < |s.w.cur| && t.w == GotPage(s.w, h, p, bytes)
    requires Shape(t) && !InLoop(s.ops[h]) && forall g :: 0 <= g < s.w.n && g != h ==> t.ops[g] == s.ops[g]
    ensures Shapes(t)
  {
    assert Knowledge(s.w, h);
    forall g, q, k1, k2 | 0 <= g < t.w.n && 0 <= q < |t.w.cur| && 0 <= k2 < k1 < |t.w.log|
      ensures ShapeOk(t, g, q, k1, k2)
    {
      assert ShapeOk(s, g, q, k1, k2);
      WholeShape(s, t, h, p, bytes, g, q, k1, k2);
    }
  }

  lemma ReceiveWholeNext(s: Sys, i: nat, h: nat) returns (bytes: Page)
    requires Good(s) && Enabled(s, Receive(i)) && h < s.w.n && s.ops[h].WaitWhole?
    requires i == 0 && |s.wire| == 1 && OpOk(s, h)
    ensures s.wire == [Envelope(FetchTarget(s.w.mems[h], s.ops[h].p), h, Whole(s.ops[h].p, bytes))]
    ensures Next(s, Receive(i)) == GotWholeSys(s, h, bytes)
  {
    bytes := s.wire[0].msg.bytes;
    assert Without(s.wire, 0) == [];
  }

  /** The system after a page has arrived for the holder. */
  ghost function GotWholeSys(s: Sys, h: nat, bytes: Page): Sys
    requires Shape(s) && h < s.w.n && s.ops[h].WaitWhole? && s.ops[h].p < |s.w.cur|
  {
    var p := s.ops[h].p;
    s.(w := GotPage(s.w, h, p, bytes), ops := s.ops[h := GotWhole(p)], wire := [])
  }

  lemma GotWholeGood(s: Sys, h: nat, bytes: Page)
    requires Good(s) && h < s.w.n && OneLock.Holds(s.lk.phase[h]) && s.ops[h].WaitWhole? && OpOk(s, h)
    ensures Good(GotWholeSys(s, h, bytes))
  {
    var t := GotWholeSys(s, h, bytes);
    GotPageKeeps(s.w, h, s.ops[h].p, bytes);
    GotWholeOp(s, h, bytes);
    WholeShapes(s, t, h, s.ops[h].p, bytes);
    HolderGood(s, t, h);
  }

  lemma GotWholeOp(s: Sys, h: nat, bytes: Page)
    requires Good(s) && h < s.w.n && s.ops[h].WaitWhole? && OpOk(s, h)
    requires Shape(GotWholeSys(s, h, bytes))
    ensures OpOk(GotWholeSys(s, h, bytes), h)
  {
    assert Knowledge(s.w, h);
  }

  lemma ReceiveWholeKeeps(s: Sys, i: nat, h: nat)
    requires Good(s) && Enabled(s, Receive(i)) && h < s.w.n && OneLock.Holds(s.lk.phase[h]) && s.ops[h].WaitWhole?
    requires i == 0 && |s.wire| == 1 && OpOk(s, h)
    ensures Good(Next(s, Receive(i)))
  {
    var bytes := ReceiveWholeNext(s, i, h);
    GotWholeGood(s, h, bytes);
  }

  lemma OneShape(s: Sys, t: Sys, h: nat, p: nat, c: Cursor, ts: Vec, d: Page, k1: nat, k2: nat)
    requires Shape(s) && Shape(t) && h < s.w.n && p < |s.w.cur| && c.host < s.w.n && c.host != h
    requires PageLocal(s.w.mems[h].pages[p], h, s.w.n, p) && s.w.mems[h].pages[p].state == INVALID
    requires NoticeIdx(s.w.mems[h].pages[p].notices[c.host], ts) == c.pos < |s.w.mems[h].pages[p].notices[c.host]|
    requires DiffOf(s.w.mems[h].pages[p].notices[c.host], ts).None?
    requires t.w == GotDiff(s.w, h, c.host, ts, p, d)
    requires s.ops[h] == WaitOne(p, c) && t.ops == s.ops[h := Looping(p, Cursor(c.host, c.pos + 1))]
    requires k2 < k1 < |s.w.log| && ShapeOk(s, h, p, k1, k2)
    ensures ShapeOk(t, h, p, k1, k2)
  {
    GotDiffEntry(s.w.mems[h].pages[p], h, s.w.n, p, c.host, ts, d);
    if Writer(s.w, k1) == c.host {
      PageStates.SameTs(s.w.mems[h].pages[p].notices[c.host], t.w.mems[h].pages[p].notices[c.host], s.w.log[k1].ts);
    }
  }

  /** Another copy's shape, or a shape on another host, does not change. */
  lemma OtherShape(s: Sys, t: Sys, h: nat, p: nat, g: nat, q: nat, k1: nat, k2: nat)
    requires Shape(s) && Shape(t) && h < s.w.n && p < |s.w.cur| && g < s.w.n && q < |s.w.cur| && (g, q) != (h, p)
    requires t.w.n == s.w.n && |t.w.cur| == |s.w.cur| && t.w.log == s.w.log
    requires t.w.mems[g].pages[q] == s.w.mems[g].pages[q]
    requires g != h ==> t.ops[g] == s.ops[g]
    requires InLoop(s.ops[h]) && s.ops[h].p == p
    requires k2 < k1 < |s.w.log| && ShapeOk(s, g, q, k1, k2)
    ensures ShapeOk(t, g, q, k1, k2)
  {
  }

  lemma OneShapes(s: Sys, t: Sys, h: nat, p: nat, c: Cursor, ts: Vec, d: Page)
    requires Good(s) && h < s.w.n && p < |s.w.cur| && c.host < s.w.n && c.host != h
    requires s.w.mems[h].pages[p].state == INVALID
    requires NoticeIdx(s.w.mems[h].pages[p].notices[c.host], ts) == c.pos < |s.w.mems[h].pages[p].notices[c.host]|
    requires DiffOf(s.w.mems[h].pages[p].notices[c.host], ts).None?
    requires t.w == GotDiff(s.w, h, c.host, ts, p, d) && Shape(t)
    requires s.ops[h] == WaitOne(p, c) && t.ops == s.ops[h := Looping(p, Cursor(c.host, c.pos + 1))]
    ensures Shapes(t)
  {
    assert PageOk(s.w, h, p);
    forall g, q, k1, k2 | 0 <= g < t.w.n && 0 <= q < |t.w.cur| && 0 <= k2 < k1 < |t.w.log|
      ensures ShapeOk(t, g, q, k1, k2)
    {
      assert ShapeOk(s, g, q, k1, k2);
      if (g, q) == (h, p) {
        OneShape(s, t, h, p, c, ts, d, k1, k2);
      } else {
        assert t.w.mems[g].pages[q] == s.w.mems[g].pages[q];
        OtherShape(s, t, h, p, g, q, k1, k2);
      }
    }
  }

  /** The cursor's notice is found under its timestamp. */
  lemma CursorIdx(w: World, h: nat, p: nat, c: Cursor)
    requires Basic(w) && h < w.n && p < |w.cur| && c.host < w.n && Knowledge(w, h)
    requires c.pos < |w.mems[h].pages[p].notices[c.host]|
    ensures var list := w.mems[h].pages[p].notices[c.host];
            NoticeIdx(list, list[c.pos].ts) == c.pos && DiffOf(list, list[c.pos].ts) == list[c.pos].diff
  {
    assert Knows(w.log, w.mems[h], c.host, Known(w.log, h));
    ListIdx(w.n, |w.cur|, w.log, Known(w.log, h), c.host, p, w.mems[h].pages[p].notices[c.host], c.pos);
  }

  /** The reply to FETCH_DIFF is the diff the loop asked for. */
  lemma ReceiveOneNext(s: Sys, i: nat, h: nat) returns (d: Page)
    requires Shape(s) && Inv(s.w) && Enabled(s, Receive(i)) && h < s.w.n && s.ops[h].WaitOne?
    requires i == 0 && |s.wire| == 1 && OpOk(s, h)
    ensures var p, c := s.ops[h].p, s.ops[h].at;
            var ts := s.w.mems[h].pages[p].notices[c.host][c.pos].ts;
            && Fetching(s.w, h, c.host, ts, p, d)
            && Next(s, Receive(i)) == s.(w := GotDiff(s.w, h, c.host, ts, p, d),
                                         ops := s.ops[h := Looping(p, Cursor(c.host, c.pos + 1))], wire := [])
  {
    d := s.wire[0].msg.diff;
    assert Knowledge(s.w, h);
    CursorIdx(s.w, h, s.ops[h].p, s.ops[h].at);
    assert Without(s.wire, 0) == [];
  }

  lemma LoopAdvances(w: World, h: nat, p: nat, c: Cursor, d: Page)
    requires Basic(w) && h < w.n && p < |w.cur| && Knowledge(w, h) && PageOk(w, h, p)
    requires w.mems[h].pages[p].state == INVALID
    requires c.host != h && LoopTurn(w.mems[h].pages[p], h, c) == DiffFetching.Ask && Passed(w.mems[h].pages[p], h, c)
    ensures var ts := w.mems[h].pages[p].notices[c.host][c.pos].ts;
            var e := GotDiff(w, h, c.host, ts, p, d).mems[h].pages[p];
            e.state == INVALID && Passed(e, h, Cursor(c.host, c.pos + 1))
  {
    CursorIdx(w, h, p, c);
    AnswerPassed(w.mems[h].pages[p], h, c, d);
  }

  lemma GotOneGood(s: Sys, t: Sys, h: nat, ts: Vec, d: Page)
    requires Good(s) && h < s.w.n && OneLock.Holds(s.lk.phase[h]) && s.ops[h].WaitOne? && OpOk(s, h)
    requires var p, c := s.ops[h].p, s.ops[h].at;
             && Fetching(s.w, h, c.host, ts, p, d) && ts == s.w.mems[h].pages[p].notices[c.host][c.pos].ts
             && t == s.(w := GotDiff(s.w, h, c.host, ts, p, d),
                        ops := s.ops[h := Looping(p, Cursor(c.host, c.pos + 1))], wire := [])
    requires Inv(t.w)
    ensures Good(t)
  {
    var p, c := s.ops[h].p, s.ops[h].at;
    assert Knowledge(s.w, h) && PageOk(s.w, h, p);
    LoopAdvances(s.w, h, p, c, d);
    CursorIdx(s.w, h, p, c);
    OneShapes(s, t, h, p, c, ts, d);
    HolderGood(s, t, h);
  }

  lemma ReceiveOneKeeps(s: Sys, i: nat, h: nat)
    requires Good(s) && Enabled(s, Receive(i)) && h < s.w.n && OneLock.Holds(s.lk.phase[h]) && s.ops[h].WaitOne?
    requires i == 0 && |s.wire| == 1 && OpOk(s, h)
    ensures Good(Next(s, Receive(i)))
  {
    var p, c := s.ops[h].p, s.ops[h].at;
    var ts := s.w.mems[h].pages[p].notices[c.host][c.pos].ts;
    var d := ReceiveOneNext(s, i, h);
    GotDiffKeeps(s.w, h, c.host, ts, p, d);
    GotOneGood(s, Next(s, Receive(i)), h, ts, d);
  }

  lemma ReceiveKeeps(s: Sys, i: nat)
    requires Good(s) && Enabled(s, Receive(i))
    ensures Good(Next(s, Receive(i)))
  {
    var h := WireHolder(s, i);
    match s.ops[h] {
      case WaitIntervals => ReceiveIntervalsKeeps(s, i, h);
      case WaitWhole(_) => ReceiveWholeKeeps(s, i, h);
      case WaitOne(_, _) => ReceiveOneKeeps(s, i, h);
      case _ =>
    }
  }

  // ----- faults and stores -----

  lemma InsideHolder(s: Sys, h: nat)
    requires Good(s) && h < s.w.n && s.lk.phase[h] == OneLock.Inside
    ensures OneLock.Holds(s.lk.phase[h]) && OpOk(s, h) && s.w.inside == Some(h) && s.w.log != [] && Knowledge(s.w, h)
  {
  }

  lemma WriteFaultShape(s: Sys, t: Sys, h: nat, p: nat, g: nat, q: nat, k1: nat, k2: nat)
    requires Shape(s) && s.w.inside == Some(h) && s.w.log != [] && h < s.w.n && p < |s.w.cur|
    requires t.w == WriteFaulted(s.w, h, p) && Shape(t) && !InLoop(s.ops[h]) && t.ops == s.ops
    requires g < s.w.n && q < |s.w.cur| && k2 < k1 < |s.w.log| && ShapeOk(s, g, q, k1, k2)
    requires t.w.mems[g].pages[q].start == s.w.mems[g].pages[q].start
    requires forall j :: 0 <= j < s.w.n && j != g ==> t.w.mems[g].pages[q].notices[j] == s.w.mems[g].pages[q].notices[j]
    requires g != h ==> DiffAt(s.w, g, q, |s.w.log| - 1).None?
    ensures ShapeOk(t, g, q, k1, k2)
  {
    assert forall k :: 0 <= k < |s.w.log| ==> t.w.log[k].host == s.w.log[k].host && t.w.log[k].ts == s.w.log[k].ts;
    assert forall k :: 0 <= k < |s.w.log| - 1 ==> t.w.log[k] == s.w.log[k];
  }

  /** A write fault changes nothing that was received from others. */
  lemma FaultForeign(w: World, h: nat, p: nat, g: nat, q: nat)
    requires Inv(w) && w.inside == Some(h) && h < w.n && p < |w.cur| && w.mems[h].pages[p].state == RDONLY
    requires Basic(WriteFaulted(w, h, p)) && g < w.n && q < |w.cur|
    ensures var e, f := w.mems[g].pages[q], WriteFaulted(w, h, p).mems[g].pages[q];
            f.start == e.start && |f.notices| == |e.notices| == w.n &&
              forall j :: 0 <= j < w.n && j != g ==> f.notices[j] == e.notices[j]
  {
    FaultEffect(w, h, p);
    assert MemBasic(w, g);
  }

  /** Nobody else has a diff of the critical section that is going on. */
  lemma LastUnknown(w: World, h: nat, g: nat, q: nat)
    requires Inv(w) && w.inside == Some(h) && h < w.n && g < w.n && g != h && q < |w.cur|
    ensures DiffAt(w, g, q, |w.log| - 1).None?
  {
    assert Knowledge(w, g);
    if DiffAt(w, g, q, |w.log| - 1).Some? {
      ReceivedIsKnown(w, g, q, |w.log| - 1);
    }
  }

  lemma WriteFaultShapes(s: Sys, t: Sys, h: nat, p: nat)
    requires Good(s) && s.w.inside == Some(h) && h < s.w.n && p < |s.w.cur| && s.w.mems[h].pages[p].state == RDONLY
    requires t.w == WriteFaulted(s.w, h, p) && Shape(t) && t.ops == s.ops && !InLoop(s.ops[h])
    ensures Shapes(t)
  {
    forall g, q, k1, k2 | 0 <= g < t.w.n && 0 <= q < |t.w.cur| && 0 <= k2 < k1 < |t.w.log|
      ensures ShapeOk(t, g, q, k1, k2)
    {
      assert ShapeOk(s, g, q, k1, k2);
      FaultForeign(s.w, h, p, g, q);
      if g != h {
        LastUnknown(s.w, h, g, q);
      }
      WriteFaultShape(s, t, h, p, g, q, k1, k2);
    }
  }

  /** The fault on a read-only page ends at once: the page is now writable. */
  lemma WriteFaultGood(s: Sys, t: Sys, h: nat, p: nat)
    requires Good(s) && AtPage(s, h, p) && s.ops[h] == Idle && s.w.mems[h].pages[p].state == RDONLY
    requires t == s.(w := WriteFaulted(s.w, h, p))
    ensures Good(t)
  {
    InsideHolder(s, h);
    FaultKeeps(s.w, h, p);
    WriteFaultShapes(s, t, h, p);
    assert OpOk(t, h);
    HolderGood(s, t, h);
  }

  /** The fault on a missing or invalid page leaves the host waiting or looping. */
  lemma FetchFaultGood(s: Sys, t: Sys, h: nat, p: nat)
    requires Good(s) && AtPage(s, h, p) && s.ops[h] == Idle && s.w.mems[h].pages[p].state in {MISS, INVALID}
    requires t == Faulted(s, h, p)
    ensures Good(t)
  {
    InsideHolder(s, h);
    assert Passed(s.w.mems[h].pages[p], h, Cursor(0, 0));
    assert OpOk(t, h);
    ShapesSame(s, t);
    HolderGood(s, t, h);
  }

  lemma FaultStepKeeps(s: Sys, h: nat, p: nat)
    requires Good(s) && Enabled(s, Fault(h, p))
    ensures Good(Next(s, Fault(h, p)))
  {
    if s.w.mems[h].pages[p].state == RDONLY {
      WriteFaultGood(s, Next(s, Fault(h, p)), h, p);
    } else {
      FetchFaultGood(s, Next(s, Fault(h, p)), h, p);
    }
  }

  lemma ResumeKeeps(s: Sys, h: nat)
    requires Good(s) && Enabled(s, Resume(h))
    ensures Good(Next(s, Resume(h)))
  {
    var t := Next(s, Resume(h));
    InsideHolder(s, h);
    ResumeMissKeeps(s.w, h, s.ops[h].p);
    ShapesCarry(s, t);
    HolderGood(s, t, h);
  }

  lemma WriteKeeps(s: Sys, h: nat, p: nat, bytes: Page)
    requires Good(s) && Enabled(s, Write(h, p, bytes))
    ensures Good(Next(s, Write(h, p, bytes)))
  {
    var t := Next(s, Write(h, p, bytes));
    InsideHolder(s, h);
    StoreKeeps(s.w, h, p, bytes);
    ShapesCarry(s, t);
    HolderGood(s, t, h);
  }

  // ----- the loops of fetchDiff -----

  /** Where a whole list is settled, nothing needs excusing. */
  lemma SettledDownward(w: World, h: nat, p: nat, k1: nat, k2: nat)
    requires Basic(w) && h < w.n && p < |w.cur| && k2 < k1 < |w.log| && Knowledge(w, h) && Writer(w, k1) != h
    requires forall i :: 0 <= i < |w.mems[h].pages[p].notices[Writer(w, k1)]| ==>
               Settled(w.mems[h].pages[p].notices[Writer(w, k1)][i], w.mems[h].pages[p].start)
    ensures Downward(w, h, p, k1, k2)
  {
    if w.log[k1].host == w.log[k2].host && p in w.log[k2].pages && DiffAt(w, h, p, k1).Some? {
      var j := Writer(w, k1);
      var list := w.mems[h].pages[p].notices[j];
      ReceivedIsKnown(w, h, p, k1);
      assert Knows(w.log, w.mems[h], j, Known(w.log, h));
      FindNotice(w.n, |w.cur|, w.log, Known(w.log, h), j, p, list, k2);
      assert Settled(list[NoticeIdx(list, w.log[k2].ts)], w.mems[h].pages[p].start);
    }
  }

  /** The critical sections of two notices of one list, newer first. */
  lemma ListEntries(w: World, h: nat, p: nat, j: nat, a: nat, b: nat) returns (k1: nat, k2: nat)
    requires Basic(w) && h < w.n && p < |w.cur| && j < w.n && Knowledge(w, h) && a < b < |w.mems[h].pages[p].notices[j]|
    ensures k2 < k1 < |w.log| && w.log[k1].host == w.log[k2].host == j && p in w.log[k1].pages && p in w.log[k2].pages
    ensures var list := w.mems[h].pages[p].notices[j];
            && list[b].ts == w.log[k2].ts && NoticeIdx(list, w.log[k1].ts) == a
            && DiffAt(w, h, p, k1) == list[a].diff && DiffAt(w, h, p, k2) == list[b].diff
  {
    k1 := NoticeEntry(w, h, j, p, a);
    k2 := NoticeEntry(w, h, j, p, b);
    CursorIdx(w, h, p, Cursor(j, a));
    CursorIdx(w, h, p, Cursor(j, b));
    assert Knows(w.log, w.mems[h], j, Known(w.log, h));
    ListOrder(w.n, |w.cur|, w.log, Known(w.log, h), j, p, w.mems[h].pages[p].notices[j], a, b);
    LogCompare(w.n, |w.cur|, w.log, k1, k2);
  }

  /** Behind the notice at which the inner loop stops, everything is settled. */
  lemma BehindIsSettled(s: Sys, h: nat, p: nat, c: Cursor, b: nat)
    requires Shape(s) && Shapes(s) && h < s.w.n && p < |s.w.cur| && c.host < s.w.n && c.host != h && Knowledge(s.w, h)
    requires s.ops[h] == Looping(p, c) && c.pos < b < |s.w.mems[h].pages[p].notices[c.host]|
    requires s.w.mems[h].pages[p].notices[c.host][c.pos].diff.Some?
    ensures Settled(s.w.mems[h].pages[p].notices[c.host][b], s.w.mems[h].pages[p].start)
  {
    var k1, k2 := ListEntries(s.w, h, p, c.host, c.pos, b);
    assert ShapeOk(s, h, p, k1, k2);
  }

  lemma SkipShapes(s: Sys, t: Sys, h: nat, p: nat, c: Cursor, next: Cursor)
    requires Shape(s) && Shapes(s) && h < s.w.n && p < |s.w.cur| && Knowledge(s.w, h)
    requires s.ops[h] == Looping(p, c) && LoopTurn(s.w.mems[h].pages[p], h, c) == DiffFetching.Skip(next)
    requires Passed(s.w.mems[h].pages[p], h, next)
    requires t == s.(ops := s.ops[h := Looping(p, next)])
    ensures Shapes(t)
  {
    forall g, q, k1, k2 | 0 <= g < t.w.n && 0 <= q < |t.w.cur| && 0 <= k2 < k1 < |t.w.log|
      ensures ShapeOk(t, g, q, k1, k2)
    {
      assert ShapeOk(s, g, q, k1, k2);
      if (g, q) == (h, p) && Writer(s.w, k1) == c.host && next.host != c.host && c.host != h {
        SettledDownward(s.w, h, p, k1, k2);
      }
    }
  }

  lemma SkipKeeps(s: Sys, h: nat)
    requires Good(s) && Enabled(s, Turn(h)) && LoopTurn(s.w.mems[h].pages[s.ops[h].p], h, s.ops[h].at).Skip?
    ensures Good(Next(s, Turn(h)))
  {
    var t := Next(s, Turn(h));
    var p, c := s.ops[h].p, s.ops[h].at;
    var e := s.w.mems[h].pages[p];
    InsideHolder(s, h);
    if c.host < |e.notices| && c.host != h && c.pos < |e.notices[c.host]| && e.notices[c.host][c.pos].diff.Some? {
      forall b | c.pos < b < |e.notices[c.host]|
        ensures Settled(e.notices[c.host][b], e.start)
      {
        BehindIsSettled(s, h, p, c, b);
      }
    }
    SkipPassed(e, h, c);
    SkipShapes(s, t, h, p, c, LoopTurn(e, h, c).next);
    HolderGood(s, t, h);
  }

  lemma DoneShapes(s: Sys, t: Sys, h: nat, p: nat)
    requires Shape(s) && Shapes(s) && h < s.w.n && p < |s.w.cur| && Knowledge(s.w, h)
    requires UpToDate(s.w.mems[h].pages[p], h)
    requires InLoop(s.ops[h]) && s.ops[h].p == p
    requires t == s.(w := Resumed(s.w, h, p), ops := s.ops[h := Idle]) && Shape(t)
    ensures Shapes(t)
  {
    forall g, q, k1, k2 | 0 <= g < t.w.n && 0 <= q < |t.w.cur| && 0 <= k2 < k1 < |t.w.log|
      ensures ShapeOk(t, g, q, k1, k2)
    {
      assert ShapeOk(s, g, q, k1, k2);
      if (g, q) == (h, p) && Writer(s.w, k1) != h {
        SettledDownward(s.w, h, p, k1, k2);
      }
    }
  }

  lemma DoneKeeps(s: Sys, h: nat)
    requires Good(s) && Enabled(s, Turn(h)) && LoopTurn(s.w.mems[h].pages[s.ops[h].p], h, s.ops[h].at).Done?
    ensures Good(Next(s, Turn(h)))
  {
    var t := Next(s, Turn(h));
    InsideHolder(s, h);
    assert UpToDate(s.w.mems[h].pages[s.ops[h].p], h);
    ResumeInvalidKeeps(s.w, h, s.ops[h].p);
    DoneShapes(s, t, h, s.ops[h].p);
    HolderGood(s, t, h);
  }

  lemma AskKeeps(s: Sys, h: nat)
    requires Good(s) && Enabled(s, Turn(h)) && LoopTurn(s.w.mems[h].pages[s.ops[h].p], h, s.ops[h].at).Ask?
    ensures Good(Next(s, Turn(h)))
  {
    var t := Next(s, Turn(h));
    InsideHolder(s, h);
    forall g, q, k1, k2 | 0 <= g < t.w.n && 0 <= q < |t.w.cur| && 0 <= k2 < k1 < |t.w.log|
      ensures ShapeOk(t, g, q, k1, k2)
    {
      assert ShapeOk(s, g, q, k1, k2);
    }
    HolderGood(s, t, h);
  }

  // ----- all steps, all runs -----

  lemma StepKeeps(s: Sys, a: Action)
    requires Good(s) && Enabled(s, a)
    ensures Good(Next(s, a))
  {
    match a {
      case Lock(b) => LockKeeps(s, b);
      case StartFetch(h) => StartFetchKeeps(s, h);
      case EnterOwn(h) => EnterOwnKeeps(s, h);
      case Serve(i) => ServeKeeps(s, i);
      case Receive(i) => ReceiveKeeps(s, i);
      case Fault(h, p) => FaultStepKeeps(s, h, p);
      case Turn(h) =>
        match LoopTurn(s.w.mems[h].pages[s.ops[h].p], h, s.ops[h].at) {
          case Done => DoneKeeps(s, h);
          case Skip(_) => SkipKeeps(s, h);
          case Ask => AskKeeps(s, h);
        }
      case Resume(h) => ResumeKeeps(s, h);
      case Write(h, p, bytes) => WriteKeeps(s, h, p, bytes);
      case Unlock(h) => UnlockKeeps(s, h);
    }
  }

  lemma {:induction false} RunKeeps(s: Sys, actions: seq<Action>)
    requires Good(s) && Run(s, actions)
    ensures Good(Exec(s, actions))
    decreases |actions|
  {
    if actions != [] {
      StepKeeps(s, actions[0]);
      RunKeeps(Next(s, actions[0]), actions[1..]);
    }
  }

  // ----- the start -----

  lemma InitPage(w: World, h: nat, p: nat)
    requires Basic(w) && w.log == [] && w.inside.None? && h < w.n && p < |w.cur|
    requires InitialMem(w.mems[h], h, w.n) && w.cur[p] == ZeroPage()
    ensures PageOk(w, h, p) && DiffsAgree(w, h, p) && Conserved(w, h, p)
  {
    assert InitialEntry(w.mems[h].pages[p], h, w.n, p);
    TotalZero(Terms(w, h, p));
    AddZero(ZeroPage());
  }

  lemma InitKnowledge(w: World, h: nat)
    requires Basic(w) && w.log == [] && w.inside.None? && h < w.n && InitialMem(w.mems[h], h, w.n)
    ensures Knowledge(w, h)
  {
    forall j | 0 <= j < w.n
      ensures Knows(w.log, w.mems[h], j, 0)
    {
      forall p | 0 <= p < |w.mems[h].pages|
        ensures NoticesMatch(w.log, 0, j, p, w.mems[h].pages[p].notices[j])
      {
        assert InitialEntry(w.mems[h].pages[p], h, w.n, p);
      }
    }
  }

  lemma InitBasic(s: Sys)
    requires Init(s)
    ensures Basic(s.w)
  {
    forall h | 0 <= h < s.w.n
      ensures MemBasic(s.w, h)
    {
      assert InitialMem(s.w.mems[h], h, s.w.n);
      forall p | 0 <= p < |s.w.mems[h].pages|
        ensures PageWf(s.w.mems[h].pages[p], s.w.n)
      {
        assert InitialEntry(s.w.mems[h].pages[p], h, s.w.n, p);
      }
    }
  }

  lemma InitInv(s: Sys)
    requires Init(s)
    ensures Inv(s.w) && Conserving(s.w)
  {
    InitBasic(s);
    forall h | 0 <= h < s.w.n
      ensures Knowledge(s.w, h)
    {
      InitKnowledge(s.w, h);
    }
    forall h, p | 0 <= h < s.w.n && 0 <= p < |s.w.cur|
      ensures PageOk(s.w, h, p) && DiffsAgree(s.w, h, p) && Conserved(s.w, h, p)
    {
      InitPage(s.w, h, p);
    }
  }

  lemma InitGood(s: Sys)
    requires Init(s)
    ensures Good(s) && Consistent(s)
  {
    InitInv(s);
    OneLock.InitInv(s.lk);
  }
}
