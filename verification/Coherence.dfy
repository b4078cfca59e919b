/**
 The invariant of the one-lock system: the lock protocol's invariant, the memories' invariant, how
 the two are linked, what the holder is waiting for and which single message answers it.
 */
module Coherence {
  import opened Options
  import opened Vectors
  import opened Diffs
  import opened HostMem
  import opened CriticalLog
  import PageStates
  import opened DiffFetching
  import opened World
  import opened QuietSteps
  import opened Receiving
  import opened Writing
  import opened FetchSources
  import opened System
  import OneLock

  // ----- the lock and the history -----

  /** The hosts whose critical sections have begun, in order: all releasers, and the owner once inside. */
  ghost function Sections(lk: OneLock.State): seq<int>
    requires OneLock.Inv(lk)
  {
    if lk.rec.state == OneLock.Locks.LOCKED &&
      (lk.phase[lk.rec.owner] == OneLock.Inside || lk.phase[lk.rec.owner] == OneLock.Leaving)
    then lk.released + [lk.rec.owner]
    else lk.released
  }

  ghost predicate SectionsMatch(log: seq<CS>, hosts: seq<int>) {
    |log| == |hosts| && forall k :: 0 <= k < |log| ==> log[k].host == hosts[k]
  }

  ghost predicate Linked(s: Sys)
    requires Shape(s) && OneLock.Inv(s.lk)
  {
    && (forall h :: 0 <= h < s.w.n ==> (s.lk.phase[h] == OneLock.Inside <==> s.w.inside == Some(h)))
    && SectionsMatch(s.w.log, Sections(s.lk))
  }

  // ----- what the holder is waiting for -----

  ghost predicate LoopOk(s: Sys, h: nat, p: nat, c: Cursor)
    requires Shape(s) && h < s.w.n
  {
    && s.lk.phase[h] == OneLock.Inside && p < |s.w.cur| && s.w.mems[h].pages[p].state == INVALID
    && Passed(s.w.mems[h].pages[p], h, c)
  }

  ghost predicate OneInFlight(s: Sys, h: nat, p: nat, c: Cursor)
    requires Shape(s) && h < s.w.n && p < |s.w.cur| && c.host < s.w.n && c.pos < |s.w.mems[h].pages[p].notices[c.host]|
  {
    var ts := s.w.mems[h].pages[p].notices[c.host][c.pos].ts;
    || s.wire == [Envelope(h, c.host, FetchOne(p, ts))]
    || (|s.wire| == 1 && s.wire[0].msg.One? && s.wire[0] == Envelope(c.host, h, One(p, ts, s.wire[0].msg.diff))
        && DiffOf(s.w.mems[c.host].pages[p].notices[c.host], ts) == Some(s.wire[0].msg.diff))
  }

  ghost predicate WholeInFlight(s: Sys, h: nat, p: nat)
    requires Shape(s) && h < s.w.n && p < |s.w.cur|
  {
    var g := FetchTarget(s.w.mems[h], p);
    || s.wire == [Envelope(h, g, FetchWhole(p))]
    || (|s.wire| == 1 && s.wire[0].msg.Whole? && s.wire[0] == Envelope(g, h, Whole(p, s.wire[0].msg.bytes)))
  }

  ghost predicate IntervalsInFlight(s: Sys, h: nat, g: nat)
    requires Shape(s) && h < s.w.n && g < s.w.n
  {
    || s.wire == [Envelope(h, g, FetchIntervals(NowTs(s.w.mems[h])))]
    || s.wire == [Envelope(g, h, Intervals(Grant(s.w, h, g).0, Grant(s.w, h, g).1))]
  }

  /** The operation of the host that holds the lock, and the one message in flight for it. */
  ghost predicate OpOk(s: Sys, h: nat)
    requires Shape(s) && h < s.w.n
  {
    match s.ops[h]
    case Idle => s.wire == []
    case WaitIntervals => s.lk.phase[h].Woken? && MustFetch(s, h) && IntervalsInFlight(s, h, s.lk.phase[h].last)
    case WaitWhole(p) =>
      s.lk.phase[h] == OneLock.Inside && p < |s.w.cur| && s.w.mems[h].pages[p].state == MISS && WholeInFlight(s, h, p)
    case GotWhole(p) =>
      && s.lk.phase[h] == OneLock.Inside && p < |s.w.cur| && s.wire == [] && s.w.log != []
      && s.w.mems[h].pages[p].state == MISS
      && s.w.mems[h].pages[p].start == Some(Last(s.w).ts)
    case Looping(p, c) => LoopOk(s, h, p, c) && s.wire == []
    case WaitOne(p, c) =>
      LoopOk(s, h, p, c) && LoopTurn(s.w.mems[h].pages[p], h, c) == DiffFetching.Ask && c.host < s.w.n &&
        c.host != h && OneInFlight(s, h, p, c)
  }

  ghost predicate OpsOk(s: Sys)
    requires Shape(s)
  {
    && (forall h :: 0 <= h < s.w.n && OneLock.Holds(s.lk.phase[h]) ==> OpOk(s, h))
    && (forall h :: 0 <= h < s.w.n && !OneLock.Holds(s.lk.phase[h]) ==> s.ops[h] == Idle)
    && (s.wire != [] ==> exists h :: 0 <= h < s.w.n && OneLock.Holds(s.lk.phase[h]))
  }

  // ----- the shape of the remote notice lists -----

  ghost function DiffAt(w: World, h: nat, p: nat, k: nat): Option<Page>
    requires Basic(w) && h < w.n && p < |w.cur| && k < |w.log|
  {
    DiffOf(w.mems[h].pages[p].notices[Writer(w, k)], w.log[k].ts)
  }

  /** If the newer of two notices of one writer has its diff, the older is settled. */
  ghost predicate Downward(w: World, h: nat, p: nat, k1: nat, k2: nat)
    requires Basic(w) && h < w.n && p < |w.cur| && k2 < k1 < |w.log|
  {
    w.log[k1].host == w.log[k2].host != h && p in w.log[k1].pages && p in w.log[k2].pages &&
      DiffAt(w, h, p, k1).Some? ==>
      DiffAt(w, h, p, k2).Some? || !AfterStart(w.mems[h].pages[p].start, w.log[k2].ts)
  }

  predicate InLoop(op: Op) {
    op.Looping? || op.WaitOne?
  }

  /** The loops of a fault under way have already passed the newer notice. */
  ghost predicate Excused(s: Sys, h: nat, p: nat, k1: nat)
    requires Shape(s) && h < s.w.n && p < |s.w.cur| && k1 < |s.w.log|
  {
    && InLoop(s.ops[h]) && s.ops[h].p == p && s.ops[h].at.host == Writer(s.w, k1)
    && NoticeIdx(s.w.mems[h].pages[p].notices[Writer(s.w, k1)], s.w.log[k1].ts) < s.ops[h].at.pos
  }

  ghost predicate ShapeOk(s: Sys, h: nat, p: nat, k1: nat, k2: nat)
    requires Shape(s) && h < s.w.n && p < |s.w.cur| && k2 < k1 < |s.w.log|
  {
    Excused(s, h, p, k1) || Downward(s.w, h, p, k1, k2)
  }

  ghost predicate Shapes(s: Sys)
    requires Shape(s)
  {
    forall h, p, k1, k2 :: 0 <= h < s.w.n && 0 <= p < |s.w.cur| && 0 <= k2 < k1 < |s.w.log| ==> ShapeOk(s, h, p, k1, k2)
  }

  /** What every run keeps. */
  ghost predicate Good(s: Sys) {
    && Shape(s) && OneLock.Inv(s.lk) && Inv(s.w)
    && Linked(s) && OpsOk(s) && Shapes(s)
  }

  // ----- the bytes -----

  /** A page that is on its way to the holder, or has just arrived there, is the current one. */
  ghost predicate Arriving(s: Sys)
    requires Shape(s)
  {
    && (forall i :: 0 <= i < |s.wire| && s.wire[i].msg.Whole? && s.wire[i].msg.p < |s.w.cur| ==>
          s.wire[i].msg.bytes == s.w.cur[s.wire[i].msg.p])
    && (forall h :: 0 <= h < s.w.n && s.ops[h].GotWhole? && s.ops[h].p < |s.w.cur| ==>
          s.w.mems[h].pages[s.ops[h].p].bytes == s.w.cur[s.ops[h].p])
  }

  /** What runs keep whose stores are all safe: every copy, and every page on its way, can still become current. */
  ghost predicate Consistent(s: Sys)
    requires Shape(s)
  {
    Conserving(s.w) && Arriving(s)
  }
}
