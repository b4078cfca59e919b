/**
 A discipline that makes every store safe: a critical section that obtains a page as a whole also
 writes it. A copy fetched after the writer's open notice was made was then written in the same
 critical section, and the writer, which knows the whole history, has invalidated its own copy.
 */
module Discipline {
  import opened Options
  import opened Vectors
  import opened Diffs
  import opened HostMem
  import opened CriticalLog
  import opened DiffFetching
  import opened World
  import opened QuietSteps
  import opened Receiving
  import opened Writing
  import opened System
  import opened Coherence
  import opened CoherentSteps
  import opened CopySteps
  import OneLock

  /** A page obtained as a whole in a critical section is also written in it. */
  ghost predicate Disciplined(s: Sys, a: Action) {
    a.Unlock? ==> Closed(s.w)
  }

  /** No page fetched as a whole in the open critical section is still unwritten. */
  ghost predicate Closed(w: World) {
    w.inside.Some? ==> w.log != [] && forall p :: p in w.missed ==> p in Last(w).pages
  }

  /** The critical section in which a page was fetched also wrote it, unless it is still going on. */
  ghost predicate Rewritten(w: World)
    requires Basic(w)
  {
    forall h, p :: 0 <= h < w.n && 0 <= p < |w.cur| ==> CopyRewritten(w, h, p)
  }

  ghost predicate CopyRewritten(w: World, h: nat, p: nat)
    requires Basic(w) && h < w.n && p < |w.cur|
  {
    w.mems[h].pages[p].start.Some? ==> exists b :: 0 <= b < |w.log| && FetchedIn(w, h, p, b)
  }

  ghost predicate FetchedIn(w: World, h: nat, p: nat, b: nat)
    requires Basic(w) && h < w.n && p < |w.cur| && b < |w.log|
  {
    && w.log[b].host == h && w.mems[h].pages[p].start == Some(w.log[b].ts)
    && (p in w.log[b].pages || (w.inside == Some(h) && b == |w.log| - 1 && p in w.missed))
  }

  // ----- disciplined steps -----

  /** The history goes on: critical sections stay, with the pages they wrote. */
  ghost predicate Continues(v: World, w: World) {
    && |v.log| <= |w.log|
    && forall k :: 0 <= k < |v.log| ==>
         && w.log[k].host == v.log[k].host && w.log[k].ts == v.log[k].ts
         && forall p :: p in v.log[k].pages ==> p in w.log[k].pages
  }

  /** The open critical section stays open, or leaves no fetched page unwritten. */
  ghost predicate Closes(v: World, w: World) {
    Closed(v) || (w.inside == v.inside && |w.log| == |v.log| && v.missed <= w.missed)
  }

  lemma CopyStays(v: World, w: World, h: nat, p: nat)
    requires Basic(v) && Basic(w) && w.n == v.n && |w.cur| == |v.cur| && Continues(v, w) && Closes(v, w)
    requires h < v.n && p < |v.cur| && w.mems[h].pages[p].start == v.mems[h].pages[p].start
    requires CopyRewritten(v, h, p)
    ensures CopyRewritten(w, h, p)
  {
    if v.mems[h].pages[p].start.Some? {
      var b :| 0 <= b < |v.log| && FetchedIn(v, h, p, b);
      assert FetchedIn(w, h, p, b);
    }
  }

  ghost predicate SameStarts(v: World, w: World)
    requires Basic(v) && Basic(w)
  {
    && w.n == v.n && |w.cur| == |v.cur|
    && forall h, p :: 0 <= h < v.n && 0 <= p < |v.cur| ==> w.mems[h].pages[p].start == v.mems[h].pages[p].start
  }

  lemma CopiesStay(v: World, w: World)
    requires Basic(v) && Basic(w) && SameStarts(v, w) && Continues(v, w) && Closes(v, w) && Rewritten(v)
    ensures Rewritten(w)
  {
    forall h, p | 0 <= h < w.n && 0 <= p < |w.cur|
      ensures CopyRewritten(w, h, p)
    {
      assert CopyRewritten(v, h, p);
      CopyStays(v, w, h, p);
    }
  }

  lemma EnteredRewritten(w: World, h: nat, m: Mem)
    requires Inv(w) && w.inside.None? && Rewritten(w) && h < w.n && Ready(w, h, m)
    ensures Basic(Enter(w, h, m)) && Rewritten(Enter(w, h, m))
  {
    EnterBasic(w, h, m);
    forall g, p | 0 <= g < w.n && 0 <= p < |w.cur|
      ensures Enter(w, h, m).mems[g].pages[p].start == w.mems[g].pages[p].start
    {
      assert Quiet(w.mems[g].pages[p], Enter(w, h, m).mems[g].pages[p], g);
    }
    CopiesStay(w, Enter(w, h, m));
  }

  lemma GotPageRewritten(w: World, h: nat, p: nat, bytes: Page)
    requires Inv(w) && Rewritten(w) && w.inside == Some(h) && h < w.n && p < |w.cur| && Basic(GotPage(w, h, p, bytes))
    ensures Rewritten(GotPage(w, h, p, bytes))
  {
    var v := GotPage(w, h, p, bytes);
    assert Knowledge(w, h);
    forall g, q | 0 <= g < v.n && 0 <= q < |v.cur|
      ensures CopyRewritten(v, g, q)
    {
      assert CopyRewritten(w, g, q);
      if (g, q) == (h, p) {
        assert FetchedIn(v, h, p, |v.log| - 1);
      } else {
        CopyStays(w, v, g, q);
      }
    }
  }

  /** A step that changes one memory, and no copy's start in it. */
  lemma MemRewritten(w: World, v: World, h: nat)
    requires Basic(w) && Basic(v) && Rewritten(w) && h < w.n && v.n == w.n && |v.cur| == |w.cur|
    requires v.mems == w.mems[h := v.mems[h]] && v.log == w.log
    requires forall p :: 0 <= p < |w.cur| ==> v.mems[h].pages[p].start == w.mems[h].pages[p].start
    requires Closed(w) || (v.inside == w.inside && v.missed == w.missed)
    ensures Rewritten(v)
  {
    forall g, p | 0 <= g < w.n && 0 <= p < |w.cur|
      ensures v.mems[g].pages[p].start == w.mems[g].pages[p].start
    {
      assert g != h ==> v.mems[g] == w.mems[g];
    }
    CopiesStay(w, v);
  }

  lemma ReceiveIntervalsRewritten(s: Sys, i: nat, h: nat)
    requires Good(s) && Rewritten(s.w) && Enabled(s, Receive(i)) && h < s.w.n && s.ops[h] == WaitIntervals
    requires i == 0 && |s.wire| == 1 && OpOk(s, h)
    ensures Basic(Next(s, Receive(i)).w) && Rewritten(Next(s, Receive(i)).w)
  {
    var m := ReceiveIntervalsEnters(s, i, h);
    WokenHistory(s, h);
    EnteredRewritten(s.w, h, m);
  }

  lemma ReceiveWholeRewritten(s: Sys, i: nat, h: nat)
    requires Good(s) && Rewritten(s.w) && Enabled(s, Receive(i)) && h < s.w.n && OneLock.Holds(s.lk.phase[h])
    requires s.ops[h].WaitWhole? && i == 0 && |s.wire| == 1 && OpOk(s, h)
    ensures Basic(Next(s, Receive(i)).w) && Rewritten(Next(s, Receive(i)).w)
  {
    var bytes := ReceiveWholeNext(s, i, h);
    GotWholeGood(s, h, bytes);
    GotPageRewritten(s.w, h, s.ops[h].p, bytes);
  }

  /** An arriving diff leaves the copy's start where it was. */
  lemma GotDiffRewritten(w: World, h: nat, j: nat, ts: Vec, p: nat, d: Page)
    requires Basic(w) && Rewritten(w) && h < w.n && p < |w.cur| && j < w.n && Basic(GotDiff(w, h, j, ts, p, d))
    ensures Rewritten(GotDiff(w, h, j, ts, p, d))
  {
    assert MemBasic(w, h) && MemBasic(GotDiff(w, h, j, ts, p, d), h);
    MemRewritten(w, GotDiff(w, h, j, ts, p, d), h);
  }

  lemma ReceiveOneRewritten(s: Sys, i: nat, h: nat)
    requires Good(s) && Rewritten(s.w) && Enabled(s, Receive(i)) && h < s.w.n && OneLock.Holds(s.lk.phase[h])
    requires s.ops[h].WaitOne? && i == 0 && |s.wire| == 1 && OpOk(s, h) && Basic(Next(s, Receive(i)).w)
    ensures Rewritten(Next(s, Receive(i)).w)
  {
    var p, c := s.ops[h].p, s.ops[h].at;
    var d := ReceiveOneNext(s, i, h);
    GotDiffRewritten(s.w, h, c.host, s.w.mems[h].pages[p].notices[c.host][c.pos].ts, p, d);
  }

  lemma ReceiveRewritten(s: Sys, i: nat)
    requires Good(s) && Rewritten(s.w) && Enabled(s, Receive(i)) && Good(Next(s, Receive(i)))
    ensures Rewritten(Next(s, Receive(i)).w)
  {
    var h := WireHolder(s, i);
    match s.ops[h] {
      case WaitIntervals => ReceiveIntervalsRewritten(s, i, h);
      case WaitWhole(_) => ReceiveWholeRewritten(s, i, h);
      case WaitOne(_, _) => ReceiveOneRewritten(s, i, h);
      case _ =>
    }
  }

  lemma WriteFaultContinues(w: World, h: nat, p: nat)
    requires Inv(w) && w.inside == Some(h) && h < w.n && p < |w.cur| && w.mems[h].pages[p].state == RDONLY
    ensures Basic(WriteFaulted(w, h, p)) && SameStarts(w, WriteFaulted(w, h, p)) && Continues(w, WriteFaulted(w, h, p))
  {
    FaultEffect(w, h, p);
    FaultBasic(w, h, p);
  }

  lemma FaultRewritten(s: Sys, h: nat, p: nat)
    requires Good(s) && Rewritten(s.w) && Enabled(s, Fault(h, p)) && Good(Next(s, Fault(h, p)))
    ensures Rewritten(Next(s, Fault(h, p)).w)
  {
    InsideHolder(s, h);
    if s.w.mems[h].pages[p].state == RDONLY {
      WriteFaultContinues(s.w, h, p);
      CopiesStay(s.w, WriteFaulted(s.w, h, p));
    }
  }

  lemma EnterOwnRewritten(s: Sys, h: nat)
    requires Good(s) && Rewritten(s.w) && Enabled(s, EnterOwn(h)) && Good(Next(s, EnterOwn(h)))
    ensures Rewritten(Next(s, EnterOwn(h)).w)
  {
    WokenHistory(s, h);
    OwnReady(s.w, h);
    EnteredRewritten(s.w, h, OwnMem(s.w, h));
  }

  lemma AnswerRewritten(w: World, e: Envelope)
    requires Inv(w) && Rewritten(w) && IsRequest(e.msg) && e.to < w.n && (!e.msg.FetchIntervals? ==> e.msg.p < |w.cur|)
    requires Basic(Answer(w, e).0)
    ensures Rewritten(Answer(w, e).0)
  {
    if e.from != e.to && e.msg.FetchOne? {
      assert MemBasic(w, e.to) && MemBasic(Answer(w, e).0, e.to);
      MemRewritten(w, Answer(w, e).0, e.to);
    }
  }

  lemma TurnRewritten(s: Sys, h: nat)
    requires Good(s) && Rewritten(s.w) && Enabled(s, Turn(h)) && Basic(Next(s, Turn(h)).w)
    ensures Rewritten(Next(s, Turn(h)).w)
  {
    if LoopTurn(s.w.mems[h].pages[s.ops[h].p], h, s.ops[h].at).Done? {
      MemRewritten(s.w, Next(s, Turn(h)).w, h);
    }
  }

  lemma OwnStepRewritten(s: Sys, a: Action)
    requires Good(s) && Rewritten(s.w) && Enabled(s, a) && Disciplined(s, a) && Basic(Next(s, a).w)
    requires a.Lock? || a.StartFetch? || a.Resume? || a.Write? || a.Unlock?
    ensures Rewritten(Next(s, a).w)
  {
    if a.Resume? || a.Write? || a.Unlock? {
      MemRewritten(s.w, Next(s, a).w, a.h);
    }
  }

  lemma StepRewritten(s: Sys, a: Action)
    requires Good(s) && Rewritten(s.w) && Enabled(s, a) && Disciplined(s, a) && Good(Next(s, a))
    ensures Rewritten(Next(s, a).w)
  {
    match a {
      case EnterOwn(h) => EnterOwnRewritten(s, h);
      case Serve(i) => AnswerRewritten(s.w, s.wire[i]);
      case Receive(i) => ReceiveRewritten(s, i);
      case Fault(h, p) => FaultRewritten(s, h, p);
      case Turn(h) => TurnRewritten(s, h);
      case _ => OwnStepRewritten(s, a);
    }
  }

  // ----- disciplined stores are safe -----

  /** The holder of a WRITE page knows no newer foreign notice for it. */
  lemma NewerKnown(w: World, h: nat, p: nat, k: nat, b: nat)
    requires Inv(w) && w.inside == Some(h) && h < w.n && p < |w.cur| && w.mems[h].pages[p].state == WRITE
    requires k < |w.log| && w.mems[h].pages[p].notices[h] != [] && w.mems[h].pages[p].notices[h][0].ts == w.log[k].ts
    requires b < |w.log| && w.log[b].host != h && p in w.log[b].pages
    ensures b < k
  {
    var g := Writer(w, b);
    var list := w.mems[h].pages[p].notices[g];
    assert PageOk(w, h, p) && Knowledge(w, h);
    assert Known(w.log, h) == |w.log|;
    assert Knows(w.log, w.mems[h], g, |w.log|);
    FindNotice(w.n, |w.cur|, w.log, |w.log|, g, p, list, b);
    assert After(w.log[k].ts, list[NoticeIdx(list, w.log[b].ts)].ts);
    LogCompare(w.n, |w.cur|, w.log, k, b);
  }

  lemma RewrittenUnfetched(w: World, h: nat, p: nat, k: nat, g: nat)
    requires Inv(w) && Rewritten(w) && w.inside == Some(h) && h < w.n && p < |w.cur|
    requires w.mems[h].pages[p].state == WRITE
    requires k < |w.log| && w.mems[h].pages[p].notices[h] != [] && w.mems[h].pages[p].notices[h][0].ts == w.log[k].ts
    requires g < w.n && g != h
    ensures AfterStart(w.mems[g].pages[p].start, w.log[k].ts)
  {
    assert CopyRewritten(w, g, p);
    if w.mems[g].pages[p].start.Some? {
      var b :| 0 <= b < |w.log| && FetchedIn(w, g, p, b);
      NewerKnown(w, h, p, k, b);
      LogCompare(w.n, |w.cur|, w.log, k, b);
    }
  }

  lemma RewrittenSafe(w: World, h: nat, p: nat, bytes: Page)
    requires Inv(w) && Rewritten(w) && w.inside == Some(h) && h < w.n && p < |w.cur|
    requires w.mems[h].pages[p].state == WRITE
    ensures SafeStore(w, h, p, bytes)
  {
    assert PageOk(w, h, p) && Knowledge(w, h);
    var k := OpenNotice(w, h, p);
    forall g | 0 <= g < w.n && g != h
      ensures AfterStart(w.mems[g].pages[p].start, w.log[k].ts)
    {
      RewrittenUnfetched(w, h, p, k, g);
    }
  }

  lemma StepSafe(s: Sys, a: Action)
    requires Good(s) && Rewritten(s.w) && Enabled(s, a)
    ensures Safe(s, a)
  {
    if a.Write? {
      InsideHolder(s, a.h);
      RewrittenSafe(s.w, a.h, a.p, a.bytes);
    }
  }
}
