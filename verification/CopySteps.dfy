/**
 What the steps of the one-lock system do to the bytes: every step but a store keeps every copy
 consistent with the current page, and a store does so exactly if it is safe.
 */
module CopySteps {
  import opened Options
  import opened Vectors
  import opened Diffs
  import opened HostMem
  import opened CriticalLog
  import opened DiffFetching
  import opened World
  import opened QuietSteps
  import opened Receiving
  import opened Writing
  import opened FetchSources
  import opened System
  import opened Coherence
  import opened CoherentSteps
  import OneLock

  /** The step is no store, or a safe one. */
  ghost predicate Safe(s: Sys, a: Action)
    requires Enabled(s, a)
  {
    a.Write? ==> SafeStore(s.w, a.h, a.p, a.bytes)
  }

  /** No page is on its way, and none has arrived that is not readable yet. */
  ghost predicate NoWhole(s: Sys) {
    && (forall i :: 0 <= i < |s.wire| ==> !s.wire[i].msg.Whole?)
    && (forall h :: 0 <= h < |s.ops| ==> !s.ops[h].GotWhole?)
  }

  lemma NoWholeArriving(s: Sys)
    requires Shape(s) && NoWhole(s)
    ensures Arriving(s)
  {
  }

  /** What the holder is waiting for is all that anyone is waiting for. */
  lemma OnlyHolderWaits(s: Sys, h: nat)
    requires Good(s) && h < s.w.n && OneLock.Holds(s.lk.phase[h])
    ensures forall g :: 0 <= g < s.w.n && g != h ==> s.ops[g] == Idle
    ensures OpOk(s, h) && !s.ops[h].WaitWhole? && !s.ops[h].GotWhole? ==> NoWhole(s)
  {
    OneHolder(s.lk, h);
  }

  /** A step of the holder after which it waits for no page. */
  lemma HolderArriving(s: Sys, t: Sys, h: nat)
    requires Good(s) && h < s.w.n && OneLock.Holds(s.lk.phase[h]) && Shape(t) && t.w.n == s.w.n
    requires !t.ops[h].GotWhole? && forall g :: 0 <= g < s.w.n && g != h ==> t.ops[g] == s.ops[g]
    requires forall i :: 0 <= i < |t.wire| ==> !t.wire[i].msg.Whole?
    ensures Arriving(t)
  {
    OnlyHolderWaits(s, h);
    assert NoWhole(t);
  }

  // ----- entering and leaving -----

  lemma EnteredConsistent(s: Sys, h: nat, m: Mem)
    requires Good(s) && Consistent(s) && h < s.w.n && s.lk.phase[h].Woken? && Ready(s.w, h, m)
    ensures Shape(Entered(s, h, m)) && Consistent(Entered(s, h, m))
  {
    EnterGood(s, h, m);
    EnterConserves(s.w, h, m);
    assert OpOk(s, h);
    OnlyHolderWaits(s, h);
    NoWholeArriving(Entered(s, h, m));
  }

  lemma EnterOwnConsistent(s: Sys, h: nat)
    requires Good(s) && Consistent(s) && Enabled(s, EnterOwn(h))
    ensures Shape(Next(s, EnterOwn(h))) && Consistent(Next(s, EnterOwn(h)))
  {
    WokenHistory(s, h);
    OwnReady(s.w, h);
    EnteredConsistent(s, h, OwnMem(s.w, h));
    assert OpOk(s, h);
    assert s.ops[h := Idle] == s.ops;
  }

  lemma UnlockConsistent(s: Sys, h: nat)
    requires Good(s) && Consistent(s) && Enabled(s, Unlock(h))
    ensures Shape(Next(s, Unlock(h))) && Consistent(Next(s, Unlock(h)))
  {
    UnlockKeeps(s, h);
    LeaveConserves(s.w, h);
    InsideHolder(s, h);
    OnlyHolderWaits(s, h);
    NoWholeArriving(Next(s, Unlock(h)));
  }

  // ----- requests -----

  lemma AnswerConserves(w: World, e: Envelope)
    requires Inv(w) && Conserving(w) && IsRequest(e.msg) && e.to < w.n && (!e.msg.FetchIntervals? ==> e.msg.p < |w.cur|)
    ensures Basic(Answer(w, e).0) && Conserving(Answer(w, e).0) && Answer(w, e).0.cur == w.cur
  {
    if e.from != e.to && e.msg.FetchOne? {
      ServeConserves(w, e.to, e.msg.ts, e.msg.p);
    }
  }

  /** The page that answers the holder's request is the current one. */
  lemma WholeIsCurrent(s: Sys, i: nat, h: nat)
    requires Good(s) && Consistent(s) && Enabled(s, Serve(i)) && h < s.w.n && s.ops[h].WaitWhole? && OpOk(s, h)
    requires i == 0 && |s.wire| == 1 && s.w.inside == Some(h)
    ensures Next(s, Serve(i)).wire
            == [Envelope(FetchTarget(s.w.mems[h], s.ops[h].p), h, Whole(s.ops[h].p, s.w.cur[s.ops[h].p]))]
  {
    FetchTargetCurrent(s.w, h, s.ops[h].p);
    assert Without(s.wire, 0) == [];
  }

  /** Whatever else is answered, no page is sent. */
  lemma NoWholeSent(s: Sys, i: nat, h: nat)
    requires Good(s) && Enabled(s, Serve(i)) && h < s.w.n && OneLock.Holds(s.lk.phase[h]) && OpOk(s, h)
    requires i == 0 && |s.wire| == 1 && s.ops[h] != Idle && !s.ops[h].WaitWhole?
    ensures NoWhole(Next(s, Serve(i)))
  {
    OnlyHolderWaits(s, h);
    assert Without(s.wire, 0) == [];
  }

  lemma ServeArriving(s: Sys, i: nat)
    requires Good(s) && Consistent(s) && Enabled(s, Serve(i)) && Shape(Next(s, Serve(i)))
    ensures Arriving(Next(s, Serve(i)))
  {
    var h := WireHolder(s, i);
    if s.ops[h].WaitWhole? {
      WholeIsCurrent(s, i, h);
      OnlyHolderWaits(s, h);
    } else {
      NoWholeSent(s, i, h);
      NoWholeArriving(Next(s, Serve(i)));
    }
  }

  lemma ServeConsistent(s: Sys, i: nat)
    requires Good(s) && Consistent(s) && Enabled(s, Serve(i))
    ensures Shape(Next(s, Serve(i))) && Consistent(Next(s, Serve(i)))
  {
    CoherentSteps.ServeKeeps(s, i);
    AnswerConserves(s.w, s.wire[i]);
    ServeArriving(s, i);
  }

  // ----- replies -----

  lemma ReceiveWholeConsistent(s: Sys, i: nat, h: nat)
    requires Good(s) && Consistent(s) && Enabled(s, Receive(i)) && h < s.w.n && OneLock.Holds(s.lk.phase[h])
    requires s.ops[h].WaitWhole? && i == 0 && |s.wire| == 1 && OpOk(s, h)
    ensures Shape(Next(s, Receive(i))) && Consistent(Next(s, Receive(i)))
  {
    var bytes := ReceiveWholeNext(s, i, h);
    GotWholeGood(s, h, bytes);
    GotPageConserves(s.w, h, s.ops[h].p, bytes);
    OnlyHolderWaits(s, h);
    assert s.wire[0].msg.bytes == s.w.cur[s.ops[h].p];
  }

  lemma GotOneArriving(s: Sys, t: Sys, h: nat, op: Op)
    requires Good(s) && h < s.w.n && OneLock.Holds(s.lk.phase[h]) && Shape(t) && t.w.n == s.w.n
    requires t.wire == [] && t.ops == s.ops[h := op] && op.Looping?
    ensures Arriving(t)
  {
    HolderArriving(s, t, h);
  }

  lemma ReceiveOneOps(s: Sys, i: nat, h: nat)
    requires Shape(s) && Enabled(s, Receive(i)) && h < s.w.n && s.ops[h].WaitOne?
    requires i == 0 && |s.wire| == 1 && OpOk(s, h)
    ensures var p, c, t := s.ops[h].p, s.ops[h].at, Next(s, Receive(i));
            t.wire == [] && t.ops == s.ops[h := Looping(p, Cursor(c.host, c.pos + 1))] && t.w.n == s.w.n
  {
    assert Without(s.wire, 0) == [];
  }

  lemma ReceiveOneArriving(s: Sys, i: nat, h: nat)
    requires Good(s) && Enabled(s, Receive(i)) && h < s.w.n && OneLock.Holds(s.lk.phase[h])
    requires s.ops[h].WaitOne? && i == 0 && |s.wire| == 1 && OpOk(s, h) && Shape(Next(s, Receive(i)))
    ensures Arriving(Next(s, Receive(i)))
  {
    var c := s.ops[h].at;
    ReceiveOneOps(s, i, h);
    GotOneArriving(s, Next(s, Receive(i)), h, Looping(s.ops[h].p, Cursor(c.host, c.pos + 1)));
  }

  lemma ReceiveOneConserves(s: Sys, i: nat, h: nat)
    requires Good(s) && Conserving(s.w) && Enabled(s, Receive(i)) && h < s.w.n && s.ops[h].WaitOne?
    requires i == 0 && |s.wire| == 1 && OpOk(s, h)
    ensures Basic(Next(s, Receive(i)).w) && Conserving(Next(s, Receive(i)).w)
  {
    var p, c := s.ops[h].p, s.ops[h].at;
    var d := ReceiveOneNext(s, i, h);
    GotDiffConserves(s.w, h, c.host, s.w.mems[h].pages[p].notices[c.host][c.pos].ts, p, d);
  }

  lemma ReceiveOneConsistent(s: Sys, i: nat, h: nat)
    requires Good(s) && Consistent(s) && Enabled(s, Receive(i)) && h < s.w.n && OneLock.Holds(s.lk.phase[h])
    requires s.ops[h].WaitOne? && i == 0 && |s.wire| == 1 && OpOk(s, h)
    ensures Shape(Next(s, Receive(i))) && Consistent(Next(s, Receive(i)))
  {
    ReceiveOneKeeps(s, i, h);
    ReceiveOneConserves(s, i, h);
    ReceiveOneArriving(s, i, h);
  }

  lemma ReceiveConsistent(s: Sys, i: nat)
    requires Good(s) && Consistent(s) && Enabled(s, Receive(i))
    ensures Shape(Next(s, Receive(i))) && Consistent(Next(s, Receive(i)))
  {
    var h := WireHolder(s, i);
    match s.ops[h] {
      case WaitIntervals =>
        var m := ReceiveIntervalsEnters(s, i, h);
        EnteredConsistent(s, h, m);
      case WaitWhole(_) => ReceiveWholeConsistent(s, i, h);
      case WaitOne(_, _) => ReceiveOneConsistent(s, i, h);
      case _ =>
    }
  }

  // ----- faults and stores -----

  lemma FaultArriving(s: Sys, h: nat, p: nat)
    requires Good(s) && Enabled(s, Fault(h, p)) && Shape(Next(s, Fault(h, p)))
    ensures Arriving(Next(s, Fault(h, p)))
  {
    InsideHolder(s, h);
    HolderArriving(s, Next(s, Fault(h, p)), h);
  }

  lemma FaultStepConserves(s: Sys, h: nat, p: nat)
    requires Good(s) && Conserving(s.w) && Enabled(s, Fault(h, p)) && Shape(Next(s, Fault(h, p)))
    ensures Conserving(Next(s, Fault(h, p)).w)
  {
    InsideHolder(s, h);
    if s.w.mems[h].pages[p].state == RDONLY {
      FaultConserves(s.w, h, p);
    }
  }

  lemma FaultConsistent(s: Sys, h: nat, p: nat)
    requires Good(s) && Consistent(s) && Enabled(s, Fault(h, p))
    ensures Shape(Next(s, Fault(h, p))) && Consistent(Next(s, Fault(h, p)))
  {
    FaultStepKeeps(s, h, p);
    FaultStepConserves(s, h, p);
    FaultArriving(s, h, p);
  }

  lemma TurnArriving(s: Sys, h: nat)
    requires Good(s) && Enabled(s, Turn(h)) && Shape(Next(s, Turn(h)))
    ensures Arriving(Next(s, Turn(h)))
  {
    InsideHolder(s, h);
    HolderArriving(s, Next(s, Turn(h)), h);
  }

  lemma TurnConserves(s: Sys, h: nat)
    requires Good(s) && Conserving(s.w) && Enabled(s, Turn(h)) && Shape(Next(s, Turn(h)))
    ensures Conserving(Next(s, Turn(h)).w)
  {
    InsideHolder(s, h);
    if LoopTurn(s.w.mems[h].pages[s.ops[h].p], h, s.ops[h].at).Done? {
      ResumeInvalidConserves(s.w, h, s.ops[h].p);
    }
  }

  lemma TurnConsistent(s: Sys, h: nat)
    requires Good(s) && Consistent(s) && Enabled(s, Turn(h))
    ensures Shape(Next(s, Turn(h))) && Consistent(Next(s, Turn(h)))
  {
    StepKeeps(s, Turn(h));
    TurnConserves(s, h);
    TurnArriving(s, h);
  }

  lemma ResumeConsistent(s: Sys, h: nat)
    requires Good(s) && Consistent(s) && Enabled(s, Resume(h))
    ensures Shape(Next(s, Resume(h))) && Consistent(Next(s, Resume(h)))
  {
    ResumeKeeps(s, h);
    InsideHolder(s, h);
    OnlyHolderWaits(s, h);
    ResumeMissConserves(s.w, h, s.ops[h].p);
    NoWholeArriving(Next(s, Resume(h)));
  }

  /** A store keeps every copy consistent if and only if it is safe. */
  lemma WriteConsistentIff(s: Sys, h: nat, p: nat, bytes: Page)
    requires Good(s) && Consistent(s) && Enabled(s, Write(h, p, bytes))
    ensures Shape(Next(s, Write(h, p, bytes)))
    ensures Consistent(Next(s, Write(h, p, bytes))) <==> SafeStore(s.w, h, p, bytes)
    ensures Conserving(Next(s, Write(h, p, bytes)).w) <==> SafeStore(s.w, h, p, bytes)
  {
    WriteKeeps(s, h, p, bytes);
    InsideHolder(s, h);
    OnlyHolderWaits(s, h);
    StoreSafeIff(s.w, h, p, bytes);
    NoWholeArriving(Next(s, Write(h, p, bytes)));
  }

  // ----- every step -----

  lemma ProtocolConsistent(s: Sys, a: Action)
    requires Good(s) && Consistent(s) && Enabled(s, a) && (a.Lock? || a.StartFetch?) && Shape(Next(s, a))
    ensures Consistent(Next(s, a))
  {
  }

  lemma QuietConsistent(s: Sys, a: Action)
    requires Good(s) && Consistent(s) && Enabled(s, a) && !a.Write? && Shape(Next(s, a))
    ensures Consistent(Next(s, a))
  {
    match a {
      case EnterOwn(h) => EnterOwnConsistent(s, h);
      case Serve(i) => ServeConsistent(s, i);
      case Receive(i) => ReceiveConsistent(s, i);
      case Fault(h, p) => FaultConsistent(s, h, p);
      case Turn(h) => TurnConsistent(s, h);
      case Resume(h) => ResumeConsistent(s, h);
      case Unlock(h) => UnlockConsistent(s, h);
      case _ => ProtocolConsistent(s, a);
    }
  }

  /** While the copies are consistent, a step keeps them so if and only if it is safe. */
  lemma StepConsistentIff(s: Sys, a: Action)
    requires Good(s) && Consistent(s) && Enabled(s, a)
    ensures Good(Next(s, a))
    ensures Consistent(Next(s, a)) <==> Safe(s, a)
    ensures Conserving(Next(s, a).w) <==> Safe(s, a)
  {
    StepKeeps(s, a);
    if a.Write? {
      WriteConsistentIff(s, a.h, a.p, a.bytes);
    } else {
      QuietConsistent(s, a);
    }
  }
}
