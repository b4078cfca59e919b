/**
 Waiting ends: a host inside `mi_lock` or a fault gets on by handlers and turns of its own loops,
 each of which leaves less work, and nothing else can happen to its operation in between.
 */
module WaitsEnd {
  import opened Options
  import opened Vectors
  import opened Diffs
  import opened HostMem
  import opened CriticalLog
  import opened DiffFetching
  import opened World
  import opened QuietSteps
  import opened Receiving
  import opened Writing
  import opened System
  import opened Coherence
  import opened CoherentSteps
  import opened Guarantees
  import OneLock

  /** How many more turns the loops of `fetchDiff` can make from here on. */
  function TurnsLeft(notices: seq<seq<Notice>>, c: Cursor): nat
    decreases |notices| - c.host
  {
    if c.host >= |notices| then 0
    else
      (if c.pos < |notices[c.host]| then |notices[c.host]| - c.pos else 0) + 1
        + TurnsLeft(notices, Cursor(c.host + 1, 0))
  }

  /** One while the request is in flight, none once the reply is. */
  function Asked(wire: seq<Envelope>): nat {
    if wire != [] && IsRequest(wire[0].msg) then 1 else 0
  }

  /** What is left to do for host `h`'s operation: handlers to run, and turns that may each ask for a diff. */
  ghost function Work(s: Sys, h: nat): nat
    requires Shape(s) && h < s.w.n
  {
    match s.ops[h]
    case Idle => 0
    case WaitIntervals => 1 + Asked(s.wire)
    case WaitWhole(_) => 2 + Asked(s.wire)
    case GotWhole(_) => 1
    case Looping(p, c) => if p < |s.w.cur| then 3 * TurnsLeft(s.w.mems[h].pages[p].notices, c) + 2 else 0
    case WaitOne(p, c) => if p < |s.w.cur| then 3 * TurnsLeft(s.w.mems[h].pages[p].notices, c) + Asked(s.wire) else 0
  }

  /** A handler of a memory message, or a step of the waiting host itself. */
  predicate Working(a: Action) {
    a.Serve? || a.Receive? || a.Turn? || a.Resume?
  }

  lemma {:induction false} SameTurns(a: seq<seq<Notice>>, b: seq<seq<Notice>>, c: Cursor)
    requires |a| == |b| && forall j :: 0 <= j < |a| ==> |a[j]| == |b[j]|
    ensures TurnsLeft(a, c) == TurnsLeft(b, c)
    decreases |a| - c.host
  {
    if c.host < |a| {
      SameTurns(a, b, Cursor(c.host + 1, 0));
    }
  }

  // ----- one step -----

  predicate FaultOp(op: Op) {
    op.WaitWhole? || op.GotWhole? || op.Looping? || op.WaitOne?
  }

  /** The operation goes on at the same page, or has ended: the host is inside, or its page readable. */
  ghost predicate Continues(s: Sys, t: Sys, h: nat)
    requires Shape(s) && Shape(t) && h < s.w.n && t.w.n == s.w.n
  {
    match s.ops[h]
    case Idle => true
    case WaitIntervals => t.ops[h] == WaitIntervals || (t.ops[h] == Idle && t.lk.phase[h] == OneLock.Inside)
    case _ =>
      || (FaultOp(t.ops[h]) && t.ops[h].p == s.ops[h].p)
      || (t.ops[h] == Idle && s.ops[h].p < |t.w.cur| && t.w.mems[h].pages[s.ops[h].p].state == RDONLY)
  }

  /** Less is left to do for host `h`'s operation, and it goes on or has ended well. */
  ghost predicate Progressed(s: Sys, t: Sys, h: nat)
    requires Shape(s) && h < s.w.n
  {
    Good(t) && t.w.n == s.w.n && Work(t, h) < Work(s, h) && Continues(s, t, h)
  }

  lemma ServeWork(s: Sys, i: nat, h: nat)
    requires Good(s) && Enabled(s, Serve(i)) && h < s.w.n && s.ops[h] != Idle
    ensures Progressed(s, Next(s, Serve(i)), h)
  {
    var t := Next(s, Serve(i));
    CoherentSteps.ServeKeeps(s, i);
    var g := WireHolder(s, i);
    OneHolder(s.lk, g);
    RequestAnswered(s, h);
    assert t.ops == s.ops && Asked(t.wire) == 0 && Asked(s.wire) == 1;
    ServeTurns(s, i, h);
  }

  lemma ServeTurns(s: Sys, i: nat, h: nat)
    requires Good(s) && Enabled(s, Serve(i)) && h < s.w.n && i == 0 && |s.wire| == 1
    ensures Next(s, Serve(i)).w.n == s.w.n && |Next(s, Serve(i)).w.cur| == |s.w.cur|
    ensures forall p, c :: 0 <= p < |s.w.cur| && Shape(Next(s, Serve(i))) ==>
              TurnsLeft(Next(s, Serve(i)).w.mems[h].pages[p].notices, c) == TurnsLeft(s.w.mems[h].pages[p].notices, c)
  {
    AnswerTurns(s.w, s.wire[0], h);
    forall p, c | 0 <= p < |s.w.cur| && Shape(Next(s, Serve(i)))
      ensures TurnsLeft(Next(s, Serve(i)).w.mems[h].pages[p].notices, c) == TurnsLeft(s.w.mems[h].pages[p].notices, c)
    {
      assert MemBasic(s.w, h);
      SameTurns(s.w.mems[h].pages[p].notices, Next(s, Serve(i)).w.mems[h].pages[p].notices, c);
    }
  }

  /** Answering a request changes no list's length. */
  lemma AnswerTurns(w: World, e: Envelope, h: nat)
    requires Basic(w) && IsRequest(e.msg) && e.to < w.n && (!e.msg.FetchIntervals? ==> e.msg.p < |w.cur|) && h < w.n
    ensures var v := Answer(w, e).0;
            && v.n == w.n && |v.mems| == |w.mems| && |v.mems[h].pages| == |w.mems[h].pages| && v.cur == w.cur
            && forall p, j :: 0 <= p < |w.cur| && 0 <= j < w.n ==>
                 |v.mems[h].pages[p].notices| == w.n &&
                   |v.mems[h].pages[p].notices[j]| == |w.mems[h].pages[p].notices[j]|
  {
    assert MemBasic(w, h);
  }

  lemma ReceiveIntervalsWork(s: Sys, i: nat, h: nat)
    requires Good(s) && Enabled(s, Receive(i)) && h < s.w.n && s.ops[h] == WaitIntervals
    requires i == 0 && |s.wire| == 1 && OpOk(s, h)
    ensures Progressed(s, Next(s, Receive(i)), h)
  {
    var m := ReceiveIntervalsEnters(s, i, h);
    EnterGood(s, h, m);
  }

  lemma ReceiveWholeWork(s: Sys, i: nat, h: nat)
    requires Good(s) && Enabled(s, Receive(i)) && h < s.w.n && OneLock.Holds(s.lk.phase[h]) && s.ops[h].WaitWhole?
    requires i == 0 && |s.wire| == 1 && OpOk(s, h)
    ensures Progressed(s, Next(s, Receive(i)), h)
  {
    var bytes := ReceiveWholeNext(s, i, h);
    GotWholeGood(s, h, bytes);
  }

  lemma GotDiffTurns(w: World, h: nat, j: nat, ts: Vec, p: nat, d: Page, c: Cursor)
    requires Basic(w) && h < w.n && p < |w.cur| && j < w.n
    ensures TurnsLeft(HandleGrantDiffEntry(w.mems[h].pages[p], j, ts, d).notices, c)
      == TurnsLeft(w.mems[h].pages[p].notices, c)
  {
    assert MemBasic(w, h);
    SameTurns(w.mems[h].pages[p].notices, HandleGrantDiffEntry(w.mems[h].pages[p], j, ts, d).notices, c);
  }

  lemma ReceiveOneWork(s: Sys, i: nat, h: nat)
    requires Good(s) && Enabled(s, Receive(i)) && h < s.w.n && OneLock.Holds(s.lk.phase[h]) && s.ops[h].WaitOne?
    requires i == 0 && |s.wire| == 1 && OpOk(s, h)
    ensures Progressed(s, Next(s, Receive(i)), h)
  {
    ReceiveOneKeeps(s, i, h);
    var d := ReceiveOneNext(s, i, h);
    GotOneProgress(s, Next(s, Receive(i)), h, d);
  }

  lemma GotOneProgress(s: Sys, t: Sys, h: nat, d: Page)
    requires Shape(s) && h < s.w.n && s.ops[h].WaitOne? && OpOk(s, h) && Good(t)
    requires var p, c := s.ops[h].p, s.ops[h].at;
             && t.w == GotDiff(s.w, h, c.host, s.w.mems[h].pages[p].notices[c.host][c.pos].ts, p, d)
             && t.ops == s.ops[h := Looping(p, Cursor(c.host, c.pos + 1))]
    ensures Progressed(s, t, h)
  {
    var p, c := s.ops[h].p, s.ops[h].at;
    GotDiffTurns(s.w, h, c.host, s.w.mems[h].pages[p].notices[c.host][c.pos].ts, p, d, Cursor(c.host, c.pos + 1));
    TurnCounts(s.w.mems[h].pages[p], h, c);
  }

  lemma ReceiveWork(s: Sys, i: nat, h: nat)
    requires Good(s) && Enabled(s, Receive(i)) && h < s.w.n && s.ops[h] != Idle
    ensures Progressed(s, Next(s, Receive(i)), h)
  {
    var g := WireHolder(s, i);
    OneHolder(s.lk, g);
    match s.ops[h] {
      case WaitIntervals => ReceiveIntervalsWork(s, i, h);
      case WaitWhole(_) => ReceiveWholeWork(s, i, h);
      case WaitOne(_, _) => ReceiveOneWork(s, i, h);
      case _ =>
    }
  }

  /** Every turn of the loops, and every diff asked for, leaves one turn less. */
  lemma TurnCounts(e: PageEntry, me: nat, c: Cursor)
    ensures LoopTurn(e, me, c).Skip? ==> TurnsLeft(e.notices, LoopTurn(e, me, c).next) < TurnsLeft(e.notices, c)
    ensures LoopTurn(e, me, c).Ask? ==> TurnsLeft(e.notices, Cursor(c.host, c.pos + 1)) == TurnsLeft(e.notices, c) - 1
  {
  }

  lemma TurnWork(s: Sys, h: nat)
    requires Good(s) && Enabled(s, Turn(h)) && s.ops[h] != Idle
    ensures Progressed(s, Next(s, Turn(h)), h)
  {
    StepKeeps(s, Turn(h));
    InsideHolder(s, h);
    TurnCounts(s.w.mems[h].pages[s.ops[h].p], h, s.ops[h].at);
    TurnProgress(s, Next(s, Turn(h)), h);
  }

  lemma TurnProgress(s: Sys, t: Sys, h: nat)
    requires Shape(s) && Enabled(s, Turn(h)) && t == Next(s, Turn(h)) && Good(t)
    requires var e, c := s.w.mems[h].pages[s.ops[h].p], s.ops[h].at;
             && (LoopTurn(e, h, c).Skip? ==> TurnsLeft(e.notices, LoopTurn(e, h, c).next) < TurnsLeft(e.notices, c))
             && (LoopTurn(e, h, c).Ask? ==> 0 < TurnsLeft(e.notices, c))
    ensures Progressed(s, t, h)
  {
  }

  lemma ResumeWork(s: Sys, h: nat)
    requires Good(s) && Enabled(s, Resume(h)) && s.ops[h] != Idle
    ensures Progressed(s, Next(s, Resume(h)), h)
  {
    ResumeKeeps(s, h);
    InsideHolder(s, h);
  }

  /** While a host waits, no step but the lock protocol's can happen that is not work for it. */
  lemma OthersWait(s: Sys, a: Action, h: nat)
    requires Good(s) && Enabled(s, a) && h < s.w.n && s.ops[h] != Idle
    ensures Working(a) || a.Lock?
    ensures a.Turn? || a.Resume? ==> a.h == h
  {
    OneHolder(s.lk, h);
    assert OpOk(s, h);
  }

  lemma LockWork(s: Sys, a: Action, h: nat)
    requires Good(s) && Enabled(s, a) && a.Lock? && h < s.w.n && s.ops[h] != Idle
    ensures Good(Next(s, a)) && Next(s, a).w.n == s.w.n && Work(Next(s, a), h) == Work(s, h)
    ensures Continues(s, Next(s, a), h)
  {
    StepKeeps(s, a);
  }

  /** Every working step leaves less to do for the host that waits. */
  lemma WorkingStep(s: Sys, a: Action, h: nat)
    requires Good(s) && Enabled(s, a) && h < s.w.n && s.ops[h] != Idle && Working(a)
    ensures Progressed(s, Next(s, a), h)
  {
    OthersWait(s, a, h);
    match a {
      case Serve(i) => ServeWork(s, i, h);
      case Receive(i) => ReceiveWork(s, i, h);
      case Turn(_) => TurnWork(s, h);
      case Resume(_) => ResumeWork(s, h);
      case _ =>
    }
  }

  // ----- runs -----

  function Workings(actions: seq<Action>): nat {
    if actions == [] then 0 else (if Working(actions[0]) then 1 else 0) + Workings(actions[1..])
  }

  /** Host `h` waits all along the run. */
  ghost predicate Waits(s: Sys, actions: seq<Action>, h: nat)
    requires Run(s, actions)
    decreases |actions|
  {
    h < |s.ops| && s.ops[h] != Idle && (actions != [] ==> Waits(Next(s, actions[0]), actions[1..], h))
  }

  lemma {:induction false} WaitBoundedFrom(s: Sys, actions: seq<Action>, h: nat)
    requires Good(s) && Run(s, actions) && h < s.w.n && Waits(s, actions, h)
    ensures Workings(actions) <= Work(s, h)
    decreases |actions|
  {
    if actions != [] {
      OthersWait(s, actions[0], h);
      if Working(actions[0]) {
        WorkingStep(s, actions[0], h);
      } else {
        LockWork(s, actions[0], h);
      }
      WaitBoundedFrom(Next(s, actions[0]), actions[1..], h);
    }
  }

  /** However a run goes on, a host that waits sees no more working steps than it has work left. */
  lemma WaitBounded(s: Sys, before: seq<Action>, after: seq<Action>, h: nat)
    requires Init(s) && Run(s, before) && Run(Exec(s, before), after) && h < s.w.n && Waits(Exec(s, before), after, h)
    ensures Shape(Exec(s, before)) && Exec(s, before).w.n == s.w.n
    ensures Workings(after) <= Work(Exec(s, before), h)
  {
    Reached(s, before);
    WaitBoundedFrom(Exec(s, before), after, h);
  }

  /** The step that a waiting host's operation can take next. */
  lemma NextWork(s: Sys, h: nat) returns (a: Action)
    requires Good(s) && h < s.w.n && s.ops[h] != Idle
    ensures Enabled(s, a) && Working(a)
  {
    OperationGoesOn(s, h);
    a := if Enabled(s, Turn(h)) then Turn(h)
         else if Enabled(s, Resume(h)) then Resume(h)
         else if Enabled(s, Serve(0)) then Serve(0)
         else Receive(0);
  }

  lemma ContinuesTrans(s: Sys, t: Sys, u: Sys, h: nat)
    requires Shape(s) && Shape(t) && Shape(u) && h < s.w.n && t.w.n == s.w.n && u.w.n == s.w.n
    requires Continues(s, t, h) && t.ops[h] != Idle && Continues(t, u, h)
    ensures Continues(s, u, h)
  {
  }

  /** These steps, all handlers and turns, take host `h`'s operation to its end. */
  ghost predicate Finishes(s: Sys, actions: seq<Action>, h: nat)
    requires Shape(s) && h < s.w.n
  {
    && Run(s, actions) && (forall i :: 0 <= i < |actions| ==> Working(actions[i]))
    && Shape(Exec(s, actions)) && Exec(s, actions).w.n == s.w.n
    && Exec(s, actions).ops[h] == Idle && Continues(s, Exec(s, actions), h)
  }

  lemma FinishesFirst(s: Sys, a: Action, rest: seq<Action>, h: nat)
    requires Shape(s) && h < s.w.n && s.ops[h] != Idle && Enabled(s, a) && Working(a)
    requires Shape(Next(s, a)) && Next(s, a).w.n == s.w.n && Continues(s, Next(s, a), h)
    requires if Next(s, a).ops[h] == Idle then rest == [] else Finishes(Next(s, a), rest, h)
    ensures Finishes(s, [a] + rest, h)
  {
    var t := Next(s, a);
    assert ([a] + rest)[1..] == rest;
    if t.ops[h] != Idle {
      ContinuesTrans(s, t, Exec(t, rest), h);
    }
  }

  lemma {:induction false} WaitEndsFrom(s: Sys, h: nat) returns (actions: seq<Action>)
    requires Good(s) && h < s.w.n && s.ops[h] != Idle
    ensures |actions| <= Work(s, h) && Finishes(s, actions, h)
    decreases Work(s, h)
  {
    var a := NextWork(s, h);
    WorkingStep(s, a, h);
    var rest := [];
    if Next(s, a).ops[h] != Idle {
      rest := WaitEndsFrom(Next(s, a), h);
    }
    FinishesFirst(s, a, rest, h);
    actions := [a] + rest;
  }

  /**
   Wherever a run has got to, a host that waits can be served to the end by handlers and turns alone,
   in no more steps than it has work left: it is then in its critical section, or its page is readable.
  */
  lemma WaitEnds(s: Sys, before: seq<Action>, h: nat) returns (actions: seq<Action>)
    requires Init(s) && Run(s, before) && h < |Exec(s, before).ops| && Exec(s, before).ops[h] != Idle
    ensures var t := Exec(s, before);
            && Shape(t) && t.w.n == s.w.n && h < t.w.n && Run(t, actions)
            && |actions| <= Work(t, h) && (forall i :: 0 <= i < |actions| ==> Working(actions[i]))
            && var u := Exec(t, actions);
               && Shape(u) && u.w.n == s.w.n && u.ops[h] == Idle
               && (if t.ops[h] == WaitIntervals then u.lk.phase[h] == OneLock.Inside
                   else t.ops[h].p < |u.w.cur| && u.w.mems[h].pages[t.ops[h].p].state == RDONLY)
  {
    Reached(s, before);
    actions := WaitEndsFrom(Exec(s, before), h);
  }
}
