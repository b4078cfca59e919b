/**
 A run of the one-lock system with two hosts and one page that ends with a stale read. Its third critical
 section stores to a page that another host has fetched whole since the writer's open notice was made.
*/
module StaleSystem {
  import opened Options
  import opened Vectors
  import opened Diffs
  import opened HostMem
  import opened CriticalLog
  import opened World
  import opened QuietSteps
  import opened Receiving
  import opened Writing
  import opened System
  import opened StaleRun
  import FreshRuns
  import Guarantees
  import OneLock
  import L = Locks

  // ----- runs piece by piece -----

  /** These actions lead from one state to the other. */
  ghost predicate Leads(s: Sys, actions: seq<Action>, t: Sys) {
    Run(s, actions) && Exec(s, actions) == t
  }

  lemma OneStep(s: Sys, a: Action, t: Sys)
    requires Enabled(s, a) && Next(s, a) == t
    ensures Leads(s, [a], t)
  {
    assert [a][1..] == [];
    assert Run(t, []);
  }

  lemma Then(s: Sys, before: seq<Action>, t: Sys, after: seq<Action>, u: Sys)
    requires Leads(s, before, t) && Leads(t, after, u)
    ensures Leads(s, before + after, u)
  {
    RunAppend(s, before, after);
  }

  lemma TwoSteps(s: Sys, a: Action, t: Sys, b: Action, u: Sys)
    requires Enabled(s, a) && Next(s, a) == t && Enabled(t, b) && Next(t, b) == u
    ensures Leads(s, [a, b], u)
  {
    OneStep(s, a, t);
    OneStep(t, b, u);
    Then(s, [a], t, [b], u);
    assert [a] + [b] == [a, b];
  }

  lemma ThreeSteps(s: Sys, a: Action, t: Sys, b: Action, u: Sys, c: Action, v: Sys)
    requires Enabled(s, a) && Next(s, a) == t && Enabled(t, b) && Next(t, b) == u && Enabled(u, c) && Next(u, c) == v
    ensures Leads(s, [a, b, c], v)
  {
    TwoSteps(s, a, t, b, u);
    OneStep(u, c, v);
    Then(s, [a, b], u, [c], v);
    assert [a, b] + [c] == [a, b, c];
  }

  // ----- the lock -----

  /** Host 0 manages the lock; `past` are the hosts that have had it. */
  function LockState(rec: L.LockRec, p0: OneLock.Phase, p1: OneLock.Phase, up: seq<OneLock.Up>, down: seq<int>,
                     past: seq<int>, now: seq<int>, released: seq<int>): OneLock.State {
    OneLock.State(2, 0, rec, [p0, p1], [[], up], [[], down], past + now, past + now, released)
  }

  function Free(last: int, past: seq<int>): OneLock.State {
    LockState(L.LockRec(L.FREE, -1, last, []), OneLock.Out, OneLock.Out, [], [], past, [], past)
  }

  function Held0(p: OneLock.Phase, last: int, past: seq<int>): OneLock.State {
    LockState(L.LockRec(L.LOCKED, 0, last, []), p, OneLock.Out, [], [], past, [0], past)
  }

  function Held1(p: OneLock.Phase, last: int, past: seq<int>): OneLock.State {
    LockState(L.LockRec(L.LOCKED, 1, last, []), OneLock.Out, p, [], [], past, [1], past)
  }

  /** The system between operations. */
  function Quiet(lk: OneLock.State, w: World): Sys {
    Sys(lk, w, [Idle, Idle], [])
  }

  ghost predicate Ours(w: World) {
    Basic(w) && w.n == 2 && |w.cur| == 1
  }

  lemma Updates<T>(a: T, b: T, x: T)
    ensures [a, b][0 := x] == [x, b] && [a, b][1 := x] == [a, x]
  {
  }

  lemma NoHistory(past: seq<int>)
    ensures past + [] == past
  {
  }

  lemma GraspNext(last: int, past: seq<int>)
    ensures OneLock.Enabled(Free(last, past), OneLock.LocalGrasp)
    ensures last >= -1 ==>
              OneLock.Next(Free(last, past), OneLock.LocalGrasp) == Held0(OneLock.Woken(last, false), last, past)
  {
    NoHistory(past);
    Updates(OneLock.Out, OneLock.Out, OneLock.Woken(last, false));
  }

  lemma Acquire0(w: World, last: int, past: seq<int>)
    requires Ours(w) && last >= -1
    ensures Leads(Quiet(Free(last, past), w), [Lock(OneLock.LocalGrasp)],
                  Quiet(Held0(OneLock.Woken(last, false), last, past), w))
  {
    GraspNext(last, past);
    OneStep(Quiet(Free(last, past), w), Lock(OneLock.LocalGrasp),
            Quiet(Held0(OneLock.Woken(last, false), last, past), w));
  }

  function Asked1(last: int, past: seq<int>): OneLock.State {
    LockState(L.LockRec(L.FREE, -1, last, []), OneLock.Out, OneLock.Waiting, [OneLock.Acq], [], past, [], past)
  }

  function Granted1(last: int, past: seq<int>): OneLock.State {
    LockState(L.LockRec(L.LOCKED, 1, last, []), OneLock.Out, OneLock.Waiting, [], [last], past, [1], past)
  }

  lemma AskNext(last: int, past: seq<int>)
    ensures OneLock.Enabled(Free(last, past), OneLock.Request(1))
    ensures OneLock.Next(Free(last, past), OneLock.Request(1)) == Asked1(last, past)
  {
    Updates(OneLock.Out, OneLock.Out, OneLock.Waiting);
    var none: seq<OneLock.Up> := [];
    assert none + [OneLock.Acq] == [OneLock.Acq];
    Updates(none, none, [OneLock.Acq]);
  }

  lemma GrantNext(last: int, past: seq<int>)
    requires last >= -1
    ensures OneLock.Enabled(Asked1(last, past), OneLock.DeliverAcq(1))
    ensures OneLock.Next(Asked1(last, past), OneLock.DeliverAcq(1)) == Granted1(last, past)
  {
    NoHistory(past);
    var none: seq<OneLock.Up> := [];
    assert [OneLock.Acq][1..] == none;
    Updates(none, [OneLock.Acq], none);
    var nothing: seq<int> := [];
    assert nothing + [last] == [last];
    Updates(nothing, nothing, [last]);
  }

  lemma WakeNext(last: int, past: seq<int>)
    ensures OneLock.Enabled(Granted1(last, past), OneLock.DeliverGrant(1))
    ensures OneLock.Next(Granted1(last, past), OneLock.DeliverGrant(1)) == Held1(OneLock.Woken(last, false), last, past)
  {
    var nothing: seq<int> := [];
    assert [last][1..] == nothing;
    Updates(nothing, [last], nothing);
    Updates(OneLock.Out, OneLock.Waiting, OneLock.Woken(last, false));
  }

  function Acquiring1(): seq<Action> {
    [Lock(OneLock.Request(1)), Lock(OneLock.DeliverAcq(1)), Lock(OneLock.DeliverGrant(1))]
  }

  lemma Acquire1(w: World, last: int, past: seq<int>)
    requires Ours(w) && last >= -1
    ensures Leads(Quiet(Free(last, past), w), Acquiring1(), Quiet(Held1(OneLock.Woken(last, false), last, past), w))
  {
    AskNext(last, past);
    GrantNext(last, past);
    WakeNext(last, past);
    ThreeSteps(Quiet(Free(last, past), w), Lock(OneLock.Request(1)), Quiet(Asked1(last, past), w),
               Lock(OneLock.DeliverAcq(1)), Quiet(Granted1(last, past), w),
               Lock(OneLock.DeliverGrant(1)), Quiet(Held1(OneLock.Woken(last, false), last, past), w));
  }

  lemma FreeNext(last: int, past: seq<int>)
    ensures OneLock.Enabled(Held0(OneLock.Leaving, last, past), OneLock.LocalRelease)
    ensures OneLock.Next(Held0(OneLock.Leaving, last, past), OneLock.LocalRelease) == Free(0, past + [0])
  {
    NoHistory(past + [0]);
    Updates(OneLock.Leaving, OneLock.Out, OneLock.Out);
  }

  lemma Release0(w: World, last: int, past: seq<int>)
    requires Ours(w)
    ensures Leads(Quiet(Held0(OneLock.Leaving, last, past), w), [Lock(OneLock.LocalRelease)],
                  Quiet(Free(0, past + [0]), w))
  {
    FreeNext(last, past);
    OneStep(Quiet(Held0(OneLock.Leaving, last, past), w), Lock(OneLock.LocalRelease), Quiet(Free(0, past + [0]), w));
  }

  function Sent1(p: OneLock.Phase, last: int, past: seq<int>): OneLock.State {
    LockState(L.LockRec(L.LOCKED, 1, last, []), OneLock.Out, p, [OneLock.Rls], [], past, [1], past + [1])
  }

  lemma SendNext(last: int, past: seq<int>)
    ensures OneLock.Enabled(Held1(OneLock.Leaving, last, past), OneLock.RemoteRelease(1))
    ensures OneLock.Next(Held1(OneLock.Leaving, last, past), OneLock.RemoteRelease(1))
      == Sent1(OneLock.Clearing, last, past)
    ensures OneLock.Enabled(Sent1(OneLock.Clearing, last, past), OneLock.Clear(1))
    ensures OneLock.Next(Sent1(OneLock.Clearing, last, past), OneLock.Clear(1)) == Sent1(OneLock.Out, last, past)
  {
    Updates(OneLock.Out, OneLock.Leaving, OneLock.Clearing);
    Updates(OneLock.Out, OneLock.Clearing, OneLock.Out);
    var none: seq<OneLock.Up> := [];
    assert none + [OneLock.Rls] == [OneLock.Rls];
    Updates(none, none, [OneLock.Rls]);
  }

  lemma HandNext(last: int, past: seq<int>)
    ensures OneLock.Enabled(Sent1(OneLock.Out, last, past), OneLock.DeliverRls(1))
    ensures OneLock.Next(Sent1(OneLock.Out, last, past), OneLock.DeliverRls(1)) == Free(1, past + [1])
  {
    NoHistory(past + [1]);
    var none: seq<OneLock.Up> := [];
    assert [OneLock.Rls][1..] == none;
    Updates(none, [OneLock.Rls], none);
  }

  function Releasing1(): seq<Action> {
    [Lock(OneLock.RemoteRelease(1)), Lock(OneLock.Clear(1)), Lock(OneLock.DeliverRls(1))]
  }

  lemma Release1(w: World, last: int, past: seq<int>)
    requires Ours(w)
    ensures Leads(Quiet(Held1(OneLock.Leaving, last, past), w), Releasing1(), Quiet(Free(1, past + [1]), w))
  {
    SendNext(last, past);
    HandNext(last, past);
    ThreeSteps(Quiet(Held1(OneLock.Leaving, last, past), w), Lock(OneLock.RemoteRelease(1)),
               Quiet(Sent1(OneLock.Clearing, last, past), w), Lock(OneLock.Clear(1)),
               Quiet(Sent1(OneLock.Out, last, past), w), Lock(OneLock.DeliverRls(1)), Quiet(Free(1, past + [1]), w));
  }

  /** Who holds the lock, and how far along. */
  function Held(h: nat, p: OneLock.Phase, last: int, past: seq<int>): OneLock.State {
    if h == 0 then Held0(p, last, past) else Held1(p, last, past)
  }

  lemma HeldNext(h: nat, last: int, past: seq<int>)
    requires h < 2
    ensures OneLock.Enabled(Held(h, OneLock.Woken(last, false), last, past), OneLock.Enter(h))
    ensures OneLock.Next(Held(h, OneLock.Woken(last, false), last, past), OneLock.Enter(h))
      == Held(h, OneLock.Inside, last, past)
    ensures OneLock.Enabled(Held(h, OneLock.Inside, last, past), OneLock.Leave(h))
    ensures OneLock.Next(Held(h, OneLock.Inside, last, past), OneLock.Leave(h)) == Held(h, OneLock.Leaving, last, past)
  {
    Updates(OneLock.Woken(last, false), OneLock.Out, OneLock.Inside);
    Updates(OneLock.Out, OneLock.Woken(last, false), OneLock.Inside);
    Updates(OneLock.Inside, OneLock.Out, OneLock.Leaving);
    Updates(OneLock.Out, OneLock.Inside, OneLock.Leaving);
  }

  // ----- entering, faults, leaving -----

  function Entering(h: nat): seq<Action> {
    [StartFetch(h), Serve(0), Receive(0)]
  }

  /** One host waits; its message is on the wire. */
  function Waiting(lk: OneLock.State, w: World, h: nat, op: Op, e: Envelope): Sys {
    Sys(lk, w, [Idle, Idle][if h == 0 then 0 else 1 := op], [e])
  }

  lemma Taken(e: Envelope)
    ensures Without([e], 0) == []
  {
  }

  lemma Asks(lk: OneLock.State, w: World, h: nat, op: Op, to: nat, msg: Msg)
    requires h < 2
    ensures Send(Quiet(lk, w), h, op, to, msg) == Waiting(lk, w, h, op, Envelope(h, to, msg))
  {
    var none: seq<Envelope> := [];
    assert none + [Envelope(h, to, msg)] == [Envelope(h, to, msg)];
  }

  lemma Answers(lk: OneLock.State, w: World, h: nat, op: Op, e: Envelope, f: Envelope)
    requires Ours(w) && OneLock.Shape(lk) && lk.n == 2 && h < 2 && ServeReady(Waiting(lk, w, h, op, e), e)
    requires Answer(w, e) == (w, [f])
    ensures Enabled(Waiting(lk, w, h, op, e), Serve(0))
    ensures Next(Waiting(lk, w, h, op, e), Serve(0)) == Waiting(lk, w, h, op, f)
  {
    Taken(e);
    assert Without([e], 0) + [f] == [f];
  }

  lemma Ends(h: nat, op: Op)
    requires h < 2
    ensures [Idle, Idle][if h == 0 then 0 else 1 := op][h := Idle] == [Idle, Idle]
  {
  }

  /** A woken host fetches intervals from the host that held the lock before it, and enters. */
  lemma Enters(w: World, h: nat, g: nat, past: seq<int>)
    requires Ours(w) && h < 2 && g == 1 - h && AllWf(Grant(w, h, g).1, 2, 1)
    ensures Leads(Quiet(Held(h, OneLock.Woken(g, false), g, past), w), Entering(h),
                  Quiet(Held(h, OneLock.Inside, g, past), Enter(w, h, FetchedMem(w, h, g))))
  {
    var lk := Held(h, OneLock.Woken(g, false), g, past);
    var ask := Envelope(h, g, FetchIntervals(NowTs(w.mems[h])));
    var reply := Envelope(g, h, Intervals(Grant(w, h, g).0, Grant(w, h, g).1));
    var v := Quiet(Held(h, OneLock.Inside, g, past), Enter(w, h, FetchedMem(w, h, g)));
    HeldNext(h, g, past);
    Asks(lk, w, h, WaitIntervals, g, FetchIntervals(NowTs(w.mems[h])));
    Answers(lk, w, h, WaitIntervals, ask, reply);
    EntersLast(w, h, g, past, reply);
    ThreeSteps(Quiet(lk, w), StartFetch(h), Waiting(lk, w, h, WaitIntervals, ask), Serve(0),
               Waiting(lk, w, h, WaitIntervals, reply), Receive(0), v);
  }

  lemma EntersLast(w: World, h: nat, g: nat, past: seq<int>, reply: Envelope)
    requires Ours(w) && h < 2 && g == 1 - h && AllWf(Grant(w, h, g).1, 2, 1)
    requires reply == Envelope(g, h, Intervals(Grant(w, h, g).0, Grant(w, h, g).1))
    ensures var s := Waiting(Held(h, OneLock.Woken(g, false), g, past), w, h, WaitIntervals, reply);
            && Enabled(s, Receive(0))
            && Next(s, Receive(0)) == Quiet(Held(h, OneLock.Inside, g, past), Enter(w, h, FetchedMem(w, h, g)))
  {
    Taken(reply);
    Ends(h, WaitIntervals);
    HeldNext(h, g, past);
  }

  lemma Leaves(w: World, h: nat, last: int, past: seq<int>)
    requires Ours(w) && h < 2
    ensures Leads(Quiet(Held(h, OneLock.Inside, last, past), w), [Unlock(h)],
                  Quiet(Held(h, OneLock.Leaving, last, past), Leave(w, h)))
  {
    HeldNext(h, last, past);
    OneStep(Quiet(Held(h, OneLock.Inside, last, past), w), Unlock(h),
            Quiet(Held(h, OneLock.Leaving, last, past), Leave(w, h)));
  }

  function Fetching(h: nat): seq<Action> {
    [Fault(h, 0), Serve(0), Receive(0)] + [Resume(h)]
  }

  /** A fault on the missing page. */
  lemma Fetches(w: World, v: World, h: nat, last: int, past: seq<int>, bytes: Page)
    requires Ours(w) && h < 2 && w.log != [] && w.mems[h].pages[0].state == MISS
    requires FetchTarget(w.mems[h], 0) == 1 - h && GrantPage(w.mems[1 - h], 0) == Some(bytes)
    requires v == GotPage(w, h, 0, bytes) && Ours(v) && v.log != []
    ensures Leads(Quiet(Held(h, OneLock.Inside, last, past), w), Fetching(h),
                  Quiet(Held(h, OneLock.Inside, last, past), Resumed(v, h, 0)))
  {
    var lk, g := Held(h, OneLock.Inside, last, past), 1 - h;
    var ask, reply := Envelope(h, g, FetchWhole(0)), Envelope(g, h, Whole(0, bytes));
    var got := Sys(lk, v, [Idle, Idle][if h == 0 then 0 else 1 := GotWhole(0)], []);
    Asks(lk, w, h, WaitWhole(0), g, FetchWhole(0));
    Answers(lk, w, h, WaitWhole(0), ask, reply);
    Taken(reply);
    ThreeSteps(Quiet(lk, w), Fault(h, 0), Waiting(lk, w, h, WaitWhole(0), ask), Serve(0),
               Waiting(lk, w, h, WaitWhole(0), reply), Receive(0), got);
    Ends(h, GotWhole(0));
    OneStep(got, Resume(h), Quiet(lk, Resumed(v, h, 0)));
    Then(Quiet(lk, w), [Fault(h, 0), Serve(0), Receive(0)], got, [Resume(h)], Quiet(lk, Resumed(v, h, 0)));
  }

  // ----- the four critical sections -----

  function FirstBegins(): seq<Action> {
    [Lock(OneLock.LocalGrasp), EnterOwn(0), Fault(0, 0)]
  }

  function First(): seq<Action> {
    FirstBegins() + ([Unlock(0)] + [Lock(OneLock.LocalRelease)])
  }

  function Second(): seq<Action> {
    Acquiring1() + Entering(1) + Fetching(1) + [Unlock(1)] + Releasing1()
  }

  /** The third critical section up to its store. */
  function ThirdBegins(): seq<Action> {
    [Lock(OneLock.LocalGrasp)] + Entering(0)
  }

  function ThirdEnds(): seq<Action> {
    [Write(0, 0, OnePage())] + [Unlock(0)] + [Lock(OneLock.LocalRelease)]
  }

  function Fourth(): seq<Action> {
    Acquiring1() + Entering(1)
  }

  ghost function Begin(): Sys {
    Quiet(Free(-1, []), AtStart())
  }

  lemma FirstEnters()
    ensures var s := Quiet(Held0(OneLock.Woken(-1, false), -1, []), AtStart());
            Enabled(s, EnterOwn(0)) && Next(s, EnterOwn(0)) == Quiet(Held0(OneLock.Inside, -1, []), Entered0())
    ensures Ours(AtStart())
  {
    FirstCritical();
    HeldNext(0, -1, []);
  }

  lemma FirstFaults()
    ensures var s := Quiet(Held0(OneLock.Inside, -1, []), Entered0());
            Enabled(s, Fault(0, 0)) && Next(s, Fault(0, 0)) == Quiet(Held0(OneLock.Inside, -1, []), Written0())
  {
    FirstWrite();
  }

  lemma FirstWrites()
    ensures Leads(Begin(), FirstBegins(), Quiet(Held0(OneLock.Inside, -1, []), Written0()))
  {
    FirstEnters();
    FirstFaults();
    GraspNext(-1, []);
    ThreeSteps(Begin(), Lock(OneLock.LocalGrasp), Quiet(Held0(OneLock.Woken(-1, false), -1, []), AtStart()),
               EnterOwn(0), Quiet(Held0(OneLock.Inside, -1, []), Entered0()),
               Fault(0, 0), Quiet(Held0(OneLock.Inside, -1, []), Written0()));
  }

  lemma FirstEnds()
    ensures Leads(Quiet(Held0(OneLock.Inside, -1, []), Written0()), [Unlock(0)] + [Lock(OneLock.LocalRelease)],
                  Quiet(Free(0, [0]), Left0()))
  {
    FirstLeave();
    Leaves(Written0(), 0, -1, []);
    FirstBasic();
    Release0(Left0(), -1, []);
    assert [] + [0] == [0];
    Then(Quiet(Held0(OneLock.Inside, -1, []), Written0()), [Unlock(0)], Quiet(Held0(OneLock.Leaving, -1, []), Left0()),
         [Lock(OneLock.LocalRelease)], Quiet(Free(0, [0]), Left0()));
  }

  lemma FirstRun()
    ensures Leads(Begin(), First(), Quiet(Free(0, [0]), Left0()))
  {
    FirstWrites();
    FirstEnds();
    Then(Begin(), FirstBegins(), Quiet(Held0(OneLock.Inside, -1, []), Written0()),
         [Unlock(0)] + [Lock(OneLock.LocalRelease)], Quiet(Free(0, [0]), Left0()));
  }

  lemma FirstBasic()
    ensures Ours(Left0())
  {
    SecondCritical();
  }

  lemma SecondBegins()
    ensures Leads(Quiet(Free(0, [0]), Left0()), Acquiring1() + Entering(1),
                  Quiet(Held1(OneLock.Inside, 0, [0]), Entered1()))
  {
    SecondCritical();
    Acquire1(Left0(), 0, [0]);
    Enters(Left0(), 1, 0, [0]);
    Then(Quiet(Free(0, [0]), Left0()), Acquiring1(), Quiet(Held1(OneLock.Woken(0, false), 0, [0]), Left0()),
         Entering(1),
         Quiet(Held1(OneLock.Inside, 0, [0]), Entered1()));
  }

  lemma SecondReads()
    ensures Leads(Quiet(Held1(OneLock.Inside, 0, [0]), Entered1()), Fetching(1),
                  Quiet(Held1(OneLock.Inside, 0, [0]), Got1(RDONLY)))
  {
    SecondFetch();
    SecondResume();
    Fetches(Entered1(), Got1(MISS), 1, 0, [0], ZeroPage());
  }

  lemma SecondLeaves()
    ensures Leads(Quiet(Held1(OneLock.Inside, 0, [0]), Got1(RDONLY)), [Unlock(1)],
                  Quiet(Held1(OneLock.Leaving, 0, [0]), Left1()))
  {
    SecondLeave();
    Leaves(Got1(RDONLY), 1, 0, [0]);
  }

  lemma SecondReleases()
    ensures Leads(Quiet(Held1(OneLock.Leaving, 0, [0]), Left1()), Releasing1(), Quiet(Free(1, [0, 1]), Left1()))
  {
    ThirdGrant();
    Release1(Left1(), 0, [0]);
    assert [0] + [1] == [0, 1];
  }

  lemma SecondEnds()
    ensures Leads(Quiet(Held1(OneLock.Inside, 0, [0]), Got1(RDONLY)), [Unlock(1)] + Releasing1(),
                  Quiet(Free(1, [0, 1]), Left1()))
  {
    SecondLeaves();
    SecondReleases();
    Then(Quiet(Held1(OneLock.Inside, 0, [0]), Got1(RDONLY)), [Unlock(1)],
         Quiet(Held1(OneLock.Leaving, 0, [0]), Left1()),
         Releasing1(), Quiet(Free(1, [0, 1]), Left1()));
  }

  lemma SecondRun()
    ensures Leads(Quiet(Free(0, [0]), Left0()), Second(), Quiet(Free(1, [0, 1]), Left1()))
  {
    SecondBegins();
    SecondReads();
    SecondEnds();
    var s, t, u, v := Quiet(Free(0, [0]), Left0()), Quiet(Held1(OneLock.Inside, 0, [0]), Entered1()),
                      Quiet(Held1(OneLock.Inside, 0, [0]), Got1(RDONLY)), Quiet(Free(1, [0, 1]), Left1());
    Then(s, Acquiring1() + Entering(1), t, Fetching(1), u);
    Then(s, Acquiring1() + Entering(1) + Fetching(1), u, [Unlock(1)] + Releasing1(), v);
    assert Acquiring1() + Entering(1) + Fetching(1) + ([Unlock(1)] + Releasing1()) == Second();
  }

  lemma ThirdRun()
    ensures Leads(Quiet(Free(1, [0, 1]), Left1()), ThirdBegins(),
                  Quiet(Held0(OneLock.Inside, 1, [0, 1]), Again0(ZeroPage())))
  {
    ThirdCritical();
    Acquire0(Left1(), 1, [0, 1]);
    Enters(Left1(), 0, 1, [0, 1]);
    Then(Quiet(Free(1, [0, 1]), Left1()), [Lock(OneLock.LocalGrasp)],
         Quiet(Held0(OneLock.Woken(1, false), 1, [0, 1]), Left1()),
         Entering(0), Quiet(Held0(OneLock.Inside, 1, [0, 1]), Again0(ZeroPage())));
  }

  lemma ThirdStores()
    ensures Leads(Quiet(Held0(OneLock.Inside, 1, [0, 1]), Again0(ZeroPage())), [Write(0, 0, OnePage())],
                  Quiet(Held0(OneLock.Inside, 1, [0, 1]), Again0(OnePage())))
  {
    ThirdWrite();
    OneStep(Quiet(Held0(OneLock.Inside, 1, [0, 1]), Again0(ZeroPage())), Write(0, 0, OnePage()),
            Quiet(Held0(OneLock.Inside, 1, [0, 1]), Again0(OnePage())));
  }

  lemma ThirdFinish()
    ensures Leads(Quiet(Held0(OneLock.Inside, 1, [0, 1]), Again0(ZeroPage())), ThirdEnds(),
                  Quiet(Free(0, [0, 1, 0]), AgainLeft0()))
  {
    ThirdStores();
    ThirdLeave();
    FourthGrant();
    var s, t, u := Quiet(Held0(OneLock.Inside, 1, [0, 1]), Again0(ZeroPage())),
                   Quiet(Held0(OneLock.Inside, 1, [0, 1]), Again0(OnePage())),
                   Quiet(Held0(OneLock.Leaving, 1, [0, 1]), AgainLeft0());
    Leaves(Again0(OnePage()), 0, 1, [0, 1]);
    Release0(AgainLeft0(), 1, [0, 1]);
    assert [0, 1] + [0] == [0, 1, 0];
    Then(s, [Write(0, 0, OnePage())], t, [Unlock(0)], u);
    Then(s, [Write(0, 0, OnePage())] + [Unlock(0)], u, [Lock(OneLock.LocalRelease)],
         Quiet(Free(0, [0, 1, 0]), AgainLeft0()));
  }

  lemma FourthRun()
    ensures Leads(Quiet(Free(0, [0, 1, 0]), AgainLeft0()), Fourth(),
                  Quiet(Held1(OneLock.Inside, 0, [0, 1, 0]), Stale()))
  {
    FourthCritical();
    Acquire1(AgainLeft0(), 0, [0, 1, 0]);
    Enters(AgainLeft0(), 1, 0, [0, 1, 0]);
    Then(Quiet(Free(0, [0, 1, 0]), AgainLeft0()), Acquiring1(),
         Quiet(Held1(OneLock.Woken(0, false), 0, [0, 1, 0]), AgainLeft0()),
         Entering(1), Quiet(Held1(OneLock.Inside, 0, [0, 1, 0]), Stale()));
  }

  // ----- the whole run -----

  function BeforeStore(): seq<Action> {
    First() + Second() + ThirdBegins()
  }

  function Actions(): seq<Action> {
    BeforeStore() + ThirdEnds() + Fourth()
  }

  lemma ToStore()
    ensures Leads(Begin(), BeforeStore(), Quiet(Held0(OneLock.Inside, 1, [0, 1]), Again0(ZeroPage())))
  {
    FirstRun();
    SecondRun();
    ThirdRun();
    Then(Begin(), First(), Quiet(Free(0, [0]), Left0()), Second(), Quiet(Free(1, [0, 1]), Left1()));
    Then(Begin(), First() + Second(), Quiet(Free(1, [0, 1]), Left1()), ThirdBegins(),
         Quiet(Held0(OneLock.Inside, 1, [0, 1]), Again0(ZeroPage())));
  }

  lemma ToEnd()
    ensures Leads(Begin(), Actions(), Quiet(Held1(OneLock.Inside, 0, [0, 1, 0]), Stale()))
  {
    ToStore();
    ThirdFinish();
    FourthRun();
    var t, u := Quiet(Held0(OneLock.Inside, 1, [0, 1]), Again0(ZeroPage())), Quiet(Free(0, [0, 1, 0]), AgainLeft0());
    Then(Begin(), BeforeStore(), t, ThirdEnds(), u);
    Then(Begin(), BeforeStore() + ThirdEnds(), u, Fourth(), Quiet(Held1(OneLock.Inside, 0, [0, 1, 0]), Stale()));
  }

  lemma Begins()
    ensures Init(Begin())
  {
    assert Begin().ops == seq(2, _ => Idle);
    forall h | 0 <= h < 2
      ensures InitialMem(AtStart().mems[h], h, 2)
    {
      assert Zero(2) == [0, 0];
    }
  }

  /** After these actions this store can be made, and is not safe. */
  ghost predicate UnsafeNext(s: Sys, actions: seq<Action>, h: nat, p: nat, bytes: Page) {
    && Init(s) && Run(s, actions) && Enabled(Exec(s, actions), Write(h, p, bytes))
    && !SafeStore(Exec(s, actions).w, h, p, bytes)
  }

  /** The store of the third critical section is not safe. */
  lemma StoreIsUnsafe()
    ensures UnsafeNext(Begin(), BeforeStore(), 0, 0, OnePage())
  {
    Begins();
    ToStore();
    ThirdWrite();
    ThirdStoreUnsafe();
    ReachesUnsafe(Begin(), BeforeStore(), Quiet(Held0(OneLock.Inside, 1, [0, 1]), Again0(ZeroPage())));
  }

  lemma ReachesUnsafe(s: Sys, actions: seq<Action>, t: Sys)
    requires Init(s) && Leads(s, actions, t) && t == Quiet(Held0(OneLock.Inside, 1, [0, 1]), Again0(ZeroPage()))
    requires Ours(t.w) && t.w.mems[0].pages[0].state == WRITE && !SafeStore(t.w, 0, 0, OnePage())
    ensures UnsafeNext(s, actions, 0, 0, OnePage())
  {
  }

  /**
   After this run host `h`, in its critical section, can read the page and reads bytes that are not the last
   written.
  */
  ghost predicate ReadsStale(s: Sys, actions: seq<Action>, h: nat, p: nat) {
    && Init(s) && Run(s, actions) && Shape(Exec(s, actions)) && h < Exec(s, actions).w.n && p < |Exec(s, actions).w.cur|
    && Exec(s, actions).lk.phase[h] == OneLock.Inside && Exec(s, actions).w.mems[h].pages[p].state == RDONLY
    && Exec(s, actions).w.mems[h].pages[p].bytes != FreshRuns.LastWritten(actions, p)
  }

  /** No such run is safe, or disciplined. */
  lemma StaleIsUnsafe(s: Sys, actions: seq<Action>, h: nat, p: nat)
    requires ReadsStale(s, actions, h, p)
    ensures !FreshRuns.SafeRun(s, actions) && !FreshRuns.DisciplinedRun(s, actions)
  {
    SizesStay(s, actions);
    if FreshRuns.SafeRun(s, actions) {
      FreshRuns.Freshness(s, actions, h, p);
    }
    if FreshRuns.DisciplinedRun(s, actions) {
      FreshRuns.DisciplinedFreshness(s, actions, h, p);
    }
  }

  lemma SizesStay(s: Sys, actions: seq<Action>)
    requires Init(s) && Run(s, actions)
    ensures Exec(s, actions).w.n == s.w.n && |Exec(s, actions).w.cur| == |s.w.cur|
  {
    Guarantees.Reached(s, actions);
  }

  /** The run ends with a stale read on host 1. */
  lemma UnsafeRunIsStale()
    ensures ReadsStale(Begin(), Actions(), 1, 0)
  {
    Begins();
    ToEnd();
    EndsStale(Begin(), Actions());
  }

  lemma EndsStale(s: Sys, actions: seq<Action>)
    requires Init(s) && |s.w.cur| == 1 && Leads(s, actions, Quiet(Held1(OneLock.Inside, 0, [0, 1, 0]), Stale()))
    ensures ReadsStale(s, actions, 1, 0)
  {
    FreshRuns.CurrentIsLastWritten(s, actions, 0);
    assert ZeroPage()[0] != OnePage()[0];
    assert Shape(Exec(s, actions)) by { Guarantees.Reached(s, actions); }
  }
}
