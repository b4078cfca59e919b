/**
 The whole one-lock system as a state machine: the lock protocol, every host's memory, and the
 requests and replies by which a host that holds the lock obtains intervals, pages and diffs.
 Each action is one message handler, one fault, one turn of `fetchDiff`'s loops, one store, or one
 piece of `mi_lock`/`mi_unlock`. Memory messages are delivered in any order.
 */
module System {
  import opened Options
  import opened Vectors
  import opened Diffs
  import opened HostMem
  import opened CriticalLog
  import opened DiffFetching
  import opened World
  import opened QuietSteps
  import opened Receiving
  import opened Writing
  import OneLock

  datatype Msg =
    | FetchIntervals(ts: Vec)
    | Intervals(ts: Vec, packets: seq<Packet>)
    | FetchWhole(p: nat)
    | Whole(p: nat, bytes: Page)
    | FetchOne(p: nat, ts: Vec)
    | One(p: nat, ts: Vec, diff: Page)

  datatype Envelope = Envelope(from: nat, to: nat, msg: Msg)

  /** What a host's application thread is doing: nothing, or waiting inside `mi_lock` or a fault. */
  datatype Op =
    | Idle
    | WaitIntervals
    | WaitWhole(p: nat)
    | GotWhole(p: nat)
    | Looping(p: nat, at: Cursor)
    | WaitOne(p: nat, at: Cursor)

  datatype Sys = Sys(lk: OneLock.State, w: World, ops: seq<Op>, wire: seq<Envelope>)

  datatype Action =
    | Lock(a: OneLock.Action)
    | StartFetch(h: nat)             // a woken host asks the last holder for intervals
    | EnterOwn(h: nat)               // a woken host needs no intervals: mi_lock returns
    | Serve(i: nat)                  // the handler of a request
    | Receive(i: nat)                // the handler of a reply
    | Fault(h: nat, p: nat)          // segv_handler
    | Turn(h: nat)                   // one turn of fetchDiff's loops
    | Resume(h: nat)                 // segv_handler after fetchPage
    | Write(h: nat, p: nat, bytes: Page)
    | Unlock(h: nat)                 // mi_unlock up to its new interval

  ghost predicate Shape(s: Sys) {
    OneLock.Shape(s.lk) && Basic(s.w) && s.lk.n == s.w.n && |s.ops| == s.w.n
  }

  predicate IsRequest(m: Msg) {
    m.FetchIntervals? || m.FetchWhole? || m.FetchOne?
  }

  /** The host whose intervals a woken host has to fetch, if any. */
  ghost predicate MustFetch(s: Sys, h: nat)
    requires Shape(s) && h < s.w.n && s.lk.phase[h].Woken?
  {
    0 <= s.lk.phase[h].last < s.w.n && s.lk.phase[h].last != h
  }

  ghost predicate ServeReady(s: Sys, e: Envelope)
    requires Shape(s)
  {
    && IsRequest(e.msg) && e.to < s.w.n && e.from < s.w.n
    && (!e.msg.FetchIntervals? ==> e.msg.p < |s.w.cur|)
  }

  ghost predicate ReceiveReady(s: Sys, e: Envelope)
    requires Shape(s)
  {
    && e.to < s.w.n && e.from < s.w.n
    && match e.msg
       case Intervals(ts, pks) =>
         s.ops[e.to] == WaitIntervals && s.lk.phase[e.to].Woken? && |ts| == s.w.n && AllWf(pks, s.w.n, |s.w.cur|)
       case Whole(p, _) => s.ops[e.to] == WaitWhole(p) && p < |s.w.cur|
       case One(p, _, _) => s.ops[e.to].WaitOne? && s.ops[e.to].p == p && p < |s.w.cur|
       case _ => false
  }

  ghost predicate AtPage(s: Sys, h: nat, p: nat)
    requires Shape(s)
  {
    h < s.w.n && p < |s.w.cur| && s.lk.phase[h] == OneLock.Inside && s.w.log != []
  }

  ghost predicate Enabled(s: Sys, a: Action) {
    && Shape(s)
    && match a
       case Lock(b) => !b.Enter? && !b.Leave? && OneLock.Enabled(s.lk, b)
       case StartFetch(h) => h < s.w.n && s.lk.phase[h].Woken? && s.ops[h] == Idle && MustFetch(s, h)
       case EnterOwn(h) => h < s.w.n && s.lk.phase[h].Woken? && s.ops[h] == Idle && !MustFetch(s, h)
       case Serve(i) => i < |s.wire| && ServeReady(s, s.wire[i])
       case Receive(i) => i < |s.wire| && ReceiveReady(s, s.wire[i])
       case Fault(h, p) => AtPage(s, h, p) && s.ops[h] == Idle && s.w.mems[h].pages[p].state in {RDONLY, MISS, INVALID}
       case Turn(h) => h < s.w.n && s.ops[h].Looping? && AtPage(s, h, s.ops[h].p)
       case Resume(h) => h < s.w.n && s.ops[h].GotWhole? && AtPage(s, h, s.ops[h].p)
       case Write(h, p, _) => AtPage(s, h, p) && s.ops[h] == Idle && s.w.mems[h].pages[p].state == WRITE
       case Unlock(h) => h < s.w.n && s.lk.phase[h] == OneLock.Inside && s.ops[h] == Idle
  }

  ghost function Without(wire: seq<Envelope>, i: nat): seq<Envelope>
    requires i < |wire|
  {
    wire[..i] + wire[i + 1..]
  }

  /** The effect of a request's handler on the memories, and its reply; no reply when there is nothing to send. */
  ghost function Answer(w: World, e: Envelope): (World, seq<Envelope>)
    requires Basic(w) && IsRequest(e.msg) && e.to < w.n && (!e.msg.FetchIntervals? ==> e.msg.p < |w.cur|)
  {
    if e.from == e.to then (w, [])
    else
      var m := w.mems[e.to];
      match e.msg
      case FetchIntervals(ts) => (w, [Envelope(e.to, e.from, Intervals(NowTs(m), GrantedPackets(m, ts, w.n)))])
      case FetchWhole(p) =>
        (w, if GrantPage(m, p).Some? then [Envelope(e.to, e.from, Whole(p, GrantPage(m, p).value))] else [])
      case FetchOne(p, ts) =>
        (Served(w, e.to, ts, p),
         if GrantedDiff(m, ts, p).Some? then [Envelope(e.to, e.from, One(p, ts, GrantedDiff(m, ts, p).value))] else [])
      case _ => (w, [])
  }

  /** The effect of a reply's handler; the reply to FETCH_WN_I lets `mi_lock` return. */
  ghost function Received(s: Sys, e: Envelope): Sys
    requires Shape(s) && ReceiveReady(s, e)
  {
    var h := e.to;
    match e.msg
    case Intervals(ts, pks) =>
      s.(lk := OneLock.Next(s.lk, OneLock.Enter(h)), w := Enter(s.w, h, HandleGrantWNI(s.w.mems[h], ts, pks)),
         ops := s.ops[h := Idle])
    case Whole(p, bytes) => s.(w := GotPage(s.w, h, p, bytes), ops := s.ops[h := GotWhole(p)])
    case One(p, ts, d) =>
      var c := s.ops[h].at;
      s.(w := GotDiff(s.w, h, e.from, ts, p, d), ops := s.ops[h := Looping(p, Cursor(c.host, c.pos + 1))])
    case _ => s
  }

  ghost function Send(s: Sys, h: nat, op: Op, to: nat, msg: Msg): Sys
    requires h < |s.ops|
  {
    s.(ops := s.ops[h := op], wire := s.wire + [Envelope(h, to, msg)])
  }

  /** `segv_handler`, up to the point where it waits. */
  ghost function Faulted(s: Sys, h: nat, p: nat): Sys
    requires Shape(s) && AtPage(s, h, p)
  {
    match s.w.mems[h].pages[p].state
    case RDONLY => s.(w := WriteFaulted(s.w, h, p))
    case MISS => Send(s, h, WaitWhole(p), FetchTarget(s.w.mems[h], p), FetchWhole(p))
    case INVALID => s.(ops := s.ops[h := Looping(p, Cursor(0, 0))])
    case _ => s
  }

  ghost function Turned(s: Sys, h: nat): Sys
    requires Shape(s) && h < s.w.n && s.ops[h].Looping? && s.ops[h].p < |s.w.cur|
  {
    var p, c := s.ops[h].p, s.ops[h].at;
    match LoopTurn(s.w.mems[h].pages[p], h, c)
    case Done => s.(w := Resumed(s.w, h, p), ops := s.ops[h := Idle])
    case Skip(next) => s.(ops := s.ops[h := Looping(p, next)])
    case Ask => Send(s, h, WaitOne(p, c), c.host, FetchOne(p, s.w.mems[h].pages[p].notices[c.host][c.pos].ts))
  }

  /** The memory with which a host that fetches nothing enters: the manager woken by RLS makes no interval. */
  ghost function EnterMem(s: Sys, h: nat): (m: Mem)
    requires Shape(s) && h < s.w.n && s.lk.phase[h].Woken?
    ensures Wf(m)
  {
    if s.lk.phase[h].byRelease then s.w.mems[h] else OwnMem(s.w, h)
  }

  ghost function Next(s: Sys, a: Action): Sys
    requires Enabled(s, a)
  {
    match a
    case Lock(b) => s.(lk := OneLock.Next(s.lk, b))
    case StartFetch(h) => Send(s, h, WaitIntervals, s.lk.phase[h].last, FetchIntervals(NowTs(s.w.mems[h])))
    case EnterOwn(h) => s.(lk := OneLock.Next(s.lk, OneLock.Enter(h)), w := Enter(s.w, h, EnterMem(s, h)))
    case Serve(i) =>
      var (w, replies) := Answer(s.w, s.wire[i]);
      s.(w := w, wire := Without(s.wire, i) + replies)
    case Receive(i) => Received(s.(wire := Without(s.wire, i)), s.wire[i])
    case Fault(h, p) => Faulted(s, h, p)
    case Turn(h) => Turned(s, h)
    case Resume(h) => s.(w := Resumed(s.w, h, s.ops[h].p), ops := s.ops[h := Idle])
    case Write(h, p, bytes) => s.(w := Store(s.w, h, p, bytes))
    case Unlock(h) => s.(lk := OneLock.Next(s.lk, OneLock.Leave(h)), w := Leave(s.w, h))
  }

  ghost predicate Run(s: Sys, actions: seq<Action>)
    decreases |actions|
  {
    actions == [] || (Enabled(s, actions[0]) && Run(Next(s, actions[0]), actions[1..]))
  }

  ghost function Exec(s: Sys, actions: seq<Action>): Sys
    requires Run(s, actions)
    decreases |actions|
  {
    if actions == [] then s else Exec(Next(s, actions[0]), actions[1..])
  }

  lemma {:induction false} RunAppend(s: Sys, before: seq<Action>, after: seq<Action>)
    requires Run(s, before) && Run(Exec(s, before), after)
    ensures Run(s, before + after) && Exec(s, before + after) == Exec(Exec(s, before), after)
    decreases |before|
  {
    if before == [] {
      assert before + after == after;
    } else {
      assert (before + after)[1..] == before[1..] + after;
      RunAppend(Next(s, before[0]), before[1..], after);
    }
  }

  lemma {:induction false} RunSplit(s: Sys, actions: seq<Action>, k: nat)
    requires Run(s, actions) && k <= |actions|
    ensures Run(s, actions[..k]) && Run(Exec(s, actions[..k]), actions[k..])
    ensures Exec(Exec(s, actions[..k]), actions[k..]) == Exec(s, actions)
    decreases |actions|
  {
    if k == 0 {
      assert actions[0..] == actions;
    } else {
      RunSplit(Next(s, actions[0]), actions[1..], k - 1);
      assert actions[1..][..k - 1] == actions[..k][1..];
      assert actions[1..][k - 1..] == actions[k..];
    }
  }

  // ----- start -----

  /** Each page starts read-only and zero on its home host and missing on the others. */
  ghost predicate InitialEntry(e: PageEntry, me: nat, n: nat, p: nat)
    requires 0 < n
  {
    && e.twin.None? && e.start.None? && |e.notices| == n
    && (forall j :: 0 <= j < n ==> e.notices[j] == [])
    && (if p % n == me then e.state == RDONLY && e.bytes == ZeroPage() else e.state == MISS)
  }

  ghost predicate InitialMem(m: Mem, me: nat, n: nat) {
    && me < n && m.me == me && m.n == n && |m.procs| == n && m.now == 0
    && (forall j :: 0 <= j < n ==> m.procs[j] == if j == me then [Interval(Zero(n), [], true)] else [])
    && (forall p :: 0 <= p < |m.pages| ==> InitialEntry(m.pages[p], me, n, p))
  }

  ghost predicate Init(s: Sys) {
    && OneLock.Init(s.lk) && s.w.n == s.lk.n && |s.w.mems| == s.w.n
    && (forall h :: 0 <= h < s.w.n ==> InitialMem(s.w.mems[h], h, s.w.n) && |s.w.mems[h].pages| == |s.w.cur|)
    && (forall p :: 0 <= p < |s.w.cur| ==> s.w.cur[p] == ZeroPage())
    && s.w.log == [] && s.w.inside == None && s.w.missed == {}
    && s.ops == seq(s.w.n, _ => Idle) && s.wire == []
  }
}
