/**
 The whole lock system: any number of hosts, every lock, FIFO channels between host pairs, each
 host's state changed only by the `Syn` procedures. Seen through any single lock, a run of this
 system is a run of `OneLock`, so what is proved there holds here for all locks at once.
 */
module LockSystem {
  import opened Limits
  import opened Locks
  import opened Syn
  import OneLock

  /** Where the application thread of a host is. `InLock` spins on `waitFlag`. */
  datatype Pc = Running | Acquiring(lockno: nat, last: int) | InLock(lockno: nat) | Unlocking(lockno: nat, sent: bool)

  /** The messages in flight from one host to another; a missing channel is empty. */
  type Net = map<(nat, nat), seq<Msg>>

  function Channel(net: Net, g: nat, h: nat): seq<Msg> {
    if (g, h) in net then net[(g, h)] else []
  }

  datatype State = State(n: nat, nodes: seq<SynState>, pcs: seq<Pc>, net: Net)

  datatype Action =
    | MiLock(h: nat, lockno: int)
    | Finish(h: nat)
    | MiUnlock(h: nat, lockno: int)
    | Release(h: nat)
    | Clear(h: nat)
    | Deliver(src: nat, dst: nat)

  ghost predicate Shape(s: State) {
    && 0 < s.n && |s.nodes| == s.n && |s.pcs| == s.n
    && (forall h :: 0 <= h < s.n ==> WellFormed(s.nodes[h]) && s.nodes[h].me == h && s.nodes[h].n == s.n)
  }

  ghost predicate Init(s: State) {
    && Shape(s)
    && (forall h :: 0 <= h < s.n ==> s.nodes[h] == Initial(h, s.n) && s.pcs[h] == Running)
    && (forall g: nat, h: nat :: Channel(s.net, g, h) == [])
  }

  ghost predicate Enabled(s: State, a: Action) {
    && Shape(s)
    && match a
       case MiLock(h, _) => h < s.n && s.pcs[h] == Running
       case Finish(h) => h < s.n && (s.pcs[h].Acquiring? || (s.pcs[h].InLock? && !s.nodes[h].waitFlag)) &&
         ValidLock(s.pcs[h].lockno)
       case MiUnlock(h, _) => h < s.n && s.pcs[h] == Running
       case Release(h) => h < s.n && s.pcs[h].Unlocking? && !s.pcs[h].sent && ValidLock(s.pcs[h].lockno)
       case Clear(h) => h < s.n && s.pcs[h].Unlocking? && s.pcs[h].sent && ValidLock(s.pcs[h].lockno)
       case Deliver(g, h) => g < s.n && h < s.n && Channel(s.net, g, h) != []
  }

  ghost function Post(net: Net, from: nat, envs: seq<Envelope>): Net
    requires |envs| <= 1
  {
    if envs == [] then net
    else net[(from, envs[0].to) := Channel(net, from, envs[0].to) + [envs[0].msg]]
  }

  /** Replaces host `h`'s state and control point and sends its messages. */
  ghost function Put(s: State, h: nat, node: SynState, pc: Pc, envs: seq<Envelope>): State
    requires Shape(s) && h < s.n && |envs| <= 1
  {
    s.(nodes := s.nodes[h := node], pcs := s.pcs[h := pc], net := Post(s.net, h, envs))
  }

  ghost function Handle(node: SynState, from: nat, msg: Msg): (r: (SynState, seq<Envelope>))
    requires WellFormed(node)
    ensures WellFormed(r.0) && r.0.me == node.me && r.0.n == node.n && |r.1| <= 1
  {
    match msg
    case AcqLock(l) => HandleAcquire(node, l, from)
    case RlsLock(l) => HandleRelease(node, l, from)
    case GrantLock(l, last) => (HandleGrant(node, l, last), [])
  }

  ghost function Next(s: State, a: Action): State
    requires Enabled(s, a)
  {
    match a
    case MiLock(h, l) =>
      var (node, envs, start) := LockBegin(s.nodes[h], l);
      Put(s, h, node,
          match start case Refused(_) => Running case Blocked => InLock(l) case Given(last) => Acquiring(l, last),
          envs)
    case Finish(h) =>
      var l := s.pcs[h].lockno;
      if s.pcs[h].Acquiring? then
        Put(s, h, s.nodes[h].(myLocks := s.nodes[h].myLocks[l := true]), Running, [])
      else
        Put(s, h, WokenSource(s.nodes[h], l).0, Running, [])
    case MiUnlock(h, l) =>
      if ValidLock(l) && s.nodes[h].myLocks[l] then s.(pcs := s.pcs[h := Unlocking(l, false)]) else s
    case Release(h) =>
      var l := s.pcs[h].lockno;
      var (node, envs) := UnlockRelease(s.nodes[h], l);
      Put(s, h, node, if l % s.n == h then Running else Unlocking(l, true), envs)
    case Clear(h) =>
      Put(s, h, s.nodes[h].(myLocks := s.nodes[h].myLocks[s.pcs[h].lockno := false]), Running, [])
    case Deliver(g, h) =>
      var (node, envs) := Handle(s.nodes[h], g, Channel(s.net, g, h)[0]);
      Put(Taken(s, g, h), h, node, s.pcs[h], envs)
  }

  /** The system with the first message of a channel taken out. */
  ghost function Taken(s: State, g: nat, h: nat): State
    requires Channel(s.net, g, h) != []
  {
    s.(net := s.net[(g, h) := Channel(s.net, g, h)[1..]])
  }

  ghost predicate Run(s: State, actions: seq<Action>)
    decreases |actions|
  {
    actions == [] || (Enabled(s, actions[0]) && Run(Next(s, actions[0]), actions[1..]))
  }

  ghost function Exec(s: State, actions: seq<Action>): State
    requires Run(s, actions)
    decreases |actions|
  {
    if actions == [] then s else Exec(Next(s, actions[0]), actions[1..])
  }

  // ----- the view of one lock -----

  /** The ACQ and RLS messages about lock `l` in a channel. */
  ghost function Ups(ch: seq<Msg>, l: nat): seq<OneLock.Up> {
    if ch == [] then []
    else
      (match ch[0]
       case AcqLock(k) => if k == l then [OneLock.Acq] else []
       case RlsLock(k) => if k == l then [OneLock.Rls] else []
       case GrantLock(_, _) => []) + Ups(ch[1..], l)
  }

  /** The GRANT messages about lock `l` in a channel. */
  ghost function Downs(ch: seq<Msg>, l: nat): seq<int> {
    if ch == [] then []
    else (if ch[0].GrantLock? && ch[0].lockno == l then [ch[0].lasthostid] else []) + Downs(ch[1..], l)
  }

  lemma {:induction false} UpsAppend(ch: seq<Msg>, msg: Msg, l: nat)
    ensures Ups(ch + [msg], l) == Ups(ch, l) + Ups([msg], l)
  {
    if ch == [] {
      assert ch + [msg] == [msg];
    } else {
      assert (ch + [msg])[1..] == ch[1..] + [msg];
      UpsAppend(ch[1..], msg, l);
    }
  }

  lemma {:induction false} DownsAppend(ch: seq<Msg>, msg: Msg, l: nat)
    ensures Downs(ch + [msg], l) == Downs(ch, l) + Downs([msg], l)
  {
    if ch == [] {
      assert ch + [msg] == [msg];
    } else {
      assert (ch + [msg])[1..] == ch[1..] + [msg];
      DownsAppend(ch[1..], msg, l);
    }
  }

  lemma Single(msg: Msg, l: nat)
    ensures Ups([msg], l) == (match msg
                              case AcqLock(k) => if k == l then [OneLock.Acq] else []
                              case RlsLock(k) => if k == l then [OneLock.Rls] else []
                              case GrantLock(_, _) => [])
    ensures Downs([msg], l) == if msg.GrantLock? && msg.lockno == l then [msg.lasthostid] else []
  {
    assert [msg][1..] == [];
    assert Ups([], l) == [] && Downs([], l) == [];
  }

  ghost function PhaseOf(s: State, h: nat, l: nat): OneLock.Phase
    requires Shape(s) && h < s.n && l < LOCK_NUM
  {
    var pc, node := s.pcs[h], s.nodes[h];
    if pc.Acquiring? && pc.lockno == l then OneLock.Woken(pc.last, false)
    else if pc.InLock? && pc.lockno == l then
      if node.waitFlag then OneLock.Waiting else OneLock.Woken(node.lasthostid, l % s.n == h)
    else if pc.Unlocking? && pc.lockno == l then if pc.sent then OneLock.Clearing else OneLock.Leaving
    else if node.myLocks[l] then OneLock.Inside
    else OneLock.Out
  }

  /** Lock `l` of this system looks like `o`, whose history fields are its own. */
  ghost predicate Shows(s: State, l: nat, o: OneLock.State)
    requires Shape(s) && l < LOCK_NUM
  {
    && OneLock.Shape(o)
    && o.n == s.n && o.m == l % s.n && o.rec == s.nodes[o.m].locks[l]
    && forall h :: 0 <= h < s.n ==> ShowsHost(s, l, o, h)
  }

  ghost predicate ShowsHost(s: State, l: nat, o: OneLock.State, h: nat)
    requires Shape(s) && l < LOCK_NUM && OneLock.Shape(o) && o.n == s.n && h < s.n
  {
    o.phase[h] == PhaseOf(s, h, l) && o.up[h] == Ups(Channel(s.net, h, o.m), l) &&
      o.down[h] == Downs(Channel(s.net, o.m, h), l)
  }

  // ----- control points, flags and channels fit together -----

  ghost predicate PcOk(s: State, h: nat)
    requires Shape(s) && h < s.n
  {
    var pc, node := s.pcs[h], s.nodes[h];
    && (!pc.Running? ==> ValidLock(pc.lockno))
    && (pc.Acquiring? ==> pc.lockno % s.n == h && !node.myLocks[pc.lockno])
    && (pc.InLock? ==> node.myLocks[pc.lockno] == !node.waitFlag)
    && (pc.Unlocking? ==> node.myLocks[pc.lockno] && (pc.sent ==> pc.lockno % s.n != h))
    && (node.waitFlag ==> pc.InLock?)
  }

  ghost predicate MsgOk(n: nat, g: nat, h: nat, msg: Msg)
    requires 0 < n
  {
    && g != h && ValidLock(msg.lockno)
    && (if msg.GrantLock? then msg.lockno % n == g else msg.lockno % n == h)
  }

  ghost predicate NetOk(n: nat, net: Net)
    requires 0 < n
  {
    forall g: nat, h: nat, i :: 0 <= i < |Channel(net, g, h)| ==> MsgOk(n, g, h, Channel(net, g, h)[i])
  }

  ghost predicate Inv(s: State) {
    && Shape(s)
    && (forall h :: 0 <= h < s.n ==> PcOk(s, h))
    && NetOk(s.n, s.net)
  }

  /** All locks at once, each with its own view. */
  ghost predicate AllShown(s: State, os: seq<OneLock.State>) {
    && Inv(s)
    && |os| == LOCK_NUM
    && forall l :: 0 <= l < LOCK_NUM ==> Shows(s, l, os[l]) && OneLock.Inv(os[l])
  }

  /** The lock an action is about, if it changes anything. */
  ghost function LockOf(s: State, a: Action): int
    requires Enabled(s, a)
  {
    match a
    case MiLock(h, l) => if ValidLock(l) && !s.nodes[h].myLocks[l] then l else -1
    case MiUnlock(h, l) => if ValidLock(l) && s.nodes[h].myLocks[l] then l else -1
    case Finish(h) => s.pcs[h].lockno
    case Release(h) => s.pcs[h].lockno
    case Clear(h) => s.pcs[h].lockno
    case Deliver(g, h) => Channel(s.net, g, h)[0].lockno
  }

  ghost function Translate(s: State, a: Action): OneLock.Action
    requires Enabled(s, a) && LockOf(s, a) >= 0
  {
    match a
    case MiLock(h, l) => if l % s.n == h then OneLock.LocalGrasp else OneLock.Request(h)
    case MiUnlock(h, _) => OneLock.Leave(h)
    case Finish(h) => OneLock.Enter(h)
    case Release(h) => if s.pcs[h].lockno % s.n == h then OneLock.LocalRelease else OneLock.RemoteRelease(h)
    case Clear(h) => OneLock.Clear(h)
    case Deliver(g, h) =>
      match Channel(s.net, g, h)[0]
      case AcqLock(_) => OneLock.DeliverAcq(g)
      case RlsLock(_) => OneLock.DeliverRls(g)
      case GrantLock(_, _) => OneLock.DeliverGrant(h)
  }

  /** What `l` shows after the action, given what it showed before. */
  ghost function After(s: State, a: Action, l: nat, o: OneLock.State): OneLock.State
    requires Enabled(s, a)
    requires l == LockOf(s, a) ==> OneLock.Enabled(o, Translate(s, a))
  {
    if l == LockOf(s, a) then OneLock.Next(o, Translate(s, a)) else o
  }

  /** The channels between host `x` and the manager `m` after one message was sent. */
  lemma PostView(net: Net, from: nat, env: Envelope, l: nat, m: nat, x: nat)
    ensures var net' := Post(net, from, [env]);
            && Ups(Channel(net', x, m), l)
               == Ups(Channel(net, x, m), l) + (if x == from && m == env.to then Ups([env.msg], l) else [])
            && Downs(Channel(net', m, x), l)
               == Downs(Channel(net, m, x), l) + (if m == from && x == env.to then Downs([env.msg], l) else [])
  {
    UpsAppend(Channel(net, x, m), env.msg, l);
    DownsAppend(Channel(net, m, x), env.msg, l);
  }

  /** A step of host `h` that concerns another lock leaves the view of `l` alone. */
  lemma OtherLock(s: State, h: nat, node: SynState, pc: Pc, envs: seq<Envelope>, l: nat, o: OneLock.State)
    requires Shape(s) && h < s.n && WellFormed(node) && node.me == h && node.n == s.n && l < LOCK_NUM
    requires Shows(s, l, o)
    requires |envs| <= 1 && (envs != [] ==> envs[0].msg.lockno != l)
    requires node.locks[l] == s.nodes[h].locks[l] && node.myLocks[l] == s.nodes[h].myLocks[l]
    requires PhaseOf(Put(s, h, node, pc, envs), h, l) == PhaseOf(s, h, l)
    ensures Shape(Put(s, h, node, pc, envs)) && Shows(Put(s, h, node, pc, envs), l, o)
  {
    var t := Put(s, h, node, pc, envs);
    forall x | 0 <= x < s.n
      ensures ShowsHost(t, l, o, x)
    {
      assert ShowsHost(s, l, o, x);
      if envs != [] {
        PostView(s.net, h, envs[0], l, l % s.n, x);
      }
    }
  }

  lemma MiLockOther(s: State, a: Action, l: nat, o: OneLock.State)
    requires Enabled(s, a) && a.MiLock? && l < LOCK_NUM && l != LockOf(s, a)
    requires Shows(s, l, o)
    ensures Shape(Next(s, a)) && Shows(Next(s, a), l, o)
  {
    var (node, envs, start) := LockBegin(s.nodes[a.h], a.lockno);
    var pc :=
      match start
      case Refused(_) => Running
      case Blocked => InLock(a.lockno)
      case Given(last) => Acquiring(a.lockno, last);
    OtherLock(s, a.h, node, pc, envs, l, o);
  }

  lemma ReleaseOther(s: State, a: Action, l: nat, o: OneLock.State)
    requires Enabled(s, a) && a.Release? && l < LOCK_NUM && l != LockOf(s, a)
    requires Shows(s, l, o)
    ensures Shape(Next(s, a)) && Shows(Next(s, a), l, o)
  {
    var k := s.pcs[a.h].lockno;
    var (node, envs) := UnlockRelease(s.nodes[a.h], k);
    OtherLock(s, a.h, node, if k % s.n == a.h then Running else Unlocking(k, true), envs, l, o);
  }

  /** A step of host `h` on lock `l` itself, described by its effect on the view. */
  lemma SameLock(s: State, h: nat, node: SynState, pc: Pc, envs: seq<Envelope>, l: nat, o: OneLock.State,
                 u: OneLock.State)
    requires Shape(s) && h < s.n && WellFormed(node) && node.me == h && node.n == s.n && l < LOCK_NUM
    requires Shows(s, l, o)
    requires |envs| <= 1
    requires OneLock.Shape(u) && u.n == o.n && u.m == o.m
    requires Shape(Put(s, h, node, pc, envs)) && u.phase == o.phase[h := PhaseOf(Put(s, h, node, pc, envs), h, l)]
    requires u.rec == if h == o.m then node.locks[l] else o.rec
    requires forall x :: 0 <= x < s.n ==>
                           u.up[x] == o.up[x]
                             + if envs != [] && x == h && envs[0].to == o.m then Ups([envs[0].msg], l) else []
    requires forall x :: 0 <= x < s.n ==>
                           u.down[x] == o.down[x]
                             + if envs != [] && h == o.m && x == envs[0].to then Downs([envs[0].msg], l) else []
    ensures Shows(Put(s, h, node, pc, envs), l, u)
  {
    var t := Put(s, h, node, pc, envs);
    forall x | 0 <= x < s.n
      ensures ShowsHost(t, l, u, x)
    {
      assert ShowsHost(s, l, o, x);
      assert u.phase[x] == PhaseOf(t, x, l);
      if envs != [] {
        PostView(s.net, h, envs[0], l, o.m, x);
      } else {
        assert t.net == s.net;
      }
    }
  }

  lemma FinishSame(s: State, a: Action, l: nat, o: OneLock.State)
    requires Enabled(s, a) && (a.Finish? || a.Clear?) && l < LOCK_NUM && l == LockOf(s, a)
    requires PcOk(s, a.h) && Shows(s, l, o)
    ensures Shape(Next(s, a)) && OneLock.Enabled(o, Translate(s, a))
    ensures Shows(Next(s, a), l, After(s, a, l, o))
  {
    assert ShowsHost(s, l, o, a.h);
    SameLock(s, a.h, Next(s, a).nodes[a.h], Running, [], l, o, After(s, a, l, o));
  }

  lemma FinishOther(s: State, a: Action, l: nat, o: OneLock.State)
    requires Enabled(s, a) && (a.Finish? || a.Clear?) && l < LOCK_NUM && l != LockOf(s, a)
    requires PcOk(s, a.h) && Shows(s, l, o)
    ensures Shape(Next(s, a)) && Shows(Next(s, a), l, o)
  {
    assert ShowsHost(s, l, o, a.h);
    OtherLock(s, a.h, Next(s, a).nodes[a.h], Running, [], l, o);
  }

  lemma FinishShows(s: State, a: Action, l: nat, o: OneLock.State)
    requires Enabled(s, a) && (a.Finish? || a.Clear?) && l < LOCK_NUM
    requires PcOk(s, a.h) && Shows(s, l, o)
    ensures Shape(Next(s, a))
    ensures l == LockOf(s, a) ==> OneLock.Enabled(o, Translate(s, a))
    ensures Shows(Next(s, a), l, After(s, a, l, o))
  {
    if l == LockOf(s, a) {
      FinishSame(s, a, l, o);
    } else {
      FinishOther(s, a, l, o);
    }
  }

  lemma MiUnlockShows(s: State, a: Action, l: nat, o: OneLock.State)
    requires Enabled(s, a) && a.MiUnlock? && l < LOCK_NUM
    requires PcOk(s, a.h) && Shows(s, l, o)
    ensures Shape(Next(s, a))
    ensures l == LockOf(s, a) ==> OneLock.Enabled(o, Translate(s, a))
    ensures Shows(Next(s, a), l, After(s, a, l, o))
  {
    assert ShowsHost(s, l, o, a.h);
    var t := Next(s, a);
    forall x | 0 <= x < s.n
      ensures ShowsHost(t, l, After(s, a, l, o), x)
    {
      assert ShowsHost(s, l, o, x);
    }
  }

  /** `mi_lock` on another host: a request is sent. */
  lemma MiLockRemote(s: State, a: Action, l: nat, o: OneLock.State)
    requires Enabled(s, a) && a.MiLock? && l < LOCK_NUM && l == LockOf(s, a) && l % s.n != a.h
    requires PcOk(s, a.h) && Shows(s, l, o)
    ensures Shape(Next(s, a)) && OneLock.Enabled(o, Translate(s, a))
    ensures Shows(Next(s, a), l, After(s, a, l, o))
  {
    var h, msg := a.h, AcqLock(l);
    assert ShowsHost(s, l, o, h);
    Single(msg, l);
    SameLock(s, h, s.nodes[h].(waitFlag := true), InLock(l), [Envelope(o.m, msg)], l, o, After(s, a, l, o));
  }

  /** `mi_lock` on the manager: the request goes into its own record. */
  lemma MiLockLocal(s: State, a: Action, l: nat, o: OneLock.State)
    requires Enabled(s, a) && a.MiLock? && l < LOCK_NUM && l == LockOf(s, a) && l % s.n == a.h
    requires PcOk(s, a.h) && Shows(s, l, o)
    ensures Shape(Next(s, a)) && OneLock.Enabled(o, Translate(s, a))
    ensures Shows(Next(s, a), l, After(s, a, l, o))
  {
    var h := a.h;
    assert ShowsHost(s, l, o, h);
    var (node, envs, start) := LockBegin(s.nodes[h], l);
    var pc := match start case Refused(_) => Running case Blocked => InLock(l) case Given(last) => Acquiring(l, last);
    assert envs == [];
    SameLock(s, h, node, pc, [], l, o, After(s, a, l, o));
  }

  lemma MiLockSame(s: State, a: Action, l: nat, o: OneLock.State)
    requires Enabled(s, a) && a.MiLock? && l < LOCK_NUM && l == LockOf(s, a)
    requires PcOk(s, a.h) && Shows(s, l, o)
    ensures Shape(Next(s, a)) && OneLock.Enabled(o, Translate(s, a))
    ensures Shows(Next(s, a), l, After(s, a, l, o))
  {
    if l % s.n == a.h {
      MiLockLocal(s, a, l, o);
    } else {
      MiLockRemote(s, a, l, o);
    }
  }

  lemma ReleaseRemote(s: State, a: Action, l: nat, o: OneLock.State)
    requires Enabled(s, a) && a.Release? && l < LOCK_NUM && l == LockOf(s, a) && l % s.n != a.h
    requires PcOk(s, a.h) && Shows(s, l, o)
    ensures Shape(Next(s, a)) && OneLock.Enabled(o, Translate(s, a))
    ensures Shows(Next(s, a), l, After(s, a, l, o))
  {
    var h, msg := a.h, RlsLock(l);
    assert ShowsHost(s, l, o, h);
    Single(msg, l);
    SameLock(s, h, s.nodes[h], Unlocking(l, true), [Envelope(o.m, msg)], l, o, After(s, a, l, o));
  }

  /** The manager frees its own lock: the node's state and message against the view. */
  lemma LocalView(s: State, h: nat, l: nat, o: OneLock.State, t: SynState, envs: seq<Envelope>)
    requires Shape(s) && h < s.n && l < LOCK_NUM && l % s.n == h && Shows(s, l, o) && PcOk(s, h)
    requires s.pcs[h] == Unlocking(l, false)
    requires (t, envs) == UnlockRelease(s.nodes[h], l)
    ensures WellFormed(t) && t.me == h && t.n == s.n && |envs| <= 1
    ensures o.phase[h] == OneLock.Leaving && PhaseOf(Put(s, h, t, Running, envs), h, l) == OneLock.Out
    ensures t.locks[l] == OneLock.Free(o, h).0.rec
    ensures envs == if 0 <= OneLock.Free(o, h).1 < s.n && OneLock.Free(o, h).1 != h
                    then [Envelope(OneLock.Free(o, h).1, GrantLock(l, t.locks[l].lasthostid))] else []
  {
    assert ShowsHost(s, l, o, h);
  }

  lemma LocalFields(o: OneLock.State)
    requires OneLock.Enabled(o, OneLock.LocalRelease)
    ensures var u, r := OneLock.Next(o, OneLock.LocalRelease), OneLock.Free(o, o.m).1;
            && u.n == o.n && u.m == o.m && u.phase == o.phase[o.m := OneLock.Out] && u.up == o.up
            && u.rec == OneLock.Free(o, o.m).0.rec && |u.down| == |o.down|
            && u.down == if 0 <= r < o.n && r != o.m then o.down[r := o.down[r] + [u.rec.lasthostid]] else o.down
  {
  }

  /** The manager frees its own lock: the view of the lock after it. */
  lemma LocalShows(s: State, h: nat, l: nat, o: OneLock.State, u: OneLock.State, node: SynState, envs: seq<Envelope>)
    requires Shape(s) && h < s.n && l < LOCK_NUM && l % s.n == h && Shows(s, l, o)
    requires WellFormed(node) && node.me == h && node.n == s.n && |envs| <= 1
    requires PhaseOf(Put(s, h, node, Running, envs), h, l) == OneLock.Out && node.locks[l] == u.rec
    requires u.n == o.n && u.m == o.m && u.phase == o.phase[h := OneLock.Out] && u.up == o.up
    requires envs == [] ==> u.down == o.down
    requires envs != [] ==>
               && 0 <= envs[0].to < s.n && envs[0].to != h && envs[0].msg == GrantLock(l, u.rec.lasthostid)
               && u.down == o.down[envs[0].to := o.down[envs[0].to] + [u.rec.lasthostid]]
    ensures Shape(Put(s, h, node, Running, envs)) && Shows(Put(s, h, node, Running, envs), l, u)
  {
    if envs != [] {
      Single(envs[0].msg, l);
    }
    SameLock(s, h, node, Running, envs, l, o, u);
  }

  lemma ReleaseLocal(s: State, a: Action, l: nat, o: OneLock.State)
    requires Enabled(s, a) && a.Release? && l < LOCK_NUM && l == LockOf(s, a) && l % s.n == a.h
    requires PcOk(s, a.h) && Shows(s, l, o)
    ensures Shape(Next(s, a)) && OneLock.Enabled(o, Translate(s, a))
    ensures Shows(Next(s, a), l, After(s, a, l, o))
  {
    assert ShowsHost(s, l, o, a.h);
    var (node, envs) := UnlockRelease(s.nodes[a.h], l);
    LocalView(s, a.h, l, o, node, envs);
    LocalFields(o);
    LocalShows(s, a.h, l, o, OneLock.Next(o, OneLock.LocalRelease), node, envs);
  }

  // ----- delivering a message -----

  lemma TakeFirst(ch: seq<Msg>, l: nat)
    requires ch != []
    ensures Ups(ch, l) == Ups([ch[0]], l) + Ups(ch[1..], l)
    ensures Downs(ch, l) == Downs([ch[0]], l) + Downs(ch[1..], l)
  {
    assert [ch[0]][1..] == [];
  }

  /** The view of lock `l` once the first message from `g` to `h` has been taken. */
  ghost function TakenView(o: OneLock.State, g: nat, h: nat, l: nat, msg: Msg): OneLock.State {
    if msg.lockno != l then o
    else if msg.GrantLock? then
      if h < |o.down| && o.down[h] != [] then o.(down := o.down[h := o.down[h][1..]]) else o
    else
      if g < |o.up| && o.up[g] != [] then o.(up := o.up[g := o.up[g][1..]]) else o
  }

  /** The channel that lost its first message, seen from lock `l`; all others are as before. */
  lemma TakenChannel(s: State, g: nat, h: nat, l: nat, x: nat, y: nat)
    requires Channel(s.net, g, h) != []
    ensures var ch, t, msg := Channel(s.net, x, y), Channel(Taken(s, g, h).net, x, y), Channel(s.net, g, h)[0];
            && ((x, y) != (g, h) ==> t == ch)
            && ((x, y) == (g, h) ==>
                  && Ups(ch, l)
                       == (if msg.lockno == l && !msg.GrantLock? then
                           [if msg.AcqLock? then OneLock.Acq else OneLock.Rls] else []) + Ups(t, l)
                  && Downs(ch, l) == (if msg.lockno == l && msg.GrantLock? then [msg.lasthostid] else []) + Downs(t, l))
  {
    TakeFirst(Channel(s.net, g, h), l);
    Single(Channel(s.net, g, h)[0], l);
  }

  lemma TakenUps(s: State, g: nat, h: nat, l: nat, o: OneLock.State, x: nat)
    requires Shape(s) && g < s.n && h < s.n && Channel(s.net, g, h) != [] && l < LOCK_NUM && Shows(s, l, o)
    requires MsgOk(s.n, g, h, Channel(s.net, g, h)[0]) && x < s.n
    ensures |TakenView(o, g, h, l, Channel(s.net, g, h)[0]).up| == s.n
    ensures TakenView(o, g, h, l, Channel(s.net, g, h)[0]).up[x] == Ups(Channel(Taken(s, g, h).net, x, o.m), l)
  {
    TakenChannel(s, g, h, l, x, o.m);
    assert ShowsHost(s, l, o, x);
  }

  lemma TakenDowns(s: State, g: nat, h: nat, l: nat, o: OneLock.State, x: nat)
    requires Shape(s) && g < s.n && h < s.n && Channel(s.net, g, h) != [] && l < LOCK_NUM && Shows(s, l, o)
    requires MsgOk(s.n, g, h, Channel(s.net, g, h)[0]) && x < s.n
    ensures |TakenView(o, g, h, l, Channel(s.net, g, h)[0]).down| == s.n
    ensures TakenView(o, g, h, l, Channel(s.net, g, h)[0]).down[x] == Downs(Channel(Taken(s, g, h).net, o.m, x), l)
  {
    TakenChannel(s, g, h, l, o.m, x);
    assert ShowsHost(s, l, o, x);
  }

  lemma TakenHost(s: State, g: nat, h: nat, l: nat, o: OneLock.State, x: nat)
    requires Shape(s) && g < s.n && h < s.n && Channel(s.net, g, h) != [] && l < LOCK_NUM && Shows(s, l, o)
    requires MsgOk(s.n, g, h, Channel(s.net, g, h)[0]) && x < s.n && Shape(Taken(s, g, h))
    ensures OneLock.Shape(TakenView(o, g, h, l, Channel(s.net, g, h)[0]))
    ensures ShowsHost(Taken(s, g, h), l, TakenView(o, g, h, l, Channel(s.net, g, h)[0]), x)
  {
    TakenUps(s, g, h, l, o, x);
    TakenDowns(s, g, h, l, o, x);
    assert ShowsHost(s, l, o, x);
  }

  /** Taking a message changes the view of its own lock only. */
  lemma TakenShows(s: State, g: nat, h: nat, l: nat, o: OneLock.State)
    requires Shape(s) && g < s.n && h < s.n && Channel(s.net, g, h) != [] && l < LOCK_NUM && Shows(s, l, o)
    requires MsgOk(s.n, g, h, Channel(s.net, g, h)[0])
    ensures Shape(Taken(s, g, h))
    ensures var msg := Channel(s.net, g, h)[0];
            && Shows(Taken(s, g, h), l, TakenView(o, g, h, l, msg))
            && (msg.lockno == l && !msg.GrantLock? ==>
                  h == o.m && o.up[g] != [] && o.up[g][0] == (if msg.AcqLock? then OneLock.Acq else OneLock.Rls))
            && (msg.lockno == l && msg.GrantLock? ==> g == o.m && o.down[h] != [] && o.down[h][0] == msg.lasthostid)
  {
    TakenHead(s, g, h, l, o);
    forall x | 0 <= x < s.n
      ensures OneLock.Shape(TakenView(o, g, h, l, Channel(s.net, g, h)[0]))
      ensures ShowsHost(Taken(s, g, h), l, TakenView(o, g, h, l, Channel(s.net, g, h)[0]), x)
    {
      TakenHost(s, g, h, l, o, x);
    }
  }

  lemma TakenHead(s: State, g: nat, h: nat, l: nat, o: OneLock.State)
    requires Shape(s) && g < s.n && h < s.n && Channel(s.net, g, h) != [] && l < LOCK_NUM && Shows(s, l, o)
    requires MsgOk(s.n, g, h, Channel(s.net, g, h)[0])
    ensures var msg := Channel(s.net, g, h)[0];
            && (msg.lockno == l && !msg.GrantLock? ==>
                  h == o.m && o.up[g] != [] && o.up[g][0] == (if msg.AcqLock? then OneLock.Acq else OneLock.Rls))
            && (msg.lockno == l && msg.GrantLock? ==> g == o.m && o.down[h] != [] && o.down[h][0] == msg.lasthostid)
  {
    TakeFirst(Channel(s.net, g, h), l);
    Single(Channel(s.net, g, h)[0], l);
    assert ShowsHost(s, l, o, g) && ShowsHost(s, l, o, h);
  }

  /** The handler of this message wakes its host. */
  ghost predicate Wakes(node: SynState, from: nat, msg: Msg)
    requires WellFormed(node)
  {
    msg.GrantLock? || (msg.RlsLock? && FreeLock(node, msg.lockno, from).1 == node.me)
  }

  lemma QuietHandler(node: SynState, from: nat, msg: Msg)
    requires WellFormed(node) && !Wakes(node, from, msg)
    ensures var t := Handle(node, from, msg).0;
            t.waitFlag == node.waitFlag && t.lasthostid == node.lasthostid && t.myLocks == node.myLocks
  {
  }

  /** A GRANT in flight is for a host that waits. */
  lemma GrantWaits(s: State, g: nat, h: nat, msg: Msg, ok: OneLock.State)
    requires Shape(s) && g < s.n && h < s.n && Channel(s.net, g, h) != [] && msg == Channel(s.net, g, h)[0]
    requires msg.GrantLock?
    requires MsgOk(s.n, g, h, msg) && Shows(s, msg.lockno, ok) && OneLock.HostOk(ok, h)
    ensures ok.phase[h] == OneLock.Waiting
  {
    var l := msg.lockno;
    TakeFirst(Channel(s.net, g, h), l);
    Single(msg, l);
    assert ShowsHost(s, l, ok, h);
    assert ok.down[h] != [];
  }

  lemma HandedWaits(ok: OneLock.State, node: SynState, l: int, from: nat)
    requires OneLock.Shape(ok) && OneLock.HostOk(ok, ok.m) && WellFormed(node) && ValidLock(l) && l % node.n == node.me
    requires node.me == ok.m && node.n == ok.n && ok.rec == node.locks[l] && FreeLock(node, l, from).1 == node.me
    ensures ok.phase[ok.m] == OneLock.Waiting
  {
    assert ok.rec.waiting[0] == ok.m;
  }

  /** A host that is woken by a message was waiting for that very lock. */
  lemma WokenWaits(s: State, g: nat, h: nat, msg: Msg, ok: OneLock.State)
    requires Shape(s) && g < s.n && h < s.n && Channel(s.net, g, h) != [] && msg == Channel(s.net, g, h)[0]
    requires MsgOk(s.n, g, h, msg) && Shows(s, msg.lockno, ok) && OneLock.HostOk(ok, h)
    requires Wakes(s.nodes[h], g, msg)
    ensures s.pcs[h] == InLock(msg.lockno) && s.nodes[h].waitFlag
  {
    if msg.RlsLock? {
      HandedWaits(ok, s.nodes[h], msg.lockno, g);
    } else {
      GrantWaits(s, g, h, msg, ok);
    }
    assert ShowsHost(s, msg.lockno, ok, h);
  }

  lemma DeliverOther(s: State, a: Action, l: nat, o: OneLock.State, ok: OneLock.State)
    requires Enabled(s, a) && a.Deliver? && l < LOCK_NUM && l != LockOf(s, a)
    requires Shows(s, l, o)
    requires MsgOk(s.n, a.src, a.dst, Channel(s.net, a.src, a.dst)[0])
    requires Shows(s, LockOf(s, a), ok) && OneLock.HostOk(ok, a.dst)
    ensures Shape(Next(s, a)) && Shows(Next(s, a), l, o)
  {
    var g, h := a.src, a.dst;
    var msg := Channel(s.net, g, h)[0];
    TakenShows(s, g, h, l, o);
    var (node, envs) := Handle(s.nodes[h], g, msg);
    if Wakes(s.nodes[h], g, msg) {
      WokenWaits(s, g, h, msg, ok);
    } else {
      QuietHandler(s.nodes[h], g, msg);
    }
    OtherLock(Taken(s, g, h), h, node, s.pcs[h], envs, l, o);
  }

  /** What the manager does with a request, and the view of the lock after it. */
  lemma AcqView(s: State, g: nat, h: nat, l: nat, mid: OneLock.State, t: SynState, envs: seq<Envelope>)
    requires Shape(s) && g < s.n && h < s.n && g != h && l < LOCK_NUM && l % s.n == h && Shows(s, l, mid)
    requires (t, envs) == HandleAcquire(s.nodes[h], l, g)
    ensures WellFormed(t) && t.me == h && t.n == s.n && |envs| <= 1
    ensures PhaseOf(Put(s, h, t, s.pcs[h], envs), h, l) == mid.phase[h]
    ensures t.locks[l] == OneLock.Ask(mid, g).0.rec
    ensures envs == if OneLock.Ask(mid, g).1 >= -1 then [Envelope(g, GrantLock(l, t.locks[l].lasthostid))] else []
  {
    assert ShowsHost(s, l, mid, h);
  }

  lemma AcqFields(o: OneLock.State, g: nat)
    requires OneLock.Enabled(o, OneLock.DeliverAcq(g))
    ensures var u, mid := OneLock.Next(o, OneLock.DeliverAcq(g)), o.(up := o.up[g := o.up[g][1..]]);
            && u.n == o.n && u.m == o.m && u.phase == o.phase && u.up == mid.up && |u.down| == |o.down|
            && u.rec == OneLock.Ask(mid, g).0.rec
            && u.down == if OneLock.Ask(mid, g).1 >= -1 && g != o.m
                         then o.down[g := o.down[g] + [u.rec.lasthostid]] else o.down
  {
  }

  lemma AcqShows(s: State, g: nat, h: nat, l: nat, mid: OneLock.State, u: OneLock.State, node: SynState,
                 envs: seq<Envelope>)
    requires Shape(s) && g < s.n && h < s.n && g != h && l < LOCK_NUM && l % s.n == h && Shows(s, l, mid)
    requires WellFormed(node) && node.me == h && node.n == s.n && |envs| <= 1
    requires PhaseOf(Put(s, h, node, s.pcs[h], envs), h, l) == mid.phase[h] && node.locks[l] == u.rec
    requires u.n == mid.n && u.m == mid.m && u.phase == mid.phase && u.up == mid.up
    requires envs == [] ==> u.down == mid.down
    requires envs != [] ==>
               envs[0] == Envelope(g, GrantLock(l, u.rec.lasthostid)) &&
               u.down == mid.down[g := mid.down[g] + [u.rec.lasthostid]]
    ensures Shape(Put(s, h, node, s.pcs[h], envs)) && Shows(Put(s, h, node, s.pcs[h], envs), l, u)
  {
    if envs != [] {
      Single(envs[0].msg, l);
    }
    SameLock(s, h, node, s.pcs[h], envs, l, mid, u);
  }

  lemma DeliverAcq(s: State, a: Action, l: nat, o: OneLock.State)
    requires Enabled(s, a) && a.Deliver? && l < LOCK_NUM && Channel(s.net, a.src, a.dst)[0] == AcqLock(l)
    requires Shows(s, l, o) && MsgOk(s.n, a.src, a.dst, AcqLock(l))
    ensures Shape(Next(s, a)) && OneLock.Enabled(o, Translate(s, a))
    ensures Shows(Next(s, a), l, After(s, a, l, o))
  {
    var g, h := a.src, a.dst;
    TakenShows(s, g, h, l, o);
    var (node, envs) := HandleAcquire(s.nodes[h], l, g);
    var mid := o.(up := o.up[g := o.up[g][1..]]);
    AcqView(Taken(s, g, h), g, h, l, mid, node, envs);
    AcqFields(o, g);
    AcqShows(Taken(s, g, h), g, h, l, mid, OneLock.Next(o, OneLock.DeliverAcq(g)), node, envs);
  }

  lemma DeliverRlsWakes(s: State, a: Action, l: nat, o: OneLock.State)
    requires Enabled(s, a) && a.Deliver? && l < LOCK_NUM && Channel(s.net, a.src, a.dst)[0] == RlsLock(l)
    requires Shows(s, l, o) && MsgOk(s.n, a.src, a.dst, RlsLock(l)) && OneLock.HostOk(o, a.dst)
    requires Wakes(s.nodes[a.dst], a.src, RlsLock(l))
    ensures Shape(Next(s, a)) && OneLock.Enabled(o, Translate(s, a))
    ensures Shows(Next(s, a), l, After(s, a, l, o))
  {
    var g, h := a.src, a.dst;
    TakenShows(s, g, h, l, o);
    var mid := o.(up := o.up[g := o.up[g][1..]]);
    WokenWaits(s, g, h, RlsLock(l), o);
    SameLock(Taken(s, g, h), h, HandleRelease(s.nodes[h], l, g).0, s.pcs[h], [], l, mid, After(s, a, l, o));
  }

  /** What the manager does with a release that does not wake it, and the view of the lock after it. */
  lemma RlsView(s: State, g: nat, h: nat, l: nat, mid: OneLock.State, t: SynState, envs: seq<Envelope>)
    requires Shape(s) && g < s.n && h < s.n && g != h && l < LOCK_NUM && l % s.n == h && Shows(s, l, mid)
    requires (t, envs) == HandleRelease(s.nodes[h], l, g) && !Wakes(s.nodes[h], g, RlsLock(l))
    ensures WellFormed(t) && t.me == h && t.n == s.n && |envs| <= 1
    ensures PhaseOf(Put(s, h, t, s.pcs[h], envs), h, l) == mid.phase[h]
    ensures t.locks[l] == OneLock.Free(mid, g).0.rec && OneLock.Free(mid, g).1 != h
    ensures envs
      == if 0 <= OneLock.Free(mid, g).1 < s.n then
        [Envelope(OneLock.Free(mid, g).1, GrantLock(l, t.locks[l].lasthostid))] else []
  {
    assert ShowsHost(s, l, mid, h);
  }

  lemma RlsShows(s: State, g: nat, h: nat, l: nat, mid: OneLock.State, t: SynState, envs: seq<Envelope>)
    requires Shape(s) && g < s.n && h < s.n && g != h && l < LOCK_NUM && l % s.n == h && Shows(s, l, mid)
    requires (t, envs) == HandleRelease(s.nodes[h], l, g) && !Wakes(s.nodes[h], g, RlsLock(l))
    ensures |envs| <= 1 && Shape(Put(s, h, t, s.pcs[h], envs)) && OneLock.Free(mid, g).1 != h
    ensures Shows(Put(s, h, t, s.pcs[h], envs), l, OneLock.Free(mid, g).0)
  {
    RlsView(s, g, h, l, mid, t, envs);
    if envs != [] {
      Single(envs[0].msg, l);
    }
    SameLock(s, h, t, s.pcs[h], envs, l, mid, OneLock.Free(mid, g).0);
  }

  lemma DeliverRlsQuiet(s: State, a: Action, l: nat, o: OneLock.State)
    requires Enabled(s, a) && a.Deliver? && l < LOCK_NUM && Channel(s.net, a.src, a.dst)[0] == RlsLock(l)
    requires Shows(s, l, o) && MsgOk(s.n, a.src, a.dst, RlsLock(l))
    requires !Wakes(s.nodes[a.dst], a.src, RlsLock(l))
    ensures Shape(Next(s, a)) && OneLock.Enabled(o, Translate(s, a))
    ensures Shows(Next(s, a), l, After(s, a, l, o))
  {
    var g, h := a.src, a.dst;
    TakenShows(s, g, h, l, o);
    var (node, envs) := HandleRelease(s.nodes[h], l, g);
    RlsShows(Taken(s, g, h), g, h, l, o.(up := o.up[g := o.up[g][1..]]), node, envs);
  }

  lemma DeliverGrant(s: State, a: Action, l: nat, last: int, o: OneLock.State)
    requires Enabled(s, a) && a.Deliver? && l < LOCK_NUM && Channel(s.net, a.src, a.dst)[0] == GrantLock(l, last)
    requires Shows(s, l, o) && MsgOk(s.n, a.src, a.dst, GrantLock(l, last)) && OneLock.HostOk(o, a.dst)
    ensures Shape(Next(s, a)) && OneLock.Enabled(o, Translate(s, a))
    ensures Shows(Next(s, a), l, After(s, a, l, o))
  {
    var g, h := a.src, a.dst;
    TakenShows(s, g, h, l, o);
    WokenWaits(s, g, h, GrantLock(l, last), o);
    var mid := o.(down := o.down[h := o.down[h][1..]]);
    SameLock(Taken(s, g, h), h, HandleGrant(s.nodes[h], l, last), s.pcs[h], [], l, mid, After(s, a, l, o));
  }

  // ----- every step -----

  /** Seen through lock `l`, a step of the system is a step of `OneLock` or no step at all. */
  lemma StepShows(s: State, a: Action, os: seq<OneLock.State>, l: nat)
    requires AllShown(s, os) && Enabled(s, a) && l < LOCK_NUM
    ensures Shape(Next(s, a))
    ensures l == LockOf(s, a) ==> OneLock.Enabled(os[l], Translate(s, a))
    ensures Shows(Next(s, a), l, After(s, a, l, os[l]))
  {
    var o := os[l];
    assert Shows(s, l, o);
    match a {
      case MiLock(h, _) =>
        assert PcOk(s, h);
        if l == LockOf(s, a) { MiLockSame(s, a, l, o); } else { MiLockOther(s, a, l, o); }
      case Finish(h) => assert PcOk(s, h); FinishShows(s, a, l, o);
      case Clear(h) => assert PcOk(s, h); FinishShows(s, a, l, o);
      case MiUnlock(h, _) => assert PcOk(s, h); MiUnlockShows(s, a, l, o);
      case Release(h) =>
        assert PcOk(s, h);
        if l != LockOf(s, a) { ReleaseOther(s, a, l, o); }
        else if l % s.n == h { ReleaseLocal(s, a, l, o); }
        else { ReleaseRemote(s, a, l, o); }
      case Deliver(g, h) =>
        DeliverStep(s, a, os, l);
    }
  }

  lemma DeliverStep(s: State, a: Action, os: seq<OneLock.State>, l: nat)
    requires AllShown(s, os) && Enabled(s, a) && a.Deliver? && l < LOCK_NUM
    ensures Shape(Next(s, a))
    ensures l == LockOf(s, a) ==> OneLock.Enabled(os[l], Translate(s, a))
    ensures Shows(Next(s, a), l, After(s, a, l, os[l]))
  {
    var g, h := a.src, a.dst;
    var msg := Channel(s.net, g, h)[0];
    assert MsgOk(s.n, g, h, msg);
    var k := msg.lockno;
    assert Shows(s, k, os[k]) && OneLock.Inv(os[k]) && Shows(s, l, os[l]);
    assert OneLock.HostOk(os[k], h);
    if l != k { DeliverOther(s, a, l, os[l], os[k]); }
    else if msg.AcqLock? { DeliverAcq(s, a, l, os[l]); }
    else if msg.GrantLock? { DeliverGrant(s, a, l, msg.lasthostid, os[l]); }
    else if Wakes(s.nodes[h], g, msg) { DeliverRlsWakes(s, a, l, os[l]); }
    else { DeliverRlsQuiet(s, a, l, os[l]); }
  }

  /** The message sent, if any, is addressed to or sent by its lock's manager. */
  lemma SentOk(n: nat, net: Net, from: nat, envs: seq<Envelope>)
    requires 0 < n && NetOk(n, net) && |envs| <= 1
    requires envs != [] ==> MsgOk(n, from, envs[0].to, envs[0].msg)
    ensures NetOk(n, Post(net, from, envs))
  {
    var net' := Post(net, from, envs);
    forall g: nat, h: nat, i | 0 <= i < |Channel(net', g, h)|
      ensures MsgOk(n, g, h, Channel(net', g, h)[i])
    {
      if i < |Channel(net, g, h)| {
        assert MsgOk(n, g, h, Channel(net, g, h)[i]);
      }
    }
  }

  lemma TakenOk(s: State, g: nat, h: nat)
    requires 0 < s.n && NetOk(s.n, s.net) && Channel(s.net, g, h) != []
    ensures NetOk(s.n, Taken(s, g, h).net)
  {
    var net' := Taken(s, g, h).net;
    forall x: nat, y: nat, i | 0 <= i < |Channel(net', x, y)|
      ensures MsgOk(s.n, x, y, Channel(net', x, y)[i])
    {
      assert MsgOk(s.n, x, y, Channel(s.net, x, y)[if (x, y) == (g, h) then i + 1 else i]);
    }
  }

  lemma PcDelivered(s: State, a: Action, os: seq<OneLock.State>)
    requires AllShown(s, os) && Enabled(s, a) && a.Deliver? && Shape(Next(s, a))
    ensures PcOk(Next(s, a), a.dst)
  {
    var g, h := a.src, a.dst;
    var msg := Channel(s.net, g, h)[0];
    assert PcOk(s, h) && MsgOk(s.n, g, h, msg);
    assert Shows(s, msg.lockno, os[msg.lockno]) && OneLock.Inv(os[msg.lockno]);
    if Wakes(s.nodes[h], g, msg) {
      WokenWaits(s, g, h, msg, os[msg.lockno]);
    } else {
      QuietHandler(s.nodes[h], g, msg);
    }
  }

  lemma PcKept(s: State, a: Action, os: seq<OneLock.State>, x: nat)
    requires AllShown(s, os) && Enabled(s, a) && Shape(Next(s, a)) && x < s.n
    ensures PcOk(Next(s, a), x)
  {
    assert PcOk(s, x);
    if a.Deliver? && x == a.dst {
      PcDelivered(s, a, os);
    }
  }

  lemma NetKept(s: State, a: Action)
    requires Inv(s) && Enabled(s, a)
    ensures NetOk(s.n, Next(s, a).net)
  {
    match a {
      case MiLock(h, l) => SentOk(s.n, s.net, h, LockBegin(s.nodes[h], l).1);
      case Release(h) => SentOk(s.n, s.net, h, UnlockRelease(s.nodes[h], s.pcs[h].lockno).1);
      case Deliver(g, h) =>
        TakenOk(s, g, h);
        SentOk(s.n, Taken(s, g, h).net, h, Handle(s.nodes[h], g, Channel(s.net, g, h)[0]).1);
      case _ =>
    }
  }

  /** The views after the step. */
  ghost function NextViews(s: State, a: Action, os: seq<OneLock.State>): (r: seq<OneLock.State>)
    requires AllShown(s, os) && Enabled(s, a)
    ensures |r| == LOCK_NUM
  {
    var k := LockOf(s, a);
    if k < 0 || k >= LOCK_NUM || !OneLock.Enabled(os[k], Translate(s, a)) then os
    else os[k := OneLock.Next(os[k], Translate(s, a))]
  }

  lemma StepAll(s: State, a: Action, os: seq<OneLock.State>)
    requires AllShown(s, os) && Enabled(s, a)
    ensures AllShown(Next(s, a), NextViews(s, a, os))
  {
    var t, us := Next(s, a), NextViews(s, a, os);
    forall l | 0 <= l < LOCK_NUM
      ensures Shape(t) && Shows(t, l, us[l]) && OneLock.Inv(us[l])
    {
      StepShows(s, a, os, l);
      assert Shows(s, l, os[l]) && OneLock.Inv(os[l]);
      if l == LockOf(s, a) {
        OneLock.StepInv(os[l], Translate(s, a));
      }
    }
    assert Shows(t, 0, us[0]);
    forall x | 0 <= x < s.n
      ensures PcOk(t, x)
    {
      PcKept(s, a, os, x);
    }
    NetKept(s, a);
  }

  // ----- every run -----

  ghost function InitialView(n: nat, l: nat): OneLock.State
    requires 0 < n
  {
    OneLock.State(n, l % n, InitialLock, seq(n, _ => OneLock.Out), seq(n, _ => []), seq(n, _ => []), [], [], [])
  }

  ghost function InitialViews(n: nat): (os: seq<OneLock.State>)
    requires 0 < n
    ensures |os| == LOCK_NUM && forall l :: 0 <= l < LOCK_NUM ==> os[l] == InitialView(n, l)
  {
    seq(LOCK_NUM, l requires 0 <= l < LOCK_NUM => InitialView(n, l))
  }

  lemma InitAll(s: State)
    requires Init(s)
    ensures AllShown(s, InitialViews(s.n))
  {
    forall l | 0 <= l < LOCK_NUM
      ensures Shows(s, l, InitialView(s.n, l)) && OneLock.Inv(InitialView(s.n, l))
    {
      var o := InitialView(s.n, l);
      OneLock.InitInv(o);
      forall h | 0 <= h < s.n
        ensures ShowsHost(s, l, o, h)
      {
        assert s.nodes[h] == Initial(h, s.n);
      }
    }
  }

  lemma {:induction false} RunAll(s: State, actions: seq<Action>, os: seq<OneLock.State>)
    returns (us: seq<OneLock.State>)
    requires AllShown(s, os) && Run(s, actions)
    ensures AllShown(Exec(s, actions), us) && Exec(s, actions).n == s.n
    decreases |actions|
  {
    if actions == [] {
      us := os;
    } else {
      StepAll(s, actions[0], os);
      us := RunAll(Next(s, actions[0]), actions[1..], NextViews(s, actions[0], os));
    }
  }

  /** The host has the lock: from the return of `mi_lock` to the call of `mi_unlock`. */
  ghost predicate InCriticalSection(s: State, h: nat, l: nat)
    requires Shape(s) && h < s.n && l < LOCK_NUM
  {
    s.nodes[h].myLocks[l] && !(s.pcs[h].InLock? && s.pcs[h].lockno == l) &&
      !(s.pcs[h].Unlocking? && s.pcs[h].lockno == l)
  }

  /** In every run, for every lock, at most one host is in the critical section. */
  lemma MutualExclusion(s: State, actions: seq<Action>, l: nat, g: nat, h: nat)
    requires Init(s) && Run(s, actions) && l < LOCK_NUM && g < s.n && h < s.n
    ensures var t := Exec(s, actions);
            && Shape(t) && t.n == s.n
            && (InCriticalSection(t, g, l) && InCriticalSection(t, h, l) ==> g == h)
  {
    InitAll(s);
    var us := RunAll(s, actions, InitialViews(s.n));
    var t := Exec(s, actions);
    var u := us[l];
    assert Shows(t, l, u) && OneLock.Inv(u);
    assert PcOk(t, g) && PcOk(t, h);
    assert ShowsHost(t, l, u, g) && ShowsHost(t, l, u, h);
    assert OneLock.HostOk(u, g) && OneLock.HostOk(u, h);
  }

  /**
   In every run every waiting list has a free slot left, so `graspLock`'s array write is in range
   (`SynNode.RoomFor`).
  */
  lemma QueueNeverOverflows(s: State, actions: seq<Action>, l: nat)
    requires Init(s) && s.n <= MAX_HOST_NUM && Run(s, actions) && l < LOCK_NUM
    ensures var t := Exec(s, actions);
            && Shape(t) && t.n == s.n
            && |t.nodes[l % s.n].locks[l].waiting| < MAX_HOST_NUM
  {
    InitAll(s);
    var us := RunAll(s, actions, InitialViews(s.n));
    var u := us[l];
    assert Shows(Exec(s, actions), l, u) && OneLock.Inv(u);
    if u.rec.state == LOCKED {
      assert OneLock.HostOk(u, u.rec.owner);
      OneLock.Pigeonhole(u.rec.waiting + [u.rec.owner], s.n);
    }
  }

  /** The host spins on `waitFlag` inside `mi_lock`. */
  ghost predicate Blocked(s: State, h: nat) {
    Shape(s) && h < s.n && s.pcs[h].InLock? && s.nodes[h].waitFlag
  }

  /** In every run, a host blocked on a lock is in exactly one of: ACQ in flight, waiting list, GRANT in flight. */
  lemma NoLostWaiter(s: State, actions: seq<Action>, h: nat)
    requires Init(s) && Run(s, actions) && h < s.n
    requires Blocked(Exec(s, actions), h)
    ensures var t := Exec(s, actions);
            var l := t.pcs[h].lockno;
            && Shape(t) && t.n == s.n && ValidLock(l)
            && var m := l % s.n;
               var asked := AcqLock(l) in Channel(t.net, h, m);
               var queued := h in t.nodes[m].locks[l].waiting;
               var granted := exists last :: GrantLock(l, last) in Channel(t.net, m, h);
               (asked || queued || granted) && !(asked && queued) && !(asked && granted) && !(queued && granted)
  {
    InitAll(s);
    var us := RunAll(s, actions, InitialViews(s.n));
    var t := Exec(s, actions);
    assert PcOk(t, h);
    var l := t.pcs[h].lockno;
    var u := us[l];
    assert Shows(t, l, u) && OneLock.Inv(u);
    assert ShowsHost(t, l, u, h) && OneLock.HostOk(u, h);
    UpsMembers(Channel(t.net, h, u.m), l);
    DownsMembers(Channel(t.net, u.m, h), l);
  }

  lemma {:induction false} UpsMembers(ch: seq<Msg>, l: nat)
    ensures OneLock.Acq in Ups(ch, l) <==> AcqLock(l) in ch
  {
    if ch != [] {
      UpsMembers(ch[1..], l);
    }
  }

  lemma {:induction false} DownsMembers(ch: seq<Msg>, l: nat)
    ensures Downs(ch, l) != [] <==> exists last :: GrantLock(l, last) in ch
  {
    if ch != [] {
      DownsMembers(ch[1..], l);
      if ch[0].GrantLock? && ch[0].lockno == l {
        assert GrantLock(l, ch[0].lasthostid) in ch;
      }
    }
  }

  // ----- what is proved for one lock holds for every lock -----

  /** What one action adds to the projection. */
  ghost function Step(s: State, a: Action, l: nat): seq<OneLock.Action>
    requires Enabled(s, a)
  {
    if l == LockOf(s, a) then [Translate(s, a)] else []
  }

  /** The part of a run that is about lock `l`, as a run of the one-lock protocol. */
  ghost function Projected(s: State, actions: seq<Action>, l: nat): seq<OneLock.Action>
    requires Run(s, actions)
    decreases |actions|
  {
    if actions == [] then []
    else
      Step(s, actions[0], l) + Projected(Next(s, actions[0]), actions[1..], l)
  }

  lemma NextView(s: State, a: Action, os: seq<OneLock.State>, l: nat)
    requires AllShown(s, os) && Enabled(s, a) && l < LOCK_NUM
    ensures l == LockOf(s, a) ==> OneLock.Enabled(os[l], Translate(s, a))
    ensures NextViews(s, a, os)[l] == After(s, a, l, os[l])
  {
    StepShows(s, a, os, l);
  }

  lemma ProjectsFirst(s: State, actions: seq<Action>, o: OneLock.State, l: nat)
    requires Run(s, actions) && actions != []
    requires l == LockOf(s, actions[0]) ==> OneLock.Enabled(o, Translate(s, actions[0]))
    requires OneLock.Run(After(s, actions[0], l, o), Projected(Next(s, actions[0]), actions[1..], l))
    ensures OneLock.Run(o, Projected(s, actions, l))
    ensures OneLock.Exec(o, Projected(s, actions, l))
            == OneLock.Exec(After(s, actions[0], l, o), Projected(Next(s, actions[0]), actions[1..], l))
  {
    var rest := Projected(Next(s, actions[0]), actions[1..], l);
    if l == LockOf(s, actions[0]) {
      assert Projected(s, actions, l)[1..] == rest;
    } else {
      assert Projected(s, actions, l) == rest;
    }
  }

  /** The views at the end of a run; that of `l` is where the projected run has taken it. */
  lemma {:induction false} RunProjects(s: State, actions: seq<Action>, os: seq<OneLock.State>, l: nat)
    returns (us: seq<OneLock.State>)
    requires AllShown(s, os) && Run(s, actions) && l < LOCK_NUM
    ensures AllShown(Exec(s, actions), us) && Exec(s, actions).n == s.n && OneLock.Run(os[l], Projected(s, actions, l))
    ensures us[l] == OneLock.Exec(os[l], Projected(s, actions, l))
    decreases |actions|
  {
    if actions == [] {
      us := os;
    } else {
      StepAll(s, actions[0], os);
      NextView(s, actions[0], os, l);
      us := RunProjects(Next(s, actions[0]), actions[1..], NextViews(s, actions[0], os), l);
      ProjectsFirst(s, actions, os[l], l);
    }
  }

  /** Lock `l` as the one-lock protocol sees it after a run, with the history of requests, owners and releases. */
  ghost function View(s: State, actions: seq<Action>, l: nat): OneLock.State
    requires Init(s) && Run(s, actions) && OneLock.Run(InitialView(s.n, l), Projected(s, actions, l))
  {
    OneLock.Exec(InitialView(s.n, l), Projected(s, actions, l))
  }

  /** Every run, seen through any lock, is a run of the one-lock protocol that ends in what the lock then looks like. */
  lemma EveryLockIsOneLock(s: State, actions: seq<Action>, l: nat)
    requires Init(s) && Run(s, actions) && l < LOCK_NUM
    ensures OneLock.Init(InitialView(s.n, l)) && OneLock.Run(InitialView(s.n, l), Projected(s, actions, l))
    ensures Shape(Exec(s, actions)) && Exec(s, actions).n == s.n && Shows(Exec(s, actions), l, View(s, actions, l))
  {
    var us := FirstViews(s, actions, l);
    assert Shows(Exec(s, actions), l, us[l]);
  }

  lemma InitialViewOk(n: nat, l: nat)
    requires 0 < n
    ensures OneLock.Init(InitialView(n, l))
  {
  }

  lemma FirstViews(s: State, actions: seq<Action>, l: nat) returns (us: seq<OneLock.State>)
    requires Init(s) && Run(s, actions) && l < LOCK_NUM
    ensures OneLock.Init(InitialView(s.n, l)) && OneLock.Run(InitialView(s.n, l), Projected(s, actions, l))
    ensures AllShown(Exec(s, actions), us) && Exec(s, actions).n == s.n && us[l] == View(s, actions, l)
  {
    InitAll(s);
    InitialViewOk(s.n, l);
    us := RunProjects(s, actions, InitialViews(s.n), l);
  }

  /**
   The ownership tokens of lock `l` at or near host `h`: GRANTs on the way to it, its holding, RLS messages
   from it.
  */
  ghost function TokensAt(s: State, l: nat, h: nat): nat
    requires Shape(s) && l < LOCK_NUM && h < s.n
  {
    |Downs(Channel(s.net, l % s.n, h), l)| + (if OneLock.Holds(PhaseOf(s, h, l)) then 1 else 0)
    + OneLock.CountRls(Ups(Channel(s.net, h, l % s.n), l))
  }

  ghost function Tokens(s: State, l: nat, upto: nat): nat
    requires Shape(s) && l < LOCK_NUM && upto <= s.n
  {
    if upto == 0 then 0 else Tokens(s, l, upto - 1) + TokensAt(s, l, upto - 1)
  }

  lemma {:induction false} TokensShown(s: State, l: nat, u: OneLock.State, upto: nat)
    requires Shape(s) && l < LOCK_NUM && Shows(s, l, u) && upto <= s.n
    ensures Tokens(s, l, upto) == OneLock.Tokens(u, upto)
  {
    if upto > 0 {
      TokensShown(s, l, u, upto - 1);
      assert ShowsHost(s, l, u, upto - 1);
    }
  }

  /** In every run the token of every lock is in exactly one place: free at its manager, or one of the above. */
  lemma TokenConservation(s: State, actions: seq<Action>, l: nat)
    requires Init(s) && Run(s, actions) && l < LOCK_NUM
    ensures var t := Exec(s, actions);
            && Shape(t) && t.n == s.n
            && (if t.nodes[l % t.n].locks[l].state == FREE then 1 else 0) + Tokens(t, l, t.n) == 1
  {
    EveryLockIsOneLock(s, actions, l);
    OneLock.TokenConservation(InitialView(s.n, l), Projected(s, actions, l));
    TokensShown(Exec(s, actions), l, View(s, actions, l), s.n);
  }

  /**
   For every lock, the owners so far and then the waiting list are the requests, in the order the manager
   took them.
  */
  lemma OwnersInRequestOrder(s: State, actions: seq<Action>, l: nat)
    requires Init(s) && Run(s, actions) && l < LOCK_NUM
    ensures OneLock.Run(InitialView(s.n, l), Projected(s, actions, l))
    ensures var t, u := Exec(s, actions), View(s, actions, l);
            && Shape(t) && t.n == s.n
            && u.requests == u.granted + t.nodes[l % t.n].locks[l].waiting
            && u.released <= u.granted && |u.granted| <= |u.released| + 1
            && (t.nodes[l % t.n].locks[l].state == LOCKED ==>
                OneLock.LastOf(u.granted) == t.nodes[l % t.n].locks[l].owner)
  {
    EveryLockIsOneLock(s, actions, l);
    OneLock.OwnersInRequestOrder(InitialView(s.n, l), Projected(s, actions, l));
  }

  /** The view of a run that goes on. */
  ghost function LaterView(s: State, before: seq<Action>, after: seq<Action>, l: nat): OneLock.State
    requires Init(s) && Run(s, before) && OneLock.Run(InitialView(s.n, l), Projected(s, before, l))
    requires Run(Exec(s, before), after) && OneLock.Run(View(s, before, l), Projected(Exec(s, before), after, l))
  {
    OneLock.Exec(View(s, before, l), Projected(Exec(s, before), after, l))
  }

  lemma EveryLockGoesOn(s: State, before: seq<Action>, after: seq<Action>, l: nat)
    requires Init(s) && Run(s, before) && Run(Exec(s, before), after) && l < LOCK_NUM
    ensures OneLock.Init(InitialView(s.n, l)) && OneLock.Run(InitialView(s.n, l), Projected(s, before, l))
    ensures OneLock.Run(View(s, before, l), Projected(Exec(s, before), after, l))
    ensures var t, t' := Exec(s, before), Exec(Exec(s, before), after);
            && Shape(t) && t.n == s.n && Shows(t, l, View(s, before, l)) && OneLock.Inv(View(s, before, l))
            && Shape(t') && t'.n == s.n && Shows(t', l, LaterView(s, before, after, l))
  {
    var us := FirstViews(s, before, l);
    assert Shows(Exec(s, before), l, us[l]);
    var vs := RunProjects(Exec(s, before), after, us, l);
    assert Shows(Exec(Exec(s, before), after), l, vs[l]);
  }

  /**
   From owners `a` and waiting list `w` on, to owners `b` and waiting list `v`: the (i+1)-st new owner is the
   host that was at position `i`, and until then that host has moved up by one per new owner.
  */
  ghost predicate ServedInTurn(a: seq<int>, w: seq<int>, b: seq<int>, v: seq<int>, i: nat)
    requires i < |w|
  {
    && a <= b
    && var chosen := b[|a|..];
       if |chosen| > i then chosen[i] == w[i] else i - |chosen| < |v| && v[i - |chosen|] == w[i]
  }

  lemma TurnsAre(t: OneLock.State, u: OneLock.State, i: nat)
    requires i < |t.rec.waiting| && OneLock.ServedInTurn(t, u, i) && t.granted <= u.granted
    ensures ServedInTurn(t.granted, t.rec.waiting, u.granted, u.rec.waiting, i)
  {
  }

  lemma OneLockTurns(t: OneLock.State, after: seq<OneLock.Action>, i: nat)
    requires OneLock.Inv(t) && OneLock.Run(t, after) && i < |t.rec.waiting|
    ensures var u := OneLock.Exec(t, after);
            ServedInTurn(t.granted, t.rec.waiting, u.granted, u.rec.waiting, i)
  {
    OneLock.BoundedWaitingFrom(t, after, i);
    OneLock.HistoryGrows(t, after);
    TurnsAre(t, OneLock.Exec(t, after), i);
  }

  /** In every lock's waiting list a host is served after as many new owners as are in front of it. */
  lemma BoundedWaiting(s: State, before: seq<Action>, after: seq<Action>, l: nat, i: nat)
    requires Init(s) && Run(s, before) && Run(Exec(s, before), after) && l < LOCK_NUM
    ensures OneLock.Run(InitialView(s.n, l), Projected(s, before, l))
    ensures OneLock.Run(View(s, before, l), Projected(Exec(s, before), after, l))
    ensures var t, t' := Exec(s, before), Exec(Exec(s, before), after);
            && Shape(t) && t.n == s.n && Shape(t') && t'.n == s.n
            && var w, v := t.nodes[l % s.n].locks[l].waiting, t'.nodes[l % s.n].locks[l].waiting;
               i < |w| ==> ServedInTurn(View(s, before, l).granted, w, LaterView(s, before, after, l).granted, v, i)
  {
    EveryLockGoesOn(s, before, after, l);
    var u := View(s, before, l);
    if i < |u.rec.waiting| {
      OneLockTurns(u, Projected(Exec(s, before), after, l), i);
    }
  }

  /** The hosts that released lock `l` in a run, in order. */
  ghost function Releasers(s: State, actions: seq<Action>, l: nat): seq<int>
    requires Run(s, actions)
    decreases |actions|
  {
    if actions == [] then []
    else
      (if actions[0].Release? && s.pcs[actions[0].h].lockno == l then [actions[0].h] else [])
      + Releasers(Next(s, actions[0]), actions[1..], l)
  }

  /** The hosts that release the lock in a run of the one-lock protocol with manager `m`. */
  ghost function ReleasedIn(m: nat, actions: seq<OneLock.Action>): seq<int> {
    if actions == [] then []
    else
      (if actions[0].LocalRelease? then [m] else if actions[0].RemoteRelease? then [actions[0].h] else [])
      + ReleasedIn(m, actions[1..])
  }

  lemma {:induction false} ReleasedAre(o: OneLock.State, actions: seq<OneLock.Action>)
    requires OneLock.Run(o, actions)
    ensures OneLock.Exec(o, actions).released == o.released + ReleasedIn(o.m, actions)
    decreases |actions|
  {
    if actions != [] {
      ReleasedAre(OneLock.Next(o, actions[0]), actions[1..]);
    }
  }

  lemma {:induction false} ReleasersAre(s: State, actions: seq<Action>, l: nat)
    requires 0 < s.n && Run(s, actions)
    ensures ReleasedIn(l % s.n, Projected(s, actions, l)) == Releasers(s, actions, l)
    decreases |actions|
  {
    if actions != [] {
      var a, rest := actions[0], actions[1..];
      ReleasersAre(Next(s, a), rest, l);
      if l == LockOf(s, a) {
        assert Projected(s, actions, l)[1..] == Projected(Next(s, a), rest, l);
      } else {
        assert Projected(s, actions, l) == Projected(Next(s, a), rest, l);
      }
    }
  }

  /** For every lock: a GRANT in flight, and a host just given the lock, names the host that released it last, or -1. */
  lemma GrantNamesLastReleaser(s: State, actions: seq<Action>, l: nat, h: nat)
    requires Init(s) && Run(s, actions) && l < LOCK_NUM && h < s.n
    ensures var t := Exec(s, actions);
            && Shape(t) && t.n == s.n
            && (forall last :: GrantLock(l, last) in Channel(t.net, l % t.n, h) ==>
                last == OneLock.LastOf(Releasers(s, actions, l)))
            && (PhaseOf(t, h, l).Woken? ==> PhaseOf(t, h, l).last == OneLock.LastOf(Releasers(s, actions, l)))
  {
    EveryLockIsOneLock(s, actions, l);
    var o, t := InitialView(s.n, l), Exec(s, actions);
    OneLock.GrantNamesLastReleaser(o, Projected(s, actions, l), h);
    ReleasedAre(o, Projected(s, actions, l));
    ReleasersAre(s, actions, l);
    assert ShowsHost(t, l, View(s, actions, l), h);
    forall last | GrantLock(l, last) in Channel(t.net, l % t.n, h)
      ensures last == OneLock.LastOf(Releasers(s, actions, l))
    {
      DownsHas(Channel(t.net, l % t.n, h), l, last);
    }
  }

  lemma {:induction false} DownsHas(ch: seq<Msg>, l: nat, last: int)
    requires GrantLock(l, last) in ch
    ensures last in Downs(ch, l)
  {
    if ch[0] != GrantLock(l, last) {
      DownsHas(ch[1..], l, last);
    }
  }

  // ----- what the lock calls return -----

  /** Any lock at the end of a run, with the invariants of its view. */
  lemma LockView(s: State, actions: seq<Action>, l: nat) returns (u: OneLock.State)
    requires Init(s) && Run(s, actions) && l < LOCK_NUM
    ensures Inv(Exec(s, actions)) && Exec(s, actions).n == s.n
    ensures OneLock.Run(InitialView(s.n, l), Projected(s, actions, l))
    ensures u == View(s, actions, l) && Shows(Exec(s, actions), l, u) && OneLock.Inv(u)
  {
    var us := FirstViews(s, actions, l);
    u := us[l];
  }

  /**
   `mi_lock` refuses a bad lock number with -1 and a lock in whose critical section the host is with -2, and
   nothing else. On the manager a free lock is given at once; everybody else waits.
  */
  lemma LockOutcome(s: State, actions: seq<Action>, h: nat, l: int)
    requires Init(s) && Run(s, actions) && h < s.n && Enabled(Exec(s, actions), MiLock(h, l))
    ensures var t := Exec(s, actions);
            && Shape(t) && t.n == s.n
            && var start := LockBegin(t.nodes[h], l).2;
               && (start == Refused(-1) <==> l < 0 || LOCK_NUM <= l)
               && (start == Refused(-2) <==> 0 <= l < LOCK_NUM && InCriticalSection(t, h, l))
               && (start.Refused? ==> start.code == -1 || start.code == -2)
               && (start.Given? ==> l % t.n == h && t.nodes[h].locks[l].state == FREE)
               && (start.Blocked? && l % t.n == h ==> t.nodes[h].locks[l].state == LOCKED)
  {
    if ValidLock(l) {
      var u := LockView(s, actions, l);
      assert PcOk(Exec(s, actions), h) && ShowsHost(Exec(s, actions), l, u, h) && OneLock.HostOk(u, h);
    } else {
      var u := LockView(s, actions, 0);
    }
  }

  /**
   The manager's `freeLock` in `mi_unlock` answers -5 if and only if nobody waits, and otherwise the host that
   waited longest, which is another one: so `mi_unlock` never gets to its error message.
  */
  lemma UnlockOutcome(s: State, actions: seq<Action>, h: nat)
    requires Init(s) && Run(s, actions) && h < s.n && Enabled(Exec(s, actions), Release(h))
    ensures var t := Exec(s, actions);
            && Shape(t) && t.n == s.n
            && var l := t.pcs[h].lockno;
               && !UnlockFails(t.nodes[h], l)
               && (l % t.n == h ==>
                     var r, waiting := FreeLock(t.nodes[h].(myLocks := t.nodes[h].myLocks[l := false]), l, h).1,
                                       t.nodes[h].locks[l].waiting;
                     && (r == -5 <==> waiting == [])
                     && (waiting != [] ==> r == waiting[0] && 0 <= r < t.n && r != h))
  {
    var t := Exec(s, actions);
    var u := LockView(s, actions, t.pcs[h].lockno);
    assert ShowsHost(t, t.pcs[h].lockno, u, h) && OneLock.HostOk(u, h);
    assert u.phase[h] == OneLock.Leaving;
  }

  /** What the manager's `graspLock` or `freeLock` answers when this message is handled. */
  ghost function ManagerResult(node: SynState, from: nat, msg: Msg): int
    requires WellFormed(node) && !msg.GrantLock?
  {
    if msg.AcqLock? then GraspLock(node, msg.lockno, from).1 else FreeLock(node, msg.lockno, from).1
  }

  /** For a request: -3 exactly if the lock is taken; for a release: -5 exactly if nobody waits. */
  ghost predicate ResultOk(n: nat, rec: LockRec, from: nat, msg: Msg, r: int) {
    && (msg.AcqLock? ==> (r == -3 <==> rec.state == LOCKED) && (rec.state == FREE ==> r == rec.lasthostid >= -1))
    && (msg.RlsLock? ==>
          && rec.owner == from && (r == -5 <==> rec.waiting == [])
          && (rec.waiting != [] ==> 0 <= r == rec.waiting[0] < n))
  }

  lemma ManagerAnswers(n: nat, node: SynState, from: nat, msg: Msg, u: OneLock.State)
    requires WellFormed(node) && !msg.GrantLock? && ValidLock(msg.lockno) && msg.lockno % node.n == node.me
    requires OneLock.Inv(u) && from < u.n == node.n == n && u.rec == node.locks[msg.lockno] && u.up[from] != []
    requires u.up[from][0] == if msg.AcqLock? then OneLock.Acq else OneLock.Rls
    ensures ResultOk(n, node.locks[msg.lockno], from, msg, ManagerResult(node, from, msg))
  {
    assert OneLock.HostOk(u, from);
  }

  /**
   A request that arrives is queued with -3 if and only if the lock is taken, and else is told the last holder;
   a release that arrives comes from the owner: -5 if and only if nobody waits, else the host that waited longest.
  */
  lemma DeliveredOutcome(s: State, actions: seq<Action>, g: nat, h: nat)
    requires Init(s) && Run(s, actions) && g < s.n && h < s.n && Enabled(Exec(s, actions), Deliver(g, h))
    ensures var t, msg := Exec(s, actions), Channel(Exec(s, actions).net, g, h)[0];
            && Shape(t) && t.n == s.n
            && (!msg.GrantLock? ==>
                  ValidLock(msg.lockno) &&
                  ResultOk(t.n, t.nodes[h].locks[msg.lockno], g, msg, ManagerResult(t.nodes[h], g, msg)))
  {
    var t, msg := Exec(s, actions), Channel(Exec(s, actions).net, g, h)[0];
    var u0 := LockView(s, actions, 0);
    assert MsgOk(s.n, g, h, msg);
    if !msg.GrantLock? {
      var u := LockView(s, actions, msg.lockno);
      TakenHead(t, g, h, msg.lockno, u);
      ManagerAnswers(t.n, t.nodes[h], g, msg, u);
    }
  }
}
