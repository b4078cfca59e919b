/**
 From whom a woken `mi_lock` fetches intervals: in every run of the lock system the host that released the
 lock last, and that is the host the memory system fetches from.
 */
module WokenSources {
  import opened Locks
  import opened Syn
  import opened LockSystem
  import OneLock
  import System

  /**
   What a woken `mi_lock` does: it fetches intervals from `last`, unless that is nobody or the host itself; then
   it makes an interval of its own. It is never left without one, and will not fetch a second time.
  */
  ghost predicate Fetches(t: State, h: nat, l: nat, last: int)
    requires Shape(t) && h < t.n && l < LOCK_NUM
  {
    var (node, source) := WokenSource(t.nodes[h], l);
    && -1 <= last < t.n
    && source == (if last != -1 && last != h then Fetch(last) else OwnInterval)
    && (node.lasthostid == -1 || node.lasthostid == h)
  }

  lemma WokenPhase(t: State, h: nat, l: nat, u: OneLock.State)
    requires Inv(t) && h < t.n && l < LOCK_NUM && t.pcs[h] == InLock(l) && !t.nodes[h].waitFlag
    requires Shows(t, l, u) && OneLock.Inv(u)
    ensures u.phase[h] == OneLock.Woken(t.nodes[h].lasthostid, l % t.n == h) == PhaseOf(t, h, l)
    ensures Fetches(t, h, l, u.phase[h].last)
  {
    assert ShowsHost(t, l, u, h) && OneLock.HostOk(u, h);
  }

  /** A woken `mi_lock` fetches from the host that released the lock last. */
  lemma WokenFetches(s: State, actions: seq<Action>, h: nat)
    requires Init(s) && Run(s, actions) && h < s.n && Enabled(Exec(s, actions), Finish(h))
    requires Exec(s, actions).pcs[h].InLock?
    ensures var t := Exec(s, actions);
            && Shape(t) && t.n == s.n
            && var l := t.pcs[h].lockno;
               Fetches(t, h, l, OneLock.LastOf(Releasers(s, actions, l)))
  {
    var t := Exec(s, actions);
    var l := t.pcs[h].lockno;
    var u := LockView(s, actions, l);
    WokenPhase(t, h, l, u);
    GrantNamesLastReleaser(s, actions, l, h);
  }

  /** In a memory system whose lock looks like this one, the same host fetches, from the same host. */
  lemma SameInMemory(t: State, h: nat, l: nat, s: System.Sys)
    requires Inv(t) && h < t.n && l < LOCK_NUM && t.pcs[h] == InLock(l) && !t.nodes[h].waitFlag
    requires System.Shape(s) && Shows(t, l, s.lk) && OneLock.Inv(s.lk)
    ensures s.lk.n == t.n && s.lk.phase[h].Woken?
    ensures System.MustFetch(s, h) <==> WokenSource(t.nodes[h], l).1 == Fetch(s.lk.phase[h].last)
    ensures !System.MustFetch(s, h) <==> WokenSource(t.nodes[h], l).1 == OwnInterval
  {
    WokenPhase(t, h, l, s.lk);
  }

  /** A free lock that its manager's own host takes: here too both systems fetch alike. */
  lemma GivenInMemory(t: State, h: nat, l: nat, s: System.Sys)
    requires Inv(t) && h < t.n && l < LOCK_NUM && t.pcs[h].Acquiring? && t.pcs[h].lockno == l
    requires System.Shape(s) && Shows(t, l, s.lk) && OneLock.Inv(s.lk)
    ensures s.lk.n == t.n && s.lk.phase[h].Woken?
    ensures System.MustFetch(s, h) <==> t.pcs[h].last != -1 && t.pcs[h].last != h
  {
    assert ShowsHost(t, l, s.lk, h) && OneLock.HostOk(s.lk, h);
  }

  // ----- nothing is fetched twice -----

  /** Only a host that was just woken has the name of another host to fetch from. */
  ghost predicate Forgot(s: State, h: nat)
    requires Shape(s) && h < s.n
  {
    (s.pcs[h].InLock? && !s.nodes[h].waitFlag) || s.nodes[h].lasthostid == -1 || s.nodes[h].lasthostid == h
  }

  ghost predicate AllForgot(s: State)
    requires Shape(s)
  {
    forall h :: 0 <= h < s.n ==> Forgot(s, h)
  }

  lemma DeliveredForgot(s: State, a: Action, os: seq<OneLock.State>)
    requires AllShown(s, os) && AllForgot(s) && Enabled(s, a) && a.Deliver? && Shape(Next(s, a))
    ensures Forgot(Next(s, a), a.dst)
  {
    var g, h := a.src, a.dst;
    var msg := Channel(s.net, g, h)[0];
    assert Forgot(s, h) && MsgOk(s.n, g, h, msg);
    assert Shows(s, msg.lockno, os[msg.lockno]) && OneLock.Inv(os[msg.lockno]);
    if Wakes(s.nodes[h], g, msg) {
      WokenWaits(s, g, h, msg, os[msg.lockno]);
    } else {
      QuietHandler(s.nodes[h], g, msg);
    }
  }

  lemma StepForgot(s: State, a: Action, os: seq<OneLock.State>)
    requires AllShown(s, os) && AllForgot(s) && Enabled(s, a) && Shape(Next(s, a)) && Next(s, a).n == s.n
    ensures AllForgot(Next(s, a))
  {
    forall h | 0 <= h < s.n
      ensures Forgot(Next(s, a), h)
    {
      assert Forgot(s, h) && PcOk(s, h);
      if a.Deliver? && h == a.dst {
        DeliveredForgot(s, a, os);
      }
    }
  }

  lemma {:induction false} RunForgot(s: State, actions: seq<Action>, os: seq<OneLock.State>)
    requires AllShown(s, os) && AllForgot(s) && Run(s, actions)
    ensures Shape(Exec(s, actions)) && AllForgot(Exec(s, actions)) && Exec(s, actions).n == s.n
    decreases |actions|
  {
    if actions != [] {
      StepAll(s, actions[0], os);
      StepForgot(s, actions[0], os);
      RunForgot(Next(s, actions[0]), actions[1..], NextViews(s, actions[0], os));
    }
  }

  /** In every run a host that was not just woken has forgotten whom it last fetched from. */
  lemma FetchedOnce(s: State, actions: seq<Action>, h: nat)
    requires Init(s) && Run(s, actions) && h < s.n
    ensures var t := Exec(s, actions);
            && Shape(t) && t.n == s.n
            && (!t.pcs[h].InLock? || t.nodes[h].waitFlag ==>
                  t.nodes[h].lasthostid == -1 || t.nodes[h].lasthostid == h)
  {
    InitAll(s);
    assert AllForgot(s) by {
      forall g | 0 <= g < s.n
        ensures Forgot(s, g)
      {
        assert s.nodes[g] == Initial(g, s.n);
      }
    }
    RunForgot(s, actions, InitialViews(s.n));
    assert Forgot(Exec(s, actions), h);
  }
}
