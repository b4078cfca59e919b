/**
 The protocol for one lock, over any number of hosts: host `m` manages it, ACQ and RLS messages
 travel up to the manager, GRANT messages (carrying the last holder) travel down, and every
 channel is FIFO. Each action is one message handler or one atomic piece of `mi_lock`/`mi_unlock`.
 */
module OneLock {
  import opened Locks

  /**
   Where a host stands with respect to the lock. `Woken` has been given the lock but `mi_lock`
   still has to fetch intervals; `Inside` is the critical section; `Leaving` has entered
   `mi_unlock`; `Clearing` has sent RLS but not yet cleared `myLocks`.
   */
  datatype Phase = Out | Waiting | Woken(last: int, byRelease: bool) | Inside | Leaving | Clearing

  datatype Up = Acq | Rls

  /** `requests`, `granted` and `released` record the history; no action reads them. */
  datatype State = State(
    n: nat, m: nat, rec: LockRec, phase: seq<Phase>, up: seq<seq<Up>>, down: seq<seq<int>>,
    requests: seq<int>, granted: seq<int>, released: seq<int>)

  datatype Action =
    | LocalGrasp            // the manager itself calls mi_lock
    | Request(h: nat)       // another host calls mi_lock and sends ACQ
    | DeliverAcq(h: nat)
    | DeliverGrant(h: nat)
    | Enter(h: nat)         // mi_lock returns
    | Leave(h: nat)         // mi_unlock is called
    | LocalRelease          // the manager frees its own lock
    | RemoteRelease(h: nat) // RLS is sent
    | Clear(h: nat)         // myLocks is cleared and mi_unlock returns
    | DeliverRls(h: nat)

  ghost predicate Shape(s: State) {
    s.m < s.n && |s.phase| == s.n && |s.up| == s.n && |s.down| == s.n
  }

  ghost predicate Init(s: State) {
    && Shape(s)
    && s.rec == InitialLock
    && (forall h :: 0 <= h < s.n ==> s.phase[h] == Out && s.up[h] == [] && s.down[h] == [])
    && s.requests == [] && s.granted == [] && s.released == []
  }

  ghost predicate Enabled(s: State, a: Action) {
    && Shape(s)
    && match a
       case LocalGrasp => s.phase[s.m] == Out
       case Request(h) => h < s.n && h != s.m && s.phase[h] == Out
       case DeliverAcq(h) => h < s.n && s.up[h] != [] && s.up[h][0] == Acq
       case DeliverGrant(h) => h < s.n && s.down[h] != []
       case Enter(h) => h < s.n && s.phase[h].Woken?
       case Leave(h) => h < s.n && s.phase[h] == Inside
       case LocalRelease => s.phase[s.m] == Leaving
       case RemoteRelease(h) => h < s.n && h != s.m && s.phase[h] == Leaving
       case Clear(h) => h < s.n && s.phase[h] == Clearing
       case DeliverRls(h) => h < s.n && s.up[h] != [] && s.up[h][0] == Rls
  }

  /** The manager takes a request into its record; the caller looks at the result. */
  ghost function Ask(s: State, h: nat): (State, int) {
    var (rec, r) := GraspRec(s.rec, h);
    (s.(rec := rec,
        requests := if r == -4 then s.requests else s.requests + [h],
        granted := if r >= -1 then s.granted + [h] else s.granted), r)
  }

  /** The manager frees the lock for `h`; a next owner elsewhere is sent GRANT. */
  ghost function Free(s: State, h: nat): (State, int) {
    var (rec, r) := ReleaseRec(s.rec, h);
    (s.(rec := rec,
        granted := if r >= 0 then s.granted + [r] else s.granted,
        down := if 0 <= r < |s.down| && r != s.m then s.down[r := s.down[r] + [rec.lasthostid]] else s.down), r)
  }

  ghost function Next(s: State, a: Action): State
    requires Enabled(s, a)
  {
    match a
    case LocalGrasp =>
      var (t, r) := Ask(s, s.m);
      if r == -3 then t.(phase := t.phase[s.m := Waiting])
      else if r >= -1 then t.(phase := t.phase[s.m := Woken(r, false)])
      else t
    case Request(h) => s.(phase := s.phase[h := Waiting], up := s.up[h := s.up[h] + [Acq]])
    case DeliverAcq(h) =>
      var (t, r) := Ask(s.(up := s.up[h := s.up[h][1..]]), h);
      if r >= -1 && h != s.m then t.(down := t.down[h := t.down[h] + [t.rec.lasthostid]]) else t
    case DeliverGrant(h) =>
      s.(phase := s.phase[h := Woken(s.down[h][0], false)], down := s.down[h := s.down[h][1..]])
    case Enter(h) => s.(phase := s.phase[h := Inside])
    case Leave(h) => s.(phase := s.phase[h := Leaving])
    case LocalRelease =>
      Free(s.(phase := s.phase[s.m := Out], released := s.released + [s.m]), s.m).0
    case RemoteRelease(h) =>
      s.(phase := s.phase[h := Clearing], up := s.up[h := s.up[h] + [Rls]], released := s.released + [h])
    case Clear(h) => s.(phase := s.phase[h := Out])
    case DeliverRls(h) =>
      var (t, r) := Free(s.(up := s.up[h := s.up[h][1..]]), h);
      if r == s.m then t.(phase := t.phase[s.m := Woken(h, true)]) else t
  }

  // ----- the invariant, host by host -----

  function LastOf(hosts: seq<int>): int {
    if hosts == [] then -1 else hosts[|hosts| - 1]
  }

  predicate Holds(p: Phase) {
    p.Woken? || p == Inside || p == Leaving
  }

  predicate RlsInFlight(s: State, h: nat)
    requires h < |s.up|
  {
    s.up[h] != [] && s.up[h][0] == Rls
  }

  /** The token of a locked lock is in a GRANT, at its owner, or in an RLS. */
  ghost predicate OwnerOk(s: State, h: nat)
    requires Shape(s) && h < s.n
  {
    && h !in s.rec.waiting
    && (|| (h != s.m && s.phase[h] == Waiting && s.down[h] == [s.rec.lasthostid] && s.up[h] == [])
        || (Holds(s.phase[h]) && s.down[h] == [] && s.up[h] == [])
        || (h != s.m && s.down[h] == [] &&
            (|| (s.up[h] == [Rls] && (s.phase[h] == Clearing || s.phase[h] == Out))
             || (s.up[h] == [Rls, Acq] && s.phase[h] == Waiting))))
    && (s.phase[h].Woken? ==> s.phase[h].last == s.rec.lasthostid)
    && (s.phase[h].Woken? && s.phase[h].byRelease ==> h == s.m && 0 <= s.phase[h].last < s.n && s.phase[h].last != h)
  }

  /** A host that waits is in exactly one place: its ACQ is in flight or it is in the waiting list. */
  ghost predicate OtherOk(s: State, h: nat)
    requires Shape(s) && h < s.n
  {
    && s.down[h] == []
    && (|| ((s.phase[h] == Out || (s.phase[h] == Clearing && h != s.m)) && s.up[h] == [] && h !in s.rec.waiting)
        || (s.phase[h] == Waiting && h != s.m && s.up[h] == [Acq] && h !in s.rec.waiting)
        || (s.phase[h] == Waiting && s.up[h] == [] && h in s.rec.waiting))
  }

  ghost predicate HostOk(s: State, h: nat)
    requires Shape(s) && h < s.n
  {
    if s.rec.state == LOCKED && s.rec.owner == h then OwnerOk(s, h) else OtherOk(s, h)
  }

  ghost predicate RecordOk(s: State) {
    && (s.rec.state == FREE ==> s.rec.owner == -1 && s.rec.waiting == [])
    && (s.rec.state == LOCKED ==> 0 <= s.rec.owner < s.n)
    && -1 <= s.rec.lasthostid < s.n
    && (forall i :: 0 <= i < |s.rec.waiting| ==> 0 <= s.rec.waiting[i] < s.n)
    && (forall i, j :: 0 <= i < j < |s.rec.waiting| ==> s.rec.waiting[i] != s.rec.waiting[j])
  }

  ghost predicate HistoryOk(s: State)
    requires Shape(s) && RecordOk(s)
  {
    && s.granted + s.rec.waiting == s.requests
    && (s.rec.state == FREE || RlsInFlight(s, s.rec.owner) ==> s.released == s.granted)
    && (s.rec.state == LOCKED ==> s.granted != [] && LastOf(s.granted) == s.rec.owner)
    && (s.rec.state == LOCKED && !RlsInFlight(s, s.rec.owner) ==> s.released + [s.rec.owner] == s.granted)
    && (s.rec.state == FREE || !RlsInFlight(s, s.rec.owner) ==> s.rec.lasthostid == LastOf(s.released))
  }

  ghost predicate Inv(s: State) {
    && Shape(s)
    && RecordOk(s)
    && HistoryOk(s)
    && forall h :: 0 <= h < s.n ==> HostOk(s, h)
  }

  lemma InitInv(s: State)
    requires Init(s)
    ensures Inv(s)
  {
  }

  /** The host whose request or release the action puts to the manager. */
  ghost function Subject(s: State, a: Action): nat
    requires a.LocalGrasp? || a.DeliverAcq? || a.LocalRelease? || a.DeliverRls?
  {
    if a.LocalGrasp? || a.LocalRelease? then s.m else a.h
  }

  lemma AskRecord(s: State, a: Action)
    requires Inv(s) && Enabled(s, a) && (a.LocalGrasp? || a.DeliverAcq?)
    ensures var h, t := Subject(s, a), Next(s, a);
            && (s.rec.state == LOCKED ==> s.rec.owner != h && h !in s.rec.waiting)
            && t.rec == GraspRec(s.rec, h).0
            && t.requests == s.requests + [h] && t.released == s.released
            && t.granted == if s.rec.state == FREE then s.granted + [h] else s.granted
  {
    assert HostOk(s, Subject(s, a));
  }

  lemma AskShape(s: State, a: Action)
    requires Inv(s) && Enabled(s, a) && (a.LocalGrasp? || a.DeliverAcq?)
    ensures Shape(Next(s, a)) && RecordOk(Next(s, a))
  {
    AskRecord(s, a);
  }

  lemma AskHistory(s: State, a: Action)
    requires Inv(s) && Enabled(s, a) && (a.LocalGrasp? || a.DeliverAcq?)
    requires Shape(Next(s, a)) && RecordOk(Next(s, a))
    ensures HistoryOk(Next(s, a))
  {
    var h, t := Subject(s, a), Next(s, a);
    AskRecord(s, a);
    assert HostOk(s, h);
    if s.rec.state == FREE {
      assert t.up[h] == [] && !RlsInFlight(t, h);
      assert t.granted == t.requests == t.released + [h];
    } else {
      var o := s.rec.owner;
      assert HostOk(s, o);
      assert RlsInFlight(t, o) == RlsInFlight(s, o);
      assert t.granted + t.rec.waiting == (s.granted + s.rec.waiting) + [h];
    }
  }

  lemma AskHost(s: State, a: Action, g: nat)
    requires Inv(s) && Enabled(s, a) && (a.LocalGrasp? || a.DeliverAcq?) && g < s.n
    ensures HostOk(Next(s, a), g)
  {
    var h := Subject(s, a);
    AskRecord(s, a);
    assert HostOk(s, g) && HostOk(s, h);
    if s.rec.state == LOCKED {
      assert HostOk(s, s.rec.owner);
    }
  }

  lemma FreeRecord(s: State, a: Action)
    requires Inv(s) && Enabled(s, a) && (a.LocalRelease? || a.DeliverRls?)
    ensures var h, t := Subject(s, a), Next(s, a);
            && s.rec.state == LOCKED && s.rec.owner == h
            && t.rec == ReleaseRec(s.rec, h).0
            && t.requests == s.requests
            && t.released == (if a.LocalRelease? then s.released + [h] else s.released)
            && t.granted == if s.rec.waiting == [] then s.granted else s.granted + [s.rec.waiting[0]]
  {
    assert HostOk(s, Subject(s, a));
  }

  lemma FreeShape(s: State, a: Action)
    requires Inv(s) && Enabled(s, a) && (a.LocalRelease? || a.DeliverRls?)
    ensures Shape(Next(s, a)) && RecordOk(Next(s, a))
  {
    FreeRecord(s, a);
  }

  lemma FreedHistory(s: State, a: Action)
    requires Inv(s) && Enabled(s, a) && (a.LocalRelease? || a.DeliverRls?)
    requires Shape(Next(s, a)) && RecordOk(Next(s, a)) && s.rec.waiting == []
    ensures HistoryOk(Next(s, a))
  {
    FreeRecord(s, a);
    assert HostOk(s, Subject(s, a));
  }

  lemma HandedHistory(s: State, a: Action)
    requires Inv(s) && Enabled(s, a) && (a.LocalRelease? || a.DeliverRls?)
    requires Shape(Next(s, a)) && RecordOk(Next(s, a)) && s.rec.waiting != []
    ensures HistoryOk(Next(s, a))
  {
    var h, t, w := Subject(s, a), Next(s, a), s.rec.waiting[0];
    FreeRecord(s, a);
    assert HostOk(s, h) && HostOk(s, w);
    assert t.granted + t.rec.waiting == s.granted + ([w] + s.rec.waiting[1..]);
    assert t.up[w] == s.up[w];
  }

  lemma FreeHistory(s: State, a: Action)
    requires Inv(s) && Enabled(s, a) && (a.LocalRelease? || a.DeliverRls?)
    requires Shape(Next(s, a)) && RecordOk(Next(s, a))
    ensures HistoryOk(Next(s, a))
  {
    if s.rec.waiting == [] {
      FreedHistory(s, a);
    } else {
      HandedHistory(s, a);
    }
  }

  /** The hand-over to the first waiter. */
  lemma HandedOver(s: State, a: Action, g: nat)
    requires Inv(s) && Enabled(s, a) && (a.LocalRelease? || a.DeliverRls?) && g < s.n && s.rec.waiting != []
    ensures HostOk(Next(s, a), g)
  {
    var h, t, w := Subject(s, a), Next(s, a), s.rec.waiting[0];
    FreeRecord(s, a);
    assert HostOk(s, g) && HostOk(s, h) && HostOk(s, w);
    assert s.rec.waiting == [w] + s.rec.waiting[1..];
    assert w !in s.rec.waiting[1..];
    if g != w && g != h {
      assert g in s.rec.waiting <==> g in t.rec.waiting;
    }
  }

  lemma FreeHost(s: State, a: Action, g: nat)
    requires Inv(s) && Enabled(s, a) && (a.LocalRelease? || a.DeliverRls?) && g < s.n
    ensures HostOk(Next(s, a), g)
  {
    if s.rec.waiting != [] {
      HandedOver(s, a, g);
    } else {
      FreeRecord(s, a);
      assert HostOk(s, g) && HostOk(s, Subject(s, a));
    }
  }

  lemma HostStepKeeps(s: State, a: Action)
    requires Inv(s) && Enabled(s, a)
    requires a.Request? || a.DeliverGrant? || a.Enter? || a.Leave? || a.RemoteRelease? || a.Clear?
    ensures Inv(Next(s, a))
  {
    assert HostOk(s, a.h);
    var t := Next(s, a);
    forall g | 0 <= g < t.n
      ensures HostOk(t, g)
    {
      assert HostOk(s, g);
    }
  }

  lemma StepInv(s: State, a: Action)
    requires Inv(s) && Enabled(s, a)
    ensures Inv(Next(s, a))
  {
    if a.LocalGrasp? || a.DeliverAcq? {
      AskShape(s, a);
      AskHistory(s, a);
      forall g | 0 <= g < s.n
        ensures HostOk(Next(s, a), g)
      {
        AskHost(s, a, g);
      }
    } else if a.LocalRelease? || a.DeliverRls? {
      FreeShape(s, a);
      FreeHistory(s, a);
      forall g | 0 <= g < s.n
        ensures HostOk(Next(s, a), g)
      {
        FreeHost(s, a, g);
      }
    } else {
      HostStepKeeps(s, a);
    }
  }

  // ----- runs -----

  ghost predicate Run(s: State, actions: seq<Action>)
    decreases |actions|
  {
    actions == [] || (Enabled(s, actions[0]) && Run(Next(s, actions[0]), actions[1..]))
  }

  ghost function Exec(s: State, actions: seq<Action>): State
    requires Run(s, actions)
    decreases |actions|
  {
    if actions == [] then s else Exec(Next(s, actions[0]), actions[1..])
  }

  lemma {:induction false} RunInv(s: State, actions: seq<Action>)
    requires Inv(s) && Run(s, actions)
    ensures Inv(Exec(s, actions))
    decreases |actions|
  {
    if actions != [] {
      StepInv(s, actions[0]);
      RunInv(Next(s, actions[0]), actions[1..]);
    }
  }

  // ----- what the invariant gives -----

  /** In every run, at most one host holds the lock, so no two are in the critical section. */
  lemma MutualExclusion(s: State, actions: seq<Action>, g: nat, h: nat)
    requires Init(s) && Run(s, actions) && g < s.n && h < s.n
    ensures var t := Exec(s, actions);
            Shape(t) && t.n == s.n && (Holds(t.phase[g]) && Holds(t.phase[h]) ==> g == h)
  {
    InitInv(s);
    RunInv(s, actions);
    RunSize(s, actions);
    var t := Exec(s, actions);
    assert HostOk(t, g) && HostOk(t, h);
  }

  lemma {:induction false} RunSize(s: State, actions: seq<Action>)
    requires Run(s, actions)
    ensures Exec(s, actions).n == s.n && Exec(s, actions).m == s.m
    decreases |actions|
  {
    if actions != [] {
      RunSize(Next(s, actions[0]), actions[1..]);
    }
  }

  function CountRls(msgs: seq<Up>): nat {
    if msgs == [] then 0 else (if msgs[0] == Rls then 1 else 0) + CountRls(msgs[1..])
  }

  /** The ownership tokens at or near host `h`: GRANTs on the way to it, its holding, RLS messages from it. */
  ghost function TokensAt(s: State, h: nat): nat
    requires Shape(s) && h < s.n
  {
    |s.down[h]| + (if Holds(s.phase[h]) then 1 else 0) + CountRls(s.up[h])
  }

  ghost function Tokens(s: State, upto: nat): nat
    requires Shape(s) && upto <= s.n
  {
    if upto == 0 then 0 else Tokens(s, upto - 1) + TokensAt(s, upto - 1)
  }

  lemma {:induction false} TokenSum(s: State, upto: nat)
    requires Inv(s) && upto <= s.n
    ensures Tokens(s, upto) == if s.rec.state == LOCKED && s.rec.owner < upto then 1 else 0
  {
    if upto > 0 {
      TokenSum(s, upto - 1);
      var h := upto - 1;
      assert HostOk(s, h);
      assert CountRls([]) == 0 && CountRls([Acq]) == 0 && CountRls([Rls]) == 1 && CountRls([Rls, Acq]) == 1 by {
        assert [Rls, Acq][1..] == [Acq];
      }
    }
  }

  /** The token is conserved: in every run it is in exactly one place (free at the manager, or one of the above). */
  lemma TokenConservation(s: State, actions: seq<Action>)
    requires Init(s) && Run(s, actions)
    ensures var t := Exec(s, actions);
            Shape(t) && (if t.rec.state == FREE then 1 else 0) + Tokens(t, t.n) == 1
  {
    InitInv(s);
    RunInv(s, actions);
    TokenSum(Exec(s, actions), Exec(s, actions).n);
  }

  /** A blocked host is in exactly one of: ACQ in flight, waiting list, GRANT in flight. */
  lemma NoLostWaiter(s: State, actions: seq<Action>, h: nat)
    requires Init(s) && Run(s, actions) && h < s.n
    ensures var t := Exec(s, actions);
            && Shape(t) && t.n == s.n
            && (t.phase[h] == Waiting <==> Acq in t.up[h] || h in t.rec.waiting || t.down[h] != [])
            && !(Acq in t.up[h] && h in t.rec.waiting)
            && !(Acq in t.up[h] && t.down[h] != [])
            && !(h in t.rec.waiting && t.down[h] != [])
            && |t.down[h]| <= 1
  {
    InitInv(s);
    RunInv(s, actions);
    RunSize(s, actions);
    assert HostOk(Exec(s, actions), h);
  }

  function Below(bound: nat): (r: set<int>)
    ensures |r| == bound && forall x :: x in r <==> 0 <= x < bound
  {
    if bound == 0 then {} else Below(bound - 1) + {bound - 1}
  }

  /** Distinct numbers below a bound are no more than the bound. */
  lemma Pigeonhole(xs: seq<int>, bound: nat)
    requires forall i :: 0 <= i < |xs| ==> 0 <= xs[i] < bound
    requires forall i, j :: 0 <= i < j < |xs| ==> xs[i] != xs[j]
    ensures |xs| <= bound
  {
    DistinctSize(xs);
    var elems := set i | 0 <= i < |xs| :: xs[i];
    assert Below(bound) == elems + (Below(bound) - elems);
  }

  lemma {:induction false} DistinctSize(xs: seq<int>)
    requires forall i, j :: 0 <= i < j < |xs| ==> xs[i] != xs[j]
    ensures |set i | 0 <= i < |xs| :: xs[i]| == |xs|
  {
    var elems := set i | 0 <= i < |xs| :: xs[i];
    if xs == [] {
      assert elems == {};
    } else {
      var last := |xs| - 1;
      var front := xs[..last];
      DistinctSize(front);
      var fronts := set i | 0 <= i < |front| :: front[i];
      forall x | x in elems
        ensures x in fronts + {xs[last]}
      {
        var i :| 0 <= i < |xs| && xs[i] == x;
        if i < last {
          assert front[i] == x;
        }
      }
      forall x | x in fronts
        ensures x in elems
      {
        var i :| 0 <= i < |front| && front[i] == x;
        assert xs[i] == x;
      }
      assert xs[last] in elems;
      assert elems == fronts + {xs[last]};
    }
  }

  /** The waiting list has no duplicates, never names the owner and leaves room for one more host. */
  lemma WaitingListFits(s: State, actions: seq<Action>)
    requires Init(s) && Run(s, actions)
    ensures var t := Exec(s, actions);
            && (forall i, j :: 0 <= i < j < |t.rec.waiting| ==> t.rec.waiting[i] != t.rec.waiting[j])
            && t.rec.owner !in t.rec.waiting
            && |t.rec.waiting| <= s.n - 1
            && (forall h :: 0 <= h < s.n && t.rec.state == LOCKED && t.rec.owner != h && h !in t.rec.waiting
                            ==> |t.rec.waiting| < s.n - 1)
  {
    InitInv(s);
    RunInv(s, actions);
    RunSize(s, actions);
    var t := Exec(s, actions);
    if t.rec.state == LOCKED {
      assert HostOk(t, t.rec.owner);
      Pigeonhole(t.rec.waiting + [t.rec.owner], s.n);
      forall h | 0 <= h < s.n && t.rec.owner != h && h !in t.rec.waiting
        ensures |t.rec.waiting| < s.n - 1
      {
        Pigeonhole(t.rec.waiting + [t.rec.owner, h], s.n);
      }
    }
  }

  /** Owners follow the order in which the manager processed the requests; the rest are waiting, in that order. */
  lemma OwnersInRequestOrder(s: State, actions: seq<Action>)
    requires Init(s) && Run(s, actions)
    ensures var t := Exec(s, actions);
            && t.requests == t.granted + t.rec.waiting
            && t.released <= t.granted && |t.granted| <= |t.released| + 1
            && (t.rec.state == LOCKED ==> LastOf(t.granted) == t.rec.owner)
  {
    InitInv(s);
    RunInv(s, actions);
  }

  lemma {:induction false} HistoryGrows(s: State, actions: seq<Action>)
    requires Run(s, actions)
    ensures s.requests <= Exec(s, actions).requests && s.granted <= Exec(s, actions).granted
    decreases |actions|
  {
    if actions != [] {
      HistoryGrows(Next(s, actions[0]), actions[1..]);
    }
  }

  lemma SplitIndex(a: seq<int>, b: seq<int>, k: nat)
    requires k < |a + b|
    ensures (a + b)[k] == if k < |a| then a[k] else b[k - |a|]
  {
  }

  lemma AllRequests(t: State, after: seq<Action>)
    requires Inv(t) && Run(t, after)
    ensures t.granted + t.rec.waiting == t.requests
    ensures Exec(t, after).granted + Exec(t, after).rec.waiting == Exec(t, after).requests
  {
    RunInv(t, after);
  }

  /**
   The waiter at position `i` of `t` has become owner number `i` from then on, or has moved up one position
   per hand-over.
  */
  ghost predicate ServedInTurn(t: State, u: State, i: nat)
    requires i < |t.rec.waiting|
  {
    && (|u.granted| > |t.granted| + i ==> u.granted[|t.granted| + i] == t.rec.waiting[i])
    && (|u.granted| <= |t.granted| + i ==>
          && 0 <= i - (|u.granted| - |t.granted|) < |u.rec.waiting|
          && u.rec.waiting[i - (|u.granted| - |t.granted|)] == t.rec.waiting[i])
  }

  lemma RequestKept(t: State, u: State, i: nat)
    requires t.granted + t.rec.waiting == t.requests && u.granted + u.rec.waiting == u.requests
    requires t.requests <= u.requests && t.granted <= u.granted && i < |t.rec.waiting|
    ensures ServedInTurn(t, u, i)
  {
    var k := |t.granted| + i;
    SplitIndex(t.granted, t.rec.waiting, k);
    SplitIndex(u.granted, u.rec.waiting, k);
    assert u.requests[k] == t.requests[k];
  }

  lemma BoundedWaitingFrom(t: State, after: seq<Action>, i: nat)
    requires Inv(t) && Run(t, after) && i < |t.rec.waiting|
    ensures ServedInTurn(t, Exec(t, after), i)
  {
    HistoryGrows(t, after);
    AllRequests(t, after);
    RequestKept(t, Exec(t, after), i);
  }

  /** A host at position `i` of the waiting list is the owner chosen by the (i+1)-st hand-over from now. */
  lemma BoundedWaiting(s: State, before: seq<Action>, after: seq<Action>, i: nat)
    requires Init(s) && Run(s, before) && Run(Exec(s, before), after)
    requires i < |Exec(s, before).rec.waiting|
    ensures ServedInTurn(Exec(s, before), Exec(Exec(s, before), after), i)
  {
    InitInv(s);
    RunInv(s, before);
    BoundedWaitingFrom(Exec(s, before), after, i);
  }

  /**
   Every GRANT in flight, and every host that was just woken, names the host that released last, or -1 if
   none did.
  */
  lemma GrantNamesLastReleaser(s: State, actions: seq<Action>, h: nat)
    requires Init(s) && Run(s, actions) && h < s.n
    ensures var t := Exec(s, actions);
            && Shape(t) && t.n == s.n
            && (t.down[h] != [] ==> t.down[h] == [LastOf(t.released)])
            && (t.phase[h].Woken? ==> t.phase[h].last == LastOf(t.released))
            && (t.phase[h].Woken? && t.phase[h].byRelease ==> t.phase[h].last != -1 && t.phase[h].last != h)
  {
    InitInv(s);
    RunInv(s, actions);
    RunSize(s, actions);
    assert HostOk(Exec(s, actions), h);
  }
}
