/**
 What every sequence of a host's own steps keeps of its interval lists, when notices arrive from other
 hosts only: `intervalNow` stays at the head of the own list, and the list keeps a barrier interval, so
 the search for the last barrier ends.
*/
module IntervalLists {
  import opened Options
  import opened Vectors
  import opened Diffs
  import opened HostMem
  import opened Incorporation
  import opened Packing
  import MemCells
  import PageStates

  ghost predicate OwnListOk(m: Mem) {
    Wf(m) && NowIndex(m) == 0 && HasBarrier(m.procs[m.me])
  }

  /** A packet of another host leaves the own list and `intervalNow` alone. */
  lemma IncorporateKeepsOwn(m: Mem, pk: Packet)
    requires Wf(m) && PacketWf(pk, m.n, |m.pages|) && pk.host != m.me
    ensures IncorporatePacket(m, pk).procs[m.me] == m.procs[m.me] && IncorporatePacket(m, pk).now == m.now
  {
    assert [pk][..0] == [];
    IncorporateNow(m, [pk]);
  }

  lemma IncorporateKeepsList(m: Mem, pk: Packet)
    requires OwnListOk(m) && PacketWf(pk, m.n, |m.pages|) && pk.host != m.me
    ensures OwnListOk(IncorporatePacket(m, pk)) && IncorporatePacket(m, pk).me == m.me
  {
    IncorporateKeepsOwn(m, pk);
  }

  lemma FaultKeepsList(m: Mem, p: nat)
    requires OwnListOk(m) && p < |m.pages| && m.pages[p].state == RDONLY
    ensures OwnListOk(WriteFault(m, p)) && WriteFault(m, p).me == m.me
  {
    var i :| 0 <= i < |m.procs[m.me]| && m.procs[m.me][i].isBarrier;
    var list := WriteFault(m, p).procs[m.me];
    assert list[i].isBarrier;
  }

  lemma PushKeepsList(m: Mem, iv: Interval)
    requires OwnListOk(m) && |iv.ts| == m.n
    ensures OwnListOk(PushOwn(m, iv))
  {
    var i :| 0 <= i < |m.procs[m.me]| && m.procs[m.me][i].isBarrier;
    var list := PushOwn(m, iv).procs[m.me];
    assert list[i + 1].isBarrier;
  }

  lemma PagesKeepList(m: Mem, s: PageStates.Step)
    requires OwnListOk(m) && PageStates.Enabled(m, s) && (s.Serve? || s.GotDiff? || s.GotPage? || s.Resume?)
    ensures PageStates.Next(m, s).procs == m.procs && PageStates.Next(m, s).now == m.now
    ensures PageStates.Next(m, s).me == m.me
  {
  }

  lemma StepKeepsOwnList(m: Mem, s: PageStates.Step)
    requires OwnListOk(m) && PageStates.Enabled(m, s)
    ensures OwnListOk(PageStates.Next(m, s)) && PageStates.Next(m, s).me == m.me
  {
    match s {
      case NewInterval(ts, barrier) => PushKeepsList(m, Interval(ts, [], barrier));
      case Fault(p) => FaultKeepsList(m, p);
      case Incorporate(pk) => IncorporateKeepsList(m, pk);
      case _ => PagesKeepList(m, s);
    }
  }

  /** In every run `intervalNow` is the head of the own list, and the walk to the last barrier interval ends. */
  lemma {:induction false} NowIsHead(m: Mem, steps: seq<PageStates.Step>)
    requires OwnListOk(m) && PageStates.Run(m, steps)
    ensures var t := PageStates.Exec(m, steps);
            && Wf(t) && NowIndex(t) == 0 && HasBarrier(t.procs[t.me])
            && SinceBarrier(t.procs[t.me]) != [] && SinceBarrier(t.procs[t.me])[0].ts == NowTs(t)
    decreases |steps|
  {
    if steps == [] {
      SinceBarrierSpec(m.procs[m.me]);
    } else {
      StepKeepsOwnList(m, steps[0]);
      NowIsHead(PageStates.Next(m, steps[0]), steps[1..]);
    }
  }

  // ----- from one barrier to the next -----

  /** The exit messages put one barrier interval in front of the own list: what is sent next starts with it. */
  lemma ExitOpens(m: Mem, ts: Vec, packets: seq<Packet>)
    requires Wf(m) && |ts| == m.n && ts[0] != -1
    requires forall k :: 0 <= k < |packets| ==> PacketWf(packets[k], m.n, |m.pages|) && packets[k].host != m.me
    ensures forall k :: 0 <= k < |EntryMessages(ts, m.n, packets)| ==>
      ExitWf(EntryMessages(ts, m.n, packets)[k], m.n, |m.pages|)
    ensures var r := HandleExits(m, EntryMessages(ts, m.n, packets));
            && r.me == m.me && r.procs[m.me] == [Interval(ts, [], true)] + m.procs[m.me] && NowIndex(r) == 0
            && SinceBarrier(r.procs[r.me]) == [r.procs[r.me][0]]
  {
    ExitRoundTrip(m, ts, packets);
    IncorporateNow(BarrierInterval(m, ts), packets);
  }

  /** The number of intervals that a host opens in these steps. */
  function Openings(steps: seq<PageStates.Step>): nat {
    if steps == [] then 0 else (if steps[0].NewInterval? then 1 else 0) + Openings(steps[1..])
  }

  /** Locks and unlocks, faults, requests and replies, but no barrier. */
  ghost predicate NoBarriers(steps: seq<PageStates.Step>) {
    forall i :: 0 <= i < |steps| && steps[i].NewInterval? ==> !steps[i].barrier
  }

  /**
   `k` intervals, none of a barrier, were opened in front of `base`, whose first interval is of a barrier; that
   one may have got notices, the older ones are untouched.
  */
  ghost predicate OpenedSince(list: seq<Interval>, base: seq<Interval>, k: nat) {
    && |list| == k + |base| && base != [] && base[0].isBarrier
    && (forall i :: 0 <= i < k ==> !list[i].isBarrier)
    && list[k].isBarrier && list[k].ts == base[0].ts && list[k + 1..] == base[1..]
  }

  ghost predicate OpenedOn(m: Mem, base: seq<Interval>, k: nat) {
    Wf(m) && NowIndex(m) == 0 && OpenedSince(m.procs[m.me], base, k)
  }

  lemma FaultOpens(m: Mem, p: nat, base: seq<Interval>, k: nat)
    requires OpenedOn(m, base, k) && p < |m.pages| && m.pages[p].state == RDONLY
    ensures OpenedOn(WriteFault(m, p), base, k) && WriteFault(m, p).me == m.me
  {
    var list, r := m.procs[m.me], WriteFault(m, p).procs[m.me];
    assert r == list[0 := list[0].(pages := list[0].pages + [p])];
  }

  lemma PushOpens(m: Mem, iv: Interval, base: seq<Interval>, k: nat)
    requires OpenedOn(m, base, k) && |iv.ts| == m.n && !iv.isBarrier
    ensures OpenedOn(PushOwn(m, iv), base, k + 1) && PushOwn(m, iv).me == m.me
  {
    var list := m.procs[m.me];
    assert ([iv] + list)[k + 2..] == list[k + 1..];
  }

  lemma StepOpens(m: Mem, s: PageStates.Step, base: seq<Interval>, k: nat)
    requires OpenedOn(m, base, k) && PageStates.Enabled(m, s) && (s.NewInterval? ==> !s.barrier)
    ensures OpenedOn(PageStates.Next(m, s), base, if s.NewInterval? then k + 1 else k)
    ensures PageStates.Next(m, s).me == m.me
  {
    match s {
      case NewInterval(ts, barrier) => PushOpens(m, Interval(ts, [], barrier), base, k);
      case Fault(p) => FaultOpens(m, p, base, k);
      case Incorporate(pk) => IncorporateKeepsOwn(m, pk);
      case _ =>
    }
  }

  lemma {:induction false} RunOpens(m: Mem, steps: seq<PageStates.Step>, base: seq<Interval>, k: nat)
    requires OpenedOn(m, base, k) && PageStates.Run(m, steps) && NoBarriers(steps)
    ensures OpenedOn(PageStates.Exec(m, steps), base, k + Openings(steps)) && PageStates.Exec(m, steps).me == m.me
    decreases |steps|
  {
    if steps != [] {
      StepOpens(m, steps[0], base, k);
      RunOpens(PageStates.Next(m, steps[0]), steps[1..], base, if steps[0].NewInterval? then k + 1 else k);
    }
  }

  /**
   What a host would send at the next barrier: its `k` newest intervals and the barrier interval behind them,
   but none of the older ones; a notice is sent if and only if it is in one of these.
  */
  ghost predicate SendsSince(m: Mem, ts: Vec, older: seq<Interval>, k: nat, when: Vec, p: nat)
    requires Wf(m)
  {
    var list := m.procs[m.me];
    && |list| == k + 1 + |older| && list[k + 1..] == older
    && SinceBarrier(list) == list[..k + 1] && list[k].ts == ts && list[k].isBarrier
    && (Carries(EntryPackets(m.me, SinceBarrier(list)), m.me, when, p) <==> HasNotice(list[..k + 1], when, p))
  }

  lemma OpenedSends(m: Mem, ts: Vec, older: seq<Interval>, k: nat, when: Vec, p: nat)
    requires OpenedOn(m, [Interval(ts, [], true)] + older, k)
    ensures SendsSince(m, ts, older, k, when, p)
  {
    SinceBarrierAt(m.procs[m.me], k);
    EntryPacketsCarry(m.me, m.procs[m.me][..k + 1], m.me, when, p);
  }

  /**
   After leaving a barrier and any further steps, what a host sends at the next barrier are its intervals since
   that exit: those it opened, and the one of the exit itself. The notices in them are sent, and no older ones.
  */
  lemma NextEntry(m: Mem, ts: Vec, packets: seq<Packet>, steps: seq<PageStates.Step>, when: Vec, p: nat)
    requires Wf(m) && |ts| == m.n && ts[0] != -1
    requires forall k :: 0 <= k < |packets| ==> PacketWf(packets[k], m.n, |m.pages|) && packets[k].host != m.me
    requires forall k :: 0 <= k < |EntryMessages(ts, m.n, packets)| ==>
               ExitWf(EntryMessages(ts, m.n, packets)[k], m.n, |m.pages|)
    requires PageStates.Run(HandleExits(m, EntryMessages(ts, m.n, packets)), steps) && NoBarriers(steps)
    ensures var t := PageStates.Exec(HandleExits(m, EntryMessages(ts, m.n, packets)), steps);
            && Wf(t) && t.me == m.me
            && SendsSince(t, ts, m.procs[m.me], Openings(steps), when, p)
  {
    ExitOpens(m, ts, packets);
    var r := HandleExits(m, EntryMessages(ts, m.n, packets));
    RunOpens(r, steps, r.procs[m.me], 0);
    OpenedSends(PageStates.Exec(r, steps), ts, m.procs[m.me], Openings(steps), when, p);
  }

  // ----- at the start -----

  /** After `initmem` the own list is one barrier interval with the zero vector, so a first barrier finds it. */
  lemma StartIsBarrier(me: nat, n: nat, pages: seq<(PageState, Page)>)
    requires me < n
    ensures var m := MemCells.InitialModel(me, n, pages);
            && OwnListOk(m) && m.me == me
            && SinceBarrier(m.procs[me]) == m.procs[me] == [Interval(Zero(n), [], true)]
  {
    var list := MemCells.InitialModel(me, n, pages).procs[me];
    assert list[0].isBarrier;
    SinceBarrierAt(list, 0);
  }
}
