/**
 A barrier after a one-lock run, once every host has entered it: the manager gathers from every host the
 intervals since the last barrier and returns to every host those it lacks. Afterwards every host knows
 the whole history, and what it can read is current.
 */
module BarrierSpread {
  import opened Options
  import opened Vectors
  import opened Diffs
  import opened HostMem
  import opened CriticalLog
  import opened Incorporation
  import opened World
  import opened QuietSteps
  import opened Receiving
  import opened VectorChain
  import opened Packing
  import opened OwnLists

  // ----- what a host sends when it enters -----

  ghost function OwnPackets(w: World, j: nat): seq<Packet>
    requires Basic(w) && j < w.n
  {
    EntryPackets(j, SinceBarrier(w.mems[j].procs[j]))
  }

  ghost function EntryMsgs(w: World, j: nat): seq<InfoMsg>
    requires Basic(w) && j < w.n
  {
    EntryMessages(NowTs(w.mems[j]), w.n, OwnPackets(w, j))
  }

  lemma {:induction false} EntryIsHost(j: nat, list: seq<Interval>, t: Vec)
    requires forall i :: 0 <= i < |list| && list[i].pages != [] ==> After(list[i].ts, t)
    ensures EntryPackets(j, list) == HostPackets(j, list, t)
  {
    if list != [] {
      EntryIsHost(j, list[1..], t);
    }
  }

  /** It is the host's part of the history. */
  lemma OwnPacketsAre(w: World, j: nat)
    requires Basic(w) && j < w.n && Knowledge(w, j) && BarrierLast(w.mems[j].procs[j])
    ensures OwnPackets(w, j) == HostPackets(j, KnownList(w.log, |w.log|, j), Zero(w.n))
  {
    var list := w.mems[j].procs[j];
    WholeListSent(list);
    forall i | 0 <= i < |list| && list[i].pages != []
      ensures After(list[i].ts, Zero(w.n))
    {
      var k := IntervalEntry(w, j, j, list[i]);
      LogAfterZero(w.n, |w.cur|, w.log, k);
    }
    EntryIsHost(j, list, Zero(w.n));
    EmptyIntervalsSkipped(j, list, Zero(w.n));
    OwnIsHistory(w, j);
  }

  // ----- what the manager makes of it -----

  /** Where a known interval is found in the list of its host. */
  lemma KnownAt(w: World, j: nat, upto: nat, k: nat, list: seq<Interval>)
    requires Basic(w) && k < upto <= |w.log| && w.log[k].host == j && w.log[k].pages != []
    requires list == KnownList(w.log, upto, j)
    ensures var i := IntervalIdx(list, w.log[k].ts);
            i < |list| && list[i] == AsInterval(w.log[k])
  {
    InKnownList(w.log, upto, j, k);
    var i := IntervalIdx(list, w.log[k].ts);
    var x :| 0 <= x < |list| && list[x] == AsInterval(w.log[k]);
    assert i <= x;
    var y := KnownListHas(w.log, upto, j, i);
    LogCompare(w.n, |w.cur|, w.log, y, k);
  }

  /** An interval that is known already changes nothing. */
  lemma AlreadyKnown(w: World, h: nat, m: Mem, kn: seq<nat>, k: nat)
    requires Basic(w) && h < w.n && Mid(w, h, m, kn) && k < |w.log| && w.log[k].host != h && w.log[k].pages != []
    requires k < kn[w.log[k].host]
    ensures PacketWf(EntryPacket(w, k), m.n, |m.pages|) && IncorporatePacket(m, EntryPacket(w, k)) == m
  {
    var j := Writer(w, k);
    assert EntryOk(w.n, |w.cur|, w.log, k);
    assert Knows(w.log, m, j, kn[j]);
    KnownAt(w, j, kn[j], k, m.procs[j]);
    NothingNew(m, j, IntervalIdx(m.procs[j], w.log[k].ts), w.log[k].pages);
  }

  /** Packets that bring nothing new. */
  ghost predicate Idle(m: Mem, pks: seq<Packet>)
    requires Wf(m)
  {
    AllWf(pks, m.n, |m.pages|) && IncorporateAll(m, pks) == m
  }

  lemma IdleStep(w: World, h: nat, m: Mem, kn: seq<nat>, j: nat, k: nat, t: Vec)
    requires Basic(w) && h < w.n && Mid(w, h, m, kn) && j < w.n && j != h && k < kn[j] <= |w.log|
    requires Idle(m, PacketsUpTo(w, j, k, t))
    ensures Idle(m, PacketsUpTo(w, j, k + 1, t))
  {
    var before := PacketsUpTo(w, j, k, t);
    PacketsStep(w, j, k, t);
    if w.log[k].host == j && w.log[k].pages != [] && After(w.log[k].ts, t) {
      OneMoreIdle(w, h, m, kn, k, before);
    } else {
      assert before + [] == before;
    }
  }

  lemma {:induction false} KnownAreIdle(w: World, h: nat, m: Mem, kn: seq<nat>, j: nat, k: nat, t: Vec)
    requires Basic(w) && h < w.n && Mid(w, h, m, kn) && j < w.n && j != h && k <= kn[j] <= |w.log|
    ensures Idle(m, PacketsUpTo(w, j, k, t))
  {
    if k == 0 {
      NothingIdle(w, m, j, t);
    } else {
      KnownAreIdle(w, h, m, kn, j, k - 1, t);
      IdleStep(w, h, m, kn, j, k - 1, t);
    }
  }

  lemma NothingIdle(w: World, m: Mem, j: nat, t: Vec)
    requires Wf(m)
    ensures Idle(m, PacketsUpTo(w, j, 0, t))
  {
    assert PacketsUpTo(w, j, 0, t) == [];
  }

  lemma OneMoreIdle(w: World, h: nat, m: Mem, kn: seq<nat>, k: nat, before: seq<Packet>)
    requires Basic(w) && h < w.n && Mid(w, h, m, kn) && k < |w.log| && w.log[k].host != h && w.log[k].pages != []
    requires k < kn[w.log[k].host] && Idle(m, before)
    ensures Idle(m, before + Packetize(w.log[k].host, w.log[k].ts, w.log[k].pages))
  {
    AlreadyKnown(w, h, m, kn, k);
    PacketizedInterval(m, w.log[k].host, w.log[k].ts, w.log[k].pages);
    IncorporateConcat(m, before, Packetize(w.log[k].host, w.log[k].ts, w.log[k].pages));
  }

  /** All of host `j`'s packets bring the manager up to date on it, whatever it knew of it before. */
  lemma HostGathered(w: World, h: nat, m: Mem, kn: seq<nat>, j: nat)
    requires Basic(w) && h < w.n && Mid(w, h, m, kn) && j < w.n && j != h && kn[j] == Known(w.log, h)
    requires Knowledge(w, j) && BarrierLast(w.mems[j].procs[j])
    ensures AllWf(OwnPackets(w, j), m.n, |m.pages|)
    ensures Mid(w, h, IncorporateAll(m, OwnPackets(w, j)), kn[j := |w.log|])
  {
    var t := Zero(w.n);
    KnownAreIdle(w, h, m, kn, j, kn[j], t);
    assert kn[j := kn[j]] == kn;
    forall k | 0 <= k < |w.log|
      ensures After(w.log[k].ts, t)
    {
      LogAfterZero(w.n, |w.cur|, w.log, k);
    }
    SweepFurther(w, h, m, kn, j, kn[j], |w.log|, t);
    OwnPacketsAre(w, j);
  }

  /** The entry messages of host `j`, handled by the manager. */
  lemma EntryHandled(w: World, m: Mem, kn: seq<nat>, j: nat)
    requires Basic(w) && Mid(w, 0, m, kn) && 0 < j < w.n && kn[j] == Known(w.log, 0)
    requires Knowledge(w, j) && BarrierLast(w.mems[j].procs[j])
    ensures forall k :: 0 <= k < |EntryMsgs(w, j)| ==> MsgWf(EntryMsgs(w, j)[k], m.n, |m.pages|)
    ensures Mid(w, 0, HandleInfos(m, EntryMsgs(w, j)), kn[j := |w.log|])
  {
    HostGathered(w, 0, m, kn, j);
    MessagesWf(NowTs(w.mems[j]), w.n, OwnPackets(w, j), |m.pages|);
    InfosCarry(m, EntryMsgs(w, j));
    NothingLost(NowTs(w.mems[j]), w.n, OwnPackets(w, j));
  }

  /** The messages are well-formed for this memory. */
  ghost predicate Fits(m: Mem, msgs: seq<InfoMsg>) {
    Wf(m) && forall k :: 0 <= k < |msgs| ==> MsgWf(msgs[k], m.n, |m.pages|)
  }

  /**
   The manager's memory after the entry messages of these hosts, in this order; `Gather` shows that all of
   them fit.
  */
  ghost function Gathered(w: World, order: seq<nat>): Mem
    requires Basic(w)
    decreases |order|
  {
    if order == [] then w.mems[0]
    else
      var m, j := Gathered(w, order[..|order| - 1]), order[|order| - 1];
      if j < w.n && Fits(m, EntryMsgs(w, j)) then HandleInfos(m, EntryMsgs(w, j)) else m
  }

  ghost function GatheredOn(w: World, order: seq<nat>): (kn: seq<nat>)
    requires Basic(w)
    ensures |kn| == w.n
  {
    seq(w.n, j requires 0 <= j < w.n => if j in order then |w.log| else Known(w.log, 0))
  }

  /** Other hosts, each once. */
  ghost predicate Others(n: nat, order: seq<nat>) {
    && (forall i :: 0 <= i < |order| ==> 0 < order[i] < n)
    && forall i, j :: 0 <= i < j < |order| ==> order[i] != order[j]
  }

  lemma GatherOne(w: World, order: seq<nat>, j: nat, m: Mem)
    requires Inv(w) && AllOwnOk(w) && 0 < j < w.n && j !in order && Mid(w, 0, m, GatheredOn(w, order))
    ensures Fits(m, EntryMsgs(w, j)) && Mid(w, 0, HandleInfos(m, EntryMsgs(w, j)), GatheredOn(w, order + [j]))
  {
    assert Knowledge(w, j) && OwnOk(w, j);
    EntryHandled(w, m, GatheredOn(w, order), j);
    assert GatheredOn(w, order)[j := |w.log|] == GatheredOn(w, order + [j]);
  }

  lemma GatheredMore(w: World, order: seq<nat>, j: nat)
    requires Basic(w) && j < w.n && Fits(Gathered(w, order), EntryMsgs(w, j))
    ensures Gathered(w, order + [j]) == HandleInfos(Gathered(w, order), EntryMsgs(w, j))
  {
    assert (order + [j])[..|order|] == order;
  }

  lemma GatheredNone(w: World)
    requires Inv(w)
    ensures Mid(w, 0, Gathered(w, []), GatheredOn(w, []))
  {
    StartMid(w, 0);
    assert GatheredOn(w, []) == Progress(w, 0, 0);
  }

  /** The manager is up to date on the hosts of `order`, and on the others knows what it knew before. */
  ghost predicate GatheredWell(w: World, order: seq<nat>)
    requires Basic(w)
  {
    Mid(w, 0, Gathered(w, order), GatheredOn(w, order))
  }

  lemma GatherLast(w: World, order: seq<nat>, j: nat)
    requires Inv(w) && AllOwnOk(w) && 0 < j < w.n && j !in order && GatheredWell(w, order)
    ensures GatheredWell(w, order + [j])
  {
    GatherOne(w, order, j, Gathered(w, order));
    GatheredMore(w, order, j);
  }

  lemma FrontOthers(n: nat, order: seq<nat>)
    requires Others(n, order) && order != []
    ensures var front, j := order[..|order| - 1], order[|order| - 1];
            Others(n, front) && 0 < j < n && j !in front && order == front + [j]
  {
  }

  lemma {:induction false} Gather(w: World, order: seq<nat>)
    requires Inv(w) && AllOwnOk(w) && Others(w.n, order)
    ensures GatheredWell(w, order)
    decreases |order|
  {
    if order == [] {
      GatheredNone(w);
    } else {
      FrontOthers(w.n, order);
      Gather(w, order[..|order| - 1]);
      GatherLast(w, order[..|order| - 1], order[|order| - 1]);
    }
  }

  lemma StartMid(w: World, h: nat)
    requires Inv(w) && h < w.n
    ensures Mid(w, h, w.mems[h], Progress(w, h, 0))
  {
    assert MemBasic(w, h) && Knowledge(w, h);
    forall p | 0 <= p < |w.cur|
      ensures Grown(w.mems[h].pages[p], w.mems[h].pages[p], h, w.n, p)
    {
      assert PageOk(w, h, p);
      QuietRefl(w.mems[h].pages[p], h);
    }
  }

  // ----- what every host then has -----

  /** Memory `m` of host `i` knows the whole history, and only notices were added to its pages. */
  ghost predicate Spread(w: World, i: nat, m: Mem)
    requires Basic(w) && i < w.n
  {
    && KnowsAll(w, m) && m.me == i && |m.pages| == |w.cur|
    && forall p :: 0 <= p < |w.cur| ==> Grown(w.mems[i].pages[p], m.pages[p], i, w.n, p)
  }

  lemma MidSpreads(w: World, i: nat, m: Mem)
    requires Basic(w) && i < w.n && Mid(w, i, m, Progress(w, i, w.n))
    ensures Spread(w, i, m)
  {
    FetchKnows(w, i, m);
  }

  lemma BarrierKeepsSpread(w: World, i: nat, m: Mem, ts: Vec)
    requires Basic(w) && i < w.n && Spread(w, i, m) && |ts| == w.n
    ensures Spread(w, i, BarrierInterval(m, ts))
  {
    var r := BarrierInterval(m, ts);
    forall j | 0 <= j < w.n
      ensures Knows(w.log, r, j, |w.log|)
    {
      assert Knows(w.log, m, j, |w.log|);
      assert WithNotices(r.procs[j]) == WithNotices(m.procs[j]);
    }
  }

  /** The messages returned to host `i` by a manager with memory `g` whose new vector is `ts`. */
  ghost function ExitMsgs(w: World, g: Mem, ts: Vec, i: nat): seq<InfoMsg>
    requires Basic(w) && i < w.n && |g.procs| == w.n
  {
    EntryMessages(ts, w.n, GrantedPackets(g, NowTs(w.mems[i]), w.n))
  }

  lemma ExitDelivers(w: World, g: Mem, ts: Vec, i: nat)
    requires Inv(w) && w.inside.None? && i < w.n && KnowsAll(w, g) && |ts| == w.n && ts[0] != -1
    ensures forall k :: 0 <= k < |ExitMsgs(w, g, ts, i)| ==> ExitWf(ExitMsgs(w, g, ts, i)[k], w.n, |w.cur|)
    ensures MemBasic(w, i) && Spread(w, i, HandleExits(w.mems[i], ExitMsgs(w, g, ts, i)))
    ensures NowIndex(HandleExits(w.mems[i], ExitMsgs(w, g, ts, i))) == 0
    ensures NowTs(HandleExits(w.mems[i], ExitMsgs(w, g, ts, i))) == ts
    ensures StartsAfresh(w, i, HandleExits(w.mems[i], ExitMsgs(w, g, ts, i)), ts)
  {
    assert MemBasic(w, i) && Knowledge(w, i);
    var t, m := NowTs(w.mems[i]), BarrierInterval(w.mems[i], ts);
    PushStart(w, i, Interval(ts, [], true));
    NowSplits(w, i);
    DeliverAll(w, i, m, g, w.n, t);
    ExitRoundTrip(w.mems[i], ts, GrantedPackets(g, t, w.n));
    MidSpreads(w, i, IncorporateAll(m, GrantedPackets(g, t, w.n)));
    ExitNow(w, g, i, m);
  }

  /** No packet is about the receiver itself, so its new interval stays the current one. */
  lemma ExitNow(w: World, g: Mem, i: nat, m: Mem)
    requires Basic(w) && i < w.n && KnowsAll(w, g) && Splits(w, NowTs(w.mems[i]), Known(w.log, i)) && Wf(m) && m.me == i
    requires AllWf(GrantedPackets(g, NowTs(w.mems[i]), w.n), m.n, |m.pages|)
    ensures var r := IncorporateAll(m, GrantedPackets(g, NowTs(w.mems[i]), w.n));
            r.now == m.now && r.procs[i] == m.procs[i]
  {
    var t := NowTs(w.mems[i]);
    SendsKnown(w, g, i, t);
    OwnNotSent(w, i, t);
    NoOwnPackets(i, g, w.n, t);
    IncorporateNow(m, GrantedPackets(g, t, w.n));
  }

  // ----- what is sent at the next barrier -----

  /**
   Host `i`'s own list is as before, behind one new barrier interval with the new vector. So at the next barrier
   it sends what it opens from here on, and nothing older.
  */
  ghost predicate StartsAfresh(w: World, i: nat, m: Mem, ts: Vec)
    requires Basic(w) && i < w.n
  {
    && i < |m.procs| && m.procs[i] == [Interval(ts, [], true)] + w.mems[i].procs[i]
    && SinceBarrier(m.procs[i]) == [m.procs[i][0]]
  }

  lemma {:induction false} EntryPacketsHost(j: nat, ivs: seq<Interval>)
    ensures forall k :: 0 <= k < |EntryPackets(j, ivs)| ==> EntryPackets(j, ivs)[k].host == j
  {
    if ivs != [] {
      EntryPacketsHost(j, ivs[1..]);
      PacketizeHost(j, ivs[0].ts, ivs[0].pages);
    }
  }

  /** Other hosts' entry messages leave the manager's own list alone. */
  lemma EntryLeavesOwn(w: World, m: Mem, j: nat)
    requires Basic(w) && 0 < j < w.n && Fits(m, EntryMsgs(w, j)) && m.me == 0
    ensures HandleInfos(m, EntryMsgs(w, j)).me == 0 && HandleInfos(m, EntryMsgs(w, j)).procs[0] == m.procs[0]
  {
    InfosCarry(m, EntryMsgs(w, j));
    NothingLost(NowTs(w.mems[j]), w.n, OwnPackets(w, j));
    EntryPacketsHost(j, SinceBarrier(w.mems[j].procs[j]));
    IncorporateNow(m, OwnPackets(w, j));
  }

  lemma {:induction false} GatheredOwn(w: World, order: seq<nat>)
    requires Basic(w) && Others(w.n, order)
    ensures Wf(Gathered(w, order)) && Gathered(w, order).me == 0
    ensures Gathered(w, order).procs[0] == w.mems[0].procs[0]
    decreases |order|
  {
    if order == [] {
      assert MemBasic(w, 0);
    } else {
      var j := order[|order| - 1];
      FrontOthers(w.n, order);
      GatheredOwn(w, order[..|order| - 1]);
      var m := Gathered(w, order[..|order| - 1]);
      if Fits(m, EntryMsgs(w, j)) {
        EntryLeavesOwn(w, m, j);
      }
    }
  }

  // ----- reading after the barrier -----

  lemma NothingPendingAfter(w: World, i: nat, m: Mem, p: nat, k: nat)
    requires Basic(w) && i < w.n && p < |w.cur| && k < |w.log| && Spread(w, i, m) && UpToDate(m.pages[p], i)
    ensures !Pending(w, i, p, k)
  {
    var j := Writer(w, k);
    var e := m.pages[p];
    assert Grown(w.mems[i].pages[p], e, i, w.n, p);
    assert Knows(w.log, m, j, |w.log|);
    FindNotice(w.n, |w.cur|, w.log, |w.log|, j, p, e.notices[j], k);
    if j != i && p in w.log[k].pages {
      assert Settled(e.notices[j][NoticeIdx(e.notices[j], w.log[k].ts)], e.start);
    }
  }

  /** A host that knows the whole history reads the current bytes from every page it can read. */
  lemma SpreadReadsCurrent(w: World, i: nat, m: Mem, p: nat)
    requires Basic(w) && i < w.n && p < |w.cur| && Spread(w, i, m) && Conserved(w, i, p)
    requires m.pages[p].state == RDONLY || m.pages[p].state == WRITE
    ensures m.pages[p].bytes == w.cur[p]
  {
    assert Grown(w.mems[i].pages[p], m.pages[p], i, w.n, p);
    forall k | 0 <= k < |w.log|
      ensures !Pending(w, i, p, k)
    {
      NothingPendingAfter(w, i, m, p, k);
    }
    TotalZero(Terms(w, i, p));
    AddZero(m.pages[p].bytes);
  }
  // ----- the whole exchange -----

  /** The manager's memory after all other hosts have entered and the barrier's vector is taken. */
  ghost function Manager(w: World, order: seq<nat>, ts: Vec): Mem
    requires Basic(w) && Wf(Gathered(w, order)) && Gathered(w, order).n == |ts|
  {
    BarrierInterval(Gathered(w, order), ts)
  }

  /** All hosts but the manager, in some order. */
  ghost predicate AllOthers(n: nat, order: seq<nat>) {
    Others(n, order) && forall j :: 0 < j < n ==> j in order
  }

  lemma ManagerKnowsAll(w: World, order: seq<nat>, ts: Vec)
    requires Inv(w) && AllOwnOk(w) && AllOthers(w.n, order) && |ts| == w.n
    ensures Wf(Gathered(w, order)) && Gathered(w, order).n == w.n
    ensures Spread(w, 0, Manager(w, order, ts)) && NowTs(Manager(w, order, ts)) == ts
  {
    Gather(w, order);
    assert GatheredOn(w, order) == Progress(w, 0, w.n);
    MidSpreads(w, 0, Gathered(w, order));
    BarrierKeepsSpread(w, 0, Gathered(w, order), ts);
  }

  /** Host `i`'s memory after the barrier. */
  ghost function AfterBarrier(w: World, order: seq<nat>, ts: Vec, i: nat): Mem
    requires Basic(w) && i < w.n && Wf(Gathered(w, order)) && Gathered(w, order).n == |ts| == w.n
    requires Wf(w.mems[i]) && w.mems[i].n == w.n
    requires i != 0 ==>
               forall k :: 0 <= k < |ExitMsgs(w, Manager(w, order, ts), ts, i)| ==>
                 ExitWf(ExitMsgs(w, Manager(w, order, ts), ts, i)[k], w.n, |w.mems[i].pages|)
  {
    if i == 0 then Manager(w, order, ts)
    else HandleExits(w.mems[i], ExitMsgs(w, Manager(w, order, ts), ts, i))
  }

  /** Every message of the exchange can be handled; then host `i` has the vector and knows the whole history. */
  lemma BarrierSpreads(w: World, order: seq<nat>, ts: Vec, i: nat)
    requires Inv(w) && AllOwnOk(w) && w.inside.None? && AllOthers(w.n, order) && i < w.n && |ts| == w.n && ts[0] != -1
    ensures Wf(Gathered(w, order)) && Gathered(w, order).n == w.n && Wf(w.mems[i]) && w.mems[i].n == w.n
    ensures |w.mems[i].pages| == |w.cur|
    ensures i != 0 ==>
              forall k :: 0 <= k < |ExitMsgs(w, Manager(w, order, ts), ts, i)| ==>
                ExitWf(ExitMsgs(w, Manager(w, order, ts), ts, i)[k], w.n, |w.cur|)
    ensures Spread(w, i, AfterBarrier(w, order, ts, i)) && NowTs(AfterBarrier(w, order, ts, i)) == ts
    ensures StartsAfresh(w, i, AfterBarrier(w, order, ts, i), ts)
  {
    assert MemBasic(w, i);
    ManagerKnowsAll(w, order, ts);
    if i == 0 {
      GatheredOwn(w, order);
    } else {
      ExitDelivers(w, Manager(w, order, ts), ts, i);
    }
  }

  /** The manager's interval lists hold no more notices per interval than the critical sections have. */
  lemma SmallSections(w: World, m: Mem, h: nat)
    requires Basic(w) && KnowsAll(w, m) && h < w.n && forall k :: 0 <= k < |w.log| ==> |w.log[k].pages| <= MAX_WN_NUM
    ensures Small(m.procs[h])
  {
    assert Knows(w.log, m, h, |w.log|);
    forall i | 0 <= i < |m.procs[h]| && m.procs[h][i].pages != []
      ensures |m.procs[h][i].pages| <= MAX_WN_NUM
    {
      InWithNotices(m.procs[h], m.procs[h][i]);
      var x :| 0 <= x < |WithNotices(m.procs[h])| && WithNotices(m.procs[h])[x] == m.procs[h][i];
      var k := KnownListHas(w.log, |w.log|, h, x);
    }
  }

  /** If no critical section wrote more than 1024 pages, every exit message is sent to the host it is for. */
  lemma SmallSectionsReach(w: World, order: seq<nat>, ts: Vec, i: nat)
    requires Inv(w) && AllOwnOk(w) && AllOthers(w.n, order) && i < w.n && |ts| == w.n
    requires forall k :: 0 <= k < |w.log| ==> |w.log[k].pages| <= MAX_WN_NUM
    ensures Wf(Gathered(w, order)) && Gathered(w, order).n == w.n
    ensures Reaches(Manager(w, order, ts), NowTs(w.mems[i]), i)
  {
    ManagerKnowsAll(w, order, ts);
    forall h | 0 <= h < w.n
      ensures Small(Manager(w, order, ts).procs[h])
    {
      SmallSections(w, Manager(w, order, ts), h);
    }
    SmallReaches(Manager(w, order, ts), NowTs(w.mems[i]), i);
  }

  /** A host that knows the whole history has every interval with notices, and each notice in its page's list. */
  lemma SpreadHas(w: World, i: nat, m: Mem, j: nat, iv: Interval)
    requires Basic(w) && i < w.n && j < w.n && Spread(w, i, m) && Knowledge(w, j)
    requires iv in w.mems[j].procs[j] && iv.pages != []
    ensures HasInterval(m, j, iv)
  {
    var k := IntervalEntry(w, j, j, iv);
    assert Knows(w.log, m, j, |w.log|);
    InKnownList(w.log, |w.log|, j, k);
    InWithNotices(m.procs[j], iv);
    forall p | p in iv.pages
      ensures p < |w.cur| && NoticeIdx(m.pages[p].notices[j], iv.ts) < |m.pages[p].notices[j]|
    {
      assert EntryOk(w.n, |w.cur|, w.log, k);
      FindNotice(w.n, |w.cur|, w.log, |w.log|, j, p, m.pages[p].notices[j], k);
    }
  }
}
