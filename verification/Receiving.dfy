/**
 Entering a critical section. The acquirer asks the last releaser for all intervals strictly after
 its own; the packets it gets are exactly the part of the history it does not know, so afterwards
 it knows the whole history.
 */
module Receiving {
  import opened Options
  import opened Vectors
  import opened Diffs
  import opened HostMem
  import opened CriticalLog
  import opened Incorporation
  import opened PageStates
  import opened World
  import opened QuietSteps

  // ----- one page, one notice -----

  /** The entry grew by notices of other hosts: quiet, locally in order, own notices in place. */
  ghost predicate Grown(e: PageEntry, f: PageEntry, me: nat, n: nat, p: nat)
    requires 0 < n && me < |e.notices|
  {
    && Quiet(e, f, me) && PageLocal(f, me, n, p)
    && |f.notices[me]| == |e.notices[me]|
    && forall i :: 0 <= i < |e.notices[me]| ==> f.notices[me][i].ts == e.notices[me][i].ts
  }

  lemma GrownTrans(a: PageEntry, b: PageEntry, c: PageEntry, me: nat, n: nat, p: nat)
    requires 0 < n && me < |a.notices| && Grown(a, b, me, n, p) && Grown(b, c, me, n, p)
    ensures Grown(a, c, me, n, p)
  {
    forall ts | NoticeIdx(a.notices[me], ts) < |a.notices[me]|
      ensures NoticeIdx(b.notices[me], ts) < |b.notices[me]|
    {
      SameTs(a.notices[me], b.notices[me], ts);
    }
    QuietTrans(a, b, c, me);
  }

  lemma NewNotice(list: seq<Notice>, ts: Vec, t: Vec)
    requires NoticeIdx(list, ts) == |list|
    ensures DiffOf([Notice(ts, None)] + list, t) == DiffOf(list, t)
  {
    assert ([Notice(ts, None)] + list)[1..] == list;
  }

  lemma InvalidateOwn(e: PageEntry, me: nat)
    requires me < |e.notices| && PageInv(e, me)
    ensures var f := Invalidate(e, me);
            && SameOwn(e, f, me)
            && |f.notices[me]| == |e.notices[me]|
            && forall i :: 0 <= i < |e.notices[me]| ==> f.notices[me][i].ts == e.notices[me][i].ts
  {
    var own, f := e.notices[me], Invalidate(e, me);
    forall ts | NoticeIdx(own, ts) < |own|
      ensures OwnValue(f, me, ts) == OwnValue(e, me, ts)
      ensures DiffOf(own, ts).Some? ==> DiffOf(f.notices[me], ts) == DiffOf(own, ts)
    {
      SameTs(own, f.notices[me], ts);
    }
  }

  /** A notice newer than every own notice arrives for a page. */
  lemma NoticeArrives(e: PageEntry, me: nat, n: nat, p: nat, j: nat, ts: Vec)
    requires 0 < n && me < |e.notices| && j < |e.notices| && j != me && PageLocal(e, me, n, p)
    requires NoticeIdx(e.notices[j], ts) == |e.notices[j]|
    requires e.notices[me] == [] || After(ts, e.notices[me][0].ts)
    ensures Grown(e, AddToPage(Invalidate(e, me), j, ts), me, n, p)
  {
    var f := AddToPage(Invalidate(e, me), j, ts);
    InvalidateKeeps(e, me, j, ts);
    InvalidateOwn(e, me);
    forall x, t | 0 <= x < |e.notices| && x != me
      ensures DiffOf(f.notices[x], t) == DiffOf(e.notices[x], t)
    {
      NewNotice(e.notices[j], ts, t);
    }
    if f.state == INVALID {
      assert f.notices[j][0].ts == ts;
      assert f.notices[me] == [] || After(f.notices[j][0].ts, f.notices[me][0].ts);
    }
  }

  // ----- one host's memory while packets arrive -----

  /** Memory `m` of host `h` has grown from `base` and knows host `j`'s part of the history up to `kn[j]`. */
  ghost predicate Mid(w: World, h: nat, m: Mem, kn: seq<nat>)
    requires Basic(w) && h < w.n
  {
    && Wf(m) && m.me == h && m.n == w.n && |m.pages| == |w.cur|
    && |kn| == w.n && kn[h] <= Known(w.log, h)
    && (forall j :: 0 <= j < w.n ==> kn[j] <= |w.log| && Knows(w.log, m, j, kn[j]))
    && (forall p :: 0 <= p < |w.cur| ==> Grown(w.mems[h].pages[p], m.pages[p], h, w.n, p))
  }

  ghost function EntryPacket(w: World, k: nat): Packet
    requires Basic(w) && k < |w.log|
  {
    Packet(w.log[k].host, w.log[k].ts, w.log[k].pages)
  }

  lemma ReceiveEffect(w: World, h: nat, m: Mem, kn: seq<nat>, k: nat)
    requires Basic(w) && h < w.n && Mid(w, h, m, kn) && k < |w.log|
    requires w.log[k].host != h && kn[w.log[k].host] <= k
    ensures PacketWf(EntryPacket(w, k), m.n, |m.pages|)
    ensures var r, j := IncorporatePacket(m, EntryPacket(w, k)), w.log[k].host;
            && r.now == m.now
            && r.procs == m.procs[j := [AsInterval(w.log[k])] + m.procs[j]]
            && forall p :: 0 <= p < |m.pages| ==>
                 r.pages[p] == if p in w.log[k].pages then AddToPage(Invalidate(m.pages[p], h), j, w.log[k].ts)
                 else m.pages[p]
  {
    var j := Writer(w, k);
    assert EntryOk(w.n, |w.cur|, w.log, k);
    assert Knows(w.log, m, j, kn[j]);
    forall i | 0 <= i < |m.procs[j]|
      ensures m.procs[j][i].ts != w.log[k].ts
    {
      var x := KnownListHas(w.log, kn[j], j, i);
      LogCompare(w.n, |w.cur|, w.log, x, k);
    }
    NewPacketEffect(m, EntryPacket(w, k));
  }

  lemma ReceivePage(w: World, h: nat, m: Mem, kn: seq<nat>, k: nat, p: nat)
    requires Basic(w) && h < w.n && Mid(w, h, m, kn) && k < |w.log| && p < |w.cur|
    requires w.log[k].host != h && kn[w.log[k].host] <= k && Known(w.log, h) <= k
    ensures Grown(m.pages[p], AddToPage(Invalidate(m.pages[p], h), Writer(w, k), w.log[k].ts), h, w.n, p)
  {
    var j := Writer(w, k);
    var e := m.pages[p];
    assert Grown(w.mems[h].pages[p], e, h, w.n, p);
    assert Knows(w.log, m, j, kn[j]) && Knows(w.log, m, h, kn[h]);
    FindNotice(w.n, |w.cur|, w.log, kn[j], j, p, e.notices[j], k);
    if e.notices[h] != [] {
      LogCompare(w.n, |w.cur|, w.log, k, Writers(w.log, kn[h], h, p)[0]);
    }
    NoticeArrives(e, h, w.n, p, j, w.log[k].ts);
  }

  lemma ReceiveNotices(w: World, h: nat, m: Mem, kn: seq<nat>, k: nat, r: Mem, p: nat)
    requires Basic(w) && h < w.n && Mid(w, h, m, kn) && k < |w.log| && p < |w.cur|
    requires w.log[k].host != h && kn[w.log[k].host] == k
    requires PacketWf(EntryPacket(w, k), m.n, |m.pages|) && r == IncorporatePacket(m, EntryPacket(w, k))
    ensures NoticesMatch(w.log, k + 1, Writer(w, k), p, r.pages[p].notices[Writer(w, k)])
  {
    var j := Writer(w, k);
    ReceiveEffect(w, h, m, kn, k);
    assert Knows(w.log, m, j, k);
    assert NoticesMatch(w.log, k, j, p, m.pages[p].notices[j]);
    assert r.pages[p].notices[j] == (if p in w.log[k].pages then [Notice(w.log[k].ts, None)] else [])
      + m.pages[p].notices[j];
    MatchExtends(w.log, k, p, m.pages[p].notices[j]);
  }

  lemma ReceiveKnowsWriter(w: World, h: nat, m: Mem, kn: seq<nat>, k: nat, r: Mem)
    requires Basic(w) && h < w.n && Mid(w, h, m, kn) && k < |w.log|
    requires w.log[k].host != h && w.log[k].pages != [] && kn[w.log[k].host] == k
    requires PacketWf(EntryPacket(w, k), m.n, |m.pages|) && r == IncorporatePacket(m, EntryPacket(w, k))
    ensures Knows(w.log, r, w.log[k].host, k + 1)
  {
    var j := Writer(w, k);
    ReceiveEffect(w, h, m, kn, k);
    assert Knows(w.log, m, j, k);
    KnownListWithNotices(w.log, k + 1, j);
    forall p | 0 <= p < |r.pages|
      ensures NoticesMatch(w.log, k + 1, j, p, r.pages[p].notices[j])
    {
      ReceiveNotices(w, h, m, kn, k, r, p);
    }
  }

  lemma MatchExtends(log: seq<CS>, k: nat, p: nat, list: seq<Notice>)
    requires k < |log| && NoticesMatch(log, k, log[k].host, p, list)
    ensures NoticesMatch(log, k + 1, log[k].host, p,
                         (if p in log[k].pages then [Notice(log[k].ts, None)] else []) + list)
  {
  }

  lemma ReceiveKnowsOther(w: World, h: nat, m: Mem, kn: seq<nat>, k: nat, r: Mem, x: nat)
    requires Basic(w) && h < w.n && Mid(w, h, m, kn) && k < |w.log| && x < w.n
    requires w.log[k].host != h && kn[w.log[k].host] == k && x != w.log[k].host
    requires PacketWf(EntryPacket(w, k), m.n, |m.pages|) && r == IncorporatePacket(m, EntryPacket(w, k))
    ensures Knows(w.log, r, x, kn[x])
  {
    ReceiveEffect(w, h, m, kn, k);
    assert Knows(w.log, m, x, kn[x]);
    assert r.procs[x] == m.procs[x];
    forall p | 0 <= p < |r.pages|
      ensures NoticesMatch(w.log, kn[x], x, p, r.pages[p].notices[x])
    {
      assert Grown(w.mems[h].pages[p], m.pages[p], h, w.n, p);
      assert NoticesMatch(w.log, kn[x], x, p, m.pages[p].notices[x]);
      OtherNoticesKept(m.pages[p], h, Writer(w, k), w.log[k].ts, x);
      SameTimesMatch(w.log, kn[x], x, p, m.pages[p].notices[x], r.pages[p].notices[x]);
    }
  }

  /** A notice of one host leaves the timestamps of another host's notices alone. */
  lemma OtherNoticesKept(e: PageEntry, me: nat, j: nat, ts: Vec, x: nat)
    requires me < |e.notices| && j < |e.notices| && x < |e.notices| && x != j
    ensures var f := AddToPage(Invalidate(e, me), j, ts);
            |f.notices[x]| == |e.notices[x]| &&
              forall i :: 0 <= i < |e.notices[x]| ==> f.notices[x][i].ts == e.notices[x][i].ts
  {
  }

  lemma SameTimesMatch(log: seq<CS>, upto: nat, j: nat, p: nat, a: seq<Notice>, b: seq<Notice>)
    requires upto <= |log| && NoticesMatch(log, upto, j, p, a) && |b| == |a|
    requires forall i :: 0 <= i < |a| ==> b[i].ts == a[i].ts
    ensures NoticesMatch(log, upto, j, p, b)
  {
  }

  lemma ReceivePages(w: World, h: nat, m: Mem, kn: seq<nat>, k: nat, r: Mem, p: nat)
    requires Basic(w) && h < w.n && Mid(w, h, m, kn) && k < |w.log| && p < |w.cur|
    requires w.log[k].host != h && kn[w.log[k].host] == k && Known(w.log, h) <= k
    requires PacketWf(EntryPacket(w, k), m.n, |m.pages|) && r == IncorporatePacket(m, EntryPacket(w, k))
    ensures Grown(w.mems[h].pages[p], r.pages[p], h, w.n, p)
  {
    ReceiveEffect(w, h, m, kn, k);
    assert Grown(w.mems[h].pages[p], m.pages[p], h, w.n, p);
    if p in w.log[k].pages {
      ReceivePage(w, h, m, kn, k, p);
      GrownTrans(w.mems[h].pages[p], m.pages[p], r.pages[p], h, w.n, p);
    }
  }

  /** The next critical section of host `j` is received. */
  lemma Receive(w: World, h: nat, m: Mem, kn: seq<nat>, k: nat)
    requires Basic(w) && h < w.n && Mid(w, h, m, kn) && k < |w.log|
    requires w.log[k].host != h && w.log[k].pages != [] && kn[w.log[k].host] == k && Known(w.log, h) <= k
    ensures PacketWf(EntryPacket(w, k), m.n, |m.pages|)
    ensures Mid(w, h, IncorporatePacket(m, EntryPacket(w, k)), kn[w.log[k].host := k + 1])
  {
    var j := Writer(w, k);
    ReceiveEffect(w, h, m, kn, k);
    var r := IncorporatePacket(m, EntryPacket(w, k));
    var kn' := kn[j := k + 1];
    forall x | 0 <= x < w.n
      ensures Knows(w.log, r, x, kn'[x])
    {
      if x == j {
        ReceiveKnowsWriter(w, h, m, kn, k, r);
      } else {
        ReceiveKnowsOther(w, h, m, kn, k, r, x);
      }
    }
    forall p | 0 <= p < |w.cur|
      ensures Grown(w.mems[h].pages[p], r.pages[p], h, w.n, p)
    {
      ReceivePages(w, h, m, kn, k, r, p);
    }
  }

  /** A critical section of host `j` without notices needs no packet. */
  lemma SkipEmpty(w: World, h: nat, m: Mem, kn: seq<nat>, j: nat, high: nat)
    requires Basic(w) && h < w.n && Mid(w, h, m, kn) && j < w.n && kn[j] <= high <= |w.log|
    requires forall k :: kn[j] <= k < high ==> w.log[k].host != j || w.log[k].pages == []
    ensures Knows(w.log, m, j, high)
  {
    assert Knows(w.log, m, j, kn[j]);
    NoIntervalsBetween(w.log, kn[j], high, j);
    forall p | 0 <= p < |m.pages|
      ensures NoticesMatch(w.log, high, j, p, m.pages[p].notices[j])
    {
      NoWritersBetween(w.log, kn[j], high, j, p);
    }
  }

  // ----- what the granter sends -----

  /** The requester's timestamp separates what it knows from what it does not. */
  ghost predicate Splits(w: World, t: Vec, low: nat)
    requires Basic(w)
  {
    forall k :: 0 <= k < |w.log| ==> (After(w.log[k].ts, t) <==> k >= low)
  }

  /** Everything from the `low`-th critical section on is sent to a requester with this timestamp. */
  ghost predicate Sends(w: World, t: Vec, low: nat)
    requires Basic(w)
  {
    forall k :: low <= k < |w.log| ==> After(w.log[k].ts, t)
  }

  lemma NowSplits(w: World, h: nat)
    requires Basic(w) && h < w.n && Knowledge(w, h) && w.inside != Some(h)
    ensures Splits(w, NowTs(w.mems[h]), Known(w.log, h))
  {
    var low := Known(w.log, h);
    forall k | 0 <= k < |w.log|
      ensures After(w.log[k].ts, NowOf(w, h)) <==> k >= low
    {
      if low == 0 {
        LogAfterZero(w.n, |w.cur|, w.log, k);
      } else {
        LogCompare(w.n, |w.cur|, w.log, k, low - 1);
      }
    }
  }

  lemma {:induction false} EmptyIntervalsSkipped(j: nat, list: seq<Interval>, t: Vec)
    ensures HostPackets(j, list, t) == HostPackets(j, WithNotices(list), t)
  {
    if list != [] {
      EmptyIntervalsSkipped(j, list[1..], t);
      if list[0].pages != [] {
        assert WithNotices(list)[1..] == WithNotices(list[1..]);
      }
    }
  }

  lemma {:induction false} NothingOld(w: World, j: nat, t: Vec, low: nat)
    requires Basic(w) && low <= |w.log| && (forall k :: 0 <= k < low ==> !After(w.log[k].ts, t))
    ensures HostPackets(j, KnownList(w.log, low, j), t) == []
  {
    if low > 0 {
      NothingOld(w, j, t, low - 1);
      var list := KnownList(w.log, low, j);
      if w.log[low - 1].host == j && w.log[low - 1].pages != [] {
        assert list[1..] == KnownList(w.log, low - 1, j);
      }
    }
  }

  ghost predicate AllWf(pks: seq<Packet>, n: nat, pageCount: nat) {
    forall i :: 0 <= i < |pks| ==> PacketWf(pks[i], n, pageCount)
  }

  /** The packets for host `j`'s intervals among the first `k` critical sections. */
  ghost function PacketsUpTo(w: World, j: nat, k: nat, t: Vec): seq<Packet>
    requires k <= |w.log|
  {
    HostPackets(j, KnownList(w.log, k, j), t)
  }

  lemma PacketsStep(w: World, j: nat, k: nat, t: Vec)
    requires k < |w.log|
    ensures var more := if w.log[k].host == j && w.log[k].pages != [] && After(w.log[k].ts, t)
                        then Packetize(j, w.log[k].ts, w.log[k].pages) else [];
            PacketsUpTo(w, j, k + 1, t) == PacketsUpTo(w, j, k, t) + more
  {
    if w.log[k].host == j && w.log[k].pages != [] {
      assert KnownList(w.log, k + 1, j)[1..] == KnownList(w.log, k, j);
    }
  }

  /** The packets for host `j`'s intervals up to `high` bring the receiver that far on host `j`. */
  ghost predicate Swept(w: World, h: nat, m: Mem, kn: seq<nat>, j: nat, high: nat, t: Vec)
    requires Basic(w) && h < w.n && Wf(m) && j < |kn| && high <= |w.log|
  {
    && AllWf(PacketsUpTo(w, j, high, t), m.n, |m.pages|)
    && Mid(w, h, IncorporateAll(m, PacketsUpTo(w, j, high, t)), kn[j := high])
  }

  lemma SweepStep(w: World, h: nat, m: Mem, kn: seq<nat>, j: nat, low: nat, k: nat, t: Vec)
    requires Basic(w) && h < w.n && j < w.n && j < |kn| && j != h && Wf(m)
    requires Known(w.log, h) <= low <= k < |w.log| && Sends(w, t, low)
    requires Swept(w, h, m, kn, j, k, t)
    ensures Swept(w, h, m, kn, j, k + 1, t)
  {
    if w.log[k].host == j && w.log[k].pages != [] {
      SweepOne(w, h, m, kn, j, k, t);
    } else {
      SweepNone(w, h, m, kn, j, k, t);
    }
  }

  lemma {:induction false} SweepFurther(w: World, h: nat, m: Mem, kn: seq<nat>, j: nat, low: nat, high: nat, t: Vec)
    requires Basic(w) && h < w.n && j < w.n && j != h && Wf(m) && j < |kn|
    requires Known(w.log, h) <= low <= high <= |w.log| && Sends(w, t, low)
    requires Swept(w, h, m, kn, j, low, t)
    ensures Swept(w, h, m, kn, j, high, t)
    decreases high
  {
    if low < high {
      var k := high - 1;
      SweepFurther(w, h, m, kn, j, low, k, t);
      SweepStep(w, h, m, kn, j, low, k, t);
    }
  }

  lemma SweepHost(w: World, h: nat, m: Mem, kn: seq<nat>, j: nat, t: Vec)
    requires Basic(w) && h < w.n && j < w.n && j != h && Mid(w, h, m, kn)
    requires kn[j] == Known(w.log, h) && Splits(w, t, kn[j])
    ensures Swept(w, h, m, kn, j, |w.log|, t)
  {
    SweepBase(w, h, m, kn, j, t);
    SweepFurther(w, h, m, kn, j, kn[j], |w.log|, t);
  }

  lemma SweepBase(w: World, h: nat, m: Mem, kn: seq<nat>, j: nat, t: Vec)
    requires Basic(w) && h < w.n && j < |kn| && Mid(w, h, m, kn) && kn[j] <= |w.log| && Splits(w, t, kn[j])
    ensures Swept(w, h, m, kn, j, kn[j], t)
  {
    NothingOld(w, j, t, kn[j]);
    assert kn[j := kn[j]] == kn;
  }

  lemma UpdateTwice(kn: seq<nat>, j: nat, a: nat, b: nat)
    requires j < |kn|
    ensures kn[j := a][j := b] == kn[j := b]
  {
  }

  lemma SweepOne(w: World, h: nat, m: Mem, kn: seq<nat>, j: nat, k: nat, t: Vec)
    requires Basic(w) && h < w.n && j < |kn| && j != h && Wf(m) && k < |w.log|
    requires w.log[k].host == j && w.log[k].pages != [] && After(w.log[k].ts, t) && Known(w.log, h) <= k
    requires Swept(w, h, m, kn, j, k, t)
    ensures Swept(w, h, m, kn, j, k + 1, t)
  {
    SweepReceive(w, h, m, kn[j := k], PacketsUpTo(w, j, k, t), k);
    PacketsStep(w, j, k, t);
    UpdateTwice(kn, j, k, k + 1);
  }

  lemma SamePackets(w: World, j: nat, k: nat, t: Vec)
    requires k < |w.log| && (w.log[k].host != j || w.log[k].pages == [])
    ensures PacketsUpTo(w, j, k + 1, t) == PacketsUpTo(w, j, k, t)
  {
    PacketsStep(w, j, k, t);
    var before := PacketsUpTo(w, j, k, t);
    assert before + [] == before;
  }

  lemma SweepNone(w: World, h: nat, m: Mem, kn: seq<nat>, j: nat, k: nat, t: Vec)
    requires Basic(w) && h < w.n && j < w.n && j < |kn| && j != h && Wf(m) && k < |w.log|
    requires w.log[k].host != j || w.log[k].pages == []
    requires Swept(w, h, m, kn, j, k, t)
    ensures Swept(w, h, m, kn, j, k + 1, t)
  {
    UpdateTwice(kn, j, k, k + 1);
    SweepSkip(w, h, IncorporateAll(m, PacketsUpTo(w, j, k, t)), kn[j := k], j, k + 1);
    SamePackets(w, j, k, t);
  }

  lemma SweepReceive(w: World, h: nat, m: Mem, kn: seq<nat>, before: seq<Packet>, k: nat)
    requires Basic(w) && h < w.n && Wf(m) && AllWf(before, m.n, |m.pages|) && Mid(w, h, IncorporateAll(m, before), kn)
    requires k < |w.log| && w.log[k].host != h && w.log[k].pages != [] && Writer(w, k) < |kn|
    requires kn[Writer(w, k)] == k && Known(w.log, h) <= k
    ensures var pks := before + Packetize(Writer(w, k), w.log[k].ts, w.log[k].pages);
            AllWf(pks, m.n, |m.pages|) && Mid(w, h, IncorporateAll(m, pks), kn[Writer(w, k) := k + 1])
  {
    var mid := IncorporateAll(m, before);
    Receive(w, h, mid, kn, k);
    PacketizedInterval(mid, Writer(w, k), w.log[k].ts, w.log[k].pages);
    IncorporateConcat(m, before, Packetize(Writer(w, k), w.log[k].ts, w.log[k].pages));
  }

  lemma SweepSkip(w: World, h: nat, m: Mem, kn: seq<nat>, j: nat, high: nat)
    requires Basic(w) && h < w.n && j < w.n && j != h && Mid(w, h, m, kn) && 0 < high <= |w.log| && kn[j] == high - 1
    requires w.log[high - 1].host != j || w.log[high - 1].pages == []
    ensures Mid(w, h, m, kn[j := high])
  {
    SkipEmpty(w, h, m, kn, j, high);
    var kn' := kn[j := high];
    forall x | 0 <= x < w.n
      ensures Knows(w.log, m, x, kn'[x])
    {
      assert Knows(w.log, m, x, kn[x]);
    }
  }

  /**
   What the receiver knows after the packets of the hosts below `upto`: everything, but of itself only its
   own past.
  */
  ghost function Progress(w: World, h: nat, upto: nat): (kn: seq<nat>)
    requires Basic(w) && h < w.n && upto <= w.n
    ensures |kn| == w.n
  {
    seq(w.n, j requires 0 <= j < w.n => ProgressOn(w, h, upto, j))
  }

  ghost function ProgressOn(w: World, h: nat, upto: nat, j: nat): nat {
    if j < upto && j != h then |w.log| else Known(w.log, h)
  }

  /** A memory that knows the whole history. */
  ghost predicate KnowsAll(w: World, g: Mem) {
    Wf(g) && g.n == w.n && forall j :: 0 <= j < w.n ==> Knows(w.log, g, j, |w.log|)
  }

  /** The packets of the hosts below `upto`, as a granter with memory `g` sends them. */
  ghost predicate Delivered(w: World, h: nat, m: Mem, g: Mem, upto: nat, t: Vec)
    requires Basic(w) && h < w.n && Wf(m) && upto <= w.n
  {
    && upto <= |g.procs|
    && AllWf(GrantedPackets(g, t, upto), m.n, |m.pages|)
    && Mid(w, h, IncorporateAll(m, GrantedPackets(g, t, upto)), Progress(w, h, upto))
  }

  lemma DeliverOwn(w: World, h: nat, m: Mem, g: Mem, t: Vec)
    requires Basic(w) && h < w.n && Wf(m) && KnowsAll(w, g) && Splits(w, t, Known(w.log, h))
    requires Delivered(w, h, m, g, h, t)
    ensures Delivered(w, h, m, g, h + 1, t)
  {
    assert Knows(w.log, g, h, |w.log|);
    EmptyIntervalsSkipped(h, g.procs[h], t);
    OwnNotSent(w, h, t);
    var before := GrantedPackets(g, t, h);
    assert before + [] == before;
    assert Progress(w, h, h + 1) == Progress(w, h, h);
  }

  /** Packets delivered after those of the hosts below `j`. */
  lemma DeliverMore(w: World, h: nat, m: Mem, g: Mem, j: nat, t: Vec, pks: seq<Packet>)
    requires Basic(w) && h < w.n && Wf(m) && j < w.n && j < |g.procs| && j != h && Delivered(w, h, m, g, j, t)
    requires pks == HostPackets(j, g.procs[j], t)
    requires var mid := IncorporateAll(m, GrantedPackets(g, t, j));
             AllWf(pks, mid.n, |mid.pages|) && Mid(w, h, IncorporateAll(mid, pks), Progress(w, h, j)[j := |w.log|])
    ensures Delivered(w, h, m, g, j + 1, t)
  {
    IncorporateConcat(m, GrantedPackets(g, t, j), pks);
    assert Progress(w, h, j)[j := |w.log|] == Progress(w, h, j + 1);
  }

  /** A granter that knows everything sends for `j` what the history says, whatever empty intervals it has. */
  lemma SendsKnown(w: World, g: Mem, j: nat, t: Vec)
    requires Basic(w) && j < w.n && KnowsAll(w, g)
    ensures HostPackets(j, g.procs[j], t) == HostPackets(j, KnownList(w.log, |w.log|, j), t)
  {
    assert Knows(w.log, g, j, |w.log|);
    EmptyIntervalsSkipped(j, g.procs[j], t);
  }

  lemma DeliverOther(w: World, h: nat, m: Mem, g: Mem, j: nat, t: Vec)
    requires Basic(w) && h < w.n && Wf(m) && j < w.n && j < |g.procs| && j != h && Splits(w, t, Known(w.log, h))
    requires HostPackets(j, g.procs[j], t) == HostPackets(j, KnownList(w.log, |w.log|, j), t)
    requires Delivered(w, h, m, g, j, t)
    ensures Delivered(w, h, m, g, j + 1, t)
  {
    SweepHost(w, h, IncorporateAll(m, GrantedPackets(g, t, j)), Progress(w, h, j), j, t);
    DeliverMore(w, h, m, g, j, t, HostPackets(j, g.procs[j], t));
  }

  lemma DeliverHost(w: World, h: nat, m: Mem, g: Mem, j: nat, t: Vec)
    requires Basic(w) && h < w.n && Wf(m) && j < w.n && KnowsAll(w, g) && Splits(w, t, Known(w.log, h))
    requires Delivered(w, h, m, g, j, t)
    ensures Delivered(w, h, m, g, j + 1, t)
  {
    if j == h {
      DeliverOwn(w, h, m, g, t);
    } else {
      SendsKnown(w, g, j, t);
      DeliverOther(w, h, m, g, j, t);
    }
  }

  /** No interval of the requester itself is after its current one. */
  lemma OwnNotSent(w: World, h: nat, t: Vec)
    requires Basic(w) && h < w.n && Splits(w, t, Known(w.log, h))
    ensures HostPackets(h, KnownList(w.log, |w.log|, h), t) == []
  {
    NoIntervalsBetween(w.log, Known(w.log, h), |w.log|, h);
    NothingOld(w, h, t, Known(w.log, h));
  }

  lemma {:induction false} DeliverAll(w: World, h: nat, m: Mem, g: Mem, upto: nat, t: Vec)
    requires Basic(w) && h < w.n && Wf(m) && upto <= w.n && KnowsAll(w, g) && Splits(w, t, Known(w.log, h))
    requires Delivered(w, h, m, g, 0, t)
    ensures Delivered(w, h, m, g, upto, t)
  {
    if upto > 0 {
      var j := upto - 1;
      DeliverAll(w, h, m, g, j, t);
      DeliverHost(w, h, m, g, j, t);
    }
  }

  // ----- entering -----

  /** Host `h` has completed `mi_lock` with memory `m`: a new critical section begins. */
  ghost function Enter(w: World, h: nat, m: Mem): World
    requires Wf(m)
  {
    w.(mems := if h < |w.mems| then w.mems[h := m] else w.mems,
       log := w.log + [CS(h, NowTs(m), [])], inside := Some(h), missed := {})
  }

  /** The memory after `mi_lock`'s own new interval. */
  ghost function OwnMem(w: World, h: nat): (m: Mem)
    requires Basic(w) && h < w.n
    ensures Wf(m)
  {
    AddNewInterval(w.mems[h])
  }

  /** What the GRANT_WN_I message from `g` to `h` contains. */
  ghost function Grant(w: World, h: nat, g: nat): (Vec, seq<Packet>)
    requires Basic(w) && h < w.n && g < w.n
  {
    (NowTs(w.mems[g]), GrantedPackets(w.mems[g], NowTs(w.mems[h]), w.n))
  }

  /** The condition on the memory with which `h` enters. */
  ghost predicate Ready(w: World, h: nat, m: Mem)
    requires Basic(w) && h < w.n
  {
    && Wf(m) && m.me == h && m.n == w.n && |m.pages| == |w.cur|
    && NowIndex(m) == 0 && m.procs[h] == [Interval(NowTs(m), [], false)] + w.mems[h].procs[h]
    && NowTs(m) == Bump(if w.log == [] then Zero(w.n) else Rel(w.log, |w.log| - 1), h)
    && (forall j :: 0 <= j < w.n ==> Knows(w.log, m, j, |w.log|))
    && (forall p :: 0 <= p < |w.cur| ==> Grown(w.mems[h].pages[p], m.pages[p], h, w.n, p))
  }

  lemma OwnReady(w: World, h: nat)
    requires Inv(w) && w.inside.None? && h < w.n && Known(w.log, h) == |w.log|
    ensures Ready(w, h, OwnMem(w, h))
  {
    assert Knowledge(w, h);
    var m := OwnMem(w, h);
    assert NowTs(w.mems[h]) == w.mems[h].procs[h][0].ts;
    forall j | 0 <= j < w.n
      ensures Knows(w.log, m, j, |w.log|)
    {
      assert Knows(w.log, w.mems[h], j, |w.log|);
      assert WithNotices(m.procs[j]) == WithNotices(w.mems[h].procs[j]);
    }
    forall p | 0 <= p < |w.cur|
      ensures Grown(w.mems[h].pages[p], m.pages[p], h, w.n, p)
    {
      assert PageOk(w, h, p);
      QuietRefl(w.mems[h].pages[p], h);
    }
  }

  /** A new own interval without notices changes nothing that is known. */
  lemma PushStart(w: World, h: nat, iv: Interval)
    requires Inv(w) && h < w.n && |iv.ts| == w.n && iv.pages == []
    ensures Mid(w, h, PushOwn(w.mems[h], iv), Progress(w, h, 0))
  {
    assert MemBasic(w, h) && Knowledge(w, h);
    var m := PushOwn(w.mems[h], iv);
    forall j | 0 <= j < w.n
      ensures Knows(w.log, m, j, Known(w.log, h))
    {
      assert Knows(w.log, w.mems[h], j, Known(w.log, h));
      assert WithNotices(m.procs[j]) == WithNotices(w.mems[h].procs[j]);
    }
    forall p | 0 <= p < |w.cur|
      ensures Grown(w.mems[h].pages[p], m.pages[p], h, w.n, p)
    {
      assert PageOk(w, h, p);
      QuietRefl(w.mems[h].pages[p], h);
    }
  }

  lemma AdoptStart(w: World, h: nat, g: nat)
    requires Inv(w) && h < w.n && g < w.n
    ensures Delivered(w, h, AdoptInterval(w.mems[h], NowTs(w.mems[g])), w.mems[g], 0, NowTs(w.mems[h]))
  {
    assert MemBasic(w, g) && MemBasic(w, h);
    PushStart(w, h, Interval(Bump(NowTs(w.mems[g]), h), [], false));
  }

  lemma {:induction false} PacketizeHost(j: nat, ts: Vec, pages: seq<nat>)
    ensures forall i :: 0 <= i < |Packetize(j, ts, pages)| ==> Packetize(j, ts, pages)[i].host == j
    decreases |pages|
  {
    if |pages| > MAX_WN_NUM {
      PacketizeHost(j, ts, pages[MAX_WN_NUM..]);
    }
  }

  lemma {:induction false} HostPacketsHost(j: nat, list: seq<Interval>, t: Vec)
    ensures forall i :: 0 <= i < |HostPackets(j, list, t)| ==> HostPackets(j, list, t)[i].host == j
  {
    if list != [] {
      HostPacketsHost(j, list[1..], t);
      PacketizeHost(j, list[0].ts, list[0].pages);
    }
  }

  lemma {:induction false} NoOwnPackets(h: nat, g: Mem, upto: nat, t: Vec)
    requires h < |g.procs| && upto <= |g.procs| && HostPackets(h, g.procs[h], t) == []
    ensures forall i :: 0 <= i < |GrantedPackets(g, t, upto)| ==> GrantedPackets(g, t, upto)[i].host != h
  {
    if upto > 0 {
      NoOwnPackets(h, g, upto - 1, t);
      HostPacketsHost(upto - 1, g.procs[upto - 1], t);
    }
  }

  /** The last releaser's reply contains only packets of hosts other than the requester. */
  lemma GrantSkipsRequester(w: World, h: nat, g: nat)
    requires Inv(w) && w.inside.None? && h < w.n && g < w.n && g != h && Known(w.log, g) == |w.log|
    ensures forall i :: 0 <= i < |Grant(w, h, g).1| ==> Grant(w, h, g).1[i].host != h
  {
    assert Knowledge(w, g) && Knowledge(w, h);
    var t := NowTs(w.mems[h]);
    NowSplits(w, h);
    assert Knows(w.log, w.mems[g], h, |w.log|);
    OwnNotSent(w, h, t);
    NoOwnPackets(h, w.mems[g], w.n, t);
  }

  lemma FetchDelivers(w: World, h: nat, g: nat)
    requires Inv(w) && w.inside.None? && h < w.n && g < w.n && g != h && Known(w.log, g) == |w.log|
    ensures Delivered(w, h, AdoptInterval(w.mems[h], NowTs(w.mems[g])), w.mems[g], w.n, NowTs(w.mems[h]))
  {
    assert Knowledge(w, g) && Knowledge(w, h);
    NowSplits(w, h);
    AdoptStart(w, h, g);
    DeliverAll(w, h, AdoptInterval(w.mems[h], NowTs(w.mems[g])), w.mems[g], w.n, NowTs(w.mems[h]));
  }

  /** The memory after the reply has been handled. */
  ghost function FetchedMem(w: World, h: nat, g: nat): (m: Mem)
    requires Basic(w) && h < w.n && g < w.n
    requires AllWf(Grant(w, h, g).1, w.n, |w.cur|)
    ensures Wf(m)
  {
    HandleGrantWNI(w.mems[h], Grant(w, h, g).0, Grant(w, h, g).1)
  }

  lemma FetchKnows(w: World, h: nat, m: Mem)
    requires Basic(w) && h < w.n && Mid(w, h, m, Progress(w, h, w.n))
    ensures forall j :: 0 <= j < w.n ==> Knows(w.log, m, j, |w.log|)
  {
    var kn := Progress(w, h, w.n);
    forall j | 0 <= j < w.n
      ensures Knows(w.log, m, j, |w.log|)
    {
      assert Knows(w.log, m, j, kn[j]);
      if j == h {
        SkipEmpty(w, h, m, kn, h, |w.log|);
      }
    }
  }

  /** Adopting puts one interval in front of the own list; the packets leave that list alone. */
  lemma FetchOwn(w: World, h: nat, g: nat, m1: Mem)
    requires Basic(w) && h < w.n && g < w.n && AllWf(Grant(w, h, g).1, w.n, |w.cur|)
    requires forall i :: 0 <= i < |Grant(w, h, g).1| ==> Grant(w, h, g).1[i].host != h
    requires m1 == AdoptInterval(w.mems[h], NowTs(w.mems[g]))
    ensures FetchedMem(w, h, g).now == m1.now && FetchedMem(w, h, g).procs[h] == m1.procs[h]
  {
    IncorporateNow(m1, Grant(w, h, g).1);
  }

  /** What `IncorporateNow` leaves is what adopting the granter's vector made. */
  lemma AdoptedNow(w: World, h: nat, g: nat, m: Mem)
    requires Basic(w) && h < w.n && g < w.n && Knowledge(w, g) && w.inside != Some(g)
    requires w.log != [] && Known(w.log, g) == |w.log| && Wf(m) && m.me == h
    requires var m1 := AdoptInterval(w.mems[h], NowTs(w.mems[g]));
             m.now == m1.now && m.procs[h] == m1.procs[h]
    ensures NowIndex(m) == 0 && NowTs(m) == Bump(Rel(w.log, |w.log| - 1), h)
    ensures m.procs[h] == [Interval(NowTs(m), [], false)] + w.mems[h].procs[h]
  {
  }

  lemma FetchNow(w: World, h: nat, g: nat)
    requires Inv(w) && w.inside.None? && h < w.n && g < w.n && g != h
    requires w.log != [] && Known(w.log, g) == |w.log| && AllWf(Grant(w, h, g).1, w.n, |w.cur|)
    ensures var m := FetchedMem(w, h, g);
            && NowIndex(m) == 0 && NowTs(m) == Bump(Rel(w.log, |w.log| - 1), h)
            && m.procs[h] == [Interval(NowTs(m), [], false)] + w.mems[h].procs[h]
  {
    GrantSkipsRequester(w, h, g);
    assert Knowledge(w, g) && MemBasic(w, h);
    FetchOwn(w, h, g, AdoptInterval(w.mems[h], NowTs(w.mems[g])));
    AdoptedNow(w, h, g, FetchedMem(w, h, g));
  }

  lemma FetchReady(w: World, h: nat, g: nat)
    requires Inv(w) && w.inside.None? && h < w.n && g < w.n && g != h
    requires w.log != [] && Known(w.log, g) == |w.log|
    ensures AllWf(Grant(w, h, g).1, w.n, |w.cur|) && Ready(w, h, FetchedMem(w, h, g))
  {
    FetchDelivers(w, h, g);
    FetchNow(w, h, g);
    FetchKnows(w, h, FetchedMem(w, h, g));
  }

  // ----- the invariant in the new critical section -----

  lemma EnterLog(w: World, h: nat, m: Mem)
    requires Inv(w) && h < w.n && Ready(w, h, m)
    ensures Basic(Enter(w, h, m))
  {
    var v := Enter(w, h, m);
    forall g | 0 <= g < v.n
      ensures MemBasic(v, g)
    {
      assert MemBasic(w, g);
    }
    forall k | 0 <= k < |v.log|
      ensures EntryOk(v.n, |v.cur|, v.log, k) && StartsAbove(v.n, v.log, k)
    {
      if k < |w.log| {
        assert EntryOk(w.n, |w.cur|, w.log, k) && StartsAbove(w.n, w.log, k);
      }
    }
  }

  lemma EnterBasic(w: World, h: nat, m: Mem)
    requires Inv(w) && h < w.n && Ready(w, h, m)
    ensures Basic(Enter(w, h, m)) && QuietStep(w, Enter(w, h, m))
  {
    EnterLog(w, h, m);
    forall g, p | 0 <= g < w.n && 0 <= p < |w.cur|
      ensures Quiet(w.mems[g].pages[p], Enter(w, h, m).mems[g].pages[p], g)
    {
      QuietRefl(w.mems[g].pages[p], g);
      assert Grown(w.mems[h].pages[p], m.pages[p], h, w.n, p);
    }
  }

  lemma EnterKnows(w: World, h: nat, m: Mem, g: nat, j: nat)
    requires Inv(w) && h < w.n && Ready(w, h, m) && w.inside.None? && g < w.n && j < w.n && Basic(Enter(w, h, m))
    ensures var v := Enter(w, h, m);
            Knows(v.log, v.mems[g], j, Known(v.log, g))
  {
    var v := Enter(w, h, m);
    assert v.log[..|v.log| - 1] == w.log;
    assert Knowledge(w, g);
    var upto := if g == h then |w.log| else Known(w.log, g);
    assert Knows(w.log, v.mems[g], j, upto);
    ExtendLog(w.log, v.log, v.mems[g], j, upto);
  }

  lemma EnterKnowledge(w: World, h: nat, m: Mem, g: nat)
    requires Inv(w) && h < w.n && Ready(w, h, m) && w.inside.None? && g < w.n && Basic(Enter(w, h, m))
    ensures Knowledge(Enter(w, h, m), g)
  {
    var v := Enter(w, h, m);
    assert v.log[..|v.log| - 1] == w.log;
    assert Knowledge(w, g);
    forall j | 0 <= j < v.n
      ensures Knows(v.log, v.mems[g], j, Known(v.log, g))
    {
      EnterKnows(w, h, m, g, j);
    }
  }

  /** Adding a critical section without notices changes nothing about what is known. */
  lemma ExtendLog(a: seq<CS>, b: seq<CS>, m: Mem, j: nat, upto: nat)
    requires Wf(m) && j < m.n && |b| == |a| + 1 && b[..|a|] == a && b[|a|].pages == [] && upto <= |a|
    requires Knows(a, m, j, upto)
    ensures Knows(b, m, j, upto)
    ensures upto == |a| ==> Knows(b, m, j, |b|)
  {
    forall k | 0 <= k < upto
      ensures a[k] == b[k]
    {
      assert b[..|a|][k] == a[k];
    }
    SameList(a, b, upto, j);
    forall p | 0 <= p < |m.pages|
      ensures NoticesMatch(b, upto, j, p, m.pages[p].notices[j])
      ensures upto == |a| ==> NoticesMatch(b, |b|, j, p, m.pages[p].notices[j])
    {
      assert NoticesMatch(a, upto, j, p, m.pages[p].notices[j]);
      SameWriters(a, b, upto, j, p);
    }
  }

  lemma EnterPage(w: World, h: nat, m: Mem, g: nat, p: nat)
    requires Inv(w) && h < w.n && Ready(w, h, m) && w.inside.None? && g < w.n && p < |w.cur| && Basic(Enter(w, h, m))
    ensures PageOk(Enter(w, h, m), g, p)
  {
    var v := Enter(w, h, m);
    assert PageOk(w, g, p);
    assert Grown(w.mems[h].pages[p], m.pages[p], h, w.n, p);
  }

  lemma EnterKeeps(w: World, h: nat, m: Mem)
    requires Inv(w) && w.inside.None? && h < w.n && Ready(w, h, m)
    ensures Inv(Enter(w, h, m))
  {
    var v := Enter(w, h, m);
    EnterBasic(w, h, m);
    forall g | 0 <= g < v.n
      ensures Knowledge(v, g)
    {
      EnterKnowledge(w, h, m, g);
    }
    forall g, p | 0 <= g < v.n && 0 <= p < |v.cur|
      ensures PageOk(v, g, p)
    {
      EnterPage(w, h, m, g, p);
    }
    QuietKeeps(w, v);
  }

  lemma EnterConserves(w: World, h: nat, m: Mem)
    requires Inv(w) && Conserving(w) && h < w.n && Ready(w, h, m)
    ensures Basic(Enter(w, h, m)) && Conserving(Enter(w, h, m))
  {
    EnterBasic(w, h, m);
    QuietConserves(w, Enter(w, h, m));
  }
}
