/**
 Why stores must be safe: the memories along a run of two hosts with one page; `StaleSystem` gives the
 run. Host 0 writes the page. Host 1 fetches it whole in a critical section in which it does not write
 it. Host 0, whose page is still writable, writes it again in its next critical section: no fault, so
 no notice. Host 1 enters, learns of nothing, and reads the old bytes.
*/
module StaleRun {
  import opened Options
  import opened Vectors
  import opened Diffs
  import opened HostMem
  import opened CriticalLog
  import opened World
  import opened QuietSteps
  import opened Receiving
  import opened Writing

  // ----- values -----

  function OnePage(): (r: Page) {
    seq(PAGESIZE, _ => 1)
  }

  /** A page entry of the two-host system. */
  function Entry(state: PageState, bytes: Page, twin: Option<Page>, start: Option<Vec>, of0: seq<Notice>): PageEntry {
    PageEntry(state, bytes, twin, start, [of0, []])
  }

  function Mem0(own: seq<Interval>, e: PageEntry): Mem
    requires own != []
  {
    Mem(0, 2, [own, []], |own| - 1, [e])
  }

  function Mem1(own: seq<Interval>, of0: seq<Interval>, e: PageEntry): Mem
    requires own != []
  {
    Mem(1, 2, [of0, own], |own| - 1, [e])
  }

  function Iv(a: int, b: int): Interval {
    Interval([a, b], [], false)
  }

  function Start(): Interval {
    Interval([0, 0], [], true)
  }

  function Wrote(): Interval {
    Interval([1, 0], [0], false)
  }

  function Noted(): seq<Notice> {
    [Notice([1, 0], None)]
  }

  /** The page on host 0, written once with these bytes, and on host 1. */
  function Home(bytes: Page): PageEntry {
    Entry(WRITE, bytes, Some(ZeroPage()), None, Noted())
  }

  function Copy(state: PageState, start: Option<Vec>): PageEntry {
    Entry(state, ZeroPage(), None, start, Noted())
  }

  function History(k: nat): (log: seq<CS>)
    requires k <= 4
    ensures |log| == k
  {
    [CS(0, [1, 0], [0]), CS(1, [2, 1], []), CS(0, [3, 2], []), CS(1, [4, 3], [])][..k]
  }

  ghost function Both(m0: Mem, m1: Mem, log: seq<CS>, cur: Page, inside: Option<nat>, missed: set<nat>): World {
    World(2, [m0, m1], log, [cur], inside, missed)
  }

  // ----- the memories -----

  lemma AddNew0(own: seq<Interval>, e: PageEntry, a: int, b: int)
    requires own != [] && own[0].ts == [a, b] && |e.notices| == 2 && forall i :: 0 <= i < |own| ==> |own[i].ts| == 2
    ensures Wf(Mem0(own, e)) && AddNewInterval(Mem0(own, e)) == Mem0([Iv(a + 1, b)] + own, e)
    ensures AdoptInterval(Mem0(own, e), [a, b]) == AddNewInterval(Mem0(own, e))
  {
    assert Mem0(own, e).procs[0] == own;
    assert [a, b][0 := a + 1] == [a + 1, b];
    assert [own, []][0 := [Iv(a + 1, b)] + own] == [[Iv(a + 1, b)] + own, []];
  }

  lemma WfMem0(own: seq<Interval>, e: PageEntry)
    requires own != [] && |e.notices| == 2 && forall i :: 0 <= i < |own| ==> |own[i].ts| == 2
    ensures Wf(Mem0(own, e)) && NowTs(Mem0(own, e)) == own[0].ts
  {
  }

  lemma WfMem1(own: seq<Interval>, of0: seq<Interval>, e: PageEntry)
    requires own != [] && |e.notices| == 2 && (forall i :: 0 <= i < |own| ==> |own[i].ts| == 2)
    requires forall i :: 0 <= i < |of0| ==> |of0[i].ts| == 2
    ensures Wf(Mem1(own, of0, e)) && NowTs(Mem1(own, of0, e)) == own[0].ts
  {
  }

  lemma Adopt0(own: seq<Interval>, e: PageEntry, a: int, b: int)
    requires own != [] && |e.notices| == 2 && forall i :: 0 <= i < |own| ==> |own[i].ts| == 2
    ensures Wf(Mem0(own, e)) && AdoptInterval(Mem0(own, e), [a, b]) == Mem0([Iv(a + 1, b)] + own, e)
  {
    assert [a, b][0 := a + 1] == [a + 1, b];
    assert [own, []][0 := [Iv(a + 1, b)] + own] == [[Iv(a + 1, b)] + own, []];
  }

  lemma Adopt1(own: seq<Interval>, of0: seq<Interval>, e: PageEntry, a: int, b: int)
    requires own != [] && |e.notices| == 2 && (forall i :: 0 <= i < |own| ==> |own[i].ts| == 2)
    requires forall i :: 0 <= i < |of0| ==> |of0[i].ts| == 2
    ensures Wf(Mem1(own, of0, e)) && AdoptInterval(Mem1(own, of0, e), [a, b]) == Mem1([Iv(a, b + 1)] + own, of0, e)
    ensures own[0].ts == [a, b] ==> AddNewInterval(Mem1(own, of0, e)) == AdoptInterval(Mem1(own, of0, e), [a, b])
  {
    assert [a, b][1 := b + 1] == [a, b + 1];
    assert [of0, own][1 := [Iv(a, b + 1)] + own] == [of0, [Iv(a, b + 1)] + own];
  }

  /** Host 0's first write. */
  lemma FirstFault()
    ensures var m := Mem0([Iv(1, 0), Start()], Entry(RDONLY, ZeroPage(), None, None, []));
            Wf(m) && WriteFault(m, 0) == Mem0([Wrote(), Start()], Home(ZeroPage()))
  {
    var e := Entry(RDONLY, ZeroPage(), None, None, []);
    var m := Mem0([Iv(1, 0), Start()], e);
    WfMem0([Iv(1, 0), Start()], e);
    assert NowIndex(m) == 0;
    var m1 := SetPage(m, 0, CreateTwin(e));
    assert m1.pages == [e.(twin := Some(ZeroPage()))];
    var none: seq<nat> := [];
    assert none + [0] == [0];
    assert AddToInterval(m1.procs[0], 0, 0) == [Wrote(), Start()];
    assert m1.procs[0 := [Wrote(), Start()]] == [[Wrote(), Start()], []];
    var e2 := AddToPage(e.(twin := Some(ZeroPage())), 0, [1, 0]);
    assert [Notice([1, 0], None)] + [] == Noted();
    assert e2.notices == [Noted(), []];
    var m2 := CreateWriteNotice(m1, 0);
    assert m2.pages == [e2];
    assert m2.pages[0].(state := WRITE) == Home(ZeroPage());
  }

  /** Intervals without notices, or not after the requester's vector, are not sent. */
  lemma {:induction false} Nothing(host: nat, list: seq<Interval>, t: Vec)
    requires forall i :: 0 <= i < |list| ==> !Wanted(list[i], t)
    ensures HostPackets(host, list, t) == []
  {
    if list != [] {
      Nothing(host, list[1..], t);
    }
  }

  lemma Packets(m: Mem, t: Vec, p0: seq<Packet>)
    requires |m.procs| == 2 && HostPackets(0, m.procs[0], t) == p0 && HostPackets(1, m.procs[1], t) == []
    ensures GrantedPackets(m, t, 2) == p0
  {
    assert GrantedPackets(m, t, 0) == [];
    assert GrantedPackets(m, t, 1) == GrantedPackets(m, t, 0) + HostPackets(0, m.procs[0], t);
    assert GrantedPackets(m, t, 2) == GrantedPackets(m, t, 1) + HostPackets(1, m.procs[1], t);
  }

  /** The first grant: host 1 is told of host 0's write. */
  lemma FirstHostPackets()
    ensures HostPackets(0, [Wrote(), Start()], [0, 0]) == [Packet(0, [1, 0], [0])]
  {
    assert [Wrote(), Start()][1..] == [Start()];
    Nothing(0, [Start()], [0, 0]);
    assert [1, 0][0] != [0, 0][0];
    assert Wanted(Wrote(), [0, 0]);
    var none: seq<Packet> := [];
    assert none + Packetize(0, [1, 0], [0]) == [Packet(0, [1, 0], [0])];
  }

  lemma FirstGrant()
    ensures GrantedPackets(Mem0([Iv(2, 0), Wrote(), Start()], Home(ZeroPage())), [0, 0], 2) == [Packet(0, [1, 0], [0])]
  {
    var list := [Iv(2, 0), Wrote(), Start()];
    FirstHostPackets();
    assert list[1..] == [Wrote(), Start()];
    assert HostPackets(0, list, [0, 0]) == HostPackets(0, [Wrote(), Start()], [0, 0]) + [];
    Packets(Mem0(list, Home(ZeroPage())), [0, 0], [Packet(0, [1, 0], [0])]);
  }

  lemma FirstPacket()
    ensures var m := Mem1([Iv(2, 1), Start()], [], Entry(MISS, ZeroPage(), None, None, []));
            && Wf(m) && PacketWf(Packet(0, [1, 0], [0]), 2, 1)
            && IncorporatePacket(m, Packet(0, [1, 0], [0])) == Mem1([Iv(2, 1), Start()], [Wrote()], Copy(MISS, None))
  {
    var e := Entry(MISS, ZeroPage(), None, None, []);
    var own := [Iv(2, 1), Start()];
    var m := Mem1(own, [], e);
    var fresh' := Interval([1, 0], [], false);
    WfMem1(own, [], e);
    assert m.procs[0] == [] && IntervalIdx(m.procs[0], [1, 0]) == 0;
    assert [fresh'] + m.procs[0] == [fresh'];
    assert m.procs[0 := [fresh']] == [[fresh'], own];
    var m1 := EnsureInterval(m, 0, [1, 0]);
    assert m1 == Mem1(own, [fresh'], e);
    assert IntervalIdx(m1.procs[0], [1, 0]) == 0;
    assert [0][..0] == [];
    assert AddNotices(m1, 0, 0, [0]) == AddNotice(m1, 0, 0, 0);
    FirstAdded(own, e);
  }

  lemma FirstAdded(own: seq<Interval>, e: PageEntry)
    requires own != [] && e == Entry(MISS, ZeroPage(), None, None, [])
    requires forall i :: 0 <= i < |own| ==> |own[i].ts| == 2
    ensures Wf(Mem1(own, [Interval([1, 0], [], false)], e))
    ensures AddNotice(Mem1(own, [Interval([1, 0], [], false)], e), 0, 0, 0) == Mem1(own, [Wrote()], Copy(MISS, None))
  {
    var list := [Interval([1, 0], [], false)];
    var m1 := Mem1(own, list, e);
    var none: seq<nat> := [];
    assert none + [0] == [0];
    assert AddToInterval(list, 0, 0) == [Wrote()];
    assert m1.procs[0 := [Wrote()]] == [[Wrote()], own];
    assert [Notice([1, 0], None)] + [] == Noted();
    assert AddToPage(e, 0, [1, 0]).notices == [Noted(), []];
    assert m1.pages[0 := AddToPage(e, 0, [1, 0])] == [Copy(MISS, None)];
  }

  lemma OnePacket(m: Mem, pk: Packet)
    requires Wf(m) && PacketWf(pk, m.n, |m.pages|)
    ensures IncorporateAll(m, [pk]) == IncorporatePacket(m, pk)
  {
    assert [pk][..0] == [];
    assert IncorporateAll(m, []) == m;
  }

  lemma FirstReply()
    ensures var m := Mem1([Start()], [], Entry(MISS, ZeroPage(), None, None, []));
            && Wf(m) && PacketWf(Packet(0, [1, 0], [0]), 2, 1)
            && HandleGrantWNI(m, [2, 0], [Packet(0, [1, 0], [0])])
                 == Mem1([Iv(2, 1), Start()], [Wrote()], Copy(MISS, None))
  {
    var e := Entry(MISS, ZeroPage(), None, None, []);
    Adopt1([Start()], [], e, 2, 0);
    FirstPacket();
    OnePacket(Mem1([Iv(2, 1), Start()], [], e), Packet(0, [1, 0], [0]));
    assert [Iv(2, 1)] + [Start()] == [Iv(2, 1), Start()];
    assert AdoptInterval(Mem1([Start()], [], e), [2, 0]) == Mem1([Iv(2, 1), Start()], [], e);
  }

  // ----- the worlds of the run -----

  ghost predicate SameStart(log: seq<CS>, k: nat)
    requires k <= 4
  {
    && |log| == k
    && forall i :: 0 <= i < k ==>
         log[i].host == History(4)[i].host && log[i].ts == History(4)[i].ts && log[i].pages in {[], [0]}
  }

  lemma HistoryOk(log: seq<CS>, k: nat)
    requires k <= 4 && SameStart(log, k)
    ensures LogOk(2, 1, log)
  {
    forall i | 0 <= i < |log|
      ensures EntryOk(2, 1, log, i) && StartsAbove(2, log, i)
    {
      assert Zero(2) == [0, 0];
      assert Bump([0, 0], 0) == [1, 0] && Bump([1, 0], 0) == [2, 0] && Bump([2, 0], 1) == [2, 1] &&
        Bump([2, 1], 1) == [2, 2];
      assert Bump([2, 2], 0) == [3, 2] && Bump([3, 2], 0) == [4, 2] && Bump([4, 2], 1) == [4, 3];
    }
  }

  lemma BasicBoth(m0: Mem, m1: Mem, log: seq<CS>, k: nat, cur: Page, inside: Option<nat>, missed: set<nat>)
    requires Wf(m0) && m0.me == 0 && m0.n == 2 && |m0.pages| == 1 && Wf(m1) && m1.me == 1 && m1.n == 2
    requires |m1.pages| == 1
    requires k <= 4 && SameStart(log, k) && (inside.Some? ==> log != [] && inside.value == log[k - 1].host)
    ensures Basic(Both(m0, m1, log, cur, inside, missed))
  {
    var w := Both(m0, m1, log, cur, inside, missed);
    HistoryOk(log, k);
    forall h | 0 <= h < 2
      ensures MemBasic(w, h)
    {
    }
  }

  function Fresh0(): PageEntry {
    Entry(RDONLY, ZeroPage(), None, None, [])
  }

  function Fresh1(): PageEntry {
    Entry(MISS, ZeroPage(), None, None, [])
  }

  function Own0(k: nat): (list: seq<Interval>)
    requires 2 <= k <= 5
    ensures list != [] && forall i :: 0 <= i < |list| ==> |list[i].ts| == 2
  {
    if k == 2 then [Wrote(), Start()]
    else if k == 3 then [Iv(2, 0), Wrote(), Start()]
    else if k == 4 then [Iv(3, 2), Iv(2, 0), Wrote(), Start()]
    else [Iv(4, 2), Iv(3, 2), Iv(2, 0), Wrote(), Start()]
  }

  function Own1(k: nat): (list: seq<Interval>)
    requires 1 <= k <= 4
    ensures list != [] && forall i :: 0 <= i < |list| ==> |list[i].ts| == 2
  {
    if k == 1 then [Start()]
    else if k == 2 then [Iv(2, 1), Start()]
    else if k == 3 then [Iv(2, 2), Iv(2, 1), Start()]
    else [Iv(4, 3), Iv(2, 2), Iv(2, 1), Start()]
  }

  ghost function AtStart(): World {
    Both(Mem0([Start()], Fresh0()), Mem1([Start()], [], Fresh1()), [], ZeroPage(), None, {})
  }

  ghost function Entered0(): World {
    Both(Mem0([Iv(1, 0), Start()], Fresh0()), Mem1([Start()], [], Fresh1()), [CS(0, [1, 0], [])], ZeroPage(), Some(0),
         {})
  }

  ghost function Written0(): World {
    Both(Mem0(Own0(2), Home(ZeroPage())), Mem1([Start()], [], Fresh1()), History(1), ZeroPage(), Some(0), {})
  }

  ghost function Left0(): World {
    Both(Mem0(Own0(3), Home(ZeroPage())), Mem1([Start()], [], Fresh1()), History(1), ZeroPage(), None, {})
  }

  ghost function Entered1(): World {
    Both(Mem0(Own0(3), Home(ZeroPage())), Mem1(Own1(2), [Wrote()], Copy(MISS, None)), History(2), ZeroPage(), Some(1),
         {})
  }

  ghost function Got1(state: PageState): World {
    Both(Mem0(Own0(3), Home(ZeroPage())), Mem1(Own1(2), [Wrote()], Copy(state, Some([2, 1]))), History(2), ZeroPage(),
         Some(1), {0})
  }

  ghost function Left1(): World {
    Both(Mem0(Own0(3), Home(ZeroPage())), Mem1(Own1(3), [Wrote()], Copy(RDONLY, Some([2, 1]))), History(2),
         ZeroPage(), None, {0})
  }

  ghost function Again0(bytes: Page): World {
    Both(Mem0(Own0(4), Home(bytes)), Mem1(Own1(3), [Wrote()], Copy(RDONLY, Some([2, 1]))), History(3), bytes, Some(0),
         {})
  }

  ghost function AgainLeft0(): World {
    Both(Mem0(Own0(5), Home(OnePage())), Mem1(Own1(3), [Wrote()], Copy(RDONLY, Some([2, 1]))), History(3), OnePage(),
         None, {})
  }

  ghost function Stale(): World {
    Both(Mem0(Own0(5), Home(OnePage())), Mem1(Own1(4), [Wrote()], Copy(RDONLY, Some([2, 1]))), History(4), OnePage(),
         Some(1), {})
  }

  // ----- step by step -----

  lemma FirstCritical()
    ensures Basic(AtStart()) && Enter(AtStart(), 0, OwnMem(AtStart(), 0)) == Entered0()
  {
    WfMem0([Start()], Fresh0());
    WfMem1([Start()], [], Fresh1());
    BasicBoth(AtStart().mems[0], AtStart().mems[1], [], 0, ZeroPage(), None, {});
    AddNew0([Start()], Fresh0(), 0, 0);
    assert [Iv(1, 0)] + [Start()] == [Iv(1, 0), Start()];
    assert AtStart().mems[0 := Entered0().mems[0]] == Entered0().mems;
    assert AtStart().log + [CS(0, [1, 0], [])] == Entered0().log;
  }

  lemma FirstWrite()
    ensures Basic(Entered0()) && WriteFaulted(Entered0(), 0, 0) == Written0()
  {
    WfMem0([Iv(1, 0), Start()], Fresh0());
    WfMem1([Start()], [], Fresh1());
    BasicBoth(Entered0().mems[0], Entered0().mems[1], Entered0().log, 1, ZeroPage(), Some(0), {});
    FirstFault();
    assert Own0(2) == [Wrote(), Start()];
    assert Entered0().mems[0 := Written0().mems[0]] == Written0().mems;
    var none: seq<nat> := [];
    assert none + [0] == [0];
    assert Entered0().log[0 := CS(0, [1, 0], [0])] == History(1);
  }

  lemma FirstLeave()
    ensures Basic(Written0()) && Leave(Written0(), 0) == Left0()
  {
    WfMem0(Own0(2), Home(ZeroPage()));
    WfMem1([Start()], [], Fresh1());
    BasicBoth(Written0().mems[0], Written0().mems[1], History(1), 1, ZeroPage(), Some(0), {});
    AddNew0(Own0(2), Home(ZeroPage()), 1, 0);
    assert [Iv(2, 0)] + Own0(2) == Own0(3);
    assert Written0().mems[0 := Left0().mems[0]] == Left0().mems;
  }

  lemma SecondGrant()
    ensures Basic(Left0()) && Grant(Left0(), 1, 0) == ([2, 0], [Packet(0, [1, 0], [0])])
  {
    WfMem0(Own0(3), Home(ZeroPage()));
    WfMem1([Start()], [], Fresh1());
    BasicBoth(Left0().mems[0], Left0().mems[1], History(1), 1, ZeroPage(), None, {});
    assert Own0(3) == [Iv(2, 0), Wrote(), Start()];
    FirstGrant();
  }

  /** The world after host `h` enters with the memory that the reply of `g` gives it. */
  lemma Enters(w: World, h: nat, g: nat, ts: Vec, pks: seq<Packet>, m: Mem, v: World)
    requires Basic(w) && h < w.n && g < w.n && Grant(w, h, g) == (ts, pks) && AllWf(pks, w.n, |w.cur|)
    requires HandleGrantWNI(w.mems[h], ts, pks) == m
    requires v.mems == w.mems[h := m] && v.log == w.log + [CS(h, NowTs(m), [])]
    requires v.n == w.n && v.cur == w.cur && v.inside == Some(h) && v.missed == {}
    ensures AllWf(Grant(w, h, g).1, w.n, |w.cur|) && Enter(w, h, FetchedMem(w, h, g)) == v
  {
  }

  lemma Lists()
    ensures History(1) + [CS(1, [2, 1], [])] == History(2)
    ensures History(2) + [CS(0, [3, 2], [])] == History(3)
    ensures History(3) + [CS(1, [4, 3], [])] == History(4)
    ensures Own1(2) == [Iv(2, 1), Start()] && [Iv(4, 3)] + Own1(3) == Own1(4)
    ensures [Iv(3, 2)] + Own0(3) == Own0(4)
  {
  }

  lemma Mems(m0: Mem, m1: Mem, m: Mem)
    ensures [m0, m1][0 := m] == [m, m1] && [m0, m1][1 := m] == [m0, m]
  {
  }

  lemma SecondCritical()
    ensures Basic(Left0()) && Grant(Left0(), 1, 0) == ([2, 0], [Packet(0, [1, 0], [0])])
    ensures AllWf(Grant(Left0(), 1, 0).1, 2, 1)
    ensures Enter(Left0(), 1, FetchedMem(Left0(), 1, 0)) == Entered1()
  {
    SecondGrant();
    FirstReply();
    Lists();
    var m := Mem1(Own1(2), [Wrote()], Copy(MISS, None));
    WfMem1(Own1(2), [Wrote()], Copy(MISS, None));
    Mems(Left0().mems[0], Left0().mems[1], m);
    Enters(Left0(), 1, 0, [2, 0], [Packet(0, [1, 0], [0])], m, Entered1());
  }

  lemma SecondFetch()
    ensures Basic(Entered1()) && FetchTarget(Entered1().mems[1], 0) == 0
    ensures GrantPage(Entered1().mems[0], 0) == Some(ZeroPage())
    ensures GotPage(Entered1(), 1, 0, ZeroPage()) == Got1(MISS)
  {
    WfMem0(Own0(3), Home(ZeroPage()));
    WfMem1(Own1(2), [Wrote()], Copy(MISS, None));
    BasicBoth(Entered1().mems[0], Entered1().mems[1], History(2), 2, ZeroPage(), Some(1), {});
    assert LatestHost([Noted(), []], 1, 0) == 2 && LatestHost([Noted(), []], 1, 1) == 0 &&
      LatestHost([Noted(), []], 1, 2) == 0;
    assert Entered1().mems[1].pages[0 := Copy(MISS, Some([2, 1]))] == [Copy(MISS, Some([2, 1]))];
    assert Entered1().mems[1 := Got1(MISS).mems[1]] == Got1(MISS).mems;
    assert Entered1().missed + {0} == {0};
  }

  lemma SecondResume()
    ensures Basic(Got1(MISS)) && Resumed(Got1(MISS), 1, 0) == Got1(RDONLY)
  {
    WfMem0(Own0(3), Home(ZeroPage()));
    WfMem1(Own1(2), [Wrote()], Copy(MISS, Some([2, 1])));
    BasicBoth(Got1(MISS).mems[0], Got1(MISS).mems[1], History(2), 2, ZeroPage(), Some(1), {0});
    assert Got1(MISS).mems[1].pages[0 := Copy(RDONLY, Some([2, 1]))] == Got1(RDONLY).mems[1].pages;
    assert Got1(MISS).mems[1 := Got1(RDONLY).mems[1]] == Got1(RDONLY).mems;
  }

  /** Here the discipline is broken: the page was fetched and not written. */
  lemma SecondLeave()
    ensures Basic(Got1(RDONLY)) && Leave(Got1(RDONLY), 1) == Left1()
    ensures 0 in Got1(RDONLY).missed && 0 !in Last(Got1(RDONLY)).pages
  {
    WfMem0(Own0(3), Home(ZeroPage()));
    WfMem1(Own1(2), [Wrote()], Copy(RDONLY, Some([2, 1])));
    BasicBoth(Got1(RDONLY).mems[0], Got1(RDONLY).mems[1], History(2), 2, ZeroPage(), Some(1), {0});
    Adopt1(Own1(2), [Wrote()], Copy(RDONLY, Some([2, 1])), 2, 1);
    assert [Iv(2, 2)] + Own1(2) == Own1(3);
    assert Got1(RDONLY).mems[1 := Left1().mems[1]] == Left1().mems;
  }

  lemma ThirdPackets()
    ensures GrantedPackets(Left1().mems[1], [2, 0], 2) == []
  {
    assert [1, 0][0] < [2, 0][0];
    Nothing(0, [Wrote()], [2, 0]);
    Nothing(1, Own1(3), [2, 0]);
    Packets(Left1().mems[1], [2, 0], []);
  }

  lemma ThirdGrant()
    ensures Basic(Left1()) && Grant(Left1(), 0, 1) == ([2, 2], [])
  {
    WfMem0(Own0(3), Home(ZeroPage()));
    WfMem1(Own1(3), [Wrote()], Copy(RDONLY, Some([2, 1])));
    BasicBoth(Left1().mems[0], Left1().mems[1], History(2), 2, ZeroPage(), None, {0});
    ThirdPackets();
  }

  lemma ThirdCritical()
    ensures Basic(Left1()) && Grant(Left1(), 0, 1) == ([2, 2], [])
    ensures Enter(Left1(), 0, FetchedMem(Left1(), 0, 1)) == Again0(ZeroPage())
  {
    ThirdGrant();
    Adopt0(Own0(3), Home(ZeroPage()), 2, 2);
    Lists();
    var m := Mem0(Own0(4), Home(ZeroPage()));
    WfMem0(Own0(4), Home(ZeroPage()));
    Mems(Left1().mems[0], Left1().mems[1], m);
    Enters(Left1(), 0, 1, [2, 2], [], m, Again0(ZeroPage()));
  }

  lemma ThirdWrite()
    ensures Basic(Again0(ZeroPage())) && Again0(ZeroPage()).mems[0].pages[0].state == WRITE
    ensures Store(Again0(ZeroPage()), 0, 0, OnePage()) == Again0(OnePage())
  {
    WfMem0(Own0(4), Home(ZeroPage()));
    WfMem1(Own1(3), [Wrote()], Copy(RDONLY, Some([2, 1])));
    BasicBoth(Again0(ZeroPage()).mems[0], Again0(ZeroPage()).mems[1], History(3), 3, ZeroPage(), Some(0), {});
    assert Again0(ZeroPage()).mems[0].pages[0 := Home(OnePage())] == Again0(OnePage()).mems[0].pages;
    assert Again0(ZeroPage()).mems[0 := Again0(OnePage()).mems[0]] == Again0(OnePage()).mems;
    assert Again0(ZeroPage()).cur[0 := OnePage()] == Again0(OnePage()).cur;
  }

  lemma ThirdLeave()
    ensures Basic(Again0(OnePage())) && Leave(Again0(OnePage()), 0) == AgainLeft0()
  {
    WfMem0(Own0(4), Home(OnePage()));
    WfMem1(Own1(3), [Wrote()], Copy(RDONLY, Some([2, 1])));
    BasicBoth(Again0(OnePage()).mems[0], Again0(OnePage()).mems[1], History(3), 3, OnePage(), Some(0), {});
    AddNew0(Own0(4), Home(OnePage()), 3, 2);
    assert [Iv(4, 2)] + Own0(4) == Own0(5);
    assert Again0(OnePage()).mems[0 := AgainLeft0().mems[0]] == AgainLeft0().mems;
  }

  lemma FourthPackets()
    ensures GrantedPackets(AgainLeft0().mems[0], [2, 2], 2) == []
  {
    assert [1, 0][0] < [2, 2][0];
    Nothing(0, Own0(5), [2, 2]);
    Nothing(1, [], [2, 2]);
    Packets(AgainLeft0().mems[0], [2, 2], []);
  }

  lemma FourthGrant()
    ensures Basic(AgainLeft0()) && Grant(AgainLeft0(), 1, 0) == ([4, 2], [])
  {
    WfMem0(Own0(5), Home(OnePage()));
    WfMem1(Own1(3), [Wrote()], Copy(RDONLY, Some([2, 1])));
    BasicBoth(AgainLeft0().mems[0], AgainLeft0().mems[1], History(3), 3, OnePage(), None, {});
    FourthPackets();
  }

  lemma FourthCritical()
    ensures Basic(AgainLeft0()) && Grant(AgainLeft0(), 1, 0) == ([4, 2], [])
    ensures Enter(AgainLeft0(), 1, FetchedMem(AgainLeft0(), 1, 0)) == Stale()
  {
    FourthGrant();
    Adopt1(Own1(3), [Wrote()], Copy(RDONLY, Some([2, 1])), 4, 2);
    Lists();
    var m := Mem1(Own1(4), [Wrote()], Copy(RDONLY, Some([2, 1])));
    WfMem1(Own1(4), [Wrote()], Copy(RDONLY, Some([2, 1])));
    Mems(AgainLeft0().mems[0], AgainLeft0().mems[1], m);
    Enters(AgainLeft0(), 1, 0, [4, 2], [], m, Stale());
  }

  /** The store is not safe: host 1 fetched the page whole after host 0's open notice was made. */
  lemma ThirdStoreUnsafe()
    ensures Basic(Again0(ZeroPage())) && !SafeStore(Again0(ZeroPage()), 0, 0, OnePage())
  {
    ThirdWrite();
    assert ZeroPage()[0] != OnePage()[0];
    assert [1, 0][0] < [2, 1][0];
    assert !After([1, 0], [2, 1]);
    var w := Again0(ZeroPage());
    assert w.mems[1].pages[0].start == Some([2, 1]) && w.mems[0].pages[0].notices[0][0].ts == [1, 0];
  }
}
