/**
 The linked structures of `mem.c` as cells at addresses: every host's interval list, doubly linked
 and newest first; the notices of an interval, oldest first; the notices of a page and host, newest
 first. A notice cell is in two lists. The invariant relates the cells to the lists they form, and
 those to the value of type `HostMem.Mem` that they stand for.
 */
module MemCells {
  import opened Options
  import opened Vectors
  import opened Diffs
  import opened HostMem
  import PageStates

  const NULL: int := -1

  datatype IntervalCell = IntervalCell(timestamp: Vec, notices: int, next: int, prev: int, isBarrier: bool)

  datatype NoticeCell = NoticeCell(interval: int, pageIndex: nat, nextInPage: int, nextInInterval: int,
                                   diff: Option<Page>)

  datatype PageRec = PageRec(state: PageState, bytes: Page, twin: Option<Page>, startInterval: int, notices: seq<int>)

  /** The globals of `mem.c` and the allocated cells; an address is a position in `intervals` or `wns`. */
  datatype Store = Store(
    me: nat, n: nat, intervals: seq<IntervalCell>, wns: seq<NoticeCell>, procArray: seq<int>, pageArray: seq<PageRec>,
      intervalNow: int)

  /**
   The lists that the cells form: the intervals of a host, the notices of an interval, the notices of
   a page and host. `hostOf` is the host in whose list an interval is.
  */
  datatype Lists = Lists(own: seq<seq<int>>, inInterval: seq<seq<int>>, onPage: seq<seq<seq<int>>>, hostOf: seq<nat>)

  function At(list: seq<int>, i: int): int {
    if 0 <= i < |list| then list[i] else NULL
  }

  /** The last notice of an interval, or null. */
  ghost function EndOf(l: Lists, a: int): int {
    if 0 <= a < |l.inInterval| then At(l.inInterval[a], |l.inInterval[a]| - 1) else NULL
  }

  ghost function NoticeOf(l: Lists, a: int, k: int): int {
    if 0 <= a < |l.inInterval| then At(l.inInterval[a], k) else NULL
  }

  ghost predicate Sizes(s: Store, l: Lists, m: Mem) {
    && Wf(m) && s.me == m.me && s.n == m.n
    && |s.procArray| == |l.own| == m.n
    && (forall h :: 0 <= h < m.n ==> |l.own[h]| == |m.procs[h]|)
    && |l.inInterval| == |l.hostOf| == |s.intervals|
    && |s.pageArray| == |l.onPage| == |m.pages|
    && (forall p :: 0 <= p < |m.pages| ==> |s.pageArray[p].notices| == |l.onPage[p]| == m.n)
    && (forall p, h :: 0 <= p < |m.pages| && 0 <= h < m.n ==> |l.onPage[p][h]| == |m.pages[p].notices[h]|)
  }

  /** `prev` is the exact inverse of `next`; the cell shows the model's interval. */
  ghost predicate LinkedOk(s: Store, l: Lists, m: Mem, h: nat, i: nat)
    requires Sizes(s, l, m) && h < m.n && i < |l.own[h]|
  {
    var a := l.own[h][i];
    && 0 <= a < |s.intervals| && l.hostOf[a] == h
    && s.intervals[a].next == At(l.own[h], i + 1) && s.intervals[a].prev == At(l.own[h], i - 1)
    && s.intervals[a].timestamp == m.procs[h][i].ts && s.intervals[a].isBarrier == m.procs[h][i].isBarrier
    && |l.inInterval[a]| == |m.procs[h][i].pages|
    && forall k :: 0 <= k < |l.inInterval[a]| ==> ListedOk(s, l, m.procs[h][i].pages[k], a, k)
  }

  ghost predicate ListedOk(s: Store, l: Lists, p: nat, a: nat, k: nat)
    requires a < |l.inInterval| && k < |l.inInterval[a]|
  {
    var w := l.inInterval[a][k];
    && 0 <= w < |s.wns| && s.wns[w].interval == a && s.wns[w].pageIndex == p
    && s.wns[w].nextInInterval == At(l.inInterval[a], k + 1)
  }

  ghost predicate Rising(list: seq<int>) {
    forall i, k :: 0 <= i < k < |list| ==> list[i] < list[k]
  }

  ghost predicate Falling(list: seq<int>) {
    forall i, k :: 0 <= i < k < |list| ==> list[k] < list[i]
  }

  /** The interval is in one host's list, and its own list starts at `notices`. */
  ghost predicate PlacedOk(s: Store, l: Lists, m: Mem, a: nat)
    requires Sizes(s, l, m) && a < |s.intervals|
  {
    && l.hostOf[a] < m.n && a in l.own[l.hostOf[a]]
    && s.intervals[a].notices == At(l.inInterval[a], 0) && Rising(l.inInterval[a])
  }

  ghost predicate IntervalsOk(s: Store, l: Lists, m: Mem)
    requires Sizes(s, l, m)
  {
    && (forall h :: 0 <= h < m.n ==> s.procArray[h] == At(l.own[h], 0) && Falling(l.own[h]))
    && (forall h, i :: 0 <= h < m.n && 0 <= i < |l.own[h]| ==> LinkedOk(s, l, m, h, i))
    && (forall a :: 0 <= a < |s.intervals| ==> PlacedOk(s, l, m, a))
    && s.intervalNow == l.own[m.me][NowIndex(m)]
  }

  ghost predicate OnPageOk(s: Store, l: Lists, m: Mem, p: nat, h: nat, i: nat)
    requires Sizes(s, l, m) && p < |m.pages| && h < m.n && i < |l.onPage[p][h]|
  {
    var w := l.onPage[p][h][i];
    && 0 <= w < |s.wns| && s.wns[w].pageIndex == p && s.wns[w].nextInPage == At(l.onPage[p][h], i + 1)
    && 0 <= s.wns[w].interval < |s.intervals| && l.hostOf[s.wns[w].interval] == h
    && m.pages[p].notices[h][i] == Notice(s.intervals[s.wns[w].interval].timestamp, s.wns[w].diff)
  }

  /** A notice is in the list of its interval and in the list of its page and host. */
  ghost predicate InBoth(s: Store, l: Lists, m: Mem, w: nat)
    requires Sizes(s, l, m) && w < |s.wns|
  {
    var c := s.wns[w];
    && 0 <= c.interval < |s.intervals| && c.pageIndex < |m.pages| && l.hostOf[c.interval] < m.n
    && w in l.inInterval[c.interval] && w in l.onPage[c.pageIndex][l.hostOf[c.interval]]
  }

  ghost predicate PageShown(s: Store, l: Lists, m: Mem, p: nat)
    requires Sizes(s, l, m) && p < |m.pages|
  {
    var r, e := s.pageArray[p], m.pages[p];
    && r.state == e.state && r.bytes == e.bytes && r.twin == e.twin
    && (if r.startInterval == NULL then e.start.None?
        else 0 <= r.startInterval < |s.intervals| && e.start == Some(s.intervals[r.startInterval].timestamp))
    && forall h :: 0 <= h < m.n ==> r.notices[h] == At(l.onPage[p][h], 0) && Falling(l.onPage[p][h])
  }

  ghost predicate NoticesOk(s: Store, l: Lists, m: Mem)
    requires Sizes(s, l, m)
  {
    && (forall p, h, i :: 0 <= p < |m.pages| && 0 <= h < m.n && 0 <= i < |l.onPage[p][h]| ==>
        OnPageOk(s, l, m, p, h, i))
    && (forall w :: 0 <= w < |s.wns| ==> InBoth(s, l, m, w))
    && (forall p :: 0 <= p < |m.pages| ==> PageShown(s, l, m, p))
  }

  /** The cells form the lists, and the lists stand for `m`. */
  ghost predicate Inv(s: Store, l: Lists, m: Mem) {
    Sizes(s, l, m) && IntervalsOk(s, l, m) && NoticesOk(s, l, m)
  }

  // ----- a new interval at the head of a host's list -----

  function PushCells(s: Store, h: nat, ts: Vec, barrier: bool): Store
    requires h < |s.procArray|
  {
    var a, head := |s.intervals|, s.procArray[h];
    s.(intervals :=
       (if 0 <= head < |s.intervals| then s.intervals[head := s.intervals[head].(prev := a)] else s.intervals)
                    + [IntervalCell(ts, NULL, head, NULL, barrier)],
       procArray := s.procArray[h := a])
  }

  ghost function PushLists(l: Lists, h: nat): Lists
    requires h < |l.own|
  {
    l.(own := l.own[h := [|l.inInterval|] + l.own[h]], inInterval := l.inInterval + [[]], hostOf := l.hostOf + [h])
  }

  function PushModel(m: Mem, h: nat, ts: Vec, barrier: bool): Mem
    requires h < |m.procs|
  {
    m.(procs := m.procs[h := [Interval(ts, [], barrier)] + m.procs[h]])
  }

  lemma PushSizes(s: Store, l: Lists, m: Mem, h: nat, ts: Vec, barrier: bool)
    requires Inv(s, l, m) && h < m.n && |ts| == m.n
    ensures Sizes(PushCells(s, h, ts, barrier), PushLists(l, h), PushModel(m, h, ts, barrier))
  {
  }

  lemma PushLinked(s: Store, l: Lists, m: Mem, h: nat, ts: Vec, barrier: bool, g: nat, i: nat)
    requires Inv(s, l, m) && h < m.n && |ts| == m.n && g < m.n && i < |PushLists(l, h).own[g]|
    requires Sizes(PushCells(s, h, ts, barrier), PushLists(l, h), PushModel(m, h, ts, barrier))
    ensures LinkedOk(PushCells(s, h, ts, barrier), PushLists(l, h), PushModel(m, h, ts, barrier), g, i)
  {
    var t, k, r := PushCells(s, h, ts, barrier), PushLists(l, h), PushModel(m, h, ts, barrier);
    var j := if g == h then i - 1 else i as int;
    if j >= 0 {
      assert LinkedOk(s, l, m, g, j);
      if l.own[h] != [] {
        assert LinkedOk(s, l, m, h, 0);
      }
      var a := l.own[g][j];
      forall x | 0 <= x < |l.inInterval[a]|
        ensures ListedOk(t, k, r.procs[g][i].pages[x], a, x)
      {
        assert ListedOk(s, l, m.procs[g][j].pages[x], a, x);
      }
    }
  }

  lemma PushKeeps(s: Store, l: Lists, m: Mem, h: nat, ts: Vec, barrier: bool)
    requires Inv(s, l, m) && h < m.n && |ts| == m.n
    ensures Inv(PushCells(s, h, ts, barrier), PushLists(l, h), PushModel(m, h, ts, barrier))
  {
    var t, k, r := PushCells(s, h, ts, barrier), PushLists(l, h), PushModel(m, h, ts, barrier);
    PushSizes(s, l, m, h, ts, barrier);
    forall g | 0 <= g < m.n
      ensures t.procArray[g] == At(k.own[g], 0) && Falling(k.own[g])
    {
      assert Falling(l.own[g]);
      forall i | 0 <= i < |l.own[g]|
        ensures l.own[g][i] < |s.intervals|
      {
        assert LinkedOk(s, l, m, g, i);
      }
    }
    forall g, i | 0 <= g < m.n && 0 <= i < |k.own[g]|
      ensures LinkedOk(t, k, r, g, i)
    {
      PushLinked(s, l, m, h, ts, barrier, g, i);
    }
    forall a | 0 <= a < |t.intervals|
      ensures PlacedOk(t, k, r, a)
    {
      if a < |s.intervals| {
        assert PlacedOk(s, l, m, a);
        assert k.own[l.hostOf[a]] == l.own[l.hostOf[a]] || k.own[l.hostOf[a]][1..] == l.own[l.hostOf[a]];
      } else {
        assert k.own[h][0] == a;
      }
    }
    PushNotices(s, l, m, h, ts, barrier);
  }

  lemma PushNotices(s: Store, l: Lists, m: Mem, h: nat, ts: Vec, barrier: bool)
    requires Inv(s, l, m) && h < m.n && |ts| == m.n
    requires Sizes(PushCells(s, h, ts, barrier), PushLists(l, h), PushModel(m, h, ts, barrier))
    ensures NoticesOk(PushCells(s, h, ts, barrier), PushLists(l, h), PushModel(m, h, ts, barrier))
  {
    var t, k, r := PushCells(s, h, ts, barrier), PushLists(l, h), PushModel(m, h, ts, barrier);
    forall p, g, i | 0 <= p < |m.pages| && 0 <= g < m.n && 0 <= i < |l.onPage[p][g]|
      ensures OnPageOk(t, k, r, p, g, i)
    {
      assert OnPageOk(s, l, m, p, g, i);
    }
    forall w | 0 <= w < |t.wns|
      ensures InBoth(t, k, r, w)
    {
      assert InBoth(s, l, m, w);
    }
    forall p | 0 <= p < |m.pages|
      ensures PageShown(t, k, r, p)
    {
      assert PageShown(s, l, m, p);
    }
  }

  // ----- a new notice: last in its interval, first on its page -----

  /** The cell of interval `a` (whose last notice is `last`, or null) gets a new notice for page `p`. */
  function NoticeCells(s: Store, h: nat, a: int, last: int, p: nat): Store
    requires 0 <= a < |s.intervals| && p < |s.pageArray| && h < |s.pageArray[p].notices|
  {
    var w := |s.wns|;
    s.(wns := (if 0 <= last < |s.wns| then s.wns[last := s.wns[last].(nextInInterval := w)] else s.wns)
              + [NoticeCell(a, p, s.pageArray[p].notices[h], NULL, None)],
       intervals := if last == NULL then s.intervals[a := s.intervals[a].(notices := w)] else s.intervals,
       pageArray := s.pageArray[p := s.pageArray[p].(notices := s.pageArray[p].notices[h := w])])
  }

  ghost function NoticeLists(l: Lists, w: nat, h: nat, a: int, p: nat): Lists
    requires 0 <= a < |l.inInterval| && p < |l.onPage| && h < |l.onPage[p]|
  {
    l.(inInterval := l.inInterval[a := l.inInterval[a] + [w]],
       onPage := l.onPage[p := l.onPage[p][h := [w] + l.onPage[p][h]]])
  }

  function NoticeModel(m: Mem, h: nat, i: nat, p: nat): Mem
    requires h < |m.procs| && i < |m.procs[h]| && p < |m.pages| && h < |m.pages[p].notices|
  {
    m.(pages := m.pages[p := AddToPage(m.pages[p], h, m.procs[h][i].ts)],
       procs := m.procs[h := AddToInterval(m.procs[h], i, p)])
  }

  ghost predicate CanAdd(s: Store, l: Lists, m: Mem, h: nat, i: nat, last: int, p: nat) {
    && Inv(s, l, m) && h < m.n && i < |l.own[h]| && p < |m.pages|
    && LinkedOk(s, l, m, h, i)
    && last == EndOf(l, l.own[h][i])
  }

  lemma NoticeSizes(s: Store, l: Lists, m: Mem, h: nat, i: nat, last: int, p: nat)
    requires CanAdd(s, l, m, h, i, last, p)
    ensures Sizes(NoticeCells(s, h, l.own[h][i], last, p), NoticeLists(l, |s.wns|, h, l.own[h][i], p),
                  NoticeModel(m, h, i, p))
  {
  }

  lemma OneHome(s: Store, l: Lists, m: Mem, g: nat, j: nat, h: nat, i: nat)
    requires Sizes(s, l, m) && IntervalsOk(s, l, m) && g < m.n && h < m.n && j < |l.own[g]| && i < |l.own[h]|
    requires l.own[g][j] == l.own[h][i]
    ensures g == h && i == j
  {
    assert LinkedOk(s, l, m, g, j) && LinkedOk(s, l, m, h, i);
    assert Falling(l.own[g]);
  }

  lemma NoticeLinked(s: Store, l: Lists, m: Mem, h: nat, i: nat, last: int, p: nat, g: nat, j: nat)
    requires CanAdd(s, l, m, h, i, last, p) && g < m.n && j < |l.own[g]|
    requires Sizes(NoticeCells(s, h, l.own[h][i], last, p), NoticeLists(l, |s.wns|, h, l.own[h][i], p),
                   NoticeModel(m, h, i, p))
    ensures LinkedOk(NoticeCells(s, h, l.own[h][i], last, p), NoticeLists(l, |s.wns|, h, l.own[h][i], p),
                     NoticeModel(m, h, i, p), g, j)
  {
    var t, k, r := NoticeCells(s, h, l.own[h][i], last, p), NoticeLists(l, |s.wns|, h, l.own[h][i], p),
      NoticeModel(m, h, i, p);
    assert LinkedOk(s, l, m, g, j);
    var a, b := l.own[h][i], l.own[g][j];
    if a == b {
      OneHome(s, l, m, g, j, h, i);
    }
    forall x | 0 <= x < |k.inInterval[b]|
      ensures ListedOk(t, k, r.procs[g][j].pages[x], b, x)
    {
      if x < |l.inInterval[b]| {
        assert ListedOk(s, l, m.procs[g][j].pages[x], b, x);
        if last != NULL {
          assert ListedOk(s, l, m.procs[h][i].pages[|l.inInterval[a]| - 1], a, |l.inInterval[a]| - 1);
          if l.inInterval[b][x] == last {
            assert PlacedOk(s, l, m, a);
          }
        }
      }
    }
  }

  lemma NoticePlaced(s: Store, l: Lists, m: Mem, h: nat, i: nat, last: int, p: nat, b: nat)
    requires CanAdd(s, l, m, h, i, last, p) && b < |s.intervals|
    requires Sizes(NoticeCells(s, h, l.own[h][i], last, p), NoticeLists(l, |s.wns|, h, l.own[h][i], p),
                   NoticeModel(m, h, i, p))
    ensures PlacedOk(NoticeCells(s, h, l.own[h][i], last, p), NoticeLists(l, |s.wns|, h, l.own[h][i], p),
                     NoticeModel(m, h, i, p), b)
  {
    assert PlacedOk(s, l, m, b);
    var a := l.own[h][i];
    if a == b {
      forall x | 0 <= x < |l.inInterval[a]|
        ensures 0 <= l.inInterval[a][x] < |s.wns|
      {
        assert ListedOk(s, l, m.procs[h][i].pages[x], a, x);
      }
    }
  }

  lemma NoticeOnPage(s: Store, l: Lists, m: Mem, h: nat, i: nat, last: int, p: nat, q: nat, g: nat, j: nat)
    requires CanAdd(s, l, m, h, i, last, p) && q < |m.pages| && g < m.n
    requires Sizes(NoticeCells(s, h, l.own[h][i], last, p), NoticeLists(l, |s.wns|, h, l.own[h][i], p),
                   NoticeModel(m, h, i, p))
    requires j < |NoticeLists(l, |s.wns|, h, l.own[h][i], p).onPage[q][g]|
    ensures OnPageOk(NoticeCells(s, h, l.own[h][i], last, p), NoticeLists(l, |s.wns|, h, l.own[h][i], p),
                     NoticeModel(m, h, i, p), q, g, j)
  {
    var j' := if q == p && g == h then j - 1 else j as int;
    if j' >= 0 {
      assert OnPageOk(s, l, m, q, g, j');
    }
    assert PageShown(s, l, m, p);
  }

  lemma NoticeInBoth(s: Store, l: Lists, m: Mem, h: nat, i: nat, last: int, p: nat, w: nat)
    requires CanAdd(s, l, m, h, i, last, p) && w <= |s.wns|
    requires Sizes(NoticeCells(s, h, l.own[h][i], last, p), NoticeLists(l, |s.wns|, h, l.own[h][i], p),
                   NoticeModel(m, h, i, p))
    requires |NoticeCells(s, h, l.own[h][i], last, p).wns| == |s.wns| + 1
    ensures InBoth(NoticeCells(s, h, l.own[h][i], last, p), NoticeLists(l, |s.wns|, h, l.own[h][i], p),
                   NoticeModel(m, h, i, p), w)
  {
    var k := NoticeLists(l, |s.wns|, h, l.own[h][i], p);
    if w < |s.wns| {
      assert InBoth(s, l, m, w);
    } else {
      assert k.onPage[p][h][0] == w && k.inInterval[l.own[h][i]][|l.inInterval[l.own[h][i]]|] == w;
    }
  }

  lemma NoticeShown(s: Store, l: Lists, m: Mem, h: nat, i: nat, last: int, p: nat, q: nat)
    requires CanAdd(s, l, m, h, i, last, p) && q < |m.pages|
    requires Sizes(NoticeCells(s, h, l.own[h][i], last, p), NoticeLists(l, |s.wns|, h, l.own[h][i], p),
                   NoticeModel(m, h, i, p))
    ensures PageShown(NoticeCells(s, h, l.own[h][i], last, p), NoticeLists(l, |s.wns|, h, l.own[h][i], p),
                      NoticeModel(m, h, i, p), q)
  {
    assert PageShown(s, l, m, q);
    forall j | 0 <= j < |l.onPage[p][h]|
      ensures l.onPage[p][h][j] < |s.wns|
    {
      assert OnPageOk(s, l, m, p, h, j);
    }
  }

  lemma NoticeKeeps(s: Store, l: Lists, m: Mem, h: nat, i: nat, last: int, p: nat)
    requires CanAdd(s, l, m, h, i, last, p)
    ensures Inv(NoticeCells(s, h, l.own[h][i], last, p), NoticeLists(l, |s.wns|, h, l.own[h][i], p),
                NoticeModel(m, h, i, p))
  {
    var t, k, r := NoticeCells(s, h, l.own[h][i], last, p), NoticeLists(l, |s.wns|, h, l.own[h][i], p),
      NoticeModel(m, h, i, p);
    NoticeSizes(s, l, m, h, i, last, p);
    forall g, j | 0 <= g < m.n && 0 <= j < |k.own[g]|
      ensures LinkedOk(t, k, r, g, j)
    {
      NoticeLinked(s, l, m, h, i, last, p, g, j);
    }
    forall b | 0 <= b < |t.intervals|
      ensures PlacedOk(t, k, r, b)
    {
      NoticePlaced(s, l, m, h, i, last, p, b);
    }
    forall q, g, j | 0 <= q < |m.pages| && 0 <= g < m.n && 0 <= j < |k.onPage[q][g]|
      ensures OnPageOk(t, k, r, q, g, j)
    {
      NoticeOnPage(s, l, m, h, i, last, p, q, g, j);
    }
    forall w | 0 <= w < |t.wns|
      ensures InBoth(t, k, r, w)
    {
      NoticeInBoth(s, l, m, h, i, last, p, w);
    }
    forall q | 0 <= q < |m.pages|
      ensures PageShown(t, k, r, q)
    {
      NoticeShown(s, l, m, h, i, last, p, q);
    }
  }

  // ----- a diff stored with a notice, a page's record -----

  function DiffCells(s: Store, w: int, d: Option<Page>): Store
    requires 0 <= w < |s.wns|
  {
    s.(wns := s.wns[w := s.wns[w].(diff := d)])
  }

  function DiffModel(m: Mem, p: nat, h: nat, j: nat, d: Option<Page>): Mem
    requires p < |m.pages| && h < |m.pages[p].notices| && j < |m.pages[p].notices[h]|
  {
    var e := m.pages[p];
    m.(pages := m.pages[p := e.(notices := e.notices[h := e.notices[h][j := e.notices[h][j].(diff := d)]])])
  }

  lemma OnePlace(s: Store, l: Lists, m: Mem, p: nat, h: nat, i: nat, q: nat, g: nat, j: nat)
    requires Sizes(s, l, m) && NoticesOk(s, l, m) && p < |m.pages| && h < m.n && i < |l.onPage[p][h]|
    requires q < |m.pages| && g < m.n && j < |l.onPage[q][g]| && l.onPage[p][h][i] == l.onPage[q][g][j]
    ensures p == q && h == g && i == j
  {
    assert OnPageOk(s, l, m, p, h, i) && OnPageOk(s, l, m, q, g, j) && PageShown(s, l, m, p);
    assert Falling(l.onPage[p][h]);
  }

  lemma DiffKeeps(s: Store, l: Lists, m: Mem, p: nat, h: nat, j: nat, d: Option<Page>)
    requires Inv(s, l, m) && p < |m.pages| && h < m.n && j < |l.onPage[p][h]|
    ensures 0 <= l.onPage[p][h][j] < |s.wns|
    ensures Inv(DiffCells(s, l.onPage[p][h][j], d), l, DiffModel(m, p, h, j, d))
  {
    assert OnPageOk(s, l, m, p, h, j);
    var t, r := DiffCells(s, l.onPage[p][h][j], d), DiffModel(m, p, h, j, d);
    assert Sizes(t, l, r);
    forall g, i | 0 <= g < m.n && 0 <= i < |l.own[g]|
      ensures LinkedOk(t, l, r, g, i)
    {
      assert LinkedOk(s, l, m, g, i);
      var a := l.own[g][i];
      forall x | 0 <= x < |l.inInterval[a]|
        ensures ListedOk(t, l, r.procs[g][i].pages[x], a, x)
      {
        assert ListedOk(s, l, m.procs[g][i].pages[x], a, x);
      }
    }
    forall a | 0 <= a < |t.intervals|
      ensures PlacedOk(t, l, r, a)
    {
      assert PlacedOk(s, l, m, a);
    }
    DiffNotices(s, l, m, p, h, j, d);
  }

  lemma DiffNotices(s: Store, l: Lists, m: Mem, p: nat, h: nat, j: nat, d: Option<Page>)
    requires Inv(s, l, m) && p < |m.pages| && h < m.n && j < |l.onPage[p][h]| && 0 <= l.onPage[p][h][j] < |s.wns|
    requires Sizes(DiffCells(s, l.onPage[p][h][j], d), l, DiffModel(m, p, h, j, d))
    ensures NoticesOk(DiffCells(s, l.onPage[p][h][j], d), l, DiffModel(m, p, h, j, d))
  {
    var t, r := DiffCells(s, l.onPage[p][h][j], d), DiffModel(m, p, h, j, d);
    forall q, g, i | 0 <= q < |m.pages| && 0 <= g < m.n && 0 <= i < |l.onPage[q][g]|
      ensures OnPageOk(t, l, r, q, g, i)
    {
      assert OnPageOk(s, l, m, q, g, i);
      if l.onPage[q][g][i] == l.onPage[p][h][j] {
        OnePlace(s, l, m, q, g, i, p, h, j);
      }
    }
    forall w | 0 <= w < |t.wns|
      ensures InBoth(t, l, r, w)
    {
      assert InBoth(s, l, m, w);
    }
    forall q | 0 <= q < |m.pages|
      ensures PageShown(t, l, r, q)
    {
      assert PageShown(s, l, m, q);
    }
  }

  function PageCells(s: Store, p: nat, state: PageState, bytes: Page, twin: Option<Page>, start: int): Store
    requires p < |s.pageArray|
  {
    s.(pageArray :=
       s.pageArray[p := s.pageArray[p].(state := state, bytes := bytes, twin := twin, startInterval := start)])
  }

  function PageModel(m: Mem, p: nat, state: PageState, bytes: Page, twin: Option<Page>, start: Option<Vec>): Mem
    requires p < |m.pages|
  {
    m.(pages := m.pages[p := m.pages[p].(state := state, bytes := bytes, twin := twin, start := start)])
  }

  /** A WRITE page made invalid step by step: the state, the diff of the newest own notice, no twin. */
  lemma InvalidateWritten(m: Mem, p: nat, me: nat, start: Option<Vec>)
    requires p < |m.pages| && me < |m.pages[p].notices| && m.pages[p].state == WRITE && start == m.pages[p].start
    ensures var e, own := m.pages[p], m.pages[p].notices[me];
            var m1 := PageModel(m, p, INVALID, e.bytes, e.twin, start);
            var m2 := if own == [] then m1 else DiffModel(m1, p, me, 0, LocalDiff(e));
            SetPage(m2, p, FreeTwin(m2.pages[p])) == SetPage(m, p, Invalidate(e, me))
  {
  }

  lemma PageKeeps(s: Store, l: Lists, m: Mem, p: nat, state: PageState, bytes: Page, twin: Option<Page>, start: int,
                  ts: Option<Vec>)
    requires Inv(s, l, m) && p < |m.pages|
    requires if start == NULL then ts.None? else 0 <= start < |s.intervals| && ts == Some(s.intervals[start].timestamp)
    ensures Inv(PageCells(s, p, state, bytes, twin, start), l, PageModel(m, p, state, bytes, twin, ts))
  {
    var t, r := PageCells(s, p, state, bytes, twin, start), PageModel(m, p, state, bytes, twin, ts);
    assert Sizes(t, l, r);
    forall g, i | 0 <= g < m.n && 0 <= i < |l.own[g]|
      ensures LinkedOk(t, l, r, g, i)
    {
      assert LinkedOk(s, l, m, g, i);
      var a := l.own[g][i];
      forall x | 0 <= x < |l.inInterval[a]|
        ensures ListedOk(t, l, r.procs[g][i].pages[x], a, x)
      {
        assert ListedOk(s, l, m.procs[g][i].pages[x], a, x);
      }
    }
    forall a | 0 <= a < |t.intervals|
      ensures PlacedOk(t, l, r, a)
    {
      assert PlacedOk(s, l, m, a);
    }
    forall q, g, i | 0 <= q < |m.pages| && 0 <= g < m.n && 0 <= i < |l.onPage[q][g]|
      ensures OnPageOk(t, l, r, q, g, i)
    {
      assert OnPageOk(s, l, m, q, g, i);
    }
    forall w | 0 <= w < |t.wns|
      ensures InBoth(t, l, r, w)
    {
      assert InBoth(s, l, m, w);
    }
    forall q | 0 <= q < |m.pages|
      ensures PageShown(t, l, r, q)
    {
      assert PageShown(s, l, m, q);
    }
  }

  lemma {:induction false} SetDiffRead(list: seq<Notice>, ts: Vec, d: Option<Page>)
    requires NoticeIdx(list, ts) < |list|
    ensures DiffOf(SetDiff(list, ts, d), ts) == d
  {
    PageStates.SetDiffFound(list, ts, d);
  }

  /** The first packet of what is left of an interval's notices, and the packets of the rest. */
  lemma PacketizeFrom(h: nat, ts: Vec, pages: seq<nat>, from: nat, upto: nat)
    requires from < |pages| && upto == if |pages| - from <= MAX_WN_NUM then |pages| else from + MAX_WN_NUM
    ensures pages[0..] == pages
    ensures Packetize(h, ts, pages[from..])
            == [Packet(h, ts, pages[from..upto])] + if upto == |pages| then [] else Packetize(h, ts, pages[upto..])
  {
    var rest := pages[from..];
    assert rest[..upto - from] == pages[from..upto];
    if upto < |pages| {
      assert rest[MAX_WN_NUM..] == pages[upto..];
      assert Packetize(h, ts, rest) == [Packet(h, ts, rest[..MAX_WN_NUM])] + Packetize(h, ts, rest[MAX_WN_NUM..]);
    } else {
      assert rest[..|rest|] == rest;
      assert Packetize(h, ts, rest) == [Packet(h, ts, rest)];
    }
  }

  /** `intervalNow` set to the newest own interval. */
  lemma NowKeeps(s: Store, l: Lists, m: Mem)
    requires Inv(s, l, m)
    ensures l.own[m.me] != [] && Wf(m.(now := |m.procs[m.me]| - 1))
    ensures Inv(s.(intervalNow := l.own[m.me][0]), l, m.(now := |m.procs[m.me]| - 1))
  {
    var t, r := s.(intervalNow := l.own[m.me][0]), m.(now := |m.procs[m.me]| - 1);
    assert Sizes(t, l, r);
    forall g, i | 0 <= g < m.n && 0 <= i < |l.own[g]|
      ensures LinkedOk(t, l, r, g, i)
    {
      assert LinkedOk(s, l, m, g, i);
      var a := l.own[g][i];
      forall x | 0 <= x < |l.inInterval[a]|
        ensures ListedOk(t, l, r.procs[g][i].pages[x], a, x)
      {
        assert ListedOk(s, l, m.procs[g][i].pages[x], a, x);
      }
    }
    forall a | 0 <= a < |t.intervals|
      ensures PlacedOk(t, l, r, a)
    {
      assert PlacedOk(s, l, m, a);
    }
    forall q, g, i | 0 <= q < |m.pages| && 0 <= g < m.n && 0 <= i < |l.onPage[q][g]|
      ensures OnPageOk(t, l, r, q, g, i)
    {
      assert OnPageOk(s, l, m, q, g, i);
    }
    forall w | 0 <= w < |t.wns|
      ensures InBoth(t, l, r, w)
    {
      assert InBoth(s, l, m, w);
    }
    forall q | 0 <= q < |m.pages|
      ensures PageShown(t, l, r, q)
    {
      assert PageShown(s, l, m, q);
    }
  }

  // ----- what the invariant says about the lists -----

  ghost predicate InIntervalsOf(l: Lists, h: nat, w: int)
    requires h < |l.own|
  {
    exists i, k :: 0 <= i < |l.own[h]| && 0 <= l.own[h][i] < |l.inInterval| && 0 <= k < |l.inInterval[l.own[h][i]]|
                   && l.inInterval[l.own[h][i]][k] == w
  }

  ghost predicate OnPagesOf(l: Lists, h: nat, w: int) {
    exists p, j :: 0 <= p < |l.onPage| && h < |l.onPage[p]| && 0 <= j < |l.onPage[p][h]| && l.onPage[p][h][j] == w
  }

  /** For each host, the notices hanging on its intervals are the notices in the pages' lists for it. */
  lemma TwoIndexesAgree(s: Store, l: Lists, m: Mem, h: nat, w: int)
    requires Inv(s, l, m) && h < m.n
    ensures InIntervalsOf(l, h, w) <==> OnPagesOf(l, h, w)
    ensures InIntervalsOf(l, h, w) ==>
      0 <= w < |s.wns| && 0 <= s.wns[w].interval < |s.intervals| && l.hostOf[s.wns[w].interval] == h
  {
    if InIntervalsOf(l, h, w) {
      var i, k :| 0 <= i < |l.own[h]| && 0 <= l.own[h][i] < |l.inInterval| && 0 <= k < |l.inInterval[l.own[h][i]]|
                  && l.inInterval[l.own[h][i]][k] == w;
      assert LinkedOk(s, l, m, h, i);
      assert ListedOk(s, l, m.procs[h][i].pages[k], l.own[h][i], k);
      assert InBoth(s, l, m, w);
      var j :| 0 <= j < |l.onPage[s.wns[w].pageIndex][h]| && l.onPage[s.wns[w].pageIndex][h][j] == w;
    }
    if OnPagesOf(l, h, w) {
      var p, j :| 0 <= p < |l.onPage| && h < |l.onPage[p]| && 0 <= j < |l.onPage[p][h]| && l.onPage[p][h][j] == w;
      assert OnPageOk(s, l, m, p, h, j);
      assert InBoth(s, l, m, w);
      var a := s.wns[w].interval;
      assert PlacedOk(s, l, m, a);
      var i :| 0 <= i < |l.own[h]| && l.own[h][i] == a;
      var k :| 0 <= k < |l.inInterval[a]| && l.inInterval[a][k] == w;
    }
  }

  /** A notice occurs once in the intervals' lists, in the list of its interval. */
  lemma OnceInIntervals(s: Store, l: Lists, m: Mem, a: nat, k: nat, b: nat, x: nat)
    requires Inv(s, l, m) && a < |l.inInterval| && k < |l.inInterval[a]| && b < |l.inInterval| && x < |l.inInterval[b]|
    requires l.inInterval[a][k] == l.inInterval[b][x]
    ensures a == b && k == x
    ensures 0 <= l.inInterval[a][k] < |s.wns| && s.wns[l.inInterval[a][k]].interval == a
  {
    InItsInterval(s, l, m, a, k);
    InItsInterval(s, l, m, b, x);
    assert PlacedOk(s, l, m, a);
  }

  lemma InItsInterval(s: Store, l: Lists, m: Mem, a: nat, k: nat)
    requires Inv(s, l, m) && a < |l.inInterval| && k < |l.inInterval[a]|
    ensures 0 <= l.inInterval[a][k] < |s.wns| && s.wns[l.inInterval[a][k]].interval == a
  {
    assert PlacedOk(s, l, m, a);
    var i :| 0 <= i < |l.own[l.hostOf[a]]| && l.own[l.hostOf[a]][i] == a;
    assert LinkedOk(s, l, m, l.hostOf[a], i);
    assert ListedOk(s, l, m.procs[l.hostOf[a]][i].pages[k], a, k);
  }

  /** A notice occurs once in the pages' lists, in that of its page and its interval's host. */
  lemma OnceOnPages(s: Store, l: Lists, m: Mem, p: nat, h: nat, i: nat, q: nat, g: nat, j: nat)
    requires Inv(s, l, m) && p < |m.pages| && h < m.n && i < |l.onPage[p][h]| && q < |m.pages| && g < m.n
    requires j < |l.onPage[q][g]|
    requires l.onPage[p][h][i] == l.onPage[q][g][j]
    ensures p == q && h == g && i == j
    ensures var w := l.onPage[p][h][i];
            0 <= w < |s.wns| && s.wns[w].pageIndex == p && 0 <= s.wns[w].interval < |s.intervals| &&
              l.hostOf[s.wns[w].interval] == h
  {
    OnePlace(s, l, m, p, h, i, q, g, j);
    assert OnPageOk(s, l, m, p, h, i);
  }

  /** From any interval, following `next` and then `prev`, or `prev` and then `next`, leads back. */
  lemma PrevInvertsNext(s: Store, l: Lists, m: Mem, a: nat)
    requires Inv(s, l, m) && a < |s.intervals|
    ensures var c := s.intervals[a];
            && (c.next != NULL ==> 0 <= c.next < a && s.intervals[c.next].prev == a)
            && (c.prev != NULL ==> a < c.prev < |s.intervals| && s.intervals[c.prev].next == a)
            && l.hostOf[a] < m.n && (c.prev == NULL <==> s.procArray[l.hostOf[a]] == a)
  {
    assert PlacedOk(s, l, m, a);
    var h := l.hostOf[a];
    var i :| 0 <= i < |l.own[h]| && l.own[h][i] == a;
    assert Falling(l.own[h]);
    assert LinkedOk(s, l, m, h, i);
    if i > 0 {
      assert LinkedOk(s, l, m, h, i - 1);
    }
    if i + 1 < |l.own[h]| {
      assert LinkedOk(s, l, m, h, i + 1);
    }
  }
  // ----- the start -----

  /** What `initmem` builds: one barrier interval of the host itself, no notices, the given pages. */
  function InitialModel(me: nat, n: nat, pages: seq<(PageState, Page)>): Mem {
    Mem(me, n, seq(n, h => if h == me then [Interval(Zero(n), [], true)] else []), 0,
        seq(|pages|, p requires 0 <= p < |pages| =>
            PageEntry(pages[p].0, pages[p].1, None, None, seq(n, h => []))))
  }

  function InitialLists(me: nat, n: nat, pageCount: nat): Lists {
    Lists(seq(n, h => if h == me then [0] else []), [[]], seq(pageCount, p => seq(n, h => [])), [me])
  }

  lemma InitialOk(me: nat, n: nat, pages: seq<(PageState, Page)>, s: Store)
    requires me < n && s.me == me && s.n == n && s.intervalNow == 0 && s.wns == []
    requires s.intervals == [IntervalCell(Zero(n), NULL, NULL, NULL, true)]
    requires s.procArray == seq(n, h => if h == me then 0 else NULL)
    requires |s.pageArray| == |pages|
    requires forall p :: 0 <= p < |pages| ==>
               s.pageArray[p] == PageRec(pages[p].0, pages[p].1, None, NULL, seq(n, h => NULL))
    ensures Inv(s, InitialLists(me, n, |pages|), InitialModel(me, n, pages))
  {
  }
}
