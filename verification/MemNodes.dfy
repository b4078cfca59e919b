/**
 One host's memory management state as `mem.c` keeps it, changed in place: lists are spliced through
 addresses, and loops follow `next`, `prev`, `nextInPage` and `nextInInterval`. Every method is
 proved to do what the function of the same name in `HostMem` says; the ghost fields `lists` and
 `model` say which lists the cells form and which value they stand for.
 */
module MemNodes {
  import opened Options
  import opened Vectors
  import opened Diffs
  import opened HostMem
  import opened MemCells
  import opened Incorporation
  import opened Packing

  class MemNode {
    const myhostid: nat
    const hostnum: nat
    var intervals: seq<IntervalCell>
    var wns: seq<NoticeCell>
    var procArray: seq<int>
    var pageArray: seq<PageRec>
    var intervalNow: int

    ghost var lists: Lists
    ghost var model: Mem

    ghost function Cells(): Store
      reads this
    {
      Store(myhostid, hostnum, intervals, wns, procArray, pageArray, intervalNow)
    }

    ghost predicate Valid()
      reads this
    {
      Inv(Cells(), lists, model)
    }

    /** `initmem`: one barrier interval of the host itself, no notices; `pages` are the pages `mi_alloc` has set up. */
    constructor (me: nat, n: nat, pages: seq<(PageState, Page)>)
      requires me < n
      ensures Valid() && myhostid == me && hostnum == n
      ensures model == InitialModel(me, n, pages)
      ensures model.procs == seq(n, h => if h == me then [Interval(Zero(n), [], true)] else [])
    {
      myhostid, hostnum := me, n;
      intervals := [IntervalCell(Zero(n), NULL, NULL, NULL, true)];
      wns := [];
      procArray := seq(n, h => if h == me then 0 else NULL);
      pageArray :=
        seq(|pages|, p requires 0 <= p < |pages| => PageRec(pages[p].0, pages[p].1, None, NULL, seq(n, h => NULL)));
      intervalNow := 0;
      lists := InitialLists(me, n, |pages|);
      model := InitialModel(me, n, pages);
      new;
      InitialOk(me, n, pages, Cells());
    }

    // ----- intervals -----

    /** A newly allocated interval becomes the head of host `h`'s list. */
    method PushInterval(h: nat, ts: Vec, barrier: bool) returns (a: int)
      requires Valid() && h < hostnum && |ts| == hostnum
      modifies this
      ensures Valid() && model == PushModel(old(model), h, ts, barrier)
      ensures lists == PushLists(old(lists), h) && a == lists.own[h][0] && pageArray == old(pageArray)
      ensures intervalNow == old(intervalNow)
    {
      PushKeeps(Cells(), lists, model, h, ts, barrier);
      a := |intervals|;
      var head := procArray[h];
      if head != NULL {
        assert LinkedOk(Cells(), lists, model, h, 0);
        intervals := intervals[head := intervals[head].(prev := a)];
      }
      intervals := intervals + [IntervalCell(ts, NULL, head, NULL, barrier)];
      procArray := procArray[h := a];
      lists, model := PushLists(lists, h), PushModel(model, h, ts, barrier);
    }

    /** A new own interval that is also `intervalNow`. */
    method PushOwnInterval(ts: Vec, barrier: bool)
      requires Valid() && |ts| == hostnum
      modifies this
      ensures Valid() && model == PushOwn(old(model), Interval(ts, [], barrier))
    {
      var a := PushInterval(myhostid, ts, barrier);
      NowKeeps(Cells(), lists, model);
      intervalNow := a;
      model := model.(now := |model.procs[myhostid]| - 1);
    }

    method AddNewInterval()
      requires Valid()
      modifies this
      ensures Valid() && model == HostMem.AddNewInterval(old(model))
      ensures forall i :: 0 <= i < hostnum ==>
        NowTs(model)[i] == old(model).procs[myhostid][0].ts[i] + (if i == myhostid then 1 else 0)
    {
      assert LinkedOk(Cells(), lists, model, myhostid, 0);
      var timestamp := intervals[procArray[myhostid]].timestamp;
      PushOwnInterval(Bump(timestamp, myhostid), false);
    }

    // ----- twins and own notices -----

    method SetRecord(p: nat, state: PageState, bytes: Page, twin: Option<Page>, start: int, ghost ts: Option<Vec>)
      requires Valid() && p < |pageArray|
      requires if start == NULL then ts.None? else 0 <= start < |intervals| && ts == Some(intervals[start].timestamp)
      modifies this
      ensures Valid() && lists == old(lists) && model == PageModel(old(model), p, state, bytes, twin, ts)
      ensures intervals == old(intervals) && wns == old(wns) && intervalNow == old(intervalNow)
      ensures procArray == old(procArray)
      ensures pageArray
        == old(pageArray)[p := old(pageArray)[p].(state := state, bytes := bytes, twin := twin, startInterval := start)]
    {
      PageKeeps(Cells(), lists, model, p, state, bytes, twin, start, ts);
      pageArray := pageArray[p := pageArray[p].(state := state, bytes := bytes, twin := twin, startInterval := start)];
      model := PageModel(model, p, state, bytes, twin, ts);
    }

    method CreateTwinPage(p: nat) returns (r: int)
      requires Valid() && p < |pageArray|
      modifies this
      ensures Valid() && model == SetPage(old(model), p, CreateTwin(old(model).pages[p]))
      ensures lists == old(lists) && intervals == old(intervals) && wns == old(wns) && intervalNow == old(intervalNow)
      ensures r == if old(pageArray)[p].state in {UNMAP, MISS} || old(pageArray)[p].twin.Some? then -1 else 0
      ensures if r == -1 then model == old(model) else model.pages[p].twin == Some(model.pages[p].bytes)
    {
      assert PageShown(Cells(), lists, model, p);
      var rec := pageArray[p];
      if rec.state == UNMAP || rec.state == MISS {
        assert model.pages[p := model.pages[p]] == model.pages;
        return -1;
      }
      if rec.twin.Some? {
        assert model.pages[p := model.pages[p]] == model.pages;
        return -1;
      }
      SetRecord(p, rec.state, rec.bytes, Some(rec.bytes), rec.startInterval, model.pages[p].start);
      return 0;
    }

    method FreeTwinPage(p: nat) returns (r: int)
      requires Valid() && p < |pageArray|
      modifies this
      ensures Valid() && model == SetPage(old(model), p, FreeTwin(old(model).pages[p]))
      ensures lists == old(lists) && intervals == old(intervals) && wns == old(wns) && intervalNow == old(intervalNow)
      ensures r == if old(pageArray)[p].state in {UNMAP, MISS} || old(pageArray)[p].twin.None? then -1 else 0
      ensures if r == -1 then model == old(model) else model.pages[p].twin == None
    {
      assert PageShown(Cells(), lists, model, p);
      var rec := pageArray[p];
      if rec.state == UNMAP || rec.state == MISS {
        assert model.pages[p := model.pages[p]] == model.pages;
        return -1;
      }
      if rec.twin.None? {
        assert model.pages[p := model.pages[p]] == model.pages;
        return -1;
      }
      SetRecord(p, rec.state, rec.bytes, None, rec.startInterval, model.pages[p].start);
      return 0;
    }

    /** The last notice of an interval, found by walking from `notices`. */
    method LastNotice(a: int, ghost h: nat, ghost i: nat) returns (last: int)
      requires Valid() && h < hostnum && i < |lists.own[h]| && a == lists.own[h][i]
      ensures last == EndOf(lists, a)
    {
      assert LinkedOk(Cells(), lists, model, h, i) && PlacedOk(Cells(), lists, model, a);
      ghost var list := lists.inInterval[a];
      last := intervals[a].notices;
      if list != [] {
        assert ListedOk(Cells(), lists, model.procs[h][i].pages[0], a, 0);
      }
      if last != NULL {
        ghost var k := 0;
        while wns[last].nextInInterval != NULL
          invariant k < |list| && last == list[k] && 0 <= last < |wns| && wns[last].nextInInterval == At(list, k + 1)
          decreases |list| - k
        {
          last := wns[last].nextInInterval;
          k := k + 1;
          assert ListedOk(Cells(), lists, model.procs[h][i].pages[k], a, k);
        }
      }
    }

    /** A new notice, linked behind `last` in its interval and in front of the page's list. */
    method LinkNotice(a: int, last: int, h: nat, p: nat, ghost i: nat) returns (w: int)
      requires Valid() && h < hostnum && i < |lists.own[h]| && a == lists.own[h][i] && p < |pageArray|
      requires last == EndOf(lists, a)
      modifies this
      ensures Valid() && model == NoticeModel(old(model), h, i, p) && lists.own == old(lists).own
      ensures w == EndOf(lists, a)
      ensures |pageArray| == |old(pageArray)|
    {
      assert LinkedOk(Cells(), lists, model, h, i);
      NoticeKeeps(Cells(), lists, model, h, i, last, p);
      w := |wns|;
      if last == NULL {
        intervals := intervals[a := intervals[a].(notices := w)];
      } else {
        assert ListedOk(Cells(), lists, model.procs[h][i].pages[|lists.inInterval[a]| - 1], a,
                        |lists.inInterval[a]| - 1);
        wns := wns[last := wns[last].(nextInInterval := w)];
      }
      wns := wns + [NoticeCell(a, p, pageArray[p].notices[h], NULL, None)];
      pageArray := pageArray[p := pageArray[p].(notices := pageArray[p].notices[h := w])];
      lists, model := NoticeLists(lists, w, h, a, p), NoticeModel(model, h, i, p);
    }

    method CreateWriteNotice(p: nat) returns (r: int)
      requires Valid() && p < |pageArray|
      modifies this
      ensures Valid() && model == HostMem.CreateWriteNotice(old(model), p)
      ensures r == if old(pageArray)[p].state == RDONLY then 0 else -1
      ensures r == -1 ==> model == old(model)
    {
      assert PageShown(Cells(), lists, model, p);
      if pageArray[p].state != RDONLY {
        return -1;
      }
      var last := LastNotice(intervalNow, myhostid, NowIndex(model));
      var _ := LinkNotice(intervalNow, last, myhostid, p, NowIndex(model));
      return 0;
    }

    /** The write fault of `segv_handler`: twin, notice, WRITE. */
    method WriteFault(p: nat)
      requires Valid() && p < |pageArray| && pageArray[p].state == RDONLY
      modifies this
      ensures Valid() && model == HostMem.WriteFault(old(model), p)
    {
      var _ := CreateTwinPage(p);
      var _ := CreateWriteNotice(p);
      assert PageShown(Cells(), lists, model, p);
      var rec := pageArray[p];
      SetRecord(p, WRITE, rec.bytes, rec.twin, rec.startInterval, model.pages[p].start);
    }

    // ----- incorporating notices -----

    /** The search for an interval by its timestamp; null if the host's list has none. */
    method FindInterval(h: nat, ts: Vec) returns (a: int, ghost i: nat)
      requires Valid() && h < hostnum
      ensures i == IntervalIdx(model.procs[h], ts) && a == At(lists.own[h], i) && (a == NULL <==> i == |lists.own[h]|)
    {
      a, i := procArray[h], 0;
      if lists.own[h] != [] {
        assert LinkedOk(Cells(), lists, model, h, 0);
      }
      assert model.procs[h][0..] == model.procs[h];
      while a != NULL && intervals[a].timestamp != ts
        invariant i <= |lists.own[h]| && a == At(lists.own[h], i)
        invariant i < |lists.own[h]| ==> LinkedOk(Cells(), lists, model, h, i)
        invariant IntervalIdx(model.procs[h], ts) == i + IntervalIdx(model.procs[h][i..], ts)
        decreases |lists.own[h]| - i
      {
        assert model.procs[h][i..][1..] == model.procs[h][i + 1..];
        a := intervals[a].next;
        i := i + 1;
        if i < |lists.own[h]| {
          assert LinkedOk(Cells(), lists, model, h, i);
        }
      }
    }

    /** Whether the interval has a notice for the page. */
    method HasNotice(a: int, p: nat, ghost h: nat, ghost i: nat) returns (found: bool)
      requires Valid() && h < hostnum && i < |lists.own[h]| && a == lists.own[h][i]
      ensures found <==> p in model.procs[h][i].pages
    {
      assert LinkedOk(Cells(), lists, model, h, i) && PlacedOk(Cells(), lists, model, a);
      ghost var list, pages := lists.inInterval[a], model.procs[h][i].pages;
      var w := intervals[a].notices;
      ghost var k := 0;
      found := false;
      if list != [] {
        assert ListedOk(Cells(), lists, pages[0], a, 0);
      }
      while w != NULL && !found
        invariant k <= |list| && (w == At(list, k) || found)
        invariant k < |list| ==> ListedOk(Cells(), lists, pages[k], a, k)
        invariant found ==> p in pages
        invariant !found ==> p !in pages[..k]
        decreases |list| - k, !found
      {
        if wns[w].pageIndex == p {
          found := true;
        } else {
          assert pages[..k + 1] == pages[..k] + [pages[k]];
          k := k + 1;
          if k < |list| {
            assert ListedOk(Cells(), lists, pages[k], a, k);
          }
          w := wns[w].nextInInterval;
        }
      }
      assert !found ==> pages[..k] == pages;
    }

    /** `wn->diffAddress = d` for the notice at position `j` of a page's list. */
    method StoreDiff(w: int, d: Option<Page>, ghost p: nat, ghost h: nat, ghost j: nat)
      requires Valid() && p < |pageArray| && h < hostnum && j < |lists.onPage[p][h]| && w == lists.onPage[p][h][j]
      modifies this
      ensures Valid() && lists == old(lists) && model == DiffModel(old(model), p, h, j, d)
      ensures intervals == old(intervals) && procArray == old(procArray) && pageArray == old(pageArray)
      ensures intervalNow == old(intervalNow)
    {
      DiffKeeps(Cells(), lists, model, p, h, j, d);
      wns := wns[w := wns[w].(diff := d)];
      model := DiffModel(model, p, h, j, d);
    }

    /**
     The page's state change when a notice arrives. For a WRITE page the C code dereferences the head
     of the own notices; `PageStates` shows that there is one.
    */
    method InvalidatePage(p: nat)
      requires Valid() && p < |pageArray|
      modifies this
      ensures Valid() && lists == old(lists)
      ensures model == SetPage(old(model), p, Invalidate(old(model).pages[p], myhostid))
    {
      assert PageShown(Cells(), lists, model, p);
      var rec := pageArray[p];
      ghost var e := model.pages[p];
      if rec.state == RDONLY {
        SetRecord(p, INVALID, rec.bytes, rec.twin, rec.startInterval, e.start);
      } else if rec.state == WRITE {
        SetRecord(p, INVALID, rec.bytes, rec.twin, rec.startInterval, e.start);
        var own := rec.notices[myhostid];
        if lists.onPage[p][myhostid] != [] {
          assert OnPageOk(Cells(), lists, model, p, myhostid, 0);
        }
        if own != NULL {
          StoreDiff(own, if rec.twin.Some? then Some(Sub(rec.bytes, rec.twin.value)) else None, p, myhostid, 0);
        }
        var _ := FreeTwinPage(p);
        InvalidateWritten(old(model), p, myhostid, e.start);
      } else {
        assert model.pages[p := model.pages[p]] == model.pages;
      }
    }

    /** The interval that a packet names, made if it is missing, and its last notice. */
    method OpenInterval(h: nat, ts: Vec) returns (a: int, last: int, ghost i: nat)
      requires Valid() && h < hostnum && |ts| == hostnum
      modifies this
      ensures Valid() && model == EnsureInterval(old(model), h, ts) && i == IntervalIdx(model.procs[h], ts)
      ensures i < |lists.own[h]| && a == lists.own[h][i] && last == EndOf(lists, a) && |pageArray| == |old(pageArray)|
    {
      a, i := FindInterval(h, ts);
      if a != NULL {
        last := LastNotice(a, h, i);
        return;
      }
      a := PushInterval(h, ts, false);
      last, i := NULL, 0;
    }

    /** One page of a packet: nothing if the interval has the notice, else invalidate and link. */
    method AddPage(a: int, last: int, h: nat, p: nat, ghost i: nat) returns (w: int)
      requires Valid() && h < hostnum && i < |lists.own[h]| && a == lists.own[h][i] && p < |pageArray|
      requires last == EndOf(lists, a)
      modifies this
      ensures Valid() && model == AddNotice(old(model), h, i, p) && lists.own == old(lists).own
      ensures w == EndOf(lists, a) && |pageArray| == |old(pageArray)|
    {
      var found := HasNotice(a, p, h, i);
      if found {
        return last;
      }
      InvalidatePage(p);
      w := LinkNotice(a, last, h, p, i);
    }

    /** All pages of a packet, each behind the last notice of the interval. */
    method AddPages(a: int, end: int, h: nat, pages: seq<nat>, ghost i: nat)
      requires Valid() && h < hostnum && i < |lists.own[h]| && a == lists.own[h][i] && end == EndOf(lists, a)
      requires forall k :: 0 <= k < |pages| ==> pages[k] < |pageArray|
      modifies this
      ensures Valid() && model == AddNotices(old(model), h, i, pages) && |pageArray| == |old(pageArray)|
    {
      ghost var m1 := model;
      var last := end;
      for k := 0 to |pages|
        invariant Valid() && |pageArray| == |old(pageArray)|
        invariant i < |lists.own[h]| && a == lists.own[h][i] && last == EndOf(lists, a)
        invariant model == AddNotices(m1, h, i, pages[..k])
      {
        assert pages[..k + 1][..k] == pages[..k];
        last := AddPage(a, last, h, pages[k], i);
      }
      assert pages[..|pages|] == pages;
    }

    method IncorporateWnPacket(pk: Packet)
      requires Valid() && PacketWf(pk, hostnum, |pageArray|)
      modifies this
      ensures Valid() && model == IncorporatePacket(old(model), pk)
      ensures |pageArray| == |old(pageArray)|
    {
      var a, last, i := OpenInterval(pk.host, pk.ts);
      AddPages(a, last, pk.host, pk.pages, i);
    }

    method IncorporateMany(pks: seq<Packet>)
      requires Valid() && forall k :: 0 <= k < |pks| ==> PacketWf(pks[k], hostnum, |pageArray|)
      modifies this
      ensures Valid() && model == IncorporateAll(old(model), pks)
    {
      ghost var m1 := model;
      for k := 0 to |pks|
        invariant Valid() && |pageArray| == |old(pageArray)|
        invariant model == IncorporateAll(m1, pks[..k])
      {
        assert pks[..k + 1][..k] == pks[..k];
        IncorporateWnPacket(pks[k]);
      }
      assert pks[..|pks|] == pks;
    }

    method HandleGrantWNIMsg(ts: Vec, pks: seq<Packet>)
      requires Valid() && |ts| == hostnum && forall k :: 0 <= k < |pks| ==> PacketWf(pks[k], hostnum, |pageArray|)
      modifies this
      ensures Valid() && model == HandleGrantWNI(old(model), ts, pks)
      ensures forall i :: 0 <= i < hostnum ==> NowTs(model)[i] == ts[i] + (if i == myhostid then 1 else 0)
    {
      PushOwnInterval(Bump(ts, myhostid), false);
      IncorporateKeepsNow(model, pks);
      IncorporateMany(pks);
    }

    // ----- diffs and pages -----

    /** The search for a notice by its interval's timestamp. */
    method FindNotice(p: nat, h: nat, ts: Vec) returns (w: int, ghost j: nat)
      requires Valid() && p < |pageArray| && h < hostnum
      ensures j == NoticeIdx(model.pages[p].notices[h], ts) && w == At(lists.onPage[p][h], j)
      ensures w == NULL <==> j == |lists.onPage[p][h]|
      ensures w != NULL ==> 0 <= w < |wns| && wns[w].diff == model.pages[p].notices[h][j].diff
    {
      ghost var list := model.pages[p].notices[h];
      assert PageShown(Cells(), lists, model, p);
      w, j := pageArray[p].notices[h], 0;
      if list != [] {
        assert OnPageOk(Cells(), lists, model, p, h, 0);
      }
      assert list[0..] == list;
      while w != NULL && intervals[wns[w].interval].timestamp != ts
        invariant j <= |list| && w == At(lists.onPage[p][h], j)
        invariant j < |list| ==> OnPageOk(Cells(), lists, model, p, h, j)
        invariant NoticeIdx(list, ts) == j + NoticeIdx(list[j..], ts)
        decreases |list| - j
      {
        assert list[j..][1..] == list[j + 1..];
        w := wns[w].nextInPage;
        j := j + 1;
        if j < |list| {
          assert OnPageOk(Cells(), lists, model, p, h, j);
        }
      }
    }

    /** The state change of `grantDiff` on a WRITE page: the twin is given up. */
    method EndWriting(p: nat)
      requires Valid() && p < |pageArray|
      modifies this
      ensures Valid() && lists == old(lists) && wns == old(wns)
      ensures var e := old(model).pages[p];
              model == SetPage(old(model), p, if e.state == WRITE then FreeTwin(e).(state := RDONLY) else e)
    {
      assert PageShown(Cells(), lists, model, p);
      if pageArray[p].state == WRITE {
        var _ := FreeTwinPage(p);
        assert PageShown(Cells(), lists, model, p);
        var rec := pageArray[p];
        SetRecord(p, RDONLY, rec.bytes, rec.twin, rec.startInterval, model.pages[p].start);
      } else {
        assert model.pages[p := model.pages[p]] == model.pages;
      }
    }

    method GrantDiff(ts: Vec, p: nat) returns (reply: Option<Page>)
      requires Valid() && p < |pageArray|
      modifies this
      ensures Valid() && model == HostMem.GrantDiff(old(model), ts, p) && reply == GrantedDiff(old(model), ts, p)
      ensures old(pageArray)[p].state in {UNMAP, MISS} ==> reply == None && model == old(model)
    {
      assert PageShown(Cells(), lists, model, p);
      ghost var own := model.pages[p].notices[myhostid];
      var rec := pageArray[p];
      if rec.state == UNMAP || rec.state == MISS {
        assert model.pages[p := model.pages[p]] == model.pages;
        return None;
      }
      var w, j := FindNotice(p, myhostid, ts);
      if w == NULL {
        assert model.pages[p := model.pages[p]] == model.pages;
        return None;
      }
      if wns[w].diff.None? {
        reply := if rec.twin.Some? then Some(Sub(rec.bytes, rec.twin.value)) else None;
        StoreDiff(w, reply, p, myhostid, j);
        EndWriting(p);
        SetDiffRead(own, ts, reply);
      } else {
        assert model.pages[p := model.pages[p]] == model.pages;
        reply := wns[w].diff;
      }
    }

    method HandleGrantDiffMsg(host: nat, ts: Vec, p: nat, d: Page)
      requires Valid() && p < |pageArray| && host < hostnum
      modifies this
      ensures Valid() && model == HandleGrantDiff(old(model), host, ts, p, d)
      ensures old(DiffOf(model.pages[p].notices[host], ts)).Some? ==>
                model == SetPage(old(model), p, old(model).pages[p].(bytes := Add(old(model).pages[p].bytes, d)))
    {
      var w, j := FindNotice(p, host, ts);
      if w == NULL {
        assert model.pages[p := model.pages[p]] == model.pages;
        return;
      }
      ghost var list := model.pages[p].notices[host];
      if wns[w].diff.None? {
        StoreDiff(w, Some(d), p, host, j);
      } else {
        assert list[j := list[j]] == list;
        assert model.pages[p].notices[host := list] == model.pages[p].notices;
      }
      assert PageShown(Cells(), lists, model, p);
      var rec := pageArray[p];
      SetRecord(p, rec.state, Add(rec.bytes, d), rec.twin, rec.startInterval, model.pages[p].start);
    }

    /** `grantPage`: the bytes as they are, whatever the state of a page that is present. */
    method GrantPage(p: nat) returns (reply: Option<Page>)
      requires Valid() && p < |pageArray|
      ensures reply == HostMem.GrantPage(model, p)
      ensures reply == if pageArray[p].state in {UNMAP, MISS} then None else Some(pageArray[p].bytes)
    {
      assert PageShown(Cells(), lists, model, p);
      if pageArray[p].state == UNMAP || pageArray[p].state == MISS {
        return None;
      }
      return Some(pageArray[p].bytes);
    }

    method HandleGrantPageMsg(p: nat, bytes: Page)
      requires Valid() && p < |pageArray|
      modifies this
      ensures Valid() && model == HandleGrantPage(old(model), p, bytes)
    {
      assert LinkedOk(Cells(), lists, model, myhostid, NowIndex(model)) && PageShown(Cells(), lists, model, p);
      var rec := pageArray[p];
      SetRecord(p, rec.state, bytes, rec.twin, intervalNow, Some(NowTs(model)));
    }

    /** The choice of the host to ask for a missing page, as `fetchPage` makes it. */
    method ChooseHost(p: nat) returns (g: nat)
      requires Valid() && p < |pageArray|
      ensures g == FetchTarget(model, p)
    {
      assert PageShown(Cells(), lists, model, p);
      var latest := NULL;
      g := hostnum;
      for i := 0 to hostnum
        invariant g == LatestHost(model.pages[p].notices, myhostid, i)
        invariant g <= hostnum && (g == hostnum <==> latest == NULL)
        invariant latest != NULL ==>
                    && 0 <= latest < |intervals| && model.pages[p].notices[g] != []
                    && intervals[latest].timestamp == model.pages[p].notices[g][0].ts
      {
        if i == myhostid {
          continue;
        }
        var w := pageArray[p].notices[i];
        if model.pages[p].notices[i] != [] {
          assert OnPageOk(Cells(), lists, model, p, i, 0);
        }
        if w != NULL {
          var interval := wns[w].interval;
          if latest == NULL || After(intervals[interval].timestamp, intervals[latest].timestamp) {
            latest, g := interval, i;
          }
        }
      }
      if latest == NULL {
        g := p % hostnum;
      }
    }

    // ----- granting intervals -----

    /** `addWNIIntoPacketForHost`: at most 1024 page numbers from here on, and the notice to go on with. */
    method AddWNIIntoPacket(h: nat, a: int, w: int, ghost i: nat, ghost from: nat)
      returns (packet: Packet, left: int, ghost upto: nat)
      requires Valid() && h < hostnum && i < |lists.own[h]| && a == lists.own[h][i]
      requires from < |model.procs[h][i].pages| && w == NoticeOf(lists, a, from)
      ensures from < upto <= |model.procs[h][i].pages| && left == NoticeOf(lists, a, upto)
      ensures left == NULL <==> upto == |model.procs[h][i].pages|
      ensures packet == Packet(h, model.procs[h][i].ts, model.procs[h][i].pages[from..upto])
      ensures upto
        == if |model.procs[h][i].pages| - from <= MAX_WN_NUM then |model.procs[h][i].pages| else from + MAX_WN_NUM
    {
      assert LinkedOk(Cells(), lists, model, h, i);
      ghost var pages := model.procs[h][i].pages;
      var numbers: seq<nat> := [];
      left, upto := w, from;
      while left != NULL && |numbers| < MAX_WN_NUM
        invariant from <= upto <= |pages| && left == NoticeOf(lists, a, upto) && numbers == pages[from..upto]
        invariant |numbers| <= MAX_WN_NUM
        decreases |pages| - upto
      {
        assert ListedOk(Cells(), lists, pages[upto], a, upto);
        numbers := numbers + [wns[left].pageIndex];
        left := wns[left].nextInInterval;
        upto := upto + 1;
      }
      if upto < |pages| {
        assert ListedOk(Cells(), lists, pages[upto], a, upto);
      }
      packet := Packet(h, intervals[a].timestamp, numbers);
    }

    /** All packets of one interval with notices. */
    method IntervalPackets(h: nat, a: int, ghost i: nat) returns (packets: seq<Packet>)
      requires Valid() && h < hostnum && i < |lists.own[h]| && a == lists.own[h][i] && model.procs[h][i].pages != []
      ensures packets == Packetize(h, model.procs[h][i].ts, model.procs[h][i].pages)
    {
      assert LinkedOk(Cells(), lists, model, h, i) && PlacedOk(Cells(), lists, model, a);
      ghost var iv := model.procs[h][i];
      assert ListedOk(Cells(), lists, iv.pages[0], a, 0);
      var packet, left;
      ghost var upto;
      packet, left, upto := AddWNIIntoPacket(h, a, intervals[a].notices, i, 0);
      packets := [packet];
      PacketizeFrom(h, iv.ts, iv.pages, 0, upto);
      while left != NULL
        invariant upto <= |iv.pages| && left == NoticeOf(lists, a, upto) && (left == NULL <==> upto == |iv.pages|)
        invariant Packetize(h, iv.ts, iv.pages)
          == if left == NULL then packets else packets + Packetize(h, iv.ts, iv.pages[upto..])
        decreases |iv.pages| - upto
      {
        ghost var from := upto;
        packet, left, upto := AddWNIIntoPacket(h, a, left, i, from);
        PacketizeFrom(h, iv.ts, iv.pages, from, upto);
        packets := packets + [packet];
      }
    }

    /** To the oldest interval by `next`. */
    method Oldest(h: nat) returns (a: int)
      requires Valid() && h < hostnum
      ensures a == At(lists.own[h], |lists.own[h]| - 1) && (a == NULL <==> lists.own[h] == [])
    {
      ghost var list := model.procs[h];
      a := procArray[h];
      if list != [] {
        assert LinkedOk(Cells(), lists, model, h, 0);
      }
      if a == NULL {
        return;
      }
      ghost var i := 0;
      while intervals[a].next != NULL
        invariant i < |list| && a == lists.own[h][i]
        invariant LinkedOk(Cells(), lists, model, h, i)
        invariant i + 1 < |list| ==> LinkedOk(Cells(), lists, model, h, i + 1)
        decreases |list| - i
      {
        a := intervals[a].next;
        i := i + 1;
      }
    }

    method Prior(h: nat, a: int, ghost i: nat) returns (b: int)
      requires Valid() && h < hostnum && i < |lists.own[h]| && a == lists.own[h][i]
      ensures b == At(lists.own[h], i - 1) && (b == NULL <==> i == 0)
    {
      assert LinkedOk(Cells(), lists, model, h, i);
      if i > 0 {
        assert LinkedOk(Cells(), lists, model, h, i - 1);
      }
      b := intervals[a].prev;
    }

    /** To the oldest interval by `next`, then back by `prev`, past every interval once, oldest first. */
    method PacketsOfHost(h: nat, t: Vec) returns (packets: seq<Packet>)
      requires Valid() && h < hostnum
      ensures packets == HostPackets(h, model.procs[h], t)
    {
      ghost var list := model.procs[h];
      packets := [];
      var a := Oldest(h);
      ghost var seen := |list|;
      assert list[seen..] == [];
      while a != NULL
        invariant 0 <= seen <= |list| && a == At(lists.own[h], seen - 1) && (a == NULL <==> seen == 0)
        invariant packets == HostPackets(h, list[seen..], t)
        decreases seen
      {
        seen := seen - 1;
        assert LinkedOk(Cells(), lists, model, h, seen) && PlacedOk(Cells(), lists, model, a);
        assert list[seen..][1..] == list[seen + 1..];
        if lists.inInterval[a] != [] {
          assert ListedOk(Cells(), lists, list[seen].pages[0], a, 0);
        }
        if After(intervals[a].timestamp, t) && intervals[a].notices != NULL {
          var more := IntervalPackets(h, a, seen);
          packets := packets + more;
        }
        if seen > 0 {
          assert LinkedOk(Cells(), lists, model, h, seen - 1);
        }
        a := intervals[a].prev;
      }
      assert list[0..] == list;
    }

    /** What `grantWNI` puts into its message. */
    method GrantWNI(t: Vec) returns (ts: Vec, packets: seq<Packet>)
      requires Valid()
      ensures ts == NowTs(model) && packets == GrantedPackets(model, t, hostnum)
    {
      assert LinkedOk(Cells(), lists, model, myhostid, NowIndex(model));
      ts, packets := intervals[intervalNow].timestamp, [];
      for h := 0 to hostnum
        invariant packets == GrantedPackets(model, t, h)
      {
        var more := PacketsOfHost(h, t);
        packets := packets + more;
      }
    }

    // ----- entering a barrier -----

    /** Appends the packets of an interval, if it has notices, to the messages being built. */
    method SendInterval(s: Sending, ts: Vec, a: int, ghost i: nat, ghost packets: seq<Packet>) returns (t: Sending)
      requires Valid() && i < |lists.own[myhostid]| && a == lists.own[myhostid][i]
      requires SendingOk(s, ts, hostnum, packets)
      ensures var iv := model.procs[myhostid][i];
              SendingOk(t, ts, hostnum, packets + if iv.pages != [] then Packetize(myhostid, iv.ts, iv.pages) else [])
    {
      assert LinkedOk(Cells(), lists, model, myhostid, i) && PlacedOk(Cells(), lists, model, a);
      ghost var iv := model.procs[myhostid][i];
      if iv.pages != [] {
        assert ListedOk(Cells(), lists, iv.pages[0], a, 0);
      }
      t := s;
      if intervals[a].notices == NULL {
        assert packets + [] == packets;
        return;
      }
      var more := IntervalPackets(myhostid, a, i);
      t := AppendPackets(t, more, ts, hostnum, packets);
    }

    /** The walk from the head to the newest barrier interval. */
    method FindBarrier() returns (a: int, ghost i: nat)
      requires Valid() && HasBarrier(model.procs[myhostid])
      ensures i < |lists.own[myhostid]| && a == lists.own[myhostid][i] && a != NULL
      ensures SinceBarrier(model.procs[myhostid]) == model.procs[myhostid][..i + 1]
    {
      ghost var list := model.procs[myhostid];
      a, i := procArray[myhostid], 0;
      assert LinkedOk(Cells(), lists, model, myhostid, 0);
      while !intervals[a].isBarrier
        invariant i < |list| && a == lists.own[myhostid][i] && LinkedOk(Cells(), lists, model, myhostid, i)
        invariant forall k :: 0 <= k < i ==> !list[k].isBarrier
        decreases |list| - i
      {
        ghost var b :| 0 <= b < |list| && list[b].isBarrier;
        assert i < b;
        assert LinkedOk(Cells(), lists, model, myhostid, i + 1);
        a := intervals[a].next;
        i := i + 1;
      }
      SinceBarrierAt(list, i);
    }

    /** From interval `a` back to the newest one by `prev`. */
    method SendBack(start: int, ts: Vec, ghost upto: nat) returns (msgs: seq<InfoMsg>)
      requires Valid() && 0 < upto <= |lists.own[myhostid]| && start == lists.own[myhostid][upto - 1] && start != NULL
      ensures msgs == EntryMessages(ts, hostnum, EntryPackets(myhostid, model.procs[myhostid][..upto]))
    {
      ghost var ivs := model.procs[myhostid][..upto];
      var s := StartMessage(ts, hostnum);
      var a := start;
      ghost var seen := upto;
      assert ivs[seen..] == [];
      while a != NULL
        invariant 0 <= seen <= upto && a == At(lists.own[myhostid], seen - 1) && (a == NULL <==> seen == 0)
        invariant SendingOk(s, ts, hostnum, EntryPackets(myhostid, ivs[seen..]))
        decreases seen
      {
        seen := seen - 1;
        assert ivs[seen..][1..] == ivs[seen + 1..];
        s := SendInterval(s, ts, a, seen, EntryPackets(myhostid, ivs[seen + 1..]));
        a := Prior(myhostid, a, seen);
      }
      assert ivs[0..] == ivs;
      msgs := FinishMessages(s, ts, hostnum, EntryPackets(myhostid, ivs));
    }

    /**
     From the last barrier interval on, towards the newest, everything that has notices; the manager sends
     nothing.
    */
    method SendEnterBarrierInfo() returns (msgs: seq<InfoMsg>)
      requires Valid() && HasBarrier(model.procs[myhostid])
      ensures msgs == if myhostid == 0 then []
                      else EntryMessages(NowTs(model), hostnum,
                                         EntryPackets(myhostid, SinceBarrier(model.procs[myhostid])))
    {
      if myhostid == 0 {
        return [];
      }
      assert LinkedOk(Cells(), lists, model, myhostid, NowIndex(model));
      var a;
      ghost var i;
      a, i := FindBarrier();
      msgs := SendBack(a, intervals[intervalNow].timestamp, i + 1);
    }

    /** The memory part of `handleGrantEnterBarrierMsg`. */
    method HandleEnterBarrierInfo(msg: InfoMsg)
      requires Valid() && 0 <= msg.count <= |msg.packets|
      requires forall k :: 0 <= k < msg.count ==> PacketWf(msg.packets[k], hostnum, |pageArray|)
      modifies this
      ensures Valid() && model == HandleInfo(old(model), msg)
    {
      IncorporateMany(msg.packets[..msg.count]);
    }

    /** The packets of one interval, if it has notices that the receiver wants, go into the messages for it. */
    method ReturnInterval(r: Returning, h: nat, t: Vec, a: int, ghost k: nat, i: nat, ts: Vec,
                          ghost packets: seq<Packet>, ghost rests: seq<bool>)
      returns (q: Returning)
      requires Valid() && h < hostnum && k < |lists.own[h]| && a == lists.own[h][k]
      requires ReturningOk(r, i, ts, hostnum, packets, rests)
      ensures var iv := model.procs[h][k];
              if Wanted(iv, t)
              then ReturningOk(q, i, ts, hostnum, packets + Packetize(h, iv.ts, iv.pages),
                               rests + Rests(|Packetize(0, iv.ts, iv.pages)|))
              else q == r
    {
      assert LinkedOk(Cells(), lists, model, h, k) && PlacedOk(Cells(), lists, model, a);
      ghost var iv := model.procs[h][k];
      if iv.pages != [] {
        assert ListedOk(Cells(), lists, iv.pages[0], a, 0);
      }
      q := r;
      if After(intervals[a].timestamp, t) && intervals[a].notices != NULL {
        var more := IntervalPackets(h, a, k);
        PacketCount(0, h, iv.ts, iv.pages);
        q := ReturnPackets(r, more, i, ts, hostnum, packets, rests);
      }
    }

    /** To the oldest interval and back, as in `grantWNI`, filling messages on the way. */
    method ReturnHost(r: Returning, h: nat, t: Vec, i: nat, ts: Vec, ghost packets: seq<Packet>, ghost rests: seq<bool>)
      returns (q: Returning)
      requires Valid() && h < hostnum && ReturningOk(r, i, ts, hostnum, packets, rests)
      ensures ReturningOk(q, i, ts, hostnum, packets + HostPackets(h, model.procs[h], t),
                          rests + HostRests(model.procs[h], t))
    {
      ghost var list := model.procs[h];
      var a := Oldest(h);
      q := r;
      ghost var seen := |list|;
      assert list[seen..] == [] && packets + [] == packets && rests + [] == rests;
      while a != NULL
        invariant 0 <= seen <= |list| && a == At(lists.own[h], seen - 1) && (a == NULL <==> seen == 0)
        invariant ReturningOk(q, i, ts, hostnum, packets + HostPackets(h, list[seen..], t),
                              rests + HostRests(list[seen..], t))
        decreases seen
      {
        seen := seen - 1;
        var last := a;
        assert list[seen..][1..] == list[seen + 1..];
        a := Prior(h, last, seen);
        q := ReturnInterval(q, h, t, last, seen, i, ts,
                            packets + HostPackets(h, list[seen + 1..], t), rests + HostRests(list[seen + 1..], t));
        MoreReturned(h, list[seen..], t, packets, rests);
      }
      assert list[0..] == list;
    }

    /**
     What `returnAllBarrierInfo` sends to host `i`, which entered with vector `t`: the messages, and to whom
     they go.
    */
    method ReturnTo(i: nat, t: Vec, ts: Vec) returns (msgs: seq<InfoMsg>, to: seq<nat>)
      requires Valid()
      ensures msgs == EntryMessages(ts, hostnum, GrantedPackets(model, t, hostnum))
      ensures |to| == |msgs| && forall k :: 0 <= k < |to| ==> to[k] == DestOf(i, GrantedRests(model, t, hostnum), k)
      ensures forall k :: 0 <= k < |to| ==> to[k] == i || to[k] == 0
    {
      var s := StartMessage(ts, hostnum);
      var r := Returning(s, [], i);
      for h := 0 to hostnum
        invariant ReturningOk(r, i, ts, hostnum, GrantedPackets(model, t, h), GrantedRests(model, t, h))
      {
        r := ReturnHost(r, h, t, i, ts, GrantedPackets(model, t, h), GrantedRests(model, t, h));
      }
      msgs, to := FinishReturn(r, i, ts, hostnum, GrantedPackets(model, t, hostnum), GrantedRests(model, t, hostnum));
    }

    method Reply(i: nat, t: Vec, ts: Vec) returns (msgs: seq<InfoMsg>, to: seq<nat>)
      requires Valid()
      ensures RepliesWith(model, hostnum, t, ts, i, msgs, to)
    {
      msgs, to := ReturnTo(i, t, ts);
    }

    /** `returnAllBarrierInfo` on host 0: its own barrier interval, then for every other host what it lacks. */
    method ReturnAllBarrierInfo(rows: seq<Vec>, ts: Vec) returns (msgs: seq<seq<InfoMsg>>, to: seq<seq<nat>>)
      requires Valid() && myhostid == 0 && |rows| == hostnum && |ts| == hostnum
      modifies this
      ensures Valid() && model == BarrierInterval(old(model), ts)
      ensures model.procs[0] == [Interval(ts, [], true)] + old(model).procs[0]
      ensures SinceBarrier(model.procs[0]) == [model.procs[0][0]]
      ensures |msgs| == |to| == hostnum && msgs[0] == [] && to[0] == []
      ensures forall i :: 1 <= i < hostnum ==> RepliesWith(model, hostnum, rows[i], ts, i, msgs[i], to[i])
    {
      PushOwnInterval(ts, true);
      msgs, to := [[]], [[]];
      for i := 1 to hostnum
        invariant Valid() && model == BarrierInterval(old(model), ts)
        invariant |msgs| == |to| == i && msgs[0] == [] && to[0] == []
        invariant forall x :: 1 <= x < i ==> RepliesWith(model, hostnum, rows[x], ts, x, msgs[x], to[x])
      {
        var out, dests := Reply(i, rows[i], ts);
        msgs, to := msgs + [out], to + [dests];
      }
    }

    /** `handleGrantExitBarrierMsg`: the first message of a round has a vector and opens a barrier interval. */
    method HandleExitBarrierInfo(msg: InfoMsg)
      requires Valid() && |msg.timestamp| == hostnum > 0
      requires 0 <= msg.count <= |msg.packets|
      requires forall k :: 0 <= k < msg.count ==> PacketWf(msg.packets[k], hostnum, |pageArray|)
      modifies this
      ensures Valid()
      ensures model == HandleExit(old(model), msg)
      ensures (forall k :: 0 <= k < msg.count ==> msg.packets[k].host != myhostid) ==>
                model.procs[myhostid]
                == (if msg.timestamp[0] != -1 then [Interval(msg.timestamp, [], true)] else [])
                     + old(model).procs[myhostid]
    {
      if msg.timestamp[0] != -1 {
        PushOwnInterval(msg.timestamp, true);
      }
      if forall k :: 0 <= k < msg.count ==> msg.packets[k].host != myhostid {
        IncorporateNow(model, msg.packets[..msg.count]);
      }
      IncorporateMany(msg.packets[..msg.count]);
    }
  }
}
