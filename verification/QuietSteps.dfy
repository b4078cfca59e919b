/**
 Steps that change no byte of any copy: opening and closing critical sections, incorporating
 notices, building a diff for a requester, making a page readable. They keep every pending sum.
 */
module QuietSteps {
  import opened Options
  import opened Vectors
  import opened Diffs
  import opened HostMem
  import opened CriticalLog
  import opened PageStates
  import opened World

  /** The diffs received from others, and where the copy starts, are as before. */
  ghost predicate SameForeign(e: PageEntry, f: PageEntry, me: nat)
    requires |e.notices| == |f.notices| && me < |e.notices|
  {
    && f.start == e.start && f.bytes == e.bytes && (f.state == MISS <==> e.state == MISS)
    && forall j, ts :: 0 <= j < |e.notices| && j != me ==> DiffOf(f.notices[j], ts) == DiffOf(e.notices[j], ts)
  }

  /** The own notices have the same diffs, stored or not; stored diffs stay stored. */
  ghost predicate SameOwn(e: PageEntry, f: PageEntry, me: nat)
    requires |e.notices| == |f.notices| && me < |e.notices|
  {
    forall ts :: NoticeIdx(e.notices[me], ts) < |e.notices[me]| ==>
      && OwnValue(f, me, ts) == OwnValue(e, me, ts)
      && (DiffOf(e.notices[me], ts).Some? ==> DiffOf(f.notices[me], ts) == DiffOf(e.notices[me], ts))
  }

  ghost predicate Quiet(e: PageEntry, f: PageEntry, me: nat)
    requires me < |e.notices|
  {
    |e.notices| == |f.notices| && SameForeign(e, f, me) && SameOwn(e, f, me)
  }

  /** The history only gained critical sections without notices. */
  ghost predicate LogGrows(v: World, w: World) {
    && w.n == v.n && w.cur == v.cur
    && |v.log| <= |w.log|
    && (forall k :: 0 <= k < |v.log| ==> w.log[k] == v.log[k])
    && (forall k :: |v.log| <= k < |w.log| ==> w.log[k].pages == [])
  }

  ghost predicate QuietStep(v: World, w: World)
    requires Basic(v) && Basic(w)
  {
    LogGrows(v, w) &&
    forall h, p :: 0 <= h < v.n && 0 <= p < |v.cur| ==> Quiet(v.mems[h].pages[p], w.mems[h].pages[p], h)
  }

  lemma TermKept(v: World, w: World, h: nat, p: nat, k: nat)
    requires Basic(v) && Basic(w) && QuietStep(v, w) && h < v.n && p < |v.cur| && k < |v.log|
    requires Knowledge(v, v.log[k].host)
    ensures Term(w, h, p, k) == Term(v, h, p, k)
  {
    var j := Writer(v, k);
    assert Quiet(v.mems[h].pages[p], w.mems[h].pages[p], h);
    assert Quiet(v.mems[j].pages[p], w.mems[j].pages[p], j);
    if p in v.log[k].pages {
      OwnNoticeKnown(v, j, p, k);
    }
  }

  /** A writer finds its own notice. */
  lemma OwnNoticeKnown(v: World, j: nat, p: nat, k: nat)
    requires Basic(v) && k < |v.log| && j == v.log[k].host && j < v.n && p < |v.cur| && p in v.log[k].pages
    requires Knowledge(v, j)
    ensures NoticeIdx(v.mems[j].pages[p].notices[j], v.log[k].ts) < |v.mems[j].pages[p].notices[j]|
  {
    assert Knows(v.log, v.mems[j], j, Known(v.log, j));
    FindNotice(v.n, |v.cur|, v.log, Known(v.log, j), j, p, v.mems[j].pages[p].notices[j], k);
  }

  lemma QuietCopy(v: World, w: World, h: nat, p: nat)
    requires Basic(v) && Basic(w) && QuietStep(v, w) && h < v.n && p < |v.cur|
    requires forall j :: 0 <= j < v.n ==> Knowledge(v, j)
    requires Conserved(v, h, p)
    ensures Conserved(w, h, p)
  {
    assert Quiet(v.mems[h].pages[p], w.mems[h].pages[p], h);
    var a, b := Terms(v, h, p), Terms(w, h, p);
    forall k | 0 <= k < |a|
      ensures b[k] == a[k]
    {
      assert Knowledge(v, Writer(v, k));
      TermKept(v, w, h, p, k);
    }
    forall k | |a| <= k < |b|
      ensures b[k] == ZeroPage()
    {
      assert w.log[k].pages == [];
    }
    assert b[..|a|] == a;
    TrailingZeros(a, b);
  }

  lemma {:induction false} TrailingZeros(a: seq<Page>, b: seq<Page>)
    requires |a| <= |b| && b[..|a|] == a
    requires forall k :: |a| <= k < |b| ==> b[k] == ZeroPage()
    ensures Total(b) == Total(a)
    decreases |b|
  {
    if |a| == |b| {
      assert a == b;
    } else {
      TrailingZeros(a, b[..|b| - 1]);
      AddZero(Total(a));
    }
  }

  lemma QuietAgreesAt(v: World, w: World, h: nat, p: nat, k: nat)
    requires Basic(v) && Basic(w) && QuietStep(v, w) && h < v.n && p < |v.cur| && k < |w.log| && w.log[k].host != h
    requires Knowledge(w, h)
    requires k < |v.log| ==> Knowledge(v, h) && Knowledge(v, Writer(v, k)) && DiffAgrees(v, h, p, k)
    ensures DiffAgrees(w, h, p, k)
  {
    var j := Writer(w, k);
    assert Quiet(v.mems[h].pages[p], w.mems[h].pages[p], h);
    assert Quiet(v.mems[j].pages[p], w.mems[j].pages[p], j);
    if DiffOf(w.mems[h].pages[p].notices[j], w.log[k].ts).Some? {
      ReceivedIsKnown(w, h, p, k);
      OwnNoticeKnown(v, j, p, k);
    }
  }

  /** A quiet step keeps the invariant if it keeps what the hosts know and the local page conditions. */
  lemma QuietKeeps(v: World, w: World)
    requires Inv(v) && Basic(w) && QuietStep(v, w)
    requires forall h :: 0 <= h < w.n ==> Knowledge(w, h)
    requires forall h, p :: 0 <= h < w.n && 0 <= p < |w.cur| ==> PageOk(w, h, p)
    ensures Inv(w)
  {
    forall h, p | 0 <= h < w.n && 0 <= p < |w.cur|
      ensures DiffsAgree(w, h, p)
    {
      assert DiffsAgree(v, h, p);
      forall k | 0 <= k < |w.log| && w.log[k].host != h
        ensures DiffAgrees(w, h, p, k)
      {
        assert Knowledge(w, h);
        QuietAgreesAt(v, w, h, p, k);
      }
    }
  }

  /** A quiet step keeps every copy consistent. */
  lemma QuietConserves(v: World, w: World)
    requires Inv(v) && Conserving(v) && Basic(w) && QuietStep(v, w)
    ensures Conserving(w)
  {
    forall h, p | 0 <= h < w.n && 0 <= p < |w.cur|
      ensures Conserved(w, h, p)
    {
      assert Conserved(v, h, p);
      QuietCopy(v, w, h, p);
    }
  }

  /** A diff is only ever stored with a known notice. */
  lemma ReceivedIsKnown(v: World, h: nat, p: nat, k: nat)
    requires Basic(v) && h < v.n && p < |v.cur| && k < |v.log| && Knowledge(v, h)
    requires DiffOf(v.mems[h].pages[p].notices[Writer(v, k)], v.log[k].ts).Some?
    ensures k < Known(v.log, h) && p in v.log[k].pages
  {
    var j := Writer(v, k);
    assert Knows(v.log, v.mems[h], j, Known(v.log, h));
    FindNotice(v.n, |v.cur|, v.log, Known(v.log, h), j, p, v.mems[h].pages[p].notices[j], k);
  }

  lemma QuietRefl(e: PageEntry, me: nat)
    requires me < |e.notices|
    ensures Quiet(e, e, me)
  {
  }

  lemma QuietTrans(a: PageEntry, b: PageEntry, c: PageEntry, me: nat)
    requires me < |a.notices| && Quiet(a, b, me) && me < |b.notices| && Quiet(b, c, me)
    requires forall ts :: NoticeIdx(a.notices[me], ts) < |a.notices[me]| ==>
      NoticeIdx(b.notices[me], ts) < |b.notices[me]|
    ensures Quiet(a, c, me)
  {
  }

  // ----- closing a critical section -----

  /** `mi_unlock` opens a new own interval. */
  ghost function Leave(w: World, h: nat): World
    requires Basic(w) && h < w.n
  {
    w.(mems := w.mems[h := AddNewInterval(w.mems[h])], inside := None)
  }

  lemma LeaveKeeps(w: World, h: nat)
    requires Inv(w) && w.inside == Some(h) && h < w.n
    ensures Inv(Leave(w, h))
  {
    var v := Leave(w, h);
    LeaveBasic(w, h);
    forall g | 0 <= g < v.n
      ensures Knowledge(v, g)
    {
      LeaveKnowledge(w, h, g);
    }
    forall g, p | 0 <= g < v.n && 0 <= p < |v.cur|
      ensures PageOk(v, g, p)
    {
      assert PageOk(w, g, p);
      LeavePage(w, h, g, p);
    }
    QuietKeeps(w, v);
  }

  lemma LeaveConserves(w: World, h: nat)
    requires Inv(w) && Conserving(w) && h < w.n
    ensures Basic(Leave(w, h)) && Conserving(Leave(w, h))
  {
    LeaveBasic(w, h);
    QuietConserves(w, Leave(w, h));
  }

  lemma LeaveBasic(w: World, h: nat)
    requires Basic(w) && h < w.n
    ensures Basic(Leave(w, h)) && QuietStep(w, Leave(w, h))
  {
    var v := Leave(w, h);
    forall g | 0 <= g < v.n
      ensures MemBasic(v, g)
    {
      assert MemBasic(w, g);
    }
    forall g, p | 0 <= g < v.n && 0 <= p < |v.cur|
      ensures Quiet(w.mems[g].pages[p], v.mems[g].pages[p], g)
    {
      QuietRefl(w.mems[g].pages[p], g);
    }
  }

  lemma LeavePage(w: World, h: nat, g: nat, p: nat)
    requires Basic(w) && w.inside == Some(h) && h < w.n && g < w.n && p < |w.cur| && PageOk(w, g, p)
    requires Basic(Leave(w, h))
    ensures PageOk(Leave(w, h), g, p)
  {
  }

  lemma LeaveKnowledge(w: World, h: nat, g: nat)
    requires Basic(w) && w.inside == Some(h) && h < w.n && g < w.n && Basic(Leave(w, h)) && Knowledge(w, g)
    ensures Knowledge(Leave(w, h), g)
  {
    var v := Leave(w, h);
    assert EntryOk(w.n, |w.cur|, w.log, |w.log| - 1);
    forall j | 0 <= j < v.n
      ensures Knows(v.log, v.mems[g], j, Known(v.log, g))
    {
      assert Knows(w.log, w.mems[g], j, Known(w.log, g));
      assert WithNotices(v.mems[g].procs[j]) == WithNotices(w.mems[g].procs[j]);
    }
  }

  // ----- serving a diff, making a page readable again -----

  ghost function SetEntry(w: World, g: nat, p: nat, e: PageEntry): World
    requires Basic(w) && g < w.n && p < |w.cur|
  {
    w.(mems := w.mems[g := SetPage(w.mems[g], p, e)])
  }

  ghost function Served(w: World, g: nat, ts: Vec, p: nat): World
    requires Basic(w) && g < w.n && p < |w.cur|
  {
    w.(mems := w.mems[g := GrantDiff(w.mems[g], ts, p)])
  }

  ghost function Resumed(w: World, h: nat, p: nat): World
    requires Basic(w) && h < w.n && p < |w.cur|
  {
    w.(mems := w.mems[h := Validate(w.mems[h], p)])
  }

  /** A step that changes one page entry of one host quietly, keeping the timestamps of its notices. */
  lemma EntryKeeps(w: World, g: nat, p: nat, e: PageEntry)
    requires Inv(w) && g < w.n && p < |w.cur|
    requires Quiet(w.mems[g].pages[p], e, g) && PageLocal(e, g, w.n, p)
    requires SameTimes(w.mems[g].pages[p], e)
    requires w.inside == Some(g) && p in Last(w).pages ==> e.state == WRITE
    ensures Inv(SetEntry(w, g, p, e))
  {
    var v := SetEntry(w, g, p, e);
    EntryBasic(w, g, p, e);
    forall h | 0 <= h < v.n
      ensures Knowledge(v, h)
    {
      assert Knowledge(w, h);
      EntryKnowledge(w, g, p, e, h);
    }
    forall h, q | 0 <= h < v.n && 0 <= q < |v.cur|
      ensures PageOk(v, h, q)
    {
      assert PageOk(w, h, q);
      EntryPage(w, g, p, e, h, q);
    }
    QuietKeeps(w, v);
  }

  lemma EntryConserves(w: World, g: nat, p: nat, e: PageEntry)
    requires Inv(w) && Conserving(w) && g < w.n && p < |w.cur| && Quiet(w.mems[g].pages[p], e, g)
    ensures Basic(SetEntry(w, g, p, e)) && Conserving(SetEntry(w, g, p, e))
  {
    EntryBasic(w, g, p, e);
    QuietConserves(w, SetEntry(w, g, p, e));
  }

  ghost predicate SameTimes(e: PageEntry, f: PageEntry) {
    && |e.notices| == |f.notices|
    && forall j :: 0 <= j < |e.notices| ==>
         |e.notices[j]| == |f.notices[j]| &&
           forall i :: 0 <= i < |e.notices[j]| ==> f.notices[j][i].ts == e.notices[j][i].ts
  }

  lemma EntryBasic(w: World, g: nat, p: nat, e: PageEntry)
    requires Basic(w) && g < w.n && p < |w.cur| && Quiet(w.mems[g].pages[p], e, g)
    ensures Basic(SetEntry(w, g, p, e)) && QuietStep(w, SetEntry(w, g, p, e))
  {
    var v := SetEntry(w, g, p, e);
    forall h | 0 <= h < v.n
      ensures MemBasic(v, h)
    {
      assert MemBasic(w, h);
    }
    forall h, q | 0 <= h < v.n && 0 <= q < |v.cur|
      ensures Quiet(w.mems[h].pages[q], v.mems[h].pages[q], h)
    {
      QuietRefl(w.mems[h].pages[q], h);
    }
  }

  lemma EntryKnowledge(w: World, g: nat, p: nat, e: PageEntry, h: nat)
    requires Basic(w) && g < w.n && p < |w.cur| && h < w.n && SameTimes(w.mems[g].pages[p], e)
    requires Knowledge(w, h) && Basic(SetEntry(w, g, p, e))
    ensures Knowledge(SetEntry(w, g, p, e), h)
  {
    var v := SetEntry(w, g, p, e);
    forall j | 0 <= j < v.n
      ensures Knows(v.log, v.mems[h], j, Known(v.log, h))
    {
      assert Knows(w.log, w.mems[h], j, Known(w.log, h));
    }
  }

  lemma EntryPage(w: World, g: nat, p: nat, e: PageEntry, h: nat, q: nat)
    requires Basic(w) && g < w.n && p < |w.cur| && h < w.n && q < |w.cur| && Basic(SetEntry(w, g, p, e))
    requires PageOk(w, h, q) && |e.notices| == w.n && PageLocal(e, g, w.n, p) && e.start == w.mems[g].pages[p].start
    requires w.inside == Some(g) && p in Last(w).pages ==> e.state == WRITE
    ensures PageOk(SetEntry(w, g, p, e), h, q)
  {
  }

  /** Building the diff for a requester, page by page. */
  lemma GrantDiffQuiet(e: PageEntry, me: nat, n: nat, p: nat, ts: Vec)
    requires 0 < n && me < |e.notices| && PageLocal(e, me, n, p)
    ensures var f := GrantDiffEntry(e, me, ts);
            Quiet(e, f, me) && PageLocal(f, me, n, p) && SameTimes(e, f)
  {
    var own, f := e.notices[me], GrantDiffEntry(e, me, ts);
    GrantDiffKeeps(e, me, ts);
    var i := NoticeIdx(own, ts);
    if e.state != MISS && i < |own| && DiffOf(own, ts).None? {
      assert i == 0 && e.state == WRITE;
      SetDiffFound(own, ts, LocalDiff(e));
      forall t | NoticeIdx(own, t) < |own|
        ensures OwnValue(f, me, t) == OwnValue(e, me, t)
        ensures DiffOf(own, t).Some? ==> DiffOf(f.notices[me], t) == DiffOf(own, t)
      {
        if t != ts {
          SetDiffOther(own, ts, LocalDiff(e), t);
          assert NoticeIdx(own, t) != 0;
        }
      }
    }
  }

  lemma ServeKeeps(w: World, g: nat, ts: Vec, p: nat)
    requires Inv(w) && g < w.n && p < |w.cur| && w.inside != Some(g)
    ensures Inv(Served(w, g, ts, p))
  {
    assert PageOk(w, g, p);
    GrantDiffQuiet(w.mems[g].pages[p], g, w.n, p, ts);
    EntryKeeps(w, g, p, GrantDiffEntry(w.mems[g].pages[p], g, ts));
  }

  lemma ServeConserves(w: World, g: nat, ts: Vec, p: nat)
    requires Inv(w) && Conserving(w) && g < w.n && p < |w.cur|
    ensures Basic(Served(w, g, ts, p)) && Conserving(Served(w, g, ts, p))
  {
    assert PageOk(w, g, p);
    GrantDiffQuiet(w.mems[g].pages[p], g, w.n, p, ts);
    EntryConserves(w, g, p, GrantDiffEntry(w.mems[g].pages[p], g, ts));
  }

  /** The end of an INVALID fault, once every known diff has been fetched. */
  lemma ResumeInvalidKeeps(w: World, h: nat, p: nat)
    requires Inv(w) && h < w.n && p < |w.cur| && w.mems[h].pages[p].state == INVALID
    requires UpToDate(w.mems[h].pages[p], h)
    ensures Inv(Resumed(w, h, p))
  {
    assert PageOk(w, h, p);
    EntryKeeps(w, h, p, w.mems[h].pages[p].(state := RDONLY));
  }

  lemma ResumeInvalidConserves(w: World, h: nat, p: nat)
    requires Inv(w) && Conserving(w) && h < w.n && p < |w.cur| && w.mems[h].pages[p].state == INVALID
    ensures Basic(Resumed(w, h, p)) && Conserving(Resumed(w, h, p))
  {
    EntryConserves(w, h, p, w.mems[h].pages[p].(state := RDONLY));
  }
}
