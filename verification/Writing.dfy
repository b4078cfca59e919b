/** Steps that change bytes: the write fault, a store, an arriving page, an arriving diff. */
module Writing {
  import opened Options
  import opened Vectors
  import opened Diffs
  import opened HostMem
  import opened CriticalLog
  import opened PageStates
  import opened World
  import opened QuietSteps

  // ----- one entry of one host -----

  lemma OtherTerm(w: World, h: nat, p: nat, e: PageEntry, g: nat, q: nat, k: nat)
    requires Basic(w) && h < w.n && p < |w.cur| && g < w.n && q < |w.cur| && (g, q) != (h, p) && k < |w.log|
    requires |e.notices| == w.n && SameOwn(w.mems[h].pages[p], e, h) && Basic(SetEntry(w, h, p, e))
    requires Knowledge(w, Writer(w, k)) && Knowledge(w, g)
    ensures Term(SetEntry(w, h, p, e), g, q, k) == Term(w, g, q, k)
    ensures w.log[k].host != g && DiffAgrees(w, g, q, k) ==> DiffAgrees(SetEntry(w, h, p, e), g, q, k)
  {
    var j := Writer(w, k);
    if q in w.log[k].pages {
      OwnNoticeKnown(w, j, q, k);
    }
    if w.log[k].host != g && DiffOf(w.mems[g].pages[q].notices[j], w.log[k].ts).Some? {
      ReceivedIsKnown(w, g, q, k);
    }
  }

  /** The invariant of `w` carries over to every other copy when one entry keeps its own diffs. */
  lemma OtherCopies(w: World, h: nat, p: nat, e: PageEntry, g: nat, q: nat)
    requires Inv(w) && h < w.n && p < |w.cur| && g < w.n && q < |w.cur| && (g, q) != (h, p)
    requires |e.notices| == w.n && SameOwn(w.mems[h].pages[p], e, h) && Basic(SetEntry(w, h, p, e))
    ensures Conserved(w, g, q) ==> Conserved(SetEntry(w, h, p, e), g, q)
    ensures DiffsAgree(SetEntry(w, h, p, e), g, q)
  {
    var v := SetEntry(w, h, p, e);
    assert DiffsAgree(w, g, q);
    forall k | 0 <= k < |w.log|
      ensures Term(v, g, q, k) == Term(w, g, q, k)
      ensures w.log[k].host != g ==> DiffAgrees(v, g, q, k)
    {
      assert Knowledge(w, Writer(w, k)) && Knowledge(w, g);
      assert w.log[k].host != g ==> DiffAgrees(w, g, q, k);
      OtherTerm(w, h, p, e, g, q, k);
    }
    assert Terms(v, g, q) == Terms(w, g, q);
  }

  lemma EntryMems(w: World, h: nat, p: nat, e: PageEntry)
    requires Basic(w) && h < w.n && p < |w.cur| && |e.notices| == w.n
    ensures Basic(SetEntry(w, h, p, e))
  {
    var v := SetEntry(w, h, p, e);
    forall g | 0 <= g < v.n
      ensures MemBasic(v, g)
    {
      assert MemBasic(w, g);
    }
  }

  /** All that is left to show for the changed entry is its own conservation and agreement. */
  lemma EntryInv(w: World, h: nat, p: nat, e: PageEntry)
    requires Inv(w) && h < w.n && p < |w.cur| && |e.notices| == w.n
    requires SameOwn(w.mems[h].pages[p], e, h) && SameTimes(w.mems[h].pages[p], e) && PageLocal(e, h, w.n, p)
    requires e.start == w.mems[h].pages[p].start
    requires w.inside == Some(h) && p in Last(w).pages ==> e.state == WRITE
    requires Basic(SetEntry(w, h, p, e))
    requires DiffsAgree(SetEntry(w, h, p, e), h, p)
    ensures Inv(SetEntry(w, h, p, e))
  {
    var v := SetEntry(w, h, p, e);
    forall g | 0 <= g < v.n
      ensures Knowledge(v, g)
    {
      assert Knowledge(w, g);
      EntryKnowledge(w, h, p, e, g);
    }
    forall g, q | 0 <= g < v.n && 0 <= q < |v.cur|
      ensures PageOk(v, g, q) && DiffsAgree(v, g, q)
    {
      assert PageOk(w, g, q);
      EntryPage(w, h, p, e, g, q);
      if (g, q) != (h, p) {
        OtherCopies(w, h, p, e, g, q);
      }
    }
  }

  lemma EntryCopies(w: World, h: nat, p: nat, e: PageEntry)
    requires Inv(w) && Conserving(w) && h < w.n && p < |w.cur| && |e.notices| == w.n
    requires SameOwn(w.mems[h].pages[p], e, h)
    requires Basic(SetEntry(w, h, p, e)) && Conserved(SetEntry(w, h, p, e), h, p)
    ensures Conserving(SetEntry(w, h, p, e))
  {
    forall g, q | 0 <= g < w.n && 0 <= q < |w.cur|
      ensures Conserved(SetEntry(w, h, p, e), g, q)
    {
      assert Conserved(w, g, q);
      if (g, q) != (h, p) {
        OtherCopies(w, h, p, e, g, q);
      }
    }
  }

  // ----- an arriving diff -----

  ghost function GotDiff(w: World, h: nat, j: nat, ts: Vec, p: nat, d: Page): World
    requires Basic(w) && h < w.n && p < |w.cur| && j < w.n
  {
    w.(mems := w.mems[h := HandleGrantDiff(w.mems[h], j, ts, p, d)])
  }

  /** The diff that is being fetched: known, not yet stored, not in the fetched page, and `d` at its writer. */
  ghost predicate Fetching(w: World, h: nat, j: nat, ts: Vec, p: nat, d: Page)
    requires Basic(w) && h < w.n && p < |w.cur| && j < w.n
  {
    && j != h && w.mems[h].pages[p].state == INVALID
    && NoticeIdx(w.mems[h].pages[p].notices[j], ts) < |w.mems[h].pages[p].notices[j]|
    && DiffOf(w.mems[h].pages[p].notices[j], ts).None?
    && AfterStart(w.mems[h].pages[p].start, ts)
    && DiffOf(w.mems[j].pages[p].notices[j], ts) == Some(d)
  }

  /** The critical section a known notice belongs to. */
  lemma NoticeEntry(w: World, h: nat, j: nat, p: nat, i: nat) returns (k: nat)
    requires Basic(w) && h < w.n && j < w.n && p < |w.cur| && Knowledge(w, h)
    requires i < |w.mems[h].pages[p].notices[j]|
    ensures k < Known(w.log, h) && w.log[k].host == j && p in w.log[k].pages
    ensures w.mems[h].pages[p].notices[j][i].ts == w.log[k].ts
  {
    assert Knows(w.log, w.mems[h], j, Known(w.log, h));
    WritersSpec(w.log, Known(w.log, h), j, p);
    k := Writers(w.log, Known(w.log, h), j, p)[i];
  }

  lemma GotDiffEntry(e: PageEntry, me: nat, n: nat, p: nat, j: nat, ts: Vec, d: Page)
    requires 0 < n && me < |e.notices| && j < |e.notices| && j != me && PageLocal(e, me, n, p) && e.state == INVALID
    requires NoticeIdx(e.notices[j], ts) < |e.notices[j]| && DiffOf(e.notices[j], ts).None?
    ensures var f := HandleGrantDiffEntry(e, j, ts, d);
            && SameOwn(e, f, me) && SameTimes(e, f) && PageLocal(f, me, n, p)
            && f.bytes == Add(e.bytes, d) && f.start == e.start && f.state == INVALID
            && DiffOf(f.notices[j], ts) == Some(d)
            && (forall t :: t != ts ==> DiffOf(f.notices[j], t) == DiffOf(e.notices[j], t))
            && (forall x :: 0 <= x < |e.notices| && x != j ==> f.notices[x] == e.notices[x])
  {
    HandleGrantDiffKeeps(e, me, j, ts, d);
    SetDiffFound(e.notices[j], ts, Some(d));
    forall t | t != ts
      ensures DiffOf(HandleGrantDiffEntry(e, j, ts, d).notices[j], t) == DiffOf(e.notices[j], t)
    {
      SetDiffOther(e.notices[j], ts, Some(d), t);
    }
    var f := HandleGrantDiffEntry(e, j, ts, d);
    var x, i :| 0 <= x < |e.notices| && x != me && 0 <= i < |e.notices[x]| &&
                (e.notices[me] == [] || After(e.notices[x][i].ts, e.notices[me][0].ts));
    assert f.notices[x][i].ts == e.notices[x][i].ts;
    assert f.notices[me] == e.notices[me];
    forall t | NoticeIdx(e.notices[me], t) < |e.notices[me]|
      ensures OwnValue(f, me, t) == OwnValue(e, me, t)
    {
      assert DiffOf(e.notices[me], t).Some?;
    }
  }

  lemma GotDiffTerm(w: World, h: nat, j: nat, ts: Vec, p: nat, d: Page, k: nat, x: nat)
    requires Basic(w) && h < w.n && p < |w.cur| && j < w.n && Fetching(w, h, j, ts, p, d)
    requires PageLocal(w.mems[h].pages[p], h, w.n, p)
    requires k < |w.log| && w.log[k].host == j && w.log[k].ts == ts && x < |w.log|
    requires Basic(GotDiff(w, h, j, ts, p, d))
    ensures x != k ==> Term(GotDiff(w, h, j, ts, p, d), h, p, x) == Term(w, h, p, x)
    ensures w.log[x].host != h && DiffAgrees(w, h, p, x) ==> DiffAgrees(GotDiff(w, h, j, ts, p, d), h, p, x)
  {
    GotDiffEntry(w.mems[h].pages[p], h, w.n, p, j, ts, d);
    LogCompare(w.n, |w.cur|, w.log, x, k);
  }

  lemma GotDiffCopy(w: World, h: nat, j: nat, ts: Vec, p: nat, d: Page, k: nat)
    requires Inv(w) && h < w.n && p < |w.cur| && j < w.n && Fetching(w, h, j, ts, p, d)
    requires k < |w.log| && w.log[k].host == j && p in w.log[k].pages && w.log[k].ts == ts
    requires Basic(GotDiff(w, h, j, ts, p, d))
    ensures Conserved(w, h, p) ==> Conserved(GotDiff(w, h, j, ts, p, d), h, p)
    ensures DiffsAgree(GotDiff(w, h, j, ts, p, d), h, p)
  {
    var v := GotDiff(w, h, j, ts, p, d);
    var e := w.mems[h].pages[p];
    assert PageOk(w, h, p) && DiffsAgree(w, h, p);
    GotDiffEntry(e, h, w.n, p, j, ts, d);
    var a, b := Terms(v, h, p), Terms(w, h, p);
    forall x | 0 <= x < |w.log|
      ensures x != k ==> Term(v, h, p, x) == Term(w, h, p, x)
      ensures w.log[x].host != h ==> DiffAgrees(v, h, p, x)
    {
      assert w.log[x].host != h ==> DiffAgrees(w, h, p, x);
      GotDiffTerm(w, h, j, ts, p, d, k, x);
    }
    AddZero(d);
    assert a[k] == ZeroPage() && b[k] == d;
    TotalChanged(a, b, k, d);
    AddCommutes(Total(a), d);
    AddAssociates(e.bytes, d, Total(a));
  }

  lemma GotDiffKeeps(w: World, h: nat, j: nat, ts: Vec, p: nat, d: Page)
    requires Inv(w) && h < w.n && p < |w.cur| && j < w.n && Fetching(w, h, j, ts, p, d)
    ensures Inv(GotDiff(w, h, j, ts, p, d))
  {
    var e := w.mems[h].pages[p];
    assert Knowledge(w, h) && PageOk(w, h, p);
    var k := NoticeEntry(w, h, j, p, NoticeIdx(e.notices[j], ts));
    var f := HandleGrantDiffEntry(e, j, ts, d);
    EntryMems(w, h, p, f);
    GotDiffEntry(e, h, w.n, p, j, ts, d);
    GotDiffCopy(w, h, j, ts, p, d, k);
    EntryInv(w, h, p, f);
  }

  lemma GotDiffConserves(w: World, h: nat, j: nat, ts: Vec, p: nat, d: Page)
    requires Inv(w) && Conserving(w) && h < w.n && p < |w.cur| && j < w.n && Fetching(w, h, j, ts, p, d)
    ensures Basic(GotDiff(w, h, j, ts, p, d)) && Conserving(GotDiff(w, h, j, ts, p, d))
  {
    var e := w.mems[h].pages[p];
    assert Knowledge(w, h) && PageOk(w, h, p) && Conserved(w, h, p);
    var k := NoticeEntry(w, h, j, p, NoticeIdx(e.notices[j], ts));
    var f := HandleGrantDiffEntry(e, j, ts, d);
    EntryMems(w, h, p, f);
    GotDiffEntry(e, h, w.n, p, j, ts, d);
    GotDiffCopy(w, h, j, ts, p, d, k);
    EntryCopies(w, h, p, f);
  }

  // ----- an arriving page -----

  ghost function GotPage(w: World, h: nat, p: nat, bytes: Page): World
    requires Basic(w) && h < w.n && p < |w.cur|
  {
    w.(mems := w.mems[h := HandleGrantPage(w.mems[h], p, bytes)], missed := w.missed + {p})
  }

  /** A page that a host has never had has no own notices there. */
  lemma MissHasNoWriter(w: World, h: nat, p: nat, k: nat)
    requires Inv(w) && h < w.n && p < |w.cur| && k < |w.log| && w.mems[h].pages[p].state == MISS
    ensures !(w.log[k].host == h && p in w.log[k].pages)
  {
    assert PageOk(w, h, p) && Knowledge(w, h);
    if w.log[k].host == h && p in w.log[k].pages {
      OwnNoticeKnown(w, h, p, k);
    }
  }

  lemma GotPageKeeps(w: World, h: nat, p: nat, bytes: Page)
    requires Inv(w) && w.inside == Some(h) && h < w.n && p < |w.cur| && w.mems[h].pages[p].state == MISS
    ensures Inv(GotPage(w, h, p, bytes))
  {
    var e := w.mems[h].pages[p].(bytes := bytes, start := Some(NowTs(w.mems[h])));
    var u := SetEntry(w, h, p, e);
    var v := GotPage(w, h, p, bytes);
    assert PageOk(w, h, p) && Knowledge(w, h) && DiffsAgree(w, h, p);
    EntryMems(w, h, p, e);
    forall g | 0 <= g < v.n
      ensures Knowledge(v, g)
    {
      assert Knowledge(w, g);
      EntryKnowledge(w, h, p, e, g);
      assert Knowledge(u, g);
      SameKnowledge(u, v, g);
    }
    forall g, q | 0 <= g < v.n && 0 <= q < |v.cur|
      ensures PageOk(v, g, q)
    {
      assert PageOk(w, g, q);
      GotPagePage(w, h, p, bytes, g, q);
    }
    forall g, q | 0 <= g < v.n && 0 <= q < |v.cur|
      ensures DiffsAgree(v, g, q)
    {
      if (g, q) != (h, p) {
        OtherCopies(w, h, p, e, g, q);
        SameAgreement(u, v, g, q);
      } else {
        GotPageAgrees(w, h, p, bytes);
      }
    }
  }

  /** Only the pages recorded as fetched differ. */
  lemma SameConserving(u: World, v: World)
    requires Basic(u) && Basic(v) && u.n == v.n && u.mems == v.mems && u.log == v.log && u.cur == v.cur && Conserving(u)
    ensures Conserving(v)
  {
    forall g, q | 0 <= g < v.n && 0 <= q < |v.cur|
      ensures Conserved(v, g, q)
    {
      assert Conserved(u, g, q);
      assert Terms(v, g, q) == Terms(u, g, q);
    }
  }

  /** While the page is missing nobody reads it: whatever arrives, the copies stay consistent. */
  lemma GotPageConserves(w: World, h: nat, p: nat, bytes: Page)
    requires Inv(w) && Conserving(w) && h < w.n && p < |w.cur| && w.mems[h].pages[p].state == MISS
    ensures Basic(GotPage(w, h, p, bytes)) && Conserving(GotPage(w, h, p, bytes))
  {
    var e := w.mems[h].pages[p].(bytes := bytes, start := Some(NowTs(w.mems[h])));
    var u := SetEntry(w, h, p, e);
    EntryMems(w, h, p, e);
    MissOwn(w, h, p, e);
    EntryCopies(w, h, p, e);
    SameConserving(u, GotPage(w, h, p, bytes));
  }

  lemma MissOwn(w: World, h: nat, p: nat, e: PageEntry)
    requires Inv(w) && h < w.n && p < |w.cur| && w.mems[h].pages[p].state == MISS
    requires e.notices == w.mems[h].pages[p].notices
    ensures |e.notices| == w.n && SameOwn(w.mems[h].pages[p], e, h)
  {
    assert PageOk(w, h, p);
  }

  lemma SameKnowledge(u: World, v: World, g: nat)
    requires Basic(u) && Basic(v) && u.n == v.n && u.mems == v.mems && u.log == v.log && u.inside == v.inside && g < u.n
    requires Knowledge(u, g)
    ensures Knowledge(v, g)
  {
    forall j | 0 <= j < v.n
      ensures Knows(v.log, v.mems[g], j, Known(v.log, g))
    {
      assert Knows(u.log, u.mems[g], j, Known(u.log, g));
    }
  }

  lemma SameAgreement(u: World, v: World, g: nat, q: nat)
    requires Basic(u) && Basic(v) && u.n == v.n && u.mems == v.mems && u.log == v.log && |u.cur| == |v.cur|
    requires g < u.n && q < |u.cur| && DiffsAgree(u, g, q)
    ensures DiffsAgree(v, g, q)
  {
    forall k | 0 <= k < |v.log| && v.log[k].host != g
      ensures DiffAgrees(v, g, q, k)
    {
      assert DiffAgrees(u, g, q, k);
    }
  }

  lemma GotPageAgrees(w: World, h: nat, p: nat, bytes: Page)
    requires Basic(w) && h < w.n && p < |w.cur| && DiffsAgree(w, h, p) && w.mems[h].pages[p].state == MISS
    requires Basic(GotPage(w, h, p, bytes))
    ensures Conserved(GotPage(w, h, p, bytes), h, p) && DiffsAgree(GotPage(w, h, p, bytes), h, p)
  {
    var v := GotPage(w, h, p, bytes);
    forall k | 0 <= k < |v.log| && v.log[k].host != h
      ensures DiffAgrees(v, h, p, k)
    {
      assert DiffAgrees(w, h, p, k);
    }
  }

  lemma GotPagePage(w: World, h: nat, p: nat, bytes: Page, g: nat, q: nat)
    requires Basic(w) && w.inside == Some(h) && h < w.n && p < |w.cur| && g < w.n && q < |w.cur|
    requires Knowledge(w, h) && PageOk(w, g, q) && PageOk(w, h, p) && w.mems[h].pages[p].state == MISS
    requires Basic(GotPage(w, h, p, bytes))
    ensures PageOk(GotPage(w, h, p, bytes), g, q)
  {
  }

  /** Every notice the host knows belongs to a critical section that is not after its current one. */
  lemma NothingAfterNow(w: World, h: nat, p: nat, j: nat, i: nat)
    requires Basic(w) && w.inside == Some(h) && h < w.n && p < |w.cur| && j < w.n && Knowledge(w, h)
    requires i < |w.mems[h].pages[p].notices[j]|
    ensures !After(w.mems[h].pages[p].notices[j][i].ts, Last(w).ts)
  {
    var k := NoticeEntry(w, h, j, p, i);
    LogCompare(w.n, |w.cur|, w.log, k, |w.log| - 1);
  }

  /** The end of a MISS fault. */
  lemma ResumeMissKeeps(w: World, h: nat, p: nat)
    requires Inv(w) && w.inside == Some(h) && h < w.n && p < |w.cur| && w.mems[h].pages[p].state == MISS
    requires w.mems[h].pages[p].start == Some(Last(w).ts)
    ensures Inv(Resumed(w, h, p))
  {
    var f := w.mems[h].pages[p].(state := RDONLY);
    assert PageOk(w, h, p) && Knowledge(w, h) && DiffsAgree(w, h, p);
    EntryMems(w, h, p, f);
    forall j, i | 0 <= j < w.n && j != h && 0 <= i < |f.notices[j]|
      ensures Settled(f.notices[j][i], f.start)
    {
      NothingAfterNow(w, h, p, j, i);
    }
    ResumedCopy(w, h, p);
    EntryInv(w, h, p, f);
  }

  /** The copy is then consistent exactly if the page that arrived was the current one. */
  lemma ResumeMissConserves(w: World, h: nat, p: nat)
    requires Inv(w) && Conserving(w) && w.inside == Some(h) && h < w.n && p < |w.cur|
    requires w.mems[h].pages[p].state == MISS
    requires w.mems[h].pages[p].start == Some(Last(w).ts)
    ensures Basic(Resumed(w, h, p))
    ensures Conserving(Resumed(w, h, p)) <==> w.mems[h].pages[p].bytes == w.cur[p]
  {
    var f := w.mems[h].pages[p].(state := RDONLY);
    assert PageOk(w, h, p) && DiffsAgree(w, h, p);
    EntryMems(w, h, p, f);
    ResumedCopy(w, h, p);
    MissOwn(w, h, p, f);
    if w.mems[h].pages[p].bytes == w.cur[p] {
      EntryCopies(w, h, p, f);
    } else {
      assert !Conserved(Resumed(w, h, p), h, p);
    }
  }

  lemma ResumedCopy(w: World, h: nat, p: nat)
    requires Basic(w) && w.inside == Some(h) && h < w.n && p < |w.cur| && DiffsAgree(w, h, p) && Basic(Resumed(w, h, p))
    requires w.mems[h].pages[p].start == Some(Last(w).ts)
    ensures Conserved(Resumed(w, h, p), h, p) <==> w.mems[h].pages[p].bytes == w.cur[p]
    ensures DiffsAgree(Resumed(w, h, p), h, p)
  {
    var v := Resumed(w, h, p);
    forall k | 0 <= k < |v.log|
      ensures !Pending(v, h, p, k)
    {
      LogCompare(w.n, |w.cur|, w.log, k, |w.log| - 1);
    }
    TotalZero(Terms(v, h, p));
    AddZero(w.mems[h].pages[p].bytes);
    forall k | 0 <= k < |v.log| && v.log[k].host != h
      ensures DiffAgrees(v, h, p, k)
    {
      assert DiffAgrees(w, h, p, k);
    }
  }

  // ----- a store -----

  ghost function Store(w: World, h: nat, p: nat, bytes: Page): World
    requires Basic(w) && h < w.n && p < |w.cur|
  {
    w.(mems := w.mems[h := SetPage(w.mems[h], p, w.mems[h].pages[p].(bytes := bytes))], cur := w.cur[p := bytes])
  }

  /** The critical section of the undiffed notice that records the writer's stores. */
  lemma OpenNotice(w: World, h: nat, p: nat) returns (k: nat)
    requires Basic(w) && h < w.n && p < |w.cur| && w.mems[h].pages[p].state == WRITE
    requires Knowledge(w, h) && PageInv(w.mems[h].pages[p], h)
    ensures k < |w.log| && w.log[k].host == h && p in w.log[k].pages
    ensures w.mems[h].pages[p].notices[h] != [] && w.mems[h].pages[p].notices[h][0].ts == w.log[k].ts
    ensures DiffOf(w.mems[h].pages[p].notices[h], w.log[k].ts).None?
    ensures forall x :: 0 <= x < |w.log| && w.log[x].host == h && p in w.log[x].pages && x != k ==>
                          DiffOf(w.mems[h].pages[p].notices[h], w.log[x].ts).Some?
  {
    var own := w.mems[h].pages[p].notices[h];
    k := NoticeEntry(w, h, h, p, 0);
    assert NoticeIdx(own, w.log[k].ts) == 0;
    forall x | 0 <= x < |w.log| && w.log[x].host == h && p in w.log[x].pages && x != k
      ensures DiffOf(own, w.log[x].ts).Some?
    {
      OwnNoticeKnown(w, h, p, x);
      LogCompare(w.n, |w.cur|, w.log, x, k);
    }
  }

  /**
   Another host's copy lacks the writes of the open notice exactly if it was not fetched as a whole
   since that notice was made: a diff for it cannot have been sent yet.
  */
  lemma OpenNoticePending(w: World, h: nat, p: nat, k: nat, g: nat)
    requires Inv(w) && h < w.n && p < |w.cur| && g < w.n && g != h
    requires k < |w.log| && w.log[k].host == h && p in w.log[k].pages
    requires DiffOf(w.mems[h].pages[p].notices[h], w.log[k].ts).None?
    ensures Pending(w, g, p, k) <==> AfterStart(w.mems[g].pages[p].start, w.log[k].ts)
  {
    assert DiffsAgree(w, g, p) && DiffAgrees(w, g, p, k);
  }

  lemma SubShift(old': Page, new': Page, twin: Page)
    ensures Sub(new', twin) == Add(Sub(old', twin), Sub(new', old'))
  {
    DiffRoundTrip(twin, old', Sub(old', twin));
    DiffRoundTrip(old', new', Sub(new', old'));
    AddAssociates(twin, Sub(old', twin), Sub(new', old'));
    DiffRoundTrip(twin, new', Add(Sub(old', twin), Sub(new', old')));
  }

  /** How one term changes when the holder stores to a WRITE page. */
  lemma StoreTerm(w: World, h: nat, p: nat, bytes: Page, k: nat, g: nat, q: nat, x: nat)
    requires Basic(w) && h < w.n && p < |w.cur| && w.mems[h].pages[p].state == WRITE && g < w.n && q < |w.cur|
    requires PageInv(w.mems[h].pages[p], h)
    requires k < |w.log| && w.log[k].host == h && p in w.log[k].pages
    requires DiffOf(w.mems[h].pages[p].notices[h], w.log[k].ts).None?
    requires forall y :: 0 <= y < |w.log| && w.log[y].host == h && p in w.log[y].pages && y != k ==>
                           DiffOf(w.mems[h].pages[p].notices[h], w.log[y].ts).Some?
    requires Basic(Store(w, h, p, bytes)) && x < |w.log|
    ensures var v := Store(w, h, p, bytes);
            Term(v, g, q, x) == if x == k && q == p && Pending(w, g, p, k)
                                then Add(Term(w, g, p, k), Sub(bytes, w.mems[h].pages[p].bytes))
                                else Term(w, g, q, x)
  {
    var v := Store(w, h, p, bytes);
    var e := w.mems[h].pages[p];
    assert Pending(v, g, q, x) == Pending(w, g, q, x);
    if q == p && p in w.log[x].pages && w.log[x].host == h && x == k {
      SubShift(e.bytes, bytes, e.twin.value);
    }
  }

  lemma StoreBasic(w: World, h: nat, p: nat, bytes: Page)
    requires Basic(w) && h < w.n && p < |w.cur|
    ensures Basic(Store(w, h, p, bytes))
  {
    var v := Store(w, h, p, bytes);
    forall g | 0 <= g < v.n
      ensures MemBasic(v, g)
    {
      assert MemBasic(w, g);
    }
  }

  /** Adding the stored difference to the pending sum moves copy plus sum from the old bytes to the new. */
  lemma SumMoves(copy: Page, sum: Page, old': Page, bytes: Page)
    requires Add(copy, sum) == old'
    ensures Add(copy, Add(sum, Sub(bytes, old'))) == bytes
  {
    DiffRoundTrip(old', bytes, Sub(bytes, old'));
    AddAssociates(copy, sum, Sub(bytes, old'));
  }

  /** A store changes the open notice's diff and nothing else. */
  lemma StoreTerms(w: World, h: nat, p: nat, bytes: Page, g: nat, q: nat) returns (k: nat)
    requires Inv(w) && h < w.n && p < |w.cur| && w.mems[h].pages[p].state == WRITE
    requires g < w.n && q < |w.cur| && Basic(Store(w, h, p, bytes))
    ensures k < |w.log| && w.mems[h].pages[p].notices[h] != [] && w.mems[h].pages[p].notices[h][0].ts == w.log[k].ts
    ensures g != h ==> (Pending(w, g, p, k) <==> AfterStart(w.mems[g].pages[p].start, w.log[k].ts))
    ensures g == h ==> !Pending(w, g, p, k)
    ensures forall x :: 0 <= x < |w.log| ==>
      Term(Store(w, h, p, bytes), g, q, x) == StoredTerm(w, h, p, bytes, g, q, k, x)
  {
    assert PageOk(w, h, p) && Knowledge(w, h);
    k := OpenNotice(w, h, p);
    if g != h {
      OpenNoticePending(w, h, p, k, g);
    }
    forall x | 0 <= x < |w.log|
      ensures Term(Store(w, h, p, bytes), g, q, x) == StoredTerm(w, h, p, bytes, g, q, k, x)
    {
      StoreTerm(w, h, p, bytes, k, g, q, x);
    }
  }

  /** What a store under open notice `k` makes of one term. */
  ghost function StoredTerm(w: World, h: nat, p: nat, bytes: Page, g: nat, q: nat, k: nat, x: nat): Page
    requires Basic(w) && h < w.n && p < |w.cur| && g < w.n && q < |w.cur| && k < |w.log| && x < |w.log|
  {
    if x == k && q == p && Pending(w, g, p, k)
    then Add(Term(w, g, p, k), Sub(bytes, w.mems[h].pages[p].bytes))
    else Term(w, g, q, x)
  }

  /** Whether a store to `p` leaves host `g`'s copy of `q` with a sum that can still become current. */
  ghost predicate Recoverable(w: World, h: nat, p: nat, bytes: Page, g: nat, q: nat)
    requires Basic(w) && h < w.n && p < |w.cur| && g < w.n && q < |w.cur|
  {
    q == p && g != h && w.mems[g].pages[p].state != MISS && bytes != w.cur[p] ==>
      w.mems[h].pages[p].notices[h] != [] && AfterStart(w.mems[g].pages[p].start, w.mems[h].pages[p].notices[h][0].ts)
  }

  lemma StoreConservesIff(w: World, h: nat, p: nat, bytes: Page, g: nat, q: nat)
    requires Inv(w) && w.inside == Some(h) && h < w.n && p < |w.cur| && w.mems[h].pages[p].state == WRITE
    requires g < w.n && q < |w.cur| && Basic(Store(w, h, p, bytes)) && Conserved(w, h, p) && Conserved(w, g, q)
    ensures Conserved(Store(w, h, p, bytes), g, q) <==> Recoverable(w, h, p, bytes, g, q)
  {
    var k := StoreTerms(w, h, p, bytes, g, q);
    HolderReadsCurrent(w, h, p);
    StoredSum(w, h, p, bytes, g, q, k);
  }

  lemma StoredSum(w: World, h: nat, p: nat, bytes: Page, g: nat, q: nat, k: nat)
    requires Basic(w) && h < w.n && p < |w.cur| && g < w.n && q < |w.cur| && Basic(Store(w, h, p, bytes)) && k < |w.log|
    requires w.mems[h].pages[p].bytes == w.cur[p] && w.mems[h].pages[p].state == WRITE && Conserved(w, g, q)
    requires g == h ==> !Pending(w, g, p, k)
    requires forall x :: 0 <= x < |w.log| ==>
      Term(Store(w, h, p, bytes), g, q, x) == StoredTerm(w, h, p, bytes, g, q, k, x)
    ensures Conserved(Store(w, h, p, bytes), g, q) <==>
              (q == p && g != h && w.mems[g].pages[p].state != MISS && bytes != w.cur[p] ==> Pending(w, g, p, k))
  {
    var a, b := Terms(w, g, q), Terms(Store(w, h, p, bytes), g, q);
    if q == p && Pending(w, g, p, k) {
      TotalChanged(a, b, k, Sub(bytes, w.cur[p]));
      if w.mems[g].pages[p].state != MISS {
        SumMoves(w.mems[g].pages[p].bytes, Total(a), w.cur[p], bytes);
      }
    } else {
      assert a == b;
      if q == p && g == h {
        CopyIsCurrent(w.cur[p], Total(a), bytes);
      }
    }
  }

  lemma CopyIsCurrent(copy: Page, rest: Page, bytes: Page)
    requires Add(copy, rest) == copy
    ensures Add(bytes, rest) == bytes
  {
    AddZero(copy);
    AddZero(bytes);
    DiffRoundTrip(copy, copy, rest);
  }

  /** A store leaves every copy recoverable. */
  ghost predicate SafeStore(w: World, h: nat, p: nat, bytes: Page)
    requires Basic(w) && h < w.n && p < |w.cur|
  {
    bytes == w.cur[p] ||
    (w.mems[h].pages[p].notices[h] != [] &&
     forall g :: 0 <= g < w.n && g != h && w.mems[g].pages[p].state != MISS ==>
       AfterStart(w.mems[g].pages[p].start, w.mems[h].pages[p].notices[h][0].ts))
  }

  /** Whatever is stored, the invariant is kept. */
  lemma StoreKeeps(w: World, h: nat, p: nat, bytes: Page)
    requires Inv(w) && w.inside == Some(h) && h < w.n && p < |w.cur| && w.mems[h].pages[p].state == WRITE
    ensures Inv(Store(w, h, p, bytes))
  {
    var v := Store(w, h, p, bytes);
    var e := w.mems[h].pages[p].(bytes := bytes);
    StoreBasic(w, h, p, bytes);
    EntryMems(w, h, p, e);
    forall g | 0 <= g < v.n
      ensures Knowledge(v, g)
    {
      assert Knowledge(w, g);
      EntryKnowledge(w, h, p, e, g);
      SameKnowledge(SetEntry(w, h, p, e), v, g);
    }
    forall g, q | 0 <= g < v.n && 0 <= q < |v.cur|
      ensures PageOk(v, g, q) && DiffsAgree(v, g, q)
    {
      assert PageOk(w, g, q) && DiffsAgree(w, g, q);
      StorePage(w, h, p, bytes, g, q);
      forall k | 0 <= k < |v.log| && v.log[k].host != g
        ensures DiffAgrees(v, g, q, k)
      {
        assert DiffAgrees(w, g, q, k);
      }
    }
  }

  /**
   Exactly when a store leaves all copies recoverable: it changes nothing, or no other host has fetched
   the page as a whole since the writer's open notice was made. `grantPage` leaves the page WRITE, so
   such a fetch already contains writes of the open notice, and later ones are never announced.
  */
  lemma StoreSafeIff(w: World, h: nat, p: nat, bytes: Page)
    requires Inv(w) && Conserving(w) && w.inside == Some(h) && h < w.n && p < |w.cur|
    requires w.mems[h].pages[p].state == WRITE
    ensures Basic(Store(w, h, p, bytes))
    ensures Conserving(Store(w, h, p, bytes)) <==> SafeStore(w, h, p, bytes)
  {
    StoreBasic(w, h, p, bytes);
    assert PageOk(w, h, p);
    SafeIsRecoverable(w, h, p, bytes);
    forall g, q | 0 <= g < w.n && 0 <= q < |w.cur|
      ensures Conserved(Store(w, h, p, bytes), g, q) <==> Recoverable(w, h, p, bytes, g, q)
    {
      assert Conserved(w, g, q) && Conserved(w, h, p);
      StoreConservesIff(w, h, p, bytes, g, q);
    }
  }

  lemma SafeIsRecoverable(w: World, h: nat, p: nat, bytes: Page)
    requires Basic(w) && h < w.n && p < |w.cur| && w.mems[h].pages[p].notices[h] != []
    ensures SafeStore(w, h, p, bytes) <==> forall g :: 0 <= g < w.n ==> Recoverable(w, h, p, bytes, g, p)
    ensures forall g, q :: 0 <= g < w.n && 0 <= q < |w.cur| && q != p ==> Recoverable(w, h, p, bytes, g, q)
  {
    if forall g :: 0 <= g < w.n ==> Recoverable(w, h, p, bytes, g, p) {
      forall g | 0 <= g < w.n && g != h && w.mems[g].pages[p].state != MISS && bytes != w.cur[p]
        ensures AfterStart(w.mems[g].pages[p].start, w.mems[h].pages[p].notices[h][0].ts)
      {
        assert Recoverable(w, h, p, bytes, g, p);
      }
    }
  }

  lemma BytesLocal(e: PageEntry, bytes: Page, me: nat, n: nat, p: nat)
    requires 0 < n && me < |e.notices| && PageLocal(e, me, n, p)
    ensures PageLocal(e.(bytes := bytes), me, n, p)
  {
    var f := e.(bytes := bytes);
    if f.state == INVALID {
      var j, i :| 0 <= j < |e.notices| && j != me && 0 <= i < |e.notices[j]| &&
                  (e.notices[me] == [] || After(e.notices[j][i].ts, e.notices[me][0].ts));
      assert f.notices[j][i] == e.notices[j][i];
    }
  }

  lemma SamePage(u: World, v: World, g: nat, q: nat)
    requires Basic(u) && Basic(v) && u.n == v.n && u.mems == v.mems && u.log == v.log && |u.cur| == |v.cur|
    requires u.inside == v.inside && g < u.n && q < |u.cur| && PageOk(u, g, q)
    ensures PageOk(v, g, q)
  {
  }

  lemma StorePage(w: World, h: nat, p: nat, bytes: Page, g: nat, q: nat)
    requires Inv(w) && h < w.n && p < |w.cur| && g < w.n && q < |w.cur|
    requires Basic(Store(w, h, p, bytes))
    ensures PageOk(Store(w, h, p, bytes), g, q)
  {
    var e := w.mems[h].pages[p].(bytes := bytes);
    assert PageOk(w, g, q) && PageOk(w, h, p);
    BytesLocal(w.mems[h].pages[p], bytes, h, w.n, p);
    EntryMems(w, h, p, e);
    EntryPage(w, h, p, e, g, q);
    SamePage(SetEntry(w, h, p, e), Store(w, h, p, bytes), g, q);
  }

  // ----- the write fault -----

  ghost function WriteFaulted(w: World, h: nat, p: nat): World
    requires Basic(w) && h < w.n && p < |w.cur| && w.log != []
  {
    w.(mems := w.mems[h := WriteFault(w.mems[h], p)],
       log := w.log[|w.log| - 1 := Last(w).(pages := Last(w).pages + [p])])
  }

  /** The write fault appends the page to the open interval and makes an undiffed notice. */
  lemma FaultEffect(w: World, h: nat, p: nat)
    requires Inv(w) && w.inside == Some(h) && h < w.n && p < |w.cur| && w.mems[h].pages[p].state == RDONLY
    ensures var m, r := w.mems[h], WriteFault(w.mems[h], p);
            && r.me == h && r.n == w.n && r.now == m.now && |r.pages| == |m.pages|
            && r.procs == m.procs[h := m.procs[h][0 := AsInterval(Last(w)).(pages := Last(w).pages + [p])]]
            && (forall q :: 0 <= q < |m.pages| && q != p ==> r.pages[q] == m.pages[q])
            && r.pages[p] == m.pages[p].(state := WRITE, twin := Some(m.pages[p].bytes),
                                         notices := m.pages[p].notices[h := [Notice(Last(w).ts, None)]
                                           + m.pages[p].notices[h]])
    ensures p !in Last(w).pages
  {
    assert Knowledge(w, h) && PageOk(w, h, p);
    WriteFaultKeeps(w.mems[h], p);
  }

  /** The history with one more page written in its last critical section. */
  ghost function Extended(log: seq<CS>, p: nat): seq<CS>
    requires log != []
  {
    var last := |log| - 1;
    log[last := log[last].(pages := log[last].pages + [p])]
  }

  lemma ExtendedLog(n: nat, pageCount: nat, log: seq<CS>, p: nat)
    requires LogOk(n, pageCount, log) && log != [] && p < pageCount && p !in log[|log| - 1].pages
    ensures LogOk(n, pageCount, Extended(log, p))
  {
    forall k | 0 <= k < |log|
      ensures EntryOk(n, pageCount, Extended(log, p), k) && StartsAbove(n, Extended(log, p), k)
    {
      assert EntryOk(n, pageCount, log, k) && StartsAbove(n, log, k);
    }
  }

  lemma FaultBasic(w: World, h: nat, p: nat)
    requires Inv(w) && w.inside == Some(h) && h < w.n && p < |w.cur| && w.mems[h].pages[p].state == RDONLY
    ensures Basic(WriteFaulted(w, h, p))
  {
    var v := WriteFaulted(w, h, p);
    FaultEffect(w, h, p);
    forall g | 0 <= g < v.n
      ensures MemBasic(v, g)
    {
      assert MemBasic(w, g);
    }
    ExtendedLog(w.n, |w.cur|, w.log, p);
    assert v.log == Extended(w.log, p);
  }

  lemma ExtendedOwn(log: seq<CS>, p: nat, list: seq<Interval>)
    requires log != [] && list != [] && list[0] == AsInterval(log[|log| - 1])
    requires WithNotices(list) == KnownList(log, |log|, log[|log| - 1].host)
    ensures WithNotices(list[0 := AsInterval(Extended(log, p)[|log| - 1])])
            == KnownList(Extended(log, p), |log|, log[|log| - 1].host)
  {
    var last := |log| - 1;
    var list' := list[0 := AsInterval(Extended(log, p)[last])];
    SameList(log, Extended(log, p), last, log[last].host);
    assert list'[1..] == list[1..];
    if log[last].pages == [] {
      assert WithNotices(list[1..]) == KnownList(log, last, log[last].host);
    } else {
      assert WithNotices(list)[1..] == WithNotices(list[1..]);
      assert KnownList(log, |log|, log[last].host)[1..] == KnownList(log, last, log[last].host);
    }
  }

  lemma ExtendedOther(log: seq<CS>, p: nat, j: nat)
    requires log != [] && log[|log| - 1].host != j
    ensures KnownList(Extended(log, p), |log|, j) == KnownList(log, |log|, j)
  {
    SameList(log, Extended(log, p), |log| - 1, j);
  }

  lemma ExtendedWriters(log: seq<CS>, p: nat, j: nat, q: nat)
    requires log != [] && p !in log[|log| - 1].pages
    ensures Writers(Extended(log, p), |log|, j, q)
            == (if j == log[|log| - 1].host && q == p then [|log| - 1] else []) + Writers(log, |log|, j, q)
  {
    var last := |log| - 1;
    SameWriters(log, Extended(log, p), last, j, q);
    assert [] + Writers(log, |log|, j, q) == Writers(log, |log|, j, q);
  }

  lemma FaultList(w: World, h: nat, p: nat, j: nat)
    requires Inv(w) && w.inside == Some(h) && h < w.n && p < |w.cur| && w.mems[h].pages[p].state == RDONLY && j < w.n
    requires Basic(WriteFaulted(w, h, p))
    ensures var v := WriteFaulted(w, h, p);
            && (j != h ==> v.mems[h].procs[j] == KnownList(v.log, |w.log|, j))
            && WithNotices(v.mems[h].procs[j]) == KnownList(v.log, |w.log|, j)
  {
    FaultEffect(w, h, p);
    assert Knowledge(w, h) && Known(w.log, h) == |w.log|;
    assert Knows(w.log, w.mems[h], j, |w.log|);
    assert WriteFaulted(w, h, p).log == Extended(w.log, p);
    if j == h {
      ExtendedOwn(w.log, p, w.mems[h].procs[h]);
    } else {
      ExtendedOther(w.log, p, j);
    }
  }

  lemma ExtendedMatch(log: seq<CS>, p: nat, j: nat, q: nat, list: seq<Notice>)
    requires log != [] && p !in log[|log| - 1].pages && NoticesMatch(log, |log|, j, q, list)
    ensures NoticesMatch(Extended(log, p), |log|, j, q,
                         (if j == log[|log| - 1].host && q == p then [Notice(log[|log| - 1].ts, None)] else []) + list)
  {
    ExtendedWriters(log, p, j, q);
  }

  lemma FaultNotices(w: World, h: nat, p: nat, j: nat, q: nat)
    requires Inv(w) && w.inside == Some(h) && h < w.n && p < |w.cur| && w.mems[h].pages[p].state == RDONLY && j < w.n
    requires Basic(WriteFaulted(w, h, p)) && q < |w.cur|
    ensures NoticesMatch(WriteFaulted(w, h, p).log, |w.log|, j, q, WriteFaulted(w, h, p).mems[h].pages[q].notices[j])
  {
    FaultEffect(w, h, p);
    assert Knowledge(w, h) && Known(w.log, h) == |w.log|;
    assert Knows(w.log, w.mems[h], j, |w.log|);
    var list := w.mems[h].pages[q].notices[j];
    ExtendedMatch(w.log, p, j, q, list);
    assert WriteFaulted(w, h, p).log == Extended(w.log, p);
    assert [] + list == list;
  }

  lemma FaultKnows(w: World, h: nat, p: nat, j: nat)
    requires Inv(w) && w.inside == Some(h) && h < w.n && p < |w.cur| && w.mems[h].pages[p].state == RDONLY && j < w.n
    requires Basic(WriteFaulted(w, h, p))
    ensures Knows(WriteFaulted(w, h, p).log, WriteFaulted(w, h, p).mems[h], j, |w.log|)
  {
    FaultList(w, h, p, j);
    forall q | 0 <= q < |w.cur|
      ensures NoticesMatch(WriteFaulted(w, h, p).log, |w.log|, j, q, WriteFaulted(w, h, p).mems[h].pages[q].notices[j])
    {
      FaultNotices(w, h, p, j, q);
    }
  }

  lemma FaultKnown(w: World, h: nat, p: nat, g: nat)
    requires Basic(w) && h < w.n && p < |w.cur| && w.log != []
    ensures Known(WriteFaulted(w, h, p).log, g) == Known(w.log, g)
  {
    var last := |w.log| - 1;
    assert WriteFaulted(w, h, p).log[..last] == w.log[..last];
  }

  lemma FaultOtherKnows(w: World, h: nat, p: nat, g: nat, j: nat)
    requires Basic(w) && w.inside == Some(h) && h < w.n && p < |w.cur| && g < w.n && g != h && j < w.n
    requires Knowledge(w, g)
    requires Basic(WriteFaulted(w, h, p))
    ensures Knows(WriteFaulted(w, h, p).log, WriteFaulted(w, h, p).mems[g], j, Known(w.log, g))
  {
    assert Known(w.log, g) <= |w.log| - 1;
    assert Knows(w.log, w.mems[g], j, Known(w.log, g));
    KnowsPrefix(w.log, WriteFaulted(w, h, p).log, w.mems[g], j, Known(w.log, g));
  }

  lemma FaultKnowsAll(w: World, h: nat, p: nat, g: nat, j: nat)
    requires Inv(w) && w.inside == Some(h) && h < w.n && p < |w.cur| && w.mems[h].pages[p].state == RDONLY
    requires g < w.n && j < w.n
    requires Basic(WriteFaulted(w, h, p))
    ensures Knows(WriteFaulted(w, h, p).log, WriteFaulted(w, h, p).mems[g], j, Known(w.log, g))
  {
    if g == h {
      assert Known(w.log, h) == |w.log|;
      FaultKnows(w, h, p, j);
    } else {
      assert Knowledge(w, g);
      FaultOtherKnows(w, h, p, g, j);
    }
  }

  lemma FaultKnowledge(w: World, h: nat, p: nat, g: nat)
    requires Inv(w) && w.inside == Some(h) && h < w.n && p < |w.cur| && w.mems[h].pages[p].state == RDONLY && g < w.n
    requires Basic(WriteFaulted(w, h, p))
    ensures Known(WriteFaulted(w, h, p).log, g) == Known(w.log, g)
    ensures Knowledge(WriteFaulted(w, h, p), g)
  {
    assert Knowledge(w, g);
    FaultKnown(w, h, p, g);
    FaultEffect(w, h, p);
    forall j | 0 <= j < w.n
      ensures Knows(WriteFaulted(w, h, p).log, WriteFaulted(w, h, p).mems[g], j, Known(w.log, g))
    {
      FaultKnowsAll(w, h, p, g, j);
    }
  }

  lemma KnowsPrefix(a: seq<CS>, b: seq<CS>, m: Mem, j: nat, upto: nat)
    requires Wf(m) && j < m.n && upto <= |a| && upto <= |b| && Knows(a, m, j, upto)
    requires forall k :: 0 <= k < upto ==> a[k] == b[k]
    ensures Knows(b, m, j, upto)
  {
    SameList(a, b, upto, j);
    forall p | 0 <= p < |m.pages|
      ensures NoticesMatch(b, upto, j, p, m.pages[p].notices[j])
    {
      assert NoticesMatch(a, upto, j, p, m.pages[p].notices[j]);
      SameWriters(a, b, upto, j, p);
    }
  }

  /** Every notice of another host that the writer knows is older than the open critical section. */
  lemma ForeignOlder(w: World, h: nat, p: nat, j: nat, i: nat)
    requires Inv(w) && w.inside == Some(h) && h < w.n && p < |w.cur| && j < w.n && j != h
    requires i < |w.mems[h].pages[p].notices[j]|
    ensures w.log != [] && After(Last(w).ts, w.mems[h].pages[p].notices[j][i].ts)
  {
    assert Knowledge(w, h);
    var k := NoticeEntry(w, h, j, p, i);
    LogCompare(w.n, |w.cur|, w.log, |w.log| - 1, k);
  }

  /** A page that becomes WRITE, with a twin and a notice newer than all others. */
  lemma BecomesWritten(e: PageEntry, f: PageEntry, me: nat, n: nat, p: nat, ts: Vec)
    requires 0 < n && me < |e.notices| && e.state == RDONLY && PageLocal(e, me, n, p)
    requires f == e.(state := WRITE, twin := Some(e.bytes),
                     notices := e.notices[me := [Notice(ts, None)] + e.notices[me]])
    requires forall j, i :: 0 <= j < |e.notices| && j != me && 0 <= i < |e.notices[j]| ==>
               After(ts, e.notices[j][i].ts)
    requires PageInv(f, me)
    ensures PageLocal(f, me, n, p)
  {
    forall j, i | 0 <= j < |f.notices| && j != me && 0 <= i < |f.notices[j]|
      ensures After(f.notices[me][0].ts, f.notices[j][i].ts) && Settled(f.notices[j][i], f.start)
    {
      assert f.notices[j] == e.notices[j];
      assert Settled(e.notices[j][i], e.start);
    }
  }

  lemma FaultLocal(w: World, h: nat, p: nat)
    requires Inv(w) && w.inside == Some(h) && h < w.n && p < |w.cur| && w.mems[h].pages[p].state == RDONLY
    requires Basic(WriteFaulted(w, h, p))
    ensures PageLocal(WriteFaulted(w, h, p).mems[h].pages[p], h, w.n, p)
  {
    assert PageOk(w, h, p) && Knowledge(w, h);
    FaultEffect(w, h, p);
    WriteFaultKeeps(w.mems[h], p);
    var e := w.mems[h].pages[p];
    forall j, i | 0 <= j < |e.notices| && j != h && 0 <= i < |e.notices[j]|
      ensures After(Last(w).ts, e.notices[j][i].ts)
    {
      ForeignOlder(w, h, p, j, i);
    }
    BecomesWritten(e, WriteFaulted(w, h, p).mems[h].pages[p], h, w.n, p, Last(w).ts);
  }

  lemma FaultPage(w: World, h: nat, p: nat, g: nat, q: nat)
    requires Inv(w) && w.inside == Some(h) && h < w.n && p < |w.cur| && w.mems[h].pages[p].state == RDONLY
    requires Basic(WriteFaulted(w, h, p)) && g < w.n && q < |w.cur|
    ensures PageOk(WriteFaulted(w, h, p), g, q)
  {
    var v := WriteFaulted(w, h, p);
    assert PageOk(w, g, q) && PageOk(w, h, p);
    FaultEffect(w, h, p);
    FaultLocal(w, h, p);
  }

  /** What a write fault changes. */
  ghost predicate FaultShape(w: World, h: nat, p: nat)
    requires Basic(w) && h < w.n && p < |w.cur| && w.log != []
  {
    var m, r := w.mems[h], WriteFault(w.mems[h], p);
    && Basic(WriteFaulted(w, h, p)) && Last(w).host == h && p !in Last(w).pages && |r.pages| == |m.pages|
    && (forall q :: 0 <= q < |m.pages| && q != p ==> r.pages[q] == m.pages[q])
    && r.pages[p] == m.pages[p].(state := WRITE, twin := Some(m.pages[p].bytes),
                                 notices := m.pages[p].notices[h := [Notice(Last(w).ts, None)] + m.pages[p].notices[h]])
  }

  lemma FaultShaped(w: World, h: nat, p: nat)
    requires Inv(w) && w.inside == Some(h) && h < w.n && p < |w.cur| && w.mems[h].pages[p].state == RDONLY
    ensures FaultShape(w, h, p)
  {
    FaultEffect(w, h, p);
    FaultBasic(w, h, p);
  }

  lemma BehindHead(nt: Notice, list: seq<Notice>, ts: Vec)
    requires nt.ts != ts
    ensures DiffOf([nt] + list, ts) == DiffOf(list, ts)
  {
    assert ([nt] + list)[1..] == list;
  }

  /** The new notice has an empty diff so far. */
  lemma FaultTermLast(w: World, h: nat, p: nat, g: nat, q: nat)
    requires Basic(w) && h < w.n && p < |w.cur| && w.log != [] && FaultShape(w, h, p) && g < w.n && q < |w.cur|
    ensures Term(WriteFaulted(w, h, p), g, q, |w.log| - 1) == Term(w, g, q, |w.log| - 1)
  {
    var v := WriteFaulted(w, h, p);
    if q == p {
      assert DiffOf(v.mems[h].pages[p].notices[h], Last(w).ts).None?;
      AddZero(w.mems[h].pages[p].bytes);
      assert Value(v, p, |w.log| - 1) == ZeroPage();
    } else {
      assert v.mems[h].pages[q] == w.mems[h].pages[q];
      assert v.mems[g].pages[q] == w.mems[g].pages[q];
    }
  }

  lemma FaultValue(w: World, h: nat, p: nat, q: nat, k: nat)
    requires Basic(w) && h < w.n && p < |w.cur| && w.log != [] && FaultShape(w, h, p) && Knowledge(w, h)
    requires PageInv(w.mems[h].pages[p], h) && w.mems[h].pages[p].state == RDONLY
    requires q < |w.cur| && k < |w.log| - 1 && q in w.log[k].pages
    ensures Value(WriteFaulted(w, h, p), q, k) == Value(w, q, k)
  {
    if q == p && w.log[k].host == h {
      LogCompare(w.n, |w.cur|, w.log, k, |w.log| - 1);
      OwnNoticeKnown(w, h, p, k);
      BehindHead(Notice(Last(w).ts, None), w.mems[h].pages[p].notices[h], w.log[k].ts);
    }
  }

  lemma FaultPending(w: World, h: nat, p: nat, g: nat, q: nat, k: nat)
    requires Basic(w) && h < w.n && p < |w.cur| && w.log != [] && FaultShape(w, h, p) && g < w.n && q < |w.cur|
    requires k < |w.log| - 1
    ensures Pending(WriteFaulted(w, h, p), g, q, k) <==> Pending(w, g, q, k)
  {
  }

  lemma FaultTermEarlier(w: World, h: nat, p: nat, g: nat, q: nat, k: nat)
    requires Basic(w) && h < w.n && p < |w.cur| && w.log != [] && FaultShape(w, h, p) && Knowledge(w, h)
    requires PageInv(w.mems[h].pages[p], h) && w.mems[h].pages[p].state == RDONLY && g < w.n && q < |w.cur|
    requires k < |w.log| - 1
    ensures Term(WriteFaulted(w, h, p), g, q, k) == Term(w, g, q, k)
  {
    FaultPending(w, h, p, g, q, k);
    if Pending(w, g, q, k) {
      FaultValue(w, h, p, q, k);
    }
  }

  lemma FaultTerm(w: World, h: nat, p: nat, g: nat, q: nat, k: nat)
    requires Basic(w) && h < w.n && p < |w.cur| && w.log != [] && FaultShape(w, h, p) && Knowledge(w, h)
    requires PageInv(w.mems[h].pages[p], h) && w.mems[h].pages[p].state == RDONLY && g < w.n && q < |w.cur|
    requires k < |w.log|
    ensures Term(WriteFaulted(w, h, p), g, q, k) == Term(w, g, q, k)
  {
    if k == |w.log| - 1 {
      FaultTermLast(w, h, p, g, q);
    } else {
      FaultTermEarlier(w, h, p, g, q, k);
    }
  }

  /** The diffs of the writer's older notices stay where they are. */
  lemma FaultKeepsDiff(w: World, h: nat, p: nat, k: nat)
    requires Basic(w) && h < w.n && p < |w.cur| && w.log != [] && FaultShape(w, h, p) && k < |w.log| - 1
    ensures DiffOf(WriteFaulted(w, h, p).mems[h].pages[p].notices[h], w.log[k].ts)
            == DiffOf(w.mems[h].pages[p].notices[h], w.log[k].ts)
  {
    LogCompare(w.n, |w.cur|, w.log, k, |w.log| - 1);
    BehindHead(Notice(Last(w).ts, None), w.mems[h].pages[p].notices[h], w.log[k].ts);
  }

  lemma FaultAgrees(w: World, h: nat, p: nat, g: nat, q: nat, k: nat)
    requires Basic(w) && h < w.n && p < |w.cur| && w.log != [] && FaultShape(w, h, p)
    requires g < w.n && q < |w.cur| && k < |w.log| && w.log[k].host != g && Knowledge(w, g) && DiffAgrees(w, g, q, k)
    ensures DiffAgrees(WriteFaulted(w, h, p), g, q, k)
  {
    var j := Writer(w, k);
    assert WriteFaulted(w, h, p).mems[g].pages[q].notices[j] == w.mems[g].pages[q].notices[j];
    if DiffOf(w.mems[g].pages[q].notices[j], w.log[k].ts).Some? {
      ReceivedIsKnown(w, g, q, k);
      if j == h && q == p {
        FaultKeepsDiff(w, h, p, k);
      }
    }
  }

  lemma SameTerms(u: World, v: World, g: nat, q: nat)
    requires Basic(u) && Basic(v) && u.n == v.n && |u.log| == |v.log| && u.cur == v.cur && g < u.n && q < |u.cur|
    requires v.mems[g].pages[q].bytes == u.mems[g].pages[q].bytes
    requires v.mems[g].pages[q].state == MISS ==> u.mems[g].pages[q].state == MISS
    requires u.mems[g].pages[q].state == MISS ==> v.mems[g].pages[q].state == MISS
    requires forall k :: 0 <= k < |u.log| ==> Term(v, g, q, k) == Term(u, g, q, k)
    ensures Conserved(u, g, q) ==> Conserved(v, g, q)
  {
    assert Terms(v, g, q) == Terms(u, g, q);
  }

  lemma FaultCopy(w: World, h: nat, p: nat, g: nat, q: nat)
    requires Inv(w) && w.inside == Some(h) && h < w.n && p < |w.cur| && w.mems[h].pages[p].state == RDONLY
    requires Basic(WriteFaulted(w, h, p)) && g < w.n && q < |w.cur|
    ensures Conserved(w, g, q) ==> Conserved(WriteFaulted(w, h, p), g, q)
  {
    var v := WriteFaulted(w, h, p);
    FaultShaped(w, h, p);
    assert Knowledge(w, h) && PageOk(w, h, p);
    forall k | 0 <= k < |w.log|
      ensures Term(v, g, q, k) == Term(w, g, q, k)
    {
      FaultTerm(w, h, p, g, q, k);
    }
    SameTerms(w, v, g, q);
  }

  lemma FaultAgreesAll(w: World, h: nat, p: nat, g: nat, q: nat)
    requires Inv(w) && w.inside == Some(h) && h < w.n && p < |w.cur| && w.mems[h].pages[p].state == RDONLY
    requires Basic(WriteFaulted(w, h, p)) && g < w.n && q < |w.cur|
    ensures DiffsAgree(WriteFaulted(w, h, p), g, q)
  {
    var v := WriteFaulted(w, h, p);
    FaultShaped(w, h, p);
    assert Knowledge(w, g) && DiffsAgree(w, g, q);
    forall k | 0 <= k < |v.log| && v.log[k].host != g
      ensures DiffAgrees(v, g, q, k)
    {
      assert DiffAgrees(w, g, q, k);
      FaultAgrees(w, h, p, g, q, k);
    }
  }

  lemma FaultKeeps(w: World, h: nat, p: nat)
    requires Inv(w) && w.inside == Some(h) && h < w.n && p < |w.cur| && w.mems[h].pages[p].state == RDONLY
    ensures Inv(WriteFaulted(w, h, p))
  {
    var v := WriteFaulted(w, h, p);
    FaultBasic(w, h, p);
    forall g | 0 <= g < v.n
      ensures Knowledge(v, g)
    {
      FaultKnowledge(w, h, p, g);
    }
    forall g, q | 0 <= g < v.n && 0 <= q < |v.cur|
      ensures PageOk(v, g, q) && DiffsAgree(v, g, q)
    {
      FaultPage(w, h, p, g, q);
      FaultAgreesAll(w, h, p, g, q);
    }
  }

  lemma FaultConserves(w: World, h: nat, p: nat)
    requires Inv(w) && Conserving(w) && w.inside == Some(h) && h < w.n && p < |w.cur|
    requires w.mems[h].pages[p].state == RDONLY
    ensures Basic(WriteFaulted(w, h, p)) && Conserving(WriteFaulted(w, h, p))
  {
    FaultBasic(w, h, p);
    forall g, q | 0 <= g < w.n && 0 <= q < |w.cur|
      ensures Conserved(WriteFaulted(w, h, p), g, q)
    {
      assert Conserved(w, g, q);
      FaultCopy(w, h, p, g, q);
    }
  }
}
