/** The hosts that `fetchPage` and `fetchDiff` ask can answer, and what they answer is right. */
module FetchSources {
  import opened Options
  import opened Vectors
  import opened Diffs
  import opened HostMem
  import opened CriticalLog
  import opened PageStates
  import opened World
  import opened QuietSteps
  import opened Writing

  /** The newest critical section a host's notice list for a page knows. */
  lemma HeadIsNewest(w: World, h: nat, j: nat, p: nat, k: nat)
    requires Basic(w) && h < w.n && j < w.n && p < |w.cur| && Knowledge(w, h) && k < Known(w.log, h)
    requires w.log[k].host == j && p in w.log[k].pages
    ensures var list := w.mems[h].pages[p].notices[j];
            && list != []
            && Writers(w.log, Known(w.log, h), j, p) != []
            && list[0].ts == w.log[Writers(w.log, Known(w.log, h), j, p)[0]].ts
            && k <= Writers(w.log, Known(w.log, h), j, p)[0]
  {
    assert Knows(w.log, w.mems[h], j, Known(w.log, h));
    WritersSpec(w.log, Known(w.log, h), j, p);
    var r := Writers(w.log, Known(w.log, h), j, p);
    var x :| 0 <= x < |r| && r[x] == k;
  }

  /** The search over hosts ends with one whose newest notice no other host's newest notice is after. */
  lemma {:induction false} LatestHostIsLatest(notices: seq<seq<Notice>>, me: nat, upto: nat, j: nat)
    requires j < upto <= |notices| && j != me && notices[j] != []
    ensures var g := LatestHost(notices, me, upto);
            g < |notices| && notices[g] != [] && !After(notices[j][0].ts, notices[g][0].ts)
  {
    var i := upto - 1;
    var before := LatestHost(notices, me, i);
    var g := LatestHost(notices, me, upto);
    if j < i {
      LatestHostIsLatest(notices, me, i, j);
      if g != before && After(notices[j][0].ts, notices[g][0].ts) {
        AfterTransitive(notices[j][0].ts, notices[g][0].ts, notices[before][0].ts);
      }
    } else if g == j {
      StrictPartialOrder(notices[j][0].ts, notices[j][0].ts, notices[j][0].ts);
    }
  }

  /**
   For any lists and vectors: a missing page is asked for at its home host if nobody else has a notice, else at a
   host with a notice, such that no other host's newest notice is nowhere below that host's and somewhere above.
  */
  lemma ChosenIsLatest(m: Mem, p: nat, j: nat)
    requires Wf(m) && p < |m.pages| && j < m.n && j != m.me
    ensures var notices, g := m.pages[p].notices, FetchTarget(m, p);
            && g < m.n
            && ((forall i :: 0 <= i < m.n && i != m.me ==> notices[i] == []) ==> g == p % m.n)
            && (notices[j] != [] ==>
                  && g != m.me && notices[g] != []
                  && !(&& |notices[j][0].ts| == |notices[g][0].ts|
                       && (forall i :: 0 <= i < |notices[j][0].ts| ==> notices[j][0].ts[i] >= notices[g][0].ts[i])
                       && (exists i :: 0 <= i < |notices[j][0].ts| && notices[j][0].ts[i] > notices[g][0].ts[i])))
  {
    var notices: seq<seq<Notice>> := m.pages[p].notices;
    var g := FetchTarget(m, p);
    if notices[j] != [] {
      LatestHostIsLatest(notices, m.me, m.n, j);
      AfterIsLater(notices[j][0].ts, notices[g][0].ts);
    }
  }

  /** A host whose own critical section was the last to write the page can read it, and nothing is pending there. */
  lemma LastWriterIsCurrent(w: World, g: nat, p: nat, k: nat)
    requires Inv(w) && g < w.n && p < |w.cur| && k < |w.log| && w.log[k].host == g && p in w.log[k].pages
    requires forall x :: k < x < |w.log| ==> p !in w.log[x].pages
    ensures w.mems[g].pages[p].state == RDONLY || w.mems[g].pages[p].state == WRITE
    ensures Conserved(w, g, p) ==> w.mems[g].pages[p].bytes == w.cur[p]
  {
    var e := w.mems[g].pages[p];
    assert Knowledge(w, g) && PageOk(w, g, p);
    OwnNoticeKnown(w, g, p, k);
    HeadIsNewest(w, g, g, p, k);
    if e.state == INVALID {
      var j, i :| 0 <= j < w.n && j != g && 0 <= i < |e.notices[j]| && After(e.notices[j][i].ts, e.notices[g][0].ts);
      var x := NoticeEntry(w, g, j, p, i);
      LogCompare(w.n, |w.cur|, w.log, x, Writers(w.log, Known(w.log, g), g, p)[0]);
      assert false;
    }
    forall x | 0 <= x < |w.log|
      ensures !Pending(w, g, p, x)
    {
      if x < Known(w.log, g) {
        NothingKnownPending(w, g, p, x);
      }
    }
    TotalZero(Terms(w, g, p));
    AddZero(e.bytes);
  }

  /** A page nobody has written yet is current on its home host. */
  lemma HomeIsCurrent(w: World, p: nat)
    requires Inv(w) && p < |w.cur|
    requires forall x :: 0 <= x < |w.log| ==> p !in w.log[x].pages
    ensures var e := w.mems[p % w.n].pages[p];
            e.state != MISS && e.state != UNMAP && (Conserved(w, p % w.n, p) ==> e.bytes == w.cur[p])
  {
    var g := p % w.n;
    assert PageOk(w, g, p);
    TotalZero(Terms(w, g, p));
    AddZero(w.mems[g].pages[p].bytes);
  }

  /**
   The host that a MISS fault asks is another host and has the page; while the copies are consistent, the
   current one.
  */
  lemma FetchTargetCurrent(w: World, h: nat, p: nat)
    requires Inv(w) && w.inside == Some(h) && h < w.n && p < |w.cur| && w.mems[h].pages[p].state == MISS
    ensures var g := FetchTarget(w.mems[h], p);
            && g < w.n && g != h && GrantPage(w.mems[g], p).Some?
            && (Conserving(w) ==> GrantPage(w.mems[g], p) == Some(w.cur[p]))
  {
    assert Knowledge(w, h) && PageOk(w, h, p) && Known(w.log, h) == |w.log|;
    var notices := w.mems[h].pages[p].notices;
    var g := LatestHost(notices, h, w.n);
    if g == w.n {
      forall x | 0 <= x < |w.log|
        ensures p !in w.log[x].pages
      {
        if p in w.log[x].pages {
          MissHasNoWriter(w, h, p, x);
          HeadIsNewest(w, h, Writer(w, x), p, x);
        }
      }
      HomeIsCurrent(w, p);
    } else {
      var k := NoticeEntry(w, h, g, p, 0);
      forall x | k < x < |w.log|
        ensures p !in w.log[x].pages
      {
        if p in w.log[x].pages {
          NewerWriter(w, h, p, g, k, x);
        }
      }
      LastWriterIsCurrent(w, g, p, k);
    }
  }

  lemma NewerWriter(w: World, h: nat, p: nat, g: nat, k: nat, x: nat)
    requires Inv(w) && w.inside == Some(h) && h < w.n && p < |w.cur| && w.mems[h].pages[p].state == MISS
    requires g == LatestHost(w.mems[h].pages[p].notices, h, w.n) && g < w.n
    requires k < |w.log| && w.mems[h].pages[p].notices[g] != [] && w.mems[h].pages[p].notices[g][0].ts == w.log[k].ts
    requires x < |w.log| && p in w.log[x].pages
    ensures x <= k
  {
    assert Knowledge(w, h) && Known(w.log, h) == |w.log|;
    MissHasNoWriter(w, h, p, x);
    var j := Writer(w, x);
    HeadIsNewest(w, h, j, p, x);
    LatestHostIsLatest(w.mems[h].pages[p].notices, h, w.n, j);
    LogCompare(w.n, |w.cur|, w.log, Writers(w.log, |w.log|, j, p)[0], k);
  }

  /** The writer of a known notice answers a request for its diff, and then has that diff stored. */
  lemma WriterAnswers(w: World, j: nat, p: nat, k: nat)
    requires Inv(w) && j < w.n && p < |w.cur| && k < |w.log| && w.log[k].host == j && p in w.log[k].pages
    ensures var d := GrantedDiff(w.mems[j], w.log[k].ts, p);
            d.Some? && DiffOf(GrantDiff(w.mems[j], w.log[k].ts, p).pages[p].notices[j], w.log[k].ts) == d
  {
    var e, ts := w.mems[j].pages[p], w.log[k].ts;
    assert Knowledge(w, j) && PageOk(w, j, p);
    OwnNoticeKnown(w, j, p, k);
    if DiffOf(e.notices[j], ts).None? {
      SetDiffFound(e.notices[j], ts, LocalDiff(e));
    }
  }
}
