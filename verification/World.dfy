/**
 The memories of all hosts in a one-lock run, together with the history of critical sections and
 the current contents of every page (the bytes last written). The invariant says what each host
 knows and how far its copy of a page is from the current contents.
 */
module World {
  import opened Options
  import opened Vectors
  import opened Diffs
  import opened HostMem
  import opened CriticalLog
  import opened PageStates

  /**
   `inside` is the host in its critical section, whose entry is the last of `log`; `missed` are the
   pages it obtained as whole pages in this critical section.
   */
  datatype World = World(n: nat, mems: seq<Mem>, log: seq<CS>, cur: seq<Page>, inside: Option<nat>, missed: set<nat>)

  ghost predicate Basic(w: World) {
    && 0 < w.n && |w.mems| == w.n
    && (forall h {:trigger w.mems[h]} {:trigger MemBasic(w, h)} :: 0 <= h < w.n ==> MemBasic(w, h))
    && LogOk(w.n, |w.cur|, w.log)
    && (w.inside.Some? ==> w.log != [] && w.inside.value == w.log[|w.log| - 1].host)
  }

  ghost predicate MemBasic(w: World, h: nat)
    requires |w.mems| == w.n && h < w.n
  {
    Wf(w.mems[h]) && w.mems[h].me == h && w.mems[h].n == w.n && |w.mems[h].pages| == |w.cur|
  }

  function Last(w: World): CS
    requires w.log != []
  {
    w.log[|w.log| - 1]
  }

  // ----- knowledge -----

  /** The timestamp of a host's current interval, as the history determines it. */
  ghost function NowOf(w: World, h: nat): Vec {
    var k := Known(w.log, h);
    if w.inside == Some(h) && w.log != [] then Last(w).ts
    else if k == 0 then Zero(w.n)
    else Rel(w.log, k - 1)
  }

  /** Memory `m` knows the intervals and notices of host `j` among the first `upto` critical sections, and no others. */
  ghost predicate Knows(log: seq<CS>, m: Mem, j: nat, upto: nat)
    requires Wf(m) && j < m.n && upto <= |log|
  {
    && (j != m.me ==> m.procs[j] == KnownList(log, upto, j))
    && WithNotices(m.procs[j]) == KnownList(log, upto, j)
    && forall p :: 0 <= p < |m.pages| ==> NoticesMatch(log, upto, j, p, m.pages[p].notices[j])
  }

  ghost predicate Knowledge(w: World, h: nat)
    requires Basic(w) && h < w.n
  {
    && (forall j :: 0 <= j < w.n ==> Knows(w.log, w.mems[h], j, Known(w.log, h)))
    && NowIndex(w.mems[h]) == 0 && NowTs(w.mems[h]) == NowOf(w, h)
    && (w.inside == Some(h) ==> w.mems[h].procs[h][0] == AsInterval(Last(w)))
  }

  // ----- pages -----

  /** The own undiffed notice of a WRITE page is newer than every notice of another host. */
  ghost predicate OwnNewest(e: PageEntry, me: nat)
    requires me < |e.notices|
  {
    e.notices[me] != [] &&
    forall j, i :: 0 <= j < |e.notices| && j != me && 0 <= i < |e.notices[j]| ==>
      After(e.notices[me][0].ts, e.notices[j][i].ts)
  }

  /** Some other host wrote the page after this host's last own notice. */
  ghost predicate ForeignNewer(e: PageEntry, me: nat)
    requires me < |e.notices|
  {
    exists j, i :: 0 <= j < |e.notices| && j != me && 0 <= i < |e.notices[j]| &&
                   (e.notices[me] == [] || After(e.notices[j][i].ts, e.notices[me][0].ts))
  }

  ghost predicate PageLocal(e: PageEntry, me: nat, n: nat, p: nat)
    requires me < |e.notices| && 0 < n
  {
    && PageInv(e, me)
    && e.state != UNMAP
    && (e.state == MISS ==> me != p % n)
    && (me == p % n ==> e.start.None?)
    && (e.state != MISS && me != p % n ==> e.start.Some?)
    && (e.state == RDONLY || e.state == WRITE ==> UpToDate(e, me))
    && (e.state == WRITE ==> OwnNewest(e, me))
    && (e.state == INVALID ==> ForeignNewer(e, me))
  }

  ghost predicate PageOk(w: World, h: nat, p: nat)
    requires Basic(w) && h < w.n && p < |w.cur|
  {
    && PageLocal(w.mems[h].pages[p], h, w.n, p)
    && (w.inside == Some(h) && p in Last(w).pages ==> w.mems[h].pages[p].state == WRITE)
  }

  /** A diff that was received is the diff the writer has stored. */
  ghost predicate DiffsAgree(w: World, h: nat, p: nat)
    requires Basic(w) && h < w.n && p < |w.cur|
  {
    forall k :: 0 <= k < |w.log| && w.log[k].host != h ==> DiffAgrees(w, h, p, k)
  }

  ghost predicate DiffAgrees(w: World, h: nat, p: nat, k: nat)
    requires Basic(w) && h < w.n && p < |w.cur| && k < |w.log|
  {
    DiffOf(w.mems[h].pages[p].notices[Writer(w, k)], w.log[k].ts).Some? ==>
      DiffOf(w.mems[h].pages[p].notices[Writer(w, k)], w.log[k].ts)
      == DiffOf(w.mems[Writer(w, k)].pages[p].notices[Writer(w, k)], w.log[k].ts)
  }

  // ----- conservation -----

  ghost function Writer(w: World, k: nat): (j: nat)
    requires Basic(w) && k < |w.log|
    ensures j == w.log[k].host && j < w.n
  {
    w.log[k].host
  }

  /** The diff of an own notice: the stored one, or what it would be if it were built now. */
  ghost function OwnValue(e: PageEntry, me: nat, ts: Vec): Page
    requires me < |e.notices|
  {
    if DiffOf(e.notices[me], ts).Some? then DiffOf(e.notices[me], ts).value
    else if e.twin.Some? then Sub(e.bytes, e.twin.value)
    else ZeroPage()
  }

  ghost function Value(w: World, p: nat, k: nat): Page
    requires Basic(w) && p < |w.cur| && k < |w.log|
  {
    OwnValue(w.mems[Writer(w, k)].pages[p], Writer(w, k), w.log[k].ts)
  }

  /** Critical section `k` wrote page `p`, and host `h`'s copy does not contain those writes. */
  ghost predicate Pending(w: World, h: nat, p: nat, k: nat)
    requires Basic(w) && h < w.n && p < |w.cur| && k < |w.log|
  {
    && w.log[k].host != h && p in w.log[k].pages
    && AfterStart(w.mems[h].pages[p].start, w.log[k].ts)
    && DiffOf(w.mems[h].pages[p].notices[Writer(w, k)], w.log[k].ts).None?
  }

  ghost function Term(w: World, h: nat, p: nat, k: nat): Page
    requires Basic(w) && h < w.n && p < |w.cur| && k < |w.log|
  {
    if Pending(w, h, p, k) then Value(w, p, k) else ZeroPage()
  }

  /** The pending diffs of all critical sections, zero where nothing is pending. */
  ghost function Terms(w: World, h: nat, p: nat): (r: seq<Page>)
    requires Basic(w) && h < w.n && p < |w.cur|
    ensures |r| == |w.log| && forall k :: 0 <= k < |w.log| ==> r[k] == Term(w, h, p, k)
  {
    seq(|w.log|, k requires 0 <= k < |w.log| => Term(w, h, p, k))
  }

  /** A host's copy plus its pending diffs is the current page. */
  ghost predicate Conserved(w: World, h: nat, p: nat)
    requires Basic(w) && h < w.n && p < |w.cur|
  {
    w.mems[h].pages[p].state != MISS ==>
      Add(w.mems[h].pages[p].bytes, Total(Terms(w, h, p))) == w.cur[p]
  }

  /** What every run keeps, whatever bytes are stored. */
  ghost predicate Inv(w: World) {
    && Basic(w)
    && (forall h :: 0 <= h < w.n ==> Knowledge(w, h))
    && (forall h, p :: 0 <= h < w.n && 0 <= p < |w.cur| ==> PageOk(w, h, p))
    && (forall h, p :: 0 <= h < w.n && 0 <= p < |w.cur| ==> DiffsAgree(w, h, p))
  }

  /** No copy of any page has lost a write for good. */
  ghost predicate Conserving(w: World)
    requires Basic(w)
  {
    forall h, p :: 0 <= h < w.n && 0 <= p < |w.cur| ==> Conserved(w, h, p)
  }

  // ----- what the invariant gives -----

  /** Byte `i` of the copy and of its pending diffs add up to byte `i` of the current page, modulo 256. */
  ghost predicate ByteConserved(w: World, h: nat, p: nat, i: nat)
    requires Basic(w) && h < w.n && p < |w.cur| && i < PAGESIZE
  {
    w.mems[h].pages[p].state != MISS ==>
      (w.mems[h].pages[p].bytes[i] as int + ByteSum(Terms(w, h, p), i)) % 256 == w.cur[p][i] as int
  }

  lemma CopyAddsUp(w: World, h: nat, p: nat, i: nat)
    requires Basic(w) && h < w.n && p < |w.cur| && i < PAGESIZE && Conserved(w, h, p)
    ensures ByteConserved(w, h, p, i)
  {
    TotalIsSum(Terms(w, h, p), i);
    assert Add(w.mems[h].pages[p].bytes, Total(Terms(w, h, p)))[i]
        == PlusByte(w.mems[h].pages[p].bytes[i], Total(Terms(w, h, p))[i]);
  }

  /** A page that is up to date on a host has nothing pending among the critical sections the host knows. */
  lemma NothingKnownPending(w: World, h: nat, p: nat, k: nat)
    requires Basic(w) && h < w.n && p < |w.cur| && Knowledge(w, h)
    requires UpToDate(w.mems[h].pages[p], h)
    requires k < Known(w.log, h)
    ensures !Pending(w, h, p, k)
  {
    var j := Writer(w, k);
    var e := w.mems[h].pages[p];
    assert Knows(w.log, w.mems[h], j, Known(w.log, h));
    FindNotice(w.n, |w.cur|, w.log, Known(w.log, h), j, p, e.notices[j], k);
    if j != h && p in w.log[k].pages {
      assert Settled(e.notices[j][NoticeIdx(e.notices[j], w.log[k].ts)], e.start);
    }
  }

  /** In its critical section a host reads the bytes last written to every page it can read. */
  lemma HolderReadsCurrent(w: World, h: nat, p: nat)
    requires Inv(w) && w.inside == Some(h) && h < w.n && p < |w.cur| && Conserved(w, h, p)
    requires w.mems[h].pages[p].state == RDONLY || w.mems[h].pages[p].state == WRITE
    ensures w.mems[h].pages[p].bytes == w.cur[p]
  {
    assert Knowledge(w, h) && PageOk(w, h, p);
    assert Known(w.log, h) == |w.log|;
    forall k | 0 <= k < |w.log|
      ensures !Pending(w, h, p, k)
    {
      NothingKnownPending(w, h, p, k);
    }
    TotalZero(Terms(w, h, p));
    AddZero(w.mems[h].pages[p].bytes);
  }
}
