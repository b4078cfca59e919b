/** A page is writable exactly while it has a twin and its newest own notice has no diff yet. */
module PageStates {
  import opened Options
  import opened Vectors
  import opened Diffs
  import opened HostMem

  /** The invariant of one page on host `me`. */
  ghost predicate PageInv(e: PageEntry, me: nat)
    requires me < |e.notices|
  {
    && (e.state == WRITE <==> e.twin.Some?)
    && (e.state == WRITE <==> e.notices[me] != [] && e.notices[me][0].diff.None?)
    && (forall i :: 1 <= i < |e.notices[me]| ==> e.notices[me][i].diff.Some?)
    && (e.state == MISS || e.state == UNMAP ==> e.notices[me] == [])
  }

  ghost predicate PagesInv(m: Mem)
    requires Wf(m)
  {
    forall p :: 0 <= p < |m.pages| ==> PageInv(m.pages[p], m.me)
  }

  lemma WriteFaultKeeps(m: Mem, p: nat)
    requires Wf(m) && p < |m.pages| && m.pages[p].state == RDONLY && PageInv(m.pages[p], m.me)
    ensures PageInv(WriteFault(m, p).pages[p], m.me)
    ensures WriteFault(m, p).pages[p] ==
            m.pages[p].(state := WRITE, twin := Some(m.pages[p].bytes),
                        notices := m.pages[p].notices[m.me := [Notice(NowTs(m), None)] + m.pages[p].notices[m.me]])
  {
  }

  lemma InvalidateKeeps(e: PageEntry, me: nat, h: nat, ts: Vec)
    requires me < |e.notices| && h < |e.notices| && h != me && PageInv(e, me)
    ensures PageInv(AddToPage(Invalidate(e, me), h, ts), me)
  {
  }

  lemma GrantDiffKeeps(e: PageEntry, me: nat, ts: Vec)
    requires me < |e.notices| && PageInv(e, me)
    ensures PageInv(GrantDiffEntry(e, me, ts), me)
  {
  }

  lemma HandleGrantDiffKeeps(e: PageEntry, me: nat, h: nat, ts: Vec, d: Page)
    requires me < |e.notices| && h < |e.notices| && h != me && PageInv(e, me)
    ensures PageInv(HandleGrantDiffEntry(e, h, ts, d), me)
  {
  }

  lemma {:induction false} AddNoticesKeeps(m: Mem, h: nat, i: nat, pages: seq<nat>)
    requires Wf(m) && h < m.n && h != m.me && i < |m.procs[h]| && PagesInv(m)
    requires forall k :: 0 <= k < |pages| ==> pages[k] < |m.pages|
    ensures PagesInv(AddNotices(m, h, i, pages))
    decreases |pages|
  {
    if pages != [] {
      var last := |pages| - 1;
      AddNoticesKeeps(m, h, i, pages[..last]);
      var m1 := AddNotices(m, h, i, pages[..last]);
      InvalidateKeeps(m1.pages[pages[last]], m.me, h, m1.procs[h][i].ts);
    }
  }

  // ----- any order of local steps -----

  /** What can happen to a host's pages: its own faults, requests it serves, replies and notices it receives. */
  datatype Step =
    | NewInterval(ts: Vec, barrier: bool)
    | Fault(p: nat)
    | Serve(ts: Vec, p: nat)
    | Incorporate(pk: Packet)
    | GotDiff(host: nat, ts: Vec, p: nat, d: Page)
    | GotPage(p: nat, bytes: Page)
    | Resume(p: nat)

  ghost predicate Enabled(m: Mem, s: Step) {
    && Wf(m)
    && match s
       case NewInterval(ts, _) => |ts| == m.n
       case Fault(p) => p < |m.pages| && m.pages[p].state == RDONLY
       case Serve(_, p) => p < |m.pages|
       case Incorporate(pk) => PacketWf(pk, m.n, |m.pages|) && pk.host != m.me
       case GotDiff(h, _, p, _) => p < |m.pages| && h < m.n && h != m.me
       case GotPage(p, _) => p < |m.pages|
       case Resume(p) => p < |m.pages| && (m.pages[p].state == MISS || m.pages[p].state == INVALID)
  }

  ghost function Next(m: Mem, s: Step): (r: Mem)
    requires Enabled(m, s)
    ensures Wf(r)
  {
    match s
    case NewInterval(ts, barrier) => PushOwn(m, Interval(ts, [], barrier))
    case Fault(p) => WriteFault(m, p)
    case Serve(ts, p) => GrantDiff(m, ts, p)
    case Incorporate(pk) => IncorporatePacket(m, pk)
    case GotDiff(h, ts, p, d) => HandleGrantDiff(m, h, ts, p, d)
    case GotPage(p, bytes) => HandleGrantPage(m, p, bytes)
    case Resume(p) => Validate(m, p)
  }

  lemma StepKeeps(m: Mem, s: Step)
    requires MemInv(m) && Enabled(m, s)
    ensures MemInv(Next(m, s))
  {
    match s {
      case NewInterval(_, _) =>
      case Fault(p) => WriteFaultKeeps(m, p);
      case Serve(ts, p) => GrantDiffKeeps(m.pages[p], m.me, ts);
      case Incorporate(pk) =>
        var m1 := EnsureInterval(m, pk.host, pk.ts);
        AddNoticesKeeps(m1, pk.host, IntervalIdx(m1.procs[pk.host], pk.ts), pk.pages);
      case GotDiff(h, ts, p, d) => HandleGrantDiffKeeps(m.pages[p], m.me, h, ts, d);
      case GotPage(_, _) =>
      case Resume(p) =>
    }
  }

  ghost predicate MemInv(m: Mem) {
    Wf(m) && PagesInv(m)
  }

  ghost predicate Run(m: Mem, steps: seq<Step>)
    decreases |steps|
  {
    steps == [] || (Enabled(m, steps[0]) && Run(Next(m, steps[0]), steps[1..]))
  }

  ghost function Exec(m: Mem, steps: seq<Step>): Mem
    requires Run(m, steps)
    decreases |steps|
  {
    if steps == [] then m else Exec(Next(m, steps[0]), steps[1..])
  }

  /** Pages start without twins and notices. */
  ghost predicate InitialPages(m: Mem) {
    Wf(m) && forall p :: 0 <= p < |m.pages| ==>
               m.pages[p].state in {UNMAP, RDONLY, MISS} && m.pages[p].twin.None? && m.pages[p].notices[m.me] == []
  }

  lemma {:induction false} RunKeeps(m: Mem, steps: seq<Step>)
    requires MemInv(m) && Run(m, steps)
    ensures MemInv(Exec(m, steps))
    decreases |steps|
  {
    if steps != [] {
      StepKeeps(m, steps[0]);
      RunKeeps(Next(m, steps[0]), steps[1..]);
    }
  }

  /** After any local steps, with notices from other hosts only, the invariant holds for every page. */
  lemma EveryRun(m: Mem, steps: seq<Step>, p: nat)
    requires InitialPages(m) && Run(m, steps)
    requires p < |Exec(m, steps).pages|
    ensures Wf(Exec(m, steps)) && PageInv(Exec(m, steps).pages[p], Exec(m, steps).me)
  {
    RunKeeps(m, steps);
  }

  /** So neither `grantDiff` nor `incorporateWnPacket` ever builds a diff without a twin. */
  lemma DiffsHaveTwins(m: Mem, steps: seq<Step>, p: nat, ts: Vec)
    requires InitialPages(m) && Run(m, steps)
    requires p < |Exec(m, steps).pages|
    ensures var t := Exec(m, steps);
            && Wf(t)
            && var e := t.pages[p];
               && (e.state == WRITE ==>
                     e.twin.Some? && e.notices[t.me] != [] && Invalidate(e, t.me).notices[t.me][0].diff.Some?)
               && (NoticeIdx(e.notices[t.me], ts) < |e.notices[t.me]| ==>
                     && DiffOf(GrantDiffEntry(e, t.me, ts).notices[t.me], ts).Some?
                     && (DiffOf(e.notices[t.me], ts).None? ==> e.twin.Some? && e.state == WRITE))
  {
    EveryRun(m, steps, p);
    var t := Exec(m, steps);
    var e := t.pages[p];
    var own := e.notices[t.me];
    if NoticeIdx(own, ts) < |own| && DiffOf(own, ts).None? {
      SetDiffFound(own, ts, LocalDiff(e));
    }
  }

  /** Storing a diff with a notice. */
  lemma {:induction false} SetDiffFound(list: seq<Notice>, ts: Vec, d: Option<Page>)
    requires NoticeIdx(list, ts) < |list|
    ensures NoticeIdx(SetDiff(list, ts, d), ts) == NoticeIdx(list, ts)
    ensures DiffOf(SetDiff(list, ts, d), ts) == d
  {
    SameTs(list, SetDiff(list, ts, d), ts);
  }

  lemma {:induction false} SameTs(a: seq<Notice>, b: seq<Notice>, ts: Vec)
    requires |a| == |b| && forall k :: 0 <= k < |a| ==> a[k].ts == b[k].ts
    ensures NoticeIdx(a, ts) == NoticeIdx(b, ts)
  {
    if a != [] {
      SameTs(a[1..], b[1..], ts);
    }
  }

  /** Storing a diff leaves the notices of other timestamps alone. */
  lemma SetDiffOther(list: seq<Notice>, ts: Vec, d: Option<Page>, other: Vec)
    requires NoticeIdx(list, ts) < |list| && other != ts
    ensures DiffOf(SetDiff(list, ts, d), other) == DiffOf(list, other)
  {
    SameTs(list, SetDiff(list, ts, d), other);
  }
}
