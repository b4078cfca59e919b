/**
 One host's memory management state and what each procedure of `mem.c` does to it, on values.
 Interval lists and notice lists keep the C order: newest first. `MemNodes` proves that the
 linked structures of the C program implement these functions in place.
 */
module HostMem {
  import opened Options
  import opened Vectors
  import opened Diffs

  const MAX_WN_NUM: nat := 1024

  datatype PageState = UNMAP | RDONLY | WRITE | MISS | INVALID

  /** A write notice in a page's list: the timestamp of its interval, and its diff once there is one. */
  datatype Notice = Notice(ts: Vec, diff: Option<Page>)

  datatype Interval = Interval(ts: Vec, pages: seq<nat>, isBarrier: bool)

  /** `start` is the timestamp of `startInterval`, which is a null pointer on a page's home host. */
  datatype PageEntry = PageEntry(state: PageState, bytes: Page, twin: Option<Page>, start: Option<Vec>,
                                 notices: seq<seq<Notice>>)

  /** `now` is the position of `intervalNow` in the own list, counted from its oldest interval. */
  datatype Mem = Mem(me: nat, n: nat, procs: seq<seq<Interval>>, now: nat, pages: seq<PageEntry>)

  datatype Packet = Packet(host: nat, ts: Vec, pages: seq<nat>)

  predicate PageWf(e: PageEntry, n: nat) {
    |e.notices| == n
  }

  predicate Wf(m: Mem) {
    && m.me < m.n && |m.procs| == m.n
    && m.now < |m.procs[m.me]|
    && (forall h, i :: 0 <= h < m.n && 0 <= i < |m.procs[h]| ==> |m.procs[h][i].ts| == m.n)
    && (forall p :: 0 <= p < |m.pages| ==> PageWf(m.pages[p], m.n))
  }

  predicate PacketWf(pk: Packet, n: nat, pageCount: nat) {
    pk.host < n && |pk.ts| == n && forall i :: 0 <= i < |pk.pages| ==> pk.pages[i] < pageCount
  }

  function NowIndex(m: Mem): (i: nat)
    requires Wf(m)
    ensures i < |m.procs[m.me]|
  {
    |m.procs[m.me]| - 1 - m.now
  }

  /** The timestamp of `intervalNow`. */
  function NowTs(m: Mem): (ts: Vec)
    requires Wf(m)
    ensures |ts| == m.n
  {
    m.procs[m.me][NowIndex(m)].ts
  }

  // ----- intervals -----

  /** A new interval at the head of the own list, which also becomes `intervalNow`. */
  function PushOwn(m: Mem, iv: Interval): (r: Mem)
    requires Wf(m) && |iv.ts| == m.n
    ensures Wf(r) && r.me == m.me && r.n == m.n && r.pages == m.pages && NowIndex(r) == 0 && NowTs(r) == iv.ts
  {
    m.(procs := m.procs[m.me := [iv] + m.procs[m.me]], now := |m.procs[m.me]|)
  }

  function AddNewInterval(m: Mem): (r: Mem)
    requires Wf(m)
    ensures Wf(r)
  {
    PushOwn(m, Interval(Bump(m.procs[m.me][0].ts, m.me), [], false))
  }

  /** The interval that `handleGrantWNIMsg` creates from the granter's timestamp. */
  function AdoptInterval(m: Mem, ts: Vec): (r: Mem)
    requires Wf(m) && |ts| == m.n
    ensures Wf(r) && r.me == m.me && r.n == m.n && r.pages == m.pages
  {
    PushOwn(m, Interval(Bump(ts, m.me), [], false))
  }

  /** The interval created when leaving a barrier. */
  function BarrierInterval(m: Mem, ts: Vec): (r: Mem)
    requires Wf(m) && |ts| == m.n
    ensures Wf(r) && r.me == m.me && r.n == m.n && r.pages == m.pages
  {
    PushOwn(m, Interval(ts, [], true))
  }

  /** The first position with this timestamp, or the length. */
  function IntervalIdx(list: seq<Interval>, ts: Vec): (k: nat)
    ensures k <= |list| && (k < |list| ==> list[k].ts == ts) && forall i :: 0 <= i < k ==> list[i].ts != ts
  {
    if list == [] || list[0].ts == ts then 0 else 1 + IntervalIdx(list[1..], ts)
  }

  function NoticeIdx(list: seq<Notice>, ts: Vec): (k: nat)
    ensures k <= |list| && (k < |list| ==> list[k].ts == ts) && forall i :: 0 <= i < k ==> list[i].ts != ts
  {
    if list == [] || list[0].ts == ts then 0 else 1 + NoticeIdx(list[1..], ts)
  }

  /** The diff stored with the first notice of this timestamp. */
  function DiffOf(list: seq<Notice>, ts: Vec): Option<Page> {
    var k := NoticeIdx(list, ts);
    if k < |list| then list[k].diff else None
  }

  // ----- pages -----

  function SetPage(m: Mem, p: nat, e: PageEntry): Mem
    requires p < |m.pages|
  {
    m.(pages := m.pages[p := e])
  }

  function CreateTwin(e: PageEntry): PageEntry {
    if e.state == UNMAP || e.state == MISS || e.twin.Some? then e else e.(twin := Some(e.bytes))
  }

  function FreeTwin(e: PageEntry): PageEntry {
    if e.state == UNMAP || e.state == MISS then e else e.(twin := None)
  }

  /** `createLocalDiff`: no diff without a twin. */
  function LocalDiff(e: PageEntry): Option<Page> {
    if e.twin.Some? then Some(Sub(e.bytes, e.twin.value)) else None
  }

  function AddToPage(e: PageEntry, h: nat, ts: Vec): PageEntry
    requires h < |e.notices|
  {
    e.(notices := e.notices[h := [Notice(ts, None)] + e.notices[h]])
  }

  function AddToInterval(list: seq<Interval>, i: nat, p: nat): seq<Interval>
    requires i < |list|
  {
    list[i := list[i].(pages := list[i].pages + [p])]
  }

  function CreateWriteNotice(m: Mem, p: nat): (r: Mem)
    requires Wf(m) && p < |m.pages|
    ensures Wf(r)
  {
    if m.pages[p].state != RDONLY then m
    else
      m.(pages := m.pages[p := AddToPage(m.pages[p], m.me, NowTs(m))],
         procs := m.procs[m.me := AddToInterval(m.procs[m.me], NowIndex(m), p)])
  }

  /** The fault handler's action on a page that is present but read-only. */
  function WriteFault(m: Mem, p: nat): (r: Mem)
    requires Wf(m) && p < |m.pages|
    ensures Wf(r)
  {
    var m1 := CreateWriteNotice(SetPage(m, p, CreateTwin(m.pages[p])), p);
    SetPage(m1, p, m1.pages[p].(state := WRITE))
  }

  /** What an arriving notice does to the page's state: a WRITE page stores its own diff first. */
  function Invalidate(e: PageEntry, me: nat): (r: PageEntry)
    requires me < |e.notices|
    ensures |r.notices| == |e.notices|
  {
    match e.state
    case RDONLY => e.(state := INVALID)
    case WRITE =>
      var own := e.notices[me];
      FreeTwin(e.(state := INVALID,
                  notices := if own == [] then e.notices else e.notices[me := own[0 := own[0].(diff := LocalDiff(e))]]))
    case _ => e
  }

  function SetDiff(list: seq<Notice>, ts: Vec, d: Option<Page>): (r: seq<Notice>)
    requires NoticeIdx(list, ts) < |list|
    ensures |r| == |list|
  {
    list[NoticeIdx(list, ts) := list[NoticeIdx(list, ts)].(diff := d)]
  }

  // ----- incorporating notices -----

  /** One page of a packet, for the interval at position `i` of host `h`'s list. */
  function AddNotice(m: Mem, h: nat, i: nat, p: nat): (r: Mem)
    requires Wf(m) && h < m.n && i < |m.procs[h]| && p < |m.pages|
    ensures Wf(r) && r.me == m.me && r.n == m.n && |r.pages| == |m.pages|
    ensures |r.procs[h]| == |m.procs[h]| && forall k :: 0 <= k < |m.procs[h]| ==> r.procs[h][k].ts == m.procs[h][k].ts
  {
    if p in m.procs[h][i].pages then m
    else
      m.(pages := m.pages[p := AddToPage(Invalidate(m.pages[p], m.me), h, m.procs[h][i].ts)],
         procs := m.procs[h := AddToInterval(m.procs[h], i, p)])
  }

  function AddNotices(m: Mem, h: nat, i: nat, pages: seq<nat>): (r: Mem)
    requires Wf(m) && h < m.n && i < |m.procs[h]|
    requires forall k :: 0 <= k < |pages| ==> pages[k] < |m.pages|
    ensures Wf(r) && r.me == m.me && r.n == m.n && |r.pages| == |m.pages|
    ensures |r.procs[h]| == |m.procs[h]| && forall k :: 0 <= k < |m.procs[h]| ==> r.procs[h][k].ts == m.procs[h][k].ts
    decreases |pages|
  {
    if pages == [] then m
    else AddNotice(AddNotices(m, h, i, pages[..|pages| - 1]), h, i, pages[|pages| - 1])
  }

  /** The host's list with an interval of this timestamp in it; a missing one is put at the head. */
  function EnsureInterval(m: Mem, h: nat, ts: Vec): (r: Mem)
    requires Wf(m) && h < m.n && |ts| == m.n
    ensures Wf(r) && r.me == m.me && r.n == m.n && r.pages == m.pages
    ensures IntervalIdx(r.procs[h], ts) < |r.procs[h]|
  {
    if IntervalIdx(m.procs[h], ts) < |m.procs[h]| then m
    else m.(procs := m.procs[h := [Interval(ts, [], false)] + m.procs[h]])
  }

  function IncorporatePacket(m: Mem, pk: Packet): (r: Mem)
    requires Wf(m) && PacketWf(pk, m.n, |m.pages|)
    ensures Wf(r) && r.me == m.me && r.n == m.n && |r.pages| == |m.pages|
  {
    var m1 := EnsureInterval(m, pk.host, pk.ts);
    AddNotices(m1, pk.host, IntervalIdx(m1.procs[pk.host], pk.ts), pk.pages)
  }

  function IncorporateAll(m: Mem, pks: seq<Packet>): (r: Mem)
    requires Wf(m) && forall k :: 0 <= k < |pks| ==> PacketWf(pks[k], m.n, |m.pages|)
    ensures Wf(r) && r.me == m.me && r.n == m.n && |r.pages| == |m.pages|
    decreases |pks|
  {
    if pks == [] then m else IncorporatePacket(IncorporateAll(m, pks[..|pks| - 1]), pks[|pks| - 1])
  }

  function HandleGrantWNI(m: Mem, ts: Vec, pks: seq<Packet>): (r: Mem)
    requires Wf(m) && |ts| == m.n && forall k :: 0 <= k < |pks| ==> PacketWf(pks[k], m.n, |m.pages|)
    ensures Wf(r) && r.me == m.me && r.n == m.n && |r.pages| == |m.pages|
  {
    IncorporateAll(AdoptInterval(m, ts), pks)
  }

  // ----- granting -----

  /** `addWNIIntoPacketForHost` called until nothing is left: chunks of at most 1024 notices. */
  function Packetize(host: nat, ts: Vec, pages: seq<nat>): (r: seq<Packet>)
    decreases |pages|
  {
    if |pages| <= MAX_WN_NUM then [Packet(host, ts, pages)]
    else [Packet(host, ts, pages[..MAX_WN_NUM])] + Packetize(host, ts, pages[MAX_WN_NUM..])
  }

  predicate Wanted(iv: Interval, t: Vec) {
    After(iv.ts, t) && iv.pages != []
  }

  /** The packets for the wanted intervals of a newest-first list, oldest first. */
  function HostPackets(host: nat, list: seq<Interval>, t: Vec): (r: seq<Packet>) {
    if list == [] then []
    else HostPackets(host, list[1..], t) + if Wanted(list[0], t) then Packetize(host, list[0].ts, list[0].pages) else []
  }

  /** All packets `grantWNI` sends to a host whose current interval has timestamp `t`. */
  function GrantedPackets(m: Mem, t: Vec, upto: nat): (r: seq<Packet>)
    requires upto <= |m.procs|
  {
    if upto == 0 then [] else GrantedPackets(m, t, upto - 1) + HostPackets(upto - 1, m.procs[upto - 1], t)
  }

  function GrantPage(m: Mem, p: nat): Option<Page>
    requires p < |m.pages|
  {
    if m.pages[p].state == UNMAP || m.pages[p].state == MISS then None else Some(m.pages[p].bytes)
  }

  /** `grantDiff`: builds the diff if there is none yet, which ends the page's WRITE state. */
  function GrantDiffEntry(e: PageEntry, me: nat, ts: Vec): (r: PageEntry)
    requires me < |e.notices|
    ensures |r.notices| == |e.notices|
  {
    var own := e.notices[me];
    if e.state == UNMAP || e.state == MISS || NoticeIdx(own, ts) == |own| || DiffOf(own, ts).Some? then e
    else
      var e1 := e.(notices := e.notices[me := SetDiff(own, ts, LocalDiff(e))]);
      if e.state == WRITE then FreeTwin(e1).(state := RDONLY) else e1
  }

  function GrantDiff(m: Mem, ts: Vec, p: nat): (r: Mem)
    requires Wf(m) && p < |m.pages|
    ensures Wf(r)
  {
    SetPage(m, p, GrantDiffEntry(m.pages[p], m.me, ts))
  }

  /** The diff in the reply, if a reply is sent. */
  function GrantedDiff(m: Mem, ts: Vec, p: nat): Option<Page>
    requires Wf(m) && p < |m.pages|
  {
    if m.pages[p].state == UNMAP || m.pages[p].state == MISS then None
    else DiffOf(GrantDiff(m, ts, p).pages[p].notices[m.me], ts)
  }

  function HandleGrantDiffEntry(e: PageEntry, host: nat, ts: Vec, d: Page): (r: PageEntry)
    requires host < |e.notices|
    ensures |r.notices| == |e.notices|
  {
    var list := e.notices[host];
    if NoticeIdx(list, ts) == |list| then e
    else e.(bytes := Add(e.bytes, d),
            notices := e.notices[host :=
                                 SetDiff(list, ts, Some(if DiffOf(list, ts).Some? then DiffOf(list, ts).value else d))])
  }

  function HandleGrantDiff(m: Mem, host: nat, ts: Vec, p: nat, d: Page): (r: Mem)
    requires Wf(m) && p < |m.pages| && host < m.n
    ensures Wf(r)
  {
    SetPage(m, p, HandleGrantDiffEntry(m.pages[p], host, ts, d))
  }

  function HandleGrantPage(m: Mem, p: nat, bytes: Page): (r: Mem)
    requires Wf(m) && p < |m.pages|
    ensures Wf(r)
  {
    SetPage(m, p, m.pages[p].(bytes := bytes, start := Some(NowTs(m))))
  }

  /** The fault handler's last action once a missing or invalid page is up to date. */
  function Validate(m: Mem, p: nat): (r: Mem)
    requires Wf(m) && p < |m.pages|
    ensures Wf(r)
  {
    SetPage(m, p, m.pages[p].(state := RDONLY))
  }

  // ----- whom to ask for a page -----

  /** The host `fetchPage` has settled on after looking at hosts below `upto`; `n` if none has a notice. */
  function LatestHost(notices: seq<seq<Notice>>, me: nat, upto: nat): (h: nat)
    requires upto <= |notices|
    ensures h == |notices| || (h < upto && h != me && notices[h] != [])
    ensures h == |notices| <==> forall i :: 0 <= i < upto && i != me ==> notices[i] == []
  {
    if upto == 0 then |notices|
    else
      var h := LatestHost(notices, me, upto - 1);
      var i := upto - 1;
      if i == me || notices[i] == [] then h
      else if h == |notices| || After(notices[i][0].ts, notices[h][0].ts) then i
      else h
  }

  function FetchTarget(m: Mem, p: nat): nat
    requires Wf(m) && p < |m.pages|
  {
    var h := LatestHost(m.pages[p].notices, m.me, m.n);
    if h == m.n then p % m.n else h
  }

  /** `fetchDiff` asks for a notice's diff only if its interval is not already in the fetched page. */
  predicate AfterStart(start: Option<Vec>, ts: Vec) {
    start.None? || After(ts, start.value)
  }

  /** The notice's diff has been fetched, or the fetched page already contained its writes. */
  predicate Settled(nt: Notice, start: Option<Vec>) {
    nt.diff.Some? || !AfterStart(start, nt.ts)
  }

  /** Everything known about the page has been applied. */
  ghost predicate UpToDate(e: PageEntry, me: nat)
    requires me < |e.notices|
  {
    forall j, i :: 0 <= j < |e.notices| && j != me && 0 <= i < |e.notices[j]| ==> Settled(e.notices[j][i], e.start)
  }
}
