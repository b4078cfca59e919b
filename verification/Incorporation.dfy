/** Incorporating notices: chunks make no difference, repetition makes no difference. */
module Incorporation {
  import opened Options
  import opened Vectors
  import opened HostMem

  lemma AddNoticesLast(m: Mem, h: nat, i: nat, pages: seq<nat>, p: nat)
    requires Wf(m) && h < m.n && i < |m.procs[h]| && p < |m.pages|
    requires forall k :: 0 <= k < |pages| ==> pages[k] < |m.pages|
    requires forall k :: 0 <= k < |pages + [p]| ==> (pages + [p])[k] < |m.pages|
    ensures AddNotices(m, h, i, pages + [p]) == AddNotice(AddNotices(m, h, i, pages), h, i, p)
  {
    assert (pages + [p])[..|pages|] == pages;
  }

  lemma {:induction false} AddNoticesConcat(m: Mem, h: nat, i: nat, a: seq<nat>, b: seq<nat>)
    requires Wf(m) && h < m.n && i < |m.procs[h]|
    requires forall k :: 0 <= k < |a| ==> a[k] < |m.pages|
    requires forall k :: 0 <= k < |b| ==> b[k] < |m.pages|
    requires forall k :: 0 <= k < |a + b| ==> (a + b)[k] < |m.pages|
    ensures AddNotices(m, h, i, a + b) == AddNotices(AddNotices(m, h, i, a), h, i, b)
    decreases |b|
  {
    if b == [] {
      assert a + b == a;
    } else {
      var front, last := b[..|b| - 1], b[|b| - 1];
      assert a + b == (a + front) + [last];
      AddNoticesConcat(m, h, i, a, front);
      AddNoticesLast(m, h, i, a + front, last);
    }
  }

  /** Timestamps of the list decide where an interval is found. */
  lemma {:induction false} SameIdx(a: seq<Interval>, b: seq<Interval>, ts: Vec)
    requires |a| == |b| && forall k :: 0 <= k < |a| ==> a[k].ts == b[k].ts
    ensures IntervalIdx(a, ts) == IntervalIdx(b, ts)
  {
    if a != [] {
      SameIdx(a[1..], b[1..], ts);
    }
  }

  lemma Concat(a: seq<nat>, b: seq<nat>, bound: nat)
    requires forall k :: 0 <= k < |a| ==> a[k] < bound
    requires forall k :: 0 <= k < |b| ==> b[k] < bound
    ensures forall k :: 0 <= k < |a + b| ==> (a + b)[k] < bound
  {
  }

  /** A packet cut in two has the same effect as the whole. */
  lemma Split(m: Mem, h: nat, ts: Vec, a: seq<nat>, b: seq<nat>)
    requires Wf(m) && PacketWf(Packet(h, ts, a), m.n, |m.pages|) && PacketWf(Packet(h, ts, b), m.n, |m.pages|)
    ensures PacketWf(Packet(h, ts, a + b), m.n, |m.pages|)
    ensures IncorporatePacket(m, Packet(h, ts, a + b))
            == IncorporatePacket(IncorporatePacket(m, Packet(h, ts, a)), Packet(h, ts, b))
  {
    Concat(a, b, |m.pages|);
    var m1 := EnsureInterval(m, h, ts);
    var i := IntervalIdx(m1.procs[h], ts);
    var m2 := AddNotices(m1, h, i, a);
    SameIdx(m1.procs[h], m2.procs[h], ts);
    AddNoticesConcat(m1, h, i, a, b);
  }

  /** The packets of one interval, cut anywhere. */
  function Cut(h: nat, ts: Vec, chunks: seq<seq<nat>>): (r: seq<Packet>)
    ensures |r| == |chunks|
  {
    seq(|chunks|, k requires 0 <= k < |chunks| => Packet(h, ts, chunks[k]))
  }

  function Flatten(chunks: seq<seq<nat>>): seq<nat>
    decreases |chunks|
  {
    if chunks == [] then [] else Flatten(chunks[..|chunks| - 1]) + chunks[|chunks| - 1]
  }

  /** Any number of consecutive chunks of an interval's pages act like one unbounded packet. */
  lemma {:induction false} SplitAnywhere(m: Mem, h: nat, ts: Vec, chunks: seq<seq<nat>>)
    requires Wf(m) && chunks != []
    requires forall k :: 0 <= k < |chunks| ==> PacketWf(Packet(h, ts, chunks[k]), m.n, |m.pages|)
    ensures PacketWf(Packet(h, ts, Flatten(chunks)), m.n, |m.pages|)
    ensures IncorporateAll(m, Cut(h, ts, chunks)) == IncorporatePacket(m, Packet(h, ts, Flatten(chunks)))
    decreases |chunks|
  {
    var last := |chunks| - 1;
    var pks := Cut(h, ts, chunks);
    var front := chunks[..last];
    assert pks[..last] == Cut(h, ts, front);
    assert pks[last] == Packet(h, ts, chunks[last]);
    assert PacketWf(pks[last], m.n, |m.pages|);
    if last == 0 {
      assert pks[..last] == [];
      assert Flatten(front) == [];
      assert Flatten(chunks) == chunks[0];
    } else {
      SplitAnywhere(m, h, ts, front);
      Split(m, h, ts, Flatten(front), chunks[last]);
    }
  }

  /** The chunks `addWNIIntoPacketForHost` makes. */
  function Chunks(pages: seq<nat>): (r: seq<seq<nat>>)
    ensures r != []
    decreases |pages|
  {
    if |pages| <= MAX_WN_NUM then [pages] else [pages[..MAX_WN_NUM]] + Chunks(pages[MAX_WN_NUM..])
  }

  lemma {:induction false} FlattenCons(first: seq<nat>, rest: seq<seq<nat>>)
    ensures Flatten([first] + rest) == first + Flatten(rest)
    decreases |rest|
  {
    var all := [first] + rest;
    if rest == [] {
      assert all[..0] == [];
      assert first + Flatten(rest) == first;
    } else {
      assert all[..|all| - 1] == [first] + rest[..|rest| - 1];
      FlattenCons(first, rest[..|rest| - 1]);
      assert first + (Flatten(rest[..|rest| - 1]) + rest[|rest| - 1])
        == (first + Flatten(rest[..|rest| - 1])) + rest[|rest| - 1];
    }
  }

  lemma {:induction false} ChunksFlatten(pages: seq<nat>)
    ensures Flatten(Chunks(pages)) == pages
    ensures forall k :: 0 <= k < |Chunks(pages)| ==> |Chunks(pages)[k]| <= MAX_WN_NUM
    decreases |pages|
  {
    if |pages| <= MAX_WN_NUM {
      assert Chunks(pages)[..0] == [];
    } else {
      var rest := pages[MAX_WN_NUM..];
      ChunksFlatten(rest);
      FlattenCons(pages[..MAX_WN_NUM], Chunks(rest));
      assert pages[..MAX_WN_NUM] + rest == pages;
    }
  }

  lemma {:induction false} PacketizeCuts(h: nat, ts: Vec, pages: seq<nat>)
    ensures Packetize(h, ts, pages) == Cut(h, ts, Chunks(pages)) && Flatten(Chunks(pages)) == pages
    ensures forall k :: 0 <= k < |Chunks(pages)| ==> |Chunks(pages)[k]| <= MAX_WN_NUM
    decreases |pages|
  {
    ChunksFlatten(pages);
    if |pages| > MAX_WN_NUM {
      PacketizeCuts(h, ts, pages[MAX_WN_NUM..]);
    }
  }

  lemma {:induction false} ChunkBounds(chunks: seq<seq<nat>>, bound: nat)
    requires forall k :: 0 <= k < |Flatten(chunks)| ==> Flatten(chunks)[k] < bound
    ensures forall c, k :: 0 <= c < |chunks| && 0 <= k < |chunks[c]| ==> chunks[c][k] < bound
    decreases |chunks|
  {
    if chunks != [] {
      var last := |chunks| - 1;
      var front := Flatten(chunks[..last]);
      forall k | 0 <= k < |front|
        ensures front[k] < bound
      {
        assert Flatten(chunks)[k] == front[k];
      }
      ChunkBounds(chunks[..last], bound);
      forall c, k | 0 <= c < |chunks| && 0 <= k < |chunks[c]|
        ensures chunks[c][k] < bound
      {
        if c == last {
          assert Flatten(chunks)[|front| + k] == chunks[last][k];
        } else {
          assert chunks[..last][c] == chunks[c];
        }
      }
    }
  }

  /** What `grantWNI` sends for one interval rebuilds exactly that interval. */
  lemma PacketizedInterval(m: Mem, h: nat, ts: Vec, pages: seq<nat>)
    requires Wf(m) && PacketWf(Packet(h, ts, pages), m.n, |m.pages|)
    ensures forall k :: 0 <= k < |Packetize(h, ts, pages)| ==> PacketWf(Packetize(h, ts, pages)[k], m.n, |m.pages|)
    ensures IncorporateAll(m, Packetize(h, ts, pages)) == IncorporatePacket(m, Packet(h, ts, pages))
  {
    PacketizeCuts(h, ts, pages);
    var chunks := Chunks(pages);
    ChunkBounds(chunks, |m.pages|);
    forall k | 0 <= k < |chunks|
      ensures PacketWf(Packet(h, ts, chunks[k]), m.n, |m.pages|)
    {
      assert forall j :: 0 <= j < |chunks[k]| ==> chunks[k][j] < |m.pages|;
    }
    SplitAnywhere(m, h, ts, chunks);
  }

  lemma {:induction false} IncorporateConcat(m: Mem, a: seq<Packet>, b: seq<Packet>)
    requires Wf(m)
    requires forall k :: 0 <= k < |a| ==> PacketWf(a[k], m.n, |m.pages|)
    requires forall k :: 0 <= k < |b| ==> PacketWf(b[k], m.n, |m.pages|)
    ensures forall k :: 0 <= k < |a + b| ==> PacketWf((a + b)[k], m.n, |m.pages|)
    ensures IncorporateAll(m, a + b) == IncorporateAll(IncorporateAll(m, a), b)
    decreases |b|
  {
    if b == [] {
      assert a + b == a;
    } else {
      var last := |b| - 1;
      assert (a + b)[..|a + b| - 1] == a + b[..last];
      IncorporateConcat(m, a, b[..last]);
    }
  }

  // ----- the current interval -----

  /** Packets about other hosts leave the own list and the current interval alone. */
  lemma {:induction false} AddNoticesNow(m: Mem, j: nat, i: nat, pages: seq<nat>)
    requires Wf(m) && j < m.n && i < |m.procs[j]| && j != m.me
    requires forall k :: 0 <= k < |pages| ==> pages[k] < |m.pages|
    ensures AddNotices(m, j, i, pages).now == m.now && AddNotices(m, j, i, pages).procs[m.me] == m.procs[m.me]
    decreases |pages|
  {
    if pages != [] {
      AddNoticesNow(m, j, i, pages[..|pages| - 1]);
    }
  }

  lemma {:induction false} IncorporateNow(m: Mem, pks: seq<Packet>)
    requires Wf(m) && forall k :: 0 <= k < |pks| ==> PacketWf(pks[k], m.n, |m.pages|)
    requires forall i :: 0 <= i < |pks| ==> pks[i].host != m.me
    ensures IncorporateAll(m, pks).now == m.now && IncorporateAll(m, pks).procs[m.me] == m.procs[m.me]
    decreases |pks|
  {
    if pks != [] {
      var pk := pks[|pks| - 1];
      IncorporateNow(m, pks[..|pks| - 1]);
      var m1 := EnsureInterval(IncorporateAll(m, pks[..|pks| - 1]), pk.host, pk.ts);
      AddNoticesNow(m1, pk.host, IntervalIdx(m1.procs[pk.host], pk.ts), pk.pages);
    }
  }

  /** Adding notices moves no interval of the own list and no current interval. */
  lemma {:induction false} AddNoticesPlaces(m: Mem, j: nat, i: nat, pages: seq<nat>)
    requires Wf(m) && j < m.n && i < |m.procs[j]|
    requires forall k :: 0 <= k < |pages| ==> pages[k] < |m.pages|
    ensures AddNotices(m, j, i, pages).now == m.now
    ensures |AddNotices(m, j, i, pages).procs[m.me]| == |m.procs[m.me]|
    ensures NowTs(AddNotices(m, j, i, pages)) == NowTs(m)
    decreases |pages|
  {
    if pages != [] {
      AddNoticesPlaces(m, j, i, pages[..|pages| - 1]);
    }
  }

  lemma EnsureKeepsNow(m: Mem, h: nat, ts: Vec)
    requires Wf(m) && h < m.n && |ts| == m.n
    ensures NowTs(EnsureInterval(m, h, ts)) == NowTs(m)
  {
  }

  lemma PacketKeepsNow(m: Mem, pk: Packet)
    requires Wf(m) && PacketWf(pk, m.n, |m.pages|)
    ensures NowTs(IncorporatePacket(m, pk)) == NowTs(m)
  {
    EnsureKeepsNow(m, pk.host, pk.ts);
    var m1 := EnsureInterval(m, pk.host, pk.ts);
    AddNoticesPlaces(m1, pk.host, IntervalIdx(m1.procs[pk.host], pk.ts), pk.pages);
  }

  /** Whatever packets arrive, the current interval keeps its timestamp. */
  lemma {:induction false} IncorporateKeepsNow(m: Mem, pks: seq<Packet>)
    requires Wf(m) && forall k :: 0 <= k < |pks| ==> PacketWf(pks[k], m.n, |m.pages|)
    ensures NowTs(IncorporateAll(m, pks)) == NowTs(m)
    decreases |pks|
  {
    if pks != [] {
      IncorporateKeepsNow(m, pks[..|pks| - 1]);
      PacketKeepsNow(IncorporateAll(m, pks[..|pks| - 1]), pks[|pks| - 1]);
    }
  }

  // ----- which notices are sent -----

  /** One of the packets tells that this host's interval with this timestamp wrote page `p`. */
  ghost predicate Carries(pks: seq<Packet>, host: nat, ts: Vec, p: nat) {
    exists k :: 0 <= k < |pks| && pks[k].host == host && pks[k].ts == ts && p in pks[k].pages
  }

  lemma CarriesConcat(a: seq<Packet>, b: seq<Packet>, host: nat, ts: Vec, p: nat)
    ensures Carries(a + b, host, ts, p) <==> Carries(a, host, ts, p) || Carries(b, host, ts, p)
  {
    if Carries(a, host, ts, p) {
      var k :| 0 <= k < |a| && a[k].host == host && a[k].ts == ts && p in a[k].pages;
      assert (a + b)[k] == a[k];
    }
    if Carries(b, host, ts, p) {
      var k :| 0 <= k < |b| && b[k].host == host && b[k].ts == ts && p in b[k].pages;
      assert (a + b)[|a| + k] == b[k];
    }
  }

  lemma {:induction false} PacketizeCarries(j: nat, iv: Vec, pages: seq<nat>, host: nat, ts: Vec, p: nat)
    ensures Carries(Packetize(j, iv, pages), host, ts, p) <==> host == j && ts == iv && p in pages
    decreases |pages|
  {
    if |pages| <= MAX_WN_NUM {
      assert Packetize(j, iv, pages)[0] == Packet(j, iv, pages);
    } else {
      var first := [Packet(j, iv, pages[..MAX_WN_NUM])];
      PacketizeCarries(j, iv, pages[MAX_WN_NUM..], host, ts, p);
      CarriesConcat(first, Packetize(j, iv, pages[MAX_WN_NUM..]), host, ts, p);
      assert pages == pages[..MAX_WN_NUM] + pages[MAX_WN_NUM..];
      assert first[0] == Packet(j, iv, pages[..MAX_WN_NUM]);
    }
  }

  /** The list has an interval of this timestamp with a notice for the page. */
  predicate HasNotice(list: seq<Interval>, ts: Vec, p: nat) {
    exists i :: 0 <= i < |list| && list[i].ts == ts && p in list[i].pages
  }

  lemma HasNoticeCons(list: seq<Interval>, ts: Vec, p: nat)
    requires list != []
    ensures HasNotice(list, ts, p) <==> (list[0].ts == ts && p in list[0].pages) || HasNotice(list[1..], ts, p)
  {
    if HasNotice(list, ts, p) {
      var i :| 0 <= i < |list| && list[i].ts == ts && p in list[i].pages;
      if i > 0 {
        assert list[1..][i - 1] == list[i];
      }
    }
    if HasNotice(list[1..], ts, p) {
      var i :| 0 <= i < |list[1..]| && list[1..][i].ts == ts && p in list[1..][i].pages;
      assert list[i + 1] == list[1..][i];
    }
  }

  lemma {:induction false} HostPacketsCarry(j: nat, list: seq<Interval>, t: Vec, host: nat, ts: Vec, p: nat)
    ensures Carries(HostPackets(j, list, t), host, ts, p) <==> host == j && Later(ts, t) && HasNotice(list, ts, p)
  {
    if list != [] {
      HostPacketsCarry(j, list[1..], t, host, ts, p);
      HasNoticeCons(list, ts, p);
      AfterIsLater(list[0].ts, t);
      var more := if Wanted(list[0], t) then Packetize(j, list[0].ts, list[0].pages) else [];
      CarriesConcat(HostPackets(j, list[1..], t), more, host, ts, p);
      PacketizeCarries(j, list[0].ts, list[0].pages, host, ts, p);
    }
  }

  lemma {:induction false} GrantedCarry(m: Mem, t: Vec, upto: nat, host: nat, ts: Vec, p: nat)
    requires upto <= |m.procs|
    ensures Carries(GrantedPackets(m, t, upto), host, ts, p)
            <==> host < upto && Later(ts, t) && HasNotice(m.procs[host], ts, p)
  {
    if upto > 0 {
      GrantedCarry(m, t, upto - 1, host, ts, p);
      HostPacketsCarry(upto - 1, m.procs[upto - 1], t, host, ts, p);
      CarriesConcat(GrantedPackets(m, t, upto - 1), HostPackets(upto - 1, m.procs[upto - 1], t), host, ts, p);
    }
  }

  /**
   For any lists and any vectors: a notice is sent to a requester exactly if the granter has it and its
   interval's vector is in no component below the requester's and in some component above it.
  */
  lemma GrantedExactly(m: Mem, t: Vec, host: nat, ts: Vec, p: nat)
    requires Wf(m) && |t| == m.n
    ensures Carries(GrantedPackets(m, t, m.n), host, ts, p)
            <==> && host < m.n && HasNotice(m.procs[host], ts, p)
                 && (forall i :: 0 <= i < m.n ==> i < |ts| && ts[i] >= t[i])
                 && (exists i :: 0 <= i < m.n && i < |ts| && ts[i] > t[i])
  {
    GrantedCarry(m, t, m.n, host, ts, p);
    if host < m.n && HasNotice(m.procs[host], ts, p) {
      assert |ts| == m.n;
    }
  }

  /** Two of a host's packets in the order in which they are sent: the interval of the first is not the newer one. */
  ghost predicate OldestFirst(list: seq<Interval>, a: Packet, b: Packet) {
    exists x, y :: 0 <= y <= x < |list| && list[x].ts == a.ts && list[y].ts == b.ts
  }

  lemma {:induction false} PacketizeHas(j: nat, ts: Vec, pages: seq<nat>, k: nat)
    requires k < |Packetize(j, ts, pages)|
    ensures Packetize(j, ts, pages)[k].host == j && Packetize(j, ts, pages)[k].ts == ts
    decreases |pages|
  {
    if |pages| > MAX_WN_NUM && k > 0 {
      PacketizeHas(j, ts, pages[MAX_WN_NUM..], k - 1);
    }
  }

  lemma {:induction false} HostPacketsHas(j: nat, list: seq<Interval>, t: Vec, k: nat) returns (x: nat)
    requires k < |HostPackets(j, list, t)|
    ensures HostPackets(j, list, t)[k].host == j
    ensures x < |list| && list[x].ts == HostPackets(j, list, t)[k].ts
  {
    if k < |HostPackets(j, list[1..], t)| {
      var y := HostPacketsHas(j, list[1..], t, k);
      x := y + 1;
    } else {
      PacketizeHas(j, list[0].ts, list[0].pages, k - |HostPackets(j, list[1..], t)|);
      x := 0;
    }
  }

  lemma {:induction false} HostPacketsOrder(j: nat, list: seq<Interval>, t: Vec, a: nat, b: nat)
    requires a < b < |HostPackets(j, list, t)|
    ensures OldestFirst(list, HostPackets(j, list, t)[a], HostPackets(j, list, t)[b])
  {
    var before := HostPackets(j, list[1..], t);
    if b < |before| {
      HostPacketsOrder(j, list[1..], t, a, b);
      var x, y :| 0 <= y <= x < |list[1..]| && list[1..][x].ts == before[a].ts && list[1..][y].ts == before[b].ts;
      assert list[x + 1].ts == before[a].ts && list[y + 1].ts == before[b].ts;
    } else {
      var x := HostPacketsHas(j, list, t, a);
      PacketizeHas(j, list[0].ts, list[0].pages, b - |before|);
      assert list[0].ts == HostPackets(j, list, t)[b].ts;
    }
  }

  /** The packets of a reply go host by host, and each host's from its oldest interval to its newest. */
  lemma {:induction false} GrantedInOrder(m: Mem, t: Vec, upto: nat, a: nat, b: nat)
    requires upto <= |m.procs| && a < b < |GrantedPackets(m, t, upto)|
    ensures var pks := GrantedPackets(m, t, upto);
            && pks[a].host <= pks[b].host < upto
            && (pks[a].host == pks[b].host ==> OldestFirst(m.procs[pks[a].host], pks[a], pks[b]))
  {
    var before, last := GrantedPackets(m, t, upto - 1), upto - 1;
    if b < |before| {
      GrantedInOrder(m, t, last, a, b);
    } else {
      var y := HostPacketsHas(last, m.procs[last], t, b - |before|);
      if a < |before| {
        GrantedHas(m, t, last, a);
      } else {
        var x := HostPacketsHas(last, m.procs[last], t, a - |before|);
        HostPacketsOrder(last, m.procs[last], t, a - |before|, b - |before|);
      }
    }
  }

  lemma {:induction false} GrantedHas(m: Mem, t: Vec, upto: nat, k: nat)
    requires upto <= |m.procs| && k < |GrantedPackets(m, t, upto)|
    ensures GrantedPackets(m, t, upto)[k].host < upto
  {
    var before, last := GrantedPackets(m, t, upto - 1), upto - 1;
    if k < |before| {
      GrantedHas(m, t, last, k);
    } else {
      var x := HostPacketsHas(last, m.procs[last], t, k - |before|);
    }
  }

  // ----- idempotence -----

  lemma {:induction false} PresentStays(m: Mem, h: nat, i: nat, pages: seq<nat>)
    requires Wf(m) && h < m.n && i < |m.procs[h]|
    requires forall k :: 0 <= k < |pages| ==> pages[k] < |m.pages|
    ensures forall q :: q in m.procs[h][i].pages || q in pages ==> q in AddNotices(m, h, i, pages).procs[h][i].pages
    decreases |pages|
  {
    if pages != [] {
      var last := |pages| - 1;
      PresentStays(m, h, i, pages[..last]);
      assert pages == pages[..last] + [pages[last]];
    }
  }

  lemma {:induction false} NothingNew(m: Mem, h: nat, i: nat, pages: seq<nat>)
    requires Wf(m) && h < m.n && i < |m.procs[h]|
    requires forall k :: 0 <= k < |pages| ==> pages[k] < |m.pages|
    requires forall k :: 0 <= k < |pages| ==> pages[k] in m.procs[h][i].pages
    ensures AddNotices(m, h, i, pages) == m
    decreases |pages|
  {
    if pages != [] {
      NothingNew(m, h, i, pages[..|pages| - 1]);
    }
  }

  /** Incorporating a packet a second time changes nothing. */
  lemma Idempotent(m: Mem, pk: Packet)
    requires Wf(m) && PacketWf(pk, m.n, |m.pages|)
    ensures IncorporatePacket(IncorporatePacket(m, pk), pk) == IncorporatePacket(m, pk)
  {
    var h := pk.host;
    var m1 := EnsureInterval(m, h, pk.ts);
    var i := IntervalIdx(m1.procs[h], pk.ts);
    var m2 := AddNotices(m1, h, i, pk.pages);
    SameIdx(m1.procs[h], m2.procs[h], pk.ts);
    PresentStays(m1, h, i, pk.pages);
    NothingNew(m2, h, i, pk.pages);
  }

  // ----- the effect of a new interval, page by page -----

  lemma NoPagesNoEffect(m: Mem, h: nat, i: nat)
    requires h < |m.procs| && i < |m.procs[h]|
    ensures m.procs[h := m.procs[h][i := m.procs[h][i].(pages := m.procs[h][i].pages + [])]] == m.procs
  {
    var iv := m.procs[h][i];
    assert iv.pages + [] == iv.pages;
    assert m.procs[h][i := iv] == m.procs[h];
  }

  lemma {:induction false} AddNoticesEffect(m: Mem, h: nat, i: nat, pages: seq<nat>)
    requires Wf(m) && h < m.n && i < |m.procs[h]|
    requires forall k :: 0 <= k < |pages| ==> pages[k] < |m.pages| && pages[k] !in m.procs[h][i].pages
    requires forall a, b :: 0 <= a < b < |pages| ==> pages[a] != pages[b]
    ensures var r, iv := AddNotices(m, h, i, pages), m.procs[h][i];
            && r.now == m.now
            && r.procs == m.procs[h := m.procs[h][i := iv.(pages := iv.pages + pages)]]
            && forall p :: 0 <= p < |m.pages| ==>
                 r.pages[p] == if p in pages then AddToPage(Invalidate(m.pages[p], m.me), h, iv.ts) else m.pages[p]
    decreases |pages|
  {
    if pages != [] {
      var last := |pages| - 1;
      AddNoticesEffect(m, h, i, pages[..last]);
      assert pages == pages[..last] + [pages[last]];
      assert pages[last] !in pages[..last];
      var iv := m.procs[h][i];
      var r1 := AddNotices(m, h, i, pages[..last]);
      assert (iv.pages + pages[..last]) + [pages[last]] == iv.pages + pages;
      assert AddToInterval(r1.procs[h], i, pages[last]) == m.procs[h][i := iv.(pages := iv.pages + pages)];
    } else {
      NoPagesNoEffect(m, h, i);
    }
  }

  /** A packet for an interval the host has not seen: a new interval at the head, a new notice per page. */
  lemma FreshHead(procs: seq<seq<Interval>>, h: nat, iv: Interval, pages: seq<nat>)
    requires h < |procs|
    ensures var list := [iv.(pages := [])] + procs[h];
            procs[h := list][h := list[0 := list[0].(pages := [] + pages)]]
            == procs[h := [iv.(pages := pages)] + procs[h]]
  {
    var list := [iv.(pages := [])] + procs[h];
    assert [] + pages == pages;
    assert list[0 := list[0].(pages := pages)] == [iv.(pages := pages)] + procs[h];
  }

  lemma NewPacketEffect(m: Mem, pk: Packet)
    requires Wf(m) && PacketWf(pk, m.n, |m.pages|)
    requires forall i :: 0 <= i < |m.procs[pk.host]| ==> m.procs[pk.host][i].ts != pk.ts
    requires forall a, b :: 0 <= a < b < |pk.pages| ==> pk.pages[a] != pk.pages[b]
    ensures var r := IncorporatePacket(m, pk);
            && r.now == m.now
            && r.procs == m.procs[pk.host := [Interval(pk.ts, pk.pages, false)] + m.procs[pk.host]]
            && forall p :: 0 <= p < |m.pages| ==>
                 r.pages[p] == if p in pk.pages then AddToPage(Invalidate(m.pages[p], m.me), pk.host, pk.ts)
                 else m.pages[p]
  {
    var m1 := EnsureInterval(m, pk.host, pk.ts);
    assert IntervalIdx(m1.procs[pk.host], pk.ts) == 0;
    AddNoticesEffect(m1, pk.host, 0, pk.pages);
    FreshHead(m.procs, pk.host, Interval(pk.ts, pk.pages, false), pk.pages);
  }
}
