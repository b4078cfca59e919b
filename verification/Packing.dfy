/**
 Entering a barrier: what a host tells the manager. Its intervals since the last barrier are cut into
 packets of at most 1024 notices, and the packets into messages of at most nine, as many as fit.
*/
module Packing {
  import opened Limits
  import opened Options
  import opened Vectors
  import opened HostMem
  import opened Incorporation
  import MessageQueue

  const SLOT_SIZE: nat := 4
  /** A host id, a vector, a count and an array of page numbers, of four bytes each: 4184. */
  const PACKET_SIZE: nat := 4 * (1 + MAX_HOST_NUM + 1 + MAX_WN_NUM)
  const PACKETS_PER_MSG: nat := 9

  /** A GRANT_ENTER_BARRIER_INFO message: `count` is the slot in front of the packets, `size` the bytes of data. */
  datatype InfoMsg = InfoMsg(timestamp: Vec, count: int, packets: seq<Packet>, size: nat)

  // ----- which packets -----

  predicate HasBarrier(list: seq<Interval>) {
    exists i :: 0 <= i < |list| && list[i].isBarrier
  }

  /** The intervals from the newest back to the last barrier interval. */
  function SinceBarrier(list: seq<Interval>): seq<Interval> {
    if list == [] then []
    else if list[0].isBarrier then [list[0]]
    else [list[0]] + SinceBarrier(list[1..])
  }

  /** The packets of the intervals that have notices, oldest interval first. */
  function EntryPackets(host: nat, ivs: seq<Interval>): seq<Packet> {
    if ivs == [] then []
    else EntryPackets(host, ivs[1..]) + if ivs[0].pages != [] then Packetize(host, ivs[0].ts, ivs[0].pages) else []
  }

  /** They tell exactly the notices of these intervals. */
  lemma {:induction false} EntryPacketsCarry(j: nat, ivs: seq<Interval>, host: nat, ts: Vec, p: nat)
    ensures Carries(EntryPackets(j, ivs), host, ts, p) <==> host == j && HasNotice(ivs, ts, p)
  {
    if ivs != [] {
      EntryPacketsCarry(j, ivs[1..], host, ts, p);
      HasNoticeCons(ivs, ts, p);
      var more := if ivs[0].pages != [] then Packetize(j, ivs[0].ts, ivs[0].pages) else [];
      CarriesConcat(EntryPackets(j, ivs[1..]), more, host, ts, p);
      PacketizeCarries(j, ivs[0].ts, ivs[0].pages, host, ts, p);
    }
  }

  // ----- which messages -----

  function MessageCount(packets: nat): (k: nat)
    ensures k >= 1 && PACKETS_PER_MSG * (k - 1) <= packets <= PACKETS_PER_MSG * k
  {
    if packets == 0 then 1 else (packets + PACKETS_PER_MSG - 1) / PACKETS_PER_MSG
  }

  /** The packets of message `k`. */
  function Group(packets: seq<Packet>, k: nat): seq<Packet>
    requires PACKETS_PER_MSG * k <= |packets|
  {
    var end := PACKETS_PER_MSG * (k + 1);
    packets[PACKETS_PER_MSG * k..if end <= |packets| then end else |packets|]
  }

  function MessageOf(ts: Vec, n: nat, packets: seq<Packet>, k: nat): InfoMsg
    requires PACKETS_PER_MSG * k <= |packets|
  {
    var g := Group(packets, k);
    InfoMsg(if k == 0 then ts else Unset(n), |g|, g, SLOT_SIZE + PACKET_SIZE * |g|)
  }

  function EntryMessages(ts: Vec, n: nat, packets: seq<Packet>): (r: seq<InfoMsg>)
    ensures |r| == MessageCount(|packets|)
  {
    seq(MessageCount(|packets|), k requires 0 <= k < MessageCount(|packets|) => MessageOf(ts, n, packets, k))
  }

  /** Every message fits, holds at most nine packets and counts them; only the first has a timestamp. */
  lemma MessagesFit(ts: Vec, n: nat, packets: seq<Packet>, k: nat)
    requires k < |EntryMessages(ts, n, packets)|
    ensures var msg := EntryMessages(ts, n, packets)[k];
            && msg.size <= MessageQueue.PAYLOAD && |msg.packets| <= PACKETS_PER_MSG && msg.count == |msg.packets|
            && msg.size == SLOT_SIZE + PACKET_SIZE * |msg.packets|
            && (k > 0 ==> msg.packets != [] && forall i :: 0 <= i < n ==> msg.timestamp[i] == -1)
  {
  }

  lemma {:induction false} JoinedLength(parts: seq<seq<int>>)
    requires parts != [] && |parts[0]| == SLOT_SIZE && forall i :: 0 < i < |parts| ==> |parts[i]| == PACKET_SIZE
    ensures |MessageQueue.Joined(parts)| == SLOT_SIZE + PACKET_SIZE * (|parts| - 1)
  {
    if |parts| == 1 {
      assert parts[..0] == [];
    } else {
      JoinedLength(parts[..|parts| - 1]);
    }
  }

  /**
   A message built in a cleared slot of the ring, from the bytes of the count and of its packets, has the size
   computed here and fits; and unless it is the first, its vector is the one nobody has filled in.
  */
  lemma MessageBuilt(ts: Vec, n: nat, packets: seq<Packet>, k: nat, slot: MessageQueue.Msg, parts: seq<seq<int>>)
    requires k < |EntryMessages(ts, n, packets)| && n <= MAX_HOST_NUM && MessageQueue.Cleared(slot)
    requires |parts| == 1 + |EntryMessages(ts, n, packets)[k].packets| && |parts[0]| == SLOT_SIZE
    requires forall i :: 0 < i < |parts| ==> |parts[i]| == PACKET_SIZE
    ensures |MessageQueue.Joined(parts)| == EntryMessages(ts, n, packets)[k].size <= MessageQueue.PAYLOAD
    ensures var msg, r := EntryMessages(ts, n, packets)[k], MessageQueue.Built(slot, parts);
            && r.size == msg.size && r.data[..r.size] == MessageQueue.Joined(parts)
            && |r.timestamp| == MAX_HOST_NUM && (k > 0 ==> r.timestamp[..n] == msg.timestamp)
  {
    JoinedLength(parts);
    MessagesFit(ts, n, packets, k);
    MessageQueue.BuiltFromCleared(slot, parts);
  }

  /** The packets of the first `k` messages. */
  function Carried(msgs: seq<InfoMsg>): seq<Packet> {
    if msgs == [] then [] else Carried(msgs[..|msgs| - 1]) + msgs[|msgs| - 1].packets
  }

  lemma {:induction false} CarriedPrefix(ts: Vec, n: nat, packets: seq<Packet>, k: nat)
    requires k <= MessageCount(|packets|)
    ensures var upto := if PACKETS_PER_MSG * k <= |packets| then PACKETS_PER_MSG * k else |packets|;
            Carried(EntryMessages(ts, n, packets)[..k]) == packets[..upto]
  {
    var msgs := EntryMessages(ts, n, packets);
    if k > 0 {
      CarriedPrefix(ts, n, packets, k - 1);
      assert msgs[..k][..k - 1] == msgs[..k - 1];
      assert msgs[..k][k - 1] == MessageOf(ts, n, packets, k - 1);
    }
  }

  /** The messages together carry the packets in order: none lost, none repeated. */
  lemma NothingLost(ts: Vec, n: nat, packets: seq<Packet>)
    ensures Carried(EntryMessages(ts, n, packets)) == packets
  {
    CarriedPrefix(ts, n, packets, MessageCount(|packets|));
    assert EntryMessages(ts, n, packets)[..MessageCount(|packets|)] == EntryMessages(ts, n, packets);
    assert packets[..|packets|] == packets;
  }

  // ----- building the messages -----

  /** The sender's loop state: messages sent, the message being filled, and `packetNum`. */
  datatype Sending = Sending(sent: seq<InfoMsg>, msg: InfoMsg, packetNum: nat)

  ghost predicate SendingOk(s: Sending, ts: Vec, n: nat, packets: seq<Packet>) {
    && PACKETS_PER_MSG * |s.sent| <= |packets| < PACKETS_PER_MSG * (|s.sent| + 1)
    && (forall k :: 0 <= k < |s.sent| ==> s.sent[k] == MessageOf(ts, n, packets, k))
    && s.msg.timestamp == (if s.sent == [] then ts else Unset(n))
    && s.msg.packets == packets[PACKETS_PER_MSG * |s.sent|..]
    && s.packetNum == |s.msg.packets| && s.msg.size == SLOT_SIZE + PACKET_SIZE * s.packetNum
  }

  method StartMessage(ts: Vec, ghost n: nat) returns (s: Sending)
    ensures SendingOk(s, ts, n, [])
  {
    s := Sending([], InfoMsg(ts, 0, [], SLOT_SIZE), 0);
  }

  /** The messages sent stay what they are when one more packet is appended. */
  lemma SentStays(s: Sending, pk: Packet, ts: Vec, n: nat, packets: seq<Packet>)
    requires SendingOk(s, ts, n, packets)
    ensures forall k :: 0 <= k < |s.sent| ==> s.sent[k] == MessageOf(ts, n, packets + [pk], k)
    ensures (packets + [pk])[PACKETS_PER_MSG * |s.sent|..] == s.msg.packets + [pk]
  {
    forall k | 0 <= k < |s.sent|
      ensures s.sent[k] == MessageOf(ts, n, packets + [pk], k)
    {
      assert Group(packets + [pk], k) == Group(packets, k);
    }
  }

  /** The message that has become full is the next of the whole. */
  lemma FullMessage(s: Sending, pk: Packet, ts: Vec, n: nat, packets: seq<Packet>)
    requires SendingOk(s, ts, n, packets) && s.packetNum + 1 == PACKETS_PER_MSG
    ensures |packets| + 1 == PACKETS_PER_MSG * (|s.sent| + 1)
    ensures InfoMsg(s.msg.timestamp, s.packetNum + 1, s.msg.packets + [pk], s.msg.size + PACKET_SIZE)
            == MessageOf(ts, n, packets + [pk], |s.sent|)
  {
    assert Group(packets + [pk], |s.sent|) == s.msg.packets + [pk];
  }

  /** Appends a packet; a message without room for one more is counted and sent, and a new one begun. */
  method AppendPacket(s: Sending, pk: Packet, ts: Vec, n: nat, ghost packets: seq<Packet>) returns (t: Sending)
    requires SendingOk(s, ts, n, packets)
    ensures SendingOk(t, ts, n, packets + [pk])
  {
    assert s.msg.size + PACKET_SIZE <= MessageQueue.PAYLOAD;
    var msg := s.msg.(packets := s.msg.packets + [pk], size := s.msg.size + PACKET_SIZE);
    var packetNum := s.packetNum + 1;
    SentStays(s, pk, ts, n, packets);
    if PACKET_SIZE > MessageQueue.PAYLOAD - msg.size {
      msg := msg.(count := packetNum);
      FullMessage(s, pk, ts, n, packets);
      t := Sending(s.sent + [msg], InfoMsg(Unset(n), packetNum, [], SLOT_SIZE), 0);
    } else {
      t := Sending(s.sent, msg, packetNum);
    }
  }

  method AppendPackets(s: Sending, more: seq<Packet>, ts: Vec, n: nat, ghost packets: seq<Packet>) returns (t: Sending)
    requires SendingOk(s, ts, n, packets)
    ensures SendingOk(t, ts, n, packets + more)
  {
    t := s;
    assert packets + more[..0] == packets;
    for k := 0 to |more|
      invariant SendingOk(t, ts, n, packets + more[..k])
    {
      t := AppendPacket(t, more[k], ts, n, packets + more[..k]);
      assert packets + more[..k] + [more[k]] == packets + more[..k + 1];
    }
    assert more[..|more|] == more;
  }

  /** The last message goes out unless it is empty and not the first. */
  method FinishMessages(s: Sending, ghost ts: Vec, ghost n: nat, ghost packets: seq<Packet>)
    returns (msgs: seq<InfoMsg>)
    requires SendingOk(s, ts, n, packets)
    ensures msgs == EntryMessages(ts, n, packets)
  {
    if s.packetNum != 0 || s.sent == [] {
      msgs := s.sent + [s.msg.(count := s.packetNum)];
      assert Group(packets, |s.sent|) == s.msg.packets;
    } else {
      msgs := s.sent;
    }
  }

  // ----- the manager -----

  /** `handleGrantEnterBarrierMsg`'s loop over the packets that the slot counts. */
  function HandleInfo(m: Mem, msg: InfoMsg): (r: Mem)
    requires Wf(m) && 0 <= msg.count <= |msg.packets|
    requires forall k :: 0 <= k < msg.count ==> PacketWf(msg.packets[k], m.n, |m.pages|)
    ensures Wf(r) && r.n == m.n && |r.pages| == |m.pages|
  {
    IncorporateAll(m, msg.packets[..msg.count])
  }

  ghost predicate MsgWf(msg: InfoMsg, n: nat, pageCount: nat) {
    msg.count == |msg.packets| && forall k :: 0 <= k < |msg.packets| ==> PacketWf(msg.packets[k], n, pageCount)
  }

  ghost function HandleInfos(m: Mem, msgs: seq<InfoMsg>): (r: Mem)
    requires Wf(m) && forall k :: 0 <= k < |msgs| ==> MsgWf(msgs[k], m.n, |m.pages|)
    ensures Wf(r) && r.n == m.n && |r.pages| == |m.pages|
    decreases |msgs|
  {
    if msgs == [] then m
    else
      var last := msgs[|msgs| - 1];
      assert MsgWf(last, m.n, |m.pages|);
      HandleInfo(HandleInfos(m, msgs[..|msgs| - 1]), last)
  }

  lemma {:induction false} InfosCarry(m: Mem, msgs: seq<InfoMsg>)
    requires Wf(m) && forall k :: 0 <= k < |msgs| ==> MsgWf(msgs[k], m.n, |m.pages|)
    ensures forall k :: 0 <= k < |Carried(msgs)| ==> PacketWf(Carried(msgs)[k], m.n, |m.pages|)
    ensures HandleInfos(m, msgs) == IncorporateAll(m, Carried(msgs))
    decreases |msgs|
  {
    if msgs != [] {
      var last := msgs[|msgs| - 1];
      InfosCarry(m, msgs[..|msgs| - 1]);
      assert MsgWf(last, m.n, |m.pages|);
      assert last.packets[..last.count] == last.packets;
      IncorporateConcat(m, Carried(msgs[..|msgs| - 1]), last.packets);
    }
  }

  // ----- the round trip -----

  /** The pages appended one by one, each only if it is not there yet. */
  function AppendNew(acc: seq<nat>, pages: seq<nat>): (r: seq<nat>)
    decreases |pages|
  {
    if pages == [] then acc
    else
      var r, p := AppendNew(acc, pages[..|pages| - 1]), pages[|pages| - 1];
      if p in r then r else r + [p]
  }

  function FirstOccurrences(pages: seq<nat>): seq<nat> {
    AppendNew([], pages)
  }

  function FirstAt(pages: seq<nat>, p: nat): (k: nat)
    ensures k <= |pages| && (k < |pages| ==> pages[k] == p) && forall i :: 0 <= i < k ==> pages[i] != p
  {
    if pages == [] || pages[0] == p then 0 else 1 + FirstAt(pages[1..], p)
  }

  /** The same pages, each once, in the order of their first occurrence. */
  lemma {:induction false} FirstOccurrencesSpec(pages: seq<nat>)
    ensures var r := FirstOccurrences(pages);
            && (forall p :: p in r <==> p in pages)
            && (forall a, b :: 0 <= a < b < |r| ==>
                r[a] != r[b] && FirstAt(pages, r[a]) < FirstAt(pages, r[b]) < |pages|)
    decreases |pages|
  {
    if pages != [] {
      var front, last := pages[..|pages| - 1], pages[|pages| - 1];
      FirstOccurrencesSpec(front);
      assert pages == front + [last];
      var r, r' := FirstOccurrences(pages), FirstOccurrences(front);
      forall p | p in front
        ensures FirstAt(pages, p) == FirstAt(front, p) < |front|
      {
        FirstInFront(front, last, p);
      }
      forall a, b | 0 <= a < b < |r|
        ensures r[a] != r[b] && FirstAt(pages, r[a]) < FirstAt(pages, r[b]) < |pages|
      {
        assert r[a] == r'[a] && r'[a] in front;
        if b == |r'| {
          assert last !in front;
          assert FirstAt(pages, last) == |front|;
        } else {
          assert r'[b] in front;
        }
      }
    }
  }

  lemma FirstInFront(front: seq<nat>, last: nat, p: nat)
    requires p in front
    ensures FirstAt(front + [last], p) == FirstAt(front, p) < |front|
  {
    var x :| 0 <= x < |front| && front[x] == p;
    var a, b := FirstAt(front, p), FirstAt(front + [last], p);
    assert (front + [last])[x] == p;
    assert a < |front|;
    assert (front + [last])[a] == p;
  }

  /** What one page's list gains from an interval's pages, if it did not have the interval's notice yet. */
  function Gain(p: nat, known: seq<nat>, pages: seq<nat>, ts: Vec): seq<Notice> {
    if p in pages && p !in known then [Notice(ts, None)] else []
  }

  /** One more page, which may be there already. */
  lemma GainOne(m: Mem, h: nat, i: nat, last: nat, iv: Interval, front: seq<nat>, before: seq<Notice>, p: nat)
    requires Wf(m) && h < m.n && h != m.me && i < |m.procs[h]| && last < |m.pages| && p < |m.pages|
    requires m.procs[h][i].ts == iv.ts
    requires forall q :: q in m.procs[h][i].pages <==> q in iv.pages || q in front
    requires m.pages[p].notices[h] == Gain(p, iv.pages, front, iv.ts) + before
    ensures AddNotice(m, h, i, last).pages[p].notices[h] == Gain(p, iv.pages, front + [last], iv.ts) + before
  {
  }

  lemma AppendNewOne(acc: seq<nat>, front: seq<nat>, last: nat)
    ensures AppendNew(acc, front + [last])
            == if last in AppendNew(acc, front) then AppendNew(acc, front) else AppendNew(acc, front) + [last]
  {
    assert (front + [last])[..|front|] == front;
  }

  lemma ReplaceTwice<T>(list: seq<T>, i: nat, a: T, b: T)
    requires i < |list|
    ensures list[i := a][i := b] == list[i := b]
  {
  }

  lemma AppendOne(m: Mem, h: nat, i: nat, r1: Mem, iv: Interval, front: seq<nat>, last: nat)
    requires Wf(m) && h < m.n && i < |m.procs[h]| && iv == m.procs[h][i] && Wf(r1) && r1.n == m.n && last < |r1.pages|
    requires r1.procs == m.procs[h := m.procs[h][i := iv.(pages := AppendNew(iv.pages, front))]]
    ensures AddNotice(r1, h, i, last).procs
            == m.procs[h := m.procs[h][i := iv.(pages := AppendNew(iv.pages, front + [last]))]]
  {
    var a, b := iv.(pages := AppendNew(iv.pages, front)), iv.(pages := AppendNew(iv.pages, front + [last]));
    AppendNewOne(iv.pages, front, last);
    ReplaceTwice(m.procs[h], i, a, b);
    ReplaceTwice(m.procs, h, m.procs[h][i := a], m.procs[h][i := b]);
    assert r1.procs[h] == m.procs[h][i := a] && r1.procs[h][i] == a;
  }

  /** Incorporating pages of a remote host's interval, repetitions included. */
  lemma {:induction false} AddNoticesRebuild(m: Mem, h: nat, i: nat, pages: seq<nat>)
    requires Wf(m) && h < m.n && h != m.me && i < |m.procs[h]|
    requires forall k :: 0 <= k < |pages| ==> pages[k] < |m.pages|
    ensures var r, iv := AddNotices(m, h, i, pages), m.procs[h][i];
            && r.procs == m.procs[h := m.procs[h][i := iv.(pages := AppendNew(iv.pages, pages))]]
            && forall p :: 0 <= p < |m.pages| ==>
                 r.pages[p].notices[h] == Gain(p, iv.pages, pages, iv.ts) + m.pages[p].notices[h]
    decreases |pages|
  {
    var iv := m.procs[h][i];
    if pages == [] {
      assert m.procs[h][i := iv] == m.procs[h];
      assert m.procs[h := m.procs[h]] == m.procs;
      assert forall p :: 0 <= p < |m.pages| ==> [] + m.pages[p].notices[h] == m.pages[p].notices[h];
    } else {
      var front, last := pages[..|pages| - 1], pages[|pages| - 1];
      AddNoticesRebuild(m, h, i, front);
      assert pages == front + [last];
      AppendNewHas(iv.pages, front);
      var r1 := AddNotices(m, h, i, front);
      AppendOne(m, h, i, r1, iv, front, last);
      forall p | 0 <= p < |m.pages|
        ensures AddNotices(m, h, i, pages).pages[p].notices[h]
                == Gain(p, iv.pages, pages, iv.ts) + m.pages[p].notices[h]
      {
        GainOne(r1, h, i, last, iv, front, m.pages[p].notices[h], p);
      }
    }
  }

  lemma {:induction false} AppendNewHas(acc: seq<nat>, pages: seq<nat>)
    ensures forall p :: p in AppendNew(acc, pages) <==> p in acc || p in pages
    decreases |pages|
  {
    if pages != [] {
      AppendNewHas(acc, pages[..|pages| - 1]);
      assert pages == pages[..|pages| - 1] + [pages[|pages| - 1]];
    }
  }

  /** The sender's intervals that have notices, as the manager gets to know them. */
  function Rebuilt(ivs: seq<Interval>): seq<Interval> {
    if ivs == [] then []
    else
      (if ivs[0].pages != [] then [Interval(ivs[0].ts, FirstOccurrences(ivs[0].pages), false)] else [])
      + Rebuilt(ivs[1..])
  }

  /** The notices for page `p` that they bring, newest first. */
  function NoticesFor(ivs: seq<Interval>, p: nat): seq<Notice> {
    if ivs == [] then []
    else (if p in ivs[0].pages then [Notice(ivs[0].ts, None)] else []) + NoticesFor(ivs[1..], p)
  }

  /** Intervals with distinct timestamps that the manager has none of. */
  ghost predicate AllNew(m: Mem, host: nat, ivs: seq<Interval>)
    requires Wf(m) && host < m.n
  {
    && (forall i :: 0 <= i < |ivs| ==> |ivs[i].ts| == m.n)
    && (forall i, k :: 0 <= i < |ivs| && 0 <= k < |ivs[i].pages| ==> ivs[i].pages[k] < |m.pages|)
    && (forall i, j :: 0 <= i < j < |ivs| ==> ivs[i].ts != ivs[j].ts)
    && (forall i, k :: 0 <= i < |ivs| && 0 <= k < |m.procs[host]| ==> m.procs[host][k].ts != ivs[i].ts)
  }

  ghost predicate RoundTripped(m: Mem, host: nat, ivs: seq<Interval>, r: Mem)
    requires Wf(m) && host < m.n
  {
    && Wf(r) && r.me == m.me && r.n == m.n && |r.pages| == |m.pages|
    && r.procs == m.procs[host := Rebuilt(ivs) + m.procs[host]]
    && forall p :: 0 <= p < |m.pages| ==> r.pages[p].notices[host] == NoticesFor(ivs, p) + m.pages[p].notices[host]
  }

  lemma {:induction false} OtherTimes(ivs: seq<Interval>, ts: Vec)
    requires forall i :: 0 <= i < |ivs| ==> ivs[i].ts != ts
    ensures forall k :: 0 <= k < |Rebuilt(ivs)| ==> Rebuilt(ivs)[k].ts != ts
  {
    if ivs != [] {
      OtherTimes(ivs[1..], ts);
    }
  }

  /** A packet, with repetitions, for an interval that a remote host's list does not have. */
  lemma FreshPacket(m: Mem, pk: Packet)
    requires Wf(m) && PacketWf(pk, m.n, |m.pages|) && pk.host != m.me
    requires forall k :: 0 <= k < |m.procs[pk.host]| ==> m.procs[pk.host][k].ts != pk.ts
    ensures var r := IncorporatePacket(m, pk);
            && r.procs == m.procs[pk.host := [Interval(pk.ts, FirstOccurrences(pk.pages), false)] + m.procs[pk.host]]
            && forall p :: 0 <= p < |m.pages| ==>
                 r.pages[p].notices[pk.host] == (if p in pk.pages then [Notice(pk.ts, None)] else [])
                   + m.pages[p].notices[pk.host]
  {
    var m1 := EnsureInterval(m, pk.host, pk.ts);
    assert IntervalIdx(m1.procs[pk.host], pk.ts) == 0;
    AddNoticesRebuild(m1, pk.host, 0, pk.pages);
    var list := m1.procs[pk.host];
    assert list[0 := list[0].(pages := FirstOccurrences(pk.pages))]
      == [Interval(pk.ts, FirstOccurrences(pk.pages), false)] + m.procs[pk.host];
  }

  lemma OneMoreNotice(ivs: seq<Interval>, known: seq<Notice>, p: nat)
    requires ivs != []
    ensures (if p in ivs[0].pages then [Notice(ivs[0].ts, None)] else []) + (NoticesFor(ivs[1..], p) + known)
      == NoticesFor(ivs, p) + known
  {
  }

  lemma NotThereYet(m: Mem, host: nat, ivs: seq<Interval>, r: Mem)
    requires Wf(m) && host < m.n && ivs != [] && AllNew(m, host, ivs) && RoundTripped(m, host, ivs[1..], r)
    ensures PacketWf(Packet(host, ivs[0].ts, ivs[0].pages), r.n, |r.pages|)
    ensures forall k :: 0 <= k < |r.procs[host]| ==> r.procs[host][k].ts != ivs[0].ts
  {
    OtherTimes(ivs[1..], ivs[0].ts);
  }

  lemma OneMore(m: Mem, host: nat, ivs: seq<Interval>, r: Mem, r2: Mem)
    requires Wf(m) && host < m.n && ivs != [] && ivs[0].pages != [] && RoundTripped(m, host, ivs[1..], r)
    requires Wf(r2) && r2.me == r.me && r2.n == r.n && |r2.pages| == |r.pages|
    requires r2.procs == r.procs[host := [Interval(ivs[0].ts, FirstOccurrences(ivs[0].pages), false)] + r.procs[host]]
    requires forall p :: 0 <= p < |r.pages| ==>
               r2.pages[p].notices[host] == (if p in ivs[0].pages then [Notice(ivs[0].ts, None)] else [])
                 + r.pages[p].notices[host]
    ensures RoundTripped(m, host, ivs, r2)
  {
    var head := [Interval(ivs[0].ts, FirstOccurrences(ivs[0].pages), false)];
    assert head + (Rebuilt(ivs[1..]) + m.procs[host]) == (head + Rebuilt(ivs[1..])) + m.procs[host];
    forall p | 0 <= p < |m.pages|
      ensures r2.pages[p].notices[host] == NoticesFor(ivs, p) + m.pages[p].notices[host]
    {
      OneMoreNotice(ivs, m.pages[p].notices[host], p);
    }
  }

  lemma {:induction false} PacketsRebuild(m: Mem, host: nat, ivs: seq<Interval>)
    requires Wf(m) && host < m.n && host != m.me && AllNew(m, host, ivs)
    ensures forall k :: 0 <= k < |EntryPackets(host, ivs)| ==> PacketWf(EntryPackets(host, ivs)[k], m.n, |m.pages|)
    ensures RoundTripped(m, host, ivs, IncorporateAll(m, EntryPackets(host, ivs)))
  {
    if ivs == [] {
      assert [] + m.procs[host] == m.procs[host];
      assert m.procs[host := m.procs[host]] == m.procs;
      assert forall p :: 0 <= p < |m.pages| ==> [] + m.pages[p].notices[host] == m.pages[p].notices[host];
    } else {
      PacketsRebuild(m, host, ivs[1..]);
      var before := EntryPackets(host, ivs[1..]);
      var r := IncorporateAll(m, before);
      if ivs[0].pages != [] {
        var pk := Packet(host, ivs[0].ts, ivs[0].pages);
        NotThereYet(m, host, ivs, r);
        FreshPacket(r, pk);
        OneMore(m, host, ivs, r, IncorporatePacket(r, pk));
        PacketizedInterval(r, host, ivs[0].ts, ivs[0].pages);
        IncorporateConcat(m, before, Packetize(host, ivs[0].ts, ivs[0].pages));
      } else {
        assert before + [] == before;
        assert [] + Rebuilt(ivs[1..]) == Rebuilt(ivs[1..]);
        assert forall p :: [] + NoticesFor(ivs[1..], p) == NoticesFor(ivs[1..], p);
      }
    }
  }

  lemma MessagesWf(ts: Vec, n: nat, packets: seq<Packet>, pageCount: nat)
    requires forall k :: 0 <= k < |packets| ==> PacketWf(packets[k], n, pageCount)
    ensures forall k :: 0 <= k < |EntryMessages(ts, n, packets)| ==>
      MsgWf(EntryMessages(ts, n, packets)[k], n, pageCount)
  {
    forall k | 0 <= k < |EntryMessages(ts, n, packets)|
      ensures MsgWf(EntryMessages(ts, n, packets)[k], n, pageCount)
    {
      var g := Group(packets, k);
      forall i | 0 <= i < |g|
        ensures PacketWf(g[i], n, pageCount)
      {
        assert g[i] == packets[PACKETS_PER_MSG * k + i];
      }
    }
  }

  /**
   The manager handles a host's messages in order and knows exactly its intervals with notices since
   the last barrier, newest first, each with its pages in the order of their first occurrence, and has
   a notice for each in the page's list.
  */
  lemma EntryRoundTrip(m: Mem, host: nat, list: seq<Interval>, ts: Vec)
    requires Wf(m) && host < m.n && host != m.me && AllNew(m, host, SinceBarrier(list))
    ensures var msgs := EntryMessages(ts, m.n, EntryPackets(host, SinceBarrier(list)));
            && (forall k :: 0 <= k < |msgs| ==> MsgWf(msgs[k], m.n, |m.pages|))
            && RoundTripped(m, host, SinceBarrier(list), HandleInfos(m, msgs))
  {
    var packets := EntryPackets(host, SinceBarrier(list));
    var msgs := EntryMessages(ts, m.n, packets);
    PacketsRebuild(m, host, SinceBarrier(list));
    NothingLost(ts, m.n, packets);
    MessagesWf(ts, m.n, packets, |m.pages|);
    InfosCarry(m, msgs);
  }

  /** What is sent goes back to the last barrier interval and no further. */
  lemma {:induction false} SinceBarrierSpec(list: seq<Interval>)
    requires HasBarrier(list)
    ensures var r := SinceBarrier(list);
            && r != [] && r <= list && r[|r| - 1].isBarrier
            && forall i :: 0 <= i < |r| - 1 ==> !r[i].isBarrier
  {
    if !list[0].isBarrier {
      assert HasBarrier(list[1..]) by {
        var i :| 0 <= i < |list| && list[i].isBarrier;
        assert list[1..][i - 1].isBarrier;
      }
      SinceBarrierSpec(list[1..]);
    }
  }

  lemma {:induction false} SinceBarrierAt(list: seq<Interval>, i: nat)
    requires i < |list| && list[i].isBarrier && forall k :: 0 <= k < i ==> !list[k].isBarrier
    ensures SinceBarrier(list) == list[..i + 1]
  {
    if i == 0 {
      assert list[..1] == [list[0]];
    } else {
      SinceBarrierAt(list[1..], i - 1);
      assert list[..i + 1] == [list[0]] + list[1..][..i];
    }
  }

  // ----- leaving a barrier -----

  /**
   `handleGrantExitBarrierMsg`: a message that has a vector opens a barrier interval; then its packets are
   handled.
  */
  function HandleExit(m: Mem, msg: InfoMsg): (r: Mem)
    requires Wf(m) && |msg.timestamp| == m.n && 0 <= msg.count <= |msg.packets|
    requires forall k :: 0 <= k < msg.count ==> PacketWf(msg.packets[k], m.n, |m.pages|)
    ensures Wf(r) && r.n == m.n && |r.pages| == |m.pages|
  {
    HandleInfo(if msg.timestamp[0] != -1 then BarrierInterval(m, msg.timestamp) else m, msg)
  }

  ghost predicate ExitWf(msg: InfoMsg, n: nat, pageCount: nat) {
    |msg.timestamp| == n && MsgWf(msg, n, pageCount)
  }

  ghost function HandleExits(m: Mem, msgs: seq<InfoMsg>): (r: Mem)
    requires Wf(m) && forall k :: 0 <= k < |msgs| ==> ExitWf(msgs[k], m.n, |m.pages|)
    ensures Wf(r) && r.n == m.n && |r.pages| == |m.pages|
    decreases |msgs|
  {
    if msgs == [] then m
    else
      var last := msgs[|msgs| - 1];
      assert ExitWf(last, m.n, |m.pages|);
      HandleExit(HandleExits(m, msgs[..|msgs| - 1]), last)
  }

  /** Only the first message opens an interval, so the messages act like their packets after that interval. */
  lemma {:induction false} ExitsAreInfos(m: Mem, msgs: seq<InfoMsg>, ts: Vec)
    requires Wf(m) && msgs != [] && |ts| == m.n && msgs[0].timestamp == ts && ts[0] != -1
    requires forall k :: 0 <= k < |msgs| ==> ExitWf(msgs[k], m.n, |m.pages|) && (k > 0 ==> msgs[k].timestamp[0] == -1)
    ensures forall k :: 0 <= k < |msgs| ==> MsgWf(msgs[k], m.n, |m.pages|)
    ensures HandleExits(m, msgs) == HandleInfos(BarrierInterval(m, ts), msgs)
    decreases |msgs|
  {
    var last := |msgs| - 1;
    assert ExitWf(msgs[last], m.n, |m.pages|);
    if last > 0 {
      ExitsAreInfos(m, msgs[..last], ts);
    } else {
      assert HandleExits(m, msgs[..last]) == m &&
        HandleInfos(BarrierInterval(m, ts), msgs[..last]) == BarrierInterval(m, ts);
    }
  }

  /** The exit messages together open one barrier interval and bring all the packets, in order. */
  lemma ExitRoundTrip(m: Mem, ts: Vec, packets: seq<Packet>)
    requires Wf(m) && |ts| == m.n && ts[0] != -1
    requires forall k :: 0 <= k < |packets| ==> PacketWf(packets[k], m.n, |m.pages|)
    ensures var msgs := EntryMessages(ts, m.n, packets);
            && (forall k :: 0 <= k < |msgs| ==> ExitWf(msgs[k], m.n, |m.pages|))
            && HandleExits(m, msgs) == IncorporateAll(BarrierInterval(m, ts), packets)
  {
    var msgs := EntryMessages(ts, m.n, packets);
    MessagesWf(ts, m.n, packets, |m.pages|);
    ExitsAreInfos(m, msgs, ts);
    InfosCarry(BarrierInterval(m, ts), msgs);
    NothingLost(ts, m.n, packets);
  }
  // ----- where the exit messages go -----

  /** For each packet of an interval, whether it follows another packet of the same interval. */
  function Rests(k: nat): (r: seq<bool>)
    ensures |r| == k && forall i :: 0 <= i < k ==> (r[i] <==> i > 0)
  {
    seq(k, i => i > 0)
  }

  function HostRests(list: seq<Interval>, t: Vec): (r: seq<bool>) {
    if list == [] then []
    else HostRests(list[1..], t) + if Wanted(list[0], t) then Rests(|Packetize(0, list[0].ts, list[0].pages)|) else []
  }

  /** The same for all packets that go to a host whose vector at entry is `t`. */
  function GrantedRests(m: Mem, t: Vec, upto: nat): (r: seq<bool>)
    requires upto <= |m.procs|
  {
    if upto == 0 then [] else GrantedRests(m, t, upto - 1) + HostRests(m.procs[upto - 1], t)
  }

  lemma {:induction false} PacketCount(a: nat, b: nat, ts: Vec, pages: seq<nat>)
    ensures |Packetize(a, ts, pages)| == |Packetize(b, ts, pages)|
    ensures |pages| <= MAX_WN_NUM ==> |Packetize(a, ts, pages)| == 1
    decreases |pages|
  {
    if |pages| > MAX_WN_NUM {
      PacketCount(a, b, ts, pages[MAX_WN_NUM..]);
    }
  }

  ghost predicate Small(list: seq<Interval>) {
    forall i :: 0 <= i < |list| ==> |list[i].pages| <= MAX_WN_NUM
  }

  lemma {:induction false} HostRestsFit(h: nat, list: seq<Interval>, t: Vec)
    ensures |HostRests(list, t)| == |HostPackets(h, list, t)|
    ensures Small(list) ==> forall i :: 0 <= i < |HostRests(list, t)| ==> !HostRests(list, t)[i]
  {
    if list != [] {
      HostRestsFit(h, list[1..], t);
      PacketCount(0, h, list[0].ts, list[0].pages);
    }
  }

  lemma {:induction false} GrantedRestsFit(m: Mem, t: Vec, upto: nat)
    requires upto <= |m.procs|
    ensures |GrantedRests(m, t, upto)| == |GrantedPackets(m, t, upto)|
    ensures (forall h :: 0 <= h < upto ==> Small(m.procs[h])) ==>
              forall i :: 0 <= i < |GrantedRests(m, t, upto)| ==> !GrantedRests(m, t, upto)[i]
  {
    if upto > 0 {
      GrantedRestsFit(m, t, upto - 1);
      HostRestsFit(upto - 1, m.procs[upto - 1], t);
    }
  }

  /**
   The host that message `k` for host `i` is sent to. The first is sent to `i`; a later one is begun when the
   one before it is full, and then addressed to host 0 if the packet that filled it was not its interval's first.
  */
  function DestOf(i: nat, rests: seq<bool>, k: nat): nat {
    if k > 0 && PACKETS_PER_MSG * k <= |rests| && rests[PACKETS_PER_MSG * k - 1] then 0 else i
  }

  /** Messages with the hosts they were sent to, and the host the message being filled is addressed to. */
  datatype Returning = Returning(s: Sending, to: seq<nat>, dest: nat)

  ghost predicate ReturningOk(r: Returning, i: nat, ts: Vec, n: nat, packets: seq<Packet>, rests: seq<bool>) {
    && SendingOk(r.s, ts, n, packets) && |rests| == |packets| && |r.to| == |r.s.sent|
    && r.dest == DestOf(i, rests, |r.s.sent|)
    && forall k :: 0 <= k < |r.to| ==> r.to[k] == DestOf(i, rests, k)
  }

  method ReturnPacket(r: Returning, pk: Packet, follows: bool, i: nat, ts: Vec, n: nat,
                      ghost packets: seq<Packet>, ghost rests: seq<bool>)
    returns (q: Returning)
    requires ReturningOk(r, i, ts, n, packets, rests)
    ensures ReturningOk(q, i, ts, n, packets + [pk], rests + [follows])
  {
    var s := AppendPacket(r.s, pk, ts, n, packets);
    if |s.sent| > |r.s.sent| {
      q := Returning(s, r.to + [r.dest], if follows then 0 else i);
    } else {
      q := r.(s := s);
    }
  }

  /** All packets of one interval. */
  method ReturnPackets(r: Returning, more: seq<Packet>, i: nat, ts: Vec, n: nat,
                       ghost packets: seq<Packet>, ghost rests: seq<bool>)
    returns (q: Returning)
    requires ReturningOk(r, i, ts, n, packets, rests)
    ensures ReturningOk(q, i, ts, n, packets + more, rests + Rests(|more|))
  {
    q := r;
    assert packets + more[..0] == packets && rests + Rests(0) == rests;
    for k := 0 to |more|
      invariant ReturningOk(q, i, ts, n, packets + more[..k], rests + Rests(k))
    {
      q := ReturnPacket(q, more[k], k > 0, i, ts, n, packets + more[..k], rests + Rests(k));
      assert packets + more[..k] + [more[k]] == packets + more[..k + 1];
      assert rests + Rests(k) + [k > 0] == rests + Rests(k + 1);
    }
    assert more[..|more|] == more;
  }

  /** One more interval of a host's list is in the messages. */
  lemma MoreReturned(h: nat, list: seq<Interval>, t: Vec, packets: seq<Packet>, rests: seq<bool>)
    requires list != []
    ensures var iv, before, done := list[0], packets + HostPackets(h, list[1..], t), rests + HostRests(list[1..], t);
            && packets + HostPackets(h, list, t)
                 == (if Wanted(iv, t) then before + Packetize(h, iv.ts, iv.pages) else before)
            && rests + HostRests(list, t)
               == if Wanted(iv, t) then done + Rests(|Packetize(0, iv.ts, iv.pages)|) else done
  {
  }

  method FinishReturn(r: Returning, ghost i: nat, ghost ts: Vec, ghost n: nat,
                      ghost packets: seq<Packet>, ghost rests: seq<bool>)
    returns (msgs: seq<InfoMsg>, to: seq<nat>)
    requires ReturningOk(r, i, ts, n, packets, rests)
    ensures msgs == EntryMessages(ts, n, packets)
    ensures |to| == |msgs| && forall k :: 0 <= k < |to| ==> to[k] == DestOf(i, rests, k)
  {
    msgs := FinishMessages(r.s, ts, n, packets);
    to := if |msgs| > |r.to| then r.to + [r.dest] else r.to;
  }

  /** Every message of the reply to host `i` is sent to it. */
  ghost predicate Reaches(m: Mem, t: Vec, i: nat) {
    forall k :: 0 <= k < MessageCount(|GrantedPackets(m, t, |m.procs|)|) ==>
      DestOf(i, GrantedRests(m, t, |m.procs|), k) == i
  }

  /** What is sent to host `i`, and to whom: all of it to `i` exactly if the reply reaches it. */
  ghost predicate RepliesWith(m: Mem, n: nat, t: Vec, ts: Vec, i: nat, msgs: seq<InfoMsg>, to: seq<nat>) {
    && |m.procs| == n && msgs == EntryMessages(ts, n, GrantedPackets(m, t, n)) && |to| == |msgs|
    && (Reaches(m, t, i) <==> forall k :: 0 <= k < |to| ==> to[k] == i)
  }

  /** With at most 1024 notices per interval it is. */
  lemma SmallReaches(m: Mem, t: Vec, i: nat)
    requires forall h :: 0 <= h < |m.procs| ==> Small(m.procs[h])
    ensures Reaches(m, t, i)
  {
    GrantedRestsFit(m, t, |m.procs|);
  }
  /** With more it need not be: of ten packets of one interval the ninth fills the first message. */
  lemma LargeIsMisaddressed(m: Mem, t: Vec, i: nat)
    requires |m.procs| == 2 && i > 0 && m.procs[1] == []
    requires |m.procs[0]| == 1 && Wanted(m.procs[0][0], t) && |m.procs[0][0].pages| == PACKETS_PER_MSG * MAX_WN_NUM + 1
    ensures !Reaches(m, t, i)
  {
    var iv := m.procs[0][0];
    PacketizeLength(0, iv.ts, iv.pages);
    assert HostRests([], t) == [] && HostPackets(0, [], t) == [] && m.procs[0][1..] == [];
    assert HostRests(m.procs[0], t) == Rests(PACKETS_PER_MSG + 1);
    assert GrantedRests(m, t, 1) == GrantedRests(m, t, 0) + HostRests(m.procs[0], t);
    assert GrantedRests(m, t, 2) == GrantedRests(m, t, 1) + HostRests(m.procs[1], t);
    GrantedRestsFit(m, t, 2);
    assert DestOf(i, GrantedRests(m, t, |m.procs|), 1) == 0;
  }

  lemma {:induction false} PacketizeLength(h: nat, ts: Vec, pages: seq<nat>)
    requires pages != []
    ensures |Packetize(h, ts, pages)| == (|pages| + MAX_WN_NUM - 1) / MAX_WN_NUM
    decreases |pages|
  {
    if |pages| > MAX_WN_NUM {
      PacketizeLength(h, ts, pages[MAX_WN_NUM..]);
    }
  }
}
