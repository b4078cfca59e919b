/** The ring of messages of `net.c` and the appending of data to a message. */
module MessageQueue {
  import opened Limits
  import opened Vectors

  const MAX_QUEUE_SIZE: nat := 20
  const MAX_MSG_SIZE: nat := 40960
  const MSG_HEAD_SIZE: nat := 100
  const PAYLOAD: nat := MAX_MSG_SIZE - MSG_HEAD_SIZE

  datatype Msg = Msg(from: int, to: int, command: int, size: nat, seqno: int, timestamp: Vec, data: seq<int>)

  /** What `nextFreeMsgInQueue` makes of a slot. */
  function Blank(): Msg {
    Msg(-1, -1, -1, 0, -1, Unset(MAX_HOST_NUM), seq(PAYLOAD, _ => 0))
  }

  /** A slot that nothing of an older message is left in: no sender, no receiver, no vector, no data. */
  ghost predicate Cleared(m: Msg) {
    && m.from == m.to == m.command == m.seqno == -1 && m.size == 0
    && |m.timestamp| == 20 && (forall i :: 0 <= i < 20 ==> m.timestamp[i] == -1)
    && |m.data| == 40860 && (forall i :: 0 <= i < 40860 ==> m.data[i] == 0)
  }

  /** The message after data that fits has been appended. */
  function Appended(m: Msg, data: seq<int>): (r: Msg)
    requires |m.data| == PAYLOAD && m.size + |data| <= PAYLOAD
    ensures |r.data| == PAYLOAD
  {
    m.(data := m.data[..m.size] + data + m.data[m.size + |data|..], size := m.size + |data|)
  }

  function Joined(parts: seq<seq<int>>): seq<int> {
    if parts == [] then [] else Joined(parts[..|parts| - 1]) + parts[|parts| - 1]
  }

  /** The message after one piece of data after the other has been appended. */
  function Built(m: Msg, parts: seq<seq<int>>): (r: Msg)
    requires |m.data| == PAYLOAD && m.size + |Joined(parts)| <= PAYLOAD
    ensures |r.data| == PAYLOAD && r.size == m.size + |Joined(parts)|
    decreases |parts|
  {
    if parts == [] then m else Appended(Built(m, parts[..|parts| - 1]), parts[|parts| - 1])
  }

  /** The data of a message that was built from a cleared slot is what was appended, and it has no vector. */
  lemma {:induction false} BuiltFromCleared(m: Msg, parts: seq<seq<int>>)
    requires Cleared(m) && |Joined(parts)| <= PAYLOAD
    ensures var r := Built(m, parts);
            && r.size == |Joined(parts)| && r.data[..r.size] == Joined(parts)
            && (forall i :: r.size <= i < PAYLOAD ==> r.data[i] == 0)
            && |r.timestamp| == MAX_HOST_NUM && (forall i :: 0 <= i < MAX_HOST_NUM ==> r.timestamp[i] == -1)
            && r.from == r.to == r.command == r.seqno == -1
    decreases |parts|
  {
    if parts != [] {
      BuiltFromCleared(m, parts[..|parts| - 1]);
    }
  }

  /** The `i`-th slot from `head`, around the ring. */
  function SlotAt(head: nat, i: nat): (k: nat)
    ensures k < MAX_QUEUE_SIZE
  {
    (head + i) % MAX_QUEUE_SIZE
  }

  function Contents(slots: seq<Msg>, head: nat, size: nat): (r: seq<Msg>)
    requires |slots| == MAX_QUEUE_SIZE && head < MAX_QUEUE_SIZE && size <= MAX_QUEUE_SIZE
    ensures |r| == size
  {
    seq(size, i requires 0 <= i < size => slots[SlotAt(head, i)])
  }

  class Ring {
    const slots: array<Msg>
    var head: nat
    var tail: nat
    var size: nat

    ghost predicate Valid()
      reads this
    {
      && slots.Length == MAX_QUEUE_SIZE && head < MAX_QUEUE_SIZE && tail < MAX_QUEUE_SIZE && size <= MAX_QUEUE_SIZE
      && tail == SlotAt(head, size)
    }

    ghost function Queued(): (r: seq<Msg>)
      reads this, slots
      requires Valid()
      ensures |r| == size
    {
      Contents(slots[..], head, size)
    }

    constructor ()
      ensures Valid() && Queued() == [] && fresh(slots)
    {
      slots := new Msg[MAX_QUEUE_SIZE](_ => Blank());
      head, tail, size := 0, 0, 0;
    }

    /** The slot after the last message, cleared; null when the ring is full. */
    method NextFreeMsg() returns (slot: int)
      requires Valid()
      modifies slots
      ensures Valid() && Queued() == old(Queued())
      ensures slot == if size == MAX_QUEUE_SIZE then -1 else tail
      ensures slot != -1 ==> Cleared(slots[tail]) && slots[tail] == Blank()
    {
      if size == MAX_QUEUE_SIZE {
        return -1;
      }
      slots[tail] := Blank();
      TailIsFree(head, size, tail);
      return tail;
    }

    /** The message in the slot after the last becomes the last. */
    method MsgEnqueue() returns (r: int)
      requires Valid()
      modifies this
      ensures Valid() && r == if old(size) == MAX_QUEUE_SIZE then -2 else 0
      ensures Queued() == if r == 0 then old(Queued()) + [slots[old(tail)]] else old(Queued())
    {
      if size == MAX_QUEUE_SIZE {
        return -2;
      }
      tail := (tail + 1) % MAX_QUEUE_SIZE;
      size := size + 1;
      return 0;
    }

    method QueueTop() returns (slot: int)
      requires Valid()
      ensures slot == -1 <==> Queued() == []
      ensures slot != -1 ==> 0 <= slot < MAX_QUEUE_SIZE && slots[slot] == Queued()[0]
    {
      return if size == 0 then -1 else head;
    }

    method MsgDequeue() returns (r: int)
      requires Valid()
      modifies this
      ensures Valid() && r == if old(size) == 0 then -2 else 0
      ensures Queued() == if r == 0 then old(Queued())[1..] else []
    {
      if size == 0 {
        return -2;
      }
      FirstTaken(slots[..], head, size);
      head := (head + 1) % MAX_QUEUE_SIZE;
      size := size - 1;
      return 0;
    }

    /**
     `apendMsgData` on the message being built. The C code compares only the length with the payload:
     data that does not fit behind what is there runs on into the next slot.
    */
    method ApendMsgData(data: seq<int>) returns (r: int)
      requires Valid() && size < MAX_QUEUE_SIZE && |slots[tail].data| == PAYLOAD && slots[tail].size <= PAYLOAD
      modifies slots
      ensures Valid() && r == if |data| == 0 then -1 else if |data| > PAYLOAD then -2 else 0
      ensures r == 0 ==> slots[tail].size == old(slots[tail]).size + |data| && |slots[tail].data| == PAYLOAD
      ensures r == 0 && slots[tail].size <= PAYLOAD ==>
                && slots[tail] == Appended(old(slots[tail]), data)
                && slots[tail].data[..slots[tail].size] == old(slots[tail]).data[..old(slots[tail]).size] + data
                && Queued() == old(Queued())
      ensures r == 0 && slots[tail].size > PAYLOAD ==>
                && slots[tail].data == old(slots[tail]).data[..old(slots[tail]).size]
                     + data[..PAYLOAD - old(slots[tail]).size]
                && forall k :: 0 <= k < MAX_QUEUE_SIZE && k != tail && k != tail + 1 ==> slots[k] == old(slots[k])
      ensures r != 0 ==> slots[..] == old(slots[..])
    {
      if |data| == 0 {
        return -1;
      }
      if |data| > PAYLOAD {
        return -2;
      }
      var msg := slots[tail];
      var end := msg.size + |data|;
      TailIsFree(head, size, tail);
      if end <= PAYLOAD {
        slots[tail] := msg.(data := msg.data[..msg.size] + data + msg.data[end..], size := end);
      } else {
        slots[tail] := msg.(data := msg.data[..msg.size] + data[..PAYLOAD - msg.size], size := end);
        if tail + 1 < MAX_QUEUE_SIZE {
          slots[tail + 1] := *;
        }
      }
      return 0;
    }
  }

  /** The messages from the second slot on are those behind the first. */
  lemma FirstTaken(slots: seq<Msg>, head: nat, size: nat)
    requires |slots| == MAX_QUEUE_SIZE && head < MAX_QUEUE_SIZE && 0 < size <= MAX_QUEUE_SIZE
    ensures Contents(slots, (head + 1) % MAX_QUEUE_SIZE, size - 1) == Contents(slots, head, size)[1..]
    ensures SlotAt((head + 1) % MAX_QUEUE_SIZE, size - 1) == SlotAt(head, size)
  {
    var r := Contents(slots, (head + 1) % MAX_QUEUE_SIZE, size - 1);
    forall i | 0 <= i < |r|
      ensures r[i] == Contents(slots, head, size)[1..][i]
    {
      assert SlotAt((head + 1) % MAX_QUEUE_SIZE, i) == SlotAt(head, i + 1);
    }
  }

  /** The slot after the last message holds none of the messages. */
  lemma TailIsFree(head: nat, size: nat, tail: nat)
    requires head < MAX_QUEUE_SIZE && size < MAX_QUEUE_SIZE && tail == SlotAt(head, size)
    ensures forall i :: 0 <= i < size ==> SlotAt(head, i) != tail
  {
  }
}
