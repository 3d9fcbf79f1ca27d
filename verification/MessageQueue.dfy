/**
 The inbound message queue as a value: a bounded FIFO of messages whose two buffers live on the heap, and a record
 of what was put, removed and freed. Each function is one uninterruptible piece of the C functions.
 */
module MessageQueue {
  import opened CInt
  import opened Wrappers

  type Bytes = seq<Byte>

  /** A heap block, told apart by its number, with what was copied into it. */
  datatype Buffer = Buffer(id: nat, bytes: Bytes)

  /** `IotcMqMessage`; a null pointer is None. */
  datatype Message = Message(topic: Option<Buffer>, body: Option<Buffer>, len: nat)

  const NO_MESSAGE := Message(None, None, 0)

  /** A message that left the queue, either given to the client or flushed. */
  datatype Removal = Removal(message: Message, delivered: bool)

  datatype Mq = Mq(
    initialized: bool,
    capacity: nat,
    queue: seq<Message>,
    registered: bool,          // client_msg_cb != NULL
    allocations: nat,          // blocks ever allocated; they are numbered 0, 1, ...
    puts: seq<Message>,        // accepted by the queue, in order
    removed: seq<Removal>,     // taken from it, in order
    freed: seq<nat>)           // calls of iotcl_free

  function Allocate(m: Mq, bytes: Bytes, ok: bool): (Mq, Option<Buffer>) {
    if ok then (m.(allocations := m.allocations + 1), Some(Buffer(m.allocations, bytes))) else (m, None)
  }

  function IdOf(b: Option<Buffer>): seq<nat> {
    match b
    case None => []
    case Some(buffer) => [buffer.id]
  }

  /** The blocks of a message, in the order in which they are freed. */
  function Blocks(msg: Message): seq<nat> {
    IdOf(msg.topic) + IdOf(msg.body)
  }

  function Destroy(m: Mq, msg: Message): Mq {
    m.(freed := m.freed + Blocks(msg))
  }

  /** Copies topic and body; if either allocation fails, frees the other and has no message. */
  function Create(m: Mq, topic: Bytes, body: Bytes, haveTopic: bool, haveBody: bool): (Mq, Option<Message>) {
    var (m1, t) := Allocate(m, topic, haveTopic);
    var (m2, b) := Allocate(m1, body, haveBody);
    if t.None? || b.None? then (Destroy(m2, Message(t, b, 0)), None)
    else (m2, Some(Message(t, b, |body|)))
  }

  predicate Full(m: Mq) {
    |m.queue| >= m.capacity
  }

  function Put(m: Mq, msg: Message): Mq
    requires !Full(m)
  {
    m.(queue := m.queue + [msg], puts := m.puts + [msg])
  }

  function Take(m: Mq, delivered: bool): Mq
    requires m.queue != []
  {
    m.(queue := m.queue[1..], removed := m.removed + [Removal(m.queue[0], delivered)])
  }

  function FlushOne(m: Mq): Mq
    requires m.queue != []
  {
    Destroy(Take(m, false), m.queue[0])
  }

  // ----- Ownership -----

  function InBuffer(b: Option<Buffer>, id: nat): nat {
    if b.Some? && b.value.id == id then 1 else 0
  }

  function InMessage(msg: Message, id: nat): nat {
    InBuffer(msg.topic, id) + InBuffer(msg.body, id)
  }

  /** How often a block occurs in some messages, or among some block numbers. */
  function InMessages(msgs: seq<Message>, id: nat): nat {
    if msgs == [] then 0 else InMessage(msgs[0], id) + InMessages(msgs[1..], id)
  }

  function InIds(ids: seq<nat>, id: nat): nat {
    if ids == [] then 0 else (if ids[0] == id then 1 else 0) + InIds(ids[1..], id)
  }

  function Delivered(removed: seq<Removal>): seq<Message> {
    if removed == [] then []
    else
      var last, front := removed[|removed| - 1], Delivered(removed[..|removed| - 1]);
      if last.delivered then front + [last.message] else front
  }

  function Messages(removed: seq<Removal>): seq<Message> {
    seq(|removed|, i requires 0 <= i < |removed| => removed[i].message)
  }

  /** How many owners a block has among the producer (holding `held`), the queue, the client and the freed blocks. */
  function Owners(m: Mq, held: seq<Message>, id: nat): nat {
    InMessages(held, id) + InMessages(m.queue, id) + InMessages(Delivered(m.removed), id) + InIds(m.freed, id)
  }

  /**
   Each block ever allocated has exactly one owner among those four; so none is freed twice, and none is freed while
   still in use.
   */
  ghost predicate Owned(m: Mq, held: seq<Message>) {
    forall id: nat :: Owners(m, held, id) == if id < m.allocations then 1 else 0
  }

  /** What was removed, in order, followed by what is queued, is what was put, in order; within the capacity. */
  predicate Fifo(m: Mq) {
    Messages(m.removed) + m.queue == m.puts && |m.queue| <= m.capacity
  }

  lemma {:induction false} InMessagesAppend(a: seq<Message>, b: seq<Message>, id: nat)
    ensures InMessages(a + b, id) == InMessages(a, id) + InMessages(b, id)
  {
    if a == [] {
      assert a + b == b;
    } else {
      InMessagesAppend(a[1..], b, id);
      assert (a + b)[1..] == a[1..] + b;
    }
  }

  lemma {:induction false} InIdsAppend(a: seq<nat>, b: seq<nat>, id: nat)
    ensures InIds(a + b, id) == InIds(a, id) + InIds(b, id)
  {
    if a == [] {
      assert a + b == b;
    } else {
      InIdsAppend(a[1..], b, id);
      assert (a + b)[1..] == a[1..] + b;
    }
  }

  lemma InOne(msg: Message, id: nat)
    ensures InMessages([msg], id) == InMessage(msg, id)
  {
    assert [msg][1..] == [];
  }

  lemma InBlocks(msg: Message, id: nat)
    ensures InIds(Blocks(msg), id) == InMessage(msg, id)
  {
    InIdsAppend(IdOf(msg.topic), IdOf(msg.body), id);
    InIdOf(msg.topic, id);
    InIdOf(msg.body, id);
  }

  lemma InIdOf(b: Option<Buffer>, id: nat)
    ensures InIds(IdOf(b), id) == InBuffer(b, id)
  {
  }

  lemma DeliveredAppend(removed: seq<Removal>, r: Removal)
    ensures Delivered(removed + [r]) == if r.delivered then Delivered(removed) + [r.message] else Delivered(removed)
  {
    assert (removed + [r])[..|removed|] == removed;
  }

  /** Destroying a held message hands its blocks back: from the producer to the freed ones. */
  lemma DestroyOwned(m: Mq, msg: Message)
    requires Owned(m, [msg])
    ensures Owned(Destroy(m, msg), [])
  {
    forall id: nat
      ensures Owners(Destroy(m, msg), [], id) == Owners(m, [msg], id)
    {
      InIdsAppend(m.freed, Blocks(msg), id);
      InBlocks(msg, id);
      InOne(msg, id);
    }
  }

  /** Allocating makes one new block, which the producer then holds in the message it is building. */
  lemma AllocateOwned(m: Mq, bytes: Bytes, ok: bool, held: Message)
    requires Owned(m, [held])
    ensures var (r, b) := Allocate(m, bytes, ok);
            && (held.topic.None? ==> Owned(r, [held.(topic := b)]))
            && (held.body.None? ==> Owned(r, [held.(body := b)]))
  {
    var (r, b) := Allocate(m, bytes, ok);
    forall id: nat
      ensures held.topic.None? ==> Owners(r, [held.(topic := b)], id) == if id < r.allocations then 1 else 0
      ensures held.body.None? ==> Owners(r, [held.(body := b)], id) == if id < r.allocations then 1 else 0
    {
      assert Owners(m, [held], id) == if id < m.allocations then 1 else 0;
      InOne(held, id);
      InOne(held.(topic := b), id);
      InOne(held.(body := b), id);
    }
  }

  lemma HoldNothing(m: Mq)
    ensures Owned(m, [NO_MESSAGE]) <==> Owned(m, [])
  {
    forall id: nat
      ensures Owners(m, [NO_MESSAGE], id) == Owners(m, [], id)
    {
      InOne(NO_MESSAGE, id);
    }
  }

  /** The length of a held message is no block. */
  lemma LengthOwnsNothing(m: Mq, msg: Message, len: nat)
    requires Owned(m, [msg])
    ensures Owned(m, [msg.(len := len)])
  {
    forall id: nat
      ensures Owners(m, [msg.(len := len)], id) == Owners(m, [msg], id)
    {
      InOne(msg, id);
      InOne(msg.(len := len), id);
    }
  }

  /** Creating a message gives the producer two new blocks with copies of the arguments, or leaves nothing behind. */
  lemma CreateOwned(m: Mq, topic: Bytes, body: Bytes, haveTopic: bool, haveBody: bool)
    requires Owned(m, [])
    ensures var (r, msg) := Create(m, topic, body, haveTopic, haveBody);
            && Owned(r, if msg.Some? then [msg.value] else [])
            && r.queue == m.queue && r.puts == m.puts && r.removed == m.removed
            && (msg.Some? <==> haveTopic && haveBody)
            && (msg.Some? ==> && msg.value.topic.Some? && msg.value.topic.value.bytes == topic
                              && msg.value.body.Some? && msg.value.body.value.bytes == body
                              && msg.value.len == |body|)
  {
    var (m1, t) := Allocate(m, topic, haveTopic);
    var (m2, b) := Allocate(m1, body, haveBody);
    HoldNothing(m);
    AllocateOwned(m, topic, haveTopic, NO_MESSAGE);
    AllocateOwned(m1, body, haveBody, NO_MESSAGE.(topic := t));
    LengthOwnsNothing(m2, Message(t, b, 0), |body|);
    if t.None? || b.None? {
      DestroyOwned(m2, Message(t, b, 0));
    }
  }

  lemma PutOwned(m: Mq, msg: Message)
    requires Owned(m, [msg]) && Fifo(m) && !Full(m)
    ensures Owned(Put(m, msg), []) && Fifo(Put(m, msg))
  {
    forall id: nat
      ensures Owners(Put(m, msg), [], id) == Owners(m, [msg], id)
    {
      InMessagesAppend(m.queue, [msg], id);
    }
    assert Messages(m.removed) + (m.queue + [msg]) == (Messages(m.removed) + m.queue) + [msg];
  }

  /** Taking the oldest message moves its blocks from the queue to the client. */
  lemma DeliverOwned(m: Mq, held: seq<Message>)
    requires Owned(m, held) && Fifo(m) && m.queue != []
    ensures Owned(Take(m, true), held) && Fifo(Take(m, true))
  {
    var head := m.queue[0];
    DeliveredAppend(m.removed, Removal(head, true));
    TakeFifo(m, true);
    forall id: nat
      ensures Owners(Take(m, true), held, id) == Owners(m, held, id)
    {
      InMessagesAppend(Delivered(m.removed), [head], id);
      InOne(head, id);
    }
  }

  /** Flushing it frees them. */
  lemma FlushOwned(m: Mq, held: seq<Message>)
    requires Owned(m, held) && Fifo(m) && m.queue != []
    ensures Owned(FlushOne(m), held) && Fifo(FlushOne(m))
  {
    var head := m.queue[0];
    DeliveredAppend(m.removed, Removal(head, false));
    TakeFifo(m, false);
    forall id: nat
      ensures Owners(FlushOne(m), held, id) == Owners(m, held, id)
    {
      InIdsAppend(m.freed, Blocks(head), id);
      InBlocks(head, id);
    }
  }

  lemma TakeFifo(m: Mq, delivered: bool)
    requires Fifo(m) && m.queue != []
    ensures Fifo(Take(m, delivered))
  {
    var r := Removal(m.queue[0], delivered);
    assert Messages(m.removed + [r]) == Messages(m.removed) + [m.queue[0]];
    assert (Messages(m.removed) + [m.queue[0]]) + m.queue[1..] == Messages(m.removed) + m.queue;
  }

  /** Single ownership means in particular that no block is freed twice. */
  lemma NeverFreedTwice(m: Mq, held: seq<Message>, i: nat, j: nat)
    requires Owned(m, held) && i < j < |m.freed|
    ensures m.freed[i] != m.freed[j]
  {
    var id := m.freed[i];
    assert Owners(m, held, id) <= 1;
    Occurs(m.freed[..j], i);
    Occurs(m.freed[j..], 0);
    InIdsAppend(m.freed[..j], m.freed[j..], id);
    assert m.freed[..j] + m.freed[j..] == m.freed;
  }

  /** Nor is one freed that was never allocated, or that the producer, the queue or the client still has. */
  lemma NeverFreedInUse(m: Mq, held: seq<Message>, i: nat)
    requires Owned(m, held) && i < |m.freed|
    ensures var id := m.freed[i];
            && id < m.allocations
            && InMessages(held, id) == InMessages(m.queue, id) == InMessages(Delivered(m.removed), id) == 0
  {
    var id := m.freed[i];
    assert Owners(m, held, id) == if id < m.allocations then 1 else 0;
    Occurs(m.freed, i);
  }

  lemma {:induction false} Occurs(ids: seq<nat>, i: nat)
    requires i < |ids|
    ensures InIds(ids, ids[i]) >= 1
  {
    if i == 0 {
    } else {
      Occurs(ids[1..], i - 1);
    }
  }
}
