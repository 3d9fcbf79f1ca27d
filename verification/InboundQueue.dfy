/**
 The inbound message queue in its own form, with every API call taken as atomic. The client's handler runs inside
 `iotc_mq_process` and may itself disconnect, reconnect and poll.
 */
module InboundQueue {
  import opened MessageQueue
  import opened Wrappers

  /** One inbound MQTT message; pointers may be null and either allocation may fail. */
  datatype Arrival = Arrival(topic: Option<Bytes>, body: Option<Bytes>, haveTopic: bool, haveBody: bool)

  /** What happens while a delivered message is handled, and before the next one is taken from the queue. */
  datatype Call =
    | Inbound(arrival: Arrival)
    | Disconnect
    | Connect(ok: bool)
    | PollQueue(turns: seq<Turn>)

  datatype Turn = Turn(arrivals: seq<Arrival>, handler: seq<Call>)

  /** What an arrival does to the queue: refused without a client, dropped without memory or room, else appended. */
  function Arrived(m: Mq, a: Arrival): Mq {
    if a.topic.None? || a.body.None? || a.body.value == [] || !m.registered then m
    else
      var (made, msg) := Create(m, a.topic.value, a.body.value, a.haveTopic, a.haveBody);
      match msg
      case None => made
      case Some(msg) => if Full(made) then Destroy(made, msg) else Put(made, msg)
  }

  function AllBlocks(msgs: seq<Message>): seq<nat> {
    if msgs == [] then [] else Blocks(msgs[0]) + AllBlocks(msgs[1..])
  }

  function Flushes(msgs: seq<Message>): seq<Removal> {
    seq(|msgs|, i requires 0 <= i < |msgs| => Removal(msgs[i], false))
  }

  /** Everything queued leaves in order and is freed. */
  function Flushed(m: Mq): Mq {
    m.(queue := [], removed := m.removed + Flushes(m.queue), freed := m.freed + AllBlocks(m.queue))
  }

  function ArrivedAll(m: Mq, arrivals: seq<Arrival>): Mq {
    if arrivals == [] then m else Arrived(ArrivedAll(m, arrivals[..|arrivals| - 1]), arrivals[|arrivals| - 1])
  }

  function AsDelivered(msgs: seq<Message>): seq<Removal> {
    seq(|msgs|, i requires 0 <= i < |msgs| => Removal(msgs[i], true))
  }

  /** A handler's calls, one after the other. */
  function Performed(m: Mq, calls: seq<Call>): Mq
    decreases SizeOfCalls(calls)
  {
    if calls == [] then m else Performed(PerformedOne(m, calls[0]), calls[1..])
  }

  function PerformedOne(m: Mq, call: Call): Mq
    decreases SizeOfCall(call)
  {
    match call
    case Inbound(a) => Arrived(m, a)
    case Disconnect => Flushed(m).(registered := false)
    case Connect(ok) => if ok then m.(registered := true) else m
    case PollQueue(turns) => Processed(m, turns)
  }

  /** `iotc_mq_process`. */
  function Processed(m: Mq, turns: seq<Turn>): Mq
    decreases SizeOfTurns(turns), 1
  {
    if m.registered then Drained(m, turns) else m
  }

  function From(turns: seq<Turn>, i: nat): seq<Turn> {
    if i < |turns| then turns[i..] else []
  }

  /** Its loop: messages arrive, the first one queued is delivered and handled, until none is queued. */
  function Drained(m: Mq, turns: seq<Turn>): Mq
    decreases SizeOfTurns(turns), 0
  {
    if turns == [] then m.(queue := [], removed := m.removed + AsDelivered(m.queue))
    else
      var waiting := ArrivedAll(m, turns[0].arrivals);
      if waiting.queue == [] then waiting
      else Drained(Performed(Take(waiting, true), turns[0].handler), turns[1..])
  }

  class Queue {
    var initialized: bool
    var capacity: nat
    var queue: seq<Message>
    var registered: bool
    var allocations: nat
    ghost var puts: seq<Message>
    ghost var removed: seq<Removal>
    ghost var freed: seq<nat>
    ghost var handed: seq<Message>   // passed to the client, in order

    ghost function Abstract(): Mq
      reads this
    {
      Mq(initialized, capacity, queue, registered, allocations, puts, removed, freed)
    }

    /** Single ownership, first in first out; nothing queued without a client, and no client without a queue. */
    ghost predicate Sound()
      reads this
    {
      && Owned(Abstract(), []) && Fifo(Abstract())
      && (!registered ==> queue == [])
      && (registered ==> initialized)
    }

    /** And the messages removed for delivery are those the client was called with. */
    ghost predicate Valid()
      reads this
    {
      Sound() && Delivered(removed) == handed
    }

    constructor ()
      ensures Valid()
      ensures Abstract() == Mq(false, 0, [], false, 0, [], [], [])
    {
      initialized, capacity, queue, registered, allocations := false, 0, [], false, 0;
      puts, removed, freed, handed := [], [], [], [];
    }

    /** `iotc_mq_init`. The queue is created empty; if it cannot be, it is marked as initialized nevertheless. */
    method Init(size: nat, created: bool) returns (ok: bool)
      requires Valid() && !initialized && queue == []
      modifies this
      ensures Valid()
      ensures ok == created && registered == old(registered)
      ensures Abstract() == old(Abstract()).(initialized := true, capacity := if created then size else 0)
    {
      capacity := if created then size else 0;
      ok := created;
      initialized := true;
      SameOwners(old(Abstract()), Abstract());
    }

    method Free(b: Option<Buffer>)
      modifies this`freed
      ensures freed == old(freed) + IdOf(b)
    {
      if b.Some? {
        freed := freed + [b.value.id];
      }
    }

    /** Frees what is there and clears the fields. */
    method DestroyMessage(msg: Message) returns (cleared: Message)
      modifies this`freed
      ensures Abstract() == Destroy(old(Abstract()), msg)
      ensures cleared == NO_MESSAGE
    {
      cleared := msg;
      Free(cleared.topic);
      cleared := cleared.(topic := None);
      Free(cleared.body);
      cleared := cleared.(body := None);
      cleared := cleared.(len := 0);
    }

    method Malloc(bytes: Bytes, ok: bool) returns (b: Option<Buffer>)
      modifies this`allocations
      ensures (Abstract(), b) == Allocate(old(Abstract()), bytes, ok)
    {
      b := None;
      if ok {
        b := Some(Buffer(allocations, bytes));
        allocations := allocations + 1;
      }
    }

    method CreateMessage(topic: Bytes, body: Bytes, haveTopic: bool, haveBody: bool) returns (ok: bool, msg: Message)
      modifies this`allocations, this`freed
      ensures (Abstract(), if ok then Some(msg) else None) == Create(old(Abstract()), topic, body, haveTopic, haveBody)
      ensures !ok ==> msg == NO_MESSAGE
    {
      var t := Malloc(topic, haveTopic);
      var b := Malloc(body, haveBody);
      msg := Message(t, b, 0);
      if msg.topic.None? || msg.body.None? {
        msg := DestroyMessage(msg);
        return false, msg;
      }
      msg := msg.(len := |body|);
      ok := true;
    }

    /** `iotc_mq_on_mqtt_inbound_message`. */
    method OnInbound(a: Arrival)
      requires Valid()
      modifies this
      ensures Valid()
      ensures Abstract() == Arrived(old(Abstract()), a)
      ensures registered == old(registered) && initialized == old(initialized)
    {
      if a.topic.None? || a.body.None? || |a.body.value| == 0 {
        return;
      }
      if !registered {
        return;
      }
      ArrivalOwned(Abstract(), a);
      var ok, msg := CreateMessage(a.topic.value, a.body.value, a.haveTopic, a.haveBody);
      if !ok {
        return;
      }
      if |queue| < capacity {
        queue := queue + [msg];
        puts := puts + [msg];
      } else {
        msg := DestroyMessage(msg);
      }
    }

    method Register()
      requires Valid() && initialized
      modifies this`registered
      ensures Valid()
      ensures Abstract() == old(Abstract()).(registered := true)
    {
      registered := true;
      SameOwners(old(Abstract()), Abstract());
    }

    /** `iotc_mq_flush`: takes and frees until the queue is empty. */
    method Flush()
      requires Valid()
      modifies this`queue, this`removed, this`freed
      ensures Valid()
      ensures Abstract() == Flushed(old(Abstract()))
    {
      while queue != []
        invariant Valid()
        invariant Flushed(Abstract()) == Flushed(old(Abstract()))
        decreases |queue|
      {
        FlushFirst(Abstract());
        FlushHead();
      }
      NothingToFlush(Abstract());
    }

    /** One message leaves the queue and is freed. */
    method FlushHead()
      requires Valid() && queue != []
      modifies this`queue, this`removed, this`freed
      ensures Valid()
      ensures Abstract() == FlushOne(old(Abstract()))
    {
      FlushOwned(Abstract(), []);
      DeliveredAppend(removed, Removal(queue[0], false));
      var msg := queue[0];
      queue := queue[1..];
      removed := removed + [Removal(msg, false)];
      msg := DestroyMessage(msg);
    }

    method Deregister()
      requires Valid()
      modifies this
      ensures Valid()
      ensures Abstract() == Flushed(old(Abstract())).(registered := false)
    {
      Flush();
      ghost var flushed := Abstract();
      registered := false;
      SameOwners(flushed, Abstract());
    }

    /** The queue's part of `iotconnect_sdk_disconnect`. */
    method DisconnectQueue()
      requires Valid()
      modifies this
      ensures Valid()
      ensures Abstract() == Flushed(old(Abstract())).(registered := false)
    {
      Deregister();
      Flush();
    }

    method Deinit()
      requires Valid()
      modifies this
      ensures Valid()
      ensures Abstract() == Flushed(old(Abstract())).(registered := false, initialized := false)
    {
      Deregister();
      Flush();
      ghost var before := Abstract();
      if initialized {
        initialized := false;
      }
      SameOwners(before, Abstract());
    }

    /** The call through the client's pointer, which must not be null, for the message just taken. */
    method CallClient(msg: Message, reaction: seq<Call>)
      requires Sound() && registered && Delivered(removed) == handed + [msg]
      modifies this
      ensures Valid() && initialized
      ensures old(handed) + [msg] <= handed
      ensures Abstract() == Performed(old(Abstract()), reaction)
      ensures NoDisconnect(reaction) ==> OnlyDelivers(old(Abstract()), Abstract())
      decreases SizeOfCalls(reaction), 1
    {
      handed := handed + [msg];
      Perform(reaction);
    }

    method Perform(calls: seq<Call>)
      requires Valid() && initialized
      modifies this
      ensures Valid() && initialized
      ensures old(handed) <= handed
      ensures Abstract() == Performed(old(Abstract()), calls)
      ensures NoDisconnect(calls) ==> OnlyDelivers(old(Abstract()), Abstract())
      decreases SizeOfCalls(calls), 0
    {
      if calls != [] {
        assert SizeOfCalls(calls) == 1 + SizeOfCall(calls[0]) + SizeOfCalls(calls[1..]);
        PerformOne(calls[0]);
        Perform(calls[1..]);
      }
    }

    method PerformOne(call: Call)
      requires Valid() && initialized
      modifies this
      ensures Valid() && initialized
      ensures old(handed) <= handed
      ensures Abstract() == PerformedOne(old(Abstract()), call)
      ensures CallKeeps(call) ==> OnlyDelivers(old(Abstract()), Abstract())
      decreases SizeOfCall(call), 3
    {
      match call
      case Inbound(a) => OnInbound(a);
      case Disconnect =>
        FlushDelivers(Abstract());
        DisconnectQueue();
      case Connect(ok) =>
        if ok {
          Register();
        }
      case PollQueue(turns) => Process(turns);
    }

    method Arrive(arrivals: seq<Arrival>)
      requires Valid()
      modifies this
      ensures Valid()
      ensures registered == old(registered) && initialized == old(initialized) && handed == old(handed)
      ensures OnlyDelivers(old(Abstract()), Abstract()) && old(queue) <= queue && removed == old(removed)
      ensures Abstract() == ArrivedAll(old(Abstract()), arrivals)
    {
      for i := 0 to |arrivals|
        invariant Valid()
        invariant registered == old(registered) && initialized == old(initialized) && handed == old(handed)
        invariant OnlyDelivers(old(Abstract()), Abstract()) && old(queue) <= queue && removed == old(removed)
        invariant Abstract() == ArrivedAll(old(Abstract()), arrivals[..i])
      {
        ArrivalExactly(Abstract(), arrivals[i]);
        assert arrivals[..i + 1] == arrivals[..i] + [arrivals[i]];
        OnInbound(arrivals[i]);
      }
      assert arrivals[..|arrivals|] == arrivals;
    }

    /**
     `iotc_mq_process`. However the handlers re-enter the SDK, the pointer called is never null, and a call that finds a
     client hands it the first message and returns with the queue empty. Unless a handler disconnects, all that was
     queued and all that arrives meanwhile is handed to the client in order, and nothing leaves the queue otherwise.
     Without a client nothing happens.
     */
    method Process(turns: seq<Turn>)
      requires Valid()
      modifies this
      ensures Valid() && initialized == old(initialized)
      ensures old(handed) <= handed
      ensures Abstract() == Processed(old(Abstract()), turns)
      ensures !old(registered) ==> Abstract() == old(Abstract())
      ensures old(registered) ==> queue == []
      ensures old(registered && queue != []) ==> old(handed + [queue[0]]) <= handed
      ensures TurnsKeep(turns) ==> OnlyDelivers(old(Abstract()), Abstract())
      ensures old(registered) && TurnsKeep(turns) ==> handed == old(handed + queue) + puts[|old(puts)|..]
      ensures old(registered) && turns == [] ==>
                Abstract() == old(Abstract()).(queue := [], removed := old(removed + AsDelivered(queue)))
      decreases SizeOfTurns(turns), 6
    {
      if !registered {
        return;
      }
      ghost var before := Abstract();
      Drain(turns);
      if TurnsKeep(turns) {
        HandedAll(before, Abstract());
      }
    }

    /** The loop, which ends when it finds the queue empty. */
    method Drain(turns: seq<Turn>)
      requires Valid()
      modifies this
      ensures Valid() && initialized == old(initialized) && queue == []
      ensures FirstHanded(old(handed), old(queue), handed, queue)
      ensures TurnsKeep(turns) ==> OnlyDelivers(old(Abstract()), Abstract())
      ensures Abstract() == Drained(old(Abstract()), turns)
      decreases SizeOfTurns(turns), 5
    {
      ghost var before := Abstract();
      var i, more := 0, true;
      while more
        invariant i <= |turns|
        invariant Valid() && initialized == old(initialized) && (!more ==> queue == [])
        invariant FirstHanded(old(handed), before.queue, handed, queue)
        invariant TurnsKeep(turns) ==> OnlyDelivers(before, Abstract())
        invariant Drained(before, turns) == if more then Drained(Abstract(), From(turns, i)) else Abstract()
        decreases if more then 1 else 0, |turns| - i, |queue|
      {
        ghost var earlier, waiting, polled := handed, queue, Abstract();
        more := TurnAt(turns, i);
        i := if i < |turns| then i + 1 else i;
        FirstStaysFirst(old(handed), before.queue, earlier, waiting, handed, queue);
        DeliveringOn(before, polled, Abstract());
      }
    }

    /** One round of the loop; after the last turn nothing arrives and handlers do nothing. */
    method TurnAt(turns: seq<Turn>, i: nat) returns (more: bool)
      requires Valid()
      modifies this
      ensures Valid() && initialized == old(initialized) && (!more ==> queue == [])
      ensures FirstHanded(old(handed), old(queue), handed, queue)
      ensures TurnsKeep(turns) ==> OnlyDelivers(old(Abstract()), Abstract())
      ensures Drained(old(Abstract()), From(turns, i)) ==
              if more then Drained(Abstract(), From(turns, i + 1)) else Abstract()
      ensures i >= |turns| && more ==> |queue| < old(|queue|)
      decreases SizeOfTurns(turns), 4
    {
      if i < |turns| {
        SizeOfTurnsAt(turns, i);
        KeptHandler(turns, i);
        more := OneTurn(turns[i].arrivals, turns[i].handler);
      } else {
        DrainedNext(Abstract());
        more := OneTurn([], []);
      }
    }

    /** Takes a message, if there is one by then, and calls the client with it. */
    method OneTurn(arrivals: seq<Arrival>, handler: seq<Call>) returns (more: bool)
      requires Valid()
      modifies this
      ensures Valid() && initialized == old(initialized)
      ensures FirstHanded(old(handed), old(queue), handed, queue)
      ensures !more ==> queue == [] && old(queue) == []
      ensures NoDisconnect(handler) ==> OnlyDelivers(old(Abstract()), Abstract())
      ensures var m := ArrivedAll(old(Abstract()), arrivals);
              && more == (m.queue != [])
              && Abstract() == if more then Performed(Take(m, true), handler) else m
      decreases SizeOfCalls(handler), 3
    {
      Arrive(arrivals);
      more := queue != [];
      if more {
        DeliverFirst(handler);
      }
    }

    /** Takes the first message and calls the client with it. */
    method DeliverFirst(handler: seq<Call>)
      requires Valid() && queue != []
      modifies this
      ensures Valid() && initialized
      ensures old(handed + [queue[0]]) <= handed
      ensures Abstract() == Performed(Take(old(Abstract()), true), handler)
      ensures NoDisconnect(handler) ==> OnlyDelivers(old(Abstract()), Abstract())
      decreases SizeOfCalls(handler), 2
    {
      DeliverOwned(Abstract(), []);
      DeliveredAppend(removed, Removal(queue[0], true));
      var msg := queue[0];
      queue := queue[1..];
      removed := removed + [Removal(msg, true)];
      CallClient(msg, handler);
    }
  }

  // ----- What leaves the queue -----

  /** No handler disconnects, at any depth. */
  predicate NoDisconnect(calls: seq<Call>) {
    calls == [] || (CallKeeps(calls[0]) && NoDisconnect(calls[1..]))
  }

  predicate CallKeeps(call: Call) {
    match call
    case Disconnect => false
    case PollQueue(turns) => TurnsKeep(turns)
    case _ => true
  }

  predicate TurnsKeep(turns: seq<Turn>) {
    turns == [] || (NoDisconnect(turns[0].handler) && TurnsKeep(turns[1..]))
  }

  lemma {:induction false} TurnsKeepAt(turns: seq<Turn>, i: nat)
    requires TurnsKeep(turns) && i < |turns|
    ensures NoDisconnect(turns[i].handler)
  {
    if i == 0 {
    } else {
      TurnsKeepAt(turns[1..], i - 1);
    }
  }

  /** Since then messages were put and delivered, but none was flushed and the client is still there. */
  predicate OnlyDelivers(m: Mq, r: Mq) {
    && m.removed <= r.removed && m.puts <= r.puts
    && (forall k :: |m.removed| <= k < |r.removed| ==> r.removed[k].delivered)
    && (m.registered ==> r.registered)
  }

  lemma DeliveringOn(m: Mq, between: Mq, r: Mq)
    ensures OnlyDelivers(m, between) && OnlyDelivers(between, r) ==> OnlyDelivers(m, r)
  {
  }

  /** The rest of the loop takes the first message first. */
  lemma DrainedNext(m: Mq)
    ensures m.queue != [] ==> Drained(Take(m, true), []) == Drained(m, [])
    ensures m.queue == [] ==> Drained(m, []) == m
  {
    if m.queue != [] {
      assert AsDelivered(m.queue) == [Removal(m.queue[0], true)] + AsDelivered(m.queue[1..]);
    }
  }

  lemma ArrivedAlone(m: Mq, a: Arrival)
    ensures ArrivedAll(m, [a]) == Arrived(m, a)
  {
    assert [a][..0] == [];
  }

  lemma PerformedAlone(m: Mq, call: Call)
    ensures Performed(m, [call]) == PerformedOne(m, call)
  {
    assert [call][1..] == [];
  }

  lemma OneTurnDrains(m: Mq, arrivals: seq<Arrival>, handler: seq<Call>)
    ensures var waiting := ArrivedAll(m, arrivals);
            Drained(m, [Turn(arrivals, handler)]) ==
            if waiting.queue == [] then waiting else Drained(Performed(Take(waiting, true), handler), [])
  {
    var turn := Turn(arrivals, handler);
    assert [turn][1..] == [];
  }

  /** What arrives before the queue is found empty is handed to the client by the same call. */
  lemma ArrivalBeforeTaking(m: Mq, a: Arrival)
    requires Queueable(m, a) && m.queue == []
    ensures var r := Processed(m, [Turn([a], [])]);
            && r.queue == [] && |r.removed| == |m.removed| + 1
            && r.removed[|m.removed|].delivered && Holds(r.removed[|m.removed|].message, a)
  {
    ArrivalExactly(m, a);
    ArrivedAlone(m, a);
    OneTurnDrains(m, [a], []);
    DrainedNext(Arrived(m, a));
  }

  /** So is what arrives while the client handles a message. */
  lemma ArrivalWhileHandling(m: Mq, a: Arrival, first: Message)
    requires m.queue == [first] && Queueable(Take(m, true), a)
    ensures var r := Processed(m, [Turn([], [Inbound(a)])]);
            && r.queue == [] && |r.removed| == |m.removed| + 2
            && r.removed[|m.removed|] == Removal(first, true)
            && r.removed[|m.removed| + 1].delivered && Holds(r.removed[|m.removed| + 1].message, a)
  {
    var taken := Take(m, true);
    ArrivalExactly(taken, a);
    OneTurnDrains(m, [], [Inbound(a)]);
    PerformedAlone(taken, Inbound(a));
    DrainedNext(Arrived(taken, a));
  }

  /** A handler that disconnects has the rest flushed and freed; if it then connects, a client is left, no message. */
  lemma DisconnectWhilePolling(m: Mq, again: bool)
    requires m.registered && m.queue != []
    ensures var r := Processed(m, [Turn([], [Disconnect, Connect(again)])]);
            && r.queue == [] && r.registered == again
            && m.removed <= r.removed && |r.removed| == |m.removed| + |m.queue|
            && (forall k :: 0 <= k < |m.queue| ==> r.removed[|m.removed| + k] == Removal(m.queue[k], k == 0))
            && r.freed == m.freed + AllBlocks(m.queue[1..])
  {
    var taken, calls := Take(m, true), [Disconnect, Connect(again)];
    var flushed := Flushed(taken).(registered := false);
    OneTurnDrains(m, [], calls);
    assert calls[1..] == [Connect(again)];
    PerformedAlone(flushed, Connect(again));
    DrainedNext(PerformedOne(flushed, Connect(again)));
  }

  /** A handler that first polls has handed over all of them by then: its disconnect frees nothing. */
  lemma PollWhilePolling(m: Mq)
    requires m.registered && m.queue != []
    ensures var r := Processed(m, [Turn([], [PollQueue([]), Disconnect])]);
            && r.queue == [] && !r.registered
            && m.removed <= r.removed && |r.removed| == |m.removed| + |m.queue|
            && (forall k :: 0 <= k < |m.queue| ==> r.removed[|m.removed| + k] == Removal(m.queue[k], true))
            && r.freed == m.freed
  {
    var taken, calls := Take(m, true), [PollQueue([]), Disconnect];
    var drained := Drained(taken, []);
    OneTurnDrains(m, [], calls);
    assert calls[1..] == [Disconnect];
    PerformedAlone(drained, Disconnect);
    NothingToFlush(drained);
    DrainedNext(PerformedOne(drained, Disconnect));
  }

  /** Nothing has been handed over and the queue has only grown, or its first message was handed over first. */
  predicate FirstHanded(earlier: seq<Message>, queue: seq<Message>, handed: seq<Message>, now: seq<Message>) {
    && earlier <= handed
    && (handed == earlier ==> queue <= now)
    && (handed != earlier && queue != [] ==> earlier + [queue[0]] <= handed)
  }

  lemma FirstStaysFirst(earliest: seq<Message>, queue: seq<Message>, earlier: seq<Message>, waiting: seq<Message>,
                        handed: seq<Message>, now: seq<Message>)
    requires FirstHanded(earliest, queue, earlier, waiting) && FirstHanded(earlier, waiting, handed, now)
    ensures FirstHanded(earliest, queue, handed, now)
  {
  }

  lemma KeptHandler(turns: seq<Turn>, i: nat)
    requires i < |turns|
    ensures TurnsKeep(turns) ==> NoDisconnect(turns[i].handler)
  {
    if TurnsKeep(turns) {
      TurnsKeepAt(turns, i);
    }
  }

  lemma {:induction false} DeliveredSplit(first: seq<Removal>, second: seq<Removal>)
    requires forall k :: 0 <= k < |second| ==> second[k].delivered
    ensures Delivered(first + second) == Delivered(first) + Messages(second)
    decreases |second|
  {
    if second == [] {
      assert first + second == first;
    } else {
      var front, last := second[..|second| - 1], second[|second| - 1];
      DeliveredSplit(first, front);
      DeliveredAppend(first + front, last);
      assert first + second == (first + front) + [last];
      assert Messages(second) == Messages(front) + [last.message];
    }
  }

  /** If nothing is left, all that was queued and all that was put since has been handed over, in order. */
  lemma HandedAll(m: Mq, r: Mq)
    requires Fifo(m) && Fifo(r) && OnlyDelivers(m, r) && r.queue == []
    ensures Delivered(r.removed) == Delivered(m.removed) + m.queue + r.puts[|m.puts|..]
  {
    var since := r.removed[|m.removed|..];
    assert r.removed == m.removed + since;
    DeliveredSplit(m.removed, since);
    assert Messages(r.removed) == Messages(m.removed) + Messages(since);
    assert r.puts == m.puts + r.puts[|m.puts|..];
    assert Messages(since) == r.puts[|m.removed|..];
  }

  function SizeOfCalls(calls: seq<Call>): nat {
    if calls == [] then 0 else 1 + SizeOfCall(calls[0]) + SizeOfCalls(calls[1..])
  }

  function SizeOfCall(call: Call): nat {
    match call
    case PollQueue(turns) => 1 + SizeOfTurns(turns)
    case _ => 1
  }

  function SizeOfTurns(turns: seq<Turn>): nat {
    if turns == [] then 0 else 1 + SizeOfCalls(turns[0].handler) + SizeOfTurns(turns[1..])
  }

  lemma {:induction false} SizeOfTurnsAt(turns: seq<Turn>, i: nat)
    requires i < |turns|
    ensures SizeOfCalls(turns[i].handler) < SizeOfTurns(turns)
  {
    if i == 0 {
    } else {
      SizeOfTurnsAt(turns[1..], i - 1);
    }
  }

  /** Ownership and order do not depend on the flags. */
  lemma SameOwners(m: Mq, r: Mq)
    requires m.queue == r.queue && m.removed == r.removed && m.freed == r.freed
    requires m.allocations == r.allocations
    requires Owned(m, [])
    ensures Owned(r, [])
  {
    forall id: nat
      ensures Owners(r, [], id) == Owners(m, [], id)
    {
    }
  }

  /** The message holds copies of what arrived. */
  predicate Holds(msg: Message, a: Arrival) {
    && a.topic.Some? && msg.topic.Some? && msg.topic.value.bytes == a.topic.value
    && a.body.Some? && msg.body.Some? && msg.body.value.bytes == a.body.value
    && msg.len == |a.body.value|
  }

  /** Both pointers, a length, a client, memory for two copies, and room in the queue. */
  predicate Queueable(m: Mq, a: Arrival) {
    && a.topic.Some? && a.body.Some? && |a.body.value| > 0
    && m.registered
    && a.haveTopic && a.haveBody
    && |m.queue| < m.capacity
  }

  /** An arrival is queued exactly if it lacks nothing, and then as a copy at the end; otherwise nothing is queued. */
  lemma ArrivalExactly(m: Mq, a: Arrival)
    ensures var r := Arrived(m, a);
            && r.removed == m.removed && r.registered == m.registered && r.initialized == m.initialized
            && if Queueable(m, a) then
                 && |r.queue| == |m.queue| + 1 && r.queue[..|m.queue|] == m.queue
                 && Holds(r.queue[|m.queue|], a)
                 && r.puts == m.puts + [r.queue[|m.queue|]] && r.freed == m.freed
               else
                 r.queue == m.queue && r.puts == m.puts
  {
  }

  /** An arrival keeps single ownership and order, whether it is queued, refused or dropped. */
  lemma ArrivalOwned(m: Mq, a: Arrival)
    requires Owned(m, []) && Fifo(m)
    ensures Owned(Arrived(m, a), []) && Fifo(Arrived(m, a))
    ensures Arrived(m, a).queue == m.queue || (m.registered && !Full(m) && |Arrived(m, a).queue| == |m.queue| + 1)
  {
    if a.topic.Some? && a.body.Some? && a.body.value != [] && m.registered {
      var (made, msg) := Create(m, a.topic.value, a.body.value, a.haveTopic, a.haveBody);
      CreateOwned(m, a.topic.value, a.body.value, a.haveTopic, a.haveBody);
      if msg.Some? {
        if Full(made) {
          DestroyOwned(made, msg.value);
        } else {
          PutOwned(made, msg.value);
        }
      }
    }
  }

  /** A flush delivers nothing. */
  lemma {:induction false} FlushDelivers(m: Mq)
    ensures Delivered(Flushed(m).removed) == Delivered(m.removed)
    decreases |m.queue|
  {
    if m.queue == [] {
      NothingToFlush(m);
    } else {
      FlushFirst(m);
      DeliveredAppend(m.removed, Removal(m.queue[0], false));
      FlushDelivers(FlushOne(m));
    }
  }

  lemma NothingToFlush(m: Mq)
    requires m.queue == []
    ensures Flushed(m) == m
  {
  }

  lemma FlushFirst(m: Mq)
    requires m.queue != []
    ensures Flushed(FlushOne(m)) == Flushed(m)
  {
    assert Flushes(m.queue) == [Removal(m.queue[0], false)] + Flushes(m.queue[1..]);
  }

  /** A flush frees every queued block once, and nothing else. */
  lemma {:induction false} FlushedOwned(m: Mq)
    requires Owned(m, []) && Fifo(m)
    ensures Owned(Flushed(m), []) && Fifo(Flushed(m))
    decreases |m.queue|
  {
    if m.queue == [] {
      NothingToFlush(m);
    } else {
      FlushOwned(m, []);
      FlushFirst(m);
      FlushedOwned(FlushOne(m));
    }
  }
}
