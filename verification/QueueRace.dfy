/**
 The queue between two threads: the MQTT thread's check, allocation and put, and the application's polling,
 disconnecting and connecting, interleaved in every order. There is one producer thread.
 */
module QueueRace {
  import opened MessageQueue
  import opened Wrappers

  /** Where the MQTT thread is in `iotc_mq_on_mqtt_inbound_message`. */
  datatype Producer =
    | Away
    | PastCheck(topic: Bytes, body: Bytes)
    | Holding(msg: Message)
    | Refused(msg: Message)

  /** Where the application is. Inside a handler it is `Running` again, one level deeper. */
  datatype App =
    | Running
    | Polling
    | FirstFlush
    | Unsetting
    | SecondFlush

  /** `settled`: the second flush of a disconnect has completed and no client has been registered since. */
  datatype Race = Race(mq: Mq, producer: Producer, app: App, depth: nat, settled: bool, nullCalls: nat)

  datatype Move =
    | Arrive(topic: Option<Bytes>, body: Option<Bytes>)
    | Allocate(haveTopic: bool, haveBody: bool)
    | Enqueue
    | Drop
    | StartPolling
    | Deliver
    | HandlerReturns
    | FindEmpty
    | StartDisconnect
    | FlushNext
    | Unset
    | Connect

  function ProducerMoves(r: Race, move: Move): Race
    requires move.Arrive? || move.Allocate? || move.Enqueue? || move.Drop?
  {
    match (r.producer, move)
    case (Away, Arrive(Some(topic), Some(body))) =>
      if body != [] && r.mq.registered then r.(producer := PastCheck(topic, body)) else r
    case (PastCheck(topic, body), Allocate(haveTopic, haveBody)) =>
      var (mq, msg) := Create(r.mq, topic, body, haveTopic, haveBody);
      r.(mq := mq, producer := if msg.Some? then Holding(msg.value) else Away)
    case (Holding(msg), Enqueue) =>
      if Full(r.mq) then r.(producer := Refused(msg)) else r.(mq := Put(r.mq, msg), producer := Away)
    case (Refused(msg), Drop) => r.(mq := Destroy(r.mq, msg), producer := Away)
    case _ => r
  }

  /** A step of either thread; a move that is not possible where its thread stands changes nothing. */
  function Next(r: Race, move: Move): Race {
    match move
    case Arrive(_, _) => ProducerMoves(r, move)
    case Allocate(_, _) => ProducerMoves(r, move)
    case Enqueue => ProducerMoves(r, move)
    case Drop => ProducerMoves(r, move)
    case StartPolling => if r.app.Running? && r.mq.registered then r.(app := Polling) else r
    case Deliver =>
      if r.app.Polling? && r.mq.queue != [] then
        r.(mq := Take(r.mq, true), app := Running, depth := r.depth + 1,
           nullCalls := r.nullCalls + if r.mq.registered then 0 else 1)
      else r
    case HandlerReturns => if r.app.Running? && r.depth > 0 then r.(app := Polling, depth := r.depth - 1) else r
    case FindEmpty =>
      if r.mq.queue != [] then r
      else
        (match r.app
         case Polling => r.(app := Running)
         case FirstFlush => r.(app := Unsetting)
         case SecondFlush => r.(app := Running, settled := true)
         case _ => r)
    case StartDisconnect => if r.app.Running? then r.(app := FirstFlush) else r
    case FlushNext =>
      if (r.app.FirstFlush? || r.app.SecondFlush?) && r.mq.queue != [] then r.(mq := FlushOne(r.mq)) else r
    case Unset =>
      if r.app.Unsetting? then r.(mq := r.mq.(registered := false), app := SecondFlush) else r
    case Connect =>
      if r.app.Running? then r.(mq := r.mq.(registered := true), settled := false) else r
  }

  function Play(r: Race, moves: seq<Move>): Race
    decreases |moves|
  {
    if moves == [] then r else Next(Play(r, moves[..|moves| - 1]), moves[|moves| - 1])
  }

  /** After `iotc_mq_init`. */
  function Ready(capacity: nat): Race {
    Race(Mq(true, capacity, [], false, 0, [], [], []), Away, Running, 0, false, 0)
  }

  function Held(p: Producer): seq<Message> {
    match p
    case Holding(msg) => [msg]
    case Refused(msg) => [msg]
    case _ => []
  }

  /** Messages past the check that are not yet put or freed: at most one, there being one producer. */
  function InFlight(p: Producer): nat {
    if p.Away? then 0 else 1
  }

  /** What is past the check is what arrived, and what is then put are copies of it. */
  lemma ArrivalIsCopied(r: Race, topic: Bytes, body: Bytes)
    requires r.producer.Away? && r.mq.registered && |body| > 0
    ensures var checked := Next(r, Arrive(Some(topic), Some(body)));
            var made := Next(checked, Allocate(true, true));
            && checked.mq == r.mq && made.producer.Holding?
            && var msg := made.producer.msg;
            && msg.topic.Some? && msg.topic.value.bytes == topic
            && msg.body.Some? && msg.body.value.bytes == body && msg.len == |body|
            && (|r.mq.queue| < r.mq.capacity ==> Next(made, Enqueue).mq.queue == r.mq.queue + [msg])
  {
  }

  // ----- Ownership and order -----

  ghost predicate Conserved(r: Race) {
    Owned(r.mq, Held(r.producer)) && Fifo(r.mq)
  }

  lemma FlagOwnsNothing(m: Mq, held: seq<Message>, registered: bool)
    requires Owned(m, held)
    ensures Owned(m.(registered := registered), held)
  {
    forall id: nat
      ensures Owners(m.(registered := registered), held, id) == Owners(m, held, id)
    {
    }
  }

  lemma ProducerConserves(r: Race, move: Move)
    requires Conserved(r)
    requires move.Arrive? || move.Allocate? || move.Enqueue? || move.Drop?
    ensures Conserved(ProducerMoves(r, move))
  {
    match (r.producer, move)
    case (PastCheck(topic, body), Allocate(haveTopic, haveBody)) => CreateOwned(r.mq, topic, body, haveTopic, haveBody);
    case (Holding(msg), Enqueue) =>
      if !Full(r.mq) {
        PutOwned(r.mq, msg);
      }
    case (Refused(msg), Drop) => DestroyOwned(r.mq, msg);
    case _ =>
  }

  lemma NextConserves(r: Race, move: Move)
    requires Conserved(r)
    ensures Conserved(Next(r, move))
  {
    match move
    case Arrive(_, _) => ProducerConserves(r, move);
    case Allocate(_, _) => ProducerConserves(r, move);
    case Enqueue => ProducerConserves(r, move);
    case Drop => ProducerConserves(r, move);
    case Deliver =>
      if r.mq.queue != [] {
        DeliverOwned(r.mq, Held(r.producer));
      }
    case FlushNext =>
      if r.mq.queue != [] {
        FlushOwned(r.mq, Held(r.producer));
      }
    case Unset => FlagOwnsNothing(r.mq, Held(r.producer), false);
    case Connect => FlagOwnsNothing(r.mq, Held(r.producer), true);
    case _ =>
  }

  /**
   In every interleaving each block has exactly one owner, and the messages removed followed by those queued are
   those put, in order, never more than the capacity at a time.
   */
  lemma {:induction false} Conservation(capacity: nat, moves: seq<Move>)
    ensures Conserved(Play(Ready(capacity), moves))
  {
    if moves == [] {
    } else {
      Conservation(capacity, moves[..|moves| - 1]);
      NextConserves(Play(Ready(capacity), moves[..|moves| - 1]), moves[|moves| - 1]);
    }
  }

  // ----- Teardown -----

  /** Once settled there is no client, and at most one message is queued or still on its way. */
  predicate TornDown(r: Race) {
    && (r.app.SecondFlush? ==> !r.mq.registered)
    && (r.settled ==> !r.mq.registered && |r.mq.queue| + InFlight(r.producer) <= 1)
  }

  lemma {:induction false} TeardownRace(capacity: nat, moves: seq<Move>)
    ensures TornDown(Play(Ready(capacity), moves))
  {
    if moves == [] {
    } else {
      TeardownRace(capacity, moves[..|moves| - 1]);
      NextKeepsTornDown(Play(Ready(capacity), moves[..|moves| - 1]), moves[|moves| - 1]);
    }
  }

  lemma NextKeepsTornDown(r: Race, move: Move)
    requires TornDown(r)
    ensures TornDown(Next(r, move))
  {
  }

  lemma {:induction false} PlayAppend(r: Race, first: seq<Move>, second: seq<Move>)
    ensures Play(r, first + second) == Play(Play(r, first), second)
    decreases |second|
  {
    if second == [] {
      assert first + second == first;
    } else {
      PlayAppend(r, first, second[..|second| - 1]);
      assert (first + second)[..|first + second| - 1] == first + second[..|second| - 1];
    }
  }

  lemma PlayTwo(r: Race, a: Move, b: Move)
    ensures Play(r, [a, b]) == Next(Next(r, a), b)
  {
    assert [a][..0] == [];
    assert Play(r, [a]) == Next(r, a);
    assert [a, b][..1] == [a];
  }

  lemma PlayFour(r: Race, a: Move, b: Move, c: Move, d: Move)
    ensures Play(r, [a, b, c, d]) == Next(Next(Next(Next(r, a), b), c), d)
  {
    PlayTwo(r, a, b);
    PlayTwo(Next(Next(r, a), b), c, d);
    PlayAppend(r, [a, b], [c, d]);
    assert [a, b] + [c, d] == [a, b, c, d];
  }

  /** A disconnect that overtakes a message past the check. */
  function Overtaken(topic: Bytes, body: Bytes): seq<Move> {
    [Connect, Arrive(Some(topic), Some(body)), StartDisconnect, FindEmpty] +
    [Unset, FindEmpty, Allocate(true, true), Enqueue]
  }

  lemma OvertakenStart(capacity: nat, topic: Bytes, body: Bytes)
    requires body != []
    ensures var r := Play(Ready(capacity), [Connect, Arrive(Some(topic), Some(body)), StartDisconnect, FindEmpty]);
            && r.producer == PastCheck(topic, body) && r.app.Unsetting?
            && r.mq.queue == [] && r.mq.capacity == capacity
  {
    PlayFour(Ready(capacity), Connect, Arrive(Some(topic), Some(body)), StartDisconnect, FindEmpty);
  }

  /** The bound is reached: a message past the check when the client is unset outlives both flushes. */
  lemma OneMessageSurvives(capacity: nat, topic: Bytes, body: Bytes)
    requires capacity > 0 && body != []
    ensures var r := Play(Ready(capacity), Overtaken(topic, body));
            r.settled && |r.mq.queue| == 1
  {
    var r := Ready(capacity);
    OvertakenStart(capacity, topic, body);
    var s := Play(r, [Connect, Arrive(Some(topic), Some(body)), StartDisconnect, FindEmpty]);
    PlayFour(s, Unset, FindEmpty, Allocate(true, true), Enqueue);
    PlayAppend(r, [Connect, Arrive(Some(topic), Some(body)), StartDisconnect, FindEmpty],
               [Unset, FindEmpty, Allocate(true, true), Enqueue]);
  }

  // ----- Calling the client -----

  /** A message is queued, or may still be put: past the check, not refused, and the queue has places. */
  predicate StillComing(r: Race) {
    r.mq.queue != [] || (r.mq.capacity > 0 && (r.producer.PastCheck? || r.producer.Holding?))
  }

  /** What a handler must leave when it returns: a client, or nothing that could still be given to one. */
  predicate SafeReturn(r: Race) {
    r.mq.registered || !StillComing(r)
  }

  /** In this run every handler returns safely, whatever it disconnected and connected meanwhile. */
  predicate HandlersReturnSafely(r: Race, moves: seq<Move>)
    decreases |moves|
  {
    moves != [] ==>
      var front, last := moves[..|moves| - 1], moves[|moves| - 1];
      var before := Play(r, front);
      HandlersReturnSafely(r, front) &&
      (last == HandlerReturns && before.app.Running? && before.depth > 0 ==> SafeReturn(before))
  }

  predicate Callable(r: Race) {
    r.nullCalls == 0 && (r.app.Polling? ==> SafeReturn(r))
  }

  /** Whatever the interleaving, the client's pointer is never null when called, if the handlers return safely. */
  lemma {:induction false} NeverCallsNull(capacity: nat, moves: seq<Move>)
    requires HandlersReturnSafely(Ready(capacity), moves)
    ensures Callable(Play(Ready(capacity), moves))
  {
    if moves == [] {
    } else {
      NeverCallsNull(capacity, moves[..|moves| - 1]);
    }
  }

  /** The application only polls: its handlers, if called, neither disconnect nor connect. */
  predicate PollsOn(moves: seq<Move>) {
    StartDisconnect !in moves && Connect !in moves
  }

  lemma NextStaysSafe(r: Race, move: Move)
    requires SafeReturn(r) && (r.app.Polling? || r.app.Running?) && move != StartDisconnect && move != Connect
    ensures var s := Next(r, move);
            s.nullCalls == r.nullCalls && SafeReturn(s) && (s.app.Polling? || s.app.Running?)
  {
  }

  /** While the application only polls, a safe queue stays safe. */
  lemma {:induction false} PollingStaysSafe(r: Race, moves: seq<Move>)
    requires r.app.Polling? && SafeReturn(r) && PollsOn(moves)
    ensures var s := Play(r, moves);
            && s.nullCalls == r.nullCalls
            && SafeReturn(s) && (s.app.Polling? || s.app.Running?)
  {
    if moves == [] {
    } else {
      PollingStaysSafe(r, moves[..|moves| - 1]);
      NextStaysSafe(Play(r, moves[..|moves| - 1]), moves[|moves| - 1]);
    }
  }

  /** An unsafe one can be made to call null: what is still coming is put, then delivered. */
  lemma StrandedPollCallsNull(r: Race) returns (moves: seq<Move>)
    requires r.app.Polling? && !SafeReturn(r)
    ensures PollsOn(moves) && Play(r, moves).nullCalls == r.nullCalls + 1
  {
    var front := [Allocate(true, true), Enqueue];
    PlayTwo(r, Allocate(true, true), Enqueue);
    assert (front + [Deliver])[..2] == front;
    moves := front + [Deliver];
  }

  /**
   A handler that is about to return may be followed by a call of null, while the application does nothing but poll,
   exactly if it has left no client and a message is queued or on its way.
   */
  lemma HandlerReturnExactly(r: Race)
    requires r.app.Running? && r.depth > 0
    ensures (exists moves :: PollsOn(moves) && Play(Next(r, HandlerReturns), moves).nullCalls > r.nullCalls)
            <==> !SafeReturn(r)
  {
    var back := Next(r, HandlerReturns);
    if SafeReturn(r) {
      forall moves | PollsOn(moves)
        ensures Play(back, moves).nullCalls == r.nullCalls
      {
        PollingStaysSafe(back, moves);
      }
    } else {
      var moves := StrandedPollCallsNull(back);
      assert PollsOn(moves) && Play(back, moves).nullCalls > r.nullCalls;
    }
  }

  // A handler disconnects while the next message is past the check, in four parts.

  function Queued(topic: Bytes, body: Bytes): seq<Move> {
    [Connect, Arrive(Some(topic), Some(body)), Allocate(true, true), Enqueue]
  }

  function HandledWhileNextArrives(topic: Bytes, body: Bytes): seq<Move> {
    [StartPolling, Deliver, Arrive(Some(topic), Some(body)), StartDisconnect]
  }

  const DISCONNECTED := [FindEmpty, Unset, FindEmpty, HandlerReturns]
  const DELIVERED := [Allocate(true, true), Enqueue, Deliver, FindEmpty]

  function Stranded(topic: Bytes, body: Bytes): seq<Move> {
    Queued(topic, body) + HandledWhileNextArrives(topic, body) + DISCONNECTED + DELIVERED
  }

  lemma QueuedPlays(capacity: nat, topic: Bytes, body: Bytes)
    requires capacity > 0 && body != []
    ensures var r := Play(Ready(capacity), Queued(topic, body));
            && r.mq.registered && |r.mq.queue| == 1 && r.mq.capacity == capacity
            && r.app.Running? && r.depth == 0 && r.nullCalls == 0 && r.producer.Away?
  {
    PlayFour(Ready(capacity), Connect, Arrive(Some(topic), Some(body)), Allocate(true, true), Enqueue);
  }

  lemma HandledPlays(r: Race, topic: Bytes, body: Bytes)
    requires r.mq.registered && |r.mq.queue| == 1 && body != []
    requires r.app.Running? && r.depth == 0 && r.producer.Away?
    ensures var s := Play(r, HandledWhileNextArrives(topic, body));
            && s.producer == PastCheck(topic, body) && s.app.FirstFlush? && s.depth == 1
            && s.mq.queue == [] && s.mq.capacity == r.mq.capacity && s.nullCalls == r.nullCalls
  {
    PlayFour(r, StartPolling, Deliver, Arrive(Some(topic), Some(body)), StartDisconnect);
  }

  lemma DisconnectedPlays(r: Race)
    requires r.producer.PastCheck? && r.app.FirstFlush? && r.depth == 1 && r.mq.queue == []
    ensures var s := Play(r, DISCONNECTED);
            && s.producer == r.producer && s.app.Polling? && !s.mq.registered
            && s.mq.queue == [] && s.mq.capacity == r.mq.capacity && s.nullCalls == r.nullCalls
  {
    PlayFour(r, FindEmpty, Unset, FindEmpty, HandlerReturns);
  }

  lemma DeliveredPlays(r: Race)
    requires r.producer.PastCheck? && r.app.Polling? && !r.mq.registered && r.mq.queue == [] && r.mq.capacity > 0
    ensures Play(r, DELIVERED).nullCalls == r.nullCalls + 1
  {
    PlayFour(r, Allocate(true, true), Enqueue, Deliver, FindEmpty);
  }

  /** The polling loop to which that handler returns finds the message that outlived the disconnect. */
  lemma DisconnectingHandlerCallsNull(capacity: nat, topic: Bytes, body: Bytes)
    requires capacity > 0 && body != []
    ensures Play(Ready(capacity), Stranded(topic, body)).nullCalls == 1
  {
    var first, second := Queued(topic, body), HandledWhileNextArrives(topic, body);
    var r0 := Ready(capacity);
    QueuedPlays(capacity, topic, body);
    HandledPlays(Play(r0, first), topic, body);
    PlayAppend(r0, first, second);
    DisconnectedPlays(Play(r0, first + second));
    PlayAppend(r0, first + second, DISCONNECTED);
    DeliveredPlays(Play(r0, first + second + DISCONNECTED));
    PlayAppend(r0, first + second + DISCONNECTED, DELIVERED);
  }
}
