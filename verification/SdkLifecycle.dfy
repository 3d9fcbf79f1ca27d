/**
 The SDK's init, connect, disconnect and deinit over the MQTT client and the inbound queue. Connect, disconnect and
 deinit are each several steps, between which the library may deliver messages and report a lost connection; a
 connection attempt, a clean-up, and each call of the queue or of the event callback are one step. What happens inside
 the queue's calls is in QueueRace.
 */
module SdkLifecycle {
  import opened InboundQueue
  import opened MessageQueue
  import opened MqttLifecycle
  import opened Wrappers

  /** Where the application is: outside the SDK, or at one of the places between two steps of a call. */
  datatype Place =
    | Outside
    | Registering              // in connect: the client is up, the queue's client not yet registered
    | QueueDown(deinit: bool)  // in disconnect, perhaps of deinit: the queue is down, the disconnect not yet requested
    | Requested(deinit: bool)  // requested, not yet cleaned up
    | Deinitializing           // in deinit: the queue is still to be taken down

  /**
   `dropped`: the connection was lost and no clean-up has followed. `orphaned`: a deinit left the MQTT client up and no
   clean-up has followed. Both are history, not variables of the SDK.
   */
  datatype Sdk = Sdk(mqtt: Mqtt, mq: Mq, place: Place, dropped: bool, orphaned: bool)

  datatype SdkEvent =
    | SdkInit(capacity: nat)
    | ConnectMqtt(env: ConnectEnv)
    | RegisterClient
    | TakeDownQueue
    | StartDeinit
    | RequestDisconnect
    | CleanUpMqtt(disconnectOk: bool)
    | DeinitQueue
    | ConnectionDrops
    | MessageArrives(arrival: Arrival, haveTopicCopy: bool)

  /** The SDK is used between its init and its deinit, by one application thread; a callback needs a handle. */
  predicate Possible(s: Sdk, e: SdkEvent) {
    match e
    case SdkInit(_) => s.place.Outside? && !s.mq.initialized
    case ConnectMqtt(_) => s.place.Outside? && s.mq.initialized
    case TakeDownQueue => s.place.Outside? && s.mq.initialized
    case StartDeinit => s.place.Outside? && s.mq.initialized
    case RegisterClient => s.place.Registering?
    case RequestDisconnect => s.place.QueueDown?
    case CleanUpMqtt(_) => s.place.Requested?
    case DeinitQueue => s.place.Deinitializing?
    case ConnectionDrops => s.mqtt.client.handle.Some?
    case MessageArrives(_, _) => s.mqtt.client.handle.Some?
  }

  /** The event callback would forward a message to the queue. */
  predicate Forwards(s: Sdk) {
    s.mqtt.client.handle.Some? && s.mqtt.client.inbound && !s.mqtt.client.disconnectRequested
  }

  function Connected(s: Sdk, env: ConnectEnv): Sdk {
    if s.mqtt.client.connected then s
    else s.(mqtt := Initialized(s.mqtt, env), place := if StageOf(env) == Subscribed then Registering else Outside)
  }

  function QueueTakenDown(s: Sdk, deinit: bool): Sdk {
    s.(mq := Flushed(s.mq).(registered := false), place := QueueDown(deinit))
  }

  function CleanedUp(s: Sdk, disconnectOk: bool): Sdk
    requires s.place.Requested?
  {
    s.(mqtt := Cleaned(s.mqtt, disconnectOk), place := if s.place.deinit then Deinitializing else Outside,
       dropped := false, orphaned := false)
  }

  function QueueGone(s: Sdk): Sdk {
    s.(mq := Flushed(s.mq).(registered := false, initialized := false), place := Outside,
       orphaned := s.orphaned || s.mqtt.client.handle.Some?)
  }

  /** A message consumes the request to disconnect; the arrival in the queue does nothing without a client. */
  function EventDelivered(s: Sdk, arrival: Arrival, haveTopicCopy: bool): Sdk {
    s.(mq := if Forwards(s) && haveTopicCopy then Arrived(s.mq, arrival) else s.mq,
       mqtt := s.mqtt.(client := s.mqtt.client.(disconnectRequested := false)))
  }

  function SdkStep(s: Sdk, e: SdkEvent): Sdk {
    if !Possible(s, e) then s else
    match e
    case SdkInit(capacity) => s.(mq := s.mq.(initialized := true, capacity := capacity))
    case ConnectMqtt(env) => Connected(s, env)
    case RegisterClient => s.(mq := s.mq.(registered := true), place := Outside)
    case TakeDownQueue => QueueTakenDown(s, false)
    case StartDeinit => if s.mqtt.client.connected then QueueTakenDown(s, true) else s.(place := Deinitializing)
    case RequestDisconnect =>
      s.(mqtt := s.mqtt.(client := s.mqtt.client.(disconnectRequested := true)), place := Requested(s.place.deinit))
    case CleanUpMqtt(disconnectOk) => CleanedUp(s, disconnectOk)
    case DeinitQueue => QueueGone(s)
    case ConnectionDrops => s.(mqtt := s.mqtt.(client := s.mqtt.client.(connected := false)), dropped := true)
    case MessageArrives(arrival, haveTopicCopy) => EventDelivered(s, arrival, haveTopicCopy)
  }

  function SdkRun(s: Sdk, es: seq<SdkEvent>): Sdk
    decreases |es|
  {
    if es == [] then s else SdkStep(SdkRun(s, es[..|es| - 1]), es[|es| - 1])
  }

  /** The static variables, before the SDK's init. */
  const FRESH := Sdk(STATICS, Mq(false, 0, [], false, 0, [], [], []), Outside, false, false)

  lemma {:induction false} SdkRunAppend(s: Sdk, first: seq<SdkEvent>, second: seq<SdkEvent>)
    ensures SdkRun(s, first + second) == SdkRun(SdkRun(s, first), second)
    decreases |second|
  {
    if second == [] {
      assert first + second == first;
    } else {
      SdkRunAppend(s, first, second[..|second| - 1]);
      assert (first + second)[..|first + second| - 1] == first + second[..|second| - 1];
    }
  }

  lemma SdkRunTwo(s: Sdk, a: SdkEvent, b: SdkEvent)
    ensures SdkRun(s, [a, b]) == SdkStep(SdkStep(s, a), b)
  {
    assert [a][..0] == [];
    assert SdkRun(s, [a]) == SdkStep(s, a);
    assert [a, b][..1] == [a];
  }

  // ----- The queue under the SDK -----

  /** Single ownership and order; nothing queued without a client, and no client without a queue. */
  ghost predicate Coherent(s: Sdk) {
    && Owned(s.mq, []) && Fifo(s.mq)
    && (!s.mq.registered ==> s.mq.queue == [])
    && (s.mq.registered ==> s.mq.initialized)
    && (!s.place.Outside? ==> s.mq.initialized)
  }

  lemma FlushedCoherent(s: Sdk, initialized: bool, place: Place)
    requires Coherent(s) && (!place.Outside? ==> initialized)
    ensures Coherent(s.(mq := Flushed(s.mq).(registered := false, initialized := initialized), place := place))
  {
    FlushedOwned(s.mq);
    SameOwners(Flushed(s.mq), Flushed(s.mq).(registered := false, initialized := initialized));
  }

  lemma StepCoherent(s: Sdk, e: SdkEvent)
    requires Coherent(s)
    ensures Coherent(SdkStep(s, e))
  {
    if Possible(s, e) {
      match e
      case SdkInit(capacity) => SameOwners(s.mq, s.mq.(initialized := true, capacity := capacity));
      case RegisterClient => SameOwners(s.mq, s.mq.(registered := true));
      case TakeDownQueue => FlushedCoherent(s, true, QueueDown(false));
      case StartDeinit => FlushedCoherent(s, true, QueueDown(true));
      case DeinitQueue => FlushedCoherent(s, false, Outside);
      case MessageArrives(arrival, _) => ArrivalOwned(s.mq, arrival);
      case _ =>
    }
  }

  /** Over every run, disciplined or not. */
  lemma {:induction false} SdkCoherent(es: seq<SdkEvent>)
    ensures Coherent(SdkRun(FRESH, es))
  {
    if es == [] {
    } else {
      SdkCoherent(es[..|es| - 1]);
      StepCoherent(SdkRun(FRESH, es[..|es| - 1]), es[|es| - 1]);
    }
  }

  // ----- Runs of a disciplined application -----

  /** The SDK's init checked the connection type; after a lost connection the application disconnects first. */
  predicate Disciplined(es: seq<SdkEvent>) {
    es != [] ==>
      var front, last := es[..|es| - 1], es[|es| - 1];
      && Disciplined(front)
      && (last.ConnectMqtt? ==> last.env.connectionType != Undefined && !SdkRun(FRESH, front).dropped)
  }

  /** The call of the application is at one of the places where the queue has no client although MQTT may be up. */
  predicate InWindow(place: Place) {
    place.Registering? || place.QueueDown? || place.Requested?
  }

  /** MQTT is up without a registered client exactly in the windows, and after a deinit has left it up. */
  predicate ClientWhenUp(s: Sdk) {
    s.mqtt.client.handle.Some? && s.mqtt.client.inbound ==>
      (s.mq.registered <==> !InWindow(s.place) && !s.orphaned)
  }

  /** Where the application can be with which variables. */
  predicate Placed(s: Sdk) {
    && (s.mqtt.client.initialized && !s.mqtt.client.connected ==> s.dropped)
    && (s.orphaned ==> s.dropped && s.mqtt.client.handle.Some?)
    && (s.place.Deinitializing? && s.mqtt.client.handle.Some? ==> s.dropped)
    && (s.place.Registering? ==> !s.orphaned && s.mqtt.client.handle.Some? && s.mqtt.client.inbound)
    && (InWindow(s.place) ==> !s.mq.registered)
    && (s.mq.registered ==> s.mqtt.client.handle.Some? && s.mqtt.client.inbound)
    && ClientWhenUp(s)
  }

  ghost predicate Orderly(s: Sdk) {
    Balanced(s.mqtt) && Placed(s)
  }

  lemma ConnectOrderly(s: Sdk, env: ConnectEnv)
    requires Orderly(s) && s.place.Outside? && env.connectionType != Undefined && !s.dropped
    ensures Orderly(Connected(s, env))
  {
    if !s.mqtt.client.connected {
      AttemptBalanced(s.mqtt, env);
      FailureOrSuccess(s.mqtt, env);
      AttemptOutcome(s.mqtt, env);
    }
  }

  /** A callback for messages is installed exactly by success. */
  lemma AttemptOutcome(m: Mqtt, env: ConnectEnv)
    requires Balanced(m) && Released(m)
    ensures var r := Initialized(m, env);
            (r.client.handle.Some? && r.client.inbound) <==> StageOf(env) == Subscribed
  {
  }

  lemma CleanUpOrderly(s: Sdk, disconnectOk: bool)
    requires Orderly(s) && s.place.Requested?
    ensures Orderly(CleanedUp(s, disconnectOk))
  {
    CleanedBalanced(s.mqtt, disconnectOk);
  }

  lemma OtherOrderly(s: Sdk, e: SdkEvent)
    requires Orderly(s) && Possible(s, e) && !e.ConnectMqtt? && !e.CleanUpMqtt?
    ensures Orderly(SdkStep(s, e))
  {
    OtherPlaced(s, e);
    OtherBalanced(s, e);
  }

  lemma OtherPlaced(s: Sdk, e: SdkEvent)
    requires Placed(s) && Possible(s, e) && !e.ConnectMqtt? && !e.CleanUpMqtt?
    requires s.mqtt.client.handle.Some? ==> s.mqtt.client.initialized
    ensures Placed(SdkStep(s, e))
  {
  }

  lemma OtherBalanced(s: Sdk, e: SdkEvent)
    requires Balanced(s.mqtt) && Possible(s, e) && !e.ConnectMqtt? && !e.CleanUpMqtt?
    ensures Balanced(SdkStep(s, e).mqtt)
  {
    var m := SdkStep(s, e).mqtt;
    assert m.library == s.mqtt.library && m.client.handle == s.mqtt.client.handle;
  }

  lemma StepOrderly(s: Sdk, e: SdkEvent)
    requires Orderly(s)
    requires e.ConnectMqtt? ==> e.env.connectionType != Undefined && !s.dropped
    ensures Orderly(SdkStep(s, e))
  {
    if Possible(s, e) {
      match e
      case ConnectMqtt(env) => ConnectOrderly(s, env);
      case CleanUpMqtt(ok) => CleanUpOrderly(s, ok);
      case _ => OtherOrderly(s, e);
    }
  }

  /** With that discipline every library init and create is matched by one deinit and delete, over every run. */
  lemma {:induction false} LifecycleBalance(es: seq<SdkEvent>)
    requires Disciplined(es)
    ensures Orderly(SdkRun(FRESH, es))
  {
    if es == [] {
    } else {
      LifecycleBalance(es[..|es| - 1]);
      StepOrderly(SdkRun(FRESH, es[..|es| - 1]), es[|es| - 1]);
    }
  }

  /** A message that lacks nothing: arguments, memory, and room in the queue. */
  predicate Fits(s: Sdk, arrival: Arrival) {
    && arrival.topic.Some? && arrival.body.Some? && arrival.body.value != []
    && arrival.haveTopic && arrival.haveBody
    && !Full(s.mq)
  }

  /**
   Over every such run: a message that the event callback forwards is lost for want of a client exactly between the
   client's connection and its registration, between the queue's take-down and the clean-up, and after a deinit that
   left MQTT up; otherwise a copy of it is queued.
   */
  lemma ForwardedExactly(es: seq<SdkEvent>, arrival: Arrival)
    requires Disciplined(es)
    requires Forwards(SdkRun(FRESH, es)) && Fits(SdkRun(FRESH, es), arrival)
    ensures var s := SdkRun(FRESH, es);
            var r := SdkStep(s, MessageArrives(arrival, true));
            if InWindow(s.place) || s.orphaned then r.mq == s.mq
            else
              && |r.mq.queue| == |s.mq.queue| + 1 && s.mq.queue <= r.mq.queue
              && Holds(r.mq.queue[|s.mq.queue|], arrival)
  {
    LifecycleBalance(es);
    ArrivalExactly(SdkRun(FRESH, es).mq, arrival);
  }

  /** A successful attempt, also one after a disconnect, forwards the very first message. */
  lemma ConnectedForwards(s: Sdk, env: ConnectEnv)
    requires s.place.Outside? && s.mq.initialized && !s.mqtt.client.connected && StageOf(env) == Subscribed
    ensures var r := SdkStep(s, ConnectMqtt(env)); Forwards(r) && r.mqtt.client.connected && r.place == Registering
  {
  }

  // ----- The windows are reached -----

  const REGISTERED := [RegisterClient, TakeDownQueue]

  function Up(capacity: nat, env: ConnectEnv): seq<SdkEvent> {
    [SdkInit(capacity), ConnectMqtt(env)]
  }

  lemma UpRuns(capacity: nat, env: ConnectEnv)
    requires StageOf(env) == Subscribed
    ensures var s := SdkRun(FRESH, Up(capacity, env));
            && s.place == Registering && s.mqtt == Initialized(STATICS, env) && !s.dropped && !s.orphaned
            && s.mq.initialized && s.mq.capacity == capacity && s.mq.queue == [] && !s.mq.registered
            && s.mqtt.client.connected && s.mqtt.client.handle == Some(0)
            && Forwards(s)
  {
    SdkRunTwo(FRESH, SdkInit(capacity), ConnectMqtt(env));
  }

  /** After the registration a message is queued for the client. */
  lemma MessageIsQueued(capacity: nat, env: ConnectEnv, arrival: Arrival)
    requires StageOf(env) == Subscribed && capacity > 0
    requires arrival.topic.Some? && arrival.body.Some? && |arrival.body.value| > 0
    requires arrival.haveTopic && arrival.haveBody
    ensures var r := SdkRun(FRESH, Up(capacity, env) + [RegisterClient, MessageArrives(arrival, true)]);
            |r.mq.queue| == 1 && Holds(r.mq.queue[0], arrival) && r.mq.registered && r.place == Outside
  {
    UpRuns(capacity, env);
    var s := SdkRun(FRESH, Up(capacity, env));
    SdkRunTwo(s, RegisterClient, MessageArrives(arrival, true));
    SdkRunAppend(FRESH, Up(capacity, env), [RegisterClient, MessageArrives(arrival, true)]);
    ArrivalExactly(SdkStep(s, RegisterClient).mq, arrival);
  }

  /** A message right after the connection is forwarded and lost. */
  lemma LostBeforeRegistering(capacity: nat, env: ConnectEnv, arrival: Arrival)
    requires StageOf(env) == Subscribed
    ensures var s := SdkRun(FRESH, Up(capacity, env));
            Forwards(s) && s.mqtt.client.connected && SdkStep(s, MessageArrives(arrival, true)).mq == s.mq
  {
    UpRuns(capacity, env);
  }

  /**
   So is one right after the queue was taken down; and, although the disconnect has then been requested, the second of
   two more, as the first one consumes the request.
   */
  lemma LostWhileDisconnecting(capacity: nat, env: ConnectEnv, arrival: Arrival)
    requires StageOf(env) == Subscribed
    ensures var s := SdkRun(FRESH, Up(capacity, env) + REGISTERED);
            && Forwards(s) && SdkStep(s, MessageArrives(arrival, true)).mq == s.mq
            && var r := SdkStep(s, RequestDisconnect);
            && !Forwards(r)
            && Forwards(SdkStep(r, MessageArrives(arrival, true)))
            && !SdkStep(r, MessageArrives(arrival, true)).mq.registered
  {
    UpRuns(capacity, env);
    SdkRunTwo(SdkRun(FRESH, Up(capacity, env)), RegisterClient, TakeDownQueue);
    SdkRunAppend(FRESH, Up(capacity, env), REGISTERED);
  }

  // ----- A lost connection that is not cleaned up -----

  const DROPPED := [RegisterClient, ConnectionDrops]

  lemma DroppedRuns(capacity: nat, env: ConnectEnv)
    requires StageOf(env) == Subscribed
    ensures var s := SdkRun(FRESH, Up(capacity, env) + DROPPED);
            && s.place == Outside && s.mq.initialized && s.mq.registered && s.dropped
            && s.mqtt.client.handle == Some(0) && s.mqtt.client.initialized && !s.mqtt.client.connected && Forwards(s)
            && Balanced(s.mqtt)
  {
    UpRuns(capacity, env);
    SdkRunTwo(SdkRun(FRESH, Up(capacity, env)), RegisterClient, ConnectionDrops);
    SdkRunAppend(FRESH, Up(capacity, env), DROPPED);
    AttemptBalanced(STATICS, env);
  }

  /** Connecting again loses the handle and a library init. */
  lemma ReconnectLeaks(capacity: nat, env: ConnectEnv)
    requires StageOf(env) == Subscribed
    ensures var r := SdkStep(SdkRun(FRESH, Up(capacity, env) + DROPPED), ConnectMqtt(env));
            !Balanced(r.mqtt) && 0 !in r.mqtt.library.deleted && r.mqtt.client.handle != Some(0)
  {
    DroppedRuns(capacity, env);
    var m := SdkRun(FRESH, Up(capacity, env) + DROPPED).mqtt;
    ConnectBalanceExactly(m, env);
    LeakExactly(m, env, 0);
  }

  /** The four steps of a deinit with nothing in between; those of the disconnect only happen when connected. */
  function Deinitialized(s: Sdk, disconnectOk: bool): Sdk {
    SdkStep(SdkStep(SdkStep(SdkStep(s, StartDeinit), RequestDisconnect), CleanUpMqtt(disconnectOk)), DeinitQueue)
  }

  /** Deinit releases the client exactly if it is connected or released already: a dropped connection is left behind. */
  lemma DeinitReleasesExactly(s: Sdk, disconnectOk: bool)
    requires Balanced(s.mqtt) && s.place.Outside? && s.mq.initialized
    ensures Released(Deinitialized(s, disconnectOk).mqtt) <==> s.mqtt.client.connected || Released(s.mqtt)
  {
  }

  /** Which happens, after a lost connection. */
  lemma DeinitLeavesDropped(capacity: nat, env: ConnectEnv, disconnectOk: bool)
    requires StageOf(env) == Subscribed
    ensures var r := Deinitialized(SdkRun(FRESH, Up(capacity, env) + DROPPED), disconnectOk);
            !Released(r.mqtt) && r.orphaned && !r.mq.initialized && Forwards(r)
  {
    DroppedRuns(capacity, env);
  }

  // ----- The SDK as an object -----

  /** What every run keeps, as an invariant of the SDK's state after it. */
  ghost predicate HistorySound(s: Sdk, history: seq<SdkEvent>) {
    Coherent(s) && (Disciplined(history) ==> Orderly(s))
  }

  lemma HistoryHolds(history: seq<SdkEvent>)
    ensures HistorySound(SdkRun(FRESH, history), history)
  {
    SdkCoherent(history);
    if Disciplined(history) {
      LifecycleBalance(history);
    }
  }

  lemma HistoryGrows(history: seq<SdkEvent>, e: SdkEvent)
    ensures SdkRun(FRESH, history + [e]) == SdkStep(SdkRun(FRESH, history), e)
    ensures HistorySound(SdkRun(FRESH, history + [e]), history + [e])
  {
    assert (history + [e])[..|history|] == history;
    HistoryHolds(history + [e]);
  }

  /** What the library does in its own thread. */
  predicate Callbacks(es: seq<SdkEvent>) {
    forall i :: 0 <= i < |es| ==> es[i].ConnectionDrops? || es[i].MessageArrives?
  }

  class SdkClient {
    const mqtt: MqttClient
    const queue: Queue
    ghost var place: Place
    ghost var dropped: bool
    ghost var orphaned: bool
    ghost var history: seq<SdkEvent>

    ghost function Abstract(): Sdk
      reads this, mqtt, queue
    {
      Sdk(mqtt.Abstract(), queue.Abstract(), place, dropped, orphaned)
    }

    /**
     The object is where its history leads: its queue keeps ownership and order, and if the history is disciplined the
     library calls are balanced and a client is missing exactly in the windows.
     */
    ghost predicate Valid()
      reads this, mqtt, queue
    {
      queue.Valid() && Abstract() == SdkRun(FRESH, history) && HistorySound(Abstract(), history)
    }

    constructor ()
      ensures Valid() && fresh(mqtt) && fresh(queue)
      ensures history == []
    {
      history, place, dropped, orphaned := [], Outside, false, false;
      mqtt := new MqttClient();
      queue := new Queue();
      new;
      HistoryHolds([]);
    }

    /** The variables have changed as the event says; what is history follows. */
    ghost method Happened(e: SdkEvent)
      requires queue.Valid()
      requires var s := SdkStep(SdkRun(FRESH, history), e); s.mqtt == mqtt.Abstract() && s.mq == queue.Abstract()
      modifies this
      ensures Valid() && history == old(history) + [e]
    {
      HistoryGrows(history, e);
      var s := SdkStep(SdkRun(FRESH, history), e);
      place, dropped, orphaned := s.place, s.dropped, s.orphaned;
      history := history + [e];
    }

    /** The queue's part of `iotconnect_sdk_init`. */
    method Init(capacity: nat)
      requires Valid() && place == Outside && !queue.initialized
      modifies this, mqtt, queue
      ensures Valid() && history == old(history) + [SdkInit(capacity)]
      ensures queue.initialized && queue.capacity == capacity
    {
      var created := queue.Init(capacity, true);
      Happened(SdkInit(capacity));
    }

    /** Refuses when connected already; the queue gets its client exactly on success, after what the library does. */
    method Connect(env: ConnectEnv, meanwhile: seq<SdkEvent>) returns (ok: bool)
      requires Valid() && place == Outside && queue.initialized && Callbacks(meanwhile)
      modifies this, mqtt, queue
      ensures Valid() && place == Outside
      ensures ok <==> !old(mqtt.client.connected) && StageOf(env) == Subscribed
      ensures ok ==> queue.registered
      ensures history == old(history) + [ConnectMqtt(env)] + if ok then meanwhile + [RegisterClient] else []
    {
      ok := false;
      if !mqtt.client.connected {
        ok := mqtt.Init(env);
      }
      Happened(ConnectMqtt(env));
      if ok {
        LibraryRuns(meanwhile);
        RegisterQueue();
      }
    }

    method RegisterQueue()
      requires Valid() && place == Registering
      modifies this, queue
      ensures Valid() && history == old(history) + [RegisterClient] && place == Outside && queue.registered
    {
      queue.Register();
      Happened(RegisterClient);
    }

    /** Client callback and queue first, the connection last. */
    method Disconnect(disconnectOk: bool, first: seq<SdkEvent>, second: seq<SdkEvent>)
      requires Valid() && place == Outside && queue.initialized && Callbacks(first) && Callbacks(second)
      modifies this, mqtt, queue
      ensures Valid() && place == Outside
      ensures Released(mqtt.Abstract()) && !queue.registered && queue.queue == []
      ensures history ==
              old(history) + [TakeDownQueue] + first + [RequestDisconnect] + second + [CleanUpMqtt(disconnectOk)]
    {
      queue.DisconnectQueue();
      Happened(TakeDownQueue);
      DisconnectMqtt(disconnectOk, first, second);
    }

    /** `iotc_mqtt_client_disconnect`, and what the library does before its end. */
    method DisconnectMqtt(disconnectOk: bool, first: seq<SdkEvent>, second: seq<SdkEvent>)
      requires Valid() && place.QueueDown? && Callbacks(first) && Callbacks(second)
      modifies this, mqtt, queue
      ensures Valid() && place == if old(place).deinit then Deinitializing else Outside
      ensures Released(mqtt.Abstract()) && queue.registered == old(queue.registered)
      ensures history == old(history) + first + [RequestDisconnect] + second + [CleanUpMqtt(disconnectOk)]
    {
      LibraryRuns(first);
      Request();
      LibraryRuns(second);
      CleanUp(disconnectOk);
    }

    method Request()
      requires Valid() && place.QueueDown?
      modifies this, mqtt
      ensures Valid() && history == old(history) + [RequestDisconnect]
      ensures place == Requested(old(place).deinit)
    {
      mqtt.RequestDisconnect();
      Happened(RequestDisconnect);
    }

    method CleanUp(disconnectOk: bool)
      requires Valid() && place.Requested?
      modifies this, mqtt
      ensures Valid() && history == old(history) + [CleanUpMqtt(disconnectOk)]
      ensures place == (if old(place).deinit then Deinitializing else Outside) && Released(mqtt.Abstract())
    {
      mqtt.CleanUp(disconnectOk);
      Happened(CleanUpMqtt(disconnectOk));
    }

    /** The queue is empty and gone; the MQTT client is released unless its connection had dropped before. */
    method Deinit(disconnectOk: bool, first: seq<SdkEvent>, second: seq<SdkEvent>, third: seq<SdkEvent>)
      requires Valid() && place == Outside && queue.initialized
      requires Callbacks(first) && Callbacks(second) && Callbacks(third)
      modifies this, mqtt, queue
      ensures Valid() && place == Outside
      ensures !queue.registered && queue.queue == [] && !queue.initialized
      ensures Released(mqtt.Abstract()) <==> old(mqtt.client.connected || Released(mqtt.Abstract()))
      ensures old(mqtt.client.connected) ==>
                history == old(history) + [StartDeinit] + first + [RequestDisconnect] + second +
                           [CleanUpMqtt(disconnectOk)] + third + [DeinitQueue]
      ensures !old(mqtt.client.connected) ==> history == old(history) + [StartDeinit] + third + [DeinitQueue]
    {
      BeginDeinit();
      if mqtt.client.connected {
        DisconnectMqtt(disconnectOk, first, second);
      }
      LibraryRuns(third);
      FinishDeinit();
    }

    /** Asks whether to disconnect first, and if so takes the queue's client down. */
    method BeginDeinit()
      requires Valid() && place == Outside && queue.initialized
      modifies this, queue
      ensures Valid() && history == old(history) + [StartDeinit]
      ensures place == if mqtt.client.connected then QueueDown(true) else Deinitializing
    {
      if mqtt.client.connected {
        queue.DisconnectQueue();
      }
      Happened(StartDeinit);
    }

    method FinishDeinit()
      requires Valid() && place == Deinitializing
      modifies this, queue
      ensures Valid() && history == old(history) + [DeinitQueue] && place == Outside
      ensures !queue.registered && queue.queue == [] && !queue.initialized
    {
      queue.Deinit();
      Happened(DeinitQueue);
    }

    /** The library's thread runs; what needs a handle does not happen without one. */
    method LibraryRuns(es: seq<SdkEvent>)
      requires Valid() && Callbacks(es)
      modifies this, mqtt, queue
      ensures Valid() && history == old(history) + es && place == old(place)
      ensures queue.registered == old(queue.registered) && queue.initialized == old(queue.initialized)
      ensures Released(mqtt.Abstract()) == old(Released(mqtt.Abstract()))
    {
      for i := 0 to |es|
        invariant Valid() && history == old(history) + es[..i] && place == old(place)
        invariant queue.registered == old(queue.registered) && queue.initialized == old(queue.initialized)
        invariant Released(mqtt.Abstract()) == old(Released(mqtt.Abstract()))
      {
        assert es[..i + 1] == es[..i] + [es[i]];
        OnEvent(es[i]);
      }
      assert es[..|es|] == es;
    }

    /** `mqtt_event_callback`. */
    method OnEvent(e: SdkEvent)
      requires Valid() && (e.ConnectionDrops? || e.MessageArrives?)
      modifies this, mqtt, queue
      ensures Valid() && history == old(history) + [e] && place == old(place)
      ensures queue.registered == old(queue.registered) && queue.initialized == old(queue.initialized)
      ensures mqtt.client.handle == old(mqtt.client.handle) && mqtt.client.initialized == old(mqtt.client.initialized)
    {
      if mqtt.client.handle.Some? {
        match e
        case ConnectionDrops => mqtt.client := mqtt.client.(connected := false);
        case MessageArrives(arrival, haveTopicCopy) => OnMessage(arrival, haveTopicCopy);
      }
      Happened(e);
    }

    method OnMessage(arrival: Arrival, haveTopicCopy: bool)
      requires queue.Valid() && mqtt.client.handle.Some?
      modifies mqtt, queue
      ensures queue.Valid()
      ensures Abstract() == EventDelivered(old(Abstract()), arrival, haveTopicCopy)
      ensures queue.registered == old(queue.registered) && queue.initialized == old(queue.initialized)
    {
      if mqtt.client.inbound && !mqtt.client.disconnectRequested {
        if haveTopicCopy {
          queue.OnInbound(arrival);
        }
      }
      mqtt.client := mqtt.client.(disconnectRequested := false);
    }
  }
}
