/** Concrete runs: a client started with two servers given by address, which has asked the first of them. */
module SntpStart {
  import opened SntpModel
  import opened SntpProcess
  import opened SntpTime
  import opened Wrappers

  /** The events up to the first request; the timer is that of the startup delay, if there is one. */
  function FirstRequest(a: Addr, b: Addr, env: Env): seq<Event> {
    [SetServer(0, Some(a)), SetServer(1, Some(b))] + [Init(true, env), RequestTimer(env)]
  }

  predicate TableOf(servers: seq<Server>, a: Addr, b: Addr) {
    && |servers| >= 2
    && (forall i :: 0 <= i < |servers| ==> servers[i].name.None?)
    && servers[0].addr == a && servers[1].addr == b
    && forall i :: 2 <= i < |servers| ==> servers[i].addr == IP_ADDR_ANY
  }

  /** The first server has been asked at a clock reading, and its receive timeout is the only thing pending. */
  predicate Asked(o: Options, s: State, a: Addr, b: Addr, clock: Clock) {
    && s.Valid(o) && TableOf(s.servers, a, b)
    && s.open && s.mode == Poll && s.current == 0
    && s.lastAddr == a && s.lastStamp == StampOf(clock)
    && s.requestDue == [] && s.nextDue == [s.now + o.recvTimeout] && s.dns == 0
    && s.retryTimeout == o.retryTimeout
    && |s.trace| == 3 && s.trace[0] == Started && s.trace[1] == Reset && s.trace[2].Sent? && s.trace[2].at == s.now
  }

  lemma TableIsSet(o: Options, a: Addr, b: Addr)
    ensures var s := Exec(o, PowerUp(o), [SetServer(0, Some(a)), SetServer(1, Some(b))]);
            && TableOf(s.servers, a, b)
            && s == PowerUp(o).(servers := s.servers)
  {
    ExecTwo(o, PowerUp(o), SetServer(0, Some(a)), SetServer(1, Some(b)));
  }

  lemma RequestAsks(o: Options, s: State, a: Addr, b: Addr, env: Env)
    requires s.Valid(o) && TableOf(s.servers, a, b) && a != IP_ADDR_ANY && env.haveBuffer
    requires s.open && s.mode == Poll && s.current == 0 && s.Pending() == 0 && s.retryTimeout == o.retryTimeout
    requires s.trace == [Started, Reset]
    ensures Asked(o, Request(o, s, env), a, b, env.clock)
  {
    assert Request(o, s, env) == Transmit(o, s, a, env.clock);
    assert Transmit(o, s, a, env.clock).trace == [Started, Reset] + [Sending(s, a, env.clock)];
  }

  lemma StartAsks(o: Options, s: State, a: Addr, b: Addr, env: Env)
    requires s.Valid(o) && TableOf(s.servers, a, b) && a != IP_ADDR_ANY && env.haveBuffer
    requires s == PowerUp(o).(servers := s.servers)
    ensures Asked(o, Exec(o, s, [Init(true, env), RequestTimer(env)]), a, b, env.clock)
  {
    var started := s.(open := true, retryTimeout := o.retryTimeout, trace := [Started, Reset]);
    assert s.(open := true).Observe(Started).ResetTimeout(o) == started;
    ExecTwo(o, s, Init(true, env), RequestTimer(env));
    RequestAsks(o, started, a, b, env);
    if o.startupDelay {
      DelayedAsks(o, started, env);
    }
  }

  lemma DelayedAsks(o: Options, started: State, env: Env)
    requires started.Valid(o) && started.requestDue == []
    ensures Step(o, started.ArmRequest(env.startupDelay), RequestTimer(env)) == Request(o, started, env)
  {
    assert started.ArmRequest(env.startupDelay).CancelRequest() == started;
  }

  lemma FirstRequestAsks(o: Options, a: Addr, b: Addr, env: Env)
    requires a != IP_ADDR_ANY && env.haveBuffer
    ensures Asked(o, Exec(o, PowerUp(o), FirstRequest(a, b, env)), a, b, env.clock)
  {
    var table := [SetServer(0, Some(a)), SetServer(1, Some(b))];
    TableIsSet(o, a, b);
    StartAsks(o, Exec(o, PowerUp(o), table), a, b, env);
    ExecAppend(o, PowerUp(o), table, [Init(true, env), RequestTimer(env)]);
  }

  /** The next server of such a client is the second. */
  lemma SecondIsNext(servers: seq<Server>, a: Addr, b: Addr)
    requires TableOf(servers, a, b) && b != IP_ADDR_ANY
    ensures NextServer(servers, 0) == Some(1)
  {
  }
}
