/**
 Obtaining the time: an application thread polls the reachability register of server 0 while the network stack's
 thread runs the SNTP client and, from within it, the system time hook.
 */
module TimeObtain {
  import opened SntpActions
  import opened SntpModel
  import opened SntpReachability
  import opened Wrappers

  const IOTC_MTB_TIME_MAX_TRIES: nat := 15

  /**
   `hooked` holds a packet whose answer has been written to the clock but not yet credited: the thread is between
   the hook and the register update of `sntp_recv`.
   */
  datatype World = World(sntp: State, callbackReceived: bool, clockWrites: seq<Obs>, hooked: Option<Event>)

  /** A step of the network stack's thread, as fine as the poller can observe. */
  datatype ThreadStep = Handle(e: Event) | EnterHook(e: Event) | LeaveHook

  /** `iotc_set_system_time_us`, as `sntp_process` calls it for an accepted packet. */
  function SetSystemTime(w: World, e: Event): World
    requires WillAccept(w.sntp, e)
  {
    w.(callbackReceived := true, clockWrites := w.clockWrites + [HookCall(e.data, e.env.clock)])
  }

  function ThreadRuns(o: Options, w: World, t: ThreadStep): (r: World)
    requires w.sntp.Valid(o)
    ensures r.sntp.Valid(o)
  {
    match t
    case Handle(e) =>
      if w.hooked.Some? then w
      else if WillAccept(w.sntp, e) then SetSystemTime(w, e).(sntp := Step(o, w.sntp, e))
      else w.(sntp := Step(o, w.sntp, e))
    case EnterHook(e) =>
      if w.hooked.Some? || !WillAccept(w.sntp, e) then w else SetSystemTime(w, e).(hooked := Some(e))
    case LeaveHook =>
      if w.hooked.Some? then w.(sntp := Step(o, w.sntp, w.hooked.value), hooked := None) else w
  }

  /**
   The two halves of an acceptance are the whole; in between the hook has run and the register is still the old one.
   Nothing else happens in between.
   */
  lemma HookSplits(o: Options, w: World, e: Event, other: Event)
    requires w.sntp.Valid(o) && w.hooked.None? && WillAccept(w.sntp, e)
    ensures var half := ThreadRuns(o, w, EnterHook(e));
            && half.callbackReceived && half.sntp == w.sntp
            && half.clockWrites == w.clockWrites + [HookCall(e.data, e.env.clock)]
            && ThreadRuns(o, half, Handle(other)) == ThreadRuns(o, half, EnterHook(other)) == half
            && ThreadRuns(o, half, LeaveHook) == ThreadRuns(o, w, Handle(e))
            && ThreadRuns(o, w, Handle(e)).sntp == Step(o, w.sntp, e)
  {
  }

  function ThreadRun(o: Options, w: World, ts: seq<ThreadStep>): (r: World)
    requires w.sntp.Valid(o)
    ensures r.sntp.Valid(o)
    decreases |ts|
  {
    if ts == [] then w else ThreadRuns(o, ThreadRun(o, w, ts[..|ts| - 1]), ts[|ts| - 1])
  }

  function Boot(o: Options): World {
    World(PowerUp(o), false, [], None)
  }

  /** The answer at j was written to the clock before it was credited. */
  predicate WrittenBefore(trace: seq<Obs>, writes: seq<Obs>, j: nat)
    requires j < |trace|
  {
    j > 0 && trace[j - 1] in writes
  }

  predicate AllWritten(trace: seq<Obs>, writes: seq<Obs>) {
    forall j: nat :: j < |trace| && trace[j].Accepted? ==> WrittenBefore(trace, writes, j)
  }

  ghost predicate Consistent(o: Options, w: World) {
    && w.sntp.Valid(o)
    && RegistersTell(ViewOf(w.sntp))
    && AllWritten(w.sntp.trace, w.clockWrites)
    && (w.callbackReceived <==> w.clockWrites != [])
    && (w.hooked.Some? ==>
          && WillAccept(w.sntp, w.hooked.value)
          && HookCall(w.hooked.value.data, w.hooked.value.env.clock) in w.clockWrites)
  }

  lemma {:induction false} AnswerlessPath(o: Options, v: View, actions: seq<Action>, w: View, writes: seq<Obs>)
    requires Path(o, v, actions, w) && Answerless(actions)
    requires AllWritten(v.trace, writes)
    ensures AllWritten(w.trace, writes)
    decreases |actions|
  {
    if actions == [] {
    } else {
      AnswerlessPath(o, Act(o, v, actions[0]), actions[1..], w, writes);
    }
  }

  lemma StepKeepsRegisters(o: Options, s: State, e: Event)
    requires s.Valid(o) && RegistersTell(ViewOf(s))
    ensures RegistersTell(ViewOf(Step(o, s, e)))
  {
    var actions := StepPath(o, s, e);
    PathKeepsRegisters(o, ViewOf(s), actions, ViewOf(Step(o, s, e)));
  }

  lemma OtherStepKeepsWritten(o: Options, s: State, e: Event, writes: seq<Obs>)
    requires s.Valid(o) && !WillAccept(s, e) && AllWritten(s.trace, writes)
    ensures AllWritten(Step(o, s, e).trace, writes)
  {
    var actions := StepPath(o, s, e);
    AnswerlessPath(o, ViewOf(s), actions, ViewOf(Step(o, s, e)), writes);
  }

  lemma AnswerAppended(trace: seq<Obs>, hook: Obs, answer: Obs, rest: seq<Obs>, writes: seq<Obs>)
    requires AllWritten(trace, writes) && hook in writes && !hook.Accepted?
    requires rest == [] || rest == [Reset]
    ensures AllWritten(trace + [hook] + [answer] + rest, writes)
  {
    var longer := trace + [hook] + [answer] + rest;
    assert longer[|trace|] == hook;
    forall j: nat | j < |longer| && longer[j].Accepted?
      ensures WrittenBefore(longer, writes, j)
    {
      if j < |trace| {
        assert trace[j] == longer[j] && WrittenBefore(trace, writes, j);
        assert trace[j - 1] == longer[j - 1];
      }
    }
  }

  lemma AcceptKeepsWritten(o: Options, s: State, e: Event, writes: seq<Obs>)
    requires s.Valid(o) && WillAccept(s, e) && AllWritten(s.trace, writes)
    requires HookCall(e.data, e.env.clock) in writes
    ensures AllWritten(Step(o, s, e).trace, writes)
  {
    AcceptTrace(o, s, e);
    AnswerAppended(s.trace, HookCall(e.data, e.env.clock), Crediting(s, e.data, e.from, e.env.clock),
                   if s.mode == Poll then [Reset] else [], writes);
  }

  lemma MoreWrites(trace: seq<Obs>, writes: seq<Obs>, write: Obs)
    requires AllWritten(trace, writes)
    ensures AllWritten(trace, writes + [write])
  {
    forall j: nat | j < |trace| && trace[j].Accepted?
      ensures WrittenBefore(trace, writes + [write], j)
    {
      assert WrittenBefore(trace, writes, j);
    }
  }

  lemma ThreadStepConsistent(o: Options, w: World, t: ThreadStep)
    requires Consistent(o, w)
    ensures Consistent(o, ThreadRuns(o, w, t))
  {
    match t
    case Handle(e) =>
      if w.hooked.None? {
        StepKeepsRegisters(o, w.sntp, e);
        if WillAccept(w.sntp, e) {
          MoreWrites(w.sntp.trace, w.clockWrites, HookCall(e.data, e.env.clock));
          AcceptKeepsWritten(o, w.sntp, e, SetSystemTime(w, e).clockWrites);
        } else {
          OtherStepKeepsWritten(o, w.sntp, e, w.clockWrites);
        }
      }
    case EnterHook(e) =>
      if w.hooked.None? && WillAccept(w.sntp, e) {
        MoreWrites(w.sntp.trace, w.clockWrites, HookCall(e.data, e.env.clock));
      }
    case LeaveHook =>
      if w.hooked.Some? {
        StepKeepsRegisters(o, w.sntp, w.hooked.value);
        AcceptKeepsWritten(o, w.sntp, w.hooked.value, w.clockWrites);
      }
  }

  lemma {:induction false} ThreadRunConsistent(o: Options, w: World, ts: seq<ThreadStep>)
    requires Consistent(o, w)
    ensures Consistent(o, ThreadRun(o, w, ts))
  {
    if ts == [] {
    } else {
      ThreadRunConsistent(o, w, ts[..|ts| - 1]);
      ThreadStepConsistent(o, ThreadRun(o, w, ts[..|ts| - 1]), ts[|ts| - 1]);
    }
  }

  lemma BootConsistent(o: Options)
    ensures Consistent(o, Boot(o))
  {
    PowerUpTells(o);
  }

  /** An accepted response, credited to server k, whose time had already been written to the clock. */
  ghost predicate TimeObtained(w: World, k: nat) {
    exists j: nat :: j < |w.sntp.trace| && CreditedTo(w.sntp.trace[j], k) &&
      WrittenBefore(w.sntp.trace, w.clockWrites, j)
  }

  /** A register read as non-zero, at whatever moment, means that the hook has run for an answer of that server. */
  lemma NonZeroMeansObtained(o: Options, w: World, k: nat)
    requires Consistent(o, w) && k < o.maxServers && w.sntp.servers[k].reachability != 0
    ensures w.callbackReceived && TimeObtained(w, k)
  {
    RegisterTells(w.sntp, k);
    var i: nat :| i < 8 && Answered(w.sntp.trace, k, i);
    var j: nat :| AnswerAt(w.sntp.trace, k, i, j);
    assert WrittenBefore(w.sntp.trace, w.clockWrites, j);
  }

  /** In every interleaving since power-up. */
  lemma ReachableMeansObtained(o: Options, ts: seq<ThreadStep>, k: nat)
    requires k < o.maxServers && ThreadRun(o, Boot(o), ts).sntp.servers[k].reachability != 0
    ensures var w := ThreadRun(o, Boot(o), ts); w.callbackReceived && TimeObtained(w, k)
  {
    BootConsistent(o);
    ThreadRunConsistent(o, Boot(o), ts);
    NonZeroMeansObtained(o, ThreadRun(o, Boot(o), ts), k);
  }

  // ----- The poller -----

  /** What the application does before it polls: poll mode, the server's name, the start of the client. */
  function StartObtaining(o: Options, w: World, server: string, pcb: bool, env: Env): (r: World)
    requires w.sntp.Valid(o)
    ensures r.sntp.Valid(o)
  {
    ThreadRun(o, w, [Handle(SetMode(Poll)), Handle(SetServerName(0, Some(server))), Handle(Init(pcb, env))])
  }

  lemma RunThree(o: Options, w: World, a: ThreadStep, b: ThreadStep, c: ThreadStep)
    requires w.sntp.Valid(o)
    ensures ThreadRun(o, w, [a, b, c]) == ThreadRuns(o, ThreadRuns(o, ThreadRuns(o, w, a), b), c)
  {
    RunTwo(o, w, a, b);
    assert [a, b, c] == [a, b] + [c];
    RunLast(o, w, [a, b], c);
  }

  lemma RunTwo(o: Options, w: World, a: ThreadStep, b: ThreadStep)
    requires w.sntp.Valid(o)
    ensures ThreadRun(o, w, [a, b]) == ThreadRuns(o, ThreadRuns(o, w, a), b)
  {
    assert [a] == [] + [a] && [a, b] == [a] + [b];
    RunLast(o, w, [], a);
    RunLast(o, w, [a], b);
  }

  /** The client has been told the server and started: it polls, and something will call it back. */
  ghost predicate Begun(before: World, w: World, server: string) {
    && w.sntp.open && w.sntp.mode == Poll
    && |w.sntp.servers| > 0 && w.sntp.servers[0].name == Some(server)
    && w.sntp.Pending() > 0
    && |w.sntp.trace| > |before.sntp.trace| && w.sntp.trace[|before.sntp.trace|] == Started
    && w.hooked.None?
  }

  /** With a socket, the three calls do that; without one the client stays closed and silent. */
  lemma StartBegins(o: Options, w: World, server: string, pcb: bool, env: Env)
    requires w.sntp.Valid(o) && !w.sntp.open && w.hooked.None?
    ensures var r := StartObtaining(o, w, server, pcb, env);
            if pcb then Begun(w, r, server)
            else !r.sntp.open && r.sntp.trace == w.sntp.trace && r.sntp.servers[0].name == Some(server)
  {
    var told := w.sntp.(mode := Poll, servers := w.sntp.servers[0 := w.sntp.servers[0].(name := Some(server))]);
    RunThree(o, w, Handle(SetMode(Poll)), Handle(SetServerName(0, Some(server))), Handle(Init(pcb, env)));
    assert StartObtaining(o, w, server, pcb, env) == w.(sntp := Step(o, told, Init(pcb, env)));
    if pcb {
      PollingBegins(o, told, env);
    }
  }

  lemma PollingBegins(o: Options, s: State, env: Env)
    requires s.Valid(o) && !s.open && s.mode == Poll
    ensures var r := Step(o, s, Init(true, env));
            && r.open && r.mode == Poll && r.Pending() > 0 && r.servers[0].name == s.servers[0].name
            && |r.trace| > |s.trace| && r.trace[|s.trace|] == Started
  {
    var started := s.(open := true, retryTimeout := o.retryTimeout, trace := s.trace + [Started] + [Reset]);
    StartStep(o, s, Init(true, env));
    RequestBegins(o, started, env);
  }

  lemma RequestBegins(o: Options, s: State, env: Env)
    requires s.Valid(o)
    ensures var r := Request(o, s, env);
            && r.open == s.open && r.mode == s.mode && r.Pending() > 0 && r.servers[0].name == s.servers[0].name
            && s.trace <= r.trace
  {
  }

  /**
   The resolver answers a query, with a buffer for the request, and that request is answered: 48 bytes from port 123 of
   the address it went to, server mode, a stratum, and an echo of the request's last eight bytes.
   */
  predicate AnswersAtOnce(part: seq<ThreadStep>) {
    && |part| == 2 && part[0].Handle? && part[1].Handle?
    && var found, reply := part[0].e, part[1].e;
    && found.DnsFound? && found.answer.Some? && found.answer.value != 0 && found.env.haveBuffer
    && reply.Packet? && reply.from == found.answer.value && reply.port == 123
    && |reply.data| == 48 && reply.data[0] % 8 == 4 && reply.data[1] != 0
    && reply.data[24..32] == SntpPacket.RequestMessage(SntpProcess.StampOf(found.env.clock))[40..48]
  }

  lemma QueryAnswered(o: Options, s: State, found: Event, reply: Event)
    requires s.Valid(o) && s.open && s.mode == Poll && s.current == 0 && s.dns > 0
    requires AnswersAtOnce([Handle(found), Handle(reply)])
    ensures var asked := Step(o, s, found);
            && WillAccept(asked, reply)
            && Step(o, asked, reply).servers[0].reachability != 0
  {
    var asked := Step(o, s, found);
    assert asked.lastAddr == found.answer.value && asked.current == 0;
    EchoIsRead(found.env.clock, reply.data);
    assert WillAccept(asked, reply);
    CreditSets(o, asked, reply);
  }

  lemma EchoIsRead(clock: SntpTime.Clock, data: seq<CInt.Byte>)
    requires |data| == 48
    requires data[24..32] == SntpPacket.RequestMessage(SntpProcess.StampOf(clock))[40..48]
    ensures SntpPacket.ExtractTimestamps(data).orig == SntpProcess.StampOf(clock)
  {
    var stamp := SntpProcess.StampOf(clock);
    SntpPacket.RequestStamp(stamp);
    SntpPacket.TimesEqualBytes(data, 24, SntpPacket.RequestMessage(stamp), 40);
  }

  lemma CreditSets(o: Options, s: State, e: Event)
    requires s.Valid(o) && WillAccept(s, e) && s.current == 0
    ensures Step(o, s, e).servers[0].reachability == s.servers[0].reachability | 1 != 0
  {
    PacketStep(o, s, e);
  }

  /** From power-up without a startup delay: if resolver and server answer, the first reading is not zero. */
  lemma FirstReadingSet(o: Options, server: string, env: Env, part: seq<ThreadStep>)
    requires !o.startupDelay && env.dns == InProgress && AnswersAtOnce(part)
    ensures ThreadRun(o, StartObtaining(o, Boot(o), server, true, env), part).sntp.servers[0].reachability != 0
  {
    var w := StartObtaining(o, Boot(o), server, true, env);
    BootAsks(o, server, env);
    QueryAnswered(o, w.sntp, part[0].e, part[1].e);
    assert part == [part[0], part[1]];
    RunTwo(o, w, part[0], part[1]);
  }

  lemma BootStarts(o: Options, server: string, env: Env, servers: seq<Server>)
    requires servers == PowerUp(o).servers[0 := Server(Some(server), IP_ADDR_ANY, 0)]
    ensures var w := StartObtaining(o, Boot(o), server, true, env);
            w.hooked.None? && w.sntp == Step(o, PowerUp(o).(servers := servers), Init(true, env))
  {
    var mode, name, init := SetMode(Poll), SetServerName(0, Some(server)), Init(true, env);
    RunThree(o, Boot(o), Handle(mode), Handle(name), Handle(init));
    OwnStep(o, Boot(o), mode);
    assert Step(o, PowerUp(o), mode) == PowerUp(o);
    OwnStep(o, Boot(o), name);
    assert Step(o, PowerUp(o), name) == PowerUp(o).(servers := servers);
    OwnStep(o, Boot(o).(sntp := PowerUp(o).(servers := servers)), init);
  }

  lemma OwnStep(o: Options, w: World, e: Event)
    requires w.sntp.Valid(o) && w.hooked.None? && !e.Packet?
    ensures ThreadRuns(o, w, Handle(e)) == w.(sntp := Step(o, w.sntp, e))
  {
  }

  lemma BootAsks(o: Options, server: string, env: Env)
    requires !o.startupDelay && env.dns == InProgress
    ensures var w := StartObtaining(o, Boot(o), server, true, env);
            && w.hooked.None? && w.sntp.open && w.sntp.mode == Poll && w.sntp.current == 0 && w.sntp.dns == 1
            && w.sntp.trace == [Started, Reset, Queried(0, server)]
  {
    var servers := PowerUp(o).servers[0 := Server(Some(server), IP_ADDR_ANY, 0)];
    BootStarts(o, server, env, servers);
    StartStep(o, PowerUp(o).(servers := servers), Init(true, env));
  }

  /** What the d-th reading of the register sees. */
  function Reading(o: Options, w: World, schedule: seq<seq<ThreadStep>>, d: nat): bv8
    requires w.sntp.Valid(o) && d < |schedule|
  {
    ThreadRun(o, w, Joined(schedule[..d + 1])).sntp.servers[0].reachability
  }

  /** The first readings were all zero. */
  predicate AllZero(o: Options, w: World, schedule: seq<seq<ThreadStep>>, readings: nat)
    requires w.sntp.Valid(o) && readings <= |schedule|
  {
    forall d: nat :: d < readings ==> Reading(o, w, schedule, d) == 0
  }

  /** A start after power-up, without a startup delay, whose query and request are answered before the first reading. */
  predicate PromptSuccess(o: Options, w: World, pcb: bool, env: Env, schedule: seq<seq<ThreadStep>>) {
    && w == Boot(o) && !o.startupDelay && pcb && env.dns == InProgress
    && |schedule| > 0 && AnswersAtOnce(schedule[0])
  }

  lemma PromptReading(o: Options, w: World, server: string, pcb: bool, env: Env, schedule: seq<seq<ThreadStep>>)
    requires w.sntp.Valid(o)
    ensures PromptSuccess(o, w, pcb, env, schedule) ==>
              Reading(o, StartObtaining(o, w, server, pcb, env), schedule, 0) != 0
  {
    if PromptSuccess(o, w, pcb, env, schedule) {
      FirstReadingSet(o, server, env, schedule[0]);
      FirstReading(o, StartObtaining(o, w, server, pcb, env), schedule);
    }
  }

  lemma FirstReading(o: Options, start: World, schedule: seq<seq<ThreadStep>>)
    requires start.sntp.Valid(o) && |schedule| > 0
    ensures Reading(o, start, schedule, 0) == ThreadRun(o, start, schedule[0]).sntp.servers[0].reachability
  {
    JoinedOne(schedule);
  }

  lemma JoinedOne(schedule: seq<seq<ThreadStep>>)
    requires |schedule| > 0
    ensures Joined(schedule[..1]) == schedule[0]
  {
    assert schedule[..1][..0] == [];
  }

  /** The poller is at its i-th reading, and those before were zero. */
  predicate PolledTo(o: Options, start: World, w: World, schedule: seq<seq<ThreadStep>>, i: nat)
    requires start.sntp.Valid(o) && i < |schedule|
  {
    w == ThreadRun(o, start, Joined(schedule[..i + 1])) && AllZero(o, start, schedule, i)
  }

  /**
   0 or -1, the former exactly if the last reading, after at most 15 delays, was not zero as all before it were, and the
   latter exactly if all 16 were.
   */
  predicate Outcome(o: Options, start: World, schedule: seq<seq<ThreadStep>>, code: int, delays: nat, reachable: bv8)
    requires start.sntp.Valid(o) && |schedule| == 17
  {
    && (code == 0 || code == -1)
    && delays <= 15
    && reachable == Reading(o, start, schedule, delays)
    && AllZero(o, start, schedule, delays)
    && (code == 0 <==> reachable != 0)
    && (code == -1 <==> AllZero(o, start, schedule, 16))
  }

  class TimeService {
    const o: Options
    var world: World

    constructor (o: Options)
      ensures this.o == o && world == Boot(o) && Consistent(o, world)
    {
      this.o := o;
      world := Boot(o);
      BootConsistent(o);
    }

    /** The stack's thread makes some steps. */
    method LetThreadRun(ts: seq<ThreadStep>)
      requires Consistent(o, world)
      modifies this
      ensures Consistent(o, world)
      ensures world == ThreadRun(o, old(world), ts)
    {
      for i := 0 to |ts|
        invariant Consistent(o, world)
        invariant world == ThreadRun(o, old(world), ts[..i])
      {
        assert ts[..i + 1][..i] == ts[..i];
        ThreadStepConsistent(o, world, ts[i]);
        world := ThreadRuns(o, world, ts[i]);
      }
      assert ts[..|ts|] == ts;
    }

    /** The calls before polling: poll mode, the server's name, the start of the client. */
    method Start(server: string, pcb: bool, env: Env)
      requires Consistent(o, world) && !world.sntp.open && world.hooked.None?
      modifies this
      ensures Consistent(o, world)
      ensures world == StartObtaining(o, old(world), server, pcb, env)
      ensures if pcb then Begun(old(world), world, server) else !world.sntp.open
    {
      StartBegins(o, world, server, pcb, env);
      LetThreadRun([Handle(SetMode(Poll)), Handle(SetServerName(0, Some(server))), Handle(Init(pcb, env))]);
    }

    /** One more delay and reading. */
    method ReadAfterDelay(ghost start: World, schedule: seq<seq<ThreadStep>>, i: nat) returns (reachable: bv8)
      requires Consistent(o, world) && start.sntp.Valid(o) && i + 1 < |schedule|
      requires PolledTo(o, start, world, schedule, i) && world.sntp.servers[0].reachability == 0
      modifies this
      ensures Consistent(o, world)
      ensures PolledTo(o, start, world, schedule, i + 1)
      ensures reachable == world.sntp.servers[0].reachability
    {
      LetThreadRun(schedule[i + 1]);
      RunJoined(o, start, schedule, i + 1);
      reachable := world.sntp.servers[0].reachability;
    }

    /**
     Reads the register until it is non-zero, with a delay after each reading that is not, and at most 15 of them:
     every reading before the last was zero.
     */
    method PollRegister(schedule: seq<seq<ThreadStep>>) returns (delays: nat, reachable: bv8)
      requires Consistent(o, world)
      requires |schedule| == IOTC_MTB_TIME_MAX_TRIES + 2
      modifies this
      ensures Consistent(o, world)
      ensures delays <= IOTC_MTB_TIME_MAX_TRIES
      ensures reachable == 0 ==> delays == IOTC_MTB_TIME_MAX_TRIES
      ensures reachable == world.sntp.servers[0].reachability
      ensures PolledTo(o, old(world), world, schedule, delays)
    {
      ghost var start := world;
      LetThreadRun(schedule[0]);
      assert Joined(schedule[..1]) == schedule[0];
      delays := 0;
      reachable := world.sntp.servers[0].reachability;
      while reachable == 0 && delays < IOTC_MTB_TIME_MAX_TRIES
        invariant delays <= IOTC_MTB_TIME_MAX_TRIES
        invariant Consistent(o, world)
        invariant PolledTo(o, start, world, schedule, delays)
        invariant reachable == world.sntp.servers[0].reachability
      {
        reachable := ReadAfterDelay(start, schedule, delays);
        delays := delays + 1;
      }
    }

    /**
     `iotc_mtb_time_obtain`. The schedule says what the thread does before the first reading, during each delay,
     and between the last reading and the final check. Whatever it is, a return of 0 means that an answer of server 0
     was accepted after its time was written to the clock; -1 means that all 16 readings were zero, so the failure
     "no callback" never occurs. If, after power-up, the query and the request are answered before the first reading, it
     returns 0 without a delay.
     */
    method Obtain(server: string, pcb: bool, env: Env, schedule: seq<seq<ThreadStep>>)
      returns (code: int, delays: nat, reachable: bv8)
      requires Consistent(o, world) && !world.sntp.open && world.hooked.None?
      requires |schedule| == 17
      modifies this
      ensures Consistent(o, world)
      ensures Outcome(o, StartObtaining(o, old(world), server, pcb, env), schedule, code, delays, reachable)
      ensures code == 0 ==> TimeObtained(world, 0) && world.callbackReceived
      ensures PromptSuccess(o, old(world), pcb, env, schedule) ==> code == 0 && delays == 0
      ensures world == ThreadRun(o, ThreadRun(o, StartObtaining(o, old(world), server, pcb, env),
                                              Joined(schedule[..delays + 1])), schedule[16])
    {
      PromptReading(o, world, server, pcb, env, schedule);
      Start(server, pcb, env);
      code, delays, reachable := PollAndCheck(schedule);
    }

    /** What follows the start of the client. */
    method PollAndCheck(schedule: seq<seq<ThreadStep>>) returns (code: int, delays: nat, reachable: bv8)
      requires Consistent(o, world)
      requires |schedule| == 17
      modifies this
      ensures Consistent(o, world)
      ensures Outcome(o, old(world), schedule, code, delays, reachable)
      ensures code == 0 ==> TimeObtained(world, 0) && world.callbackReceived
      ensures world == ThreadRun(o, ThreadRun(o, old(world), Joined(schedule[..delays + 1])), schedule[16])
    {
      delays, reachable := PollRegister(schedule);
      code := Check(reachable, schedule[16]);
    }

    method Check(reachable: bv8, meanwhile: seq<ThreadStep>) returns (code: int)
      requires Consistent(o, world) && reachable == world.sntp.servers[0].reachability
      modifies this
      ensures Consistent(o, world)
      ensures code == if reachable != 0 then 0 else -1
      ensures code == 0 ==> TimeObtained(world, 0) && world.callbackReceived
      ensures world == ThreadRun(o, old(world), meanwhile)
    {
      if reachable != 0 {
        NonZeroMeansObtained(o, world, 0);
        ObtainedLasts(o, world, meanwhile, 0);
      }
      LetThreadRun(meanwhile);
      if reachable == 0 {
        return -1;
      }
      if !world.callbackReceived {
        return -1;
      }
      return 0;
    }
  }

  function Joined(parts: seq<seq<ThreadStep>>): seq<ThreadStep> {
    if parts == [] then [] else Joined(parts[..|parts| - 1]) + parts[|parts| - 1]
  }

  lemma RunLast(o: Options, w: World, ts: seq<ThreadStep>, t: ThreadStep)
    requires w.sntp.Valid(o)
    ensures ThreadRun(o, w, ts + [t]) == ThreadRuns(o, ThreadRun(o, w, ts), t)
  {
    assert (ts + [t])[..|ts|] == ts;
  }

  lemma RunOneMore(o: Options, w: World, first: seq<ThreadStep>, front: seq<ThreadStep>, last: ThreadStep)
    requires w.sntp.Valid(o)
    requires ThreadRun(o, ThreadRun(o, w, first), front) == ThreadRun(o, w, first + front)
    ensures ThreadRun(o, ThreadRun(o, w, first), front + [last]) == ThreadRun(o, w, (first + front) + [last])
  {
    RunLast(o, w, first + front, last);
    RunLast(o, ThreadRun(o, w, first), front, last);
  }

  lemma {:induction false} RunAppended(o: Options, w: World, first: seq<ThreadStep>, second: seq<ThreadStep>)
    requires w.sntp.Valid(o)
    ensures ThreadRun(o, ThreadRun(o, w, first), second) == ThreadRun(o, w, first + second)
    decreases |second|
  {
    if second == [] {
      assert first + second == first;
    } else {
      var front, last := second[..|second| - 1], second[|second| - 1];
      RunAppended(o, w, first, front);
      RunOneMore(o, w, first, front, last);
      LastApart(first, second);
    }
  }

  lemma LastApart(first: seq<ThreadStep>, second: seq<ThreadStep>)
    requires second != []
    ensures var front, last := second[..|second| - 1], second[|second| - 1];
            front + [last] == second && (first + front) + [last] == first + second
  {
  }

  lemma RunJoined(o: Options, w: World, parts: seq<seq<ThreadStep>>, i: nat)
    requires w.sntp.Valid(o) && i < |parts|
    ensures ThreadRun(o, ThreadRun(o, w, Joined(parts[..i])), parts[i]) == ThreadRun(o, w, Joined(parts[..i + 1]))
  {
    RunAppended(o, w, Joined(parts[..i]), parts[i]);
    assert parts[..i + 1][..i] == parts[..i];
  }

  /** The thread only ever adds to the trace and to the writes. */
  lemma {:induction false} ObtainedLasts(o: Options, w: World, ts: seq<ThreadStep>, k: nat)
    requires Consistent(o, w) && TimeObtained(w, k) && w.callbackReceived
    ensures TimeObtained(ThreadRun(o, w, ts), k) && ThreadRun(o, w, ts).callbackReceived
  {
    if ts == [] {
    } else {
      var before := ThreadRun(o, w, ts[..|ts| - 1]);
      ObtainedLasts(o, w, ts[..|ts| - 1], k);
      ThreadRunConsistent(o, w, ts[..|ts| - 1]);
      StepExtends(o, before, ts[|ts| - 1]);
      var after := ThreadRun(o, w, ts);
      var j: nat :| j < |before.sntp.trace| && CreditedTo(before.sntp.trace[j], k)
                    && WrittenBefore(before.sntp.trace, before.clockWrites, j);
      assert after.sntp.trace[j] == before.sntp.trace[j] && after.sntp.trace[j - 1] == before.sntp.trace[j - 1];
      assert WrittenBefore(after.sntp.trace, after.clockWrites, j);
    }
  }

  lemma StepExtends(o: Options, w: World, t: ThreadStep)
    requires w.sntp.Valid(o)
    ensures var r := ThreadRuns(o, w, t);
            && w.sntp.trace <= r.sntp.trace
            && w.clockWrites <= r.clockWrites
            && (w.callbackReceived ==> r.callbackReceived)
  {
    match t
    case Handle(e) => StepExtendsTrace(o, w.sntp, e);
    case EnterHook(_) =>
    case LeaveHook =>
      if w.hooked.Some? {
        StepExtendsTrace(o, w.sntp, w.hooked.value);
      }
  }
}
