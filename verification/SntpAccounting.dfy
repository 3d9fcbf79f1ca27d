/** Pending work: the client never goes dead, never multiplies its work unnoticed, and can be stopped. */
module SntpAccounting {
  import opened SntpCounting
  import opened SntpModel
  import opened SntpPacket
  import opened SntpProcess
  import SntpServers
  import opened SntpStart
  import opened SntpTime
  import opened Wrappers

  // ----- What each event does to the pending work -----

  function AtLeast(low: nat, n: int): nat {
    if n < low then low else n
  }

  /** A fired timer, a finished query or a kiss is followed by exactly one new piece of work. */
  lemma HandlerAddsOne(o: Options, s: State, env: Env)
    requires s.Valid(o)
    ensures Request(o, s, env).Pending() == s.Pending() + 1
    ensures TryNext(o, s, env).Pending() == s.Pending() + 1
  {
    RequestAddsOne(o, s, env);
    match NextServer(s.servers, s.current)
    case None =>
    case Some(next) =>
      FirstConfiguredInRange(s.servers, s.current, 1);
      RequestAddsOne(o, s.(current := next).ResetTimeout(o), env);
  }

  lemma RequestAddsOne(o: Options, s: State, env: Env)
    requires s.Valid(o)
    ensures Request(o, s, env).Pending() == s.Pending() + 1
  {
  }

  lemma SendAddsOne(o: Options, s: State, dest: Addr, env: Env)
    requires s.Valid(o)
    ensures SendRequest(o, s, dest, env).Pending() == s.Pending() + 1
  {
  }

  /** Timer and DNS events preserve the total. */
  lemma CallbackPreservesPending(o: Options, s: State, e: Event)
    requires s.Valid(o)
    requires e.RequestTimer? || e.NextTimer? || e.DnsFound?
    ensures Step(o, s, e).Pending() == s.Pending()
  {
    if Enabled(s, e) {
      match e
      case RequestTimer(env) => HandlerAddsOne(o, s.CancelRequest(), env);
      case NextTimer(env) => HandlerAddsOne(o, s.CancelNext(), env);
      case DnsFound(answer, env) =>
        var asked := s.(dns := s.dns - 1);
        match answer
        case None => HandlerAddsOne(o, asked, env);
        case Some(addr) => SendAddsOne(o, asked.SetAddr(addr), addr, env);
    }
  }

  /** A kiss adds one; an accepted poll response sends (request, next) to (max(1, request), max(0, next - 1)). */
  lemma PacketPending(o: Options, s: State, e: Event)
    requires s.Valid(o) && e.Packet?
    ensures Kisses(s, e) ==> Step(o, s, e).Pending() == s.Pending() + 1
    ensures WillAccept(s, e) && s.mode == Poll ==>
              && |Step(o, s, e).requestDue| == AtLeast(1, |s.requestDue|)
              && |Step(o, s, e).nextDue| == AtLeast(0, |s.nextDue| - 1)
              && Step(o, s, e).dns == s.dns
    ensures !Kisses(s, e) && !(WillAccept(s, e) && s.mode == Poll) ==>
              Step(o, s, e).Pending() == s.Pending()
  {
    if Kisses(s, e) {
      HandlerAddsOne(o, s.Observe(Kissed), e.env);
    }
  }

  // ----- Never dead -----

  predicate Alive(s: State) {
    s.open && s.mode == Poll ==> s.Pending() >= 1
  }

  /** While it polls, the client always has a timer or a query that will call it back. */
  lemma {:induction false} NeverDead(o: Options, s: State, es: seq<Event>)
    requires s.Valid(o) && Alive(s)
    ensures Alive(Exec(o, s, es))
  {
    if es == [] {
    } else {
      var front := es[..|es| - 1];
      NeverDead(o, s, front);
      StepAlive(o, Exec(o, s, front), es[|es| - 1]);
    }
  }

  lemma StepAlive(o: Options, s: State, e: Event)
    requires s.Valid(o) && Alive(s)
    ensures Alive(Step(o, s, e))
  {
    match e
    case Init(pcb, env) => InitPending(o, s, pcb, env);
    case RequestTimer(_) => CallbackKeepsMode(o, s, e); CallbackPreservesPending(o, s, e);
    case NextTimer(_) => CallbackKeepsMode(o, s, e); CallbackPreservesPending(o, s, e);
    case DnsFound(_, _) => CallbackKeepsMode(o, s, e); CallbackPreservesPending(o, s, e);
    case Packet(_, _, _, _) => CallbackKeepsMode(o, s, e); PacketPending(o, s, e);
    case _ =>
  }

  /** Only starting, stopping and choosing a mode change whether and how the client runs. */
  lemma CallbackKeepsMode(o: Options, s: State, e: Event)
    requires s.Valid(o)
    requires !e.Init? && !e.Stop? && !e.SetMode?
    ensures Step(o, s, e).mode == s.mode && Step(o, s, e).open == s.open
  {
    if Enabled(s, e) {
      match e
      case RequestTimer(env) => HandlerKeepsMode(o, s.CancelRequest(), env);
      case NextTimer(env) => HandlerKeepsMode(o, s.CancelNext(), env);
      case DnsFound(_, env) => QueryStep(o, s, e); HandlerKeepsMode(o, s.(dns := s.dns - 1), env);
      case Packet(_, _, _, env) => PacketStep(o, s, e); HandlerKeepsMode(o, s.Observe(Kissed), env);
      case _ =>
    }
  }

  lemma HandlerKeepsMode(o: Options, s: State, env: Env)
    requires s.Valid(o)
    ensures Request(o, s, env).mode == TryNext(o, s, env).mode == s.mode
    ensures Request(o, s, env).open == TryNext(o, s, env).open == s.open
  {
    RequestKeepsMode(o, s, env);
    match NextServer(s.servers, s.current)
    case None =>
    case Some(next) =>
      FirstConfiguredInRange(s.servers, s.current, 1);
      RequestKeepsMode(o, s.(current := next).ResetTimeout(o), env);
  }

  lemma RequestKeepsMode(o: Options, s: State, env: Env)
    requires s.Valid(o)
    ensures Request(o, s, env).mode == s.mode && Request(o, s, env).open == s.open
  {
  }

  lemma InitPending(o: Options, s: State, pcb: bool, env: Env)
    requires s.Valid(o)
    ensures var r := InitStep(o, s, pcb, env);
            r.Pending() == if !s.open && pcb && s.mode == Poll then s.Pending() + 1 else s.Pending()
    ensures InitStep(o, s, pcb, env).mode == s.mode
    ensures InitStep(o, s, pcb, env).open <==> s.open || pcb
  {
    if !s.open && pcb && s.mode == Poll && !o.startupDelay {
      HandlerAddsOne(o, s.(open := true).Observe(Started).ResetTimeout(o), env);
      RequestKeepsMode(o, s.(open := true).Observe(Started).ResetTimeout(o), env);
    }
  }

  // ----- Bounded -----

  /** The observations that may come with additional work. */
  predicate AddsWork(obs: Obs) {
    obs == Started || obs == Kissed || (obs.Accepted? && obs.mode == Poll && obs.timerless)
  }

  function Work(trace: seq<Obs>): nat {
    Count(trace, AddsWork)
  }

  /** Pending work grows no faster than starts, kisses and responses accepted without a pending timer. */
  lemma StepWork(o: Options, s: State, e: Event)
    requires s.Valid(o)
    ensures Step(o, s, e).Pending() - Work(Step(o, s, e).trace) <= s.Pending() - Work(s.trace)
  {
    StepCounts(o, s, e, AddsWork);
    match e
    case Init(pcb, env) => InitPending(o, s, pcb, env);
    case RequestTimer(_) => CallbackPreservesPending(o, s, e);
    case NextTimer(_) => CallbackPreservesPending(o, s, e);
    case DnsFound(_, _) => CallbackPreservesPending(o, s, e);
    case Packet(_, _, _, _) => PacketPending(o, s, e);
    case _ =>
  }

  lemma {:induction false} PendingBound(o: Options, s: State, es: seq<Event>)
    requires s.Valid(o)
    ensures Exec(o, s, es).Pending() - Work(Exec(o, s, es).trace) <= s.Pending() - Work(s.trace)
  {
    if es == [] {
    } else {
      var front := es[..|es| - 1];
      PendingBound(o, s, front);
      StepWork(o, Exec(o, s, front), es[|es| - 1]);
    }
  }

  /** From power-up on, without a second start, a kiss or a timerless acceptance, one thing is pending. */
  lemma SingleOutstandingWork(o: Options, es: seq<Event>)
    ensures var s := Exec(o, PowerUp(o), es);
            s.Pending() <= Work(s.trace) && (s.open && s.mode == Poll && Work(s.trace) <= 1 ==> s.Pending() == 1)
  {
    PendingBound(o, PowerUp(o), es);
    NeverDead(o, PowerUp(o), es);
  }

  // ----- Stopping -----

  /** Stopping clears the registers; nothing stays pending exactly if at most one timer of each kind was. */
  lemma StopLeaves(o: Options, s: State)
    requires s.Valid(o) && s.open
    ensures var r := StopStep(o, s);
            && !r.open
            && (forall i :: 0 <= i < |r.servers| ==> r.servers[i].reachability == 0)
            && (r.Pending() == 0 <==> s.dns == 0 && |s.requestDue| <= 1 && |s.nextDue| <= 1)
  {
  }

  /** With nothing pending, a stopped client does nothing at all until it is started again. */
  lemma {:induction false} QuietWhileStopped(o: Options, s: State, es: seq<Event>)
    requires s.Valid(o) && !s.open && s.Pending() == 0
    requires forall i :: 0 <= i < |es| ==> !es[i].Init?
    ensures var r := Exec(o, s, es); r.trace == s.trace && !r.open && r.Pending() == 0
  {
    if es == [] {
    } else {
      QuietWhileStopped(o, s, es[..|es| - 1]);
      QuietStep(o, Exec(o, s, es[..|es| - 1]), es[|es| - 1]);
    }
  }

  lemma QuietStep(o: Options, s: State, e: Event)
    requires s.Valid(o) && !s.open && s.Pending() == 0 && !e.Init?
    ensures var r := Step(o, s, e); r.trace == s.trace && !r.open && r.Pending() == 0
  {
  }

  /** A stop with one piece of outstanding work, not a query, is clean: no request until the next start. */
  lemma CleanStop(o: Options, s: State, es: seq<Event>)
    requires s.Valid(o) && s.open && s.Pending() == 1 && s.dns == 0
    requires forall i :: 0 <= i < |es| ==> !es[i].Init?
    ensures var r := Exec(o, Step(o, s, Stop), es);
            && r.trace == s.trace + [Stopped]
            && r.Pending() == 0
  {
    StopLeaves(o, s);
    QuietWhileStopped(o, Step(o, s, Stop), es);
  }

  // ----- When a stop is not clean -----

  /** A kiss from the first server moves the client on; the first receive timeout stays beside the second. */
  lemma KissLeavesTwoTimers(o: Options, s: State, a: Addr, b: Addr, asked: Clock, ts: Timestamps, env: Env)
    requires Asked(o, s, a, b, asked) && b != IP_ADDR_ANY && env.haveBuffer
    ensures var r := Step(o, s, Packet(ReplyMessage(0, ts), a, SNTP_PORT, env));
            && r.Valid(o) && TableOf(r.servers, a, b) && r.open && r.current == 1
            && r.requestDue == [] && |r.nextDue| == 2 && r.dns == 0
  {
    SecondIsNext(s.servers, a, b);
  }

  lemma StopLeavesOneTimer(o: Options, s: State, a: Addr, b: Addr)
    requires s.Valid(o) && TableOf(s.servers, a, b) && s.open && s.current == 1
    requires s.requestDue == [] && |s.nextDue| == 2 && s.dns == 0
    ensures var r := Step(o, s, Stop);
            && r.Valid(o) && TableOf(r.servers, a, b) && !r.open && r.current == 1
            && r.requestDue == [] && |r.nextDue| == 1 && r.dns == 0
  {
    assert Step(o, s, Stop).servers == Cleared(s.servers);
  }

  /** A new request without a socket, with its timestamp remembered and its receive timeout pending. */
  predicate WorkedOn(o: Options, s: State, r: State, clock: Clock) {
    && !r.open && r.requestDue == [] && r.nextDue == [s.now + o.recvTimeout]
    && r.lastStamp == StampOf(clock)
    && |r.trace| == |s.trace| + 2
    && r.trace[|s.trace| + 1].Sent? && !r.trace[|s.trace| + 1].socket
  }

  lemma TimerWorksOn(o: Options, s: State, a: Addr, b: Addr, env: Env)
    requires s.Valid(o) && TableOf(s.servers, a, b) && !s.open && s.current == 1
    requires s.requestDue == [] && |s.nextDue| == 1 && s.dns == 0
    requires a != IP_ADDR_ANY && env.haveBuffer
    ensures WorkedOn(o, s, Step(o, s, NextTimer(env)), env.clock)
  {
    var next := OtherIsNext(s, a, b);
    var moved := s.CancelNext().(current := next).ResetTimeout(o);
    assert Step(o, s, NextTimer(env)) == Transmit(o, moved, s.servers[next].addr, env.clock);
    assert moved.nextDue == [];
  }

  lemma OtherIsNext(s: State, a: Addr, b: Addr) returns (next: nat)
    requires TableOf(s.servers, a, b) && s.current == 1 && a != IP_ADDR_ANY
    ensures NextServer(s.servers, s.current) == Some(next)
    ensures next < |s.servers| && s.servers[next].addr != IP_ADDR_ANY
  {
    SntpServers.NextServerMeaning(s.servers, s.current);
    assert s.servers[0].Configured();
    next := NextServer(s.servers, s.current).value;
  }

  /** A kiss from the first server, then a stop. */
  function KissedAndStopped(a: Addr, b: Addr, ts: Timestamps, env: Env): seq<Event> {
    FirstRequest(a, b, env) + [Packet(ReplyMessage(0, ts), a, SNTP_PORT, env)] + [Stop]
  }

  lemma OneTimerIsLeft(o: Options, a: Addr, b: Addr, ts: Timestamps, env: Env)
    requires a != IP_ADDR_ANY && b != IP_ADDR_ANY && env.haveBuffer
    ensures var r := Exec(o, PowerUp(o), KissedAndStopped(a, b, ts, env));
            && r.Valid(o) && TableOf(r.servers, a, b) && !r.open && r.current == 1
            && r.requestDue == [] && |r.nextDue| == 1 && r.dns == 0
  {
    var start := FirstRequest(a, b, env);
    var kiss := Packet(ReplyMessage(0, ts), a, SNTP_PORT, env);
    FirstRequestAsks(o, a, b, env);
    ExecLast(o, PowerUp(o), start, kiss);
    KissLeavesTwoTimers(o, Exec(o, PowerUp(o), start), a, b, env.clock, ts, env);
    ExecLast(o, PowerUp(o), start + [kiss], Stop);
    StopLeavesOneTimer(o, Exec(o, PowerUp(o), start + [kiss]), a, b);
  }

  /**
   Otherwise a stopped client works on. Here a kiss has left a second receive timeout, which a stop does not cancel:
   when it expires, the client tries another server, overwrites its timestamp, hands a request to the stack although
   its socket is gone, and sets up another timeout, and so on.
   */
  lemma StoppedClientWorksOn(o: Options, a: Addr, b: Addr, ts: Timestamps, env: Env, later: Env)
    requires a != IP_ADDR_ANY && b != IP_ADDR_ANY && env.haveBuffer && later.haveBuffer
    ensures var stopped := Exec(o, PowerUp(o), KissedAndStopped(a, b, ts, env));
            var r := Exec(o, PowerUp(o), KissedAndStopped(a, b, ts, env) + [NextTimer(later)]);
            !stopped.open && WorkedOn(o, stopped, r, later.clock)
  {
    var es := KissedAndStopped(a, b, ts, env);
    OneTimerIsLeft(o, a, b, ts, env);
    ExecLast(o, PowerUp(o), es, NextTimer(later));
    TimerWorksOn(o, Exec(o, PowerUp(o), es), a, b, later);
  }
}
