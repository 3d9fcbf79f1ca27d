/** How long a polling client can go without sending. */
module SntpPunctual {
  import SntpActions
  import opened SntpModel
  import opened SntpServers
  import opened SntpSpacing
  import opened Wrappers

  /** A pending timer fires when it is due: time does not pass beyond it. */
  predicate OnTime(s: State, e: Event) {
    && Timely(s, e)
    && (e.TimePasses? && s.requestDue != [] ==> s.now + e.ms <= s.requestDue[0])
    && (e.TimePasses? && s.nextDue != [] ==> s.now + e.ms <= s.nextDue[0])
  }

  /** A packet buffer is available. */
  predicate Supplied(e: Event) {
    match e
    case Init(_, env) => env.haveBuffer
    case RequestTimer(env) => env.haveBuffer
    case NextTimer(env) => env.haveBuffer
    case DnsFound(_, env) => env.haveBuffer
    case Packet(_, _, _, env) => env.haveBuffer
    case _ => true
  }

  /** While the client polls, its current server has an address. */
  predicate HasTarget(s: State)
    requires s.current < |s.servers|
  {
    s.open && s.mode == Poll ==> s.servers[s.current].addr != IP_ADDR_ANY
  }

  predicate PunctualRun(o: Options, s: State, es: seq<Event>)
    requires s.Valid(o)
    decreases |es|
  {
    es != [] ==>
      var front, last := es[..|es| - 1], es[|es| - 1];
      var before := Exec(o, s, front);
      PunctualRun(o, s, front) && OnTime(before, last) && NamesNone(last) && Supplied(last) && HasTarget(before)
  }

  lemma {:induction false} PunctualIsTimely(o: Options, s: State, es: seq<Event>)
    requires s.Valid(o) && PunctualRun(o, s, es)
    ensures TimelyRun(o, s, es)
  {
    if es == [] {
    } else {
      PunctualIsTimely(o, s, es[..|es| - 1]);
    }
  }

  /** When the client last sent a request or accepted a response, since it was last stopped. */
  function LatestActivity(trace: seq<Obs>): Option<int> {
    if trace == [] then None
    else
      match trace[|trace| - 1]
      case Sent(_, _, _, at, _, _) => Some(at)
      case Accepted(_, _, _, _, _, _, at) => Some(at)
      case Stopped => None
      case _ => LatestActivity(trace[..|trace| - 1])
  }

  lemma ActivityAppend(trace: seq<Obs>, obs: Obs)
    ensures LatestActivity(trace + [obs]) ==
            if obs.Sent? || obs.Accepted? then Some(obs.at) else if obs == Stopped then None else LatestActivity(trace)
    ensures LatestSend(trace + [obs]) ==
            if obs.Sent? then Some(obs.at) else if obs == Stopped then None else LatestSend(trace)
  {
    assert (trace + [obs])[..|trace|] == trace;
    LatestAppend(trace, obs);
  }

  function MaxSilence(o: Options): nat {
    if o.recvTimeout + o.retryTimeoutMax >= o.updateDelay then o.recvTimeout + o.retryTimeoutMax else o.updateDelay
  }

  predicate DueBy(due: seq<int>, now: int, limit: int) {
    due != [] ==> now <= due[0] <= limit
  }

  /** Once it has sent, a polling client's timer is not overdue, and due soon enough after the last activity. */
  predicate Punctual(o: Options, s: State) {
    && Paced(o, s)
    && s.retryTimeout <= o.retryTimeoutMax
    && (s.Pending() > 0 ==> s.open && s.mode == Poll)
    && (LatestSend(s.trace).Some? ==> LatestActivity(s.trace).Some?)
    && LeftBy(LatestActivity(s.trace), s.now)
    && (s.open && s.mode == Poll && LatestSend(s.trace).Some? ==>
          var latest := LatestActivity(s.trace).value;
          && DueBy(s.requestDue, s.now, latest + MaxSilence(o))
          && DueBy(s.nextDue, s.now, latest + o.recvTimeout))
  }

  lemma TransmitPunctual(o: Options, s: State, dest: Addr, env: Env)
    requires Ready(o, s) && s.mode == Poll && s.retryTimeout <= o.retryTimeoutMax
    ensures Punctual(o, Transmit(o, s, dest, env.clock))
  {
    ReadyTransmit(o, s, dest, env.clock);
    ActivityAppend(s.trace, Sending(s, dest, env.clock));
    assert Transmit(o, s, dest, env.clock).nextDue == [s.now + o.recvTimeout];
  }

  /** The retry after a receive timeout that was on time. */
  lemma RetryPunctual(o: Options, s: State)
    requires Ready(o, s) && s.mode == Poll && s.retryTimeout <= o.retryTimeoutMax
    requires LatestSend(s.trace).Some? ==>
               LatestActivity(s.trace).Some? && s.now <= LatestActivity(s.trace).value + o.recvTimeout
    requires LeftBy(LatestActivity(s.trace), s.now)
    ensures Paced(o, Retry(o, s)) ==> Punctual(o, Retry(o, s))
  {
    ActivityAppend(s.trace, Retried);
    assert Retry(o, s).requestDue == [s.now + s.retryTimeout];
  }

  lemma TryNextPunctual(o: Options, s: State, env: Env)
    requires Ready(o, s) && s.mode == Poll && s.retryTimeout <= o.retryTimeoutMax && env.haveBuffer
    requires LatestSend(s.trace).Some? ==>
               LatestActivity(s.trace).Some? && s.now <= LatestActivity(s.trace).value + o.recvTimeout
    requires LeftBy(LatestActivity(s.trace), s.now)
    ensures Punctual(o, TryNext(o, s, env))
  {
    NextServerMeaning(s.servers, s.current);
    ReadyTryNext(o, s, env);
    match NextServer(s.servers, s.current)
    case Some(next) =>
      var moved := s.(current := next).ResetTimeout(o);
      OrderlyAppend(o, s.trace, Reset);
      assert s.servers[next].Configured();
      TransmitPunctual(o, moved, s.servers[next].addr, env);
    case None => RetryPunctual(o, s);
  }

  lemma InitPunctual(o: Options, s: State, e: Event)
    requires Punctual(o, s) && e.Init? && e.env.haveBuffer && !s.open
    ensures Punctual(o, Step(o, s, e))
  {
    InitPaced(o, s, e.pcb, e.env);
    if e.pcb && s.mode == Poll {
      StartPunctual(o, s, e.env);
    }
  }

  lemma StartPunctual(o: Options, s: State, env: Env)
    requires Punctual(o, s) && !s.open && s.mode == Poll && env.haveBuffer
    ensures Punctual(o, InitStep(o, s, true, env))
  {
    var started := s.(open := true).Observe(Started).ResetTimeout(o);
    InitPaced(o, s, true, env);
    OrderlyAppend(o, s.trace, Started);
    OrderlyAppend(o, s.trace + [Started], Reset);
    ActivityAppend(s.trace, Started);
    ActivityAppend(s.trace + [Started], Reset);
    if !o.startupDelay {
      FirstPunctual(o, started, env);
    }
  }

  lemma FirstPunctual(o: Options, s: State, env: Env)
    requires Ready(o, s) && s.mode == Poll && s.retryTimeout <= o.retryTimeoutMax && env.haveBuffer
    requires LatestSend(s.trace).None? && LeftBy(LatestActivity(s.trace), s.now)
    ensures Punctual(o, Request(o, s, env))
  {
    ReadyRequest(o, s, env);
    if s.servers[s.current].addr != IP_ADDR_ANY {
      TransmitPunctual(o, s, s.servers[s.current].addr, env);
    }
  }

  lemma CreditPunctual(o: Options, s: State, e: Event)
    requires Punctual(o, s) && WillAccept(s, e)
    ensures Punctual(o, Credit(s, e.data, e.from, e.env))
    ensures LatestActivity(Credit(s, e.data, e.from, e.env).trace) == Some(s.now)
  {
    var hook, credit := HookCall(e.data, e.env.clock), Crediting(s, e.data, e.from, e.env.clock);
    PacedCredit(o, s, e.data, e.from, e.env);
    HookCreditActivity(s.trace, hook, credit);
    CreditTimers(s, e);
  }

  lemma HookCreditActivity(trace: seq<Obs>, hook: Obs, credit: Obs)
    requires hook.ClockSet? && credit.Accepted?
    ensures LatestActivity(trace + [hook] + [credit]) == Some(credit.at)
    ensures LatestSend(trace + [hook] + [credit]) == LatestSend(trace)
  {
    ActivityAppend(trace, hook);
    ActivityAppend(trace + [hook], credit);
  }

  lemma CreditTimers(s: State, e: Event)
    requires s.current < |s.servers| && WillAccept(s, e)
    ensures var r := Credit(s, e.data, e.from, e.env);
            && r.trace == s.trace + [HookCall(e.data, e.env.clock)] + [Crediting(s, e.data, e.from, e.env.clock)]
            && r.requestDue == s.requestDue && r.nextDue == s.nextDue && r.dns == s.dns && r.now == s.now
            && r.open == s.open && r.mode == s.mode && r.retryTimeout == s.retryTimeout
  {
  }

  lemma ReschedulePunctual(o: Options, s: State)
    requires Punctual(o, s) && s.open && s.mode == Poll && LatestActivity(s.trace) == Some(s.now)
    ensures Punctual(o, Reschedule(o, s))
  {
    PacedReschedule(o, s);
    ActivityAppend(s.trace, Reset);
    assert Reschedule(o, s).requestDue == [s.now + o.updateDelay];
  }

  lemma AcceptPunctual(o: Options, s: State, e: Event)
    requires Punctual(o, s) && WillAccept(s, e)
    ensures Punctual(o, Step(o, s, e))
  {
    PacketStep(o, s, e);
    CreditPunctual(o, s, e);
    if s.mode == Poll {
      ReschedulePunctual(o, Credit(s, e.data, e.from, e.env));
    }
  }

  lemma StepPunctual(o: Options, s: State, e: Event)
    requires Punctual(o, s) && OnTime(s, e) && NamesNone(e) && Supplied(e) && HasTarget(s)
    requires Kissed !in Step(o, s, e).trace
    ensures Punctual(o, Step(o, s, e))
  {
    if Enabled(s, e) {
      match e
      case Init(_, _) =>
        if !s.open {
          InitPunctual(o, s, e);
        }
      case Stop => StopPunctual(o, s);
      case RequestTimer(_) => RequestTimerPunctual(o, s, e);
      case NextTimer(_) => NextTimerPunctual(o, s, e);
      case Packet(_, _, _, _) => PacketPunctual(o, s, e);
      case SetServer(_, _) => SettingPaced(o, s, e);
      case SetServerName(_, _) => SettingPaced(o, s, e);
      case _ =>
    }
  }

  lemma RequestTimerPunctual(o: Options, s: State, e: Event)
    requires Punctual(o, s) && e.RequestTimer? && Enabled(s, e) && Timely(s, e) && e.env.haveBuffer && HasTarget(s)
    ensures Punctual(o, Step(o, s, e))
  {
    TransmitPunctual(o, s.CancelRequest(), s.servers[s.current].addr, e.env);
  }

  lemma NextTimerPunctual(o: Options, s: State, e: Event)
    requires Punctual(o, s) && e.NextTimer? && Enabled(s, e) && Timely(s, e) && e.env.haveBuffer
    ensures Punctual(o, Step(o, s, e))
  {
    TryNextPunctual(o, s.CancelNext(), e.env);
  }

  lemma StopPunctual(o: Options, s: State)
    requires Punctual(o, s)
    ensures Punctual(o, StopStep(o, s))
  {
    StopPaced(o, s);
    ActivityAppend(s.trace, Stopped);
  }

  lemma PacketPunctual(o: Options, s: State, e: Event)
    requires Punctual(o, s) && e.Packet? && Enabled(s, e)
    requires Kissed !in Step(o, s, e).trace
    ensures Punctual(o, Step(o, s, e))
  {
    PacketStep(o, s, e);
    if WillAccept(s, e) {
      AcceptPunctual(o, s, e);
    } else if Kisses(s, e) {
      KissIsSeen(o, s, e.env);
    }
  }

  lemma {:induction false} RunPunctual(o: Options, es: seq<Event>)
    requires PunctualRun(o, PowerUp(o), es)
    requires Kissed !in Exec(o, PowerUp(o), es).trace
    ensures Punctual(o, Exec(o, PowerUp(o), es))
  {
    if es == [] {
    } else {
      var before := Exec(o, PowerUp(o), es[..|es| - 1]);
      SntpActions.StepExtendsTrace(o, before, es[|es| - 1]);
      RunPunctual(o, es[..|es| - 1]);
      StepPunctual(o, before, es[|es| - 1]);
    }
  }

  /**
   With servers given by address, buffers, timers on time and no kiss: after its first request a polling client is never
   silent for longer than SNTP_UPDATE_DELAY, or SNTP_RECV_TIMEOUT + SNTP_RETRY_TIMEOUT_MAX if that is more, since it
   last sent or accepted a response.
   */
  lemma SilenceBound(o: Options, es: seq<Event>)
    requires PunctualRun(o, PowerUp(o), es)
    requires Kissed !in Exec(o, PowerUp(o), es).trace
    ensures var s := Exec(o, PowerUp(o), es);
            s.open && s.mode == Poll && LatestSend(s.trace).Some? ==>
              LatestActivity(s.trace).Some? && s.now <= LatestActivity(s.trace).value + MaxSilence(o)
  {
    RunPunctual(o, es);
  }

  // ----- Repeated answers -----

  lemma SameVerdict(s: State, r: State, e: Event)
    requires WillAccept(s, e)
    requires r.open == s.open && r.mode == s.mode && r.lastAddr == s.lastAddr && r.lastStamp == s.lastStamp
    ensures WillAccept(r, e)
  {
  }

  /** An answer has been accepted and scheduled the next request. */
  predicate Rescheduled(o: Options, s: State) {
    s.Valid(o) && s.mode == Poll && s.dns == 0 && s.requestDue == [s.now + o.updateDelay] && s.nextDue == []
  }

  /** Some time later nothing more has been sent, and the same packets would be accepted. */
  predicate Postponed(o: Options, s: State, r: State, elapsed: nat) {
    && Rescheduled(o, r)
    && r.open == s.open && r.mode == s.mode && r.lastAddr == s.lastAddr && r.lastStamp == s.lastStamp
    && r.now == s.now + elapsed && SendTimes(r.trace) == SendTimes(s.trace)
  }

  /** An accepted answer postpones the next request, and would be accepted again. */
  lemma AnswerRepeats(o: Options, s: State, e: Event)
    requires s.Valid(o) && WillAccept(s, e) && s.mode == Poll && s.dns == 0 && |s.requestDue| + |s.nextDue| <= 1
    ensures Postponed(o, s, Step(o, s, e), 0) && WillAccept(Step(o, s, e), e)
  {
    PacketSentNow(o, s, e);
    AnswerReschedules(o, s, e);
    SameVerdict(s, Step(o, s, e), e);
  }

  lemma AnswerReschedules(o: Options, s: State, e: Event)
    requires s.Valid(o) && WillAccept(s, e) && s.mode == Poll && s.dns == 0 && |s.requestDue| + |s.nextDue| <= 1
    ensures var r := Step(o, s, e);
            && Rescheduled(o, r) && r.now == s.now
            && r.open == s.open && r.mode == s.mode && r.lastAddr == s.lastAddr && r.lastStamp == s.lastStamp
  {
    PacketStep(o, s, e);
    var credited := Credit(s, e.data, e.from, e.env);
    assert Reschedule(o, credited).requestDue == [s.now + o.updateDelay];
  }

  /** The same answer arrives again and again, each time before the next request is due. */
  function Repeated(o: Options, e: Event, n: nat): seq<Event> {
    if n == 0 then [e] else Repeated(o, e, n - 1) + [TimePasses(o.updateDelay - 1), e]
  }

  function Elapsed(o: Options, n: nat): nat {
    if n == 0 then 0 else Elapsed(o, n - 1) + (o.updateDelay - 1)
  }

  /**
   The response counts in that bound: copies of one answer, each accepted, keep the client from sending for as long as
   they arrive.
   */
  lemma {:induction false} SilenceUnbounded(o: Options, s: State, e: Event, n: nat)
    requires s.Valid(o) && WillAccept(s, e) && s.mode == Poll && s.dns == 0 && |s.requestDue| + |s.nextDue| <= 1
    ensures Postponed(o, s, Exec(o, s, Repeated(o, e, n)), Elapsed(o, n))
  {
    if n == 0 {
      ExecOne(o, s, e);
      AnswerRepeats(o, s, e);
    } else {
      SilenceUnbounded(o, s, e, n - 1);
      var r := AfterCopies(o, s, e, n);
      SameVerdict(s, r, e);
      RepeatOnce(o, s, r, e, Elapsed(o, n - 1));
    }
  }

  lemma AfterCopies(o: Options, s: State, e: Event, n: nat) returns (r: State)
    requires s.Valid(o) && n > 0
    ensures r == Exec(o, s, Repeated(o, e, n - 1))
    ensures Exec(o, s, Repeated(o, e, n)) == Exec(o, r, [TimePasses(o.updateDelay - 1), e])
  {
    r := Exec(o, s, Repeated(o, e, n - 1));
    ExecAppend(o, s, Repeated(o, e, n - 1), [TimePasses(o.updateDelay - 1), e]);
  }

  lemma RepeatOnce(o: Options, s: State, r: State, e: Event, elapsed: nat)
    requires Postponed(o, s, r, elapsed) && WillAccept(r, e)
    ensures Postponed(o, s, Exec(o, r, [TimePasses(o.updateDelay - 1), e]), elapsed + (o.updateDelay - 1))
  {
    var later := r.(now := r.now + (o.updateDelay - 1));
    var again := CopyRuns(o, r, later, e);
    SameVerdict(r, later, e);
    AnswerRepeats(o, later, e);
    PostponedAgain(o, s, r, later, again, elapsed);
  }

  lemma CopyRuns(o: Options, r: State, later: State, e: Event) returns (again: State)
    requires r.Valid(o) && later == r.(now := r.now + (o.updateDelay - 1))
    ensures again == Step(o, later, e) == Exec(o, r, [TimePasses(o.updateDelay - 1), e])
  {
    assert Step(o, r, TimePasses(o.updateDelay - 1)) == later;
    ExecTwo(o, r, TimePasses(o.updateDelay - 1), e);
    again := Step(o, later, e);
  }

  lemma PostponedAgain(o: Options, s: State, r: State, later: State, again: State, elapsed: nat)
    requires Postponed(o, s, r, elapsed) && later == r.(now := r.now + (o.updateDelay - 1))
    requires Postponed(o, later, again, 0)
    ensures Postponed(o, s, again, elapsed + (o.updateDelay - 1))
  {
  }

  /** It grows by almost SNTP_UPDATE_DELAY with every copy, past any bound. */
  lemma {:induction false} ElapsedGrows(o: Options, n: nat)
    ensures Elapsed(o, n) >= n
  {
    if n == 0 {
    } else {
      ElapsedGrows(o, n - 1);
    }
  }
}
