/** How far apart requests are sent. */
module SntpSpacing {
  import opened CInt
  import opened SntpBackoff
  import opened SntpCredit
  import opened SntpModel
  import opened SntpPacket
  import opened SntpServers
  import opened SntpStart
  import opened SntpTime
  import opened Wrappers

  /** A timer fires when it is due, or later; never before. */
  predicate Timely(s: State, e: Event) {
    match e
    case RequestTimer(_) => s.requestDue != [] ==> s.requestDue[0] <= s.now
    case NextTimer(_) => s.nextDue != [] ==> s.nextDue[0] <= s.now
    case _ => true
  }

  /** The events of runs with servers given by address. */
  predicate NamesNone(e: Event) {
    e.SetServerName? ==> e.name.None?
  }

  predicate TimelyRun(o: Options, s: State, es: seq<Event>)
    requires s.Valid(o)
    decreases |es|
  {
    es != [] ==>
      var front := es[..|es| - 1];
      TimelyRun(o, s, front) && Timely(Exec(o, s, front), es[|es| - 1]) && NamesNone(es[|es| - 1])
  }

  function Gap(o: Options): int {
    Min(o.recvTimeout, Min(o.retryTimeout, o.updateDelay))
  }

  /** The client was not stopped between two places of a trace. */
  predicate SameSession(trace: seq<Obs>, i: nat, j: nat)
    requires i <= j <= |trace|
  {
    forall k :: i <= k < j ==> trace[k] != Stopped
  }

  /** Any two requests with no stop between them are at least the gap apart. */
  predicate Apart(o: Options, trace: seq<Obs>) {
    forall i: nat, j: nat :: i < j < |trace| && trace[i].Sent? && trace[j].Sent? && SameSession(trace, i, j) ==>
      trace[i].at + Gap(o) <= trace[j].at
  }

  /** When the last request left that no stop has followed. */
  function LatestSend(trace: seq<Obs>): Option<int> {
    if trace == [] then None
    else
      match trace[|trace| - 1]
      case Sent(_, _, _, at, _, _) => Some(at)
      case Stopped => None
      case _ => LatestSend(trace[..|trace| - 1])
  }

  lemma LatestAppend(trace: seq<Obs>, obs: Obs)
    ensures LatestSend(trace + [obs]) ==
            if obs.Sent? then Some(obs.at) else if obs == Stopped then None else LatestSend(trace)
  {
    assert (trace + [obs])[..|trace|] == trace;
  }

  /** No request of this session left after the latest one. */
  predicate LatestIsLast(trace: seq<Obs>) {
    forall i: nat :: i < |trace| && trace[i].Sent? && SameSession(trace, i, |trace|) ==>
      LatestSend(trace).Some? && trace[i].at <= LatestSend(trace).value
  }

  predicate LeftBy(latest: Option<int>, moment: int) {
    latest.Some? ==> latest.value <= moment
  }

  lemma SessionAppend(trace: seq<Obs>, obs: Obs, i: nat, j: nat)
    requires i <= j <= |trace|
    ensures SameSession(trace + [obs], i, j) <==> SameSession(trace, i, j)
    ensures SameSession(trace + [obs], i, |trace| + 1) <==> SameSession(trace, i, |trace|) && obs != Stopped
  {
    var longer := trace + [obs];
    assert longer[|trace|] == obs;
    assert forall k :: 0 <= k < |trace| ==> longer[k] == trace[k];
  }

  lemma ApartAppend(o: Options, trace: seq<Obs>, obs: Obs)
    requires Apart(o, trace) && LatestIsLast(trace)
    requires obs.Sent? ==> LeftBy(LatestSend(trace), obs.at - Gap(o))
    ensures Apart(o, trace + [obs])
  {
    var longer := trace + [obs];
    forall i: nat, j: nat | i < j < |longer| && longer[i].Sent? && longer[j].Sent? && SameSession(longer, i, j)
      ensures longer[i].at + Gap(o) <= longer[j].at
    {
      SessionAppend(trace, obs, i, j);
      assert longer[i] == trace[i];
    }
  }

  lemma LatestIsLastAppend(trace: seq<Obs>, obs: Obs)
    requires LatestIsLast(trace)
    requires obs.Sent? ==> LeftBy(LatestSend(trace), obs.at)
    ensures LatestIsLast(trace + [obs])
  {
    var longer := trace + [obs];
    LatestAppend(trace, obs);
    forall i: nat | i < |longer| && longer[i].Sent? && SameSession(longer, i, |longer|)
      ensures LatestSend(longer).Some? && longer[i].at <= LatestSend(longer).value
    {
      if i < |trace| {
        SessionAppend(trace, obs, i, |trace|);
        assert longer[i] == trace[i];
      }
    }
  }

  predicate Orderly(o: Options, trace: seq<Obs>) {
    Apart(o, trace) && LatestIsLast(trace)
  }

  lemma OrderlyAppend(o: Options, trace: seq<Obs>, obs: Obs)
    requires Orderly(o, trace)
    requires obs.Sent? ==> LeftBy(LatestSend(trace), obs.at - Gap(o))
    ensures Orderly(o, trace + [obs])
    ensures LatestSend(trace + [obs]) ==
            if obs.Sent? then Some(obs.at) else if obs == Stopped then None else LatestSend(trace)
  {
    ApartAppend(o, trace, obs);
    LatestIsLastAppend(trace, obs);
    LatestAppend(trace, obs);
  }

  /** At most one thing is pending, a timer no earlier than the gap after the last request of this session. */
  predicate Paced(o: Options, s: State) {
    var latest := LatestSend(s.trace);
    && s.Valid(o)
    && AddressOnly(s.servers)
    && s.dns == 0
    && |s.requestDue| + |s.nextDue| <= 1
    && (!s.open ==> s.Pending() == 0)
    && (s.Pending() == 0 ==> !(s.open && s.mode == Poll) && latest.None?)
    && (s.requestDue != [] ==> LeftBy(latest, s.requestDue[0] - Gap(o)))
    && (s.nextDue != [] ==> LeftBy(latest, s.nextDue[0] - Gap(o)))
    && LeftBy(latest, s.now)
    && Orderly(o, s.trace)
  }

  /** A moment at which the client may send: nothing is pending and the last request is far enough in the past. */
  predicate Ready(o: Options, s: State) {
    && s.Valid(o)
    && AddressOnly(s.servers)
    && s.open
    && s.Pending() == 0
    && LeftBy(LatestSend(s.trace), s.now - Gap(o))
    && Orderly(o, s.trace)
  }

  lemma ReadyRequest(o: Options, s: State, env: Env)
    requires Ready(o, s)
    ensures Paced(o, Request(o, s, env))
  {
    var addr := s.servers[s.current].addr;
    if addr != IP_ADDR_ANY && env.haveBuffer {
      ReadyTransmit(o, s, addr, env.clock);
    }
  }

  lemma ReadyTransmit(o: Options, s: State, dest: Addr, clock: Clock)
    requires Ready(o, s)
    ensures Paced(o, Transmit(o, s, dest, clock))
  {
    OrderlyAppend(o, s.trace, Sending(s, dest, clock));
    assert Transmit(o, s, dest, clock).nextDue == [s.now + o.recvTimeout];
  }

  lemma ReadyTryNext(o: Options, s: State, env: Env)
    requires Ready(o, s)
    ensures Paced(o, TryNext(o, s, env))
  {
    OrderlyAppend(o, s.trace, Reset);
    OrderlyAppend(o, s.trace, Retried);
    match NextServer(s.servers, s.current)
    case Some(next) =>
      FirstConfiguredInRange(s.servers, s.current, 1);
      ReadyRequest(o, s.(current := next).ResetTimeout(o), env);
    case None =>
      assert Retry(o, s).requestDue == [s.now + s.retryTimeout];
  }

  lemma PacedCredit(o: Options, s: State, data: seq<Byte>, from: Addr, env: Env)
    requires Paced(o, s) && s.open && |data| == SNTP_MSG_LEN
    ensures Paced(o, Credit(s, data, from, env))
  {
    var hook, credit := HookCall(data, env.clock), Crediting(s, data, from, env.clock);
    HookThenCredit(o, s.trace, hook, credit);
    assert Credit(s, data, from, env).trace == s.trace + [hook] + [credit];
  }

  lemma HookThenCredit(o: Options, trace: seq<Obs>, hook: Obs, credit: Obs)
    requires Orderly(o, trace) && hook.ClockSet? && credit.Accepted?
    ensures Orderly(o, trace + [hook] + [credit]) && LatestSend(trace + [hook] + [credit]) == LatestSend(trace)
  {
    OrderlyAppend(o, trace, hook);
    OrderlyAppend(o, trace + [hook], credit);
  }

  lemma PacedReschedule(o: Options, s: State)
    requires Paced(o, s) && s.open && s.mode == Poll
    ensures Paced(o, Reschedule(o, s))
  {
    OrderlyAppend(o, s.trace, Reset);
    assert Reschedule(o, s).requestDue == [s.now + o.updateDelay];
  }

  /** A stop leaves nothing pending and ends the session. */
  lemma StopPaced(o: Options, s: State)
    requires Paced(o, s)
    ensures Paced(o, StopStep(o, s))
  {
    OrderlyAppend(o, s.trace, Stopped);
  }

  lemma StepPaced(o: Options, s: State, e: Event)
    requires Paced(o, s) && Timely(s, e) && NamesNone(e)
    requires Kissed !in Step(o, s, e).trace
    ensures Paced(o, Step(o, s, e))
  {
    if Enabled(s, e) {
      match e
      case Init(pcb, env) => InitPaced(o, s, pcb, env);
      case Stop => StopPaced(o, s);
      case RequestTimer(env) => ReadyRequest(o, s.CancelRequest(), env);
      case NextTimer(env) => ReadyTryNext(o, s.CancelNext(), env);
      case Packet(data, from, port, env) => PacketPaced(o, s, data, from, port, env);
      case SetServer(_, _) => SettingPaced(o, s, e);
      case SetServerName(_, _) => SettingPaced(o, s, e);
      case _ =>
    }
  }

  lemma SettingPaced(o: Options, s: State, e: Event)
    requires Paced(o, s) && SetsTable(e) && NamesNone(e)
    ensures Paced(o, Step(o, s, e))
  {
    assert AddressOnly(Step(o, s, e).servers);
  }

  lemma InitPaced(o: Options, s: State, pcb: bool, env: Env)
    requires Paced(o, s)
    ensures Paced(o, InitStep(o, s, pcb, env))
  {
    if !s.open && pcb && s.mode == Poll {
      var started := s.(open := true).Observe(Started).ResetTimeout(o);
      StartedReady(o, s);
      if o.startupDelay {
        DelayPaced(o, started, env.startupDelay);
      } else {
        ReadyRequest(o, started, env);
      }
    }
  }

  lemma StartedReady(o: Options, s: State)
    requires Paced(o, s) && !s.open
    ensures var started := s.(open := true).Observe(Started).ResetTimeout(o);
            Ready(o, started) && LatestSend(started.trace).None?
  {
    OrderlyAppend(o, s.trace, Started);
    OrderlyAppend(o, s.trace + [Started], Reset);
  }

  lemma DelayPaced(o: Options, s: State, delay: nat)
    requires Ready(o, s) && LatestSend(s.trace).None?
    ensures Paced(o, s.ArmRequest(delay))
  {
    assert s.ArmRequest(delay).requestDue == [s.now + delay];
  }

  lemma PacketPaced(o: Options, s: State, data: seq<Byte>, from: Addr, port: nat, env: Env)
    requires Paced(o, s) && s.open
    requires Kissed !in Receive(o, s, data, from, port, env).trace
    ensures Paced(o, Receive(o, s, data, from, port, env))
  {
    match Classify(s, data, from, port)
    case Correct =>
      PacedCredit(o, s, data, from, env);
      if s.mode == Poll {
        PacedReschedule(o, Credit(s, data, from, env));
      }
    case Ignored =>
    case KissOfDeath =>
      if s.mode == Poll {
        KissIsSeen(o, s, env);
      }
  }

  lemma KissIsSeen(o: Options, s: State, env: Env)
    requires s.Valid(o)
    ensures Kissed in TryNext(o, s.Observe(Kissed), env).trace
  {
    var kissed := s.Observe(Kissed);
    var actions := SntpActions.TryNextPath(o, kissed, env);
    SntpActions.PathExtendsTrace(o, SntpActions.ViewOf(kissed), actions, SntpActions.ViewOf(TryNext(o, kissed, env)));
    assert TryNext(o, kissed, env).trace[|s.trace|] == Kissed;
  }

  /**
   With servers given by address and without kisses, however often the client is stopped and started, exactly one
   timer is pending while it polls and none while it is stopped; and any two requests with no stop between them are at
   least min(SNTP_RECV_TIMEOUT, SNTP_RETRY_TIMEOUT, SNTP_UPDATE_DELAY) apart.
   */
  lemma {:induction false} SendSpacing(o: Options, es: seq<Event>)
    requires TimelyRun(o, PowerUp(o), es)
    requires Kissed !in Exec(o, PowerUp(o), es).trace
    ensures var s := Exec(o, PowerUp(o), es);
            && Paced(o, s)
            && Apart(o, s.trace)
            && (s.open && s.mode == Poll ==> |s.requestDue| + |s.nextDue| == 1 && s.dns == 0)
            && (!s.open ==> s.Pending() == 0)
  {
    if es == [] {
    } else {
      var before := Exec(o, PowerUp(o), es[..|es| - 1]);
      SntpActions.StepExtendsTrace(o, before, es[|es| - 1]);
      SendSpacing(o, es[..|es| - 1]);
      StepPaced(o, before, es[|es| - 1]);
    }
  }

  // ----- One server that does not answer -----

  /** When the requests went out, in order. */
  function SendTimes(trace: seq<Obs>): seq<int> {
    if trace == [] then []
    else
      var front := SendTimes(trace[..|trace| - 1]);
      if trace[|trace| - 1].Sent? then front + [trace[|trace| - 1].at] else front
  }

  lemma SendTimesAppend(trace: seq<Obs>, obs: Obs)
    ensures SendTimes(trace + [obs]) == if obs.Sent? then SendTimes(trace) + [obs.at] else SendTimes(trace)
  {
    assert (trace + [obs])[..|trace|] == trace;
  }

  /** The client polls the only configured server of its table. */
  predicate Solo(o: Options, s: State) {
    && s.Valid(o)
    && s.open && s.mode == Poll && s.dns == 0
    && AddressOnly(s.servers)
    && forall i :: 0 <= i < |s.servers| ==> (s.servers[i].Configured() <==> i == s.current)
  }

  /** Time passes, timers fire, and no response is accepted, no kiss received and no allocation fails. */
  predicate Unanswered(s: State, e: Event) {
    match e
    case TimePasses(_) => true
    case RequestTimer(env) => env.haveBuffer
    case NextTimer(_) => true
    case Packet(data, from, port, _) => Classify(s, data, from, port) == Ignored
    case _ => false
  }

  predicate Prompt(s: State, e: Event) {
    match e
    case RequestTimer(_) => s.requestDue != [] ==> s.requestDue[0] == s.now
    case NextTimer(_) => s.nextDue != [] ==> s.nextDue[0] == s.now
    case _ => true
  }

  predicate UnansweredRun(o: Options, s: State, es: seq<Event>, prompt: bool)
    requires s.Valid(o)
    decreases |es|
  {
    es != [] ==>
      var front, last := es[..|es| - 1], es[|es| - 1];
      var before := Exec(o, s, front);
      UnansweredRun(o, s, front, prompt) && Unanswered(before, last) && Timely(before, last)
      && (prompt ==> Prompt(before, last))
  }

  predicate Reaches(value: int, low: int, exactly: bool) {
    if exactly then value == low else value >= low
  }

  /** The time between the i-th request after the first-th and the one before it. */
  predicate GapsGrow(o: Options, times: seq<int>, first: nat, n: nat, prompt: bool) {
    forall i :: first <= i < |times| - 1 ==>
      Reaches(times[i + 1], times[i] + o.recvTimeout + BackoffValue(o, n + (i - first)), prompt)
  }

  /** Waiting for an answer, or for the retry after a receive timeout. */
  predicate Waiting(o: Options, s: State, first: nat, n: nat, prompt: bool) {
    var times := SendTimes(s.trace);
    && first < |times|
    && var k, last := n + |times| - 1 - first, times[|times| - 1];
    if s.requestDue == [] then
      s.nextDue == [last + o.recvTimeout] && s.retryTimeout == BackoffValue(o, k)
    else
      && s.nextDue == [] && |s.requestDue| == 1
      && Reaches(s.requestDue[0], last + o.recvTimeout + BackoffValue(o, k), prompt)
      && s.retryTimeout == BackoffValue(o, k + 1)
  }

  lemma SoloHasNoNext(o: Options, s: State)
    requires Solo(o, s)
    ensures NextServer(s.servers, s.current) == None
  {
    NextServerMeaning(s.servers, s.current);
  }

  lemma TimeoutWaits(o: Options, s: State, env: Env, first: nat, n: nat, prompt: bool)
    requires Solo(o, s) && Waiting(o, s, first, n, prompt) && s.nextDue != []
    requires Timely(s, NextTimer(env)) && (prompt ==> Prompt(s, NextTimer(env)))
    ensures var r := Step(o, s, NextTimer(env));
            Solo(o, r) && Waiting(o, r, first, n, prompt) && SendTimes(r.trace) == SendTimes(s.trace)
  {
    SoloHasNoNext(o, s);
    SendTimesAppend(s.trace, Retried);
    DoublingStep(o, n + |SendTimes(s.trace)| - 1 - first);
    assert Step(o, s, NextTimer(env)).requestDue == [s.now + s.retryTimeout];
  }

  /** With a buffer, the request of the only server is a transmission to its address. */
  lemma SoloRequest(o: Options, s: State, env: Env)
    requires Solo(o, s) && env.haveBuffer
    ensures Request(o, s, env) == Transmit(o, s, s.servers[s.current].addr, env.clock)
  {
  }

  lemma HandOverWaits(o: Options, s: State, request: Obs, first: nat, n: nat, prompt: bool)
    requires Solo(o, s) && Waiting(o, s, first, n, prompt) && s.requestDue != []
    requires request.Sent? && request.at == s.now
    ensures var r := HandOver(o, s.CancelRequest(), s.servers[s.current].addr, request);
            Solo(o, r) && Waiting(o, r, first, n, prompt) && SendTimes(r.trace) == SendTimes(s.trace) + [s.now]
  {
    SendTimesAppend(s.trace, request);
    assert HandOver(o, s.CancelRequest(), s.servers[s.current].addr, request).nextDue == [s.now + o.recvTimeout];
  }

  lemma TransmitWaits(o: Options, s: State, clock: Clock, first: nat, n: nat, prompt: bool)
    requires Solo(o, s) && Waiting(o, s, first, n, prompt) && s.requestDue != []
    ensures var r := Transmit(o, s.CancelRequest(), s.servers[s.current].addr, clock);
            Solo(o, r) && Waiting(o, r, first, n, prompt) && SendTimes(r.trace) == SendTimes(s.trace) + [s.now]
  {
    var stamped := s.(lastStamp := Transmit(o, s.CancelRequest(), s.servers[s.current].addr, clock).lastStamp);
    HandOverWaits(o, stamped, Sending(s, s.servers[s.current].addr, clock), first, n, prompt);
  }

  lemma RetrySends(o: Options, s: State, env: Env, first: nat, n: nat, prompt: bool)
    requires Solo(o, s) && Waiting(o, s, first, n, prompt) && s.requestDue != [] && env.haveBuffer
    requires Timely(s, RequestTimer(env)) && (prompt ==> Prompt(s, RequestTimer(env)))
    requires GapsGrow(o, SendTimes(s.trace), first, n, prompt)
    ensures var r := Step(o, s, RequestTimer(env));
            && Solo(o, r) && Waiting(o, r, first, n, prompt)
            && SendTimes(s.trace) <= SendTimes(r.trace)
            && GapsGrow(o, SendTimes(r.trace), first, n, prompt)
  {
    SoloRequest(o, s.CancelRequest(), env);
    TransmitWaits(o, s, env.clock, first, n, prompt);
    GapAppend(o, s, first, n, prompt);
  }

  lemma GapAppend(o: Options, s: State, first: nat, n: nat, prompt: bool)
    requires Waiting(o, s, first, n, prompt) && s.requestDue != []
    requires s.requestDue[0] <= s.now && (prompt ==> s.requestDue[0] == s.now)
    requires GapsGrow(o, SendTimes(s.trace), first, n, prompt)
    ensures GapsGrow(o, SendTimes(s.trace) + [s.now], first, n, prompt)
  {
  }

  lemma PassivePacketWaits(o: Options, s: State, e: Event)
    requires s.Valid(o) && Unanswered(s, e) && (e.Packet? || e.TimePasses?)
    ensures Step(o, s, e) == s.(now := Step(o, s, e).now)
  {
  }

  /**
   After the n-th consecutive timeout, counted from the first request on, the next request follows the last one after
   SNTP_RECV_TIMEOUT plus the n-th backoff value; later only as far as the timers fire late. Compare section 10 of
   RFC 4330.
   */
  lemma {:induction false} RetryGaps(o: Options, s: State, es: seq<Event>, first: nat, n: nat, prompt: bool)
    requires Solo(o, s) && Waiting(o, s, first, n, prompt) && |SendTimes(s.trace)| == first + 1
    requires UnansweredRun(o, s, es, prompt)
    ensures var r := Exec(o, s, es);
            && Solo(o, r) && Waiting(o, r, first, n, prompt)
            && SendTimes(s.trace) <= SendTimes(r.trace)
            && GapsGrow(o, SendTimes(r.trace), first, n, prompt)
  {
    if es == [] {
    } else {
      RetryGaps(o, s, es[..|es| - 1], first, n, prompt);
      RetryGapsStep(o, Exec(o, s, es[..|es| - 1]), es[|es| - 1], first, n, prompt);
    }
  }

  lemma RetryGapsStep(o: Options, s: State, e: Event, first: nat, n: nat, prompt: bool)
    requires Solo(o, s) && Waiting(o, s, first, n, prompt)
    requires GapsGrow(o, SendTimes(s.trace), first, n, prompt)
    requires Unanswered(s, e) && Timely(s, e) && (prompt ==> Prompt(s, e))
    ensures var r := Step(o, s, e);
            && Solo(o, r) && Waiting(o, r, first, n, prompt)
            && SendTimes(s.trace) <= SendTimes(r.trace)
            && GapsGrow(o, SendTimes(r.trace), first, n, prompt)
  {
    if Enabled(s, e) {
      match e
      case NextTimer(env) => TimeoutWaits(o, s, env, first, n, prompt);
      case RequestTimer(env) => RetrySends(o, s, env, first, n, prompt);
      case _ => PassivePacketWaits(o, s, e);
    }
  }

  // ----- Where such a sequence starts -----

  /** Nothing was sent, or exactly now, and then the receive timeout is the only thing pending. */
  predicate SentNowOrNot(o: Options, before: seq<Obs>, r: State) {
    || SendTimes(r.trace) == SendTimes(before)
    || (SendTimes(r.trace) == SendTimes(before) + [r.now] && r.requestDue == [] && r.nextDue == [r.now + o.recvTimeout])
  }

  lemma RequestSentNow(o: Options, s: State, env: Env)
    requires s.Valid(o) && AddressOnly(s.servers) && s.Pending() == 0
    ensures SentNowOrNot(o, s.trace, Request(o, s, env))
  {
    var addr := s.servers[s.current].addr;
    if addr != IP_ADDR_ANY && env.haveBuffer {
      assert Request(o, s, env) == Transmit(o, s, addr, env.clock);
      TransmitSentNow(o, s, addr, env.clock);
    }
  }

  lemma TransmitSentNow(o: Options, s: State, dest: Addr, clock: Clock)
    requires s.Valid(o) && s.Pending() == 0
    ensures SentNowOrNot(o, s.trace, Transmit(o, s, dest, clock))
  {
    HandOverSentNow(o, s.(lastStamp := Transmit(o, s, dest, clock).lastStamp), dest, Sending(s, dest, clock));
  }

  lemma HandOverSentNow(o: Options, s: State, dest: Addr, request: Obs)
    requires s.Valid(o) && s.Pending() == 0 && request.Sent? && request.at == s.now
    ensures SentNowOrNot(o, s.trace, HandOver(o, s, dest, request))
  {
    SendTimesAppend(s.trace, request);
    assert HandOver(o, s, dest, request).nextDue == [s.now + o.recvTimeout];
  }

  lemma TryNextSentNow(o: Options, s: State, env: Env)
    requires s.Valid(o) && AddressOnly(s.servers) && s.Pending() == 0
    ensures SentNowOrNot(o, s.trace, TryNext(o, s, env))
  {
    SendTimesAppend(s.trace, Reset);
    SendTimesAppend(s.trace, Retried);
    match NextServer(s.servers, s.current)
    case Some(next) =>
      FirstConfiguredInRange(s.servers, s.current, 1);
      RequestSentNow(o, s.(current := next).ResetTimeout(o), env);
    case None =>
  }

  lemma InitSentNow(o: Options, s: State, pcb: bool, env: Env)
    requires Paced(o, s)
    ensures SentNowOrNot(o, s.trace, InitStep(o, s, pcb, env))
  {
    if !s.open && pcb && s.mode == Poll {
      var started := s.(open := true).Observe(Started).ResetTimeout(o);
      StartSendsNothing(s.trace);
      if !o.startupDelay {
        RequestSentNow(o, started, env);
        SentSince(o, s.trace, started.trace, Request(o, started, env));
      }
    }
  }

  lemma StartSendsNothing(trace: seq<Obs>)
    ensures SendTimes(trace + [Started] + [Reset]) == SendTimes(trace)
  {
    SendTimesAppend(trace, Started);
    SendTimesAppend(trace + [Started], Reset);
  }

  lemma SentSince(o: Options, before: seq<Obs>, between: seq<Obs>, r: State)
    requires SendTimes(between) == SendTimes(before) && SentNowOrNot(o, between, r)
    ensures SentNowOrNot(o, before, r)
  {
  }

  lemma PacketSentNow(o: Options, s: State, e: Event)
    requires s.Valid(o) && e.Packet? && Enabled(s, e) && !Kisses(s, e)
    ensures SendTimes(Step(o, s, e).trace) == SendTimes(s.trace)
  {
    PacketStep(o, s, e);
    if WillAccept(s, e) {
      SntpActions.AcceptTrace(o, s, e);
      AnswerSendsNothing(s.trace, HookCall(e.data, e.env.clock), Crediting(s, e.data, e.from, e.env.clock));
    }
  }

  lemma AnswerSendsNothing(trace: seq<Obs>, hook: Obs, credit: Obs)
    requires hook.ClockSet? && credit.Accepted?
    ensures SendTimes(trace + [hook] + [credit] + []) == SendTimes(trace)
    ensures SendTimes(trace + [hook] + [credit] + [Reset]) == SendTimes(trace)
  {
    SendTimesAppend(trace, hook);
    SendTimesAppend(trace + [hook], credit);
    SendTimesAppend(trace + [hook] + [credit], Reset);
    assert trace + [hook] + [credit] + [] == trace + [hook] + [credit];
  }

  lemma StepSentNow(o: Options, s: State, e: Event)
    requires Paced(o, s) && NamesNone(e)
    requires Kissed !in Step(o, s, e).trace
    ensures SentNowOrNot(o, s.trace, Step(o, s, e))
  {
    if Enabled(s, e) {
      match e
      case Init(pcb, env) => InitSentNow(o, s, pcb, env);
      case Stop => SendTimesAppend(s.trace, Stopped);
      case RequestTimer(env) => RequestSentNow(o, s.CancelRequest(), env);
      case NextTimer(env) => TryNextSentNow(o, s.CancelNext(), env);
      case Packet(_, _, _, env) =>
        if Kisses(s, e) {
          PacketStep(o, s, e);
          KissIsSeen(o, s, env);
        } else {
          PacketSentNow(o, s, e);
        }
      case _ =>
    }
  }

  /**
   In the runs of SendSpacing, every state right after an event that has sent is such a start, with n the retries since
   the timeout was last reset.
   */
  lemma ReachableStart(o: Options, es: seq<Event>, prompt: bool)
    requires es != [] && TimelyRun(o, PowerUp(o), es) && Kissed !in Exec(o, PowerUp(o), es).trace
    requires SendTimes(Exec(o, PowerUp(o), es).trace) != SendTimes(Exec(o, PowerUp(o), es[..|es| - 1]).trace)
    ensures var s := Exec(o, PowerUp(o), es);
            && |SendTimes(s.trace)| > 0
            && Waiting(o, s, |SendTimes(s.trace)| - 1, RetriesSinceReset(s.trace), prompt)
  {
    var before := Exec(o, PowerUp(o), es[..|es| - 1]);
    SntpActions.StepExtendsTrace(o, before, es[|es| - 1]);
    SendSpacing(o, es[..|es| - 1]);
    BackoffClosedForm(o, es);
    StepSentNow(o, before, es[|es| - 1]);
    JustSentWaits(o, before.trace, Exec(o, PowerUp(o), es), prompt);
  }

  lemma JustSentWaits(o: Options, before: seq<Obs>, s: State, prompt: bool)
    requires SentNowOrNot(o, before, s) && SendTimes(s.trace) != SendTimes(before)
    requires ClosedForm(o, s.retryTimeout, s.trace) && WasReset(s)
    ensures |SendTimes(s.trace)| > 0
    ensures Waiting(o, s, |SendTimes(s.trace)| - 1, RetriesSinceReset(s.trace), prompt)
  {
  }

  /** From power-up with one server that never answers: the gaps grow with the backoff from its beginning. */
  lemma LoneServerGaps(o: Options, a: Addr, env: Env, es: seq<Event>, prompt: bool)
    requires a != IP_ADDR_ANY && env.haveBuffer
    requires UnansweredRun(o, Exec(o, PowerUp(o), FirstRequest(a, IP_ADDR_ANY, env)), es, prompt)
    ensures var r := Exec(o, PowerUp(o), FirstRequest(a, IP_ADDR_ANY, env) + es);
            |SendTimes(r.trace)| >= 1 && GapsGrow(o, SendTimes(r.trace), 0, 0, prompt)
  {
    var s := Exec(o, PowerUp(o), FirstRequest(a, IP_ADDR_ANY, env));
    FirstRequestAsks(o, a, IP_ADDR_ANY, env);
    LoneServerStart(o, s, a, env.clock, prompt);
    RetryGaps(o, s, es, 0, 0, prompt);
    ExecAppend(o, PowerUp(o), FirstRequest(a, IP_ADDR_ANY, env), es);
  }

  lemma LoneServerStart(o: Options, s: State, a: Addr, clock: Clock, prompt: bool)
    requires Asked(o, s, a, IP_ADDR_ANY, clock) && a != IP_ADDR_ANY
    ensures Solo(o, s) && |SendTimes(s.trace)| == 1 && Waiting(o, s, 0, 0, prompt)
  {
    FirstSendTime(s.trace);
    FirstBackoff(o);
  }

  lemma FirstSendTime(trace: seq<Obs>)
    requires |trace| == 3 && trace[0] == Started && trace[1] == Reset && trace[2].Sent?
    ensures SendTimes(trace) == [trace[2].at]
  {
    StartSendsNothing([]);
    SendTimesAppend([] + [Started] + [Reset], trace[2]);
    assert trace == [] + [Started] + [Reset] + [trace[2]];
  }

  lemma FirstBackoff(o: Options)
    ensures BackoffValue(o, 0) == o.retryTimeout
  {
  }
}
