/** How often an event makes the client observe something of interest, for any kind of observation. */
module SntpCounting {
  import SntpActions
  import opened SntpModel
  import SntpServers
  import opened Wrappers

  function One(obs: Obs, counted: Obs -> bool): nat {
    if counted(obs) then 1 else 0
  }

  function Count(trace: seq<Obs>, counted: Obs -> bool): nat {
    if trace == [] then 0 else Count(trace[..|trace| - 1], counted) + One(trace[|trace| - 1], counted)
  }

  lemma CountAppend(trace: seq<Obs>, obs: Obs, counted: Obs -> bool)
    ensures Count(trace + [obs], counted) == Count(trace, counted) + One(obs, counted)
  {
    assert (trace + [obs])[..|trace|] == trace;
  }

  /** Neither requests nor queries nor retries are counted. */
  ghost predicate Selective(counted: Obs -> bool) {
    forall obs: Obs :: obs.Sent? || obs.Queried? || obs == Retried ==> !counted(obs)
  }

  predicate StartsPolling(s: State, e: Event) {
    e.Init? && e.pcb && !s.open && s.mode == Poll
  }

  predicate OtherServer(servers: seq<Server>, current: nat) {
    exists i :: 0 <= i < |servers| && i != current && servers[i].Configured()
  }

  /** What an event adds to a count. */
  function StepCount(s: State, e: Event, counted: Obs -> bool): nat {
    if StartsPolling(s, e) then One(Started, counted) + One(Reset, counted)
    else if e.Stop? && s.open then One(Stopped, counted)
    else if WillAccept(s, e) then
      One(HookCall(e.data, e.env.clock), counted) + One(Crediting(s, e.data, e.from, e.env.clock), counted)
      + if s.mode == Poll then One(Reset, counted) else 0
    else
      (if Kisses(s, e) then One(Kissed, counted) else 0)
      + if LooksFurther(s, e) && OtherServer(s.servers, s.current) then One(Reset, counted) else 0
  }

  lemma SendCount(o: Options, s: State, dest: Addr, env: Env, counted: Obs -> bool)
    requires s.Valid(o) && Selective(counted)
    ensures Count(SendRequest(o, s, dest, env).trace, counted) == Count(s.trace, counted)
  {
    if env.haveBuffer {
      CountAppend(s.trace, Sending(s, dest, env.clock), counted);
    }
  }

  lemma RequestCount(o: Options, s: State, env: Env, counted: Obs -> bool)
    requires s.Valid(o) && Selective(counted)
    ensures Count(Request(o, s, env).trace, counted) == Count(s.trace, counted)
  {
    var sv := s.servers[s.current];
    if sv.name.Some? {
      var query := Queried(s.current, sv.name.value);
      CountAppend(s.trace, query, counted);
      if env.dns.Resolved? {
        SendCount(o, s.SetAddr(IP_ADDR_ANY).Observe(query).SetAddr(env.dns.addr), env.dns.addr, env, counted);
      }
    } else if sv.addr != IP_ADDR_ANY {
      SendCount(o, s, sv.addr, env, counted);
    }
  }

  lemma TryNextCount(o: Options, s: State, env: Env, counted: Obs -> bool)
    requires s.Valid(o) && Selective(counted)
    ensures Count(TryNext(o, s, env).trace, counted) ==
            Count(s.trace, counted) + if OtherServer(s.servers, s.current) then One(Reset, counted) else 0
  {
    SntpServers.NextServerMeaning(s.servers, s.current);
    CountAppend(s.trace, Reset, counted);
    CountAppend(s.trace, Retried, counted);
    match NextServer(s.servers, s.current)
    case None =>
    case Some(next) =>
      assert s.servers[next].Configured() && next != s.current;
      RequestCount(o, s.(current := next).ResetTimeout(o), env, counted);
  }

  lemma StartCount(trace: seq<Obs>, counted: Obs -> bool)
    ensures Count(trace + [Started] + [Reset], counted) ==
            Count(trace, counted) + One(Started, counted) + One(Reset, counted)
  {
    CountAppend(trace, Started, counted);
    CountAppend(trace + [Started], Reset, counted);
  }

  lemma InitCount(o: Options, s: State, e: Event, counted: Obs -> bool)
    requires s.Valid(o) && Selective(counted) && e.Init?
    ensures Count(Step(o, s, e).trace, counted) == Count(s.trace, counted) + StepCount(s, e, counted)
  {
    if StartsPolling(s, e) {
      var started := s.(open := true, retryTimeout := o.retryTimeout, trace := s.trace + [Started] + [Reset]);
      StartStep(o, s, e);
      StartCount(s.trace, counted);
      RequestCount(o, started, e.env, counted);
    }
  }

  lemma QueryCount(o: Options, s: State, e: Event, counted: Obs -> bool)
    requires s.Valid(o) && Selective(counted) && e.DnsFound? && Enabled(s, e)
    ensures Count(Step(o, s, e).trace, counted) == Count(s.trace, counted) + StepCount(s, e, counted)
  {
    QueryStep(o, s, e);
    var asked := s.(dns := s.dns - 1);
    match e.answer
    case None => TryNextCount(o, asked, e.env, counted);
    case Some(addr) => SendCount(o, asked.SetAddr(addr), addr, e.env, counted);
  }

  lemma PacketCount(o: Options, s: State, e: Event, counted: Obs -> bool)
    requires s.Valid(o) && Selective(counted) && e.Packet? && Enabled(s, e)
    ensures Count(Step(o, s, e).trace, counted) == Count(s.trace, counted) + StepCount(s, e, counted)
  {
    PacketStep(o, s, e);
    if Kisses(s, e) {
      CountAppend(s.trace, Kissed, counted);
      TryNextCount(o, s.Observe(Kissed), e.env, counted);
    } else if WillAccept(s, e) {
      AcceptCount(o, s, e, counted);
    }
  }

  lemma AcceptCount(o: Options, s: State, e: Event, counted: Obs -> bool)
    requires s.Valid(o) && WillAccept(s, e)
    ensures Count(Step(o, s, e).trace, counted) == Count(s.trace, counted) + StepCount(s, e, counted)
  {
    SntpActions.AcceptTrace(o, s, e);
    AnswerCount(s.trace, HookCall(e.data, e.env.clock), Crediting(s, e.data, e.from, e.env.clock), counted);
  }

  lemma AnswerCount(trace: seq<Obs>, hook: Obs, credit: Obs, counted: Obs -> bool)
    ensures var three := trace + [hook] + [credit] + [Reset];
            && Count(three, counted) ==
               Count(trace, counted) + One(hook, counted) + One(credit, counted) + One(Reset, counted)
            && Count(trace + [hook] + [credit] + [], counted) ==
               Count(trace, counted) + One(hook, counted) + One(credit, counted)
  {
    CountAppend(trace, hook, counted);
    CountAppend(trace + [hook], credit, counted);
    CountAppend(trace + [hook] + [credit], Reset, counted);
    assert trace + [hook] + [credit] + [] == trace + [hook] + [credit];
  }

  /** Every event adds to a count what StepCount says. */
  lemma StepCounts(o: Options, s: State, e: Event, counted: Obs -> bool)
    requires s.Valid(o) && Selective(counted)
    ensures Count(Step(o, s, e).trace, counted) == Count(s.trace, counted) + StepCount(s, e, counted)
  {
    if Enabled(s, e) {
      match e
      case Init(_, _) => InitCount(o, s, e, counted);
      case Stop => CountAppend(s.trace, Stopped, counted);
      case RequestTimer(env) => RequestCount(o, s.CancelRequest(), env, counted);
      case NextTimer(env) => TryNextCount(o, s.CancelNext(), env, counted);
      case DnsFound(_, _) => QueryCount(o, s, e, counted);
      case Packet(_, _, _, _) => PacketCount(o, s, e, counted);
      case _ =>
    }
  }
}
