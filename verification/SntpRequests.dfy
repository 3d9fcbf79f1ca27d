/** Where requests and queries go, when they are tried again, and what the setters have to do with it. */
module SntpRequests {
  import opened SntpActions
  import opened SntpModel
  import opened SntpServers
  import opened Wrappers

  // ----- Destinations -----

  /** What the resolver says if it is asked during an event. */
  function ResolverOf(e: Event): DnsAnswer {
    match e
    case Init(_, env) => env.dns
    case RequestTimer(env) => env.dns
    case NextTimer(env) => env.dns
    case DnsFound(_, env) => env.dns
    case Packet(_, _, _, env) => env.dns
    case _ => Failed
  }

  /**
   Nothing was sent, or one request, last of all, to the address now stored for the current server. A query was for the
   current server's name, and was followed by a request only to the address the resolver had at hand.
   */
  predicate SentToStored(before: seq<Obs>, r: State, dns: DnsAnswer)
    requires r.current < |r.servers|
  {
    var trace := r.trace;
    && before <= trace
    && (forall j :: |before| <= j < |trace| && trace[j].Queried? ==>
          && trace[j].server == r.current && r.servers[r.current].name == Some(trace[j].name)
          && (trace[|trace| - 1].Sent? ==> dns == Resolved(trace[|trace| - 1].dest)))
    && (forall j :: |before| <= j < |trace| - 1 ==> !trace[j].Sent?)
    && (|before| < |trace| && trace[|trace| - 1].Sent? ==>
          && trace[|trace| - 1].server == r.current
          && trace[|trace| - 1].dest == r.servers[r.current].addr == r.lastAddr
          && trace[|trace| - 1].at == r.now
          && (trace[|trace| - 1].socket <==> r.open))
  }

  /** Observations that are neither requests nor queries. */
  predicate Silent(obs: Obs) {
    !obs.Sent? && !obs.Queried?
  }

  lemma StoredSince(before: seq<Obs>, obs: Obs, r: State, dns: DnsAnswer)
    requires r.current < |r.servers| && Silent(obs) && SentToStored(before + [obs], r, dns)
    ensures SentToStored(before, r, dns)
  {
    assert r.trace[|before|] == obs;
  }

  lemma SendToStored(o: Options, s: State, env: Env)
    requires s.Valid(o)
    ensures SentToStored(s.trace, SendRequest(o, s, s.servers[s.current].addr, env), env.dns)
  {
  }

  lemma RequestToStored(o: Options, s: State, env: Env)
    requires s.Valid(o)
    ensures SentToStored(s.trace, Request(o, s, env), env.dns)
  {
    var sv := s.servers[s.current];
    if sv.name.Some? && env.dns.Resolved? {
      var asking := s.SetAddr(IP_ADDR_ANY).Observe(Queried(s.current, sv.name.value));
      SendToStored(o, asking.SetAddr(env.dns.addr), env);
    } else if sv.name.None? && sv.addr != IP_ADDR_ANY {
      SendToStored(o, s, env);
    }
  }

  lemma TryNextToStored(o: Options, s: State, env: Env)
    requires s.Valid(o)
    ensures SentToStored(s.trace, TryNext(o, s, env), env.dns)
  {
    match NextServer(s.servers, s.current)
    case Some(next) =>
      FirstConfiguredInRange(s.servers, s.current, 1);
      RequestToStored(o, s.(current := next).ResetTimeout(o), env);
      StoredSince(s.trace, Reset, TryNext(o, s, env), env.dns);
    case None =>
  }

  lemma AnswerToStored(o: Options, s: State, e: Event)
    requires s.Valid(o) && e.DnsFound? && Enabled(s, e)
    ensures SentToStored(s.trace, Step(o, s, e), ResolverOf(e))
  {
    QueryStep(o, s, e);
    var asked := s.(dns := s.dns - 1);
    match e.answer
    case Some(addr) => SendToStored(o, asked.SetAddr(addr), e.env);
    case None => TryNextToStored(o, asked, e.env);
  }

  lemma PacketToStored(o: Options, s: State, e: Event)
    requires s.Valid(o) && e.Packet? && Enabled(s, e)
    ensures SentToStored(s.trace, Step(o, s, e), ResolverOf(e))
  {
    PacketStep(o, s, e);
    if Kisses(s, e) {
      TryNextToStored(o, s.Observe(Kissed), e.env);
      StoredSince(s.trace, Kissed, Step(o, s, e), e.env.dns);
    } else if WillAccept(s, e) {
      AcceptTrace(o, s, e);
    }
  }

  lemma InitToStored(o: Options, s: State, e: Event)
    requires s.Valid(o) && e.Init?
    ensures SentToStored(s.trace, Step(o, s, e), ResolverOf(e))
  {
    if e.pcb && !s.open && s.mode == Poll {
      StartStep(o, s, e);
      var started := s.(open := true, retryTimeout := o.retryTimeout, trace := s.trace + [Started] + [Reset]);
      if !o.startupDelay {
        RequestToStored(o, started, e.env);
        StoredSince(s.trace + [Started], Reset, Step(o, s, e), e.env.dns);
        StoredSince(s.trace, Started, Step(o, s, e), e.env.dns);
      }
    }
  }

  /** Every event sends at most one request: to the address then stored for the server it is counted for. */
  lemma StepToStored(o: Options, s: State, e: Event)
    requires s.Valid(o)
    ensures SentToStored(s.trace, Step(o, s, e), ResolverOf(e))
  {
    if Enabled(s, e) {
      match e
      case Init(_, _) => InitToStored(o, s, e);
      case RequestTimer(env) => RequestToStored(o, s.CancelRequest(), env);
      case NextTimer(env) => TryNextToStored(o, s.CancelNext(), env);
      case DnsFound(_, _) => AnswerToStored(o, s, e);
      case Packet(_, _, _, _) => PacketToStored(o, s, e);
      case _ =>
    }
  }

  /** The last thing observed. */
  function Last(trace: seq<Obs>): Obs
    requires trace != []
  {
    trace[|trace| - 1]
  }

  /** The resolver's answer is where the request goes that it was asked for; the server keeps its name. */
  lemma AnswerIsAsked(o: Options, s: State, addr: Addr, env: Env)
    requires s.Valid(o) && s.dns > 0 && addr != IP_ADDR_ANY && env.haveBuffer
    ensures var r := Step(o, s, DnsFound(Some(addr), env));
            && |r.trace| == |s.trace| + 1
            && Last(r.trace).Sent? && Last(r.trace).dest == addr && Last(r.trace).server == s.current
            && r.servers[s.current] == Server(s.servers[s.current].name, addr, r.servers[s.current].reachability)
            && r.lastAddr == addr && r.dns == s.dns - 1 && r.current == s.current
  {
  }

  /** An address the resolver has at hand is asked at once, after a query for the server's own name. */
  lemma ResolvedIsAsked(o: Options, s: State, name: string, addr: Addr, env: Env)
    requires s.Valid(o) && s.requestDue != [] && s.servers[s.current].name == Some(name)
    requires env.dns == Resolved(addr) && env.haveBuffer
    ensures var r := Step(o, s, RequestTimer(env));
            && |r.trace| == |s.trace| + 2
            && r.trace[|s.trace|] == Queried(s.current, name)
            && Last(r.trace).Sent? && Last(r.trace).dest == addr && Last(r.trace).server == s.current
            && r.servers[s.current].addr == addr && r.servers[s.current].name == Some(name)
            && r.dns == s.dns && r.nextDue == InsertDue(s.nextDue, s.now + o.recvTimeout)
  {
  }

  /** A query in progress is for the server's own name; until it is answered nothing is sent, and no timer is set. */
  lemma QueryIsAsked(o: Options, s: State, name: string, env: Env)
    requires s.Valid(o) && s.requestDue != [] && s.servers[s.current].name == Some(name) && env.dns == InProgress
    ensures var r := Step(o, s, RequestTimer(env));
            && r.trace == s.trace + [Queried(s.current, name)]
            && r.dns == s.dns + 1 && r.nextDue == s.nextDue && r.requestDue == s.requestDue[1..]
            && r.servers[s.current].addr == IP_ADDR_ANY && r.servers[s.current].name == Some(name)
  {
  }

  // ----- Trying again -----

  /** The current server cannot be asked: its name does not resolve, or it has neither name nor address. */
  predicate Unreachable(s: State, env: Env)
    requires s.current < |s.servers|
  {
    match s.servers[s.current].name
    case Some(_) => env.dns == Failed
    case None => s.servers[s.current].addr == IP_ADDR_ANY
  }

  /**
   A server that cannot be asked is left SNTP_RETRY_TIMEOUT later: the only timer then is one that goes on to the next
   configured server, and not one that asks the same again.
   */
  lemma UnreachableIsLeft(o: Options, s: State, env: Env, later: Env)
    requires s.Valid(o) && s.requestDue != [] && |s.requestDue| + |s.nextDue| == 1 && s.dns == 0
    requires Unreachable(s, env)
    ensures var r := Step(o, s, RequestTimer(env));
            && r.requestDue == [] && r.nextDue == [s.now + o.retryTimeout] && r.dns == 0 && r.current == s.current
            && (forall j :: |s.trace| <= j < |r.trace| ==> r.trace[j].Queried?)
            && Step(o, r, NextTimer(later)).current == Move(r.servers, s.current)
  {
    var r := Step(o, s, RequestTimer(env));
    StepIndex(o, r, NextTimer(later));
  }

  /** Without a buffer nothing is sent, and the same server is asked SNTP_RETRY_TIMEOUT later. */
  lemma BufferIsAwaited(o: Options, s: State, env: Env, later: Env)
    requires s.Valid(o) && s.requestDue != [] && |s.requestDue| + |s.nextDue| == 1 && s.dns == 0
    requires s.servers[s.current].name.None? && s.servers[s.current].addr != IP_ADDR_ANY
    requires !env.haveBuffer && later.haveBuffer
    ensures var r := Step(o, s, RequestTimer(env));
            && r == s.(requestDue := [s.now + o.retryTimeout])
            && var t := Step(o, r, RequestTimer(later));
            && |t.trace| == |s.trace| + 1
            && Last(t.trace).Sent? && Last(t.trace).server == s.current
            && Last(t.trace).dest == s.servers[s.current].addr
            && t.requestDue == [] && t.nextDue == [s.now + o.recvTimeout]
  {
    var r := Step(o, s, RequestTimer(env));
    assert r.requestDue == [s.now + o.retryTimeout];
  }

  // ----- Starting -----

  /** With a startup delay, starting to poll only schedules the first request; listening schedules nothing. */
  lemma StartSchedules(o: Options, s: State, env: Env)
    requires s.Valid(o) && !s.open && s.Pending() == 0
    ensures var r := Step(o, s, Init(true, env));
            && r.open
            && (s.mode == Poll && o.startupDelay ==>
                  && r.requestDue == [s.now + env.startupDelay] && r.nextDue == [] && r.dns == 0
                  && r.trace == s.trace + [Started] + [Reset])
            && (s.mode == ListenOnly ==> r == s.(open := true))
    ensures Step(o, s, Init(false, env)) == s
  {
  }

  // ----- Setters -----

  /** Setting an address gives a server that address and no name, and setting a name gives it that name. */
  lemma SettersSet(o: Options, s: State, idx: nat, addr: Option<Addr>, name: Option<string>)
    requires s.Valid(o)
    ensures var r := Step(o, s, SetServer(idx, addr));
            && r == s.(servers := r.servers)
            && forall i :: 0 <= i < o.maxServers ==>
                 r.servers[i] ==
                 if i != idx then s.servers[i]
                 else Server(None, if addr.Some? then addr.value else 0, s.servers[i].reachability)
    ensures var r := Step(o, s, SetServerName(idx, name));
            && r == s.(servers := r.servers)
            && forall i :: 0 <= i < o.maxServers ==>
                 r.servers[i] ==
                 if i != idx then s.servers[i] else Server(name, s.servers[i].addr, s.servers[i].reachability)
  {
  }

  /** The mode can be chosen while the client is closed. */
  lemma ModeIsSet(o: Options, s: State, mode: Mode)
    requires s.Valid(o)
    ensures Step(o, s, SetMode(mode)) == if s.open then s else s.(mode := mode)
  {
  }
}
