/** The round-robin search for the next configured server. */
module SntpServers {
  import opened SntpModel
  import opened Wrappers

  /** The distance forward from one index to another in a cyclic table; a full turn to come back to the same. */
  function Ahead(from: nat, to: nat, size: nat): (d: nat)
    requires from < size && to < size
    ensures 1 <= d <= size
    ensures Around(from, d, size) == to
  {
    if to > from then to - from else to + size - from
  }

  /** `next` is configured, is not `current`, and every server passed on the way to it is unconfigured. */
  ghost predicate NearestOther(servers: seq<Server>, current: nat, next: nat)
    requires current < |servers|
  {
    && next < |servers| && next != current
    && servers[next].Configured()
    && forall i :: 0 <= i < |servers| && Ahead(current, i, |servers|) < Ahead(current, next, |servers|) ==>
         !servers[i].Configured()
  }

  lemma {:induction false} FirstConfiguredMeaning(servers: seq<Server>, current: nat, d: nat)
    requires current < |servers| && d >= 1
    requires forall i :: 0 <= i < |servers| && Ahead(current, i, |servers|) < d ==> !servers[i].Configured()
    ensures match FirstConfigured(servers, current, d)
            case Some(next) => NearestOther(servers, current, next)
            case None => forall i :: 0 <= i < |servers| && i != current ==> !servers[i].Configured()
    decreases |servers| - d
  {
    if d >= |servers| {
    } else {
      var here := Around(current, d, |servers|);
      if !servers[here].Configured() {
        FirstConfiguredMeaning(servers, current, d + 1);
      }
    }
  }

  /** The search lands on the cyclically nearest other configured server, and gives up exactly if there is none. */
  lemma NextServerMeaning(servers: seq<Server>, current: nat)
    requires current < |servers|
    ensures match NextServer(servers, current)
            case Some(next) => NearestOther(servers, current, next)
            case None => forall i :: 0 <= i < |servers| && i != current ==> !servers[i].Configured()
  {
    FirstConfiguredMeaning(servers, current, 1);
  }

  // ----- One move -----

  /** One move of the index. */
  function Move(servers: seq<Server>, current: nat): (next: nat)
    requires current < |servers|
    ensures next < |servers|
  {
    FirstConfiguredInRange(servers, current, 1);
    match NextServer(servers, current)
    case Some(next) => next
    case None => current
  }

  /**
   Trying the next server moves the index to the nearest other configured one, forgets the backoff and asks it at
   once; with no other server the index stays and a retry is scheduled.
   */
  lemma TryNextLands(o: Options, s: State, env: Env)
    requires s.Valid(o)
    ensures TryNext(o, s, env).current == Move(s.servers, s.current)
    ensures var r := TryNext(o, s, env);
            if exists i :: 0 <= i < |s.servers| && i != s.current && s.servers[i].Configured() then
              && NearestOther(s.servers, s.current, r.current)
              && r == Request(o, s.(current := r.current).ResetTimeout(o), env)
              && r.retryTimeout == o.retryTimeout
            else
              r == Retry(o, s) && r.current == s.current
  {
    NextServerMeaning(s.servers, s.current);
    match NextServer(s.servers, s.current)
    case Some(next) =>
      assert s.servers[next].Configured() && next != s.current;
      RequestKeepsIndex(o, s.(current := next).ResetTimeout(o), env);
    case None =>
  }

  lemma RequestKeepsIndex(o: Options, s: State, env: Env)
    requires s.Valid(o)
    ensures Request(o, s, env).current == s.current && Request(o, s, env).retryTimeout == s.retryTimeout
  {
  }

  /** Trying the next server is the only thing that moves the index. */
  lemma StepIndex(o: Options, s: State, e: Event)
    requires s.Valid(o)
    ensures Step(o, s, e).current == if LooksFurther(s, e) then Move(s.servers, s.current) else s.current
  {
    if Enabled(s, e) {
      match e
      case Init(_, env) => RequestKeepsIndex(o, s.(open := true).Observe(Started).ResetTimeout(o), env);
      case RequestTimer(env) => RequestKeepsIndex(o, s.CancelRequest(), env);
      case NextTimer(env) => TryNextLands(o, s.CancelNext(), env);
      case DnsFound(_, _) => AnswerIndex(o, s, e);
      case Packet(_, _, _, _) => PacketIndex(o, s, e);
      case _ =>
    }
  }

  lemma AnswerIndex(o: Options, s: State, e: Event)
    requires s.Valid(o) && e.DnsFound? && Enabled(s, e)
    ensures Step(o, s, e).current == if e.answer.None? then Move(s.servers, s.current) else s.current
  {
    QueryStep(o, s, e);
    if e.answer.None? {
      TryNextLands(o, s.(dns := s.dns - 1), e.env);
    }
  }

  lemma PacketIndex(o: Options, s: State, e: Event)
    requires s.Valid(o) && e.Packet? && Enabled(s, e)
    ensures Step(o, s, e).current == if Kisses(s, e) then Move(s.servers, s.current) else s.current
  {
    PacketStep(o, s, e);
    if Kisses(s, e) {
      TryNextLands(o, s.Observe(Kissed), e.env);
    }
  }

  // ----- Configuration is kept -----

  /** Only the table setters can make a configured server unconfigured; requests and DNS answers cannot. */
  lemma StepKeepsConfigured(o: Options, s: State, e: Event, i: nat)
    requires s.Valid(o) && i < o.maxServers && s.servers[i].Configured()
    requires !SetsTable(e)
    ensures Step(o, s, e).servers[i].Configured()
  {
    if Enabled(s, e) {
      match e
      case Init(_, env) => RequestKeepsConfigured(o, s.(open := true).Observe(Started).ResetTimeout(o), env, i);
      case RequestTimer(env) => RequestKeepsConfigured(o, s.CancelRequest(), env, i);
      case NextTimer(env) => TryNextKeepsConfigured(o, s.CancelNext(), env, i);
      case DnsFound(answer, env) => ResolvedKeepsConfigured(o, s.(dns := s.dns - 1), answer, env, i);
      case Packet(data, from, port, env) => PacketKeepsConfigured(o, s, e, i);
      case _ =>
    }
  }

  lemma AcceptKeepsConfigured(o: Options, s: State, e: Event, i: nat)
    requires s.Valid(o) && i < o.maxServers && s.servers[i].Configured() && WillAccept(s, e)
    ensures Accept(o, s, e.data, e.from, e.env).servers[i].Configured()
  {
  }

  lemma PacketKeepsConfigured(o: Options, s: State, e: Event, i: nat)
    requires s.Valid(o) && i < o.maxServers && s.servers[i].Configured() && e.Packet?
    ensures Step(o, s, e).servers[i].Configured()
  {
    if Enabled(s, e) {
      PacketStep(o, s, e);
      if WillAccept(s, e) {
        AcceptKeepsConfigured(o, s, e, i);
      }
      TryNextKeepsConfigured(o, s.Observe(Kissed), e.env, i);
    }
  }

  lemma ResolvedKeepsConfigured(o: Options, s: State, answer: Option<Addr>, env: Env, i: nat)
    requires s.Valid(o) && i < o.maxServers && s.servers[i].Configured() && answer != Some(IP_ADDR_ANY)
    ensures DnsFoundStep(o, s, answer, env).servers[i].Configured()
  {
    match answer
    case None => TryNextKeepsConfigured(o, s, env, i);
    case Some(addr) =>
      AnswerKeepsConfigured(s, addr, i);
      SendKeepsConfigured(o, s.SetAddr(addr), addr, env, i);
  }

  lemma AnswerKeepsConfigured(s: State, addr: Addr, i: nat)
    requires s.current < |s.servers| && i < |s.servers| && s.servers[i].Configured() && addr != IP_ADDR_ANY
    ensures s.SetAddr(addr).servers[i].Configured()
  {
  }

  lemma SendKeepsConfigured(o: Options, s: State, dest: Addr, env: Env, i: nat)
    requires s.Valid(o) && i < o.maxServers && s.servers[i].Configured()
    ensures SendRequest(o, s, dest, env).servers[i].Configured()
  {
  }

  lemma RequestKeepsConfigured(o: Options, s: State, env: Env, i: nat)
    requires s.Valid(o) && i < o.maxServers && s.servers[i].Configured()
    ensures Request(o, s, env).servers[i].Configured()
  {
  }

  lemma TryNextKeepsConfigured(o: Options, s: State, env: Env, i: nat)
    requires s.Valid(o) && i < o.maxServers && s.servers[i].Configured()
    ensures TryNext(o, s, env).servers[i].Configured()
  {
    match NextServer(s.servers, s.current)
    case Some(next) =>
      FirstConfiguredInRange(s.servers, s.current, 1);
      RequestKeepsConfigured(o, s.(current := next).ResetTimeout(o), env, i);
    case None =>
  }

  /** Over every run without a table change, configured servers stay configured. */
  lemma {:induction false} ConfiguredStays(o: Options, s: State, es: seq<Event>, i: nat)
    requires s.Valid(o) && i < o.maxServers && s.servers[i].Configured()
    requires forall j :: 0 <= j < |es| ==> !SetsTable(es[j])
    ensures Exec(o, s, es).servers[i].Configured()
  {
    if es == [] {
    } else {
      ConfiguredStays(o, s, es[..|es| - 1], i);
      StepKeepsConfigured(o, Exec(o, s, es[..|es| - 1]), es[|es| - 1], i);
    }
  }
}
