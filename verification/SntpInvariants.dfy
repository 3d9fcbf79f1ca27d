/** What every event keeps, in one place: the invariant of the client as an object. */
module SntpInvariants {
  import opened CInt
  import opened SntpAccounting
  import opened SntpActions
  import opened SntpBackoff
  import opened SntpClockSet
  import opened SntpModel
  import opened SntpOriginate
  import opened SntpPacket
  import opened SntpReachability

  // ----- The timer lists -----

  /** Both lists are in the order of expiry, so that their heads are the earliest timers. */
  ghost predicate TimersSorted(s: State) {
    Sorted(s.requestDue) && Sorted(s.nextDue)
  }

  lemma ArmKeepsSorted(s: State, delay: nat)
    requires TimersSorted(s)
    ensures TimersSorted(s.ArmRequest(delay)) && TimersSorted(s.ArmNext(delay))
  {
    InsertDueSorts(s.requestDue, s.now + delay);
    InsertDueSorts(s.nextDue, s.now + delay);
  }

  lemma CancelKeepsSorted(s: State)
    requires TimersSorted(s)
    ensures TimersSorted(s.CancelRequest()) && TimersSorted(s.CancelNext())
  {
  }

  lemma SendKeepsSorted(o: Options, s: State, dest: Addr, env: Env)
    requires s.Valid(o) && TimersSorted(s)
    ensures TimersSorted(SendRequest(o, s, dest, env))
  {
    ArmKeepsSorted(s, o.recvTimeout);
    ArmKeepsSorted(s, o.retryTimeout);
  }

  lemma RequestKeepsSorted(o: Options, s: State, env: Env)
    requires s.Valid(o) && TimersSorted(s)
    ensures TimersSorted(Request(o, s, env))
  {
    ArmKeepsSorted(s, o.retryTimeout);
    var sv := s.servers[s.current];
    if sv.name.Some? {
      if env.dns.Resolved? {
        var asking := s.SetAddr(IP_ADDR_ANY).Observe(Queried(s.current, sv.name.value));
        SendKeepsSorted(o, asking.SetAddr(env.dns.addr), env.dns.addr, env);
      }
    } else if sv.addr != IP_ADDR_ANY {
      SendKeepsSorted(o, s, sv.addr, env);
    }
  }

  lemma TryNextKeepsSorted(o: Options, s: State, env: Env)
    requires s.Valid(o) && TimersSorted(s)
    ensures TimersSorted(TryNext(o, s, env))
  {
    match NextServer(s.servers, s.current)
    case Some(next) =>
      FirstConfiguredInRange(s.servers, s.current, 1);
      RequestKeepsSorted(o, s.(current := next).ResetTimeout(o), env);
    case None =>
      ArmKeepsSorted(s, s.retryTimeout);
  }

  lemma InitKeepsSorted(o: Options, s: State, pcb: bool, env: Env)
    requires s.Valid(o) && TimersSorted(s)
    ensures TimersSorted(InitStep(o, s, pcb, env))
  {
    if !s.open && pcb && s.mode == Poll {
      var started := s.(open := true).Observe(Started).ResetTimeout(o);
      RequestKeepsSorted(o, started, env);
      ArmKeepsSorted(started, env.startupDelay);
    }
  }

  lemma AcceptKeepsSorted(o: Options, s: State, data: seq<Byte>, from: Addr, env: Env)
    requires s.Valid(o) && TimersSorted(s) && |data| == SNTP_MSG_LEN
    ensures TimersSorted(Accept(o, s, data, from, env))
  {
    var credited := Credit(s, data, from, env);
    CancelKeepsSorted(credited);
    CancelKeepsSorted(credited.CancelNext());
    ArmKeepsSorted(credited.CancelNext().CancelRequest().ResetTimeout(o), o.updateDelay);
  }

  lemma StepKeepsSorted(o: Options, s: State, e: Event)
    requires s.Valid(o) && TimersSorted(s)
    ensures TimersSorted(Step(o, s, e))
  {
    if Enabled(s, e) {
      CancelKeepsSorted(s);
      match e
      case Init(pcb, env) => InitKeepsSorted(o, s, pcb, env);
      case RequestTimer(env) => RequestKeepsSorted(o, s.CancelRequest(), env);
      case NextTimer(env) => TryNextKeepsSorted(o, s.CancelNext(), env);
      case DnsFound(_, _) => AnswerKeepsSorted(o, s.(dns := s.dns - 1), e);
      case Packet(_, _, _, _) => PacketKeepsSorted(o, s, e);
      case _ =>
    }
  }

  lemma AnswerKeepsSorted(o: Options, s: State, e: Event)
    requires s.Valid(o) && TimersSorted(s) && e.DnsFound?
    ensures TimersSorted(DnsFoundStep(o, s, e.answer, e.env))
  {
    match e.answer
    case Some(addr) => SendKeepsSorted(o, s.SetAddr(addr), addr, e.env);
    case None => TryNextKeepsSorted(o, s, e.env);
  }

  lemma PacketKeepsSorted(o: Options, s: State, e: Event)
    requires s.Valid(o) && TimersSorted(s) && e.Packet?
    ensures TimersSorted(Receive(o, s, e.data, e.from, e.port, e.env))
  {
    match Classify(s, e.data, e.from, e.port)
    case Correct => AcceptKeepsSorted(o, s, e.data, e.from, e.env);
    case KissOfDeath => TryNextKeepsSorted(o, s.Observe(Kissed), e.env);
    case Ignored =>
  }

  // ----- The invariant -----

  /** What the variables mean in terms of what was observed. */
  ghost predicate TraceSound(o: Options, v: View) {
    && ClosedForm(o, v.retryTimeout, v.trace)
    && RegistersTell(v)
    && Remembers(v) && AllGenuine(v.trace)
    && SetByAnswers(v.trace)
  }

  /** What is pending. */
  ghost predicate WorkSound(s: State) {
    Alive(s) && WasReset(s) && TimersSorted(s) && s.Pending() <= Work(s.trace)
  }

  ghost predicate Sound(o: Options, s: State) {
    s.Valid(o) && TraceSound(o, ViewOf(s)) && WorkSound(s)
  }

  lemma StepTraceSound(o: Options, s: State, e: Event)
    requires s.Valid(o) && TraceSound(o, ViewOf(s))
    ensures TraceSound(o, ViewOf(Step(o, s, e)))
  {
    var v, w := ViewOf(s), ViewOf(Step(o, s, e));
    var actions := StepPath(o, s, e);
    PathKeepsClosedForm(o, v, actions, w);
    PathKeepsRegisters(o, v, actions, w);
    PathKeepsGenuine(o, v, actions, w);
    StepSetByAnswers(o, s, e);
  }

  lemma StepWorkSound(o: Options, s: State, e: Event)
    requires s.Valid(o) && WorkSound(s)
    ensures WorkSound(Step(o, s, e))
  {
    StepAlive(o, s, e);
    StepKeepsReset(o, s, e);
    StepKeepsSorted(o, s, e);
    StepWork(o, s, e);
  }

  lemma StepSound(o: Options, s: State, e: Event)
    requires Sound(o, s)
    ensures Sound(o, Step(o, s, e))
  {
    StepTraceSound(o, s, e);
    StepWorkSound(o, s, e);
  }

  lemma PowerUpSound(o: Options)
    ensures Sound(o, PowerUp(o))
  {
    PowerUpTells(o);
  }

  /** Over every run. */
  lemma {:induction false} RunSound(o: Options, es: seq<Event>)
    ensures Sound(o, Exec(o, PowerUp(o), es))
  {
    if es == [] {
      PowerUpSound(o);
    } else {
      RunSound(o, es[..|es| - 1]);
      StepSound(o, Exec(o, PowerUp(o), es[..|es| - 1]), es[|es| - 1]);
    }
  }
}
