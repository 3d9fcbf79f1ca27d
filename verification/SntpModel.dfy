/**
 The SNTP client as a state machine: what each of its callbacks and API calls does to its static
 variables, its pending timers and its outstanding DNS queries, and what it does to the world (the trace).
 */
module SntpModel {
  import opened CInt
  import opened SntpPacket
  import opened SntpProcess
  import opened SntpTime
  import opened Wrappers

  /** An IP address as a number; zero is the "any" address. */
  type Addr = nat

  const IP_ADDR_ANY: Addr := 0

  /** The build options, in milliseconds where they are times. */
  datatype OptionValues = OptionValues(
    maxServers: nat, retryTimeout: nat, retryTimeoutMax: nat, updateDelay: nat, recvTimeout: nat, startupDelay: bool)
  {
    predicate Valid() {
      && 1 < maxServers <= 255
      && 0 < retryTimeout <= retryTimeoutMax < TWO32
      && 15000 <= updateDelay < TWO32
      && recvTimeout < TWO32
    }
  }

  type Options = o: OptionValues | o.Valid() witness OptionValues(2, 15000, 150000, 3600000, 15000, false)

  datatype Mode = Poll | ListenOnly

  datatype Server = Server(name: Option<string>, addr: Addr, reachability: bv8) {
    predicate Configured() {
      addr != IP_ADDR_ANY || name.Some?
    }
  }

  /** What one handler meets outside the client. */
  datatype DnsAnswer = InProgress | Resolved(addr: Addr) | Failed
  datatype Env = Env(clock: Clock, haveBuffer: bool, dns: DnsAnswer, startupDelay: nat)

  /**
   What can be seen of a run. A query is a call of `dns_gethostbyname` for the name of a server. `clock` is what the
   system clock read for the timestamp of a request or on the arrival of a response; a request is handed to the stack
   with or without a `socket` (sntp_pcb != NULL).
   */
  datatype Obs =
    | Started
    | Stopped
    | Reset
    | Retried
    | Queried(server: nat, name: string)
    | Sent(server: nat, dest: Addr, message: seq<Byte>, at: int, clock: Clock, socket: bool)
    | Kissed
    | Accepted(server: nat, from: Addr, packet: seq<Byte>, mode: Mode, timerless: bool, clock: Clock, at: int)
    | ClockSet(sec: U32, micros: U32)

  datatype State = State(
    mode: Mode,
    open: bool,                // sntp_pcb != NULL
    servers: seq<Server>,
    current: nat,
    retryTimeout: U32,
    lastAddr: Addr,
    lastStamp: NetTime,
    requestDue: seq<int>,      // when the pending sntp_request timers expire, earliest first
    nextDue: seq<int>,         // the same for sntp_try_next_server
    dns: nat,                  // DNS queries whose sntp_dns_found is outstanding
    now: int,
    trace: seq<Obs>)
  {
    predicate Valid(o: Options) {
      |servers| == o.maxServers && current < o.maxServers
    }

    function Observe(obs: Obs): State {
      this.(trace := trace + [obs])
    }

    function ArmRequest(delay: nat): State {
      this.(requestDue := InsertDue(requestDue, now + delay))
    }

    function ArmNext(delay: nat): State {
      this.(nextDue := InsertDue(nextDue, now + delay))
    }

    /** `sys_untimeout`: at most one entry of the handler leaves the list, the earliest. */
    function CancelRequest(): State {
      this.(requestDue := Drop(requestDue))
    }

    function CancelNext(): State {
      this.(nextDue := Drop(nextDue))
    }

    /** Timers and DNS queries that will call the client back. */
    function Pending(): nat {
      |requestDue| + |nextDue| + dns
    }

    function ResetTimeout(o: Options): State {
      this.(retryTimeout := o.retryTimeout).Observe(Reset)
    }

    function SetAddr(addr: Addr): State
      requires current < |servers|
    {
      this.(servers := servers[current := servers[current].(addr := addr)])
    }
  }

  ghost predicate Sorted(q: seq<int>) {
    forall i, j :: 0 <= i < j < |q| ==> q[i] <= q[j]
  }

  /** A new timer goes behind those due at the same time or earlier. */
  function InsertDue(q: seq<int>, due: int): (r: seq<int>)
    ensures |r| == |q| + 1
  {
    if q == [] || due < q[0] then [due] + q else [q[0]] + InsertDue(q[1..], due)
  }

  /** Arming a timer adds one entry and keeps the list in the order of expiry. */
  lemma {:induction false} InsertDueSorts(q: seq<int>, due: int)
    requires Sorted(q)
    ensures multiset(InsertDue(q, due)) == multiset(q) + multiset{due}
    ensures Sorted(InsertDue(q, due))
  {
    if q == [] || due < q[0] {
    } else {
      InsertDueSorts(q[1..], due);
      assert q == [q[0]] + q[1..];
      SortedCons(q[0], InsertDue(q[1..], due), q[1..], due);
    }
  }

  lemma SortedCons(head: int, rest: seq<int>, tail: seq<int>, due: int)
    requires Sorted(rest) && multiset(rest) == multiset(tail) + multiset{due}
    requires head <= due && forall i :: 0 <= i < |tail| ==> head <= tail[i]
    ensures Sorted([head] + rest)
  {
    forall i | 0 <= i < |rest|
      ensures head <= rest[i]
    {
      assert rest[i] in multiset(rest);
    }
  }

  function Drop(q: seq<int>): seq<int> {
    if q == [] then [] else q[1..]
  }

  // ----- Handlers -----

  /** How a request to the current server is observed. */
  function Sending(s: State, dest: Addr, clock: Clock): Obs {
    Sent(s.current, dest, RequestMessage(StampOf(clock)), s.now, clock, s.open)
  }

  function Transmit(o: Options, s: State, dest: Addr, clock: Clock): (r: State)
    requires s.Valid(o)
    ensures r.Valid(o)
  {
    HandOver(o, s.(lastStamp := StampOf(clock)), dest, Sending(s, dest, clock))
  }

  /** The request goes out: the register is shifted, the receive timeout armed, the address remembered. */
  function HandOver(o: Options, s: State, dest: Addr, request: Obs): (r: State)
    requires s.Valid(o)
    ensures r.Valid(o)
  {
    var sv := s.servers[s.current];
    s.(lastAddr := dest, servers := s.servers[s.current := sv.(reachability := sv.reachability << 1)])
     .ArmNext(o.recvTimeout)
     .Observe(request)
  }

  function SendRequest(o: Options, s: State, dest: Addr, env: Env): (r: State)
    requires s.Valid(o)
    ensures r.Valid(o)
  {
    if env.haveBuffer then Transmit(o, s, dest, env.clock) else s.ArmRequest(o.retryTimeout)
  }

  function Request(o: Options, s: State, env: Env): (r: State)
    requires s.Valid(o)
    ensures r.Valid(o)
  {
    var sv := s.servers[s.current];
    if sv.name.Some? then
      // Always resolve the name again; the cached address is forgotten meanwhile.
      var asking := s.SetAddr(IP_ADDR_ANY).Observe(Queried(s.current, sv.name.value));
      match env.dns
      case InProgress => asking.(dns := s.dns + 1)
      case Resolved(addr) => SendRequest(o, asking.SetAddr(addr), addr, env)
      case Failed => asking.ArmNext(o.retryTimeout)
    else if sv.addr != IP_ADDR_ANY then
      SendRequest(o, s, sv.addr, env)
    else
      s.ArmNext(o.retryTimeout)
  }

  /** `sntp_retry_timeout << 1` in 32 bits, if that stays within the limit and did not overflow. */
  function DoubledTimeout(o: Options, timeout: U32): U32 {
    var doubled := WrapU32(timeout * 2);
    if doubled <= o.retryTimeoutMax && doubled > timeout then doubled else timeout
  }

  function Retry(o: Options, s: State): State {
    s.ArmRequest(s.retryTimeout).(retryTimeout := DoubledTimeout(o, s.retryTimeout)).Observe(Retried)
  }

  /** The index d places after `current` in a cyclic table. */
  function Around(current: nat, d: nat, size: nat): (i: nat)
    requires current < size && d <= size
    ensures i < size
  {
    if current + d < size then current + d else current + d - size
  }

  /** The first configured server among those at cyclic distance d, d + 1, ... from `current`. */
  function FirstConfigured(servers: seq<Server>, current: nat, d: nat): Option<nat>
    requires current < |servers|
    decreases |servers| - d
  {
    if d >= |servers| then None
    else if servers[Around(current, d, |servers|)].Configured() then Some(Around(current, d, |servers|))
    else FirstConfigured(servers, current, d + 1)
  }

  function NextServer(servers: seq<Server>, current: nat): Option<nat>
    requires current < |servers|
  {
    FirstConfigured(servers, current, 1)
  }

  function TryNext(o: Options, s: State, env: Env): (r: State)
    requires s.Valid(o)
    ensures r.Valid(o)
  {
    FirstConfiguredInRange(s.servers, s.current, 1);
    match NextServer(s.servers, s.current)
    case Some(next) => Request(o, s.(current := next).ResetTimeout(o), env)
    case None => Retry(o, s)
  }

  lemma FirstConfiguredInRange(servers: seq<Server>, current: nat, d: nat)
    requires current < |servers|
    ensures var r := FirstConfigured(servers, current, d); r.Some? ==> r.value < |servers|
    decreases |servers| - d
  {
  }

  datatype Verdict = Correct | KissOfDeath | Ignored

  function Classify(s: State, data: seq<Byte>, from: Addr, port: nat): Verdict {
    if (s.mode == ListenOnly || from == s.lastAddr) && port == SNTP_PORT then
      if |data| == SNTP_MSG_LEN then
        var mode := data[0] % 8;
        if (s.mode == Poll && mode == SNTP_MODE_SERVER) || (s.mode == ListenOnly && mode == SNTP_MODE_BROADCAST) then
          if data[1] == SNTP_STRATUM_KOD then KissOfDeath
          else if ExtractTimestamps(data).orig != s.lastStamp then Ignored
          else Correct
        else Ignored
      else Ignored
    else Ignored
  }

  /** The call of the system time hook with a new time. */
  function HookOf(t: S64): Obs {
    ClockSet(NtpToUnixSeconds(SecondsOf(t)), FractionToMicros(FractionOf(t)))
  }

  function HookCall(data: seq<Byte>, clock: Clock): Obs
    requires |data| == SNTP_MSG_LEN
  {
    HookOf(NewTime(ExtractTimestamps(data), clock))
  }

  /** How its credit to the current server is observed. */
  function Crediting(s: State, data: seq<Byte>, from: Addr, clock: Clock): Obs {
    Accepted(s.current, from, data, s.mode, s.requestDue == [] && s.nextDue == [], clock, s.now)
  }

  function Credit(s: State, data: seq<Byte>, from: Addr, env: Env): State
    requires s.current < |s.servers| && |data| == SNTP_MSG_LEN
  {
    var sv := s.servers[s.current];
    s.Observe(HookCall(data, env.clock))
     .Observe(Crediting(s, data, from, env.clock))
     .(servers := s.servers[s.current := sv.(reachability := sv.reachability | 1)])
  }

  function Accept(o: Options, s: State, data: seq<Byte>, from: Addr, env: Env): (r: State)
    requires s.Valid(o) && |data| == SNTP_MSG_LEN
    ensures r.Valid(o)
  {
    var credited := Credit(s, data, from, env);
    if s.mode == Poll then Reschedule(o, credited) else credited
  }

  function Reschedule(o: Options, s: State): State {
    s.CancelNext().CancelRequest().ResetTimeout(o).ArmRequest(o.updateDelay)
  }

  function Receive(o: Options, s: State, data: seq<Byte>, from: Addr, port: nat, env: Env): (r: State)
    requires s.Valid(o)
    ensures r.Valid(o)
  {
    match Classify(s, data, from, port)
    case Correct => Accept(o, s, data, from, env)
    case KissOfDeath => if s.mode == Poll then TryNext(o, s.Observe(Kissed), env) else s
    case Ignored => s
  }

  function DnsFoundStep(o: Options, s: State, answer: Option<Addr>, env: Env): (r: State)
    requires s.Valid(o)
    ensures r.Valid(o)
  {
    match answer
    case Some(addr) => SendRequest(o, s.SetAddr(addr), addr, env)
    case None => TryNext(o, s, env)
  }

  function InitStep(o: Options, s: State, pcb: bool, env: Env): (r: State)
    requires s.Valid(o)
    ensures r.Valid(o)
  {
    if s.open || !pcb then s
    else if s.mode == Poll then
      var started := s.(open := true).Observe(Started).ResetTimeout(o);
      if o.startupDelay then started.ArmRequest(env.startupDelay) else Request(o, started, env)
    else s.(open := true)
  }

  function Cleared(servers: seq<Server>): seq<Server> {
    seq(|servers|, i requires 0 <= i < |servers| => servers[i].(reachability := 0))
  }

  function StopStep(o: Options, s: State): (r: State)
    requires s.Valid(o)
    ensures r.Valid(o)
  {
    if s.open then
      s.(servers := Cleared(s.servers), open := false).CancelRequest().CancelNext().Observe(Stopped)
    else s
  }

  function SetServerStep(s: State, idx: nat, addr: Option<Addr>): State {
    if idx < |s.servers| then
      var a := if addr.Some? then addr.value else IP_ADDR_ANY;
      s.(servers := s.servers[idx := s.servers[idx].(addr := a, name := None)])
    else s
  }

  function SetServerNameStep(s: State, idx: nat, name: Option<string>): State {
    if idx < |s.servers| then s.(servers := s.servers[idx := s.servers[idx].(name := name)]) else s
  }

  // ----- Runs -----

  datatype Event =
    | Init(pcb: bool, env: Env)
    | Stop
    | RequestTimer(env: Env)
    | NextTimer(env: Env)
    | DnsFound(answer: Option<Addr>, env: Env)
    | Packet(data: seq<Byte>, from: Addr, port: nat, env: Env)
    | SetServer(idx: nat, addr: Option<Addr>)
    | SetServerName(idx: nat, name: Option<string>)
    | SetMode(mode: Mode)
    | TimePasses(ms: nat)

  /**
   When an event can happen. A callback needs its timer, query or socket; a successful DNS answer is never the
   "any" address; the operating mode must not be set while the client runs.
   */
  predicate Enabled(s: State, e: Event) {
    match e
    case RequestTimer(_) => s.requestDue != []
    case NextTimer(_) => s.nextDue != []
    case DnsFound(answer, _) => s.dns > 0 && answer != Some(IP_ADDR_ANY)
    case Packet(_, _, _, _) => s.open
    case SetMode(_) => !s.open
    case _ => true
  }

  /** The event is the arrival of a packet that will be accepted. */
  predicate WillAccept(s: State, e: Event) {
    Enabled(s, e) && e.Packet? && Classify(s, e.data, e.from, e.port) == Correct
  }

  /** The event is the arrival of a Kiss-o'-Death that a polling client heeds. */
  predicate Kisses(s: State, e: Event) {
    Enabled(s, e) && e.Packet? && s.mode == Poll && Classify(s, e.data, e.from, e.port) == KissOfDeath
  }

  /** The events that look for another server: a receive timeout, a failed DNS query, a kiss. */
  predicate LooksFurther(s: State, e: Event) {
    Enabled(s, e) && (e.NextTimer? || (e.DnsFound? && e.answer.None?) || Kisses(s, e))
  }

  /** The events that change the configuration of the server table. */
  predicate SetsTable(e: Event) {
    e.SetServer? || e.SetServerName?
  }

  /** One event; a fired timer has left the list, a finished query is no longer outstanding. */
  function Step(o: Options, s: State, e: Event): (r: State)
    requires s.Valid(o)
    ensures r.Valid(o)
  {
    if !Enabled(s, e) then s else
    match e
    case Init(pcb, env) => InitStep(o, s, pcb, env)
    case Stop => StopStep(o, s)
    case RequestTimer(env) => Request(o, s.CancelRequest(), env)
    case NextTimer(env) => TryNext(o, s.CancelNext(), env)
    case DnsFound(answer, env) => DnsFoundStep(o, s.(dns := s.dns - 1), answer, env)
    case Packet(data, from, port, env) => Receive(o, s, data, from, port, env)
    case SetServer(idx, addr) => SetServerStep(s, idx, addr)
    case SetServerName(idx, name) => SetServerNameStep(s, idx, name)
    case SetMode(mode) => s.(mode := mode)
    case TimePasses(ms) => s.(now := s.now + ms)
  }

  /** Starting to poll: the first request is made at once, or after the startup delay. */
  lemma StartStep(o: Options, s: State, e: Event)
    requires s.Valid(o) && e.Init? && e.pcb && !s.open && s.mode == Poll
    ensures var started := s.(open := true, retryTimeout := o.retryTimeout, trace := s.trace + [Started] + [Reset]);
            Step(o, s, e) ==
            if o.startupDelay then started.ArmRequest(e.env.startupDelay) else Request(o, started, e.env)
  {
    var started := s.(open := true, retryTimeout := o.retryTimeout, trace := s.trace + [Started] + [Reset]);
    assert s.(open := true).Observe(Started).ResetTimeout(o) == started;
  }

  lemma QueryStep(o: Options, s: State, e: Event)
    requires s.Valid(o) && e.DnsFound? && Enabled(s, e)
    ensures Step(o, s, e) == DnsFoundStep(o, s.(dns := s.dns - 1), e.answer, e.env)
  {
    match e
    case DnsFound(answer, env) => assert Step(o, s, e) == DnsFoundStep(o, s.(dns := s.dns - 1), answer, env);
  }

  lemma PacketStep(o: Options, s: State, e: Event)
    requires s.Valid(o) && e.Packet? && Enabled(s, e)
    ensures Step(o, s, e) == Receive(o, s, e.data, e.from, e.port, e.env)
    ensures WillAccept(s, e) ==> |e.data| == SNTP_MSG_LEN && Step(o, s, e) == Accept(o, s, e.data, e.from, e.env)
    ensures Kisses(s, e) ==> Step(o, s, e) == TryNext(o, s.Observe(Kissed), e.env)
    ensures !WillAccept(s, e) && !Kisses(s, e) ==> Step(o, s, e) == s
  {
  }

  /** A run; an event that cannot happen where it stands leaves the state as it is. */
  function Exec(o: Options, s: State, es: seq<Event>): (r: State)
    requires s.Valid(o)
    ensures r.Valid(o)
    decreases |es|
  {
    if es == [] then s else Step(o, Exec(o, s, es[..|es| - 1]), es[|es| - 1])
  }

  lemma {:induction false} ExecAppend(o: Options, s: State, first: seq<Event>, second: seq<Event>)
    requires s.Valid(o)
    ensures Exec(o, s, first + second) == Exec(o, Exec(o, s, first), second)
    decreases |second|
  {
    if second == [] {
      assert first + second == first;
    } else {
      ExecAppend(o, s, first, second[..|second| - 1]);
      assert (first + second)[..|first + second| - 1] == first + second[..|second| - 1];
    }
  }

  lemma ExecLast(o: Options, s: State, es: seq<Event>, e: Event)
    requires s.Valid(o)
    ensures Exec(o, s, es + [e]) == Step(o, Exec(o, s, es), e)
  {
    assert (es + [e])[..|es|] == es;
  }

  lemma ExecOne(o: Options, s: State, e: Event)
    requires s.Valid(o)
    ensures Exec(o, s, [e]) == Step(o, s, e)
  {
    assert [e][..0] == [];
  }

  lemma ExecTwo(o: Options, s: State, a: Event, b: Event)
    requires s.Valid(o)
    ensures Exec(o, s, [a, b]) == Step(o, Step(o, s, a), b)
  {
    assert [a, b][..1] == [a];
    ExecOne(o, s, a);
  }

  /** The zero-initialised static variables. */
  function PowerUp(o: Options): (s: State)
    ensures s.Valid(o)
  {
    var servers := seq(o.maxServers, _ => Server(None, IP_ADDR_ANY, 0));
    State(Poll, false, servers, 0, 0, IP_ADDR_ANY, NO_TIME, [], [], 0, 0, [])
  }
}
