/**
 The client seen from outside, as a simpler machine: every step of the client is a short path of a few kinds of
 actions on its view. What the view keeps under each action therefore holds over every run of the client.
 */
module SntpActions {
  import opened CInt
  import opened SntpModel
  import opened SntpPacket
  import opened SntpProcess
  import opened SntpTime
  import opened Wrappers

  datatype View = View(
    retryTimeout: U32, lastAddr: Addr, lastStamp: NetTime, registers: seq<bv8>, trace: seq<Obs>)

  function Registers(servers: seq<Server>): (r: seq<bv8>)
    ensures |r| == |servers|
  {
    seq(|servers|, i requires 0 <= i < |servers| => servers[i].reachability)
  }

  function ViewOf(s: State): View {
    View(s.retryTimeout, s.lastAddr, s.lastStamp, Registers(s.servers), s.trace)
  }

  datatype Action =
    | ResetBackoff
    | Backoff
    | Send(server: nat, dest: Addr, at: int, clock: Clock, socket: bool)
    | Answer(server: nat, from: Addr, packet: seq<Byte>, mode: Mode, timerless: bool, clock: Clock, at: int)
    | Clear
    | Note(obs: Obs)

  /** The mode field of the packets a mode waits for: server or broadcast (section 4 of RFC 4330). */
  function ReplyMode(mode: Mode): int {
    if mode == Poll then 4 else 5
  }

  /** An answer is only ever taken from the last address asked, and carries the last stamp sent. */
  predicate Allowed(v: View, a: Action) {
    match a
    case Send(server, _, _, _, _) => server < |v.registers|
    case Answer(server, from, packet, mode, _, _, _) =>
      && server < |v.registers|
      && |packet| == 48
      && TimeAt(packet, 24) == v.lastStamp
      && (mode == Poll ==> from == v.lastAddr)
      && packet[0] % 8 == ReplyMode(mode)
      && packet[1] != 0
    case Note(obs) => obs == Started || obs == Kissed || obs.ClockSet? || obs.Queried?
    case _ => true
  }

  function Seen(v: View, obs: Obs): View {
    v.(trace := v.trace + [obs])
  }

  function Act(o: Options, v: View, a: Action): View
    requires Allowed(v, a)
  {
    match a
    case ResetBackoff => Seen(v.(retryTimeout := o.retryTimeout), Reset)
    case Backoff => Seen(v.(retryTimeout := DoubledTimeout(o, v.retryTimeout)), Retried)
    case Send(server, dest, at, clock, socket) =>
      var stamp := StampOf(clock);
      Seen(v.(lastStamp := stamp, lastAddr := dest, registers := v.registers[server := v.registers[server] << 1]),
           Sent(server, dest, RequestMessage(stamp), at, clock, socket))
    case Answer(server, from, packet, mode, timerless, clock, at) =>
      Seen(v.(registers := v.registers[server := v.registers[server] | 1]),
           Accepted(server, from, packet, mode, timerless, clock, at))
    case Clear => Seen(v.(registers := seq(|v.registers|, _ => 0)), Stopped)
    case Note(obs) => Seen(v, obs)
  }

  ghost predicate Path(o: Options, v: View, actions: seq<Action>, w: View)
    decreases |actions|
  {
    if actions == [] then v == w
    else Allowed(v, actions[0]) && Path(o, Act(o, v, actions[0]), actions[1..], w)
  }

  /** Actions that take no answer and do not set the clock. */
  predicate Answerless(actions: seq<Action>) {
    forall i :: 0 <= i < |actions| ==> !actions[i].Answer? && !(actions[i].Note? && actions[i].obs.ClockSet?)
  }

  lemma {:induction false} PathJoins(o: Options, u: View, first: seq<Action>, v: View, second: seq<Action>, w: View)
    requires Path(o, u, first, v) && Path(o, v, second, w)
    ensures Path(o, u, first + second, w)
    decreases |first|
  {
    if first == [] {
      assert first + second == second;
    } else {
      PathJoins(o, Act(o, u, first[0]), first[1..], v, second, w);
      assert (first + second)[1..] == first[1..] + second;
    }
  }

  lemma OneAction(o: Options, v: View, a: Action)
    requires Allowed(v, a)
    ensures Path(o, v, [a], Act(o, v, a))
  {
    assert [a][1..] == [];
  }

  // ----- Every handler is a path -----

  lemma AddrUnseen(s: State, addr: Addr)
    requires s.current < |s.servers|
    ensures ViewOf(s.SetAddr(addr)) == ViewOf(s)
  {
    assert Registers(s.SetAddr(addr).servers) == Registers(s.servers);
  }

  lemma SendPath(o: Options, s: State, dest: Addr, env: Env) returns (actions: seq<Action>)
    requires s.Valid(o)
    ensures Path(o, ViewOf(s), actions, ViewOf(SendRequest(o, s, dest, env)))
    ensures Answerless(actions)
  {
    actions := [];
    if env.haveBuffer {
      actions := TransmitPath(o, s, dest, env.clock);
    }
  }

  lemma TransmitPath(o: Options, s: State, dest: Addr, clock: Clock) returns (actions: seq<Action>)
    requires s.Valid(o)
    ensures Path(o, ViewOf(s), actions, ViewOf(Transmit(o, s, dest, clock)))
    ensures Answerless(actions)
  {
    var send := Send(s.current, dest, s.now, clock, s.open);
    OneAction(o, ViewOf(s), send);
    actions := [send];
    assert ViewOf(Transmit(o, s, dest, clock)).registers == Act(o, ViewOf(s), send).registers;
  }

  lemma RequestPath(o: Options, s: State, env: Env) returns (actions: seq<Action>)
    requires s.Valid(o)
    ensures Path(o, ViewOf(s), actions, ViewOf(Request(o, s, env)))
    ensures Answerless(actions)
  {
    actions := [];
    var sv := s.servers[s.current];
    if sv.name.Some? {
      var query := Note(Queried(s.current, sv.name.value));
      var asking := s.SetAddr(IP_ADDR_ANY).Observe(Queried(s.current, sv.name.value));
      AddrUnseen(s, IP_ADDR_ANY);
      OneAction(o, ViewOf(s), query);
      actions := [query];
      if env.dns.Resolved? {
        AddrUnseen(asking, env.dns.addr);
        var rest := SendPath(o, asking.SetAddr(env.dns.addr), env.dns.addr, env);
        PathJoins(o, ViewOf(s), [query], ViewOf(asking), rest, ViewOf(Request(o, s, env)));
        actions := [query] + rest;
      }
    } else if sv.addr != IP_ADDR_ANY {
      actions := SendPath(o, s, sv.addr, env);
    }
  }

  lemma TryNextPath(o: Options, s: State, env: Env) returns (actions: seq<Action>)
    requires s.Valid(o)
    ensures Path(o, ViewOf(s), actions, ViewOf(TryNext(o, s, env)))
    ensures Answerless(actions)
  {
    match NextServer(s.servers, s.current)
    case Some(next) =>
      FirstConfiguredInRange(s.servers, s.current, 1);
      var moved := s.(current := next).ResetTimeout(o);
      OneAction(o, ViewOf(s), ResetBackoff);
      var rest := RequestPath(o, moved, env);
      PathJoins(o, ViewOf(s), [ResetBackoff], ViewOf(moved), rest, ViewOf(Request(o, moved, env)));
      actions := [ResetBackoff] + rest;
    case None =>
      OneAction(o, ViewOf(s), Backoff);
      actions := [Backoff];
  }

  lemma CreditSeen(o: Options, s: State, data: seq<Byte>, from: Addr, env: Env)
    requires s.Valid(o) && |data| == SNTP_MSG_LEN
    ensures var v := ViewOf(s);
            ViewOf(Credit(s, data, from, env)) ==
            Seen(Seen(v, HookCall(data, env.clock)), Crediting(s, data, from, env.clock)).(
              registers := v.registers[s.current := v.registers[s.current] | 1])
  {
    var v := ViewOf(s);
    assert Registers(Credit(s, data, from, env).servers) == v.registers[s.current := v.registers[s.current] | 1];
  }

  lemma CreditPath(o: Options, s: State, data: seq<Byte>, from: Addr, env: Env) returns (actions: seq<Action>)
    requires s.Valid(o) && |data| == SNTP_MSG_LEN
    requires TimeAt(data, SNTP_OFFSET_ORIGINATE_TIME) == s.lastStamp && (s.mode == Poll ==> from == s.lastAddr)
    requires data[0] % 8 == ReplyMode(s.mode) && data[1] != SNTP_STRATUM_KOD
    ensures Path(o, ViewOf(s), actions, ViewOf(Credit(s, data, from, env)))
  {
    var hook := Note(HookCall(data, env.clock));
    var answer := Answer(s.current, from, data, s.mode, s.requestDue == [] && s.nextDue == [], env.clock, s.now);
    var v := ViewOf(s);
    var hooked := Act(o, v, hook);
    OneAction(o, v, hook);
    OneAction(o, hooked, answer);
    PathJoins(o, v, [hook], hooked, [answer], Act(o, hooked, answer));
    actions := [hook] + [answer];
    CreditSeen(o, s, data, from, env);
  }

  lemma AcceptPath(o: Options, s: State, data: seq<Byte>, from: Addr, env: Env) returns (actions: seq<Action>)
    requires s.Valid(o) && |data| == SNTP_MSG_LEN
    requires TimeAt(data, SNTP_OFFSET_ORIGINATE_TIME) == s.lastStamp && (s.mode == Poll ==> from == s.lastAddr)
    requires data[0] % 8 == ReplyMode(s.mode) && data[1] != SNTP_STRATUM_KOD
    ensures Path(o, ViewOf(s), actions, ViewOf(Accept(o, s, data, from, env)))
  {
    actions := CreditPath(o, s, data, from, env);
    if s.mode == Poll {
      var credited := Credit(s, data, from, env);
      OneAction(o, ViewOf(credited), ResetBackoff);
      PathJoins(o, ViewOf(s), actions, ViewOf(credited), [ResetBackoff], ViewOf(Reschedule(o, credited)));
      actions := actions + [ResetBackoff];
    }
  }

  lemma ReceivePath(o: Options, s: State, data: seq<Byte>, from: Addr, port: nat, env: Env)
    returns (actions: seq<Action>)
    requires s.Valid(o)
    ensures Path(o, ViewOf(s), actions, ViewOf(Receive(o, s, data, from, port, env)))
    ensures Classify(s, data, from, port) == Correct || Answerless(actions)
  {
    actions := [];
    match Classify(s, data, from, port)
    case Correct => actions := AcceptPath(o, s, data, from, env);
    case Ignored =>
    case KissOfDeath =>
      if s.mode == Poll {
        var kissed := s.Observe(Kissed);
        OneAction(o, ViewOf(s), Note(Kissed));
        var rest := TryNextPath(o, kissed, env);
        PathJoins(o, ViewOf(s), [Note(Kissed)], ViewOf(kissed), rest, ViewOf(TryNext(o, kissed, env)));
        actions := [Note(Kissed)] + rest;
      }
  }

  lemma InitPath(o: Options, s: State, pcb: bool, env: Env) returns (actions: seq<Action>)
    requires s.Valid(o)
    ensures Path(o, ViewOf(s), actions, ViewOf(InitStep(o, s, pcb, env)))
    ensures Answerless(actions)
  {
    actions := [];
    if !s.open && pcb && s.mode == Poll {
      var v := ViewOf(s);
      var noted := Act(o, v, Note(Started));
      var started := s.(open := true).Observe(Started).ResetTimeout(o);
      OneAction(o, v, Note(Started));
      OneAction(o, noted, ResetBackoff);
      PathJoins(o, v, [Note(Started)], noted, [ResetBackoff], ViewOf(started));
      actions := [Note(Started)] + [ResetBackoff];
      if !o.startupDelay {
        var rest := RequestPath(o, started, env);
        PathJoins(o, v, actions, ViewOf(started), rest, ViewOf(Request(o, started, env)));
        actions := actions + rest;
      }
    }
  }

  lemma DnsFoundPath(o: Options, s: State, answer: Option<Addr>, env: Env) returns (actions: seq<Action>)
    requires s.Valid(o)
    ensures Path(o, ViewOf(s), actions, ViewOf(DnsFoundStep(o, s, answer, env)))
    ensures Answerless(actions)
  {
    match answer
    case Some(addr) => AddrUnseen(s, addr); actions := SendPath(o, s.SetAddr(addr), addr, env);
    case None => actions := TryNextPath(o, s, env);
  }

  /** Every event is a path of allowed actions. */
  lemma StepPath(o: Options, s: State, e: Event) returns (actions: seq<Action>)
    requires s.Valid(o)
    ensures Path(o, ViewOf(s), actions, ViewOf(Step(o, s, e)))
    ensures WillAccept(s, e) || Answerless(actions)
  {
    actions := [];
    if Enabled(s, e) {
      match e
      case Init(pcb, env) => actions := InitPath(o, s, pcb, env);
      case Stop => actions := StopPath(o, s);
      case RequestTimer(_) => actions := TimerPath(o, s, e);
      case NextTimer(_) => actions := TimerPath(o, s, e);
      case DnsFound(_, _) => actions := QueryPath(o, s, e);
      case Packet(data, from, port, env) => actions := ReceivePath(o, s, data, from, port, env);
      case _ => SettingUnseen(o, s, e);
    }
  }

  lemma TimerPath(o: Options, s: State, e: Event) returns (actions: seq<Action>)
    requires s.Valid(o) && Enabled(s, e) && (e.RequestTimer? || e.NextTimer?)
    ensures Path(o, ViewOf(s), actions, ViewOf(Step(o, s, e)))
    ensures Answerless(actions)
  {
    match e
    case RequestTimer(env) => actions := RequestPath(o, s.CancelRequest(), env);
    case NextTimer(env) => actions := TryNextPath(o, s.CancelNext(), env);
  }

  lemma QueryPath(o: Options, s: State, e: Event) returns (actions: seq<Action>)
    requires s.Valid(o) && Enabled(s, e) && e.DnsFound?
    ensures Path(o, ViewOf(s), actions, ViewOf(Step(o, s, e)))
    ensures Answerless(actions)
  {
    QueryStep(o, s, e);
    actions := DnsFoundPath(o, s.(dns := s.dns - 1), e.answer, e.env);
  }

  /** Table setters, the choice of a mode and the passing of time are not seen. */
  lemma SettingUnseen(o: Options, s: State, e: Event)
    requires s.Valid(o)
    requires e.SetServer? || e.SetServerName? || e.SetMode? || e.TimePasses?
    ensures ViewOf(Step(o, s, e)) == ViewOf(s)
  {
    assert Registers(Step(o, s, e).servers) == Registers(s.servers);
  }

  lemma StopPath(o: Options, s: State) returns (actions: seq<Action>)
    requires s.Valid(o)
    ensures Path(o, ViewOf(s), actions, ViewOf(StopStep(o, s)))
    ensures Answerless(actions)
  {
    actions := [];
    if s.open {
      OneAction(o, ViewOf(s), Clear);
      actions := [Clear];
      assert ViewOf(StopStep(o, s)).registers == Act(o, ViewOf(s), Clear).registers;
    }
  }

  /** Every run is one. */
  lemma {:induction false} ExecPath(o: Options, s: State, es: seq<Event>) returns (actions: seq<Action>)
    requires s.Valid(o)
    ensures Path(o, ViewOf(s), actions, ViewOf(Exec(o, s, es)))
  {
    actions := [];
    if es != [] {
      var before := Exec(o, s, es[..|es| - 1]);
      var front := ExecPath(o, s, es[..|es| - 1]);
      var last := StepPath(o, before, es[|es| - 1]);
      PathJoins(o, ViewOf(s), front, ViewOf(before), last, ViewOf(Exec(o, s, es)));
      actions := front + last;
    }
  }

  /** An accepted packet is observed as the hook call, then the credit and, when polled, the reset of the backoff. */
  lemma AcceptTrace(o: Options, s: State, e: Event)
    requires s.Valid(o) && WillAccept(s, e)
    ensures |e.data| == SNTP_MSG_LEN
    ensures Step(o, s, e).trace ==
            s.trace + [HookCall(e.data, e.env.clock)] + [Crediting(s, e.data, e.from, e.env.clock)] +
            if s.mode == Poll then [Reset] else []
  {
    PacketStep(o, s, e);
    var credited := Credit(s, e.data, e.from, e.env);
    assert credited.mode == s.mode;
    assert credited.trace ==
           s.trace + [HookCall(e.data, e.env.clock)] + [Crediting(s, e.data, e.from, e.env.clock)];
    assert credited.trace + [] == credited.trace;
  }

  // ----- Traces only grow -----

  lemma {:induction false} PathExtendsTrace(o: Options, v: View, actions: seq<Action>, w: View)
    requires Path(o, v, actions, w)
    ensures v.trace <= w.trace
    decreases |actions|
  {
    if actions == [] {
    } else {
      PathExtendsTrace(o, Act(o, v, actions[0]), actions[1..], w);
    }
  }

  lemma StepExtendsTrace(o: Options, s: State, e: Event)
    requires s.Valid(o)
    ensures s.trace <= Step(o, s, e).trace
  {
    var actions := StepPath(o, s, e);
    PathExtendsTrace(o, ViewOf(s), actions, ViewOf(Step(o, s, e)));
  }
}
