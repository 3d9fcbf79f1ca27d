/** Which responses are believed: those that answer the last request, and all of those. */
module SntpOriginate {
  import opened CInt
  import opened SntpActions
  import opened SntpModel
  import opened SntpPacket
  import opened SntpProcess
  import opened SntpTime
  import opened Wrappers

  /** The most recent request in a trace. */
  function LastRequest(trace: seq<Obs>): (r: Option<Obs>)
    ensures r.Some? ==> r.value.Sent?
  {
    if trace == [] then None
    else if trace[|trace| - 1].Sent? then Some(trace[|trace| - 1])
    else LastRequest(trace[..|trace| - 1])
  }

  lemma LastRequestAppend(trace: seq<Obs>, obs: Obs)
    ensures LastRequest(trace + [obs]) == if obs.Sent? then Some(obs) else LastRequest(trace)
  {
    assert (trace + [obs])[..|trace|] == trace;
  }

  /** The client remembers where its last request went and the timestamp it carried. */
  predicate Remembers(v: View) {
    match LastRequest(v.trace)
    case None => v.lastStamp == NO_TIME && v.lastAddr == IP_ADDR_ANY
    case Some(r) =>
      && r.message == RequestMessage(StampOf(r.clock))
      && v.lastStamp == StampOf(r.clock)
      && r.dest == v.lastAddr
  }

  /** The bytes a packet must echo, and the address a polled one must come from: those of the last request, if any. */
  function EchoBytes(trace: seq<Obs>): seq<Byte> {
    match LastRequest(trace)
    case None => [0, 0, 0, 0, 0, 0, 0, 0]
    case Some(r) => if |r.message| == 48 then r.message[40..48] else []
  }

  function AskedAddr(trace: seq<Obs>): Addr {
    match LastRequest(trace)
    case None => 0
    case Some(r) => r.dest
  }

  /**
   An accepted packet is a reply with a non-zero stratum, echoes bytes 40..47 of the last request in its bytes 24..31
   and, when polled, comes from that request's destination.
   */
  predicate Genuine(before: seq<Obs>, a: Obs)
    requires a.Accepted?
  {
    && |a.packet| == 48
    && a.packet[0] % 8 == (if a.mode == Poll then 4 else 5)
    && a.packet[1] != 0
    && a.packet[24..32] == EchoBytes(before)
    && (a.mode == Poll ==> a.from == AskedAddr(before))
    && Prepared(before)
  }

  /** The last request is one prepared at the clock reading recorded with it. */
  predicate Prepared(trace: seq<Obs>) {
    match LastRequest(trace)
    case None => true
    case Some(r) => r.message == RequestMessage(StampOf(r.clock))
  }

  /** The stamp the client remembers is what those bytes hold. */
  lemma EchoMeaning(v: View, data: seq<Byte>)
    requires Remembers(v) && |data| == 48
    ensures ExtractTimestamps(data).orig == v.lastStamp <==> data[24..32] == EchoBytes(v.trace)
    ensures AskedAddr(v.trace) == v.lastAddr
  {
    match LastRequest(v.trace)
    case None => ZeroEcho(data);
    case Some(r) =>
      RequestStamp(StampOf(r.clock));
      TimesEqualBytes(data, 24, r.message, 40);
  }

  lemma ZerosJoin(a: seq<Byte>, b: seq<Byte>)
    requires |a| == |b| == 4
    ensures a + b == [0, 0, 0, 0, 0, 0, 0, 0] <==> a == [0, 0, 0, 0] && b == [0, 0, 0, 0]
  {
    if a + b == [0, 0, 0, 0, 0, 0, 0, 0] {
      assert a == (a + b)[..4] && b == (a + b)[4..];
    }
  }

  lemma ZeroEcho(data: seq<Byte>)
    requires |data| == 48
    ensures TimeAt(data, 24) == NO_TIME <==> data[24..32] == [0, 0, 0, 0, 0, 0, 0, 0]
  {
    var a, b := data[24..28], data[28..32];
    ZeroWords(TimeAt(data, 24), a, b);
    ZerosJoin(a, b);
    assert data[24..32] == a + b;
  }

  lemma ZeroWords(t: NetTime, a: seq<Byte>, b: seq<Byte>)
    requires |a| == |b| == 4 && t == NetTime(Load(a), Load(b))
    ensures t == NO_TIME <==> a == [0, 0, 0, 0] && b == [0, 0, 0, 0]
  {
    LoadZero(a);
    LoadZero(b);
    TimeZero(t, a, b, Load(a), Load(b));
  }

  lemma TimeZero(t: NetTime, a: seq<Byte>, b: seq<Byte>, x: U32, y: U32)
    requires t == NetTime(x, y)
    requires (x == 0 <==> a == [0, 0, 0, 0]) && (y == 0 <==> b == [0, 0, 0, 0])
    ensures t == NO_TIME <==> a == [0, 0, 0, 0] && b == [0, 0, 0, 0]
  {
  }

  ghost predicate AllGenuine(trace: seq<Obs>) {
    forall j :: 0 <= j < |trace| && trace[j].Accepted? ==> Genuine(trace[..j], trace[j])
  }

  lemma AllGenuineAppend(trace: seq<Obs>, obs: Obs)
    requires AllGenuine(trace)
    requires obs.Accepted? ==> Genuine(trace, obs)
    ensures AllGenuine(trace + [obs])
  {
    forall j | 0 <= j < |trace + [obs]| && (trace + [obs])[j].Accepted?
      ensures Genuine((trace + [obs])[..j], (trace + [obs])[j])
    {
      assert (trace + [obs])[..j] == trace[..j];
      assert trace[..|trace|] == trace;
    }
  }

  lemma AnswerIsGenuine(v: View, a: Action)
    requires a.Answer? && Allowed(v, a) && Remembers(v)
    ensures Genuine(v.trace, Accepted(a.server, a.from, a.packet, a.mode, a.timerless, a.clock, a.at))
  {
    EchoMeaning(v, a.packet);
  }

  lemma {:induction false} PathKeepsGenuine(o: Options, v: View, actions: seq<Action>, w: View)
    requires Path(o, v, actions, w)
    requires Remembers(v) && AllGenuine(v.trace)
    ensures Remembers(w) && AllGenuine(w.trace)
    decreases |actions|
  {
    if actions == [] {
    } else {
      ActKeepsGenuine(o, v, actions[0]);
      PathKeepsGenuine(o, Act(o, v, actions[0]), actions[1..], w);
    }
  }

  lemma ActKeepsGenuine(o: Options, v: View, a: Action)
    requires Allowed(v, a) && Remembers(v) && AllGenuine(v.trace)
    ensures Remembers(Act(o, v, a)) && AllGenuine(Act(o, v, a).trace)
  {
    var obs := Act(o, v, a).trace[|v.trace|];
    LastRequestAppend(v.trace, obs);
    if a.Send? {
      RequestStamp(StampOf(a.clock));
    }
    if a.Answer? {
      AnswerIsGenuine(v, a);
    }
    AllGenuineAppend(v.trace, obs);
  }

  /** Sections 4 and 5 of RFC 4330, over every run: only echoes of the last request are accepted. */
  lemma AcceptedAreGenuine(o: Options, es: seq<Event>)
    ensures Remembers(ViewOf(Exec(o, PowerUp(o), es)))
    ensures AllGenuine(Exec(o, PowerUp(o), es).trace)
  {
    var actions := ExecPath(o, PowerUp(o), es);
    PathKeepsGenuine(o, ViewOf(PowerUp(o)), actions, ViewOf(Exec(o, PowerUp(o), es)));
  }

  /** On the wire: 48 bytes from port 123, of the mode that is waited for and, when polled, from the address asked. */
  predicate Expected(s: State, data: seq<Byte>, from: Addr, port: nat) {
    && |data| == 48 && port == 123
    && (s.mode == Poll ==> data[0] % 8 == 4 && from == AskedAddr(s.trace))
    && (s.mode == ListenOnly ==> data[0] % 8 == 5)
  }

  /**
   Section 4 of RFC 4330, after any run and in both modes: a packet is accepted exactly if it is expected, has a
   non-zero stratum and echoes the last request, and is a Kiss-o'-Death exactly if it is expected and has stratum zero.
   */
  lemma AcceptedExactly(o: Options, es: seq<Event>, data: seq<Byte>, from: Addr, port: nat)
    ensures var s := Exec(o, PowerUp(o), es);
            && (Classify(s, data, from, port) == Correct <==>
                Expected(s, data, from, port) && data[1] != 0 && data[24..32] == EchoBytes(s.trace))
            && (Classify(s, data, from, port) == KissOfDeath <==>
                Expected(s, data, from, port) && data[1] == 0)
  {
    AcceptedAreGenuine(o, es);
    ClassifiedExactly(Exec(o, PowerUp(o), es), data, from, port);
  }

  lemma ClassifiedExactly(s: State, data: seq<Byte>, from: Addr, port: nat)
    requires Remembers(ViewOf(s))
    ensures Classify(s, data, from, port) == Correct <==>
            Expected(s, data, from, port) && data[1] != 0 && data[24..32] == EchoBytes(s.trace)
    ensures Classify(s, data, from, port) == KissOfDeath <==> Expected(s, data, from, port) && data[1] == 0
  {
    if |data| == 48 {
      EchoMeaning(ViewOf(s), data);
    }
  }

  /** Conversely: after any run, a polled server's 48-byte answer that echoes the last request is accepted. */
  lemma GenuineIsAccepted(o: Options, es: seq<Event>, data: seq<Byte>)
    requires var s := Exec(o, PowerUp(o), es);
             s.mode == Poll && LastRequest(s.trace).Some? &&
             |LastRequest(s.trace).value.message| == 48 &&
             |data| == 48 &&
             data[24..32] == LastRequest(s.trace).value.message[40..48]
    requires data[0] % 8 == 4 && data[1] != 0
    ensures var s := Exec(o, PowerUp(o), es);
            Classify(s, data, LastRequest(s.trace).value.dest, 123) == Correct
  {
    AcceptedExactly(o, es, data, LastRequest(Exec(o, PowerUp(o), es).trace).value.dest, 123);
  }

  /** Packets of another length, port or, when polled, address change nothing at all. */
  lemma ForeignPacketsIgnored(o: Options, s: State, data: seq<Byte>, from: Addr, port: nat, env: Env)
    requires s.Valid(o)
    requires |data| != 48 || port != 123 || (s.mode == Poll && from != s.lastAddr)
    ensures Receive(o, s, data, from, port, env) == s
  {
  }

  /** The echoed timestamp decodes to the client's own clock when it prepared the request. */
  lemma EchoDecodes(clock: Clock, data: seq<Byte>)
    requires |data| == SNTP_MSG_LEN
    requires data[24..32] == RequestMessage(StampOf(clock))[40..48]
    ensures Decoded(ExtractTimestamps(data).orig) == LocalTime(clock)
  {
    RequestStamp(StampOf(clock));
    TimesEqualBytes(data, 24, RequestMessage(StampOf(clock)), 40);
    StampDecodes(clock);
  }
}
