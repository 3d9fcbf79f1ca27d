/** To which server an accepted response is credited. */
module SntpCredit {
  import opened CInt
  import SntpActions
  import opened SntpModel
  import opened SntpPacket
  import opened SntpProcess
  import opened SntpServers
  import opened SntpStart
  import opened SntpTime
  import opened Wrappers

  predicate AddressOnly(servers: seq<Server>) {
    forall i :: 0 <= i < |servers| ==> servers[i].name.None?
  }

  predicate SameAddresses(a: seq<Server>, b: seq<Server>) {
    |a| == |b| && forall i :: 0 <= i < |a| ==> a[i].addr == b[i].addr
  }

  /** No request has been sent yet, or the last one went to the address of the current server. */
  predicate Matched(s: State)
    requires s.current < |s.servers|
  {
    s.lastAddr == IP_ADDR_ANY || s.lastAddr == s.servers[s.current].addr
  }

  /** If the event looks for another server, a buffer is there for the request, or that server has the same address. */
  predicate KeepsMatch(s: State, e: Event)
    requires s.current < |s.servers|
  {
    LooksFurther(s, e) ==>
      e.env.haveBuffer || s.servers[Move(s.servers, s.current)].addr == s.servers[s.current].addr
  }

  /** Responses taken in poll mode were credited to the server of a table that has their source address. */
  predicate CreditsMatch(trace: seq<Obs>, table: seq<Server>) {
    forall j :: 0 <= j < |trace| && trace[j].Accepted? && trace[j].mode == Poll && trace[j].from != IP_ADDR_ANY ==>
      trace[j].server < |table| && table[trace[j].server].addr == trace[j].from
  }

  predicate Tracks(o: Options, s: State, table: seq<Server>) {
    && s.Valid(o)
    && AddressOnly(s.servers)
    && SameAddresses(s.servers, table)
    && s.dns == 0
    && Matched(s)
    && CreditsMatch(s.trace, table)
  }

  // ----- When the current server stops matching -----

  lemma RequestMatches(o: Options, s: State, env: Env)
    requires s.Valid(o) && AddressOnly(s.servers)
    ensures var r := Request(o, s, env);
            && r.current == s.current && SameAddresses(r.servers, s.servers)
            && r.lastAddr ==
               if env.haveBuffer && s.servers[s.current].addr != IP_ADDR_ANY then s.servers[s.current].addr
               else s.lastAddr
  {
  }

  lemma TryNextMatches(o: Options, s: State, env: Env)
    requires s.Valid(o) && AddressOnly(s.servers) && Matched(s) && s.lastAddr != IP_ADDR_ANY
    ensures Matched(TryNext(o, s, env)) <==>
            env.haveBuffer || s.servers[Move(s.servers, s.current)].addr == s.servers[s.current].addr
  {
    NextServerMeaning(s.servers, s.current);
    match NextServer(s.servers, s.current)
    case Some(next) => RequestMatches(o, s.(current := next).ResetTimeout(o), env);
    case None =>
  }

  /**
   With servers given by address, an event that does not change the table keeps the current server the one last asked,
   exactly unless it looks for another server, finds one with another address, and has no buffer to ask it.
   */
  lemma MatchKeptExactly(o: Options, s: State, e: Event)
    requires s.Valid(o) && AddressOnly(s.servers) && Matched(s) && s.lastAddr != IP_ADDR_ANY
    requires !SetsTable(e) && (e.DnsFound? ==> e.answer.None?)
    ensures Matched(Step(o, s, e)) <==> KeepsMatch(s, e)
  {
    if Enabled(s, e) {
      match e
      case Init(_, env) => RequestMatches(o, s.(open := true).Observe(Started).ResetTimeout(o), env);
      case RequestTimer(env) => RequestMatches(o, s.CancelRequest(), env);
      case NextTimer(env) => TryNextMatches(o, s.CancelNext(), env);
      case DnsFound(_, env) => QueryStep(o, s, e); TryNextMatches(o, s.(dns := s.dns - 1), env);
      case Packet(_, _, _, env) => PacketMatches(o, s, e);
      case _ =>
    }
  }

  lemma PacketMatches(o: Options, s: State, e: Event)
    requires s.Valid(o) && AddressOnly(s.servers) && Matched(s) && s.lastAddr != IP_ADDR_ANY
    requires e.Packet? && Enabled(s, e)
    ensures Matched(Step(o, s, e)) <==> KeepsMatch(s, e)
  {
    PacketStep(o, s, e);
    if Kisses(s, e) {
      TryNextMatches(o, s.Observe(Kissed), e.env);
    }
  }

  // ----- Credits over runs -----

  lemma RequestTracks(o: Options, s: State, table: seq<Server>, env: Env)
    requires Tracks(o, s.(lastAddr := IP_ADDR_ANY), table)
    requires Matched(s) || (s.servers[s.current].Configured() && env.haveBuffer)
    ensures Tracks(o, Request(o, s, env), table)
  {
  }

  lemma TryNextTracks(o: Options, s: State, table: seq<Server>, env: Env)
    requires Tracks(o, s, table)
    requires env.haveBuffer || s.servers[Move(s.servers, s.current)].addr == s.servers[s.current].addr
    ensures Tracks(o, TryNext(o, s, env), table)
  {
    NextServerMeaning(s.servers, s.current);
    match NextServer(s.servers, s.current)
    case Some(next) =>
      var moved := s.(current := next).ResetTimeout(o);
      RequestTracks(o, moved, table, env);
    case None =>
  }

  lemma CreditTracks(o: Options, s: State, table: seq<Server>, data: seq<Byte>, from: Addr, env: Env)
    requires Tracks(o, s, table) && |data| == SNTP_MSG_LEN
    requires s.mode == Poll ==> from == s.lastAddr
    ensures Tracks(o, Credit(s, data, from, env), table)
  {
  }

  lemma StepTracks(o: Options, s: State, e: Event, table: seq<Server>)
    requires Tracks(o, s, table) && !SetsTable(e) && KeepsMatch(s, e)
    ensures Tracks(o, Step(o, s, e), table)
  {
    if Enabled(s, e) {
      match e
      case Init(_, env) => RequestTracks(o, s.(open := true).Observe(Started).ResetTimeout(o), table, env);
      case RequestTimer(env) => RequestTracks(o, s.CancelRequest(), table, env);
      case NextTimer(env) => TryNextTracks(o, s.CancelNext(), table, env);
      case Packet(_, _, _, _) => PacketTracks(o, s, table, e);
      case _ =>
    }
  }

  lemma PacketTracks(o: Options, s: State, table: seq<Server>, e: Event)
    requires Tracks(o, s, table) && e.Packet? && Enabled(s, e) && KeepsMatch(s, e)
    ensures Tracks(o, Step(o, s, e), table)
  {
    match Classify(s, e.data, e.from, e.port)
    case Correct => CreditTracks(o, s, table, e.data, e.from, e.env);
    case KissOfDeath =>
      if s.mode == Poll {
        TryNextTracks(o, s.Observe(Kissed), table, e.env);
      }
    case Ignored =>
  }

  /** Configuring a client before it runs: servers by address, and a mode. */
  predicate SetsUp(e: Event) {
    e.SetServer? || e.SetMode?
  }

  /** A run with a fixed table in which every search for another server keeps the match. */
  predicate MatchedRun(o: Options, s: State, es: seq<Event>)
    requires s.Valid(o)
    decreases |es|
  {
    es != [] ==>
      var front, last := es[..|es| - 1], es[|es| - 1];
      MatchedRun(o, s, front) && !SetsTable(last) && KeepsMatch(Exec(o, s, front), last)
  }

  lemma {:induction false} SetupTracks(o: Options, setup: seq<Event>)
    requires forall i :: 0 <= i < |setup| ==> SetsUp(setup[i])
    ensures var s := Exec(o, PowerUp(o), setup);
            && Tracks(o, s, s.servers) && s.lastAddr == IP_ADDR_ANY && s.trace == []
  {
    if setup == [] {
    } else {
      SetupTracks(o, setup[..|setup| - 1]);
      var last := setup[|setup| - 1];
      assert SetsUp(last);
    }
  }

  lemma {:induction false} RunTracks(o: Options, s: State, es: seq<Event>, table: seq<Server>)
    requires Tracks(o, s, table) && MatchedRun(o, s, es)
    ensures Tracks(o, Exec(o, s, es), table)
  {
    if es == [] {
    } else {
      RunTracks(o, s, es[..|es| - 1], table);
      StepTracks(o, Exec(o, s, es[..|es| - 1]), es[|es| - 1], table);
    }
  }

  /**
   From power-up, with a table of addresses that is then left alone: as long as every search for another server keeps
   the match, every polled response is credited to the server that has its source address.
   */
  lemma CreditedServerMatched(o: Options, setup: seq<Event>, es: seq<Event>)
    requires forall i :: 0 <= i < |setup| ==> SetsUp(setup[i])
    requires MatchedRun(o, Exec(o, PowerUp(o), setup), es)
    ensures var table := Exec(o, PowerUp(o), setup).servers;
            var s := Exec(o, PowerUp(o), setup + es);
            CreditsMatch(s.trace, table) && SameAddresses(s.servers, table) && Matched(s)
  {
    var ready := Exec(o, PowerUp(o), setup);
    SetupTracks(o, setup);
    RunTracks(o, ready, es, ready.servers);
    ExecAppend(o, PowerUp(o), setup, es);
  }

  // ----- A response credited to the wrong server -----

  lemma MovedWithoutAsking(o: Options, s: State, a: Addr, b: Addr, asked: Clock, poor: Env)
    requires Asked(o, s, a, b, asked) && b != IP_ADDR_ANY && !poor.haveBuffer
    ensures var r := Step(o, s, NextTimer(poor));
            && r.Valid(o) && TableOf(r.servers, a, b) && r.open && r.mode == Poll && r.current == 1
            && r.lastAddr == a && r.lastStamp == StampOf(asked)
  {
    SecondIsNext(s.servers, a, b);
  }

  lemma LateAnswerCounts(o: Options, s: State, a: Addr, b: Addr, ts: Timestamps, env: Env)
    requires s.Valid(o) && TableOf(s.servers, a, b) && s.open && s.mode == Poll && s.current == 1
    requires s.lastAddr == a && s.lastStamp == ts.orig
    ensures var r := Step(o, s, Packet(ReplyMessage(1, ts), a, SNTP_PORT, env));
            && SameAddresses(r.servers, s.servers)
            && |r.trace| == |s.trace| + 3
            && r.trace[|s.trace| + 1].Accepted?
            && r.trace[|s.trace| + 1].server == 1 && r.trace[|s.trace| + 1].from == a
  {
    var e := Packet(ReplyMessage(1, ts), a, SNTP_PORT, env);
    ReplyTimes(1, ts);
    assert WillAccept(s, e);
    PacketStep(o, s, e);
    SntpActions.AcceptTrace(o, s, e);
  }

  /**
   Without a buffer the index moves on but nothing is sent. Here the receive timeout of the first server meets no
   buffer; its late answer is then credited to the second, which has another address.
   */
  lemma LateAnswerMiscredited(o: Options, a: Addr, b: Addr, env: Env, poor: Env, recv: NetTime, xmit: NetTime)
    requires a != b && a != IP_ADDR_ANY && b != IP_ADDR_ANY && env.haveBuffer && !poor.haveBuffer
    ensures var ts := Timestamps(StampOf(env.clock), recv, xmit);
            var late := [NextTimer(poor), Packet(ReplyMessage(1, ts), a, SNTP_PORT, poor)];
            var s := Exec(o, PowerUp(o), FirstRequest(a, b, env) + late);
            exists j :: 0 <= j < |s.trace| && s.trace[j].Accepted? && s.trace[j].server == 1
                        && s.servers[1].addr == b != s.trace[j].from
  {
    var ts := Timestamps(StampOf(env.clock), recv, xmit);
    var answer := Packet(ReplyMessage(1, ts), a, SNTP_PORT, poor);
    var asked := Exec(o, PowerUp(o), FirstRequest(a, b, env));
    FirstRequestAsks(o, a, b, env);
    MovedWithoutAsking(o, asked, a, b, env.clock, poor);
    var moved := Step(o, asked, NextTimer(poor));
    LateAnswerCounts(o, moved, a, b, ts, poor);
    ExecTwo(o, asked, NextTimer(poor), answer);
    ExecAppend(o, PowerUp(o), FirstRequest(a, b, env), [NextTimer(poor), answer]);
    assert Step(o, moved, answer).trace[|moved.trace| + 1].Accepted?;
  }
}
