/** The rotation over the configured servers: on one table, then over runs that rewrite addresses between moves. */
module SntpRotation {
  import opened SntpModel
  import opened SntpServers
  import opened Wrappers

  // ----- A full round on one table -----

  function After(servers: seq<Server>, start: nat, moves: nat): (index: nat)
    requires start < |servers|
    ensures index < |servers|
  {
    if moves == 0 then start else Move(servers, After(servers, start, moves - 1))
  }

  function ConfiguredSet(servers: seq<Server>): set<nat> {
    set i: nat | i < |servers| && servers[i].Configured()
  }

  /** The configured servers up to a distance. */
  function Passed(servers: seq<Server>, start: nat, distance: nat): set<nat>
    requires start < |servers|
  {
    set i: nat | i < |servers| && servers[i].Configured() && Ahead(start, i, |servers|) <= distance
  }

  /** How far the index has come. */
  function Travelled(servers: seq<Server>, start: nat, moves: nat): nat
    requires start < |servers|
  {
    if moves == 0 then 0 else Ahead(start, After(servers, start, moves), |servers|)
  }

  /** While some server is still ahead, a move goes forward to the next one and passes exactly that one. */
  lemma MoveForward(servers: seq<Server>, start: nat, moves: nat, ahead: nat)
    requires start < |servers| && ahead < |servers| && servers[ahead].Configured()
    requires ahead != After(servers, start, moves)
    requires Travelled(servers, start, moves) < Ahead(start, ahead, |servers|)
    ensures var next := After(servers, start, moves + 1);
            && servers[next].Configured()
            && Travelled(servers, start, moves) < Travelled(servers, start, moves + 1)
            && Passed(servers, start, Travelled(servers, start, moves + 1)) ==
               Passed(servers, start, Travelled(servers, start, moves)) + {next}
  {
    var here := After(servers, start, moves);
    var next := After(servers, start, moves + 1);
    var size := |servers|;
    NextServerMeaning(servers, here);
    assert NearestOther(servers, here, next);
    assert Ahead(here, next, size) <= Ahead(here, ahead, size);
    forall i: nat | i < size && servers[i].Configured()
      ensures Ahead(start, i, size) <= Ahead(start, next, size) <==>
              Ahead(start, i, size) <= Travelled(servers, start, moves) || i == next
    {
      if i != here && i != next {
        assert Ahead(here, next, size) < Ahead(here, i, size);
      }
    }
  }

  /** The servers reached by the first moves. */
  function Visited(servers: seq<Server>, start: nat, moves: nat): set<nat>
    requires start < |servers|
  {
    if moves == 0 then {} else Visited(servers, start, moves - 1) + {After(servers, start, moves)}
  }

  lemma {:induction false} VisitedContains(servers: seq<Server>, start: nat, move: nat, moves: nat)
    requires start < |servers| && 1 <= move <= moves
    ensures After(servers, start, move) in Visited(servers, start, moves)
    decreases moves
  {
    if move == moves {
    } else {
      VisitedContains(servers, start, move, moves - 1);
    }
  }

  /** In up to as many moves as there are servers, every move reaches a server not reached before. */
  lemma {:induction false} RoundProgress(servers: seq<Server>, start: nat, moves: nat)
    requires start < |servers| && 2 <= |ConfiguredSet(servers)| && moves <= |ConfiguredSet(servers)|
    ensures Passed(servers, start, Travelled(servers, start, moves)) == Visited(servers, start, moves)
    ensures |Visited(servers, start, moves)| == moves
    ensures moves > 0 ==> After(servers, start, moves) !in Visited(servers, start, moves - 1)
  {
    if moves == 0 {
      assert Passed(servers, start, 0) == {};
    } else {
      RoundProgress(servers, start, moves - 1);
      var ahead := OneAhead(servers, start, moves - 1);
      MoveForward(servers, start, moves - 1, ahead);
      NotYetPassed(servers, start, moves);
    }
  }

  lemma NotYetPassed(servers: seq<Server>, start: nat, moves: nat)
    requires start < |servers| && moves > 0
    requires Travelled(servers, start, moves - 1) < Travelled(servers, start, moves)
    ensures After(servers, start, moves) !in Passed(servers, start, Travelled(servers, start, moves - 1))
  {
  }

  /** As long as not all servers are passed, one other than the current one lies ahead. */
  lemma OneAhead(servers: seq<Server>, start: nat, moves: nat) returns (ahead: nat)
    requires start < |servers| && 2 <= |ConfiguredSet(servers)| && moves < |ConfiguredSet(servers)|
    requires |Passed(servers, start, Travelled(servers, start, moves))| == moves
    ensures ahead < |servers| && servers[ahead].Configured() && ahead != After(servers, start, moves)
    ensures Travelled(servers, start, moves) < Ahead(start, ahead, |servers|)
  {
    var passed := Passed(servers, start, Travelled(servers, start, moves));
    var all := ConfiguredSet(servers);
    assert passed <= all;
    if moves == 0 {
      if start in all {
        assert |all - {start}| >= 1;
        ahead :| ahead in all - {start};
      } else {
        ahead :| ahead in all;
      }
    } else {
      assert all != passed;
      assert exists i :: i in all && i !in passed;
      ahead :| ahead in all && ahead !in passed;
    }
  }

  lemma MovesDiffer(servers: seq<Server>, start: nat, m: nat, n: nat)
    requires start < |servers| && 2 <= |ConfiguredSet(servers)|
    requires 1 <= m < n <= |ConfiguredSet(servers)|
    ensures After(servers, start, m) != After(servers, start, n)
  {
    RoundProgress(servers, start, n);
    VisitedContains(servers, start, m, n - 1);
  }

  lemma SubsetOfEqualSize(a: set<nat>, b: set<nat>)
    requires a <= b && |a| == |b|
    ensures a == b
  {
    assert b == a + (b - a);
    assert |b - a| == 0;
  }

  /** The servers reached by the next k moves, in order. */
  function Round(servers: seq<Server>, start: nat, k: nat): (round: seq<nat>)
    requires start < |servers|
    ensures |round| == k
  {
    seq(k, m requires 0 <= m < k => After(servers, start, m + 1))
  }

  function Members(s: seq<nat>): set<nat> {
    set v | v in s
  }

  predicate Distinct(s: seq<nat>) {
    forall m, n :: 0 <= m < n < |s| ==> s[m] != s[n]
  }

  /** Every configured server once, and nothing else. */
  predicate FullRound(round: seq<nat>, servers: seq<Server>) {
    Members(round) == ConfiguredSet(servers) && Distinct(round)
  }

  lemma {:induction false} RoundVisits(servers: seq<Server>, start: nat, k: nat)
    requires start < |servers|
    ensures Members(Round(servers, start, k)) == Visited(servers, start, k)
  {
    if k == 0 {
    } else {
      RoundVisits(servers, start, k - 1);
      assert Round(servers, start, k) == Round(servers, start, k - 1) + [After(servers, start, k)];
    }
  }

  /** With k >= 2 configured servers any k moves over one table visit each of them, and only them, exactly once. */
  lemma TableRound(servers: seq<Server>, start: nat)
    requires start < |servers| && 2 <= |ConfiguredSet(servers)|
    ensures FullRound(Round(servers, start, |ConfiguredSet(servers)|), servers)
  {
    var k := |ConfiguredSet(servers)|;
    RoundProgress(servers, start, k);
    SubsetOfEqualSize(Visited(servers, start, k), ConfiguredSet(servers));
    RoundVisits(servers, start, k);
    RoundDistinct(servers, start, k);
  }

  lemma RoundDistinct(servers: seq<Server>, start: nat, k: nat)
    requires start < |servers| && 2 <= k == |ConfiguredSet(servers)|
    ensures Distinct(Round(servers, start, k))
  {
    forall m, n | 0 <= m < n < k
      ensures Round(servers, start, k)[m] != Round(servers, start, k)[n]
    {
      MovesDiffer(servers, start, m + 1, n + 1);
    }
  }

  // ----- Only the configuration matters -----

  predicate SameConfiguration(a: seq<Server>, b: seq<Server>) {
    |a| == |b| && forall i :: 0 <= i < |a| ==> (a[i].Configured() <==> b[i].Configured())
  }

  lemma {:induction false} FirstDependsOnConfiguration(a: seq<Server>, b: seq<Server>, current: nat, d: nat)
    requires SameConfiguration(a, b) && current < |a|
    ensures FirstConfigured(a, current, d) == FirstConfigured(b, current, d)
    decreases |a| - d
  {
    if d >= |a| {
    } else {
      FirstDependsOnConfiguration(a, b, current, d + 1);
    }
  }

  /** A resolver's answer for a current server that has meanwhile lost its configuration configures it again. */
  predicate ConfiguresByAnswer(s: State, e: Event)
    requires s.current < |s.servers|
  {
    Enabled(s, e) && e.DnsFound? && e.answer.Some? && !s.servers[s.current].Configured()
  }

  /** Though requests and answers rewrite addresses, an event other than a setter keeps the configuration otherwise. */
  lemma ConfigurationKeptExactly(o: Options, s: State, e: Event)
    requires s.Valid(o) && !SetsTable(e)
    ensures SameConfiguration(Step(o, s, e).servers, s.servers) <==> !ConfiguresByAnswer(s, e)
  {
    if ConfiguresByAnswer(s, e) {
      AnswerConfigures(o, s, e);
    } else {
      forall i | 0 <= i < o.maxServers
        ensures Step(o, s, e).servers[i].Configured() <==> s.servers[i].Configured()
      {
        if s.servers[i].Configured() {
          StepKeepsConfigured(o, s, e, i);
        } else {
          StepKeepsUnconfigured(o, s, e, i);
        }
      }
    }
  }

  lemma NameIsAsked(o: Options, name: string, env: Env)
    requires env.dns == InProgress
    ensures var named := Step(o, PowerUp(o), SetServerName(0, Some(name)));
            var s := Step(o, Step(o, named, Init(true, env)), RequestTimer(env));
            s.dns == 1 && s.current == 0 && |s.servers| == o.maxServers
  {
  }

  lemma NameIsGone(o: Options, s: State, addr: Addr, env: Env)
    requires s.Valid(o) && s.dns == 1 && s.current == 0 && addr != IP_ADDR_ANY
    ensures ConfiguresByAnswer(Step(o, s, SetServer(0, None)), DnsFound(Some(addr), env))
  {
  }

  /** The exception is reached: a start asks for a name, which is then taken away again. */
  lemma NameTakenAway(o: Options, name: string, addr: Addr, env: Env)
    requires env.dns == InProgress && addr != IP_ADDR_ANY
    ensures var es := [SetServerName(0, Some(name)), Init(true, env)] + [RequestTimer(env), SetServer(0, None)];
            ConfiguresByAnswer(Exec(o, PowerUp(o), es), DnsFound(Some(addr), env))
  {
    var first, second := [SetServerName(0, Some(name)), Init(true, env)], [RequestTimer(env), SetServer(0, None)];
    ExecTwo(o, PowerUp(o), SetServerName(0, Some(name)), Init(true, env));
    NameIsAsked(o, name, env);
    var asked := Exec(o, PowerUp(o), first);
    ExecTwo(o, asked, RequestTimer(env), SetServer(0, None));
    ExecAppend(o, PowerUp(o), first, second);
    NameIsGone(o, Step(o, asked, RequestTimer(env)), addr, env);
  }

  lemma AnswerConfigures(o: Options, s: State, e: Event)
    requires s.Valid(o) && ConfiguresByAnswer(s, e)
    ensures Step(o, s, e).servers[s.current].Configured()
  {
  }

  lemma StepKeepsUnconfigured(o: Options, s: State, e: Event, i: nat)
    requires s.Valid(o) && i < o.maxServers && !s.servers[i].Configured()
    requires !SetsTable(e) && !ConfiguresByAnswer(s, e)
    ensures !Step(o, s, e).servers[i].Configured()
  {
    if Enabled(s, e) {
      match e
      case Init(_, env) => RequestKeepsUnconfigured(o, s.(open := true).Observe(Started).ResetTimeout(o), env, i);
      case RequestTimer(env) => RequestKeepsUnconfigured(o, s.CancelRequest(), env, i);
      case NextTimer(env) => TryNextKeepsUnconfigured(o, s.CancelNext(), env, i);
      case DnsFound(_, _) => QueryStep(o, s, e); AnswerKeepsUnconfigured(o, s.(dns := s.dns - 1), e, i);
      case Packet(_, _, _, _) => PacketKeepsUnconfigured(o, s, e, i);
      case _ =>
    }
  }

  lemma PacketKeepsUnconfigured(o: Options, s: State, e: Event, i: nat)
    requires s.Valid(o) && i < o.maxServers && !s.servers[i].Configured() && e.Packet? && Enabled(s, e)
    ensures !Step(o, s, e).servers[i].Configured()
  {
    PacketStep(o, s, e);
    TryNextKeepsUnconfigured(o, s.Observe(Kissed), e.env, i);
  }

  lemma AnswerKeepsUnconfigured(o: Options, s: State, e: Event, i: nat)
    requires s.Valid(o) && i < o.maxServers && !s.servers[i].Configured() && e.DnsFound?
    requires e.answer.Some? ==> s.servers[s.current].Configured()
    ensures !DnsFoundStep(o, s, e.answer, e.env).servers[i].Configured()
  {
    if e.answer.None? {
      TryNextKeepsUnconfigured(o, s, e.env, i);
    }
  }

  lemma RequestKeepsUnconfigured(o: Options, s: State, env: Env, i: nat)
    requires s.Valid(o) && i < o.maxServers && !s.servers[i].Configured()
    ensures !Request(o, s, env).servers[i].Configured()
  {
  }

  lemma TryNextKeepsUnconfigured(o: Options, s: State, env: Env, i: nat)
    requires s.Valid(o) && i < o.maxServers && !s.servers[i].Configured()
    ensures !TryNext(o, s, env).servers[i].Configured()
  {
    match NextServer(s.servers, s.current)
    case Some(next) =>
      FirstConfiguredInRange(s.servers, s.current, 1);
      RequestKeepsUnconfigured(o, s.(current := next).ResetTimeout(o), env, i);
    case None =>
  }

  // ----- Rounds of a run -----

  /** No query is outstanding whose answer could configure the current server. */
  predicate Settled(s: State)
    requires s.current < |s.servers|
  {
    s.dns == 0 || s.servers[s.current].Configured()
  }

  lemma StepKeepsSettled(o: Options, s: State, e: Event)
    requires s.Valid(o) && Settled(s) && !SetsTable(e)
    ensures Settled(Step(o, s, e))
  {
    var r := Step(o, s, e);
    ConfigurationKeptExactly(o, s, e);
    StepIndex(o, s, e);
    if LooksFurther(s, e) {
      NextServerMeaning(s.servers, s.current);
    }
    if !s.servers[s.current].Configured() && r.current == s.current {
      IdleKeepsSettled(o, s, e);
    }
  }

  /** Configuring the client before its first start leaves no query. */
  lemma {:induction false} SetupSettles(o: Options, setup: seq<Event>)
    requires forall i :: 0 <= i < |setup| ==> SetsTable(setup[i]) || setup[i].SetMode?
    ensures Settled(Exec(o, PowerUp(o), setup)) && Exec(o, PowerUp(o), setup).dns == 0
  {
    if setup == [] {
    } else {
      SetupSettles(o, setup[..|setup| - 1]);
      assert SetsTable(setup[|setup| - 1]) || setup[|setup| - 1].SetMode?;
    }
  }

  lemma IdleKeepsSettled(o: Options, s: State, e: Event)
    requires s.Valid(o) && s.dns == 0 && !s.servers[s.current].Configured() && !SetsTable(e)
    requires Step(o, s, e).current == s.current
    ensures Step(o, s, e).dns == 0
  {
    if LooksFurther(s, e) {
      NextServerMeaning(s.servers, s.current);
    }
  }

  predicate TableFixed(es: seq<Event>) {
    forall j :: 0 <= j < |es| ==> !SetsTable(es[j])
  }

  /** Where the index goes: its values after each event of a run that looks for another server. */
  function Visits(o: Options, s: State, es: seq<Event>): (visits: seq<nat>)
    requires s.Valid(o)
    decreases |es|
  {
    if es == [] then []
    else
      var front, last := es[..|es| - 1], es[|es| - 1];
      if LooksFurther(Exec(o, s, front), last) then Visits(o, s, front) + [Exec(o, s, es).current]
      else Visits(o, s, front)
  }

  /** The index and its past values are those of moves on the table at the start. */
  predicate FollowsTable(o: Options, s: State, es: seq<Event>)
    requires s.Valid(o)
  {
    var visits := Visits(o, s, es);
    && visits == Round(s.servers, s.current, |visits|)
    && Exec(o, s, es).current == After(s.servers, s.current, |visits|)
  }

  lemma SameConfigurationMoves(a: seq<Server>, b: seq<Server>, current: nat)
    requires SameConfiguration(a, b) && current < |a|
    ensures Move(a, current) == Move(b, current)
  {
    FirstDependsOnConfiguration(a, b, current, 1);
  }

  lemma RoundGrows(servers: seq<Server>, start: nat, k: nat)
    requires start < |servers|
    ensures Round(servers, start, k + 1) == Round(servers, start, k) + [Move(servers, After(servers, start, k))]
  {
  }

  lemma VisitsStep(o: Options, s: State, es: seq<Event>)
    requires s.Valid(o) && es != [] && FollowsTable(o, s, es[..|es| - 1])
    requires SameConfiguration(Exec(o, s, es[..|es| - 1]).servers, s.servers)
    ensures FollowsTable(o, s, es)
  {
    var front, last := es[..|es| - 1], es[|es| - 1];
    var before, visits := Exec(o, s, front), Visits(o, s, front);
    StepIndex(o, before, last);
    SameConfigurationMoves(before.servers, s.servers, before.current);
    RoundGrows(s.servers, s.current, |visits|);
  }

  /** Whatever addresses are rewritten meanwhile, the index moves as it would on the table at the start. */
  lemma {:induction false} VisitsFollowTable(o: Options, s: State, es: seq<Event>)
    requires s.Valid(o) && Settled(s) && TableFixed(es)
    ensures FollowsTable(o, s, es)
    ensures Settled(Exec(o, s, es)) && SameConfiguration(Exec(o, s, es).servers, s.servers)
  {
    if es == [] {
    } else {
      var before := Exec(o, s, es[..|es| - 1]);
      VisitsFollowTable(o, s, es[..|es| - 1]);
      StepKeepsSettled(o, before, es[|es| - 1]);
      ConfigurationKeptExactly(o, before, es[|es| - 1]);
      VisitsStep(o, s, es);
    }
  }

  lemma VisitsAreRound(o: Options, s: State, es: seq<Event>) returns (visits: seq<nat>)
    requires s.Valid(o) && Settled(s) && TableFixed(es)
    ensures visits == Visits(o, s, es) == Round(s.servers, s.current, |visits|)
  {
    VisitsFollowTable(o, s, es);
    visits := Visits(o, s, es);
  }

  lemma {:induction false} AfterAfter(servers: seq<Server>, start: nat, first: nat, second: nat)
    requires start < |servers|
    ensures After(servers, start, first + second) == After(servers, After(servers, start, first), second)
    decreases second
  {
    if second == 0 {
    } else {
      AfterAfter(servers, start, first, second - 1);
    }
  }

  /** Any k consecutive visits are a round from where the index then was. */
  lemma RoundOfRun(servers: seq<Server>, start: nat, visits: nat, i: nat, k: nat)
    requires start < |servers| && i + k <= visits
    ensures Round(servers, start, visits)[i..i + k] == Round(servers, After(servers, start, i), k)
  {
    var part, round := Round(servers, start, visits)[i..i + k], Round(servers, After(servers, start, i), k);
    forall m | 0 <= m < k
      ensures part[m] == round[m]
    {
      AfterAfter(servers, start, i, m + 1);
    }
  }

  lemma FullRoundOf(servers: seq<Server>, start: nat, visits: seq<nat>, i: nat, k: nat)
    requires start < |servers| && visits == Round(servers, start, |visits|)
    requires 2 <= k == |ConfiguredSet(servers)| && i + k <= |visits|
    ensures FullRound(visits[i..i + k], servers)
  {
    RoundOfRun(servers, start, |visits|, i, k);
    TableRound(servers, After(servers, start, i));
  }

  /**
   In a run without table setters, with k >= 2 configured servers, any k consecutive searches for another server visit
   every configured server, and nothing else, exactly once: also when names are resolved anew in between.
   */
  lemma RoundRobin(o: Options, s: State, es: seq<Event>, i: nat, k: nat)
    requires s.Valid(o) && Settled(s) && TableFixed(es)
    requires 2 <= k == |ConfiguredSet(s.servers)| && i + k <= |Visits(o, s, es)|
    ensures FullRound(Visits(o, s, es)[i..i + k], s.servers)
  {
    var visits := VisitsAreRound(o, s, es);
    FullRoundOf(s.servers, s.current, visits, i, k);
  }
}
