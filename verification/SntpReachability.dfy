/** The 8-bit reachability shift registers tell which of the last eight requests were answered. */
module SntpReachability {
  import opened SntpActions
  import opened SntpModel

  function Mask(i: nat): bv8
    requires i < 8
  {
    if i == 0 then 1 else if i == 1 then 2 else if i == 2 then 4 else if i == 3 then 8
    else if i == 4 then 16 else if i == 5 then 32 else if i == 6 then 64 else 128
  }

  predicate Bit(register: bv8, i: nat)
    requires i < 8
  {
    register & Mask(i) != 0
  }

  lemma ShiftBit(register: bv8, i: nat)
    requires i < 8
    ensures Bit(register << 1, i) <==> i > 0 && Bit(register, i - 1)
  {
  }

  lemma SetBit(register: bv8, i: nat)
    requires i < 8
    ensures Bit(register | 1, i) <==> i == 0 || Bit(register, i)
  {
  }

  lemma NonZero(register: bv8)
    ensures register != 0 <==> exists i: nat :: i < 8 && Bit(register, i)
  {
    if register != 0 {
      assert Bit(register, 0) || Bit(register, 1) || Bit(register, 2) || Bit(register, 3)
          || Bit(register, 4) || Bit(register, 5) || Bit(register, 6) || Bit(register, 7);
    }
  }

  predicate SentTo(obs: Obs, k: nat) {
    obs.Sent? && obs.server == k
  }

  predicate CreditedTo(obs: Obs, k: nat) {
    obs.Accepted? && obs.server == k
  }

  function SentCount(trace: seq<Obs>, k: nat): nat {
    if trace == [] then 0
    else SentCount(trace[..|trace| - 1], k) + if SentTo(trace[|trace| - 1], k) then 1 else 0
  }

  /** One credit to k, i requests to k and no stop behind it. */
  predicate AnswerAt(trace: seq<Obs>, k: nat, i: nat, j: nat) {
    j < |trace| && CreditedTo(trace[j], k) && SentCount(trace[j..], k) == i && Stopped !in trace[j..]
  }

  /**
   Section 9.2 of RFC 5905: since the client was last stopped, an accepted response was credited to server k
   between its i-th most recent request and the one after it.
   */
  ghost predicate Answered(trace: seq<Obs>, k: nat, i: nat) {
    exists j: nat :: AnswerAt(trace, k, i, j)
  }

  lemma SuffixAppend(trace: seq<Obs>, obs: Obs, k: nat, j: nat)
    requires j <= |trace|
    ensures (trace + [obs])[j..] == trace[j..] + [obs]
    ensures SentCount((trace + [obs])[j..], k) == SentCount(trace[j..], k) + if SentTo(obs, k) then 1 else 0
    ensures Stopped !in (trace + [obs])[j..] <==> Stopped !in trace[j..] && obs != Stopped
  {
    assert (trace + [obs])[j..] == trace[j..] + [obs];
    assert (trace[j..] + [obs])[..|trace[j..]|] == trace[j..];
  }

  lemma AnswerAtAppend(trace: seq<Obs>, obs: Obs, k: nat, i: nat, j: nat)
    requires j < |trace|
    ensures AnswerAt(trace + [obs], k, i, j) <==>
            obs != Stopped && if SentTo(obs, k) then i > 0 && AnswerAt(trace, k, i - 1, j) else AnswerAt(trace, k, i, j)
  {
    SuffixAppend(trace, obs, k, j);
    assert (trace + [obs])[j] == trace[j];
  }

  lemma AnswerAtEnd(trace: seq<Obs>, obs: Obs, k: nat, i: nat)
    ensures AnswerAt(trace + [obs], k, i, |trace|) <==> CreditedTo(obs, k) && i == 0
  {
    SuffixAppend(trace, obs, k, |trace|);
    assert trace[|trace|..] == [];
  }

  /** How an observation changes which epochs are answered. */
  lemma AnsweredAppend(trace: seq<Obs>, obs: Obs, k: nat, i: nat)
    ensures Answered(trace + [obs], k, i) <==>
            if obs == Stopped then false
            else if SentTo(obs, k) then i > 0 && Answered(trace, k, i - 1)
            else (i == 0 && CreditedTo(obs, k)) || Answered(trace, k, i)
  {
    AnswerAtEnd(trace, obs, k, i);
    if Answered(trace + [obs], k, i) {
      var j: nat :| AnswerAt(trace + [obs], k, i, j);
      if j < |trace| {
        AnswerAtAppend(trace, obs, k, i, j);
      }
    }
    if obs != Stopped && if SentTo(obs, k) then i > 0 && Answered(trace, k, i - 1) else Answered(trace, k, i) {
      AnsweredLater(trace, obs, k, i);
    }
  }

  lemma AnsweredLater(trace: seq<Obs>, obs: Obs, k: nat, i: nat)
    requires obs != Stopped
    requires if SentTo(obs, k) then i > 0 && Answered(trace, k, i - 1) else Answered(trace, k, i)
    ensures Answered(trace + [obs], k, i)
  {
    var j: nat :| AnswerAt(trace, k, if SentTo(obs, k) then i - 1 else i, j);
    AnswerAtAppend(trace, obs, k, i, j);
  }

  // How one observation changes one bit.

  ghost predicate BitTells(register: bv8, trace: seq<Obs>, k: nat, i: nat)
    requires i < 8
  {
    Bit(register, i) <==> Answered(trace, k, i)
  }

  /** What an observation does to the register of server k. */
  function NextRegister(before: bv8, obs: Obs, k: nat): bv8 {
    if obs == Stopped then 0
    else if SentTo(obs, k) then before << 1
    else if CreditedTo(obs, k) then before | 1
    else before
  }

  lemma Tells(before: bv8, after: bv8, trace: seq<Obs>, obs: Obs, k: nat, i: nat)
    requires i < 8 && after == NextRegister(before, obs, k)
    requires BitTells(before, trace, k, i) && (i > 0 ==> BitTells(before, trace, k, i - 1))
    ensures BitTells(after, trace + [obs], k, i)
  {
    AnsweredAppend(trace, obs, k, i);
    ShiftBit(before, i);
    SetBit(before, i);
  }

  ghost predicate RegistersTell(v: View) {
    forall k: nat, i: nat :: k < |v.registers| && i < 8 ==> BitTells(v.registers[k], v.trace, k, i)
  }

  lemma SendObserved(o: Options, v: View, a: Action, k: nat) returns (obs: Obs)
    requires Allowed(v, a) && k < |v.registers| && a.Send?
    ensures var w := Act(o, v, a);
            && w.trace == v.trace + [obs]
            && |w.registers| == |v.registers|
            && w.registers[k] == NextRegister(v.registers[k], obs, k)
  {
    obs := Act(o, v, a).trace[|v.trace|];
  }

  /** Every action appends one observation, which determines each register. */
  lemma ActObserves(o: Options, v: View, a: Action, k: nat) returns (obs: Obs)
    requires Allowed(v, a) && k < |v.registers|
    ensures var w := Act(o, v, a);
            && w.trace == v.trace + [obs]
            && |w.registers| == |v.registers|
            && w.registers[k] == NextRegister(v.registers[k], obs, k)
  {
    match a
    case ResetBackoff => obs := Reset;
    case Backoff => obs := Retried;
    case Send(server, dest, at, clock, socket) => obs := SendObserved(o, v, a, k);
    case Answer(server, from, packet, mode, timerless, clock, at) =>
      obs := Accepted(server, from, packet, mode, timerless, clock, at);
    case Clear => obs := Stopped;
    case Note(noted) => obs := noted;
  }

  lemma ActTells(o: Options, v: View, a: Action, k: nat, i: nat)
    requires Allowed(v, a) && k < |v.registers| == |Act(o, v, a).registers| && i < 8
    requires BitTells(v.registers[k], v.trace, k, i) && (i > 0 ==> BitTells(v.registers[k], v.trace, k, i - 1))
    ensures BitTells(Act(o, v, a).registers[k], Act(o, v, a).trace, k, i)
  {
    var obs := ActObserves(o, v, a, k);
    Tells(v.registers[k], Act(o, v, a).registers[k], v.trace, obs, k, i);
  }

  lemma ActKeepsRegisters(o: Options, v: View, a: Action)
    requires Allowed(v, a) && RegistersTell(v)
    ensures RegistersTell(Act(o, v, a))
  {
    forall k: nat, i: nat | k < |Act(o, v, a).registers| && i < 8
      ensures BitTells(Act(o, v, a).registers[k], Act(o, v, a).trace, k, i)
    {
      assert BitTells(v.registers[k], v.trace, k, i);
      assert i > 0 ==> BitTells(v.registers[k], v.trace, k, i - 1);
      ActTells(o, v, a, k, i);
    }
  }

  lemma {:induction false} PathKeepsRegisters(o: Options, v: View, actions: seq<Action>, w: View)
    requires Path(o, v, actions, w) && RegistersTell(v)
    ensures RegistersTell(w)
    decreases |actions|
  {
    if actions == [] {
    } else {
      ActKeepsRegisters(o, v, actions[0]);
      PathKeepsRegisters(o, Act(o, v, actions[0]), actions[1..], w);
    }
  }

  lemma PowerUpTells(o: Options)
    ensures RegistersTell(ViewOf(PowerUp(o)))
  {
    var v := ViewOf(PowerUp(o));
    forall k: nat, i: nat | k < |v.registers| && i < 8
      ensures BitTells(v.registers[k], v.trace, k, i)
    {
      assert v.registers[k] == 0;
    }
  }

  lemma RegisterMeaning(register: bv8, trace: seq<Obs>, k: nat)
    requires forall i: nat :: i < 8 ==> BitTells(register, trace, k, i)
    ensures forall i: nat :: i < 8 ==> (Bit(register, i) <==> Answered(trace, k, i))
    ensures register != 0 <==> exists i: nat :: i < 8 && Answered(trace, k, i)
  {
    forall i: nat | i < 8
      ensures Bit(register, i) <==> Answered(trace, k, i)
    {
      assert BitTells(register, trace, k, i);
    }
    NonZero(register);
  }

  /** What a register says. */
  lemma RegisterTells(s: State, k: nat)
    requires k < |s.servers| && RegistersTell(ViewOf(s))
    ensures forall i: nat :: i < 8 ==> (Bit(s.servers[k].reachability, i) <==> Answered(s.trace, k, i))
    ensures s.servers[k].reachability != 0 <==> exists i: nat :: i < 8 && Answered(s.trace, k, i)
  {
    assert ViewOf(s).registers[k] == s.servers[k].reachability;
    RegisterMeaning(s.servers[k].reachability, s.trace, k);
  }

  /** Over every run, bit i of each register is set exactly when the i-th last epoch of that server was answered. */
  lemma ReachabilityRefinement(o: Options, es: seq<Event>, k: nat)
    requires k < o.maxServers
    ensures var s := Exec(o, PowerUp(o), es);
            && (forall i: nat :: i < 8 ==> (Bit(s.servers[k].reachability, i) <==> Answered(s.trace, k, i)))
            && (s.servers[k].reachability != 0 <==> exists i: nat :: i < 8 && Answered(s.trace, k, i))
  {
    var start, s := PowerUp(o), Exec(o, PowerUp(o), es);
    PowerUpTells(o);
    var actions := ExecPath(o, start, es);
    PathKeepsRegisters(o, ViewOf(start), actions, ViewOf(s));
    RegisterTells(s, k);
  }
}
