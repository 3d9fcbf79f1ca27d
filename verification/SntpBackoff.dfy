/** The exponential retry timeout has a closed form in every reachable state. */
module SntpBackoff {
  import opened CInt
  import opened SntpActions
  import opened SntpCounting
  import opened SntpModel

  /** How often a timeout can be doubled without exceeding the limit: the largest such exponent. */
  function MaxDoublings(timeout: nat, limit: nat): (k: nat)
    requires 0 < timeout <= limit
    ensures timeout * Pow2(k) <= limit < timeout * Pow2(k + 1)
    decreases limit - timeout
  {
    if 2 * timeout <= limit then
      var k := MaxDoublings(2 * timeout, limit);
      assert timeout * Pow2(k + 1) == 2 * timeout * Pow2(k);
      assert timeout * Pow2(k + 2) == 2 * timeout * Pow2(k + 1);
      k + 1
    else 0
  }

  /** SNTP_RETRY_TIMEOUT * 2^min(n, K). */
  function BackoffValue(o: Options, n: nat): int {
    o.retryTimeout * Pow2(Min(n, MaxDoublings(o.retryTimeout, o.retryTimeoutMax)))
  }

  lemma {:induction false} Pow2Monotone(m: nat, n: nat)
    requires m <= n
    ensures Pow2(m) <= Pow2(n)
    decreases n
  {
    if m == n {
    } else {
      Pow2Monotone(m, n - 1);
    }
  }

  lemma ScaledMonotone(factor: nat, a: int, b: int)
    requires a <= b
    ensures factor * a <= factor * b
  {
  }

  /** The test `new > old` detects exactly the doublings that overflow 32 bits, for every non-zero timeout. */
  lemma OverflowDetected(timeout: U32)
    requires timeout > 0
    ensures WrapU32(timeout * 2) > timeout <==> timeout * 2 < TWO32
  {
  }

  lemma BackoffBounds(o: Options, n: nat)
    ensures 0 < o.retryTimeout <= BackoffValue(o, n) <= o.retryTimeoutMax
  {
    var limit := MaxDoublings(o.retryTimeout, o.retryTimeoutMax);
    Pow2Monotone(Min(n, limit), limit);
    ScaledMonotone(o.retryTimeout, 1, Pow2(Min(n, limit)));
    ScaledMonotone(o.retryTimeout, Pow2(Min(n, limit)), Pow2(limit));
  }

  /** The timeout is doubled if that stays within the limit, and otherwise kept. */
  lemma DoublingMeaning(o: Options, timeout: U32)
    requires timeout > 0
    ensures DoubledTimeout(o, timeout) == if timeout * 2 <= o.retryTimeoutMax then timeout * 2 else timeout
  {
    OverflowDetected(timeout);
  }

  lemma TwiceScaled(factor: int, p: int)
    ensures factor * (2 * p) == 2 * (factor * p)
  {
  }

  /** The next backoff value is twice the last, unless that exceeds the limit. */
  lemma NextBackoff(o: Options, n: nat)
    ensures var value := BackoffValue(o, n);
            BackoffValue(o, n + 1) == if value * 2 <= o.retryTimeoutMax then value * 2 else value
  {
    var limit := MaxDoublings(o.retryTimeout, o.retryTimeoutMax);
    if n < limit {
      TwiceScaled(o.retryTimeout, Pow2(n));
      BackoffBounds(o, n + 1);
    } else {
      TwiceScaled(o.retryTimeout, Pow2(limit));
    }
  }

  /** One retry moves from the n-th backoff value to the next, 32-bit shift and all. */
  lemma DoublingStep(o: Options, n: nat)
    ensures 0 <= BackoffValue(o, n) < TWO32
    ensures DoubledTimeout(o, BackoffValue(o, n)) == BackoffValue(o, n + 1)
  {
    BackoffBounds(o, n);
    NextBackoff(o, n);
    DoublingMeaning(o, BackoffValue(o, n));
  }

  /** Retries observed since the timeout was last reset. */
  function RetriesSinceReset(trace: seq<Obs>): nat {
    if trace == [] then 0
    else
      var last, front := trace[|trace| - 1], trace[..|trace| - 1];
      if last == Reset then 0 else RetriesSinceReset(front) + if last == Retried then 1 else 0
  }

  lemma RetriesAppend(trace: seq<Obs>, obs: Obs)
    ensures RetriesSinceReset(trace + [obs]) ==
            if obs == Reset then 0 else RetriesSinceReset(trace) + if obs == Retried then 1 else 0
  {
    assert (trace + [obs])[..|trace|] == trace;
  }

  predicate ClosedForm(o: Options, timeout: U32, trace: seq<Obs>) {
    Reset in trace ==> timeout == BackoffValue(o, RetriesSinceReset(trace))
  }

  lemma {:induction false} PathKeepsClosedForm(o: Options, v: View, actions: seq<Action>, w: View)
    requires Path(o, v, actions, w)
    requires ClosedForm(o, v.retryTimeout, v.trace)
    ensures ClosedForm(o, w.retryTimeout, w.trace)
    decreases |actions|
  {
    if actions == [] {
    } else {
      ActKeepsClosedForm(o, v, actions[0]);
      PathKeepsClosedForm(o, Act(o, v, actions[0]), actions[1..], w);
    }
  }

  lemma OtherKeepsClosedForm(o: Options, v: View, a: Action)
    requires Allowed(v, a) && ClosedForm(o, v.retryTimeout, v.trace) && !a.ResetBackoff? && !a.Backoff?
    ensures ClosedForm(o, Act(o, v, a).retryTimeout, Act(o, v, a).trace)
  {
    RetriesAppend(v.trace, Act(o, v, a).trace[|v.trace|]);
  }

  lemma ActKeepsClosedForm(o: Options, v: View, a: Action)
    requires Allowed(v, a) && ClosedForm(o, v.retryTimeout, v.trace)
    ensures ClosedForm(o, Act(o, v, a).retryTimeout, Act(o, v, a).trace)
  {
    match a
    case ResetBackoff => RetriesAppend(v.trace, Reset);
    case Backoff =>
      RetriesAppend(v.trace, Retried);
      DoublingStep(o, RetriesSinceReset(v.trace));
    case _ => OtherKeepsClosedForm(o, v, a);
  }

  // ----- A reset comes before anything can retry -----

  predicate WasReset(s: State) {
    s.Pending() > 0 || (s.open && s.mode == Poll) ==> Reset in s.trace
  }

  lemma StepKeepsReset(o: Options, s: State, e: Event)
    requires s.Valid(o) && WasReset(s)
    ensures WasReset(Step(o, s, e))
  {
    StepExtendsTrace(o, s, e);
    if Reset in s.trace {
      var i :| 0 <= i < |s.trace| && s.trace[i] == Reset;
      assert Step(o, s, e).trace[i] == Reset;
    } else {
      match e
      case Init(pcb, env) =>
        if !s.open {
          InitResets(o, s, pcb, env);
        }
      case Packet(data, from, port, env) => assert Step(o, s, e).Pending() == 0;
      case _ =>
    }
  }

  lemma InitResets(o: Options, s: State, pcb: bool, env: Env)
    requires s.Valid(o) && !s.open
    ensures var r := InitStep(o, s, pcb, env);
            Reset in r.trace || (r.Pending() == s.Pending() && !(r.open && r.mode == Poll))
  {
    if pcb && s.mode == Poll && !o.startupDelay {
      var started := s.(open := true).Observe(Started).ResetTimeout(o);
      assert started.trace[|s.trace| + 1] == Reset;
      var actions := RequestPath(o, started, env);
      PathExtendsTrace(o, ViewOf(started), actions, ViewOf(Request(o, started, env)));
      assert InitStep(o, s, pcb, env).trace[|s.trace| + 1] == Reset;
    }
  }

  /**
   In every reachable state the timeout is SNTP_RETRY_TIMEOUT * 2^min(n, K) for the n retries since the last reset;
   until there has been one, nothing is pending and the client does not poll.
   */
  lemma {:induction false} BackoffClosedForm(o: Options, es: seq<Event>)
    ensures var s := Exec(o, PowerUp(o), es);
            ClosedForm(o, s.retryTimeout, s.trace) && WasReset(s)
  {
    var s := Exec(o, PowerUp(o), es);
    var actions := ExecPath(o, PowerUp(o), es);
    PathKeepsClosedForm(o, ViewOf(PowerUp(o)), actions, ViewOf(s));
    ExecKeepsReset(o, PowerUp(o), es);
  }

  lemma {:induction false} ExecKeepsReset(o: Options, s: State, es: seq<Event>)
    requires s.Valid(o) && WasReset(s)
    ensures WasReset(Exec(o, s, es))
  {
    if es == [] {
    } else {
      ExecKeepsReset(o, s, es[..|es| - 1]);
      StepKeepsReset(o, Exec(o, s, es[..|es| - 1]), es[|es| - 1]);
    }
  }

  // ----- When the backoff is forgotten -----

  predicate IsReset(obs: Obs) {
    obs == Reset
  }

  function Resets(trace: seq<Obs>): nat {
    Count(trace, IsReset)
  }

  /**
   The backoff is forgotten exactly when polling starts, when a polled response is accepted, and when the search
   for another server finds one; in those cases once.
   */
  lemma ResetsExactly(o: Options, s: State, e: Event)
    requires s.Valid(o)
    ensures var found := LooksFurther(s, e) && OtherServer(s.servers, s.current);
            Resets(Step(o, s, e).trace) ==
            Resets(s.trace) + if StartsPolling(s, e) || (WillAccept(s, e) && s.mode == Poll) || found then 1 else 0
  {
    StepCounts(o, s, e, IsReset);
  }
}
