/** What the system clock is set to, each time it is set: by which packet, with which accuracy, and to which time. */
module SntpClockSet {
  import opened CInt
  import opened SntpActions
  import opened SntpModel
  import opened SntpOriginate
  import opened SntpPacket
  import opened SntpProcess
  import opened SntpStart
  import opened SntpTime

  /** Every time set comes from the packet accepted with it, processed at the clock read on its arrival. */
  predicate SetByAnswers(trace: seq<Obs>) {
    forall j :: 0 <= j < |trace| && trace[j].ClockSet? ==>
      && j + 1 < |trace| && trace[j + 1].Accepted? && |trace[j + 1].packet| == SNTP_MSG_LEN
      && trace[j] == HookCall(trace[j + 1].packet, trace[j + 1].clock)
  }

  lemma {:induction false} PathSetByAnswers(o: Options, v: View, actions: seq<Action>, w: View)
    requires Path(o, v, actions, w) && Answerless(actions) && SetByAnswers(v.trace)
    ensures SetByAnswers(w.trace)
    decreases |actions|
  {
    if actions == [] {
    } else {
      PathSetByAnswers(o, Act(o, v, actions[0]), actions[1..], w);
    }
  }

  lemma AnswerAppended(trace: seq<Obs>, hook: Obs, answer: Obs, rest: seq<Obs>)
    requires SetByAnswers(trace)
    requires answer.Accepted? && |answer.packet| == SNTP_MSG_LEN && hook == HookCall(answer.packet, answer.clock)
    requires rest == [] || rest == [Reset]
    ensures SetByAnswers(trace + [hook] + [answer] + rest)
  {
    var longer := trace + [hook] + [answer] + rest;
    assert longer[..|trace|] == trace && longer[|trace|] == hook && longer[|trace| + 1] == answer;
  }

  lemma AcceptSetByAnswers(o: Options, s: State, e: Event)
    requires s.Valid(o) && WillAccept(s, e) && SetByAnswers(s.trace)
    ensures SetByAnswers(Step(o, s, e).trace)
  {
    AcceptTrace(o, s, e);
    AnswerAppended(s.trace, HookCall(e.data, e.env.clock), Crediting(s, e.data, e.from, e.env.clock),
                   if s.mode == Poll then [Reset] else []);
  }

  lemma StepSetByAnswers(o: Options, s: State, e: Event)
    requires s.Valid(o) && SetByAnswers(s.trace)
    ensures SetByAnswers(Step(o, s, e).trace)
  {
    if WillAccept(s, e) {
      AcceptSetByAnswers(o, s, e);
    } else {
      var actions := StepPath(o, s, e);
      PathSetByAnswers(o, ViewOf(s), actions, ViewOf(Step(o, s, e)));
    }
  }

  lemma {:induction false} ClockSetByAnswers(o: Options, es: seq<Event>)
    ensures SetByAnswers(Exec(o, PowerUp(o), es).trace)
  {
    if es == [] {
    } else {
      ClockSetByAnswers(o, es[..|es| - 1]);
      StepSetByAnswers(o, Exec(o, PowerUp(o), es[..|es| - 1]), es[|es| - 1]);
    }
  }

  /**
   The answer belongs to a request stamped at clock `sent` and to a server ahead by `offset`; the request took
   `outbound` ticks, the answer `inbound`; the guard passes, and nothing overflows.
   */
  predicate Exchange(answer: Obs, sent: Clock, offset: int, outbound: nat, inbound: nat)
    requires answer.Accepted? && |answer.packet| == SNTP_MSG_LEN
  {
    var ts, t4 := ExtractTimestamps(answer.packet), LocalTime(answer.clock);
    && ts.recv != NO_TIME
    && Decoded(ts.recv) == LocalTime(sent) + offset + outbound
    && t4 == Decoded(ts.xmit) - offset + inbound
    && StepAllowed(SecondsOf(Decoded(ts.xmit)), SecondsOf(t4))
    && Abs(SecondsOf(Decoded(ts.recv)) - SecondsOf(LocalTime(sent))) < TWO30
    && InS64(Compensated(LocalTime(sent), Decoded(ts.recv), Decoded(ts.xmit), t4))
    && SecondsOf(NewTime(ts, answer.clock)) + DIFF_SEC_1970_2036 >= 0
  }

  /** The seconds and microseconds set miss the server's time by half the round trip, a microsecond and a tick. */
  predicate Accurate(written: Obs, arrival: Clock, offset: int, outbound: nat, inbound: nat)
    requires written.ClockSet?
  {
    var truth := LocalTime(arrival) + offset + DIFF_SEC_1970_2036 * TWO32;
    2 * Abs((written.sec * MICROS + written.micros) * TWO32 - truth * MICROS)
    <= (outbound + inbound + 1) * MICROS + 2 * TWO32
  }

  lemma ExchangeIsAccurate(written: Obs, answer: Obs, sent: Clock, offset: int, outbound: nat, inbound: nat)
    requires answer.Accepted? && |answer.packet| == SNTP_MSG_LEN && written == HookCall(answer.packet, answer.clock)
    requires answer.packet[24..32] == RequestMessage(StampOf(sent))[40..48]
    requires Exchange(answer, sent, offset, outbound, inbound)
    ensures Accurate(written, answer.clock, offset, outbound, inbound)
  {
    EchoDecodes(sent, answer.packet);
    HookAccuracy(ExtractTimestamps(answer.packet), answer.clock, offset, outbound, inbound);
  }

  lemma AnsweredRequest(trace: seq<Obs>, j: nat)
    requires j + 1 < |trace| && trace[j].ClockSet? && trace[j + 1].Accepted? && AllGenuine(trace)
    requires LastRequest(trace[..j]).Some?
    ensures |trace[j + 1].packet| == SNTP_MSG_LEN
    ensures trace[j + 1].packet[24..32] == RequestMessage(StampOf(LastRequest(trace[..j]).value.clock))[40..48]
  {
    assert Genuine(trace[..j + 1], trace[j + 1]);
    LastRequestAppend(trace[..j], trace[j]);
    assert trace[..j + 1] == trace[..j] + [trace[j]];
  }

  /**
   Section 5 of RFC 4330, from request to hook and over every run: each time the clock is set, it is by the answer to
   the last request, and if the delays are as described the two numbers set are accurate.
   */
  lemma ClockSetAccuracy(o: Options, es: seq<Event>, j: nat, offset: int, outbound: nat, inbound: nat)
    requires j < |Exec(o, PowerUp(o), es).trace| && Exec(o, PowerUp(o), es).trace[j].ClockSet?
    ensures var trace := Exec(o, PowerUp(o), es).trace;
            j + 1 < |trace| && trace[j + 1].Accepted? && |trace[j + 1].packet| == SNTP_MSG_LEN
    ensures var trace := Exec(o, PowerUp(o), es).trace;
            var request := LastRequest(trace[..j]);
            request.Some? && Exchange(trace[j + 1], request.value.clock, offset, outbound, inbound) ==>
              Accurate(trace[j], trace[j + 1].clock, offset, outbound, inbound)
  {
    var trace := Exec(o, PowerUp(o), es).trace;
    ClockSetByAnswers(o, es);
    AcceptedAreGenuine(o, es);
    var request := LastRequest(trace[..j]);
    if request.Some? && Exchange(trace[j + 1], request.value.clock, offset, outbound, inbound) {
      AnsweredRequest(trace, j);
      ExchangeIsAccurate(trace[j], trace[j + 1], request.value.clock, offset, outbound, inbound);
    }
  }

  // ----- Without compensation -----

  /** A 32-bit word read as a signed number. */
  function SignedWord(word: U32): int {
    if word >= 0x8000_0000 then word - 0x1_0000_0000 else word
  }

  /** The clock's second, counted from Feb 7, 2036 06:28:16 UTC and read as a signed 32-bit number. */
  function ClockSecond(clock: Clock): int {
    var second := clock.sec - 2085978496;
    if second >= 0x8000_0000 then second - 0x1_0000_0000 else second
  }

  /** The server left its receive time out, or its transmit second is 2^30 s or more from the clock's. */
  predicate Uncompensated(packet: seq<Byte>, clock: Clock)
    requires |packet| == 48
  {
    || packet[32..40] == [0, 0, 0, 0, 0, 0, 0, 0]
    || Abs(SignedWord(BigEndian(packet[40..44])) - ClockSecond(clock)) >= 0x4000_0000
  }

  /** The packet's transmit timestamp as the two numbers of a Unix time, by the era rule of section 3 of RFC 4330. */
  predicate SetsTransmitTime(written: Obs, packet: seq<Byte>)
    requires written.ClockSet? && |packet| == 48
  {
    && written.sec == TrueUnixSeconds(BigEndian(packet[40..44])) % 0x1_0000_0000
    && written.micros == BigEndian(packet[44..48]) * 1000000 / 0x1_0000_0000
  }

  lemma ReceiveTimeLeftOut(packet: seq<Byte>)
    requires |packet| == 48
    ensures ExtractTimestamps(packet).recv == NO_TIME <==> packet[32..40] == [0, 0, 0, 0, 0, 0, 0, 0]
  {
    var a, b := packet[32..36], packet[36..40];
    ZeroWords(TimeAt(packet, 32), a, b);
    ZerosJoin(a, b);
    assert packet[32..40] == a + b;
  }

  lemma TransmitWords(packet: seq<Byte>)
    requires |packet| == 48
    ensures var sec, frac := BigEndian(packet[40..44]), BigEndian(packet[44..48]);
            var t := Decoded(ExtractTimestamps(packet).xmit);
            SecondsOf(t) == SignedWord(sec) && FractionOf(t) == frac
  {
    SwapLoaded(packet[40..44]);
    SwapLoaded(packet[44..48]);
    TransmitParts(ExtractTimestamps(packet).xmit);
  }

  lemma ClockSecondMeaning(clock: Clock)
    ensures SecondsOf(LocalTime(clock)) == ClockSecond(clock)
  {
    LocalParts(clock);
    SignedDifference(clock.sec);
  }

  lemma SignedDifference(sec: U32)
    ensures UnixToNtpSeconds(sec) ==
            if sec - 2085978496 >= 0x8000_0000 then sec - 2085978496 - 0x1_0000_0000 else sec - 2085978496
  {
  }

  /** The condition, on the wire's bytes and the clock, is exactly when the code does not compensate. */
  lemma UncompensatedExactly(packet: seq<Byte>, clock: Clock)
    requires |packet| == 48
    ensures var ts := ExtractTimestamps(packet);
            Uncompensated(packet, clock) <==>
            ts.recv == NO_TIME || !StepAllowed(SecondsOf(Decoded(ts.xmit)), SecondsOf(LocalTime(clock)))
  {
    ReceiveTimeLeftOut(packet);
    TransmitWords(packet);
    ClockSecondMeaning(clock);
  }

  lemma UncompensatedSets(packet: seq<Byte>, clock: Clock)
    requires |packet| == 48 && Uncompensated(packet, clock)
    ensures SetsTransmitTime(HookCall(packet, clock), packet)
  {
    TransmitIsSet(packet, clock);
    TransmitWords(packet);
    SetFromWords(HookCall(packet, clock), Decoded(ExtractTimestamps(packet).xmit), packet);
  }

  lemma SetFromWords(written: Obs, t: S64, packet: seq<Byte>)
    requires |packet| == 48 && written == HookOf(t)
    requires SecondsOf(t) == SignedWord(BigEndian(packet[40..44])) && FractionOf(t) == BigEndian(packet[44..48])
    ensures SetsTransmitTime(written, packet)
  {
    HookOfWords(t, BigEndian(packet[40..44]), BigEndian(packet[44..48]));
  }

  lemma TransmitIsSet(packet: seq<Byte>, clock: Clock)
    requires |packet| == 48 && Uncompensated(packet, clock)
    ensures HookCall(packet, clock) == HookOf(Decoded(ExtractTimestamps(packet).xmit))
  {
    UncompensatedExactly(packet, clock);
    NotCompensated(ExtractTimestamps(packet), clock);
  }

  lemma NotCompensated(ts: Timestamps, clock: Clock)
    requires ts.recv == NO_TIME || !StepAllowed(SecondsOf(Decoded(ts.xmit)), SecondsOf(LocalTime(clock)))
    ensures NewTime(ts, clock) == Decoded(ts.xmit)
  {
  }

  lemma HookOfWords(t: S64, sec: U32, frac: U32)
    requires SecondsOf(t) == SignedWord(sec) && FractionOf(t) == frac
    ensures HookOf(t).sec == TrueUnixSeconds(sec) % 0x1_0000_0000
    ensures HookOf(t).micros == frac * 1000000 / 0x1_0000_0000
  {
    EraRule(sec);
  }

  /**
   Over every run: when the clock is set from a packet without a receive time, or from one 2^30 s or more away from it,
   it is set to the packet's own transmit time, in seconds and whole microseconds.
   */
  lemma UncompensatedTime(o: Options, es: seq<Event>, j: nat)
    requires j < |Exec(o, PowerUp(o), es).trace| && Exec(o, PowerUp(o), es).trace[j].ClockSet?
    ensures var trace := Exec(o, PowerUp(o), es).trace;
            j + 1 < |trace| && trace[j + 1].Accepted? && |trace[j + 1].packet| == 48
    ensures var trace := Exec(o, PowerUp(o), es).trace;
            Uncompensated(trace[j + 1].packet, trace[j + 1].clock) ==> SetsTransmitTime(trace[j], trace[j + 1].packet)
  {
    var trace := Exec(o, PowerUp(o), es).trace;
    ClockSetByAnswers(o, es);
    if Uncompensated(trace[j + 1].packet, trace[j + 1].clock) {
      UncompensatedSets(trace[j + 1].packet, trace[j + 1].clock);
    }
  }

  /** The transmit timestamp in ticks since the 2036 epoch. */
  function TransmitTicks(packet: seq<Byte>): int
    requires |packet| == 48
  {
    SignedWord(BigEndian(packet[40..44])) * 0x1_0000_0000 + BigEndian(packet[44..48])
  }

  /** How far, in 2^-32 microseconds, the time set is behind the true time of a server ahead by `offset`. */
  function Lag(written: Obs, arrival: Clock, offset: int): int
    requires written.ClockSet?
  {
    var truth := LocalTime(arrival) + offset + DIFF_SEC_1970_2036 * TWO32;
    truth * MICROS - (written.sec * MICROS + written.micros) * TWO32
  }

  lemma SetLags(written: Obs, packet: seq<Byte>, arrival: Clock, offset: int, inbound: nat)
    requires written.ClockSet? && |packet| == 48 && SetsTransmitTime(written, packet)
    requires TrueUnixSeconds(BigEndian(packet[40..44])) >= 0
    requires LocalTime(arrival) == TransmitTicks(packet) - offset + inbound
    ensures inbound * MICROS <= Lag(written, arrival, offset) < inbound * MICROS + TWO32
  {
    var sec, frac := BigEndian(packet[40..44]), BigEndian(packet[44..48]);
    SignedUnixSeconds(sec);
    EraRule(sec);
    LagArithmetic(TrueUnixSeconds(sec), frac, inbound, written.sec, written.micros);
  }

  lemma LagArithmetic(unix: nat, frac: U32, inbound: nat, sec: int, micros: int)
    requires sec == unix && micros == frac * 1000000 / 0x1_0000_0000
    ensures var lag := (unix * TWO32 + frac + inbound) * MICROS - (sec * MICROS + micros) * TWO32;
            inbound * MICROS <= lag < inbound * MICROS + TWO32
  {
    QuotientBracket(frac * MICROS);
  }

  lemma SignedUnixSeconds(word: U32)
    ensures SignedWord(word) + DIFF_SEC_1970_2036 == TrueUnixSeconds(word)
  {
  }

  /**
   Then, for dates from 1970 on and a server ahead by `offset`, the clock lags the server's true time by the time the
   answer took, up to a microsecond.
   */
  lemma UncompensatedLag(o: Options, es: seq<Event>, j: nat, offset: int, inbound: nat)
    requires j < |Exec(o, PowerUp(o), es).trace| && Exec(o, PowerUp(o), es).trace[j].ClockSet?
    ensures var trace := Exec(o, PowerUp(o), es).trace;
            j + 1 < |trace| && trace[j + 1].Accepted? && |trace[j + 1].packet| == 48
    ensures var trace := Exec(o, PowerUp(o), es).trace;
            var answer := trace[j + 1];
            && Uncompensated(answer.packet, answer.clock)
            && TrueUnixSeconds(BigEndian(answer.packet[40..44])) >= 0
            && LocalTime(answer.clock) == TransmitTicks(answer.packet) - offset + inbound ==>
              inbound * MICROS <= Lag(trace[j], answer.clock, offset) < inbound * MICROS + TWO32
  {
    var trace := Exec(o, PowerUp(o), es).trace;
    UncompensatedTime(o, es, j);
    var answer := trace[j + 1];
    if Uncompensated(answer.packet, answer.clock)
       && TrueUnixSeconds(BigEndian(answer.packet[40..44])) >= 0
       && LocalTime(answer.clock) == TransmitTicks(answer.packet) - offset + inbound
    {
      SetLags(trace[j], answer.packet, answer.clock, offset, inbound);
    }
  }

  // ----- A wrong time -----

  /**
   The receive time is not range checked: whatever the clock reads, the first server's answer to the first request can
   be accepted and pass the guard, and yet overflow `recv - orig` and set a wrong time.
   */
  lemma UnguardedReceiveTime(o: Options, a: Addr, b: Addr, env: Env)
    requires a != IP_ADDR_ANY && env.haveBuffer && env.clock.usec < MICROS
    ensures var s := Exec(o, PowerUp(o), FirstRequest(a, b, env));
            var stamp := StampOf(env.clock);
            var ts := Timestamps(stamp, OnWire(FarSecond(env.clock), FarFraction(env.clock)), stamp);
            var t1, t2, t3, t4 := Decoded(ts.orig), Decoded(ts.recv), Decoded(ts.xmit), LocalTime(env.clock);
            && s.open && Classify(s, ReplyMessage(1, ts), a, SNTP_PORT) == Correct
            && HookCall(ReplyMessage(1, ts), env.clock) == HookOf(NewTime(ts, env.clock))
            && ts.recv != NO_TIME && StepAllowed(SecondsOf(t3), SecondsOf(t4))
            && !InS64(t2 - t1)
            && NewTime(ts, env.clock) != Compensated(t1, t2, t3, t4)
  {
    var stamp := StampOf(env.clock);
    var ts := Timestamps(stamp, OnWire(FarSecond(env.clock), FarFraction(env.clock)), stamp);
    FirstRequestAsks(o, a, b, env);
    ReplyTimes(1, ts);
    FarReceiveOverflows(env.clock);
  }
}
