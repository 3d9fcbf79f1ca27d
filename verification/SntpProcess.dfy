/** Turning an accepted response into a new system time. */
module SntpProcess {
  import opened CInt
  import opened SntpPacket
  import opened SntpTime

  /** A timestamp from the packet as 2^-32 s ticks since the 2036 epoch. */
  function Decoded(t: NetTime): S64 {
    PackWire(SwapBytes(t.sec), SwapBytes(t.frac))
  }

  function LocalTime(clock: Clock): S64 {
    Pack(UnixToNtpSeconds(clock.sec), MicrosToFraction(clock.usec))
  }

  /** A timestamp in network byte order. */
  function OnWire(sec: S32, frac: U32): NetTime {
    NetTime(SwapBytes(WrapU32(sec)), SwapBytes(frac))
  }

  /** The transmit timestamp a request prepared at this clock carries. */
  function StampOf(clock: Clock): NetTime {
    OnWire(UnixToNtpSeconds(clock.sec), MicrosToFraction(clock.usec))
  }

  /** `t4 + ((t2 - t1) + (t3 - t4)) / 2` in unbounded integers. */
  function Compensated(t1: int, t2: int, t3: int, t4: int): int {
    t4 + HalfTowardZero((t2 - t1) + (t3 - t4))
  }

  /** C's division by two: the quotient has the sign of the dividend, and what is left has it too and is at most one. */
  lemma HalfTruncates(x: int)
    ensures var rest := x - 2 * HalfTowardZero(x);
            if x >= 0 then HalfTowardZero(x) >= 0 && 0 <= rest <= 1 else HalfTowardZero(x) <= 0 && -1 <= rest <= 0
  {
  }

  /** The same formula with every 64-bit addition and subtraction wrapping. */
  function CompensatedWrapped(t1: S64, t2: S64, t3: S64, t4: S64): S64 {
    WrapS64(t4 + HalfTowardZero(WrapS64(WrapS64(t2 - t1) + WrapS64(t3 - t4))))
  }

  /** Whether the clock step is small enough, on whole seconds, for the round trip to be compensated. */
  predicate StepAllowed(server: S32, local: S32) {
    Abs(server - local) < TWO30
  }

  /** The new time: compensated if the server filled in its receive time and the step is allowed. */
  function NewTime(ts: Timestamps, clock: Clock): S64 {
    var t3, t4 := Decoded(ts.xmit), LocalTime(clock);
    if ts.recv == NO_TIME || !StepAllowed(SecondsOf(t3), SecondsOf(t4)) then
      t3
    else
      CompensatedWrapped(Decoded(ts.orig), Decoded(ts.recv), t3, t4)
  }

  /** The step computed in wrapping 32-bit arithmetic. */
  function StepSeconds(sec: S32, dest: S32): U32 {
    if dest < sec then WrapU32(WrapU32(sec) - WrapU32(dest)) else WrapU32(WrapU32(dest) - WrapU32(sec))
  }

  /** `sntp_process`, up to its call of the system time hook with (unixSec, micros). */
  method Process(ts: Timestamps, clock: Clock) returns (unixSec: U32, micros: U32)
    ensures unixSec == NtpToUnixSeconds(SecondsOf(NewTime(ts, clock)))
    ensures micros == FractionToMicros(FractionOf(NewTime(ts, clock)))
  {
    var sec: S32 := AsS32(SwapBytes(ts.xmit.sec));
    var frac: U32 := SwapBytes(ts.xmit.frac);
    TransmitParts(ts.xmit);
    if ts.recv.sec != 0 || ts.recv.frac != 0 {
      var destSec: S32 := UnixToNtpSeconds(clock.sec);
      var destFrac: U32 := MicrosToFraction(clock.usec);
      LocalParts(clock);
      var step := StepSeconds(sec, destSec);
      StepSecondsMeaning(sec, destSec);
      if step / TWO30 == 0 {
        var t4 := Compensate(Decoded(ts.orig), Decoded(ts.recv), Pack(sec, frac), Pack(destSec, destFrac));
        sec := SecondsOf(t4);
        frac := FractionOf(t4);
      }
    }
    unixSec, micros := NtpToUnixSeconds(sec), FractionToMicros(frac);
  }

  /** Clock offset calculation of RFC 4330, in wrapping 64-bit arithmetic. */
  method Compensate(t1: S64, t2: S64, t3: S64, local: S64) returns (t4: S64)
    ensures t4 == CompensatedWrapped(t1, t2, t3, local)
  {
    t4 := local;
    t4 := WrapS64(t4 + HalfTowardZero(WrapS64(WrapS64(t2 - t1) + WrapS64(t3 - t4))));
  }

  lemma TransmitParts(xmit: NetTime)
    ensures var sec, frac := AsS32(SwapBytes(xmit.sec)), SwapBytes(xmit.frac);
            Decoded(xmit) == Pack(sec, frac) && SecondsOf(Decoded(xmit)) == sec && FractionOf(Decoded(xmit)) == frac
  {
    WireParts(SwapBytes(xmit.sec), SwapBytes(xmit.frac));
  }

  lemma WireParts(wire: U32, frac: U32)
    ensures var t := PackWire(wire, frac);
            t == Pack(AsS32(wire), frac) && SecondsOf(t) == AsS32(wire) && FractionOf(t) == frac
  {
    SignedReading(wire);
    PackMeaning(AsS32(wire), frac);
    SplitMeaning(AsS32(wire), frac);
  }

  lemma SignedReading(wire: U32)
    ensures WrapU32(AsS32(wire)) == wire
  {
  }

  lemma LocalParts(clock: Clock)
    ensures SecondsOf(LocalTime(clock)) == UnixToNtpSeconds(clock.sec)
    ensures FractionOf(LocalTime(clock)) == MicrosToFraction(clock.usec)
  {
    PackSplit(UnixToNtpSeconds(clock.sec), MicrosToFraction(clock.usec), 0);
  }

  // ----- Freedom from overflow -----

  /** The wrapping computation of the step is the distance between the two seconds, for all of them. */
  lemma StepSecondsMeaning(sec: S32, dest: S32)
    ensures StepSeconds(sec, dest) == Abs(sec - dest)
    ensures StepSeconds(sec, dest) / TWO30 == 0 <==> StepAllowed(sec, dest)
  {
    assert WrapU32(sec) == if sec >= 0 then sec else sec + TWO32;
    assert WrapU32(dest) == if dest >= 0 then dest else dest + TWO32;
  }

  lemma SecondsBracket(t: S64)
    ensures SecondsOf(t) * TWO32 <= t < (SecondsOf(t) + 1) * TWO32
  {
    PackSplit(0, 0, t);
    PackMeaning(SecondsOf(t), FractionOf(t));
  }

  lemma SecondsApart(s: S64, t: S64)
    requires Abs(SecondsOf(s) - SecondsOf(t)) < TWO30
    ensures -TWO62 < s - t < TWO62
  {
    SecondsBracket(s);
    SecondsBracket(t);
  }

  lemma WrapFits(x: int)
    ensures WrapS64(x) == x <==> InS64(x)
  {
  }

  /**
   If the step is allowed and the server's receive time lies within 2^30 s of the originate time, no difference or sum
   overflows, and the wrapping result is the exact one exactly if that is representable. It is, when the local clock is
   within 2^30 s of the 2036 epoch, or both clocks are within 3 * 2^29 s of it (about 1985 to 2087).
   */
  lemma CompensationFits(t1: S64, t2: S64, t3: S64, t4: S64)
    requires StepAllowed(SecondsOf(t3), SecondsOf(t4))
    requires Abs(SecondsOf(t2) - SecondsOf(t1)) < TWO30
    ensures InS64(t2 - t1) && InS64(t3 - t4) && InS64((t2 - t1) + (t3 - t4))
    ensures CompensatedWrapped(t1, t2, t3, t4) == Compensated(t1, t2, t3, t4) <==> InS64(Compensated(t1, t2, t3, t4))
    ensures Abs(SecondsOf(t4)) < TWO30 ==> InS64(Compensated(t1, t2, t3, t4))
    ensures Abs(SecondsOf(t3)) < 3 * (TWO30 / 2) && Abs(SecondsOf(t4)) < 3 * (TWO30 / 2) ==>
              InS64(Compensated(t1, t2, t3, t4))
  {
    SecondsApart(t2, t1);
    SecondsApart(t3, t4);
    SecondsBracket(t3);
    SecondsBracket(t4);
    SmallOperandsFit(t1, t2, t3, t4);
  }

  lemma SmallOperandsFit(t1: S64, t2: S64, t3: S64, t4: S64)
    requires -TWO62 < t2 - t1 < TWO62 && -TWO62 < t3 - t4 < TWO62
    ensures InS64(t2 - t1) && InS64(t3 - t4) && InS64((t2 - t1) + (t3 - t4))
    ensures CompensatedWrapped(t1, t2, t3, t4) == Compensated(t1, t2, t3, t4) <==> InS64(Compensated(t1, t2, t3, t4))
    ensures -TWO62 <= t4 < TWO62 ==> InS64(Compensated(t1, t2, t3, t4))
    ensures -3 * (TWO62 / 2) <= t3 < 3 * (TWO62 / 2) && -3 * (TWO62 / 2) <= t4 < 3 * (TWO62 / 2) ==>
              InS64(Compensated(t1, t2, t3, t4))
  {
    WrapFits(t2 - t1);
    WrapFits(t3 - t4);
    WrapFits((t2 - t1) + (t3 - t4));
    WrapFits(Compensated(t1, t2, t3, t4));
  }

  /** Which differences `recv - orig` are safe whatever transmit time and clock pass the guard: exactly these. */
  lemma SafeReceiveDifference(difference: int)
    ensures (forall t3: S64, t4: S64 :: StepAllowed(SecondsOf(t3), SecondsOf(t4)) ==> InS64(difference + (t3 - t4)))
            <==> -TWO62 - 1 <= difference <= TWO62
  {
    if -TWO62 - 1 <= difference <= TWO62 {
      forall t3: S64, t4: S64 | StepAllowed(SecondsOf(t3), SecondsOf(t4))
        ensures InS64(difference + (t3 - t4))
      {
        SecondsApart(t3, t4);
      }
    } else {
      var low: S64, high: S64 := 0, TWO62 - 1;
      assert SecondsOf(low) == 0 && SecondsOf(high) == TWO30 - 1;
      if difference > TWO62 {
        assert !InS64(difference + (high - low));
      } else {
        assert !InS64(difference + (low - high));
      }
    }
  }

  /** The compensated time is representable, for all timestamps within the guard and the receive range. */
  ghost predicate ClockIsSafe(t4: S64) {
    forall t1: S64, t2: S64, t3: S64 ::
      StepAllowed(SecondsOf(t3), SecondsOf(t4)) && Abs(SecondsOf(t2) - SecondsOf(t1)) < TWO30 ==>
        InS64(Compensated(t1, t2, t3, t4))
  }

  /** Which clock readings are safe whatever response passes the guard with a receive time in range: exactly these. */
  lemma SafeClockRange(t4: S64)
    ensures ClockIsSafe(t4) <==> -TWO62 - 2 <= t4 <= TWO62 + 1
  {
    if -TWO62 - 2 <= t4 <= TWO62 + 1 {
      forall t1: S64, t2: S64, t3: S64
        | StepAllowed(SecondsOf(t3), SecondsOf(t4)) && Abs(SecondsOf(t2) - SecondsOf(t1)) < TWO30
        ensures InS64(Compensated(t1, t2, t3, t4))
      {
        SecondsApart(t2, t1);
        SecondsApart(t3, t4);
      }
    } else {
      FarClockOverflows(t4);
    }
  }

  lemma FarClockOverflows(t4: S64)
    requires t4 < -TWO62 - 2 || TWO62 + 1 < t4
    ensures !ClockIsSafe(t4)
  {
    SecondsBracket(t4);
    var zero: S64, far: S64 := 0, TWO62 - 1;
    assert SecondsOf(zero) == 0 && SecondsOf(far) == TWO30 - 1;
    if t4 > 0 {
      var t3: S64 := TWO63 - 1;
      assert SecondsOf(t3) == TWO31 - 1;
      assert !InS64(Compensated(zero, far, t3, t4));
    } else {
      var t3: S64 := -TWO63;
      assert SecondsOf(t3) == -TWO31;
      assert !InS64(Compensated(far, zero, t3, t4));
    }
  }

  /** A second more than 2^31 s from the clock reading at which a request was stamped, and its fraction. */
  function FarSecond(clock: Clock): S32 {
    if UnixToNtpSeconds(clock.sec) < 0 then 0x7FFF_FFFF else -0x8000_0000
  }

  function FarFraction(clock: Clock): U32 {
    if UnixToNtpSeconds(clock.sec) < 0 then 0xFFFF_FFFF else 0
  }

  lemma OnWireDecodes(sec: S32, frac: U32)
    ensures Decoded(OnWire(sec, frac)) == sec * TWO32 + frac
  {
    SwapInvolution(WrapU32(sec));
    SwapInvolution(frac);
    PackMeaning(sec, frac);
  }

  lemma LocalTimeMeaning(clock: Clock)
    requires clock.usec < MICROS
    ensures LocalTime(clock) == UnixToNtpSeconds(clock.sec) * TWO32 + MicrosToFraction(clock.usec)
    ensures MicrosToFraction(clock.usec) > 0
  {
    SubsecondRoundTrip(clock.usec);
    PackMeaning(UnixToNtpSeconds(clock.sec), MicrosToFraction(clock.usec));
  }

  lemma FarApart(clock: Clock, sec: S32, frac: U32)
    requires sec == FarSecond(clock) && frac == FarFraction(clock)
    requires LocalTime(clock) == UnixToNtpSeconds(clock.sec) * TWO32 + MicrosToFraction(clock.usec)
    requires MicrosToFraction(clock.usec) > 0
    ensures !InS64(sec * TWO32 + frac - LocalTime(clock))
  {
  }

  lemma FarIsSet(clock: Clock)
    ensures OnWire(FarSecond(clock), FarFraction(clock)).sec != 0
  {
    var sec: S32 := FarSecond(clock);
    assert WrapU32(sec) != 0;
    SwapNonZero(WrapU32(sec));
  }

  lemma FarIsFar(clock: Clock)
    requires clock.usec < MICROS
    ensures !InS64(Decoded(OnWire(FarSecond(clock), FarFraction(clock))) - LocalTime(clock))
  {
    var sec: S32, frac: U32 := FarSecond(clock), FarFraction(clock);
    OnWireDecodes(sec, frac);
    LocalTimeMeaning(clock);
    FarApart(clock, sec, frac);
  }

  /**
   For every clock reading, an answer whose transmit time agrees with the clock but whose receive time is far off
   passes the guard, overflows the first subtraction, and sets a wrong time.
   */
  lemma FarReceiveOverflows(clock: Clock)
    requires clock.usec < MICROS
    ensures var stamp := StampOf(clock);
            var ts := Timestamps(stamp, OnWire(FarSecond(clock), FarFraction(clock)), stamp);
            var t1, t2, t3, t4 := Decoded(ts.orig), Decoded(ts.recv), Decoded(ts.xmit), LocalTime(clock);
            && ts.recv != NO_TIME
            && StepAllowed(SecondsOf(t3), SecondsOf(t4))
            && !InS64(t2 - t1)
            && NewTime(ts, clock) != Compensated(t1, t2, t3, t4)
  {
    var far := OnWire(FarSecond(clock), FarFraction(clock));
    StampDecodes(clock);
    FarIsSet(clock);
    FarIsFar(clock);
    FarDifference(LocalTime(clock), Decoded(far));
  }

  lemma HalfAcrossWrap(d: int, w: int)
    requires w == d + TWO64 || w == d - TWO64
    ensures TWO63 - 1 <= Abs(HalfTowardZero(w) - HalfTowardZero(d)) <= TWO63
  {
  }

  lemma WrapNear(x: int, y: int)
    requires 0 < Abs(x - y) < TWO64
    ensures WrapS64(x) != y
  {
  }

  lemma FarDifference(t: S64, far: S64)
    requires !InS64(far - t)
    ensures CompensatedWrapped(t, far, t, t) != Compensated(t, far, t, t)
  {
    var d := far - t;
    var w := if d < 0 then d + TWO64 else d - TWO64;
    assert WrapS64(d) == w;
    WrapFits(w);
    HalfAcrossWrap(d, w);
    WrapNear(t + HalfTowardZero(w), t + HalfTowardZero(d));
    assert CompensatedWrapped(t, far, t, t) == WrapS64(t + HalfTowardZero(w));
  }

  // ----- Accuracy -----

  /**
   Section 5 of RFC 4330. The server's clock is ahead by `offset`; the request takes `outbound` ticks and the
   response `inbound`. The new time misses the server's true time by half the difference of the delays,
   exactly if that difference is even and otherwise rounded by half a tick.
   */
  lemma OffsetError(t1: int, t2: int, t3: int, t4: int, offset: int, outbound: nat, inbound: nat)
    requires t2 == t1 + offset + outbound
    requires t4 == t3 - offset + inbound
    ensures var error := Compensated(t1, t2, t3, t4) - (t4 + offset);
            && (outbound - inbound) - 1 <= 2 * error <= (outbound - inbound) + 1
            && ((outbound - inbound) % 2 == 0 ==> 2 * error == outbound - inbound)
            && 2 * Abs(error) <= outbound + inbound + 1
            && (outbound == inbound ==> error == 0)
  {
    var sum := (t2 - t1) + (t3 - t4);
    assert sum == 2 * offset + outbound - inbound;
  }

  /** The wrapping computation has the accuracy of the exact one, on all timestamps it does not overflow on. */
  lemma WrappedAccuracy(t1: S64, t2: S64, t3: S64, t4: S64, offset: int, outbound: nat, inbound: nat)
    requires t2 == t1 + offset + outbound
    requires t4 == t3 - offset + inbound
    requires -TWO62 < t2 - t1 < TWO62 && -TWO62 < t3 - t4 < TWO62
    requires InS64(Compensated(t1, t2, t3, t4))
    ensures 2 * Abs(CompensatedWrapped(t1, t2, t3, t4) - (t4 + offset)) <= outbound + inbound + 1
    ensures outbound == inbound ==> CompensatedWrapped(t1, t2, t3, t4) == t4 + offset
  {
    SmallOperandsFit(t1, t2, t3, t4);
    OffsetError(t1, t2, t3, t4, offset, outbound, inbound);
  }

  /**
   What `sntp_process` computes, for a response to a request stamped at local time t1: within half the round trip
   of the server's true time t4 + offset, and equal to it when both delays are equal.
   */
  lemma ClockAccuracy(ts: Timestamps, clock: Clock, offset: int, outbound: nat, inbound: nat)
    requires ts.recv != NO_TIME
    requires Decoded(ts.recv) == Decoded(ts.orig) + offset + outbound
    requires LocalTime(clock) == Decoded(ts.xmit) - offset + inbound
    requires StepAllowed(SecondsOf(Decoded(ts.xmit)), SecondsOf(LocalTime(clock)))
    requires Abs(SecondsOf(Decoded(ts.recv)) - SecondsOf(Decoded(ts.orig))) < TWO30
    requires InS64(Compensated(Decoded(ts.orig), Decoded(ts.recv), Decoded(ts.xmit), LocalTime(clock)))
    ensures 2 * Abs(NewTime(ts, clock) - (LocalTime(clock) + offset)) <= outbound + inbound + 1
    ensures outbound == inbound ==> NewTime(ts, clock) == LocalTime(clock) + offset
  {
    var t1, t2, t3, t4 := Decoded(ts.orig), Decoded(ts.recv), Decoded(ts.xmit), LocalTime(clock);
    SecondsApart(t2, t1);
    SecondsApart(t3, t4);
    WrappedAccuracy(t1, t2, t3, t4, offset, outbound, inbound);
  }

  /**
   The same guarantee on the two numbers the hook receives: together, in microseconds of Unix time, they miss the
   server's true time by at most half the round trip plus one microsecond and one tick.
   */
  lemma HookAccuracy(ts: Timestamps, clock: Clock, offset: int, outbound: nat, inbound: nat)
    requires ts.recv != NO_TIME
    requires Decoded(ts.recv) == Decoded(ts.orig) + offset + outbound
    requires LocalTime(clock) == Decoded(ts.xmit) - offset + inbound
    requires StepAllowed(SecondsOf(Decoded(ts.xmit)), SecondsOf(LocalTime(clock)))
    requires Abs(SecondsOf(Decoded(ts.recv)) - SecondsOf(Decoded(ts.orig))) < TWO30
    requires InS64(Compensated(Decoded(ts.orig), Decoded(ts.recv), Decoded(ts.xmit), LocalTime(clock)))
    requires SecondsOf(NewTime(ts, clock)) + DIFF_SEC_1970_2036 >= 0
    ensures var t := NewTime(ts, clock);
            var hook := NtpToUnixSeconds(SecondsOf(t)) * MICROS + FractionToMicros(FractionOf(t));
            var truth := LocalTime(clock) + offset + DIFF_SEC_1970_2036 * TWO32;
            2 * Abs(hook * TWO32 - truth * MICROS) <= (outbound + inbound + 1) * MICROS + 2 * TWO32
  {
    ClockAccuracy(ts, clock, offset, outbound, inbound);
    HookMicros(NewTime(ts, clock));
    var ticks := NewTime(ts, clock) + DIFF_SEC_1970_2036 * TWO32;
    QuotientBracket(ticks * MICROS);
  }

  lemma QuotientBracket(x: int)
    ensures (x / TWO32) * TWO32 <= x < (x / TWO32) * TWO32 + TWO32
  {
  }

  /** A request's transmit timestamp, read back from a response that copies it, is the local time of the request. */
  lemma StampDecodes(clock: Clock)
    ensures Decoded(StampOf(clock)) == LocalTime(clock)
  {
    OnWireDecodes(UnixToNtpSeconds(clock.sec), MicrosToFraction(clock.usec));
    PackMeaning(UnixToNtpSeconds(clock.sec), MicrosToFraction(clock.usec));
  }
}
