/**
 Conversions between Unix time and NTP time. NTP seconds are signed and count from
 Feb 7, 2036 06:28:16 UTC; a fraction counts 2^-32 s ticks.
 */
module SntpTime {
  import opened CInt

  /** Seconds from 1970 to the 2036 epoch. */
  const DIFF_SEC_1970_2036: U32 := 2085978496

  /** Seconds from 1900 to 1970, the other epoch of section 3 of RFC 4330. */
  const DIFF_SEC_1900_1970: int := 2208988800

  const MICROS: int := 1000000

  /** What the platform's clock reads: Unix seconds and microseconds. */
  datatype Clock = Clock(sec: U32, usec: U32)

  // ----- From the clock to NTP time -----

  function UnixToNtpSeconds(sec: U32): S32 {
    AsS32(WrapU32(sec - DIFF_SEC_1970_2036))
  }

  function MicrosToFraction(usec: U32): U32 {
    WrapU32(WrapU32(WrapU32(usec * 4295) - WrapU32(usec * 2143) / 65536) + 2147)
  }

  // ----- From NTP time to the arguments of the system time hook -----

  function NtpToUnixSeconds(sec: S32): U32 {
    WrapU32(WrapU32(sec) + DIFF_SEC_1970_2036)
  }

  function FractionToMicros(frac: U32): U32 {
    (frac * 1000000) / 0x1_0000_0000
  }

  // ----- 64-bit timestamps -----

  /** `SNTP_SEC_FRAC_TO_S64` of a signed second: sign extension to 64 bits, shift, or. */
  function Pack(sec: S32, frac: U32): S64 {
    WrapS64((sec % 0x1_0000_0000_0000_0000) * 0x1_0000_0000 % 0x1_0000_0000_0000_0000 + frac)
  }

  /** `SNTP_SEC_FRAC_TO_S64` of a second taken from the wire, which is unsigned. */
  function PackWire(sec: U32, frac: U32): S64 {
    WrapS64(sec * 0x1_0000_0000 % 0x1_0000_0000_0000_0000 + frac)
  }

  function SecondsOf(t: S64): S32 {
    AsS32((t % 0x1_0000_0000_0000_0000) / 0x1_0000_0000)
  }

  function FractionOf(t: S64): U32 {
    (t % 0x1_0000_0000_0000_0000) % 0x1_0000_0000
  }

  // ----- Sub-second conversion -----

  /** The fraction computed without any 32-bit intermediate. */
  function UnwrappedFraction(usec: U32): int {
    usec * 4295 - (usec * 2143) / 65536 + 2147
  }

  /**
   The wrapping 32-bit expression is exact, lands in the microsecond it came from
   (at most 5 ticks above its middle and less than one below), and converts back to it.
   */
  lemma SubsecondRoundTrip(usec: U32)
    requires usec < MICROS
    ensures MicrosToFraction(usec) == UnwrappedFraction(usec)
    ensures FractionToMicros(MicrosToFraction(usec)) == usec
    ensures -2 * MICROS < 2 * MICROS * MicrosToFraction(usec) - (2 * usec + 1) * TWO32 < 5 * 2 * MICROS
  {
    var frac := UnwrappedFraction(usec);
    UnwrappedFractionBounds(usec);
    WrappedFractionExact(usec);
    QuotientIs(frac * MICROS, usec);
  }

  /** The unwrapped expression stays within its microsecond: a linear fact about one rounded product. */
  lemma UnwrappedFractionBounds(usec: U32)
    requires usec < MICROS
    ensures 0 <= UnwrappedFraction(usec) < TWO32
    ensures usec * TWO32 <= UnwrappedFraction(usec) * MICROS < (usec + 1) * TWO32
    ensures -2 * MICROS < 2 * MICROS * UnwrappedFraction(usec) - (2 * usec + 1) * TWO32 < 5 * 2 * MICROS
  {
    var correction := (usec * 2143) / 65536;
    assert 65536 * correction <= usec * 2143 < 65536 * correction + 65536;
  }

  /** Only the first product can wrap, and then the subtraction wraps back. */
  lemma WrappedFractionExact(usec: U32)
    requires usec < MICROS
    ensures MicrosToFraction(usec) == UnwrappedFraction(usec)
  {
    UnwrappedFractionBounds(usec);
    var correction := (usec * 2143) / 65536;
    assert WrapU32(usec * 2143) == usec * 2143;
    var product := WrapU32(usec * 4295);
    var turns := if usec * 4295 < TWO32 then 0 else 1;
    assert product == usec * 4295 - turns * TWO32;
    WrapOfDifference(product - correction, 2147, UnwrappedFraction(usec), turns);
  }

  /** An inner wrap is absorbed by an outer one. */
  lemma WrapOfDifference(inner: int, added: int, value: int, turns: int)
    requires 0 <= value < TWO32
    requires inner + added == value - turns * TWO32
    ensures WrapU32(WrapU32(inner) + added) == value
  {
    var quotient := inner / TWO32;
    assert WrapU32(inner) == inner - quotient * TWO32;
    assert WrapU32(inner) + added == value - (turns + quotient) * TWO32;
    WrapReaches(WrapU32(inner) + added, value, turns + quotient);
  }

  /** A 32-bit result is determined by any value in range that it is congruent to. */
  lemma WrapReaches(x: int, value: int, turns: int)
    requires 0 <= value < TWO32
    requires x == value - turns * TWO32
    ensures WrapU32(x) == value
  {
  }

  lemma QuotientIs(x: int, quotient: int)
    requires quotient * TWO32 <= x < (quotient + 1) * TWO32
    ensures x / TWO32 == quotient
  {
  }

  /** Later microseconds have larger fractions, although the intermediate product wraps. */
  lemma SubsecondMonotone(earlier: U32, later: U32)
    requires earlier < later < MICROS
    ensures MicrosToFraction(earlier) < MicrosToFraction(later)
  {
    SubsecondRoundTrip(earlier);
    SubsecondRoundTrip(later);
  }

  // ----- Eras -----

  /** From 1970 to 2036 there are 66 years with 16 leap days, and from 1900 to 1970 there are 70 with 17. */
  lemma EpochDays()
    ensures DIFF_SEC_1970_2036 == ((66 * 365 + 16) + 31 + 6) * 86400 + 6 * 3600 + 28 * 60 + 16
    ensures DIFF_SEC_1900_1970 == (70 * 365 + 17) * 86400
    ensures DIFF_SEC_1900_1970 + DIFF_SEC_1970_2036 == 0x1_0000_0000
  {
  }

  /**
   Section 3 of RFC 4330: with bit 0 (the most significant) set, a timestamp counts from 1900,
   otherwise from the 2036 epoch. The result is a Unix time and may be negative.
   */
  function TrueUnixSeconds(wire: U32): int {
    if wire >= TWO31 then wire - DIFF_SEC_1900_1970 else wire + DIFF_SEC_1970_2036
  }

  /** Reading a wire second as signed gives the true Unix second exactly for the dates from 1970 on. */
  lemma EraRule(wire: U32)
    ensures NtpToUnixSeconds(AsS32(wire)) == TrueUnixSeconds(wire) <==> wire < TWO31 || wire >= DIFF_SEC_1900_1970
    ensures TrueUnixSeconds(wire) >= 0 <==> wire < TWO31 || wire >= DIFF_SEC_1900_1970
    ensures TrueUnixSeconds(wire) < 0 ==> NtpToUnixSeconds(AsS32(wire)) == TrueUnixSeconds(wire) + TWO32
    ensures NtpToUnixSeconds(AsS32(wire)) == WrapU32(TrueUnixSeconds(wire))
  {
  }

  /** Unix and NTP seconds are in bijection, on all 2^32 values of each. */
  lemma SecondsBijection(unix: U32, ntp: S32)
    ensures NtpToUnixSeconds(UnixToNtpSeconds(unix)) == unix
    ensures UnixToNtpSeconds(NtpToUnixSeconds(ntp)) == ntp
  {
    UnixAndBack(unix);
    NtpAndBack(ntp);
  }

  lemma UnixAndBack(unix: U32)
    ensures NtpToUnixSeconds(UnixToNtpSeconds(unix)) == unix
  {
  }

  lemma NtpAndBack(ntp: S32)
    ensures UnixToNtpSeconds(NtpToUnixSeconds(ntp)) == ntp
  {
  }

  /** Sign extension, shift and or together mean sec * 2^32 + frac; both readings of a second agree. */
  lemma PackMeaning(sec: S32, frac: U32)
    ensures Pack(sec, frac) == sec * TWO32 + frac
    ensures PackWire(WrapU32(sec), frac) == sec * TWO32 + frac
  {
    SignedPacks(sec, frac);
    WirePacks(sec, frac);
  }

  lemma SignedPacks(sec: S32, frac: U32)
    ensures Pack(sec, frac) == sec * TWO32 + frac
  {
    ShiftedSeconds(sec);
  }

  lemma WirePacks(sec: S32, frac: U32)
    ensures PackWire(WrapU32(sec), frac) == sec * TWO32 + frac
  {
    assert WrapU32(sec) == if sec >= 0 then sec else sec + TWO32;
  }

  lemma ShiftedSeconds(sec: S32)
    ensures (sec % TWO64) * TWO32 % TWO64 == if sec >= 0 then sec * TWO32 else sec * TWO32 + TWO64
  {
    if sec < 0 {
      assert sec % TWO64 == sec + TWO64;
      assert (sec + TWO64) * TWO32 == (sec * TWO32 + TWO64) + (TWO32 - 1) * TWO64;
    }
  }

  /** Splitting undoes packing and packing undoes splitting. */
  lemma PackSplit(sec: S32, frac: U32, t: S64)
    ensures SecondsOf(Pack(sec, frac)) == sec
    ensures FractionOf(Pack(sec, frac)) == frac
    ensures Pack(SecondsOf(t), FractionOf(t)) == t
  {
    PackMeaning(sec, frac);
    SplitMeaning(sec, frac);
    var u := t % TWO64;
    var high, low := u / TWO32, u % TWO32;
    assert t == AsS32(high) * TWO32 + low;
    PackMeaning(AsS32(high), low);
  }

  lemma SplitMeaning(sec: S32, frac: U32)
    ensures -TWO63 <= sec * TWO32 + frac < TWO63
    ensures SecondsOf(sec * TWO32 + frac) == sec
    ensures FractionOf(sec * TWO32 + frac) == frac
  {
    var t := sec * TWO32 + frac;
    var u := WrapU32(sec);
    assert t % TWO64 == u * TWO32 + frac;
    assert (u * TWO32 + frac) / TWO32 == u;
    assert (u * TWO32 + frac) % TWO32 == frac;
  }

  /**
   What the hook receives: the NTP time counted in whole microseconds of Unix time,
   for every time whose Unix second fits 32 bits.
   */
  lemma HookMicros(t: S64)
    requires 0 <= SecondsOf(t) + DIFF_SEC_1970_2036
    ensures FractionToMicros(FractionOf(t)) < MICROS
    ensures NtpToUnixSeconds(SecondsOf(t)) * MICROS + FractionToMicros(FractionOf(t))
            == ((t + DIFF_SEC_1970_2036 * TWO32) * MICROS) / TWO32
  {
    var sec, frac := SecondsOf(t), FractionOf(t);
    assert t == sec * TWO32 + frac by {
      PackSplit(sec, frac, t);
      PackMeaning(sec, frac);
    }
    var whole := sec + DIFF_SEC_1970_2036;
    assert (t + DIFF_SEC_1970_2036 * TWO32) * MICROS == (whole * MICROS) * TWO32 + frac * MICROS;
    AddWholeTurns(whole * MICROS, frac * MICROS);
  }

  lemma AddWholeTurns(turns: int, rest: nat)
    ensures (turns * TWO32 + rest) / TWO32 == turns + rest / TWO32
  {
  }
}
