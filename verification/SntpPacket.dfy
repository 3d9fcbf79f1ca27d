/** The 48-byte SNTP message and the words of it that the client reads and writes. */
module SntpPacket {
  import opened CInt

  const SNTP_MSG_LEN: nat := 48
  const SNTP_PORT: nat := 123
  const SNTP_MODE_SERVER: int := 4
  const SNTP_MODE_BROADCAST: int := 5
  const SNTP_STRATUM_KOD: int := 0
  const SNTP_OFFSET_ORIGINATE_TIME: nat := 24
  const SNTP_OFFSET_RECEIVE_TIME: nat := 32
  const SNTP_OFFSET_TRANSMIT_TIME: nat := 40

  /** `SNTP_LI_NO_WARNING | SNTP_VERSION | SNTP_MODE_CLIENT`, three disjoint bit fields. */
  const CLIENT_LI_VN_MODE: Byte := 0 + 4 * 8 + 3

  /** A timestamp as it lies in memory: two words in network byte order. */
  datatype NetTime = NetTime(sec: U32, frac: U32)

  const NO_TIME := NetTime(0, 0)

  datatype Timestamps = Timestamps(orig: NetTime, recv: NetTime, xmit: NetTime)

  /** The number with the given base-256 digits, least significant first. */
  function Word(d0: int, d1: int, d2: int, d3: int): int {
    d0 + 256 * (d1 + 256 * (d2 + 256 * d3))
  }

  /** The word the little-endian host reads from four bytes. */
  function Load(b: seq<Byte>): U32
    requires |b| == 4
  {
    Word(b[0], b[1], b[2], b[3])
  }

  /** The four bytes the little-endian host writes for a word. */
  function Store(word: U32): (b: seq<Byte>)
    ensures |b| == 4
  {
    [word % 256, word / 256 % 256, word / 65536 % 256, word / 16777216]
  }

  /** `lwip_htonl` and `lwip_ntohl` on that host. */
  function SwapBytes(word: U32): U32 {
    Word(word / 16777216, word / 65536 % 256, word / 256 % 256, word % 256)
  }

  /** The number four bytes mean on the wire, most significant byte first. */
  function BigEndian(b: seq<Byte>): U32
    requires |b| == 4
  {
    Word(b[3], b[2], b[1], b[0])
  }

  lemma Digits(word: int, d0: Byte, d1: Byte, d2: Byte, d3: Byte)
    requires word == Word(d0, d1, d2, d3)
    ensures word % 256 == d0 && word / 256 % 256 == d1 && word / 65536 % 256 == d2 && word / 16777216 == d3
  {
    assert word / 256 == d1 + 256 * (d2 + 256 * d3);
    assert word / 65536 == d2 + 256 * d3;
  }

  lemma LoadStore(word: U32)
    ensures Load(Store(word)) == word
  {
    var q1, q2 := word / 256, word / 65536;
    assert q1 / 256 == q2 && q2 / 256 == word / 16777216;
    assert q2 == q2 % 256 + 256 * (word / 16777216);
    assert q1 == q1 % 256 + 256 * q2;
  }

  lemma LoadZero(b: seq<Byte>)
    requires |b| == 4
    ensures Load(b) == 0 <==> b == [0, 0, 0, 0]
  {
  }

  lemma LoadInjective(a: seq<Byte>, b: seq<Byte>)
    requires |a| == |b| == 4
    requires Load(a) == Load(b)
    ensures a == b
  {
    Digits(Load(a), a[0], a[1], a[2], a[3]);
    Digits(Load(b), b[0], b[1], b[2], b[3]);
  }

  /** Converting a loaded word to host order reads the wire's number, whatever the four bytes. */
  lemma SwapLoaded(b: seq<Byte>)
    requires |b| == 4
    ensures SwapBytes(Load(b)) == BigEndian(b)
  {
    Digits(Load(b), b[0], b[1], b[2], b[3]);
  }

  lemma SwapInvolution(word: U32)
    ensures SwapBytes(SwapBytes(word)) == word
  {
    var b := Store(word);
    LoadStore(word);
    SwapLoaded(b);
    SwapLoaded([b[3], b[2], b[1], b[0]]);
  }

  lemma SwapNonZero(word: U32)
    requires word != 0
    ensures SwapBytes(word) != 0
  {
    LoadStore(word);
  }

  // ----- Whole messages -----

  function StoreTime(t: NetTime): (b: seq<Byte>)
    ensures |b| == 8
  {
    Store(t.sec) + Store(t.frac)
  }

  function TimeAt(packet: seq<Byte>, offset: nat): NetTime
    requires offset + 8 <= |packet|
  {
    NetTime(Load(packet[offset..offset + 4]), Load(packet[offset + 4..offset + 8]))
  }

  /** `pbuf_copy_partial` from `SNTP_OFFSET_TIMESTAMPS`, which is 40 + 8 - 24. */
  function ExtractTimestamps(packet: seq<Byte>): Timestamps
    requires |packet| == SNTP_MSG_LEN
  {
    Timestamps(TimeAt(packet, SNTP_OFFSET_ORIGINATE_TIME),
               TimeAt(packet, SNTP_OFFSET_RECEIVE_TIME),
               TimeAt(packet, SNTP_OFFSET_TRANSMIT_TIME))
  }

  /** A request: mode byte, zeros, and the transmit timestamp in the last eight bytes. */
  function RequestMessage(stamp: NetTime): (message: seq<Byte>)
    ensures |message| == SNTP_MSG_LEN
  {
    [CLIENT_LI_VN_MODE] + seq(SNTP_OFFSET_TRANSMIT_TIME - 1, _ => 0) + StoreTime(stamp)
  }

  lemma StoredTime(packet: seq<Byte>, offset: nat, t: NetTime)
    requires offset + 8 <= |packet| && packet[offset..offset + 8] == StoreTime(t)
    ensures TimeAt(packet, offset) == t
  {
    assert packet[offset..offset + 4] == StoreTime(t)[..4] == Store(t.sec);
    assert packet[offset + 4..offset + 8] == StoreTime(t)[4..] == Store(t.frac);
    LoadStore(t.sec);
    LoadStore(t.frac);
  }

  lemma RequestStamp(stamp: NetTime)
    ensures RequestMessage(stamp)[SNTP_OFFSET_TRANSMIT_TIME..] == StoreTime(stamp)
    ensures TimeAt(RequestMessage(stamp), SNTP_OFFSET_TRANSMIT_TIME) == stamp
  {
    var message := RequestMessage(stamp);
    StoredTime(message, 40, stamp);
  }

  /** Section 4 of RFC 4330: no leap warning, version 4, client mode; all but the transmit timestamp is zero. */
  lemma RequestHeader(stamp: NetTime)
    ensures var message := RequestMessage(stamp);
            |message| == 48 && message[0] == 0x23 && forall i :: 1 <= i < 40 ==> message[i] == 0
  {
  }

  /** A server's answer to a request stamped `orig`; with stratum 0 it is a Kiss-o'-Death. */
  function ReplyMessage(stratum: Byte, ts: Timestamps): (message: seq<Byte>)
    ensures |message| == SNTP_MSG_LEN
    ensures message[0] == SNTP_MODE_SERVER && message[1] == stratum
  {
    [SNTP_MODE_SERVER, stratum] + seq(SNTP_OFFSET_ORIGINATE_TIME - 2, _ => 0) +
    StoreTime(ts.orig) + StoreTime(ts.recv) + StoreTime(ts.xmit)
  }

  /** The client reads from an answer the three timestamps the server put there. */
  lemma ReplyTimes(stratum: Byte, ts: Timestamps)
    ensures ExtractTimestamps(ReplyMessage(stratum, ts)) == ts
  {
    var message := ReplyMessage(stratum, ts);
    assert message[24..32] == StoreTime(ts.orig);
    assert message[32..40] == StoreTime(ts.recv);
    assert message[40..48] == StoreTime(ts.xmit);
    StoredTime(message, 24, ts.orig);
    StoredTime(message, 32, ts.recv);
    StoredTime(message, 40, ts.xmit);
  }

  /** Two timestamps compare equal as words exactly when their eight bytes agree. */
  lemma TimesEqualBytes(p: seq<Byte>, i: nat, q: seq<Byte>, j: nat)
    requires i + 8 <= |p| && j + 8 <= |q|
    ensures TimeAt(p, i) == TimeAt(q, j) <==> p[i..i + 8] == q[j..j + 8]
  {
    var a, b := p[i..i + 8], q[j..j + 8];
    assert p[i..i + 4] == a[..4] && p[i + 4..i + 8] == a[4..];
    assert q[j..j + 4] == b[..4] && q[j + 4..j + 8] == b[4..];
    if TimeAt(p, i) == TimeAt(q, j) {
      LoadInjective(a[..4], b[..4]);
      LoadInjective(a[4..], b[4..]);
      assert a == a[..4] + a[4..] && b == b[..4] + b[4..];
    }
  }
}
