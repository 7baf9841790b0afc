/** The keep-alive pings of a UDP stream. Times are in nanoseconds. */
module Ping {
  import opened Wrappers
  import opened Bytes

  const PING_RETRY_TIMEOUT := 500_000_000
  const LEGACY_PING: seq<Byte> := [0x50, 0x49, 0x4E, 0x47]
  const SUNSHINE_PING_PAYLOAD_SIZE := 16
  const PING_PACKET_SIZE := 20

  type PingPayload = p: seq<Byte> | |p| == SUNSHINE_PING_PAYLOAD_SIZE witness seq(16, _ => 0)

  function SerializePing(payload: PingPayload, sequenceNumber: u32): (data: seq<Byte>)
    ensures |data| == PING_PACKET_SIZE
  {
    payload + U32ToBytes(sequenceNumber)
  }

  function DeserializePing(data: seq<Byte>): (PingPayload, u32)
    requires |data| == PING_PACKET_SIZE
  {
    (data[..16], U32FromBytes(data[16..20]))
  }

  lemma PingPacketRoundTrip(payload: PingPayload, sequenceNumber: u32, data: seq<Byte>)
    requires |data| == PING_PACKET_SIZE
    ensures DeserializePing(SerializePing(payload, sequenceNumber)) == (payload, sequenceNumber)
    ensures var (p, n) := DeserializePing(data); SerializePing(p, n) == data
  {
    hide U32ToBytes, U32FromBytes;
    var packet := SerializePing(payload, sequenceNumber);
    assert packet[..16] == payload && packet[16..20] == U32ToBytes(sequenceNumber);
    U32RoundTrip(sequenceNumber);
    U32BytesRoundTrip(data[16..20]);
    assert data == data[..16] + data[16..20];
  }

  /** The k-th ping; the 32-bit attempt counter wraps around. */
  function PingBytes(config: Option<PingPayload>, k: nat): seq<Byte> {
    if config.Some? then SerializePing(config.value, k % 0x1_0000_0000) else LEGACY_PING
  }

  function Pings(config: Option<PingPayload>, n: nat): (pings: seq<seq<Byte>>)
    ensures |pings| == n
  {
    seq(n, k requires 0 <= k < n => PingBytes(config, k))
  }

  /** A ping on the wire: the payload, then its number with the most significant byte first; or the four letters PING. */
  lemma PingOnTheWire(config: Option<PingPayload>, k: nat)
    ensures config.None? ==> PingBytes(config, k) == [80, 73, 78, 71]
    ensures config.Some? ==>
              var p := PingBytes(config, k);
              && |p| == 20 && p[..16] == config.value
              && 16777216 * ToInt(p[16]) + 65536 * ToInt(p[17]) + 256 * ToInt(p[18]) + ToInt(p[19]) == k % 4294967296
  {
    hide ToInt, FromInt;
    if config.Some? {
      var n, p := k % 4294967296, PingBytes(config, k);
      assert p[16..] == U32ToBytes(n);
      assert p[16] == U32ToBytes(n)[0] && p[17] == U32ToBytes(n)[1] && p[18] == U32ToBytes(n)[2] && p[19] == U32ToBytes(n)[3];
      NumberInFour(n);
    }
  }

  lemma NumberInFour(n: u32)
    ensures var b := U32ToBytes(n); 16777216 * ToInt(b[0]) + 65536 * ToInt(b[1]) + 256 * ToInt(b[2]) + ToInt(b[3]) == n
  {
    hide ToInt, FromInt;
    var hi, lo := n / 65536, n % 65536;
    assert U32ToBytes(n) == [FromInt(hi / 256), FromInt(hi % 256), FromInt(lo / 256), FromInt(lo % 256)];
    IntRoundTrip(hi / 256);
    IntRoundTrip(hi % 256);
    IntRoundTrip(lo / 256);
    IntRoundTrip(lo % 256);
  }

  // ---------- when pings are queued ----------

  /** When a sender made at `start` and told the given times, in that order, queues its pings. */
  function PingTimes(start: nat, times: seq<nat>): (queuedAt: seq<nat>)
    ensures |queuedAt| > 0
  {
    if times == [] then [start]
    else
      var before, now := PingTimes(start, times[..|times| - 1]), times[|times| - 1];
      if now >= start + 500_000_000 * |before| then before + [now] else before
  }

  lemma PingTimesGrow(start: nat, times: seq<nat>, now: nat)
    ensures
      var before := PingTimes(start, times);
      PingTimes(start, times + [now]) == if now >= start + 500_000_000 * |before| then before + [now] else before
  {
    assert (times + [now])[..|times|] == times;
  }

  /** Pings never come faster than every half second, and each is queued at a time the sender was told. */
  lemma {:induction false} PingsAreSlowEnough(start: nat, times: seq<nat>)
    ensures
      var q := PingTimes(start, times);
      && q[0] == start && |q| <= |times| + 1
      && forall k :: 0 < k < |q| ==> q[k] >= start + 500_000_000 * k && q[k] in times
  {
    if times != [] {
      PingsAreSlowEnough(start, times[..|times| - 1]);
    }
  }

  /** And they keep up: if the sender is told one after the other that 1, 2, 3, ... half seconds are over, with any
      other times between, there are as many pings besides the first. */
  lemma {:induction false} PingsKeepUp(start: nat, times: seq<nat>, due: seq<nat>)
    requires forall i :: 0 <= i < |due| ==> due[i] < |times| && times[due[i]] >= start + 500_000_000 * (i + 1)
    requires forall i, j :: 0 <= i < j < |due| ==> due[i] < due[j]
    ensures |PingTimes(start, times)| >= |due| + 1
    decreases |times|
  {
    if times != [] {
      var last := |times| - 1;
      if due != [] && due[|due| - 1] == last {
        PingsKeepUp(start, times[..last], due[..|due| - 1]);
      } else {
        PingsKeepUp(start, times[..last], due);
      }
    }
  }

  class PingSender {
    const config: Option<PingPayload>
    var now: nat
    var nextPingSend: nat
    var nextAttempt: u32
    var transmits: seq<seq<Byte>>

    /** When the sender was made, when each ping was queued, and the pings handed out. */
    ghost const start: nat
    ghost var queuedAt: seq<nat>
    ghost var polled: seq<seq<Byte>>

    /** Pings 0, 1, 2, ... in order, none before its time, and the next one due half a second after the last. */
    ghost predicate Valid()
      reads this
    {
      && nextAttempt == |queuedAt| % 0x1_0000_0000
      && nextPingSend == start + PING_RETRY_TIMEOUT * |queuedAt|
      && polled + transmits == Pings(config, |queuedAt|)
      && forall k :: 0 <= k < |queuedAt| ==> queuedAt[k] >= start + PING_RETRY_TIMEOUT * k
    }

    /** The next ping to be handed out is the one with the number of those already handed out. */
    lemma NextIsNumbered()
      requires Valid()
      ensures |polled| <= |queuedAt| && (transmits == [] <==> |polled| == |queuedAt|)
      ensures transmits != [] ==> transmits[0] == PingBytes(config, |polled|)
    {
      assert |polled + transmits| == |queuedAt|;
      if transmits != [] {
        assert (polled + transmits)[|polled|] == transmits[0];
      }
    }

    constructor (now: nat, config: Option<PingPayload>)
      ensures Valid() && start == now && this.config == config
      ensures queuedAt == [now] && polled == [] && transmits == [PingBytes(config, 0)]
    {
      this.now, this.config, this.start := now, config, now;
      nextPingSend, nextAttempt, transmits := now, 0, [];
      queuedAt, polled := [], [];
      new;
      AdvancePacket();
    }

    method AdvancePacket()
      requires Valid() && now >= nextPingSend
      modifies this
      ensures Valid() && polled == old(polled) && now == old(now)
      ensures queuedAt == old(queuedAt) + [now]
      ensures transmits == old(transmits) + [PingBytes(config, |old(queuedAt)|)]
    {
      nextPingSend := nextPingSend + PING_RETRY_TIMEOUT;
      PushPacket(nextAttempt);
      nextAttempt := (nextAttempt + 1) % 0x1_0000_0000;
      queuedAt := queuedAt + [now];
      assert polled + transmits == old(polled + transmits) + [PingBytes(config, |old(queuedAt)|)];
    }

    method PushPacket(sequenceNumber: u32)
      modifies this`transmits
      ensures transmits == old(transmits) + [if config.Some? then SerializePing(config.value, sequenceNumber) else LEGACY_PING]
    {
      if config.Some? {
        transmits := transmits + [SerializePing(config.value, sequenceNumber)];
      } else {
        transmits := transmits + [LEGACY_PING];
      }
    }

    method PollTransmit() returns (r: Option<seq<Byte>>)
      requires Valid()
      modifies this
      ensures Valid() && queuedAt == old(queuedAt)
      ensures r.None? <==> |old(polled)| == |queuedAt|
      ensures r.Some? ==> r.value == PingBytes(config, |old(polled)|)
      ensures r.None? ==> transmits == old(transmits) && polled == old(polled)
      ensures r.Some? ==> polled == old(polled) + [r.value] && transmits == old(transmits)[1..]
    {
      NextIsNumbered();
      if transmits == [] {
        return None;
      }
      r := Some(transmits[0]);
      assert transmits == [transmits[0]] + transmits[1..];
      polled := polled + [transmits[0]];
      transmits := transmits[1..];
      assert polled + transmits == old(polled + transmits);
    }

    /** Queues one ping if it is due. */
    method HandleTimeout(now: nat)
      requires Valid()
      modifies this
      ensures Valid() && this.now == now && polled == old(polled)
      ensures queuedAt == if now >= start + 500_000_000 * |old(queuedAt)| then old(queuedAt) + [now] else old(queuedAt)
    {
      this.now := now;
      if this.now < nextPingSend {
        return;
      }
      AdvancePacket();
    }
  }
}
