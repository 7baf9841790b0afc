/**
 The receiver's buffers as a value, and what each operation of the receiver does to them.
 The class AudioDepayloader.AudioDepayloader is proved to act exactly like this.
 */
module AudioBuffers {
  import opened Wrappers
  import opened Bytes
  import opened AudioPacket
  import ReedSolomon

  datatype DataPacket = DataPacket(timestamp: u32, payload: seq<Byte>)

  datatype FecPacket = FecPacket(header: AudioFecHeader, payload: seq<Byte>)

  /** A frame for the decoder; the timestamp is in milliseconds. */
  datatype AudioFrame = AudioFrame(timestamp: u32, buffer: seq<Byte>)

  datatype DepayloaderError = BufferTooSmall | Code(error: ReedSolomon.CodeError)

  /** Decryption of the payload with the given sequence number, if the stream is encrypted. */
  type Decryption = Option<(u16, seq<Byte>) -> Option<seq<Byte>>>

  function Open(decryption: Decryption, sequenceNumber: u16, payload: seq<Byte>): Option<seq<Byte>> {
    if decryption.None? then Some(payload) else decryption.value(sequenceNumber, payload)
  }

  datatype Buffers = Buffers(current: u16, data: map<u16, DataPacket>, fec: seq<FecPacket>, fecEnabled: bool)

  // ---------- the FEC queue ----------

  function Base(p: FecPacket): u16 {
    p.header.baseSequenceNumber
  }

  predicate Sorted(q: seq<FecPacket>) {
    forall i, j :: 0 <= i < j < |q| ==> Base(q[i]) <= Base(q[j])
  }

  /** While decoding is enabled every queued block starts at a multiple of four. */
  predicate Aligned(s: Buffers) {
    s.fecEnabled ==> forall i :: 0 <= i < |s.fec| ==> Base(s.fec[i]) % 4 == 0
  }

  predicate Ready(s: Buffers) {
    Sorted(s.fec) && Aligned(s)
  }

  /** The first queued packet of the block, or the length of the queue. */
  function FirstOf(q: seq<FecPacket>, base: u16): (i: nat)
    ensures i <= |q|
    ensures i < |q| ==> Base(q[i]) == base
    ensures forall k :: 0 <= k < i ==> Base(q[k]) != base
  {
    if q == [] || Base(q[0]) == base then 0 else 1 + FirstOf(q[1..], base)
  }

  /** Where a block that is not queued yet belongs. */
  function LowerBound(q: seq<FecPacket>, base: u16): (i: nat)
    ensures i <= |q|
    ensures forall k :: 0 <= k < i ==> Base(q[k]) < base
    ensures i < |q| ==> base <= Base(q[i])
  {
    if q == [] || base <= Base(q[0]) then 0 else 1 + LowerBound(q[1..], base)
  }

  /** The first queued packet whose block covers the sequence number, or the length of the queue. */
  function FirstCovering(q: seq<FecPacket>, sequenceNumber: u16): (i: nat)
    ensures i <= |q|
    ensures i < |q| ==> Covers(q[i], sequenceNumber)
    ensures forall k :: 0 <= k < i ==> !Covers(q[k], sequenceNumber)
  {
    if q == [] || Covers(q[0], sequenceNumber) then 0 else 1 + FirstCovering(q[1..], sequenceNumber)
  }

  predicate Covers(p: FecPacket, sequenceNumber: u16) {
    Base(p) <= sequenceNumber < SaturatingAdd(Base(p), ReedSolomon.DATA_SHARDS)
  }

  /** The entry of the block that the search comes upon: `hit` if it is one, else the first. */
  function Found(q: seq<FecPacket>, base: u16, hit: nat): (i: nat)
    ensures i <= |q|
    ensures i < |q| ==> Base(q[i]) == base
    ensures i == |q| ==> forall k :: 0 <= k < |q| ==> Base(q[k]) != base
  {
    if hit < |q| && Base(q[hit]) == base then hit else FirstOf(q, base)
  }

  /** A binary search may come upon any entry of the block; `hit` says which one it was. */
  function InsertPosition(q: seq<FecPacket>, p: FecPacket, hit: nat): (at: nat)
    ensures at <= |q|
  {
    var i := Found(q, Base(p), hit);
    if i == |q| then LowerBound(q, Base(p))
    else if p.header.fecShardIndex > q[i].header.fecShardIndex then i + 1 else i
  }

  function InsertFec(q: seq<FecPacket>, p: FecPacket, hit: nat): seq<FecPacket> {
    var at := InsertPosition(q, p, hit);
    q[..at] + [p] + q[at..]
  }

  /** The entries of blocks that start at or after the given number. */
  function FecFrom(q: seq<FecPacket>, minimum: u16): seq<FecPacket> {
    if q == [] then []
    else if Base(q[0]) < minimum then FecFrom(q[1..], minimum)
    else [q[0]] + FecFrom(q[1..], minimum)
  }

  // ---------- reconstruction ----------

  /** The packets that take the places of the first and the second parity shard of the block. */
  function ParitySlots(q: seq<FecPacket>, base: u16): (Option<FecPacket>, Option<FecPacket>)
    requires FirstOf(q, base) < |q|
  {
    var i := FirstOf(q, base);
    if q[i].header.fecShardIndex > 0 then (None, Some(q[i]))
    else (Some(q[i]), if i + 1 < |q| && Base(q[i + 1]) == base then Some(q[i + 1]) else None)
  }

  function Lookup(data: map<u16, DataPacket>, sequenceNumber: u16): Option<DataPacket> {
    if sequenceNumber in data then Some(data[sequenceNumber]) else None
  }

  function DataPayload(p: Option<DataPacket>): Option<seq<Byte>> {
    if p.Some? then Some(p.value.payload) else None
  }

  function FecPayload(p: Option<FecPacket>): Option<seq<Byte>> {
    if p.Some? then Some(p.value.payload) else None
  }

  /** The block's shards at hand. */
  function Shards(s: Buffers, base: u16): ReedSolomon.Received
    requires base + 3 < 0x1_0000 && FirstOf(s.fec, base) < |s.fec|
  {
    var slots := ParitySlots(s.fec, base);
    [DataPayload(Lookup(s.data, base)), DataPayload(Lookup(s.data, base + 1)),
     DataPayload(Lookup(s.data, base + 2)), DataPayload(Lookup(s.data, base + 3)),
     FecPayload(slots.0), FecPayload(slots.1)]
  }

  function Saturating32(a: u32, b: u32): u32 {
    if a < b then 0 else a - b
  }

  /** The timestamp step of the block, measured at the first data packet present after its first one. */
  function TimestampStep(data: map<u16, DataPacket>, base: u16, baseTimestamp: u32): u32
    requires base + 3 < 0x1_0000
    requires base + 1 in data || base + 2 in data || base + 3 in data
  {
    if base + 1 in data then Saturating32(data[base + 1].timestamp, baseTimestamp)
    else if base + 2 in data then Saturating32(data[base + 2].timestamp, baseTimestamp) / 2
    else Saturating32(data[base + 3].timestamp, baseTimestamp) / 3
  }

  function RestoredTimestamp(baseTimestamp: u32, step: u32, index: nat): u32 {
    (baseTimestamp + step * index) % 0x1_0000_0000
  }

  /** The data packets with the missing ones of the block put in. */
  function Restore(data: map<u16, DataPacket>, base: u16, baseTimestamp: u32, step: u32, shards: seq<ReedSolomon.Shard>)
    : map<u16, DataPacket>
    requires base + 3 < 0x1_0000 && |shards| == ReedSolomon.DATA_SHARDS
  {
    map n: u16 | n in data.Keys + {base, base + 1, base + 2, base + 3} ::
      if n in data then data[n]
      else DataPacket(RestoredTimestamp(baseTimestamp, step, n - base), shards[n - base])
  }

  /** Four shards of which at most two are parity include two data shards, so one after the first. */
  lemma StepIsMeasurable(s: Buffers, base: u16)
    requires base + 3 < 0x1_0000 && FirstOf(s.fec, base) < |s.fec|
    requires ReedSolomon.Count(Shards(s, base)) >= ReedSolomon.DATA_SHARDS
    ensures base + 1 in s.data || base + 2 in s.data || base + 3 in s.data
  {
  }

  lemma QueuedBaseFits(s: Buffers, base: u16)
    requires Ready(s) && s.fecEnabled && FirstOf(s.fec, base) < |s.fec|
    ensures base % 4 == 0 && base + 3 < 0x1_0000
  {
  }

  predicate AllDataPresent(s: Buffers, base: u16)
    requires base + 3 < 0x1_0000
  {
    base in s.data && base + 1 in s.data && base + 2 in s.data && base + 3 in s.data
  }

  function Reconstruct(s: Buffers, base: u16): (r: (Buffers, Result<bool, ReedSolomon.CodeError>))
    requires Ready(s)
  {
    if !s.fecEnabled || FirstOf(s.fec, base) == |s.fec| then (s, Success(false))
    else
      QueuedBaseFits(s, base);
      var shards := Shards(s, base);
      if ReedSolomon.Count(shards) < ReedSolomon.DATA_SHARDS then (s, Success(false))
      else if AllDataPresent(s, base) then (s, Success(true))
      else
        match ReedSolomon.ReconstructData(shards)
        case Failure(e) => (s, Failure(e))
        case Success(restored) =>
          StepIsMeasurable(s, base);
          var baseTimestamp := s.fec[FirstOf(s.fec, base)].header.baseTimestamp;
          var step := TimestampStep(s.data, base, baseTimestamp);
          (s.(data := Restore(s.data, base, baseTimestamp, step, restored)), Success(true))
  }

  // ---------- receiving ----------

  type Handled = (Buffers, Result<(), DepayloaderError>)

  function AfterReconstruct(r: (Buffers, Result<bool, ReedSolomon.CodeError>)): Handled {
    (r.0, match r.1 case Success(_) => Success(()) case Failure(e) => Failure(Code(e)))
  }

  function HandleData(s: Buffers, sequenceNumber: u16, packet: DataPacket): Handled
    requires Ready(s)
  {
    if sequenceNumber < s.current then (s, Success(()))
    else
      var stored := s.(data := s.data[sequenceNumber := packet]);
      var i := FirstCovering(s.fec, sequenceNumber);
      if i == |s.fec| then (stored, Success(()))
      else AfterReconstruct(Reconstruct(stored, Base(s.fec[i])))
  }

  function HandleFec(s: Buffers, packet: FecPacket, hit: nat): Handled
    requires Ready(s)
  {
    if !s.fecEnabled then (s, Success(()))
    else
      var checked := s.(fecEnabled := Base(packet) % 4 == 0);
      if s.current > SaturatingAdd(Base(packet), ReedSolomon.TOTAL_SHARDS) then (checked, Success(()))
      else
        QueuedIsReady(s, packet, hit);
        AfterReconstruct(Reconstruct(checked.(fec := InsertFec(s.fec, packet, hit)), Base(packet)))
  }

  function Handle(s: Buffers, packet: seq<Byte>, hit: nat): Handled
    requires Ready(s)
  {
    if |packet| < HEADER_SIZE then (s, Failure(BufferTooSmall))
    else
      var rtp := DeserializeRtp(packet[..HEADER_SIZE]);
      if rtp.packetType == RTP_PAYLOAD_TYPE_AUDIO then
        HandleData(s, rtp.sequenceNumber, DataPacket(rtp.timestamp, packet[HEADER_SIZE..]))
      else if rtp.packetType == RTP_PAYLOAD_TYPE_AUDIO_FEC && |packet| >= HEADER_SIZE + HEADER_SIZE then
        HandleFec(s, FecPacket(DeserializeFec(packet[HEADER_SIZE..HEADER_SIZE + HEADER_SIZE]),
                               packet[HEADER_SIZE + HEADER_SIZE..]), hit)
      else (s, Success(()))
  }

  // ---------- emitting ----------

  function Prune(s: Buffers): Buffers {
    var minimum := SaturatingSub(s.current, ReedSolomon.DATA_SHARDS);
    s.(data := map n: u16 | n in s.data && n >= minimum :: s.data[n], fec := FecFrom(s.fec, minimum))
  }

  function Advance(s: Buffers): Buffers {
    Prune(s.(current := WrappingAdd(s.current, 1)))
  }

  /** How often the sequence number can still wrap around while packets keep being found. */
  function WrapsLeft(s: Buffers): nat {
    if 0 in s.data then (if s.current >= 5 then 2 else 1) else (if s.current > 0 then 1 else 0)
  }

  /** Emitting a packet uses up a wrap or moves the sequence number on. */
  lemma AdvanceDecreases(s: Buffers)
    requires s.current in s.data
    ensures WrapsLeft(Advance(s)) < WrapsLeft(s)
         || (WrapsLeft(Advance(s)) == WrapsLeft(s) && Advance(s).current > s.current)
  {
  }

  /** Emits the packet with the current sequence number; one that does not decrypt is passed over. */
  function Poll(s: Buffers, decryption: Decryption): (Buffers, Option<AudioFrame>)
    decreases WrapsLeft(s), 0x1_0000 - s.current
  {
    if s.current !in s.data then (Prune(s), None)
    else
      var packet := s.data[s.current];
      AdvanceDecreases(s);
      match Open(decryption, s.current, packet.payload)
      case Some(buffer) => (Advance(s), Some(AudioFrame(packet.timestamp, buffer)))
      case None => Poll(Advance(s), decryption)
  }

  /** The least stored sequence number at or after n. */
  function NextStored(data: map<u16, DataPacket>, n: nat): (r: Option<u16>)
    requires n <= 0x1_0000
    ensures r.Some? ==> n <= r.value && r.value in data && forall k: u16 :: n <= k < r.value ==> k !in data
    ensures r.None? ==> forall k: u16 :: n <= k ==> k !in data
    decreases 0x1_0000 - n
  {
    if n == 0x1_0000 then None else if n in data then Some(n) else NextStored(data, n + 1)
  }

  function Skip(s: Buffers): Buffers {
    match NextStored(s.data, s.current)
    case Some(n) => s.(current := n)
    case None => s
  }

  // ---------- what every operation keeps ----------

  lemma InsertPositionFits(q: seq<FecPacket>, p: FecPacket, hit: nat)
    requires Sorted(q)
    ensures var at := InsertPosition(q, p, hit);
            && (forall k :: 0 <= k < at ==> Base(q[k]) <= Base(p))
            && (forall k :: at <= k < |q| ==> Base(p) <= Base(q[k]))
  {
  }

  lemma InsertedElements(q: seq<FecPacket>, p: FecPacket, hit: nat)
    ensures forall x :: x in InsertFec(q, p, hit) <==> x == p || x in q
  {
    hide InsertPosition, LowerBound;
    var at := InsertPosition(q, p, hit);
    assert q == q[..at] + q[at..];
  }

  lemma InsertKeepsSorted(q: seq<FecPacket>, p: FecPacket, hit: nat)
    requires Sorted(q)
    ensures Sorted(InsertFec(q, p, hit))
  {
    InsertPositionFits(q, p, hit);
    hide InsertPosition, LowerBound;
  }

  lemma LowerBoundIsUnique(q: seq<FecPacket>, base: u16, i: nat)
    requires i <= |q|
    requires forall k :: 0 <= k < i ==> Base(q[k]) < base
    requires i < |q| ==> base <= Base(q[i])
    ensures i == LowerBound(q, base)
  {
  }

  lemma {:induction false} FecFromIsSliced(q: seq<FecPacket>, minimum: u16)
    requires Sorted(q)
    ensures FecFrom(q, minimum) == q[LowerBound(q, minimum)..]
  {
    if q != [] {
      if Base(q[0]) >= minimum {
        AllKept(q, minimum);
        assert LowerBound(q, minimum) == 0;
      } else {
        FecFromIsSliced(q[1..], minimum);
        assert LowerBound(q, minimum) == 1 + LowerBound(q[1..], minimum);
        assert q[1..][LowerBound(q[1..], minimum)..] == q[LowerBound(q, minimum)..];
      }
    }
  }

  /** Filtering a sorted queue is the same as popping its front. */
  lemma FecFromIsSuffix(q: seq<FecPacket>, minimum: u16)
    requires Sorted(q)
    ensures FecFrom(q, minimum) == q[LowerBound(q, minimum)..]
    ensures forall i :: 0 <= i < |FecFrom(q, minimum)| ==> FecFrom(q, minimum)[i] in q
    ensures Sorted(FecFrom(q, minimum))
  {
    FecFromIsSliced(q, minimum);
    hide FecFrom, LowerBound;
  }

  lemma {:induction false} AllKept(q: seq<FecPacket>, minimum: u16)
    requires forall i :: 0 <= i < |q| ==> Base(q[i]) >= minimum
    ensures FecFrom(q, minimum) == q
  {
    if q != [] {
      AllKept(q[1..], minimum);
    }
  }

  lemma ReconstructKeepsQueue(s: Buffers, base: u16)
    requires Ready(s)
    ensures var r := Reconstruct(s, base).0; r.fec == s.fec && r.fecEnabled == s.fecEnabled && r.current == s.current
    ensures forall n: u16 :: n in s.data ==> n in Reconstruct(s, base).0.data && Reconstruct(s, base).0.data[n] == s.data[n]
  {
    hide ReedSolomon.ReconstructData, ReedSolomon.Count, Shards;
  }

  lemma HandleDataKeepsReady(s: Buffers, sequenceNumber: u16, packet: DataPacket)
    requires Ready(s)
    ensures Ready(HandleData(s, sequenceNumber, packet).0)
    ensures HandleData(s, sequenceNumber, packet).0.current == s.current
  {
    hide Reconstruct;
    var stored := s.(data := s.data[sequenceNumber := packet]);
    var i := FirstCovering(s.fec, sequenceNumber);
    if i < |s.fec| {
      ReconstructKeepsQueue(stored, Base(s.fec[i]));
    }
  }

  lemma QueuedIsReady(s: Buffers, packet: FecPacket, hit: nat)
    requires Ready(s)
    ensures Ready(s.(fecEnabled := s.fecEnabled && Base(packet) % 4 == 0, fec := InsertFec(s.fec, packet, hit)))
  {
    InsertKeepsSorted(s.fec, packet, hit);
    InsertedElements(s.fec, packet, hit);
    hide InsertFec, Sorted;
    var queue := InsertFec(s.fec, packet, hit);
    if s.fecEnabled && Base(packet) % 4 == 0 {
      forall i | 0 <= i < |queue| ensures Base(queue[i]) % 4 == 0 {
        assert queue[i] in queue;
      }
    }
  }

  lemma HandleFecKeepsReady(s: Buffers, packet: FecPacket, hit: nat)
    requires Ready(s)
    ensures Ready(HandleFec(s, packet, hit).0) && HandleFec(s, packet, hit).0.current == s.current
  {
    hide Reconstruct, InsertFec;
    if s.fecEnabled {
      QueuedIsReady(s, packet, hit);
      ReconstructKeepsQueue(s.(fecEnabled := Base(packet) % 4 == 0, fec := InsertFec(s.fec, packet, hit)), Base(packet));
    }
  }

  /** Whatever bytes arrive, the queue stays sorted and no block number can overflow while decoding is on. */
  lemma HandleKeepsReady(s: Buffers, packet: seq<Byte>, hit: nat)
    requires Ready(s)
    ensures Ready(Handle(s, packet, hit).0) && Handle(s, packet, hit).0.current == s.current
  {
    hide DeserializeRtp, DeserializeFec, HandleData, HandleFec, Ready;
    if |packet| >= HEADER_SIZE {
      var rtp := DeserializeRtp(packet[..HEADER_SIZE]);
      HandleDataKeepsReady(s, rtp.sequenceNumber, DataPacket(rtp.timestamp, packet[HEADER_SIZE..]));
      if |packet| >= HEADER_SIZE + HEADER_SIZE {
        HandleFecKeepsReady(s, FecPacket(DeserializeFec(packet[HEADER_SIZE..HEADER_SIZE + HEADER_SIZE]),
                                         packet[HEADER_SIZE + HEADER_SIZE..]), hit);
      }
    }
  }

  lemma PruneKeepsReady(s: Buffers)
    requires Ready(s)
    ensures Ready(Prune(s))
  {
    FecFromIsSuffix(s.fec, SaturatingSub(s.current, ReedSolomon.DATA_SHARDS));
  }

  lemma {:induction false} PollKeepsReady(s: Buffers, decryption: Decryption)
    requires Ready(s)
    ensures Ready(Poll(s, decryption).0)
    decreases WrapsLeft(s), 0x1_0000 - s.current
  {
    hide Prune;
    PruneKeepsReady(s);
    if s.current in s.data {
      PruneKeepsReady(s.(current := WrappingAdd(s.current, 1)));
      AdvanceDecreases(s);
      if Open(decryption, s.current, s.data[s.current].payload).None? {
        PollKeepsReady(Advance(s), decryption);
      }
    }
  }

  lemma SkipKeepsReady(s: Buffers)
    requires Ready(s)
    ensures Ready(Skip(s))
  {
  }

  /** A frame that comes out uses up a wrap or moves the position on. */
  lemma {:induction false} PollDecreases(s: Buffers, decryption: Decryption)
    ensures var (r, output) := Poll(s, decryption);
            output.Some? ==> WrapsLeft(r) < WrapsLeft(s) || (WrapsLeft(r) == WrapsLeft(s) && r.current > s.current)
    decreases WrapsLeft(s), 0x1_0000 - s.current
  {
    hide WrapsLeft, Advance;
    if s.current in s.data {
      AdvanceDecreases(s);
      if Open(decryption, s.current, s.data[s.current].payload).None? {
        PollDecreases(Advance(s), decryption);
      }
    }
  }

  /** The k-th sequence number from the given one on. */
  function Later(n: u16, k: nat): u16 {
    WrappingAdd(n, k)
  }

  lemma LaterStill(n: u16, k: nat)
    ensures Later(WrappingAdd(n, 1), k) == Later(n, k + 1) && Later(n, 0) == n
    ensures n + k < 0x1_0000 ==> Later(n, k) == n + k
  {
  }

  /** A packet with this number is stored, but it does not decrypt. */
  predicate IsBad(data: map<u16, DataPacket>, decryption: Decryption, n: u16) {
    n in data && Open(decryption, n, data[n].payload).None?
  }

  /** The poll passes over k stored packets that do not decrypt, and stops at the one behind them. */
  predicate PassesOver(s: Buffers, decryption: Decryption, k: nat) {
    var (r, output) := Poll(s, decryption);
    var stop := Later(s.current, k);
    && (forall i :: 0 <= i < k ==> IsBad(s.data, decryption, Later(s.current, i)))
    && match output
       case Some(frame) =>
         && stop in s.data && r.current == Later(s.current, k + 1)
         && Open(decryption, stop, s.data[stop].payload) == Some(frame.buffer) && frame.timestamp == s.data[stop].timestamp
       case None => r.current == stop && stop !in r.data && (s.current + k < 0x1_0000 ==> stop !in s.data)
  }

  /** What a poll returns, told without the loop, from every state and across the wrap: it passes over the stored
      packets that do not decrypt and stops at the first that does, or at the first that is missing by then. */
  lemma {:induction false} PollPassesOverBadPackets(s: Buffers, decryption: Decryption)
    ensures exists k :: PassesOver(s, decryption, k)
    decreases WrapsLeft(s), 0x1_0000 - s.current
  {
    hide FecFrom, Open, WrapsLeft, Later;
    LaterStill(s.current, 0);
    if IsBad(s.data, decryption, s.current) {
      AdvanceDecreases(s);
      PollPassesOverBadPackets(Advance(s), decryption);
      var k :| PassesOver(Advance(s), decryption, k);
      OnePassedOver(s, decryption, k);
    } else {
      AdvanceKeepsLater(s);
      LaterStill(WrappingAdd(s.current, 1), 0);
      assert PassesOver(s, decryption, 0);
    }
  }

  lemma OnePassedOver(s: Buffers, decryption: Decryption, k: nat)
    requires IsBad(s.data, decryption, s.current) && PassesOver(Advance(s), decryption, k)
    ensures PassesOver(s, decryption, k + 1)
  {
    hide FecFrom, Open, WrapsLeft, Later;
    AdvanceKeepsLater(s);
    hide Advance;
    LaterStill(s.current, 0);
    LaterStill(s.current, k + 1);
    forall i | 0 <= i < k + 1 ensures IsBad(s.data, decryption, Later(s.current, i)) {
      if i > 0 {
        LaterStill(s.current, i - 1);
        assert IsBad(Advance(s).data, decryption, Later(Advance(s).current, i - 1));
      }
    }
    LaterStill(s.current, k);
    LaterStill(Advance(s).current, k);
  }

  lemma AdvanceKeepsLater(s: Buffers)
    ensures Advance(s).current == WrappingAdd(s.current, 1)
    ensures s.current != 0xFFFF ==> Advance(s).current == s.current + 1
    ensures s.current != 0xFFFF ==> forall k: u16 :: k >= s.current + 1 ==> (k in Advance(s).data <==> k in s.data)
    ensures forall k: u16 :: k in Advance(s).data ==> k in s.data && Advance(s).data[k] == s.data[k]
  {
    hide FecFrom;
  }
}
