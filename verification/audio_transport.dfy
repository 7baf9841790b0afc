/**
 The sender and the receiver with a network between them that loses, reorders and repeats packets.
 Safety: whatever happens, what comes out are frames that went in, unchanged and in order.
 Completeness: if four of the six packets of each block arrive, every frame comes out.
 */
module AudioTransport {
  import opened Wrappers
  import opened Bytes
  import opened AudioPacket
  import opened AudioBlocks
  import opened AudioBuffers
  import opened FecQueue
  import RS = ReedSolomon

  /** A stream short enough that its sequence numbers do not wrap. */
  datatype Sent = Sent(frames: seq<Frame>, len: nat)

  ghost predicate WellFormed(t: Sent) {
    |t.frames| < 0x1_0000 && Uniform(t.frames, t.len)
  }

  /** The timestamps of a full block go up in equal steps. */
  ghost predicate EvenBlock(t: Sent, b: nat)
    requires 4 * b + 4 <= |t.frames|
  {
    var base, next := t.frames[4 * b].timestamp, t.frames[4 * b + 1].timestamp;
    && base <= next
    && t.frames[4 * b + 2].timestamp == base + 2 * (next - base)
    && t.frames[4 * b + 3].timestamp == base + 3 * (next - base)
  }

  /** The block of frame k, if it is full, is evenly timed. */
  ghost predicate EvenAt(t: Sent, k: nat) {
    4 * (k / 4) + 4 <= |t.frames| ==> EvenBlock(t, k / 4)
  }

  // ---------- what the receiver reads off a packet ----------

  function DataOf(t: Sent, i: nat): DataPacket
    requires i < |t.frames|
  {
    DataPacket(t.frames[i].timestamp, t.frames[i].payload)
  }

  ghost function ParityOf(t: Sent, b: nat, row: nat): FecPacket
    requires WellFormed(t) && 4 * b + 4 <= |t.frames| && row < RS.FEC_SHARDS
  {
    FecPacket(BlockHeader(b, row, t.frames[4 * b].timestamp), RS.Encode(BlockData(t.frames, t.len, b), t.len, row))
  }

  lemma ReadsData(t: Sent, i: nat, s: Buffers, hit: nat)
    requires WellFormed(t) && i < |t.frames| && Ready(s)
    ensures Handle(s, PacketBytes(t.frames, t.len, Data(i)), hit) == HandleData(s, i, DataOf(t, i))
  {
    hide HandleData, HandleFec, DeserializeRtp, DeserializeFec, RtpBytes, FecBytes;
    var h := DataHeader(i, t.frames[i].timestamp);
    var packet := PacketBytes(t.frames, t.len, Data(i));
    assert packet[..HEADER_SIZE] == RtpBytes(h) && packet[HEADER_SIZE..] == t.frames[i].payload;
    RtpRoundTrip(h, RtpBytes(h));
  }

  lemma ReadsParity(t: Sent, b: nat, row: nat, s: Buffers, hit: nat)
    requires WellFormed(t) && 4 * b + 4 <= |t.frames| && row < RS.FEC_SHARDS && Ready(s)
    ensures Handle(s, PacketBytes(t.frames, t.len, Parity(b, row)), hit) == HandleFec(s, ParityOf(t, b, row), hit)
  {
    hide HandleData, HandleFec, DeserializeRtp, DeserializeFec, RtpBytes, FecBytes, RS.Encode;
    var h := ParityHeader(b, row);
    var f := BlockHeader(b, row, t.frames[4 * b].timestamp);
    var packet := PacketBytes(t.frames, t.len, Parity(b, row));
    assert packet[..HEADER_SIZE] == RtpBytes(h);
    assert packet[HEADER_SIZE..HEADER_SIZE + HEADER_SIZE] == FecBytes(f);
    assert packet[HEADER_SIZE + HEADER_SIZE..] == RS.Encode(BlockData(t.frames, t.len, b), t.len, row);
    RtpRoundTrip(h, RtpBytes(h));
    FecRoundTrip(f, FecBytes(f));
  }

  /** The parity packets of a stream of any length are about an aligned block, and carry the number and the
      timestamp of its first data packet. */
  lemma ParityNamesItsBlock(frames: seq<Frame>, len: nat, b: nat, row: nat)
    requires Uniform(frames, len) && 4 * b + 4 <= |frames| && row < RS.FEC_SHARDS
    ensures
      var parity := PacketBytes(frames, len, Parity(b, row));
      var first := PacketBytes(frames, len, Data(4 * b));
      && |parity| >= HEADER_SIZE + HEADER_SIZE && |first| >= HEADER_SIZE
      && var h := DeserializeFec(parity[HEADER_SIZE..HEADER_SIZE + HEADER_SIZE]);
         var d := DeserializeRtp(first[..HEADER_SIZE]);
         h.baseSequenceNumber % 4 == 0 && h.baseSequenceNumber == d.sequenceNumber && h.baseTimestamp == d.timestamp
  {
    hide DeserializeRtp, DeserializeFec, RtpBytes, FecBytes, RS.Encode, BlockData;
    var parity, first := PacketBytes(frames, len, Parity(b, row)), PacketBytes(frames, len, Data(4 * b));
    var h, d := BlockHeader(b, row, frames[4 * b].timestamp), DataHeader(4 * b, frames[4 * b].timestamp);
    assert parity[HEADER_SIZE..HEADER_SIZE + HEADER_SIZE] == FecBytes(h);
    assert first[..HEADER_SIZE] == RtpBytes(d);
    FecRoundTrip(h, FecBytes(h));
    RtpRoundTrip(d, RtpBytes(d));
  }

  /** No packet of a stream of any length makes a receiver switch its FEC decoder off. */
  lemma StreamKeepsDecoderOn(frames: seq<Frame>, len: nat, id: PacketId, s: Buffers, hit: nat)
    requires Uniform(frames, len) && InStream(id, |frames|, true) && Ready(s)
    ensures Handle(s, PacketBytes(frames, len, id), hit).0.fecEnabled == s.fecEnabled
  {
    hide DeserializeRtp, DeserializeFec, RtpBytes, FecBytes, RS.Encode, BlockData, InsertFec, FirstCovering, Restore, Shards, FirstOf, Ready;
    match id
    case Data(i) =>
      var h := DataHeader(i, frames[i].timestamp);
      assert PacketBytes(frames, len, id)[..HEADER_SIZE] == RtpBytes(h);
      RtpRoundTrip(h, RtpBytes(h));
    case Parity(b, row) =>
      ParityNamesItsBlock(frames, len, b, row);
      var h := ParityHeader(b, row);
      assert PacketBytes(frames, len, id)[..HEADER_SIZE] == RtpBytes(h);
      RtpRoundTrip(h, RtpBytes(h));
  }

  // ---------- buffers filled from the stream ----------

  /** The queue entry is parity packet `row` of its block. */
  ghost predicate Genuine(t: Sent, p: FecPacket)
    requires WellFormed(t)
  {
    && Base(p) % 4 == 0 && Base(p) + 4 <= |t.frames| && p.header.fecShardIndex < RS.FEC_SHARDS
    && p == ParityOf(t, Base(p) / 4, p.header.fecShardIndex)
  }

  ghost predicate GenuineData(t: Sent, data: map<u16, DataPacket>) {
    forall k :: k in data ==>
      && k < |t.frames|
      && data[k].payload == t.frames[k].payload
      && (EvenAt(t, k) ==> data[k].timestamp == t.frames[k].timestamp)
  }

  /** Parity packets of the stream in the order of their blocks, each any number of times. */
  ghost predicate GenuineQueue(t: Sent, q: seq<FecPacket>)
    requires WellFormed(t)
  {
    Sorted(q) && forall i :: 0 <= i < |q| ==> Genuine(t, q[i])
  }

  ghost predicate GenuineBuffers(t: Sent, s: Buffers)
    requires WellFormed(t)
  {
    s.current <= |t.frames| && GenuineData(t, s.data) && GenuineQueue(t, s.fec)
  }

  lemma GenuineIsReady(t: Sent, s: Buffers)
    requires WellFormed(t) && GenuineQueue(t, s.fec)
    ensures Ready(s) && RowsFit(s.fec)
  {
    hide ParityOf;
    forall i | 0 <= i < |s.fec| ensures Base(s.fec[i]) % 4 == 0 && Row(s.fec[i]) < RS.FEC_SHARDS {
      assert Genuine(t, s.fec[i]);
    }
  }

  lemma EntryOfBlock(t: Sent, q: seq<FecPacket>, b: nat, p: FecPacket)
    requires WellFormed(t) && GenuineQueue(t, q) && 4 * b + 4 <= |t.frames|
    requires p in q && Base(p) == 4 * b
    ensures Row(p) < RS.FEC_SHARDS && p == ParityOf(t, b, Row(p))
  {
    hide ParityOf, Sorted;
    var k :| 0 <= k < |q| && q[k] == p;
    assert Genuine(t, q[k]);
  }

  /** What the parity slots hold: their own row of the block, unless row 0 is doubled; then both hold row 0. */
  lemma SlotsAreGenuine(t: Sent, q: seq<FecPacket>, b: nat)
    requires WellFormed(t) && GenuineQueue(t, q) && 4 * b + 4 <= |t.frames| && FirstOf(q, 4 * b) < |q|
    ensures
      var slots := ParitySlots(q, 4 * b);
      && (slots.0.Some? ==> slots.0.value == ParityOf(t, b, 0))
      && (slots.1.Some? ==> slots.1.value == ParityOf(t, b, if DoubleZero(q, 4 * b) then 0 else 1))
      && (DoubleZero(q, 4 * b) ==> slots.0.Some? && slots.1.Some?)
  {
    hide FirstOf, ParityOf, ParitySlots, GenuineQueue, DoubleZero;
    GenuineIsReady(t, Buffers(0, map[], q, true));
    SlotsHoldRowsUnlessDoubled(q, 4 * b);
    var slots := ParitySlots(q, 4 * b);
    if slots.0.Some? {
      EntryOfBlock(t, q, b, slots.0.value);
    }
    if slots.1.Some? {
      EntryOfBlock(t, q, b, slots.1.value);
    }
  }

  /** With row 0 first in every block each parity packet sits in its own slot, exactly if it is queued. */
  lemma SlotsAreRight(t: Sent, q: seq<FecPacket>, b: nat)
    requires WellFormed(t) && GenuineQueue(t, q) && ZeroFirst(q) && 4 * b + 4 <= |t.frames| && FirstOf(q, 4 * b) < |q|
    ensures
      var slots := ParitySlots(q, 4 * b);
      && (slots.0.Some? ==> slots.0.value == ParityOf(t, b, 0))
      && (slots.1.Some? ==> slots.1.value == ParityOf(t, b, 1))
      && (slots.0.Some? <==> ParityOf(t, b, 0) in q)
      && (slots.1.Some? <==> ParityOf(t, b, 1) in q)
  {
    hide FirstOf, ParityOf, ParitySlots, GenuineQueue, ZeroFirst;
    GenuineIsReady(t, Buffers(0, map[], q, true));
    ZeroFirstSlots(q, 4 * b);
    QueuedIsIn(t, q, b, 0);
    QueuedIsIn(t, q, b, 1);
    var slots := ParitySlots(q, 4 * b);
    if slots.0.Some? {
      EntryOfBlock(t, q, b, slots.0.value);
    }
    if slots.1.Some? {
      EntryOfBlock(t, q, b, slots.1.value);
    }
  }

  lemma QueuedIsIn(t: Sent, q: seq<FecPacket>, b: nat, row: nat)
    requires WellFormed(t) && GenuineQueue(t, q) && 4 * b + 4 <= |t.frames| && row < RS.FEC_SHARDS
    ensures Queued(q, 2 * (4 * b) + row) <==> ParityOf(t, b, row) in q
  {
    hide ParityOf, GenuineQueue;
    ParityNames(t, b, row);
    GenuineIsReady(t, Buffers(0, map[], q, true));
    if Queued(q, 2 * (4 * b) + row) {
      var k :| 0 <= k < |q| && Key(q[k]) == 2 * (4 * b) + row;
      EntryOfBlock(t, q, b, q[k]);
    }
  }

  lemma ParityNames(t: Sent, b: nat, row: nat)
    requires WellFormed(t) && 4 * b + 4 <= |t.frames| && row < RS.FEC_SHARDS
    ensures Base(ParityOf(t, b, row)) == 4 * b && ParityOf(t, b, row).header.fecShardIndex == row
  {
  }

  lemma DataShardIsGenuine(t: Sent, data: map<u16, DataPacket>, b: nat, i: nat)
    requires WellFormed(t) && GenuineData(t, data) && 4 * b + 4 <= |t.frames| && i < RS.DATA_SHARDS
    requires 4 * b + i in data
    ensures data[4 * b + i].payload == BlockData(t.frames, t.len, b)[i]
  {
  }

  /** The shards at hand are those of the block that was sent, but row 0 may stand in the place of row 1. */
  lemma ShardsAreGenuine(t: Sent, s: Buffers, b: nat)
    requires WellFormed(t) && GenuineBuffers(t, s) && 4 * b + 4 <= |t.frames|
    requires FirstOf(s.fec, 4 * b) < |s.fec|
    ensures
      var shards, data := Shards(s, 4 * b), BlockData(t.frames, t.len, b);
      && (forall i :: 0 <= i < RS.DATA_SHARDS && shards[i].Some? ==> shards[i].value == data[i])
      && (shards[4].Some? ==> shards[4].value == RS.Encode(data, t.len, 0))
      && (shards[5].Some? ==> shards[5].value == RS.Encode(data, t.len, if DoubleZero(s.fec, 4 * b) then 0 else 1))
      && (DoubleZero(s.fec, 4 * b) ==> shards[4].Some? && shards[5].Some?)
      && RS.SameLength(shards, t.len)
  {
    hide RS.Encode, ParitySlots, FirstOf, Genuine, GenuineData, BlockData, DoubleZero;
    SlotsAreGenuine(t, s.fec, b);
    forall i | 0 <= i < RS.DATA_SHARDS && 4 * b + i in s.data
      ensures s.data[4 * b + i].payload == BlockData(t.frames, t.len, b)[i]
    {
      DataShardIsGenuine(t, s.data, b, i);
    }
    hide GenuineBuffers;
    var data := BlockData(t.frames, t.len, b);
    assert ParityOf(t, b, 0).payload == RS.Encode(data, t.len, 0) && ParityOf(t, b, 1).payload == RS.Encode(data, t.len, 1);
    hide ParityOf;
    var shards := Shards(s, 4 * b);
    forall i | 0 <= i < RS.DATA_SHARDS && shards[i].Some? ensures shards[i].value == data[i] {
      assert i == 0 || i == 1 || i == 2 || i == 3;
    }
  }

  /** Unless row 0 is doubled, they are part of the block. */
  lemma ShardsArePart(t: Sent, s: Buffers, b: nat)
    requires WellFormed(t) && GenuineBuffers(t, s) && 4 * b + 4 <= |t.frames|
    requires FirstOf(s.fec, 4 * b) < |s.fec| && !DoubleZero(s.fec, 4 * b)
    ensures RS.PartOf(Shards(s, 4 * b), BlockData(t.frames, t.len, b), t.len)
  {
    hide RS.Encode, Shards, FirstOf, BlockData, DoubleZero, GenuineBuffers, RS.SameLength;
    ShardsAreGenuine(t, s, b);
    var data := BlockData(t.frames, t.len, b);
    assert RS.Codeword(data, t.len)
        == [data[0], data[1], data[2], data[3], RS.Encode(data, t.len, 0), RS.Encode(data, t.len, 1)];
  }

  /** In an evenly timed block the step is found exactly, whichever packet it is measured at. */
  lemma StepIsExact(t: Sent, data: map<u16, DataPacket>, b: nat)
    requires 4 * b + 4 <= |t.frames| < 0x1_0000 && EvenBlock(t, b) && GenuineData(t, data)
    requires 4 * b + 1 in data || 4 * b + 2 in data || 4 * b + 3 in data
    ensures TimestampStep(data, 4 * b, t.frames[4 * b].timestamp)
         == t.frames[4 * b + 1].timestamp - t.frames[4 * b].timestamp
  {
    hide EvenBlock, TimestampStep;
    forall k | k in data && k / 4 == b ensures data[k].timestamp == t.frames[k].timestamp {
      assert EvenAt(t, k);
    }
    MeasuredStep(t, data, b);
  }

  lemma MeasuredStep(t: Sent, data: map<u16, DataPacket>, b: nat)
    requires 4 * b + 4 <= |t.frames| < 0x1_0000 && EvenBlock(t, b)
    requires 4 * b + 1 in data || 4 * b + 2 in data || 4 * b + 3 in data
    requires forall k :: k in data && k / 4 == b ==> data[k].timestamp == t.frames[k].timestamp
    ensures TimestampStep(data, 4 * b, t.frames[4 * b].timestamp)
         == t.frames[4 * b + 1].timestamp - t.frames[4 * b].timestamp
  {
    assert 4 * b + 1 in data ==> data[4 * b + 1].timestamp == t.frames[4 * b + 1].timestamp;
    assert 4 * b + 2 in data ==> data[4 * b + 2].timestamp == t.frames[4 * b + 2].timestamp;
    assert 4 * b + 3 in data ==> data[4 * b + 3].timestamp == t.frames[4 * b + 3].timestamp;
  }

  lemma RestoredTimestampsAreExact(t: Sent, b: nat, i: nat)
    requires 4 * b + 4 <= |t.frames| && EvenBlock(t, b) && i < 4
    ensures RestoredTimestamp(t.frames[4 * b].timestamp, t.frames[4 * b + 1].timestamp - t.frames[4 * b].timestamp, i)
         == t.frames[4 * b + i].timestamp
  {
  }

  lemma RestoreIsGenuine(t: Sent, data: map<u16, DataPacket>, b: nat, step: u32)
    requires WellFormed(t) && GenuineData(t, data) && 4 * b + 4 <= |t.frames|
    requires 4 * b + 1 in data || 4 * b + 2 in data || 4 * b + 3 in data
    requires step == TimestampStep(data, 4 * b, t.frames[4 * b].timestamp)
    ensures GenuineData(t, Restore(data, 4 * b, t.frames[4 * b].timestamp, step, BlockData(t.frames, t.len, b)))
  {
    hide RestoredTimestamp, TimestampStep, EvenBlock;
    var restored := Restore(data, 4 * b, t.frames[4 * b].timestamp, step, BlockData(t.frames, t.len, b));
    forall k | k in restored && k !in data
      ensures restored[k].payload == t.frames[k].payload
      ensures EvenAt(t, k) ==> restored[k].timestamp == t.frames[k].timestamp
    {
      if EvenAt(t, k) {
        assert k / 4 == b;
        StepIsExact(t, data, b);
        RestoredTimestampsAreExact(t, b, k - 4 * b);
      }
    }
  }

  function One(b: bool): nat {
    if b then 1 else 0
  }

  /** How many data packets of the block are stored. */
  function DataHeld(data: map<u16, DataPacket>, b: nat): nat
    requires 4 * b + 3 < 0x1_0000
  {
    One(4 * b in data) + One(4 * b + 1 in data) + One(4 * b + 2 in data) + One(4 * b + 3 in data)
  }

  /**
   When repairing a block goes wrong: two data packets are missing, row 0 takes both parity slots, and the two
   parities of the block differ.
   */
  ghost predicate Corrupts(t: Sent, s: Buffers, b: nat)
    requires WellFormed(t)
  {
    && 4 * b + 4 <= |t.frames| && s.fecEnabled
    && DataHeld(s.data, b) == 2 && DoubleZero(s.fec, 4 * b)
    && RS.Encode(BlockData(t.frames, t.len, b), t.len, 0) != RS.Encode(BlockData(t.frames, t.len, b), t.len, 1)
  }

  /** The data that decoding gives is the block's exactly if repairing it does not go wrong. */
  lemma DecodedExactlyIf(t: Sent, s: Buffers, b: nat)
    requires WellFormed(t) && GenuineBuffers(t, s) && Ready(s) && s.fecEnabled && 4 * b + 4 <= |t.frames|
    requires FirstOf(s.fec, 4 * b) < |s.fec| && RS.Count(Shards(s, 4 * b)) >= RS.DATA_SHARDS && !AllDataPresent(s, 4 * b)
    ensures
      var r := RS.ReconstructData(Shards(s, 4 * b));
      && r.Success? && RS.DataShards(r.value, t.len)
      && (forall i :: 0 <= i < RS.DATA_SHARDS && Shards(s, 4 * b)[i].Some? ==> r.value[i] == BlockData(t.frames, t.len, b)[i])
      && (r.value == BlockData(t.frames, t.len, b) <==> !Corrupts(t, s, b))
  {
    hide RS.ReconstructData, RS.Encode, BlockData, FirstOf, ParitySlots, GenuineBuffers, DoubleZero, Shards, Ready;
    ShardsAreGenuine(t, s, b);
    ShardsHeld(s, b);
    var shards, data := Shards(s, 4 * b), BlockData(t.frames, t.len, b);
    if !DoubleZero(s.fec, 4 * b) {
      ShardsArePart(t, s, b);
      RS.ReconstructInvertsEncode(shards, data, t.len);
    } else if DataHeld(s.data, b) == 3 {
      RS.OneMissingNeedsOneParity(shards, data, t.len);
    } else {
      RS.RepeatedRow(shards, data, t.len);
      RS.ReconstructSolves(shards, t.len);
      var restored := RS.ReconstructData(shards).value;
      assert forall i :: 0 <= i < RS.DATA_SHARDS ==> RS.Codeword(restored, t.len)[i] == restored[i];
    }
  }

  lemma ShardsHeld(s: Buffers, b: nat)
    requires 4 * b + 3 < 0x1_0000 && FirstOf(s.fec, 4 * b) < |s.fec|
    ensures
      var shards := Shards(s, 4 * b);
      && DataHeld(s.data, b) == RS.Here(shards[0]) + RS.Here(shards[1]) + RS.Here(shards[2]) + RS.Here(shards[3])
      && (forall i :: 0 <= i < RS.DATA_SHARDS ==> (shards[i].Some? <==> 4 * b + i in s.data))
  {
    hide ParitySlots, FirstOf;
    var shards := Shards(s, 4 * b);
    forall i | 0 <= i < RS.DATA_SHARDS ensures shards[i].Some? <==> 4 * b + i in s.data {
      assert i == 0 || i == 1 || i == 2 || i == 3;
    }
  }

  /**
   Repairing a block never fails. It acts exactly if four shards are at hand, and then completes the block; what is
   stored afterwards is what was sent exactly if repairing does not go wrong.
   */
  lemma ReconstructIsGenuine(t: Sent, s: Buffers, b: nat)
    requires WellFormed(t) && GenuineBuffers(t, s) && Ready(s) && 4 * b + 4 <= |t.frames|
    ensures
      var (r, done) := Reconstruct(s, 4 * b);
      && done.Success? && Ready(r) && r.fec == s.fec && r.current == s.current && r.fecEnabled == s.fecEnabled
      && (GenuineData(t, r.data) <==> !Corrupts(t, s, b))
      && (if done.value then AllDataPresent(r, 4 * b) else r == s)
      && (done.value <==> s.fecEnabled && FirstOf(s.fec, 4 * b) < |s.fec|
                          && RS.Count(Shards(s, 4 * b)) >= RS.DATA_SHARDS)
  {
    ReconstructKeepsQueue(s, 4 * b);
    if s.fecEnabled && FirstOf(s.fec, 4 * b) < |s.fec| {
      ShardsHeld(s, b);
      ShardsAreGenuine(t, s, b);
      if RS.Count(Shards(s, 4 * b)) >= RS.DATA_SHARDS && !AllDataPresent(s, 4 * b) {
        DecodedExactlyIf(t, s, b);
        StepIsMeasurable(s, 4 * b);
        FirstOfIsGenuine(t, s, b);
        RestoredExactlyIf(t, s, b);
      }
    }
    hide Restore, TimestampStep, Shards, RS.ReconstructData, GenuineData, Sorted, Genuine, BlockData;
  }

  /** What is put in is what was sent exactly if what was decoded is. */
  lemma RestoredExactlyIf(t: Sent, s: Buffers, b: nat)
    requires WellFormed(t) && GenuineBuffers(t, s) && Ready(s) && s.fecEnabled && 4 * b + 4 <= |t.frames|
    requires FirstOf(s.fec, 4 * b) < |s.fec| && RS.Count(Shards(s, 4 * b)) >= RS.DATA_SHARDS && !AllDataPresent(s, 4 * b)
    ensures
      var r := Reconstruct(s, 4 * b).0.data;
      && (GenuineData(t, r) <==> !Corrupts(t, s, b))
      && AllDataPresent(Reconstruct(s, 4 * b).0, 4 * b) && Reconstruct(s, 4 * b).1 == Success(true)
  {
    hide RS.ReconstructData, Shards, FirstOf, GenuineQueue, Corrupts, TimestampStep, RS.Count, BlockData, GenuineData, Restore, Ready;
    DecodedExactlyIf(t, s, b);
    StepIsMeasurable(s, 4 * b);
    FirstOfIsGenuine(t, s, b);
    ShardsHeld(s, b);
    var data, restored := BlockData(t.frames, t.len, b), RS.ReconstructData(Shards(s, 4 * b)).value;
    var timestamp := t.frames[4 * b].timestamp;
    var step := TimestampStep(s.data, 4 * b, timestamp);
    assert Reconstruct(s, 4 * b).0.data == Restore(s.data, 4 * b, timestamp, step, restored);
    RestoreCompletes(s.data, 4 * b, timestamp, step, restored);
    RestoreIsGenuine(t, s.data, b, step);
    if GenuineData(t, Restore(s.data, 4 * b, timestamp, step, restored)) {
      forall i | 0 <= i < RS.DATA_SHARDS ensures restored[i] == data[i] {
        RestoredPayload(s.data, 4 * b, timestamp, step, restored, i);
        DataShardIsGenuine(t, Restore(s.data, 4 * b, timestamp, step, restored), b, i);
      }
      assert restored == data;
    }
  }

  lemma RestoredPayload(data: map<u16, DataPacket>, base: u16, timestamp: u32, step: u32, shards: seq<RS.Shard>, i: nat)
    requires base + 3 < 0x1_0000 && |shards| == RS.DATA_SHARDS && i < RS.DATA_SHARDS
    ensures
      var r := Restore(data, base, timestamp, step, shards);
      base + i in r && (base + i !in data ==> r[base + i].payload == shards[i])
  {
  }

  lemma FirstOfIsGenuine(t: Sent, s: Buffers, b: nat)
    requires WellFormed(t) && GenuineBuffers(t, s) && 4 * b + 4 <= |t.frames|
    requires FirstOf(s.fec, 4 * b) < |s.fec|
    ensures s.fec[FirstOf(s.fec, 4 * b)].header.baseTimestamp == t.frames[4 * b].timestamp
  {
    hide GenuineData, BlockData, RS.Encode;
    assert Genuine(t, s.fec[FirstOf(s.fec, 4 * b)]);
  }

  lemma RestoreCompletes(data: map<u16, DataPacket>, base: u16, timestamp: u32, step: u32, shards: seq<RS.Shard>)
    requires base + 3 < 0x1_0000 && |shards| == RS.DATA_SHARDS
    ensures var r := Restore(data, base, timestamp, step, shards);
            base in r && base + 1 in r && base + 2 in r && base + 3 in r
    ensures data.Keys <= Restore(data, base, timestamp, step, shards).Keys
  {
  }

  // ---------- runs ----------

  /** The network delivers a packet, or the application asks for a frame or gives up on a gap. */
  datatype Event = Deliver(id: PacketId, hit: nat) | PollFrame | SkipGap

  /** A frame handed to the application, with the sequence number it came from. */
  datatype Emission = Emission(index: u16, frame: AudioFrame)

  datatype Session = Session(buffers: Buffers, emitted: seq<Emission>, failed: bool)

  function Fresh(fec: bool): Session {
    Session(Buffers(0, map[], [], fec), [], false)
  }

  ghost predicate Possible(t: Sent, e: Event) {
    e.Deliver? ==> InStream(e.id, |t.frames|, true)
  }

  function Step(t: Sent, decryption: Decryption, s: Session, e: Event): Session
    requires WellFormed(t) && Possible(t, e) && Ready(s.buffers)
  {
    match e
    case Deliver(id, hit) =>
      var (buffers, r) := Handle(s.buffers, PacketBytes(t.frames, t.len, id), hit);
      s.(buffers := buffers, failed := s.failed || r.Failure?)
    case PollFrame =>
      var (buffers, output) := Poll(s.buffers, decryption);
      s.(buffers := buffers,
         emitted := if output.Some? then s.emitted + [Emission(WrappingSub(buffers.current, 1), output.value)] else s.emitted)
    case SkipGap =>
      s.(buffers := Skip(s.buffers))
  }

  lemma StepKeepsReady(t: Sent, decryption: Decryption, s: Session, e: Event)
    requires WellFormed(t) && Possible(t, e) && Ready(s.buffers)
    ensures Ready(Step(t, decryption, s, e).buffers)
  {
    hide Ready, Handle, Poll, PacketBytes;
    match e
    case Deliver(id, hit) => HandleKeepsReady(s.buffers, PacketBytes(t.frames, t.len, id), hit);
    case PollFrame => PollKeepsReady(s.buffers, decryption);
    case SkipGap => SkipKeepsReady(s.buffers);
  }

  ghost predicate AllPossible(t: Sent, events: seq<Event>) {
    forall i :: 0 <= i < |events| ==> Possible(t, events[i])
  }

  /** The state after the events, from a fresh receiver. */
  function Run(t: Sent, fec: bool, decryption: Decryption, events: seq<Event>): (s: Session)
    requires WellFormed(t) && AllPossible(t, events)
    ensures Ready(s.buffers)
    decreases |events|
  {
    if events == [] then Fresh(fec)
    else
      var k := |events| - 1;
      var before := Run(t, fec, decryption, events[..k]);
      StepKeepsReady(t, decryption, before, events[k]);
      Step(t, decryption, before, events[k])
  }

  ghost predicate Delivered(events: seq<Event>, id: PacketId) {
    exists i :: 0 <= i < |events| && events[i].Deliver? && events[i].id == id
  }

  ghost predicate DeliveredTwice(events: seq<Event>, id: PacketId) {
    exists i, j :: 0 <= i < j < |events| && events[i].Deliver? && events[j].Deliver? && events[i].id == id && events[j].id == id
  }

  /** The network repeats no parity packet of row 0. */
  ghost predicate RowZeroOnce(events: seq<Event>) {
    forall b: nat :: !DeliveredTwice(events, Parity(b, 0))
  }

  // ---------- safety ----------

  /** The emitted frames are sent frames, unchanged, in increasing order. */
  ghost predicate GenuineOutput(t: Sent, decryption: Decryption, emitted: seq<Emission>, bound: nat) {
    && (forall i :: 0 <= i < |emitted| ==>
          && emitted[i].index < bound && emitted[i].index < |t.frames|
          && Open(decryption, emitted[i].index, t.frames[emitted[i].index].payload) == Some(emitted[i].frame.buffer)
          && (EvenAt(t, emitted[i].index) ==> emitted[i].frame.timestamp == t.frames[emitted[i].index].timestamp))
    && (forall i, j :: 0 <= i < j < |emitted| ==> emitted[i].index < emitted[j].index)
  }

  function IdOf(p: FecPacket): PacketId {
    Parity(Base(p) / 4, Row(p))
  }

  /** The queued parity packets have been delivered, and those queued twice have been delivered twice. */
  ghost predicate QueueDelivered(q: seq<FecPacket>, events: seq<Event>) {
    && (forall i :: 0 <= i < |q| ==> Delivered(events, IdOf(q[i])))
    && (forall i, j :: 0 <= i < j < |q| && IdOf(q[i]) == IdOf(q[j]) ==> DeliveredTwice(events, IdOf(q[i])))
  }

  // ---------- the steps that go wrong ----------

  /** Storing data packet i makes the receiver repair a block wrongly. */
  ghost predicate DataCorrupts(t: Sent, s: Buffers, i: nat)
    requires WellFormed(t) && i < |t.frames|
  {
    var k := FirstCovering(s.fec, i);
    i >= s.current && k < |s.fec| && Corrupts(t, s.(data := s.data[i := DataOf(t, i)]), Base(s.fec[k]) / 4)
  }

  /** Queuing the parity packet does. */
  ghost predicate ParityCorrupts(t: Sent, s: Buffers, b: nat, row: nat, hit: nat)
    requires WellFormed(t) && 4 * b + 4 <= |t.frames| && row < RS.FEC_SHARDS
  {
    && s.fecEnabled && s.current <= SaturatingAdd(4 * b, RS.TOTAL_SHARDS)
    && Corrupts(t, s.(fec := InsertFec(s.fec, ParityOf(t, b, row), hit)), b)
  }

  ghost predicate StepCorrupts(t: Sent, s: Buffers, e: Event)
    requires WellFormed(t) && Possible(t, e)
  {
    e.Deliver? &&
    match e.id
    case Data(i) => DataCorrupts(t, s, i)
    case Parity(b, row) => ParityCorrupts(t, s, b, row, e.hit)
  }

  /** No step of the run goes wrong. */
  ghost predicate Harmless(t: Sent, fec: bool, decryption: Decryption, events: seq<Event>)
    requires WellFormed(t) && AllPossible(t, events)
  {
    forall k :: 0 <= k < |events| ==> !StepCorrupts(t, Run(t, fec, decryption, events[..k]).buffers, events[k])
  }

  lemma DataEventIsSafe(t: Sent, s: Buffers, i: nat)
    requires WellFormed(t) && GenuineBuffers(t, s) && Ready(s) && i < |t.frames|
    ensures
      var (r, done) := HandleData(s, i, DataOf(t, i));
      && done.Success? && r.fec == s.fec && r.current == s.current && r.fecEnabled == s.fecEnabled
      && (GenuineData(t, r.data) <==> !DataCorrupts(t, s, i))
  {
    hide Reconstruct, Genuine, ParityOf, BlockData, Corrupts;
    if i >= s.current {
      var stored := s.(data := s.data[i := DataOf(t, i)]);
      assert GenuineBuffers(t, stored);
      var k := FirstCovering(s.fec, i);
      if k < |s.fec| {
        GenuineBase(t, s.fec, k);
        ReconstructIsGenuine(t, stored, Base(s.fec[k]) / 4);
      }
    }
  }

  lemma GenuineBase(t: Sent, q: seq<FecPacket>, k: nat)
    requires WellFormed(t) && GenuineQueue(t, q) && k < |q|
    ensures Base(q[k]) % 4 == 0 && Base(q[k]) == 4 * (Base(q[k]) / 4) && Base(q[k]) + 4 <= |t.frames|
  {
    assert Genuine(t, q[k]);
  }

  lemma InsertedIsGenuine(t: Sent, q: seq<FecPacket>, b: nat, row: nat, hit: nat)
    requires WellFormed(t) && GenuineQueue(t, q) && 4 * b + 4 <= |t.frames| && row < RS.FEC_SHARDS
    ensures GenuineQueue(t, InsertFec(q, ParityOf(t, b, row), hit))
  {
    hide InsertFec, Sorted;
    var p := ParityOf(t, b, row);
    ParityNames(t, b, row);
    assert Genuine(t, p);
    InsertKeepsSorted(q, p, hit);
    InsertedElements(q, p, hit);
    var r := InsertFec(q, p, hit);
    forall i | 0 <= i < |r| ensures Genuine(t, r[i]) {
      assert r[i] in r;
    }
  }

  lemma ParityEventIsSafe(t: Sent, s: Buffers, b: nat, row: nat, hit: nat)
    requires WellFormed(t) && GenuineBuffers(t, s) && Ready(s) && 4 * b + 4 <= |t.frames| && row < RS.FEC_SHARDS
    ensures
      var (r, done) := HandleFec(s, ParityOf(t, b, row), hit);
      && done.Success? && r.fecEnabled == s.fecEnabled && r.current == s.current && GenuineQueue(t, r.fec)
      && (r.fec == s.fec || r.fec == InsertFec(s.fec, ParityOf(t, b, row), hit))
      && (GenuineData(t, r.data) <==> !ParityCorrupts(t, s, b, row, hit))
  {
    hide Reconstruct, InsertFec, Corrupts, GenuineData, Sorted, Genuine;
    var p := ParityOf(t, b, row);
    ParityNames(t, b, row);
    hide ParityOf;
    if s.fecEnabled && s.current <= SaturatingAdd(4 * b, RS.TOTAL_SHARDS) {
      var queued := s.(fec := InsertFec(s.fec, p, hit));
      InsertedIsGenuine(t, s.fec, b, row, hit);
      QueuedIsReady(s, p, hit);
      ReconstructIsGenuine(t, queued, b);
    }
  }

  lemma PruneIsGenuine(t: Sent, s: Buffers)
    requires WellFormed(t) && GenuineBuffers(t, s)
    ensures GenuineBuffers(t, Prune(s))
    ensures SuffixOf(Prune(s).fec, s.fec)
    ensures Prune(s).current == s.current && Prune(s).fecEnabled == s.fecEnabled
  {
    hide Genuine, FecFrom, Sorted;
    PrunePopsQueue(s);
    SuffixIsGenuine(t, Prune(s).fec, s.fec);
  }

  lemma SuffixIsGenuine(t: Sent, r: seq<FecPacket>, q: seq<FecPacket>)
    requires WellFormed(t) && GenuineQueue(t, q) && SuffixOf(r, q)
    ensures GenuineQueue(t, r)
  {
    hide Genuine;
    var from :| 0 <= from <= |q| && r == q[from..];
    SuffixKeepsOrder(q, from);
  }

  lemma SuffixIsDelivered(r: seq<FecPacket>, q: seq<FecPacket>, events: seq<Event>)
    requires QueueDelivered(q, events) && SuffixOf(r, q)
    ensures QueueDelivered(r, events)
  {
    hide Delivered, DeliveredTwice;
    var from :| 0 <= from <= |q| && r == q[from..];
  }

  lemma AdvanceIsGenuine(t: Sent, s: Buffers)
    requires WellFormed(t) && GenuineBuffers(t, s) && s.current in s.data
    ensures GenuineBuffers(t, Advance(s)) && Advance(s).current == s.current + 1
    ensures Advance(s).fecEnabled == s.fecEnabled
    ensures SuffixOf(Advance(s).fec, s.fec)
  {
    hide Genuine, Prune;
    PruneIsGenuine(t, s.(current := s.current + 1));
  }

  /** A frame comes out only as it was sent, and the position moves past it. */
  ghost predicate GenuineFrame(t: Sent, decryption: Decryption, index: int, frame: AudioFrame) {
    && 0 <= index < |t.frames| < 0x1_0000
    && Open(decryption, index, t.frames[index].payload) == Some(frame.buffer)
    && (EvenAt(t, index) ==> frame.timestamp == t.frames[index].timestamp)
  }

  lemma {:induction false} PollIsGenuine(t: Sent, decryption: Decryption, s: Buffers)
    requires WellFormed(t) && GenuineBuffers(t, s)
    ensures var (r, output) := Poll(s, decryption);
            && GenuineBuffers(t, r) && s.current <= r.current && r.fecEnabled == s.fecEnabled
            && SuffixOf(r.fec, s.fec)
            && (output.Some? ==> s.current < r.current && GenuineFrame(t, decryption, r.current - 1, output.value))
    decreases WrapsLeft(s), 0x1_0000 - s.current
  {
    hide GenuineBuffers, Prune, Advance, SuffixOf;
    if s.current !in s.data {
      PruneIsGenuine(t, s);
    } else {
      StoredIsGenuine(t, s);
      AdvanceIsGenuine(t, s);
      AdvanceDecreases(s);
      if Open(decryption, s.current, s.data[s.current].payload).None? {
        PollIsGenuine(t, decryption, Advance(s));
        SuffixOfSuffix(Poll(Advance(s), decryption).0.fec, Advance(s).fec, s.fec);
      }
    }
  }

  lemma StoredIsGenuine(t: Sent, s: Buffers)
    requires WellFormed(t) && GenuineBuffers(t, s) && s.current in s.data
    ensures s.current < |t.frames|
    ensures s.data[s.current].payload == t.frames[s.current].payload
    ensures EvenAt(t, s.current) ==> s.data[s.current].timestamp == t.frames[s.current].timestamp
  {
  }

  lemma SkipIsGenuine(t: Sent, s: Buffers)
    requires WellFormed(t) && GenuineBuffers(t, s)
    ensures GenuineBuffers(t, Skip(s)) && s.current <= Skip(s).current
    ensures Skip(s).fec == s.fec && Skip(s).fecEnabled == s.fecEnabled
  {
    hide Genuine;
  }

  ghost predicate SafeSession(t: Sent, decryption: Decryption, fec: bool, s: Session, events: seq<Event>)
    requires WellFormed(t)
  {
    && !s.failed && s.buffers.fecEnabled == fec
    && GenuineBuffers(t, s.buffers)
    && GenuineOutput(t, decryption, s.emitted, s.buffers.current)
    && QueueDelivered(s.buffers.fec, events)
  }

  lemma DeliveredLater(events: seq<Event>, e: Event, id: PacketId)
    ensures Delivered(events, id) ==> Delivered(events + [e], id)
    ensures DeliveredTwice(events, id) ==> DeliveredTwice(events + [e], id)
    ensures e.Deliver? && e.id == id ==> Delivered(events + [e], id)
    ensures e.Deliver? && e.id == id && Delivered(events, id) ==> DeliveredTwice(events + [e], id)
  {
    var all := events + [e];
    assert all[|events|] == e;
    assert forall j :: 0 <= j < |events| ==> all[j] == events[j];
    if Delivered(events, id) {
      var j :| 0 <= j < |events| && events[j].Deliver? && events[j].id == id;
      assert all[j].Deliver? && all[j].id == id;
    }
    if DeliveredTwice(events, id) {
      var i, j :| 0 <= i < j < |events| && events[i].Deliver? && events[j].Deliver? && events[i].id == id && events[j].id == id;
      assert all[i].Deliver? && all[j].Deliver? && all[i].id == id && all[j].id == id;
    }
  }

  lemma StillDelivered(q: seq<FecPacket>, events: seq<Event>, e: Event)
    requires QueueDelivered(q, events)
    ensures QueueDelivered(q, events + [e])
  {
    hide Delivered, DeliveredTwice;
    forall id ensures
      (Delivered(events, id) ==> Delivered(events + [e], id)) && (DeliveredTwice(events, id) ==> DeliveredTwice(events + [e], id))
    {
      DeliveredLater(events, e, id);
    }
  }

  /** Where an element of the longer queue comes from. */
  lemma Inserted(q: seq<FecPacket>, p: FecPacket, at: nat, i: nat)
    requires at <= |q| && i <= |q|
    ensures (q[..at] + [p] + q[at..])[i] == if i < at then q[i] else if i == at then p else q[i - 1]
  {
  }

  lemma InsertedIsDelivered(q: seq<FecPacket>, p: FecPacket, hit: nat, events: seq<Event>, e: Event)
    requires QueueDelivered(q, events) && e.Deliver? && e.id == IdOf(p)
    ensures QueueDelivered(InsertFec(q, p, hit), events + [e])
  {
    hide Delivered, DeliveredTwice, IdOf, InsertPosition;
    StillDelivered(q, events, e);
    DeliveredLater(events, e, IdOf(p));
    var at, all := InsertPosition(q, p, hit), events + [e];
    var r := InsertFec(q, p, hit);
    forall i | 0 <= i < |r| ensures Delivered(all, IdOf(r[i])) {
      Inserted(q, p, at, i);
    }
    forall i, j | 0 <= i < j < |r| && IdOf(r[i]) == IdOf(r[j]) ensures DeliveredTwice(all, IdOf(r[i])) {
      Inserted(q, p, at, i);
      Inserted(q, p, at, j);
    }
  }

  lemma StepIsSafe(t: Sent, decryption: Decryption, fec: bool, s: Session, events: seq<Event>, e: Event)
    requires WellFormed(t) && SafeSession(t, decryption, fec, s, events) && Ready(s.buffers)
    requires Possible(t, e) && !StepCorrupts(t, s.buffers, e)
    ensures SafeSession(t, decryption, fec, Step(t, decryption, s, e), events + [e])
  {
    hide GenuineData, GenuineQueue, QueueDelivered, Handle, Poll, Skip, PacketBytes, Ready, ParityOf, DataCorrupts, ParityCorrupts;
    var r := Step(t, decryption, s, e);
    StillDelivered(s.buffers.fec, events, e);
    match e {
      case Deliver(id, hit) =>
        match id {
          case Data(i) =>
            ReadsData(t, i, s.buffers, hit);
            DataEventIsSafe(t, s.buffers, i);
          case Parity(b, row) =>
            ReadsParity(t, b, row, s.buffers, hit);
            ParityEventIsSafe(t, s.buffers, b, row, hit);
            ParityNames(t, b, row);
            InsertedIsDelivered(s.buffers.fec, ParityOf(t, b, row), hit, events, e);
        }
      case PollFrame =>
        PollIsGenuine(t, decryption, s.buffers);
        EmitIsGenuine(t, decryption, s, r, Poll(s.buffers, decryption).1);
        SuffixIsDelivered(r.buffers.fec, s.buffers.fec, events + [e]);
      case SkipGap =>
        SkipIsGenuine(t, s.buffers);
    }
  }

  /** A step of a genuine session stores only what was sent exactly if it does not go wrong. */
  lemma StepStoresExactlyIf(t: Sent, decryption: Decryption, s: Session, e: Event)
    requires WellFormed(t) && GenuineBuffers(t, s.buffers) && Ready(s.buffers) && Possible(t, e)
    ensures GenuineData(t, Step(t, decryption, s, e).buffers.data) <==> !StepCorrupts(t, s.buffers, e)
  {
    hide GenuineData, GenuineQueue, Handle, Poll, Skip, PacketBytes, Ready, ParityOf, DataCorrupts, ParityCorrupts;
    match e {
      case Deliver(id, hit) =>
        match id {
          case Data(i) =>
            ReadsData(t, i, s.buffers, hit);
            DataEventIsSafe(t, s.buffers, i);
          case Parity(b, row) =>
            ReadsParity(t, b, row, s.buffers, hit);
            ParityEventIsSafe(t, s.buffers, b, row, hit);
        }
      case PollFrame =>
        PollIsGenuine(t, decryption, s.buffers);
      case SkipGap =>
        SkipIsGenuine(t, s.buffers);
    }
  }

  lemma EmitIsGenuine(t: Sent, decryption: Decryption, s: Session, r: Session, output: Option<AudioFrame>)
    requires GenuineOutput(t, decryption, s.emitted, s.buffers.current)
    requires s.buffers.current <= r.buffers.current
    requires output.None? ==> r.emitted == s.emitted
    requires output.Some? ==>
               && s.buffers.current < r.buffers.current
               && GenuineFrame(t, decryption, r.buffers.current - 1, output.value)
               && r.emitted == s.emitted + [Emission(WrappingSub(r.buffers.current, 1), output.value)]
    ensures GenuineOutput(t, decryption, r.emitted, r.buffers.current)
  {
  }

  lemma {:induction false} RunIsSafe(t: Sent, fec: bool, decryption: Decryption, events: seq<Event>)
    requires WellFormed(t) && AllPossible(t, events) && Harmless(t, fec, decryption, events)
    ensures SafeSession(t, decryption, fec, Run(t, fec, decryption, events), events)
    decreases |events|
  {
    hide Step, Ready, StepCorrupts, SafeSession;
    if events == [] {
      FreshIsSafe(t, fec, decryption);
    } else {
      var k := |events| - 1;
      assert events == events[..k] + [events[k]];
      HarmlessPrefix(t, fec, decryption, events, k);
      RunIsSafe(t, fec, decryption, events[..k]);
      hide Harmless;
      StepIsSafe(t, decryption, fec, Run(t, fec, decryption, events[..k]), events[..k], events[k]);
    }
  }

  lemma FreshIsSafe(t: Sent, fec: bool, decryption: Decryption)
    requires WellFormed(t)
    ensures SafeSession(t, decryption, fec, Fresh(fec), [])
  {
  }

  lemma HarmlessPrefix(t: Sent, fec: bool, decryption: Decryption, events: seq<Event>, k: nat)
    requires WellFormed(t) && AllPossible(t, events) && k <= |events|
    ensures AllPossible(t, events[..k])
    ensures Harmless(t, fec, decryption, events) ==> Harmless(t, fec, decryption, events[..k])
    ensures Harmless(t, fec, decryption, events[..k]) && k < |events|
            && !StepCorrupts(t, Run(t, fec, decryption, events[..k]).buffers, events[k]) ==>
              Harmless(t, fec, decryption, events[..k + 1])
  {
    hide StepCorrupts, Run;
    forall i | 0 <= i < k ensures events[..k][..i] == events[..i] && events[..k][i] == events[i] {
    }
    if k < |events| {
      forall i | 0 <= i <= k ensures events[..k + 1][..i] == events[..i] && events[..k + 1][i] == events[i] {
      }
    }
  }

  ghost predicate StoresWhatWasSent(t: Sent, fec: bool, decryption: Decryption, events: seq<Event>)
    requires WellFormed(t) && AllPossible(t, events)
  {
    forall k :: 0 <= k <= |events| ==> GenuineData(t, Run(t, fec, decryption, events[..k]).buffers.data)
  }

  /** Exactly the harmless runs never hold a packet that was not sent so. */
  lemma StoresWhatWasSentExactlyIf(t: Sent, fec: bool, decryption: Decryption, events: seq<Event>)
    requires WellFormed(t) && AllPossible(t, events)
    ensures StoresWhatWasSent(t, fec, decryption, events) <==> Harmless(t, fec, decryption, events)
  {
    hide Run, StepCorrupts, GenuineData;
    if Harmless(t, fec, decryption, events) {
      forall k | 0 <= k <= |events| ensures GenuineData(t, Run(t, fec, decryption, events[..k]).buffers.data) {
        HarmlessPrefix(t, fec, decryption, events, k);
        RunIsSafe(t, fec, decryption, events[..k]);
      }
    }
    if StoresWhatWasSent(t, fec, decryption, events) {
      HarmlessUpTo(t, fec, decryption, events, |events|);
      assert events[..|events|] == events;
    }
  }

  lemma {:induction false} HarmlessUpTo(t: Sent, fec: bool, decryption: Decryption, events: seq<Event>, n: nat)
    requires WellFormed(t) && AllPossible(t, events) && n <= |events| && StoresWhatWasSent(t, fec, decryption, events)
    ensures Harmless(t, fec, decryption, events[..n])
  {
    hide StepCorrupts, GenuineData, Step, GenuineQueue;
    if n > 0 {
      var k := n - 1;
      HarmlessUpTo(t, fec, decryption, events, k);
      RunIsSafe(t, fec, decryption, events[..k]);
      assert events[..n][..k] == events[..k] && events[..n][k] == events[k];
      assert Run(t, fec, decryption, events[..n]) == Step(t, decryption, Run(t, fec, decryption, events[..k]), events[k]);
      StepStoresExactlyIf(t, decryption, Run(t, fec, decryption, events[..k]), events[k]);
      HarmlessPrefix(t, fec, decryption, events, k);
    }
  }

  lemma OneZeroQueued(t: Sent, q: seq<FecPacket>, events: seq<Event>)
    requires WellFormed(t) && GenuineQueue(t, q) && QueueDelivered(q, events) && RowZeroOnce(events)
    ensures OneZero(q)
  {
    hide DeliveredTwice, Genuine;
    forall i, j | 0 <= i < j < |q| && Base(q[i]) == Base(q[j]) ensures Row(q[i]) != 0 || Row(q[j]) != 0 {
      assert !DeliveredTwice(events, Parity(Base(q[i]) / 4, 0));
      assert IdOf(q[i]) == IdOf(q[j]) ==> DeliveredTwice(events, IdOf(q[i]));
    }
  }

  /** A step does no harm if the queue it leaves has row 0 of every block at most once. */
  lemma OneZeroIsHarmless(t: Sent, s: Buffers, e: Event, events: seq<Event>)
    requires WellFormed(t) && Possible(t, e) && GenuineQueue(t, s.fec) && QueueDelivered(s.fec, events)
    requires RowZeroOnce(events + [e])
    ensures !StepCorrupts(t, s, e)
  {
    hide GenuineQueue, QueueDelivered, RowZeroOnce, InsertFec, ParityOf, DoubleZero;
    if e.Deliver? {
      match e.id {
        case Data(i) =>
          StillDelivered(s.fec, events, e);
          OneZeroQueued(t, s.fec, events + [e]);
          var k := FirstCovering(s.fec, i);
          if k < |s.fec| {
            GenuineBase(t, s.fec, k);
            OneZeroIsNotDoubled(s.fec, Base(s.fec[k]));
          }
        case Parity(b, row) =>
          ParityNames(t, b, row);
          InsertedIsDelivered(s.fec, ParityOf(t, b, row), e.hit, events, e);
          InsertedIsGenuine(t, s.fec, b, row, e.hit);
          OneZeroQueued(t, InsertFec(s.fec, ParityOf(t, b, row), e.hit), events + [e]);
          OneZeroIsNotDoubled(InsertFec(s.fec, ParityOf(t, b, row), e.hit), 4 * b);
      }
    }
  }

  lemma RowZeroOnceOfPrefix(events: seq<Event>, k: nat)
    requires RowZeroOnce(events) && k <= |events|
    ensures RowZeroOnce(events[..k])
  {
    forall b: nat ensures !DeliveredTwice(events[..k], Parity(b, 0)) {
      assert forall i :: 0 <= i < k ==> events[..k][i] == events[i];
      assert !DeliveredTwice(events, Parity(b, 0));
    }
  }

  /** A network that repeats no parity packet of row 0 does no harm, whatever else it repeats. */
  lemma {:induction false} RowZeroOnceIsHarmless(t: Sent, fec: bool, decryption: Decryption, events: seq<Event>)
    requires WellFormed(t) && AllPossible(t, events) && RowZeroOnce(events)
    ensures Harmless(t, fec, decryption, events)
    decreases |events|
  {
    hide Run, StepCorrupts, RowZeroOnce, GenuineBuffers;
    if events != [] {
      var k := |events| - 1;
      assert events == events[..k] + [events[k]];
      RowZeroOnceOfPrefix(events, k);
      HarmlessPrefix(t, fec, decryption, events, k);
      RowZeroOnceIsHarmless(t, fec, decryption, events[..k]);
      RunIsSafe(t, fec, decryption, events[..k]);
      var s := Run(t, fec, decryption, events[..k]).buffers;
      assert GenuineQueue(t, s.fec) by { QueueIsGenuine(t, s); }
      OneZeroIsHarmless(t, s, events[k], events[..k]);
      assert events[..k + 1] == events;
    }
  }

  lemma QueueIsGenuine(t: Sent, s: Buffers)
    requires WellFormed(t) && GenuineBuffers(t, s)
    ensures GenuineQueue(t, s.fec)
  {
  }

  /** Safety: under any loss, reordering, skipping and repetition, but for row 0 of the parity packets, nothing
      fails, and what comes out is a subsequence of what went in, in order, byte for byte; a frame has its exact
      timestamp if its block is evenly timed. */
  lemma OutputIsSubsequence(t: Sent, fec: bool, decryption: Decryption, events: seq<Event>)
    requires WellFormed(t) && AllPossible(t, events) && RowZeroOnce(events)
    ensures var s := Run(t, fec, decryption, events);
            !s.failed && GenuineOutput(t, decryption, s.emitted, |t.frames|)
  {
    RowZeroOnceIsHarmless(t, fec, decryption, events);
    RunIsSafe(t, fec, decryption, events);
  }

  // ---------- without skips ----------

  ghost predicate NoSkips(events: seq<Event>) {
    forall i :: 0 <= i < |events| ==> !events[i].SkipGap?
  }

  /** Every payload of the stream decrypts. */
  ghost predicate AllOpen(t: Sent, decryption: Decryption) {
    |t.frames| < 0x1_0000 && forall i :: 0 <= i < |t.frames| ==> Open(decryption, i, t.frames[i].payload).Some?
  }

  /** Every frame up to the current position has been emitted. */
  ghost predicate InOrder(s: Session) {
    |s.emitted| == s.buffers.current && forall i :: 0 <= i < |s.emitted| ==> s.emitted[i].index == i
  }

  lemma PollMovesOn(t: Sent, decryption: Decryption, s: Buffers)
    requires WellFormed(t) && AllOpen(t, decryption) && GenuineBuffers(t, s)
    ensures var (r, output) := Poll(s, decryption);
            if s.current in s.data then r.current == s.current + 1 && output.Some? && WrappingSub(r.current, 1) == s.current
            else r.current == s.current && r.current !in r.data && output.None?
  {
    hide GenuineBuffers, FecFrom;
    if s.current in s.data {
      StoredIsGenuine(t, s);
      OneBack(s.current);
    }
  }

  lemma OneBack(n: u16)
    requires n < 0xFFFF
    ensures WrappingSub(n + 1, 1) == n
  {
  }

  lemma {:induction false} RunIsInOrder(t: Sent, fec: bool, decryption: Decryption, events: seq<Event>)
    requires WellFormed(t) && AllOpen(t, decryption)
    requires AllPossible(t, events) && Harmless(t, fec, decryption, events) && NoSkips(events)
    ensures InOrder(Run(t, fec, decryption, events))
    decreases |events|
  {
    hide StepCorrupts, Ready, GenuineBuffers, GenuineOutput, QueueDelivered, Handle, Poll, PacketBytes, WrappingSub;
    if events != [] {
      var k := |events| - 1;
      HarmlessPrefix(t, fec, decryption, events, k);
      RunIsInOrder(t, fec, decryption, events[..k]);
      RunIsSafe(t, fec, decryption, events[..k]);
      var before := Run(t, fec, decryption, events[..k]);
      match events[k] {
        case Deliver(id, hit) => HandleKeepsReady(before.buffers, PacketBytes(t.frames, t.len, id), hit);
        case PollFrame => PollMovesOn(t, decryption, before.buffers);
      }
    }
  }

  /** Without skips what comes out is a prefix of what went in. */
  lemma OutputIsPrefix(t: Sent, fec: bool, decryption: Decryption, events: seq<Event>)
    requires WellFormed(t) && AllOpen(t, decryption)
    requires AllPossible(t, events) && RowZeroOnce(events) && NoSkips(events)
    ensures var emitted := Run(t, fec, decryption, events).emitted;
            |emitted| <= |t.frames| &&
            forall i :: 0 <= i < |emitted| ==> emitted[i].index == i && GenuineFrame(t, decryption, i, emitted[i].frame)
  {
    RowZeroOnceIsHarmless(t, fec, decryption, events);
    RunIsSafe(t, fec, decryption, events);
    RunIsInOrder(t, fec, decryption, events);
  }
}
