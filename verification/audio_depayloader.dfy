/** The receiver: reorders, repairs and emits audio packets. */
module AudioDepayloader {
  import opened Wrappers
  import opened Bytes
  import opened AudioPacket
  import opened AudioBuffers
  import ReedSolomon

  class AudioDepayloader {
    const decryption: Decryption
    var currentSequenceNumber: u16
    var dataPackets: map<u16, DataPacket>
    var fecPackets: seq<FecPacket>
    var fecDecoder: bool

    ghost function State(): Buffers
      reads this
    {
      Buffers(currentSequenceNumber, dataPackets, fecPackets, fecDecoder)
    }

    ghost predicate Valid()
      reads this
    {
      Ready(State())
    }

    constructor (fec: bool, decryption: Decryption)
      ensures Valid() && State() == Buffers(0, map[], [], fec) && this.decryption == decryption
    {
      this.decryption := decryption;
      currentSequenceNumber, dataPackets, fecPackets, fecDecoder := 0, map[], [], fec;
    }

    /** Returns the next frame that can be produced from what is stored. */
    method PollFrame() returns (output: Option<AudioFrame>)
      requires Valid()
      modifies this
      ensures Valid() && (State(), output) == Poll(old(State()), decryption)
    {
      hide FecFrom, Open;
      PollKeepsReady(State(), decryption);
      while true
        invariant Valid()
        invariant Poll(State(), decryption) == Poll(old(State()), decryption)
        decreases WrapsLeft(State()), 0x1_0000 - currentSequenceNumber
      {
        ghost var before := State();
        AdvanceDecreasesIfStored(before);
        var sequenceNumber := currentSequenceNumber;
        output := None;
        if currentSequenceNumber in dataPackets {
          var packet := dataPackets[currentSequenceNumber];
          output := Some(AudioFrame(packet.timestamp, packet.payload));
          currentSequenceNumber := WrappingAdd(currentSequenceNumber, 1);
        }

        Cleanup();
        PollKeepsReady(State(), decryption);

        if output.Some? {
          var plain := Open(decryption, sequenceNumber, output.value.buffer);
          if plain.None? {
            output := None;
            continue;
          }
          output := Some(AudioFrame(output.value.timestamp, plain.value));
        }
        break;
      }
    }

    /** Forgets what is no longer needed to repair the blocks still open. */
    method Cleanup()
      requires Valid()
      modifies this
      ensures Valid() && State() == Prune(old(State()))
    {
      hide FecFrom;
      PruneKeepsReady(State());
      var minimum := SaturatingSub(currentSequenceNumber, ReedSolomon.DATA_SHARDS);
      dataPackets := map n: u16 | n in dataPackets && n >= minimum :: dataPackets[n];
      PopFecBefore(minimum);
    }

    method PopFecBefore(minimum: u16)
      requires Sorted(fecPackets)
      modifies this`fecPackets
      ensures fecPackets == FecFrom(old(fecPackets), minimum)
    {
      FecFromIsSuffix(fecPackets, minimum);
      ghost var popped := 0;
      while fecPackets != [] && Base(fecPackets[0]) < minimum
        invariant 0 <= popped <= LowerBound(old(fecPackets), minimum)
        invariant fecPackets == old(fecPackets)[popped..]
        decreases |fecPackets|
      {
        fecPackets := fecPackets[1..];
        popped := popped + 1;
      }
    }

    /** Moves on to the next stored packet, if there is one. */
    method TrySkipSamples()
      requires Valid()
      modifies this`currentSequenceNumber
      ensures Valid() && State() == Skip(old(State()))
    {
      var n: nat := currentSequenceNumber;
      while n < 0x1_0000 && n !in dataPackets
        invariant currentSequenceNumber <= n <= 0x1_0000
        invariant NextStored(dataPackets, n) == NextStored(dataPackets, currentSequenceNumber)
      {
        n := n + 1;
      }
      if n < 0x1_0000 {
        currentSequenceNumber := n;
      }
    }

    /** The parity packets of the block in their slots, and the block's timestamp; none if no parity is queued. */
    method FindParity(base: u16) returns (r: Option<(Option<FecPacket>, Option<FecPacket>, u32)>)
      ensures
        var i := FirstOf(fecPackets, base);
        if i == |fecPackets| then r.None?
        else r == Some((ParitySlots(fecPackets, base).0, ParitySlots(fecPackets, base).1, fecPackets[i].header.baseTimestamp))
    {
      var i := 0;
      while i < |fecPackets| && Base(fecPackets[i]) != base
        invariant 0 <= i <= |fecPackets|
        invariant forall k :: 0 <= k < i ==> Base(fecPackets[k]) != base
      {
        i := i + 1;
      }
      assert i == FirstOf(fecPackets, base);
      if i == |fecPackets| {
        return None;
      }
      var fecShard1: Option<FecPacket> := Some(fecPackets[i]);
      var fecShard2: Option<FecPacket> := None;
      if i + 1 < |fecPackets| && Base(fecPackets[i + 1]) == base {
        fecShard2 := Some(fecPackets[i + 1]);
      }
      if fecPackets[i].header.fecShardIndex > 0 {
        fecShard2 := fecShard1;
        fecShard1 := None;
      }
      return Some((fecShard1, fecShard2, fecPackets[i].header.baseTimestamp));
    }

    /** Repairs the block starting at `base` if enough of it is here; tells whether it is complete. */
    method TryReconstructFecBlock(base: u16) returns (r: Result<bool, ReedSolomon.CodeError>)
      requires Valid()
      modifies this`dataPackets
      ensures Valid() && (State(), r) == Reconstruct(old(State()), base)
    {
      hide ReedSolomon.ReconstructData, ReedSolomon.Count, FirstOf, ParitySlots, Restore, TimestampStep;
      hide DataPayload, FecPayload, Lookup;
      ReconstructKeepsQueue(State(), base);
      if !fecDecoder {
        return Success(false);
      }
      var parity := FindParity(base);
      if parity.None? {
        return Success(false);
      }
      QueuedBaseFits(State(), base);
      var (fecShard1, fecShard2, baseTimestamp) := parity.value;

      var shards: ReedSolomon.Received := [
        DataPayload(Lookup(dataPackets, base)), DataPayload(Lookup(dataPackets, base + 1)),
        DataPayload(Lookup(dataPackets, base + 2)), DataPayload(Lookup(dataPackets, base + 3)),
        FecPayload(fecShard1), FecPayload(fecShard2)];
      assert shards == Shards(State(), base);
      if ReedSolomon.Count(shards) < ReedSolomon.DATA_SHARDS {
        return Success(false);
      }
      if base in dataPackets && base + 1 in dataPackets && base + 2 in dataPackets && base + 3 in dataPackets {
        return Success(true);
      }

      var reconstructed := ReedSolomon.ReconstructData(shards);
      if reconstructed.Failure? {
        return Failure(reconstructed.error);
      }
      StepIsMeasurable(State(), base);
      var step := TimestampStep(dataPackets, base, baseTimestamp);
      StoreMissing(base, baseTimestamp, step, reconstructed.value);
      return Success(true);
    }

    /** Puts the restored packets in where none is stored. */
    method StoreMissing(base: u16, baseTimestamp: u32, step: u32, shards: seq<ReedSolomon.Shard>)
      requires base + 3 < 0x1_0000 && |shards| == ReedSolomon.DATA_SHARDS
      modifies this`dataPackets
      ensures dataPackets == Restore(old(dataPackets), base, baseTimestamp, step, shards)
    {
      for index := 0 to ReedSolomon.DATA_SHARDS
        invariant forall n: u16 :: n in dataPackets <==> n in old(dataPackets) || base <= n < base + index
        invariant forall n :: n in old(dataPackets) ==> dataPackets[n] == old(dataPackets)[n]
        invariant forall n: u16 :: n !in old(dataPackets) && base <= n < base + index ==>
                    dataPackets[n] == DataPacket(RestoredTimestamp(baseTimestamp, step, n - base), shards[n - base])
      {
        if base + index !in dataPackets {
          dataPackets := dataPackets[base + index := DataPacket(RestoredTimestamp(baseTimestamp, step, index), shards[index])];
        }
      }
    }

    /** A packet of the block starting at `base`, or the place where one belongs. */
    method SearchFec(base: u16) returns (found: bool, index: nat)
      requires Sorted(fecPackets)
      ensures found ==> index < |fecPackets| && Base(fecPackets[index]) == base
      ensures !found ==> index == LowerBound(fecPackets, base) && forall k :: 0 <= k < |fecPackets| ==> Base(fecPackets[k]) != base
    {
      var lo, hi := 0, |fecPackets|;
      while lo < hi
        invariant 0 <= lo <= hi <= |fecPackets|
        invariant forall k :: 0 <= k < lo ==> Base(fecPackets[k]) < base
        invariant forall k :: hi <= k < |fecPackets| ==> base < Base(fecPackets[k])
      {
        var mid := (lo + hi) / 2;
        if Base(fecPackets[mid]) == base {
          return true, mid;
        } else if Base(fecPackets[mid]) < base {
          lo := mid + 1;
        } else {
          hi := mid;
        }
      }
      LowerBoundIsUnique(fecPackets, base, lo);
      return false, lo;
    }

    /** Takes in one datagram; `hit` is the queue entry the binary search came upon. */
    method HandlePacket(packet: seq<Byte>) returns (r: Result<(), DepayloaderError>, ghost hit: nat)
      requires Valid()
      modifies this
      ensures Valid() && (State(), r) == Handle(old(State()), packet, hit)
    {
      hide DeserializeRtp, DeserializeFec, Reconstruct;
      hit := 0;
      if |packet| < HEADER_SIZE {
        r := Failure(BufferTooSmall);
        return;
      }
      var rtp := DeserializeRtp(packet[..HEADER_SIZE]);
      if rtp.packetType == INVALID_OPUS_HEADER {
        r := Success(());
        return;
      }
      var payloadStart := HEADER_SIZE;
      if rtp.packetType == RTP_PAYLOAD_TYPE_AUDIO_FEC {
        payloadStart := HEADER_SIZE + HEADER_SIZE;
      } else if rtp.packetType != RTP_PAYLOAD_TYPE_AUDIO {
        r := Success(());
        return;
      }
      if |packet| < payloadStart {
        r := Success(());
        return;
      }
      var payload := packet[payloadStart..];
      if rtp.packetType == RTP_PAYLOAD_TYPE_AUDIO {
        r := HandleDataPacket(rtp.sequenceNumber, DataPacket(rtp.timestamp, payload));
      } else {
        var header := DeserializeFec(packet[HEADER_SIZE..payloadStart]);
        r, hit := HandleFecPacket(FecPacket(header, payload));
      }
    }

    method HandleDataPacket(sequenceNumber: u16, packet: DataPacket) returns (r: Result<(), DepayloaderError>)
      requires Valid()
      modifies this
      ensures Valid() && (State(), r) == HandleData(old(State()), sequenceNumber, packet)
    {
      hide Reconstruct;
      r := Success(());
      if sequenceNumber < currentSequenceNumber {
        return;
      }
      dataPackets := dataPackets[sequenceNumber := packet];
      var i := 0;
      while i < |fecPackets| && !Covers(fecPackets[i], sequenceNumber)
        invariant 0 <= i <= |fecPackets|
        invariant forall k :: 0 <= k < i ==> !Covers(fecPackets[k], sequenceNumber)
      {
        i := i + 1;
      }
      assert i == FirstCovering(fecPackets, sequenceNumber);
      if i < |fecPackets| {
        var repaired := TryReconstructFecBlock(Base(fecPackets[i]));
        if repaired.Failure? {
          r := Failure(Code(repaired.error));
        }
      }
    }

    /** Inserts the packet in the order of block and shard index. */
    method Enqueue(packet: FecPacket) returns (ghost hit: nat)
      requires Sorted(fecPackets)
      modifies this`fecPackets
      ensures fecPackets == InsertFec(old(fecPackets), packet, hit)
    {
      var found, index := SearchFec(Base(packet));
      hit := if found then index else |fecPackets|;
      var at := index;
      if found && packet.header.fecShardIndex > fecPackets[index].header.fecShardIndex {
        at := index + 1;
      }
      fecPackets := fecPackets[..at] + [packet] + fecPackets[at..];
    }

    method HandleFecPacket(packet: FecPacket) returns (r: Result<(), DepayloaderError>, ghost hit: nat)
      requires Valid()
      modifies this
      ensures Valid() && (State(), r) == HandleFec(old(State()), packet, hit)
    {
      hide Reconstruct, InsertFec;
      r, hit := Success(()), 0;
      if !fecDecoder {
        return;
      }
      var base := Base(packet);
      if base % ReedSolomon.DATA_SHARDS != 0 {
        fecDecoder := false;
      }
      if currentSequenceNumber > SaturatingAdd(base, ReedSolomon.TOTAL_SHARDS) {
        return;
      }
      hit := Enqueue(packet);
      QueuedIsReady(old(State()), packet, hit);
      var repaired := TryReconstructFecBlock(base);
      if repaired.Failure? {
        r := Failure(Code(repaired.error));
      }
    }
  }

  lemma AdvanceDecreasesIfStored(s: Buffers)
    ensures s.current in s.data ==>
              WrapsLeft(Advance(s)) < WrapsLeft(s)
              || (WrapsLeft(Advance(s)) == WrapsLeft(s) && Advance(s).current > s.current)
  {
    if s.current in s.data {
      AdvanceDecreases(s);
    }
  }
}
