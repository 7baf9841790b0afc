/** The sender: numbers frames, packs them and adds parity after every fourth one. */
module AudioPayloader {
  import opened Wrappers
  import opened Bytes
  import opened AudioPacket
  import opened AudioBlocks
  import ReedSolomon

  const BLOCK_SIZE := 16

  function PaddedLen(x: nat): nat {
    (x + BLOCK_SIZE - 1) / BLOCK_SIZE * BLOCK_SIZE
  }

  /** The room reserved for the ciphertext of x bytes. */
  function SafeLen(x: nat): nat {
    PaddedLen(x) + BLOCK_SIZE
  }

  /** The length of the ciphertext of x bytes under AES-CBC with PKCS7 padding. */
  function CipherLen(x: nat): nat {
    (x / BLOCK_SIZE + 1) * BLOCK_SIZE
  }

  /** The ciphertext fills the reserved room exactly for whole numbers of cipher blocks. */
  lemma CipherFillsTheRoom(x: nat)
    ensures CipherLen(x) <= SafeLen(x)
    ensures CipherLen(x) == SafeLen(x) <==> x % BLOCK_SIZE == 0
  {
    var q, r := x / BLOCK_SIZE, x % BLOCK_SIZE;
    assert x == q * BLOCK_SIZE + r;
    if r == 0 {
      assert (x + 15) / 16 == q;
    } else {
      assert (x + 15) / 16 == q + 1;
    }
  }

  /** Encryption of one payload under the counter derived from its sequence number; None is a backend error. */
  type Cipher = (u16, seq<Byte>) -> Option<seq<Byte>>

  ghost predicate IsCbcCipher(encrypt: Cipher) {
    forall s: u16, p: seq<Byte> {:trigger encrypt(s, p)} :: encrypt(s, p).Some? ==> |encrypt(s, p).value| == CipherLen(|p|)
  }

  datatype PushResult = Pushed | InvalidFrameSize | EncryptionFailed | ParityPanic

  /** Everything sent is exactly the stream of the frames pushed, and the open block is remembered. */
  ghost predicate InStep(sent: seq<Frame>, len: nat, fec: bool, sequenceNumber: u16, baseTimestamp: u32,
                         shards: seq<seq<Byte>>, packets: seq<seq<Byte>>)
  {
    && |shards| == ReedSolomon.DATA_SHARDS
    && Uniform(sent, len)
    && sequenceNumber == |sent| % 0x1_0000
    && packets == Stream(sent, len, fec)
    && (forall i :: 0 <= i < |sent| % 4 ==> shards[i] == sent[|sent| - |sent| % 4 + i].payload)
    && (|sent| % 4 != 0 ==> baseTimestamp == sent[|sent| - |sent| % 4].timestamp)
  }

  /** What pushing one more frame does to the sender's counters keeps them in step. */
  lemma StaysInStep(sent: seq<Frame>, f: Frame, len: nat, fec: bool, sequenceNumber: u16, baseTimestamp: u32,
                    shards: seq<seq<Byte>>, packets: seq<seq<Byte>>)
    requires InStep(sent, len, fec, sequenceNumber, baseTimestamp, shards, packets) && |f.payload| == len
    ensures Uniform(sent + [f], len) && sequenceNumber == |sent| % 0x1_0000 && sequenceNumber % 4 == |sent| % 4
    ensures forall k :: 0 <= k < |PacketsOfFrame(|sent|, fec)| ==>
              InStream(PacketsOfFrame(|sent|, fec)[k], |sent| + 1, true)
    ensures InStep(sent + [f], len, fec, WrappingAdd(sequenceNumber, 1),
                   if sequenceNumber % 4 == 0 then f.timestamp else baseTimestamp,
                   shards[sequenceNumber % 4 := f.payload],
                   packets + Wire(sent + [f], len, PacketsOfFrame(|sent|, fec)))
  {
    hide Stream, Wire, PacketsOfFrame, WrappingAdd;
    var n := |sent|;
    SequenceNumbers(n);
    StreamGrows(sent, f, len, fec);
    assert n + 1 - (n + 1) % 4 == if n % 4 == 3 then n + 1 else n - n % 4;
  }

  /** After the fourth frame of a block the remembered shards and timestamp are those of the block. */
  lemma BlockComplete(sent: seq<Frame>, f: Frame, len: nat, fec: bool, sequenceNumber: u16, baseTimestamp: u32,
                      shards: seq<seq<Byte>>, packets: seq<seq<Byte>>)
    requires InStep(sent, len, fec, sequenceNumber, baseTimestamp, shards, packets) && |f.payload| == len
    requires sequenceNumber % 4 == 3
    ensures |sent| % 4 == 3 && Uniform(sent + [f], len)
    ensures shards[3 := f.payload] == BlockData(sent + [f], len, |sent| / 4)
    ensures baseTimestamp == (sent + [f])[4 * (|sent| / 4)].timestamp
  {
    hide Stream;
    SequenceNumbers(|sent|);
    BlockDataIs(sent + [f], len, |sent| / 4, shards[3 := f.payload]);
  }

  class AudioPayloader {
    const fec: bool
    const frameLen: nat
    const encryption: Option<Cipher>

    var baseTimestamp: u32
    var sequenceNumber: u16
    const dataShards: array<seq<Byte>>
    var packetQueue: seq<seq<Byte>>

    /** The frames sent so far and the packets handed out so far. */
    ghost var sent: seq<Frame>
    ghost var polled: seq<seq<Byte>>

    /** The length of the payloads on the wire, and of the room reserved for them. */
    function WireLen(): nat {
      if encryption.Some? then CipherLen(frameLen) else frameLen
    }

    function RoomLen(): nat {
      if encryption.Some? then SafeLen(frameLen) else frameLen
    }

    /** Everything sent is exactly the stream of the frames pushed. */
    ghost predicate Valid()
      reads this, dataShards
    {
      && (encryption.Some? ==> IsCbcCipher(encryption.value))
      && dataShards.Length == ReedSolomon.DATA_SHARDS
      && InStep(sent, WireLen(), fec, sequenceNumber, baseTimestamp, dataShards[..], polled + packetQueue)
    }

    constructor (fec: bool, frameLen: nat, encryption: Option<Cipher>)
      requires frameLen > 0
      requires encryption.Some? ==> IsCbcCipher(encryption.value)
      ensures Valid() && sent == [] && polled == []
      ensures this.fec == fec && this.frameLen == frameLen && this.encryption == encryption
      ensures fresh(dataShards)
    {
      this.fec, this.frameLen, this.encryption := fec, frameLen, encryption;
      dataShards := new seq<Byte>[4](_ => seq(frameLen, _ => 0));
      sequenceNumber, baseTimestamp, packetQueue := 0, 0, [];
      sent, polled := [], [];
    }

    /** The payload of the next packet: the frame, encrypted if the stream is. */
    method Seal(frame: seq<Byte>) returns (payload: Option<seq<Byte>>)
      requires Valid() && |frame| == frameLen
      ensures payload == if encryption.Some? then encryption.value(sequenceNumber, frame) else Some(frame)
      ensures payload.Some? ==> |payload.value| == WireLen() <= RoomLen()
    {
      if encryption.Some? {
        CipherFillsTheRoom(frameLen);
        payload := encryption.value(sequenceNumber, frame);
      } else {
        payload := Some(frame);
      }
    }

    /** Pushes one opus frame; `timestamp` is in milliseconds and cut to 32 bits. */
    method PushFrame(timestamp: nat, frame: seq<Byte>) returns (r: PushResult)
      requires Valid()
      modifies this, dataShards
      ensures r != ParityPanic ==> Valid()
      ensures polled == old(polled)
      ensures r == InvalidFrameSize <==> |frame| != frameLen
      ensures r == EncryptionFailed <==> |frame| == frameLen && encryption.Some? && encryption.value(old(sequenceNumber), frame).None?
      ensures r == ParityPanic <==> (|frame| == frameLen && r != EncryptionFailed
                                     && fec && |old(sent)| % 4 == 3 && encryption.Some? && frameLen % BLOCK_SIZE != 0)
      ensures r == Pushed ==>
                sent == old(sent) + [Frame(timestamp % 0x1_0000_0000,
                                           if encryption.Some? then encryption.value(old(sequenceNumber), frame).value else frame)]
      ensures r != Pushed && r != ParityPanic ==>
                sent == old(sent) && packetQueue == old(packetQueue) && sequenceNumber == old(sequenceNumber)
    {
      hide InStep, Wire, PacketBytes, PacketsOfFrame, BlockData, WrappingAdd, WrappingSub;
      hide ReedSolomon.Encode, RtpBytes, FecBytes, CipherLen, SafeLen, PaddedLen;
      var timestamp32: u32 := timestamp % 0x1_0000_0000;
      if |frame| != frameLen {
        return InvalidFrameSize;
      }

      var sealed := Seal(frame);
      if sealed.None? {
        return EncryptionFailed;
      }
      var payload := sealed.value;
      ghost var n, len, queue, shards := |sent|, WireLen(), packetQueue, dataShards[..];
      ghost var f := Frame(timestamp32, payload);
      StaysInStep(sent, f, len, fec, sequenceNumber, baseTimestamp, dataShards[..], polled + packetQueue);
      var packet := MakeDataPacket(
        RtpAudioHeader(RTP_AUDIO_HEADER, RTP_PAYLOAD_TYPE_AUDIO, sequenceNumber, timestamp32, 0), payload, RoomLen());

      var shardIndex := sequenceNumber % 4;
      if shardIndex == 3 {
        BlockComplete(sent, f, len, fec, sequenceNumber, baseTimestamp, dataShards[..], polled + packetQueue);
      }
      sequenceNumber := WrappingAdd(sequenceNumber, 1);
      if shardIndex == 0 {
        baseTimestamp := timestamp32;
      }
      dataShards[shardIndex] := payload;
      assert dataShards[..] == shards[shardIndex := payload];
      packetQueue := packetQueue + [packet];
      sent := sent + [f];
      DataPacketBytes(sent, len, n);

      if shardIndex == 3 && fec {
        CipherFillsTheRoom(frameLen);
        if |payload| != RoomLen() {
          return ParityPanic;
        }
        SequenceNumbers(n);
        var parity0, parity1 := MakeParityPackets(sequenceNumber, baseTimestamp, dataShards[..], RoomLen(), sent, n / 4);
        packetQueue := packetQueue + [parity0, parity1];
        WireOfBlockEnd(sent, len, n);
        assert polled + packetQueue == polled + queue + [packet, parity0, parity1];
      } else {
        WireOfFrame(sent, len, n, fec);
        assert polled + packetQueue == polled + queue + [packet];
      }
      return Pushed;
    }

    method PollPacket() returns (r: Option<seq<Byte>>)
      requires Valid()
      modifies this
      ensures Valid() && sent == old(sent)
      ensures r.None? <==> old(packetQueue) == []
      ensures r.None? ==> packetQueue == [] && polled == old(polled)
      ensures r.Some? ==> polled == old(polled) + [r.value] && packetQueue == old(packetQueue)[1..]
    {
      hide InStep;
      if packetQueue == [] {
        return None;
      }
      r := Some(packetQueue[0]);
      assert packetQueue == [packetQueue[0]] + packetQueue[1..];
      polled := polled + [packetQueue[0]];
      packetQueue := packetQueue[1..];
      assert polled + packetQueue == old(polled + packetQueue);
    }
  }

  /** The panic does occur: with the fourth frame of every encrypted stream whose frames do not fill cipher blocks. */
  method FourthPushPanics(frame: seq<Byte>, encrypt: Cipher) returns (r: PushResult)
    requires |frame| % BLOCK_SIZE != 0 && IsCbcCipher(encrypt)
    requires forall s: u16, p: seq<Byte> {:trigger encrypt(s, p)} :: encrypt(s, p).Some?
    ensures r == ParityPanic
  {
    hide InStep;
    var payloader := new AudioPayloader(true, |frame|, Some(encrypt));
    for i := 0 to 3
      invariant payloader.Valid() && |payloader.sent| == i && fresh(payloader) && fresh(payloader.dataShards)
      invariant payloader.fec && payloader.frameLen == |frame| && payloader.encryption == Some(encrypt)
    {
      r := payloader.PushFrame(5 * i, frame);
    }
    r := payloader.PushFrame(15, frame);
  }

  /** Ciphers that never fail can be had. */
  lemma CiphersExist()
    ensures exists encrypt: Cipher :: IsCbcCipher(encrypt) && forall s: u16, p: seq<Byte> {:trigger encrypt(s, p)} :: encrypt(s, p).Some?
  {
    var encrypt: Cipher := (s, p) => Some(seq(CipherLen(|p|), _ => 0));
    assert IsCbcCipher(encrypt);
  }

  /** A header and a payload, cut out of a buffer with room for the longest packet. */
  method MakeDataPacket(header: RtpAudioHeader, payload: seq<Byte>, room: nat) returns (packet: seq<Byte>)
    requires |payload| <= room
    ensures packet == RtpBytes(header) + payload
  {
    var buffer := new Byte[HEADER_SIZE + HEADER_SIZE + room](_ => 0);
    SerializeRtp(header, buffer, 0);
    CopyInto(buffer, HEADER_SIZE, payload);
    packet := buffer[..HEADER_SIZE + |payload|];
  }

  method MakeParityPacket(header: RtpAudioHeader, fecHeader: AudioFecHeader, shards: seq<ReedSolomon.Shard>, room: nat, row: nat)
    returns (packet: seq<Byte>)
    requires ReedSolomon.DataShards(shards, room) && row < ReedSolomon.FEC_SHARDS
    ensures packet == RtpBytes(header) + FecBytes(fecHeader) + ReedSolomon.Encode(shards, room, row)
  {
    var buffer := new Byte[HEADER_SIZE + HEADER_SIZE + room](_ => 0);
    SerializeRtp(header, buffer, 0);
    SerializeFec(fecHeader, buffer, HEADER_SIZE);
    CopyInto(buffer, HEADER_SIZE + HEADER_SIZE, ReedSolomon.Encode(shards, room, row));
    packet := buffer[..];
  }

  /** The two parity packets of block b, made after its last frame. */
  method MakeParityPackets(sequenceNumber: u16, baseTimestamp: u32, shards: seq<ReedSolomon.Shard>, room: nat,
                           ghost sent: seq<Frame>, ghost b: nat)
    returns (parity0: seq<Byte>, parity1: seq<Byte>)
    requires Uniform(sent, room) && |sent| == 4 * b + 4 && sequenceNumber == |sent| % 0x1_0000
    requires shards == BlockData(sent, room, b) && baseTimestamp == sent[4 * b].timestamp
    ensures parity0 == PacketBytes(sent, room, Parity(b, 0))
    ensures parity1 == PacketBytes(sent, room, Parity(b, 1))
  {
    hide PacketBytes, BlockData, WrappingAdd, WrappingSub, ReedSolomon.Encode, RtpBytes, FecBytes;
    ParityNumbers(b);
    var base := WrappingSub(sequenceNumber, 4);
    parity0 := MakeParityPacket(
      RtpAudioHeader(RTP_AUDIO_HEADER, RTP_PAYLOAD_TYPE_AUDIO_FEC, sequenceNumber, 0, 0),
      AudioFecHeader(0, RTP_PAYLOAD_TYPE_AUDIO, base, baseTimestamp, 0), shards, room, 0);
    parity1 := MakeParityPacket(
      RtpAudioHeader(RTP_AUDIO_HEADER, RTP_PAYLOAD_TYPE_AUDIO_FEC, WrappingAdd(sequenceNumber, 1), 0, 0),
      AudioFecHeader(1, RTP_PAYLOAD_TYPE_AUDIO, base, baseTimestamp, 0), shards, room, 1);
    ParityPacketBytes(sent, room, b, 0);
    ParityPacketBytes(sent, room, b, 1);
  }

  /** The wrapping counter agrees with the frame count modulo four and names the first frame of a block. */
  lemma SequenceNumbers(n: nat)
    ensures n % 0x1_0000 % 4 == n % 4
    ensures WrappingAdd(n % 0x1_0000, 1) == (n + 1) % 0x1_0000
    ensures WrappingAdd((n + 1) % 0x1_0000, 1) == (n + 2) % 0x1_0000
    ensures n % 4 == 3 ==> n == 4 * (n / 4) + 3 && WrappingSub((n + 1) % 0x1_0000, 4) == 4 * (n / 4) % 0x1_0000
    ensures (n + 1) % 4 == if n % 4 == 3 then 0 else n % 4 + 1
  {
    hide WrappingAdd, WrappingSub;
    NextNumber(n);
    NextNumber(n + 1);
    NextPlace(n);
    if n % 4 == 3 {
      ParityNumbers(n / 4);
    }
  }

  lemma NextPlace(n: nat)
    ensures (n + 1) % 4 == if n % 4 == 3 then 0 else n % 4 + 1
    ensures n % 4 == 3 ==> n == 4 * (n / 4) + 3
  {
  }

  /** The numbers around the end of block b. */
  lemma ParityNumbers(b: nat)
    ensures WrappingSub((4 * b + 4) % 0x1_0000, 4) == 4 * b % 0x1_0000
    ensures WrappingAdd((4 * b + 4) % 0x1_0000, 1) == (4 * b + 5) % 0x1_0000
  {
    NextNumber(4 * b + 4);
  }

  lemma NextNumber(n: nat)
    ensures n % 0x1_0000 % 4 == n % 4
    ensures WrappingAdd(n % 0x1_0000, 1) == (n + 1) % 0x1_0000
  {
    var laps: nat, number: nat := n / 0x1_0000, n % 0x1_0000;
    assert n == 4 * (16384 * laps) + number;
    FoursDoNotMatter(16384 * laps, number);
    if number + 1 < 0x1_0000 {
      assert n + 1 == 0x1_0000 * laps + (number + 1);
      LapsDoNotMatter(laps, number + 1);
    } else {
      assert n + 1 == 0x1_0000 * (laps + 1) + 0;
      LapsDoNotMatter(laps + 1, 0);
    }
  }

  lemma FoursDoNotMatter(k: nat, n: nat)
    ensures (4 * k + n) % 4 == n % 4
  {
  }

  lemma LapsDoNotMatter(laps: nat, number: nat)
    requires number < 0x1_0000
    ensures (0x1_0000 * laps + number) % 0x1_0000 == number
  {
  }

  lemma DataPacketBytes(frames: seq<Frame>, len: nat, n: nat)
    requires Uniform(frames, len) && n < |frames|
    ensures PacketBytes(frames, len, Data(n))
         == RtpBytes(RtpAudioHeader(RTP_AUDIO_HEADER, RTP_PAYLOAD_TYPE_AUDIO, n % 0x1_0000, frames[n].timestamp, 0))
            + frames[n].payload
  {
  }

  lemma ParityPacketBytes(frames: seq<Frame>, len: nat, b: nat, row: u8)
    requires Uniform(frames, len) && 4 * b + 4 <= |frames| && row < ReedSolomon.FEC_SHARDS
    ensures PacketBytes(frames, len, Parity(b, row))
         == RtpBytes(RtpAudioHeader(RTP_AUDIO_HEADER, RTP_PAYLOAD_TYPE_AUDIO_FEC, (4 * b + 4 + row) % 0x1_0000, 0, 0))
            + FecBytes(AudioFecHeader(row, RTP_PAYLOAD_TYPE_AUDIO, 4 * b % 0x1_0000, frames[4 * b].timestamp, 0))
            + ReedSolomon.Encode(BlockData(frames, len, b), len, row)
  {
  }

  lemma BlockDataIs(frames: seq<Frame>, len: nat, b: nat, shards: seq<seq<Byte>>)
    requires Uniform(frames, len) && 4 * b + 4 <= |frames| && |shards| == 4
    requires forall i :: 0 <= i < 4 ==> shards[i] == frames[4 * b + i].payload
    ensures shards == BlockData(frames, len, b)
  {
  }

  lemma WireOfFrame(frames: seq<Frame>, len: nat, n: nat, fec: bool)
    requires Uniform(frames, len) && |frames| == n + 1 && !(fec && n % 4 == 3)
    ensures Wire(frames, len, PacketsOfFrame(n, fec)) == [PacketBytes(frames, len, Data(n))]
  {
    assert PacketsOfFrame(n, fec) == [Data(n)];
  }

  lemma WireOfBlockEnd(frames: seq<Frame>, len: nat, n: nat)
    requires Uniform(frames, len) && |frames| == n + 1 && n % 4 == 3
    ensures Wire(frames, len, PacketsOfFrame(n, true))
         == [PacketBytes(frames, len, Data(n)), PacketBytes(frames, len, Parity(n / 4, 0)), PacketBytes(frames, len, Parity(n / 4, 1))]
  {
    hide PacketBytes;
    assert PacketsOfFrame(n, true) == [Data(n), Parity(n / 4, 0), Parity(n / 4, 1)];
  }
}
