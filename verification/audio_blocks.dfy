/**
 What an audio stream looks like on the wire, as a function of the frames alone: one data packet
 a frame, and after every fourth frame two parity packets over the last four payloads.
 */
module AudioBlocks {
  import opened Bytes
  import opened AudioPacket
  import ReedSolomon

  /** An opus frame as it is sent: its timestamp in milliseconds and its (possibly encrypted) payload. */
  datatype Frame = Frame(timestamp: u32, payload: seq<Byte>)

  predicate Uniform(frames: seq<Frame>, len: nat) {
    forall i :: 0 <= i < |frames| ==> |frames[i].payload| == len
  }

  /** Parity packet `row` over frames 4 * block .. 4 * block + 3, or the data packet of frame `index`. */
  datatype PacketId = Data(index: nat) | Parity(block: nat, row: nat)

  /** Whether a stream of n frames contains the packet. */
  predicate InStream(id: PacketId, n: nat, fec: bool) {
    match id
    case Data(i) => i < n
    case Parity(b, row) => fec && 4 * b + 4 <= n && row < ReedSolomon.FEC_SHARDS
  }

  function BlockData(frames: seq<Frame>, len: nat, b: nat): (data: seq<ReedSolomon.Shard>)
    requires Uniform(frames, len) && 4 * b + 4 <= |frames|
    ensures ReedSolomon.DataShards(data, len)
  {
    seq(ReedSolomon.DATA_SHARDS, i requires 0 <= i < ReedSolomon.DATA_SHARDS => frames[4 * b + i].payload)
  }

  function DataHeader(i: nat, timestamp: u32): RtpAudioHeader {
    RtpAudioHeader(RTP_AUDIO_HEADER, RTP_PAYLOAD_TYPE_AUDIO, i % 0x1_0000, timestamp, 0)
  }

  function ParityHeader(b: nat, row: nat): RtpAudioHeader {
    RtpAudioHeader(RTP_AUDIO_HEADER, RTP_PAYLOAD_TYPE_AUDIO_FEC, (4 * b + 4 + row) % 0x1_0000, 0, 0)
  }

  function BlockHeader(b: nat, row: u8, baseTimestamp: u32): AudioFecHeader {
    AudioFecHeader(row, RTP_PAYLOAD_TYPE_AUDIO, 4 * b % 0x1_0000, baseTimestamp, 0)
  }

  function PacketBytes(frames: seq<Frame>, len: nat, id: PacketId): seq<Byte>
    requires Uniform(frames, len) && InStream(id, |frames|, true)
  {
    match id
    case Data(i) =>
      RtpBytes(DataHeader(i, frames[i].timestamp)) + frames[i].payload
    case Parity(b, row) =>
      RtpBytes(ParityHeader(b, row)) + FecBytes(BlockHeader(b, row, frames[4 * b].timestamp))
      + ReedSolomon.Encode(BlockData(frames, len, b), len, row)
  }

  /** A data packet on the wire, byte by byte. */
  lemma DataOnTheWire(frames: seq<Frame>, len: nat, i: nat)
    requires Uniform(frames, len) && i < |frames|
    ensures
      var p := PacketBytes(frames, len, Data(i));
      && |p| == 12 + len && ToInt(p[0]) == 128 && ToInt(p[1]) == 97 && Number16(p, 2) == i % 65536
      && Number32(p, 4) == frames[i].timestamp && Number32(p, 8) == 0 && p[12..] == frames[i].payload
  {
    hide ToInt, RtpBytes, Number16, Number32;
    var h, p := DataHeader(i, frames[i].timestamp), PacketBytes(frames, len, Data(i));
    NumbersWritten(h, BlockHeader(0, 0, 0));
    assert p[..12] == RtpBytes(h);
    HeaderAt(p, RtpBytes(h));
  }

  /** The numbers in a header at the front. */
  lemma HeaderAt(p: seq<Byte>, h: seq<Byte>)
    requires |p| >= 12 && p[..12] == h
    ensures p[0] == h[0] && p[1] == h[1]
    ensures Number16(p, 2) == Number16(h, 2) && Number32(p, 4) == Number32(h, 4) && Number32(p, 8) == Number32(h, 8)
  {
    hide ToInt;
    assert p[2] == h[2] && p[3] == h[3] && p[4] == h[4] && p[5] == h[5] && p[6] == h[6] && p[7] == h[7];
    assert p[8] == h[8] && p[9] == h[9] && p[10] == h[10] && p[11] == h[11];
  }

  /** The two headers of a parity packet, byte by byte: its own number, then the block's number and timestamp. */
  predicate ParityHeaders(p: seq<Byte>, number: nat, row: nat, base: nat, timestamp: u32) {
    && |p| >= 24 && ToInt(p[0]) == 128 && ToInt(p[1]) == 127 && Number16(p, 2) == number % 65536
    && Number32(p, 4) == 0 && Number32(p, 8) == 0
    && ToInt(p[12]) == row && ToInt(p[13]) == 97 && Number16(p, 14) == base % 65536
    && Number32(p, 16) == timestamp && Number32(p, 20) == 0
  }

  /** A parity packet on the wire: its number goes on from those of its block. */
  lemma ParityOnTheWire(frames: seq<Frame>, len: nat, b: nat, row: nat)
    requires Uniform(frames, len) && 4 * b + 4 <= |frames| && row < 2
    ensures
      var p := PacketBytes(frames, len, Parity(b, row));
      && ParityHeaders(p, 4 * b + 4 + row, row, 4 * b, frames[4 * b].timestamp) && |p| == 24 + len
      && p[24..] == ReedSolomon.Encode(BlockData(frames, len, b), len, row)
    ensures BlockData(frames, len, b)
         == [frames[4 * b].payload, frames[4 * b + 1].payload, frames[4 * b + 2].payload, frames[4 * b + 3].payload]
  {
    hide ToInt, RtpBytes, FecBytes, ReedSolomon.Encode, Number16, Number32, BlockData;
    var h, f := ParityHeader(b, row), BlockHeader(b, row, frames[4 * b].timestamp);
    var p := PacketBytes(frames, len, Parity(b, row));
    NumbersWritten(h, f);
    assert p[..12] == RtpBytes(h) && p[12..24] == FecBytes(f);
    HeadersAt(p, RtpBytes(h), FecBytes(f));
    BlockDataIsListed(frames, len, b);
  }

  lemma BlockDataIsListed(frames: seq<Frame>, len: nat, b: nat)
    requires Uniform(frames, len) && 4 * b + 4 <= |frames|
    ensures BlockData(frames, len, b)
         == [frames[4 * b].payload, frames[4 * b + 1].payload, frames[4 * b + 2].payload, frames[4 * b + 3].payload]
  {
  }

  /** The numbers in two headers that follow each other. */
  lemma HeadersAt(p: seq<Byte>, h: seq<Byte>, f: seq<Byte>)
    requires |p| >= 24 && p[..12] == h && p[12..24] == f
    ensures p[0] == h[0] && p[1] == h[1] && p[12] == f[0] && p[13] == f[1]
    ensures Number16(p, 2) == Number16(h, 2) && Number32(p, 4) == Number32(h, 4) && Number32(p, 8) == Number32(h, 8)
    ensures Number16(p, 14) == Number16(f, 2) && Number32(p, 16) == Number32(f, 4) && Number32(p, 20) == Number32(f, 8)
  {
    hide ToInt;
    forall i | 0 <= i < 12 ensures p[i] == h[i] && p[12 + i] == f[i] {
      assert p[..12][i] == p[i] && p[12..24][i] == p[12 + i];
    }
    assert p[2] == h[2] && p[3] == h[3] && p[4] == h[4] && p[5] == h[5] && p[6] == h[6] && p[7] == h[7];
    assert p[8] == h[8] && p[9] == h[9] && p[10] == h[10] && p[11] == h[11];
    assert p[14] == f[2] && p[15] == f[3] && p[16] == f[4] && p[17] == f[5] && p[18] == f[6] && p[19] == f[7];
    assert p[20] == f[8] && p[21] == f[9] && p[22] == f[10] && p[23] == f[11];
  }

  /** The packets that the frame with index i brings about. */
  function PacketsOfFrame(i: nat, fec: bool): seq<PacketId> {
    [Data(i)] + if fec && i % 4 == 3 then [Parity(i / 4, 0), Parity(i / 4, 1)] else []
  }

  /** All packets of a stream of n frames, in the order they are sent. */
  function PacketsOf(n: nat, fec: bool): seq<PacketId> {
    if n == 0 then [] else PacketsOf(n - 1, fec) + PacketsOfFrame(n - 1, fec)
  }

  lemma {:induction false} PacketsAreInStream(n: nat, fec: bool)
    ensures forall k :: 0 <= k < |PacketsOf(n, fec)| ==> InStream(PacketsOf(n, fec)[k], n, fec)
  {
    if n != 0 {
      PacketsAreInStream(n - 1, fec);
      forall k | 0 <= k < |PacketsOf(n, fec)| ensures InStream(PacketsOf(n, fec)[k], n, fec) {
        if k < |PacketsOf(n - 1, fec)| {
          assert InStream(PacketsOf(n - 1, fec)[k], n - 1, fec);
        }
      }
    }
  }

  /** The wire image of a list of packets. */
  function Wire(frames: seq<Frame>, len: nat, ids: seq<PacketId>): (packets: seq<seq<Byte>>)
    requires Uniform(frames, len) && forall k :: 0 <= k < |ids| ==> InStream(ids[k], |frames|, true)
    ensures |packets| == |ids|
  {
    seq(|ids|, k requires 0 <= k < |ids| => PacketBytes(frames, len, ids[k]))
  }

  /** The whole stream on the wire. */
  function Stream(frames: seq<Frame>, len: nat, fec: bool): seq<seq<Byte>>
    requires Uniform(frames, len)
  {
    PacketsAreInStream(|frames|, fec);
    Wire(frames, len, PacketsOf(|frames|, fec))
  }

  /** A packet already sent does not depend on the frames pushed later. */
  lemma LaterFramesDoNotMatter(frames: seq<Frame>, more: Frame, len: nat, id: PacketId)
    requires Uniform(frames, len) && |more.payload| == len && InStream(id, |frames|, true)
    ensures Uniform(frames + [more], len)
    ensures PacketBytes(frames + [more], len, id) == PacketBytes(frames, len, id)
  {
    match id
    case Data(i) =>
    case Parity(b, row) =>
      assert BlockData(frames + [more], len, b) == BlockData(frames, len, b);
  }

  /** Pushing a frame appends its packets to the stream. */
  lemma StreamGrows(frames: seq<Frame>, more: Frame, len: nat, fec: bool)
    requires Uniform(frames, len) && |more.payload| == len
    ensures Uniform(frames + [more], len)
    ensures forall k :: 0 <= k < |PacketsOfFrame(|frames|, fec)| ==>
              InStream(PacketsOfFrame(|frames|, fec)[k], |frames| + 1, true)
    ensures Stream(frames + [more], len, fec)
         == Stream(frames, len, fec) + Wire(frames + [more], len, PacketsOfFrame(|frames|, fec))
  {
    hide PacketBytes;
    var n := |frames|;
    PacketsAreInStream(n, fec);
    PacketsAreInStream(n + 1, fec);
    forall k | 0 <= k < |PacketsOf(n, fec)|
      ensures PacketBytes(frames + [more], len, PacketsOf(n, fec)[k]) == PacketBytes(frames, len, PacketsOf(n, fec)[k])
    {
      LaterFramesDoNotMatter(frames, more, len, PacketsOf(n, fec)[k]);
    }
  }
}
