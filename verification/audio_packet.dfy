/** The RTP audio header (section 5.1 of RFC 3550) and the FEC header that follows it in parity packets. */
module AudioPacket {
  import opened Bytes

  const INVALID_OPUS_HEADER: u8 := 0
  const RTP_AUDIO_HEADER: u8 := 0x80
  const RTP_PAYLOAD_TYPE_AUDIO: u8 := 97
  const RTP_PAYLOAD_TYPE_AUDIO_FEC: u8 := 127

  const HEADER_SIZE := 12

  datatype RtpAudioHeader = RtpAudioHeader(header: u8, packetType: u8, sequenceNumber: u16, timestamp: u32, ssrc: u32)

  datatype AudioFecHeader = AudioFecHeader(
    fecShardIndex: u8, payloadType: u8, baseSequenceNumber: u16, baseTimestamp: u32, ssrc: u32)

  /** Both headers have the same layout: two single bytes, a 16-bit number and two 32-bit numbers. */
  function Fields(a: u8, b: u8, c: u16, d: u32, e: u32): (bytes: seq<Byte>)
    ensures |bytes| == HEADER_SIZE
  {
    [FromInt(a), FromInt(b)] + U16ToBytes(c) + U32ToBytes(d) + U32ToBytes(e)
  }

  function RtpBytes(h: RtpAudioHeader): (bytes: seq<Byte>)
    ensures |bytes| == HEADER_SIZE
  {
    Fields(h.header, h.packetType, h.sequenceNumber, h.timestamp, h.ssrc)
  }

  function FecBytes(h: AudioFecHeader): (bytes: seq<Byte>)
    ensures |bytes| == HEADER_SIZE
  {
    Fields(h.fecShardIndex, h.payloadType, h.baseSequenceNumber, h.baseTimestamp, h.ssrc)
  }

  function DeserializeRtp(b: seq<Byte>): RtpAudioHeader
    requires |b| == HEADER_SIZE
  {
    RtpAudioHeader(ToInt(b[0]), ToInt(b[1]), U16FromBytes(b[2..4]), U32FromBytes(b[4..8]), U32FromBytes(b[8..12]))
  }

  function DeserializeFec(b: seq<Byte>): AudioFecHeader
    requires |b| == HEADER_SIZE
  {
    AudioFecHeader(ToInt(b[0]), ToInt(b[1]), U16FromBytes(b[2..4]), U32FromBytes(b[4..8]), U32FromBytes(b[8..12]))
  }

  /** The sequence with `bytes` written over it from position `at` on. */
  function Spliced(s: seq<Byte>, at: nat, bytes: seq<Byte>): (r: seq<Byte>)
    requires at + |bytes| <= |s|
    ensures |r| == |s|
  {
    s[..at] + bytes + s[at + |bytes|..]
  }

  lemma SplicedTwice(s: seq<Byte>, at: nat, x: seq<Byte>, y: seq<Byte>)
    requires at + |x| + |y| <= |s|
    ensures Spliced(Spliced(s, at, x), at + |x|, y) == Spliced(s, at, x + y)
  {
  }

  method CopyInto(buffer: array<Byte>, at: nat, bytes: seq<Byte>)
    requires at + |bytes| <= buffer.Length
    modifies buffer
    ensures buffer[..] == Spliced(old(buffer[..]), at, bytes)
  {
    for i := 0 to |bytes|
      invariant buffer[..at] == old(buffer[..at])
      invariant buffer[at..at + i] == bytes[..i]
      invariant buffer[at + i..] == old(buffer[at + i..])
    {
      buffer[at + i] := bytes[i];
    }
    assert buffer[..] == buffer[..at] + buffer[at..at + |bytes|] + buffer[at + |bytes|..];
  }

  method WriteFields(a: u8, b: u8, c: u16, d: u32, e: u32, buffer: array<Byte>, at: nat)
    requires at + HEADER_SIZE <= buffer.Length
    modifies buffer
    ensures buffer[..] == Spliced(old(buffer[..]), at, Fields(a, b, c, d, e))
  {
    hide U16ToBytes, U32ToBytes, FromInt, Spliced;
    ghost var was := buffer[..];
    CopyInto(buffer, at, [FromInt(a)]);
    CopyInto(buffer, at + 1, [FromInt(b)]);
    SplicedTwice(was, at, [FromInt(a)], [FromInt(b)]);
    assert [FromInt(a)] + [FromInt(b)] == [FromInt(a), FromInt(b)];
    CopyInto(buffer, at + 2, U16ToBytes(c));
    SplicedTwice(was, at, [FromInt(a), FromInt(b)], U16ToBytes(c));
    CopyInto(buffer, at + 4, U32ToBytes(d));
    SplicedTwice(was, at, [FromInt(a), FromInt(b)] + U16ToBytes(c), U32ToBytes(d));
    CopyInto(buffer, at + 8, U32ToBytes(e));
    SplicedTwice(was, at, [FromInt(a), FromInt(b)] + U16ToBytes(c) + U32ToBytes(d), U32ToBytes(e));
  }

  method SerializeRtp(h: RtpAudioHeader, buffer: array<Byte>, at: nat)
    requires at + HEADER_SIZE <= buffer.Length
    modifies buffer
    ensures buffer[..] == Spliced(old(buffer[..]), at, RtpBytes(h))
  {
    WriteFields(h.header, h.packetType, h.sequenceNumber, h.timestamp, h.ssrc, buffer, at);
  }

  method SerializeFec(h: AudioFecHeader, buffer: array<Byte>, at: nat)
    requires at + HEADER_SIZE <= buffer.Length
    modifies buffer
    ensures buffer[..] == Spliced(old(buffer[..]), at, FecBytes(h))
  {
    WriteFields(h.fecShardIndex, h.payloadType, h.baseSequenceNumber, h.baseTimestamp, h.ssrc, buffer, at);
  }

  lemma FieldsSliced(a: u8, b: u8, c: u16, d: u32, e: u32)
    ensures var bytes := Fields(a, b, c, d, e);
            && ToInt(bytes[0]) == a && ToInt(bytes[1]) == b
            && U16FromBytes(bytes[2..4]) == c && U32FromBytes(bytes[4..8]) == d && U32FromBytes(bytes[8..12]) == e
  {
    hide U16ToBytes, U32ToBytes, FromInt, ToInt, U16FromBytes, U32FromBytes;
    var bytes := Fields(a, b, c, d, e);
    IntRoundTrip(a);
    IntRoundTrip(b);
    U16RoundTrip(c);
    U32RoundTrip(d);
    U32RoundTrip(e);
    assert bytes[2..4] == U16ToBytes(c) && bytes[4..8] == U32ToBytes(d) && bytes[8..12] == U32ToBytes(e);
  }

  lemma SlicesMakeFields(bytes: seq<Byte>)
    requires |bytes| == HEADER_SIZE
    ensures Fields(ToInt(bytes[0]), ToInt(bytes[1]), U16FromBytes(bytes[2..4]), U32FromBytes(bytes[4..8]),
                   U32FromBytes(bytes[8..12])) == bytes
  {
    hide U16ToBytes, U32ToBytes, FromInt, ToInt, U16FromBytes, U32FromBytes;
    ByteRoundTrip(bytes[0]);
    ByteRoundTrip(bytes[1]);
    U16BytesRoundTrip(bytes[2..4]);
    U32BytesRoundTrip(bytes[4..8]);
    U32BytesRoundTrip(bytes[8..12]);
    assert bytes == [bytes[0], bytes[1]] + bytes[2..4] + bytes[4..8] + bytes[8..12];
  }

  /** Headers survive serialization, and every 12 bytes are the serialization of the header read from them. */
  lemma RtpRoundTrip(h: RtpAudioHeader, bytes: seq<Byte>)
    requires |bytes| == HEADER_SIZE
    ensures DeserializeRtp(RtpBytes(h)) == h
    ensures RtpBytes(DeserializeRtp(bytes)) == bytes
  {
    FieldsSliced(h.header, h.packetType, h.sequenceNumber, h.timestamp, h.ssrc);
    SlicesMakeFields(bytes);
  }

  lemma FecRoundTrip(h: AudioFecHeader, bytes: seq<Byte>)
    requires |bytes| == HEADER_SIZE
    ensures DeserializeFec(FecBytes(h)) == h
    ensures FecBytes(DeserializeFec(bytes)) == bytes
  {
    FieldsSliced(h.fecShardIndex, h.payloadType, h.baseSequenceNumber, h.baseTimestamp, h.ssrc);
    SlicesMakeFields(bytes);
  }

  // ---------- byte order ----------

  /** The numbers in a datagram, most significant byte first. */
  function Number16(p: seq<Byte>, at: nat): u16
    requires at + 2 <= |p|
  {
    256 * ToInt(p[at]) + ToInt(p[at + 1])
  }

  function Number32(p: seq<Byte>, at: nat): u32
    requires at + 4 <= |p|
  {
    16777216 * ToInt(p[at]) + 65536 * ToInt(p[at + 1]) + 256 * ToInt(p[at + 2]) + ToInt(p[at + 3])
  }

  lemma Reads16(p: seq<Byte>, at: nat)
    requires at + 2 <= |p|
    ensures U16FromBytes(p[at..at + 2]) == Number16(p, at)
  {
    hide ToInt;
  }

  lemma Reads32(p: seq<Byte>, at: nat)
    requires at + 4 <= |p|
    ensures U32FromBytes(p[at..at + 4]) == Number32(p, at)
  {
    hide ToInt;
    var b := p[at..at + 4];
    Reads16(p, at);
    Reads16(p, at + 2);
    assert b[..2] == p[at..at + 2] && b[2..] == p[at + 2..at + 4];
  }

  /** What is read is the header with its numbers in that byte order. */
  lemma NumbersRead(p: seq<Byte>, at: nat)
    requires at + 12 <= |p|
    ensures
      var h, f := DeserializeRtp(p[at..at + 12]), DeserializeFec(p[at..at + 12]);
      && h == RtpAudioHeader(ToInt(p[at]), ToInt(p[at + 1]), Number16(p, at + 2), Number32(p, at + 4), Number32(p, at + 8))
      && f == AudioFecHeader(ToInt(p[at]), ToInt(p[at + 1]), Number16(p, at + 2), Number32(p, at + 4), Number32(p, at + 8))
  {
    hide ToInt, U16FromBytes, U32FromBytes, Number16, Number32;
    var b := p[at..at + 12];
    Reads16(p, at + 2);
    Reads32(p, at + 4);
    Reads32(p, at + 8);
    assert b[2..4] == p[at + 2..at + 4];
    assert b[4..8] == p[at + 4..at + 8];
    assert b[8..12] == p[at + 8..at + 12];
  }

  /** And so is what is written. */
  lemma NumbersWritten(h: RtpAudioHeader, f: AudioFecHeader)
    ensures
      var b := RtpBytes(h);
      && ToInt(b[0]) == h.header && ToInt(b[1]) == h.packetType
      && Number16(b, 2) == h.sequenceNumber && Number32(b, 4) == h.timestamp && Number32(b, 8) == h.ssrc
    ensures
      var b := FecBytes(f);
      && ToInt(b[0]) == f.fecShardIndex && ToInt(b[1]) == f.payloadType
      && Number16(b, 2) == f.baseSequenceNumber && Number32(b, 4) == f.baseTimestamp && Number32(b, 8) == f.ssrc
  {
    hide ToInt, RtpBytes, FecBytes, DeserializeRtp, DeserializeFec;
    RtpRoundTrip(h, RtpBytes(h));
    FecRoundTrip(f, FecBytes(f));
    NumbersRead(RtpBytes(h), 0);
    NumbersRead(FecBytes(f), 0);
    assert RtpBytes(h)[0..12] == RtpBytes(h) && FecBytes(f)[0..12] == FecBytes(f);
  }
}
