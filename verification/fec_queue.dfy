/**
 The order of the queued parity packets, whatever packets arrive: what inserting keeps, and which packet the
 reconstruction then takes for which parity shard.
 */
module FecQueue {
  import opened Wrappers
  import opened Bytes
  import opened AudioPacket
  import opened AudioBuffers
  import RS = ReedSolomon

  function Row(p: FecPacket): u8 {
    p.header.fecShardIndex
  }

  /** Orders packets by block and row; for rows below two it tells them apart. */
  function Key(p: FecPacket): nat {
    2 * Base(p) + Row(p)
  }

  predicate RowsFit(q: seq<FecPacket>) {
    forall i :: 0 <= i < |q| ==> Row(q[i]) < RS.FEC_SHARDS
  }

  predicate Ordered(q: seq<FecPacket>) {
    forall i, j :: 0 <= i < j < |q| ==> Key(q[i]) < Key(q[j])
  }

  predicate Queued(q: seq<FecPacket>, key: nat) {
    exists i :: 0 <= i < |q| && Key(q[i]) == key
  }

  /** Row 0 of a block stands before everything else of the block, and only once. */
  predicate ZeroFirst(q: seq<FecPacket>) {
    forall i, j :: 0 <= i < j < |q| && Base(q[i]) == Base(q[j]) ==> Row(q[j]) != 0
  }

  /** No block has row 0 twice. */
  predicate OneZero(q: seq<FecPacket>) {
    forall i, j :: 0 <= i < j < |q| && Base(q[i]) == Base(q[j]) ==> Row(q[i]) != 0 || Row(q[j]) != 0
  }

  /** The block starts with row 0 twice, so that row 0 takes both parity slots. */
  predicate DoubleZero(q: seq<FecPacket>, base: u16) {
    var i := FirstOf(q, base);
    i + 1 < |q| && Base(q[i + 1]) == base && Row(q[i]) == 0 && Row(q[i + 1]) == 0
  }

  /** Row 1 stands first in the block, so that the first parity slot stays empty. */
  predicate OneInFront(q: seq<FecPacket>, base: u16) {
    var i := FirstOf(q, base);
    i < |q| && Row(q[i]) != 0
  }

  /** Each slot is filled exactly if its row is queued, and with that row of the block. */
  predicate SlotsHoldRows(q: seq<FecPacket>, base: u16)
    requires FirstOf(q, base) < |q|
  {
    var slots := ParitySlots(q, base);
    && (slots.0.Some? <==> Queued(q, 2 * base)) && (slots.0.Some? ==> slots.0.value in q && Key(slots.0.value) == 2 * base)
    && (slots.1.Some? <==> Queued(q, 2 * base + 1)) && (slots.1.Some? ==> slots.1.value in q && Key(slots.1.value) == 2 * base + 1)
  }

  // ---------- strictly ordered queues ----------

  /** A packet that is not queued yet finds its place in the order, whichever entry the search comes upon. */
  lemma InsertKeepsOrder(q: seq<FecPacket>, p: FecPacket, hit: nat)
    requires Ordered(q) && RowsFit(q) && Row(p) < RS.FEC_SHARDS && !Queued(q, Key(p))
    ensures Ordered(InsertFec(q, p, hit)) && RowsFit(InsertFec(q, p, hit))
  {
    hide InsertPosition;
    OrderedIsZeroFirst(q);
    forall k | 0 <= k < |q| ensures Key(q[k]) != Key(p) && (k < InsertPosition(q, p, hit) <==> Key(q[k]) < Key(p)) {
      InsertSide(q, p, hit, k);
    }
    hide Sorted, Key, Row;
    OrderedWith(q, p, InsertPosition(q, p, hit));
    RowsFitInserted(q, p, hit);
  }

  lemma OrderedWith(q: seq<FecPacket>, p: FecPacket, at: nat)
    requires Ordered(q) && at <= |q|
    requires forall k :: 0 <= k < |q| ==> (k < at ==> Key(q[k]) < Key(p)) && (k >= at ==> Key(p) < Key(q[k]))
    ensures Ordered(q[..at] + [p] + q[at..])
  {
    hide Key;
    var r := q[..at] + [p] + q[at..];
    forall i, j | 0 <= i < j < |r| ensures Key(r[i]) < Key(r[j]) {
      assert r[i] == if i < at then q[i] else if i == at then p else q[i - 1];
      assert r[j] == if j < at then q[j] else if j == at then p else q[j - 1];
    }
  }

  lemma InsertSide(q: seq<FecPacket>, p: FecPacket, hit: nat, k: nat)
    requires Ordered(q) && RowsFit(q) && Row(p) < RS.FEC_SHARDS && !Queued(q, Key(p)) && k < |q| && Sorted(q)
    ensures Key(q[k]) != Key(p) && (k < InsertPosition(q, p, hit) <==> Key(q[k]) < Key(p))
  {
    var i := Found(q, Base(p), hit);
    if i < |q| {
      assert Key(q[i]) != Key(p);
    } else {
      InsertPositionFits(q, p, hit);
    }
  }

  lemma OrderedIsZeroFirst(q: seq<FecPacket>)
    requires Ordered(q) && RowsFit(q)
    ensures Sorted(q) && ZeroFirst(q)
  {
    forall i, j | 0 <= i < j < |q|
      ensures Base(q[i]) <= Base(q[j]) && (Base(q[i]) == Base(q[j]) ==> Row(q[j]) != 0)
    {
      assert Key(q[i]) < Key(q[j]);
    }
  }

  /** An ordered queue has at most two entries for a block. */
  lemma AtMostTwoPerBlock(q: seq<FecPacket>, i: nat, j: nat, k: nat)
    requires Ordered(q) && RowsFit(q) && i < j < k < |q|
    ensures !(Base(q[i]) == Base(q[j]) == Base(q[k]))
  {
    assert Key(q[i]) < Key(q[j]) < Key(q[k]);
  }

  lemma OrderedSlots(q: seq<FecPacket>, base: u16)
    requires Ordered(q) && RowsFit(q) && FirstOf(q, base) < |q|
    ensures SlotsHoldRows(q, base)
  {
    OrderedIsZeroFirst(q);
    ZeroFirstSlots(q, base);
  }

  // ---------- queues with repeated packets ----------

  /** Entries of one block stand together. */
  lemma BlockStandsTogether(q: seq<FecPacket>, base: u16, k: nat)
    requires Sorted(q) && k < |q| && Base(q[k]) == base
    ensures FirstOf(q, base) <= k
    ensures forall i :: FirstOf(q, base) <= i <= k ==> Base(q[i]) == base
  {
  }

  /** With row 0 first in every block each row has its own slot. */
  lemma ZeroFirstSlots(q: seq<FecPacket>, base: u16)
    requires Sorted(q) && RowsFit(q) && ZeroFirst(q) && FirstOf(q, base) < |q|
    ensures SlotsHoldRows(q, base)
  {
    hide FirstOf;
    var i := FirstOf(q, base);
    forall k | 0 <= k < |q| && (Key(q[k]) == 2 * base || Key(q[k]) == 2 * base + 1)
      ensures Base(q[k]) == base && k >= i && (Key(q[k]) == 2 * base ==> k == i) && (k > i ==> Base(q[i + 1]) == base)
    {
      BlockStandsTogether(q, base, k);
    }
  }

  /** In any sorted queue the first slot holds row 0, and the second one row 1 unless row 0 is doubled. */
  lemma SlotsHoldRowsUnlessDoubled(q: seq<FecPacket>, base: u16)
    requires RowsFit(q) && FirstOf(q, base) < |q|
    ensures
      var slots := ParitySlots(q, base);
      && (slots.0.Some? ==> slots.0.value in q && Key(slots.0.value) == 2 * base)
      && (slots.1.Some? ==> slots.1.value in q && Base(slots.1.value) == base)
      && (slots.1.Some? ==> (Row(slots.1.value) == 0 <==> DoubleZero(q, base)))
      && (DoubleZero(q, base) ==> slots.0.Some? && slots.1.Some?)
  {
  }

  /** Where a packet goes when the search comes upon an entry of its block. */
  lemma InsertAtHit(q: seq<FecPacket>, p: FecPacket, hit: nat)
    requires hit < |q| && Base(q[hit]) == Base(p)
    ensures InsertFec(q, p, hit) == if Row(p) > Row(q[hit]) then q[..hit + 1] + [p] + q[hit + 1..] else q[..hit] + [p] + q[hit..]
  {
  }

  lemma InsertIntoEmpty(p: FecPacket, hit: nat)
    ensures InsertFec([], p, hit) == [p]
  {
    assert InsertPosition([], p, hit) == 0;
    assert [] + [p] + [] == [p];
  }

  lemma OneZeroIsNotDoubled(q: seq<FecPacket>, base: u16)
    requires OneZero(q)
    ensures !DoubleZero(q, base)
  {
  }

  /** Row 1 of a block keeps row 0 in front; so does row 0 if the block had at most one entry and not row 0. */
  lemma InsertKeepsZeroFirst(q: seq<FecPacket>, p: FecPacket, hit: nat)
    requires Sorted(q) && RowsFit(q) && ZeroFirst(q) && Row(p) < RS.FEC_SHARDS
    requires Row(p) == 0 ==> !Queued(q, Key(p)) && forall i, j :: 0 <= i < j < |q| ==> !(Base(q[i]) == Base(q[j]) == Base(p))
    ensures ZeroFirst(InsertFec(q, p, hit))
  {
    InsertPositionFits(q, p, hit);
    var at := InsertPosition(q, p, hit);
    forall k | 0 <= k < |q| && Base(q[k]) == Base(p)
      ensures Row(p) == 0 ==> k >= at
      ensures k >= at ==> Row(q[k]) != 0
    {
      var i := Found(q, Base(p), hit);
      assert Row(p) == 0 ==> Key(q[i]) != Key(p);
    }
    hide InsertPosition;
  }

  lemma RowsFitInserted(q: seq<FecPacket>, p: FecPacket, hit: nat)
    requires RowsFit(q) && Row(p) < RS.FEC_SHARDS
    ensures RowsFit(InsertFec(q, p, hit))
  {
    hide InsertPosition;
  }

  lemma SuffixKeepsOrder(q: seq<FecPacket>, from: nat)
    requires from <= |q|
    ensures Ordered(q) ==> Ordered(q[from..])
    ensures ZeroFirst(q) ==> ZeroFirst(q[from..])
    ensures RowsFit(q) ==> RowsFit(q[from..])
    ensures Sorted(q) ==> Sorted(q[from..])
    ensures forall x :: x in q[from..] ==> x in q
  {
  }

  // ---------- runs over arbitrary datagrams ----------

  /** A datagram with any bytes, or a call of the application. */
  datatype Op = Datagram(packet: seq<Byte>, hit: nat) | PollOp | SkipOp

  /** The parity packet that a datagram carries, if it does. */
  function ParityIn(op: Op): Option<FecPacket> {
    if op.Datagram? && |op.packet| >= HEADER_SIZE + HEADER_SIZE
       && DeserializeRtp(op.packet[..HEADER_SIZE]).packetType == RTP_PAYLOAD_TYPE_AUDIO_FEC
    then Some(FecPacket(DeserializeFec(op.packet[HEADER_SIZE..HEADER_SIZE + HEADER_SIZE]), op.packet[HEADER_SIZE + HEADER_SIZE..]))
    else None
  }

  function Perform(s: Buffers, decryption: Decryption, op: Op): (r: Buffers)
    requires Ready(s)
    ensures Ready(r)
  {
    match op
    case Datagram(packet, hit) =>
      HandleKeepsReady(s, packet, hit);
      Handle(s, packet, hit).0
    case PollOp =>
      PollKeepsReady(s, decryption);
      Poll(s, decryption).0
    case SkipOp =>
      SkipKeepsReady(s);
      Skip(s)
  }

  function PerformAll(fec: bool, decryption: Decryption, ops: seq<Op>): (s: Buffers)
    ensures Ready(s)
  {
    if ops == [] then Buffers(0, map[], [], fec)
    else Perform(PerformAll(fec, decryption, ops[..|ops| - 1]), decryption, ops[|ops| - 1])
  }

  /** Every parity packet has row 0 or 1, and no two are about the same row of the same block. */
  predicate RowsOnce(ops: seq<Op>) {
    && (forall i :: 0 <= i < |ops| && ParityIn(ops[i]).Some? ==> Row(ParityIn(ops[i]).value) < RS.FEC_SHARDS)
    && (forall i, j :: 0 <= i < j < |ops| && ParityIn(ops[i]).Some? && ParityIn(ops[j]).Some? ==>
          Key(ParityIn(ops[i]).value) != Key(ParityIn(ops[j]).value))
  }

  ghost predicate Came(ops: seq<Op>, p: FecPacket) {
    exists i :: 0 <= i < |ops| && ParityIn(ops[i]) == Some(p)
  }

  /** What a call can do to the queue: put the datagram's parity packet in, or pop from the front. */
  lemma PerformOnQueue(s: Buffers, decryption: Decryption, op: Op)
    requires Ready(s)
    ensures
      var q := Perform(s, decryption, op).fec;
      || (op.Datagram? && ParityIn(op).Some? && q == InsertFec(s.fec, ParityIn(op).value, op.hit))
      || SuffixOf(q, s.fec)
  {
    hide Poll, Handle, InsertFec, ParityIn;
    match op
    case Datagram(packet, hit) =>
      assert s.fec == s.fec[0..];
      DatagramOnQueue(s, packet, hit);
    case PollOp =>
      PollPopsQueue(s, decryption);
    case SkipOp =>
      assert s.fec == s.fec[0..];
  }

  lemma DatagramOnQueue(s: Buffers, packet: seq<Byte>, hit: nat)
    requires Ready(s)
    ensures
      var q := Handle(s, packet, hit).0.fec;
      q == s.fec || (ParityIn(Datagram(packet, hit)).Some? && q == InsertFec(s.fec, ParityIn(Datagram(packet, hit)).value, hit))
  {
    hide Reconstruct, InsertFec, Ready, DeserializeRtp, DeserializeFec, FirstCovering;
    if |packet| >= HEADER_SIZE {
      var rtp := DeserializeRtp(packet[..HEADER_SIZE]);
      if rtp.packetType == RTP_PAYLOAD_TYPE_AUDIO {
        DataOnQueue(s, rtp.sequenceNumber, DataPacket(rtp.timestamp, packet[HEADER_SIZE..]));
      } else if rtp.packetType == RTP_PAYLOAD_TYPE_AUDIO_FEC && |packet| >= HEADER_SIZE + HEADER_SIZE {
        ParityOnQueue(s, ParityIn(Datagram(packet, hit)).value, hit);
      }
    }
  }

  lemma DataOnQueue(s: Buffers, sequenceNumber: u16, packet: DataPacket)
    requires Ready(s)
    ensures HandleData(s, sequenceNumber, packet).0.fec == s.fec
  {
    hide Reconstruct;
    var i := FirstCovering(s.fec, sequenceNumber);
    if i < |s.fec| {
      ReconstructKeepsQueue(s.(data := s.data[sequenceNumber := packet]), Base(s.fec[i]));
    }
  }

  lemma ParityOnQueue(s: Buffers, packet: FecPacket, hit: nat)
    requires Ready(s)
    ensures HandleFec(s, packet, hit).0.fec == s.fec || HandleFec(s, packet, hit).0.fec == InsertFec(s.fec, packet, hit)
  {
    hide Reconstruct, InsertFec;
    QueuedIsReady(s, packet, hit);
    if s.fecEnabled {
      ReconstructKeepsQueue(s.(fecEnabled := Base(packet) % 4 == 0, fec := InsertFec(s.fec, packet, hit)), Base(packet));
    }
  }

  ghost predicate SuffixOf(r: seq<FecPacket>, q: seq<FecPacket>) {
    exists from :: 0 <= from <= |q| && r == q[from..]
  }

  lemma SuffixOfSuffix(r: seq<FecPacket>, q: seq<FecPacket>, p: seq<FecPacket>)
    requires SuffixOf(r, q) && SuffixOf(q, p)
    ensures SuffixOf(r, p)
  {
    var i :| 0 <= i <= |q| && r == q[i..];
    var j :| 0 <= j <= |p| && q == p[j..];
    assert r == p[j + i..];
  }

  lemma SuffixIsPart(r: seq<FecPacket>, q: seq<FecPacket>)
    requires SuffixOf(r, q)
    ensures forall x :: x in r ==> x in q
    ensures ZeroFirst(q) ==> ZeroFirst(r)
  {
    var from :| 0 <= from <= |q| && r == q[from..];
    SuffixKeepsOrder(q, from);
  }

  lemma PrunePopsQueue(s: Buffers)
    requires Sorted(s.fec)
    ensures SuffixOf(Prune(s).fec, s.fec) && Sorted(Prune(s).fec)
  {
    FecFromIsSuffix(s.fec, SaturatingSub(s.current, RS.DATA_SHARDS));
  }

  lemma {:induction false} PollPopsQueue(s: Buffers, decryption: Decryption)
    requires Sorted(s.fec)
    ensures SuffixOf(Poll(s, decryption).0.fec, s.fec)
    decreases WrapsLeft(s), 0x1_0000 - s.current
  {
    hide SuffixOf, Sorted, Prune, Open;
    if s.current !in s.data {
      PrunePopsQueue(s);
    } else {
      AdvanceDecreases(s);
      PrunePopsQueue(s.(current := WrappingAdd(s.current, 1)));
      if Open(decryption, s.current, s.data[s.current].payload).None? {
        PollPopsQueue(Advance(s), decryption);
        SuffixOfSuffix(Poll(Advance(s), decryption).0.fec, Advance(s).fec, s.fec);
      }
    }
  }

  /**
   Whatever datagrams arrive, with whatever bytes, as long as every parity packet has row 0 or 1 and none is repeated:
   the queue is strictly ordered by block and row, and every row that is queued has its own slot.
   */
  lemma {:induction false} AnyRunIsOrdered(fec: bool, decryption: Decryption, ops: seq<Op>)
    requires RowsOnce(ops)
    ensures
      var q := PerformAll(fec, decryption, ops).fec;
      && Ordered(q) && RowsFit(q) && (forall x :: x in q ==> Came(ops, x))
      && (forall i, j, k :: 0 <= i < j < k < |q| ==> !(Base(q[i]) == Base(q[j]) == Base(q[k])))
      && (forall base: u16 :: FirstOf(q, base) < |q| ==> SlotsHoldRows(q, base))
  {
    hide Perform, InsertFec, SlotsHoldRows, FirstOf;
    var q := PerformAll(fec, decryption, ops).fec;
    if ops != [] {
      var before, op := ops[..|ops| - 1], ops[|ops| - 1];
      AnyRunIsOrdered(fec, decryption, before);
      var s := PerformAll(fec, decryption, before);
      PerformOnQueue(s, decryption, op);
      if op.Datagram? && ParityIn(op).Some? && q == InsertFec(s.fec, ParityIn(op).value, op.hit) {
        var p := ParityIn(op).value;
        assert !Queued(s.fec, Key(p)) by { NotCameYet(ops, s.fec); }
        InsertKeepsOrder(s.fec, p, op.hit);
        InsertedElements(s.fec, p, op.hit);
      } else {
        var from :| 0 <= from <= |s.fec| && q == s.fec[from..];
        SuffixKeepsOrder(s.fec, from);
      }
      forall x | x in q ensures Came(ops, x) {
        CameBefore(ops, x);
      }
    }
    forall i, j, k | 0 <= i < j < k < |q| ensures !(Base(q[i]) == Base(q[j]) == Base(q[k])) {
      AtMostTwoPerBlock(q, i, j, k);
    }
    forall base: u16 | FirstOf(q, base) < |q| ensures SlotsHoldRows(q, base) {
      OrderedSlots(q, base);
    }
  }

  lemma NotCameYet(ops: seq<Op>, q: seq<FecPacket>)
    requires ops != [] && RowsOnce(ops) && ParityIn(ops[|ops| - 1]).Some?
    requires forall x :: x in q ==> Came(ops[..|ops| - 1], x)
    ensures !Queued(q, Key(ParityIn(ops[|ops| - 1]).value))
  {
    hide ParityIn;
    forall k | 0 <= k < |q| ensures Key(q[k]) != Key(ParityIn(ops[|ops| - 1]).value) {
      assert q[k] in q;
      assert Came(ops[..|ops| - 1], q[k]);
      var i :| 0 <= i < |ops| - 1 && ParityIn(ops[..|ops| - 1][i]) == Some(q[k]);
      assert ops[i] == ops[..|ops| - 1][i];
    }
  }

  lemma CameBefore(ops: seq<Op>, x: FecPacket)
    requires ops != [] && (Came(ops[..|ops| - 1], x) || ParityIn(ops[|ops| - 1]) == Some(x))
    ensures Came(ops, x)
  {
    hide ParityIn;
    if Came(ops[..|ops| - 1], x) {
      var i :| 0 <= i < |ops| - 1 && ParityIn(ops[..|ops| - 1][i]) == Some(x);
      assert ops[i] == ops[..|ops| - 1][i];
    }
  }
}
