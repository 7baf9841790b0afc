/**
 What a datagram does to the receiver, told on its bytes, and what comes out of a receiver that repairs nothing: the
 frames before the first one whose packet never arrived.
 */
module AudioDelivery {
  import opened Wrappers
  import opened Bytes
  import opened AudioPacket
  import opened AudioBlocks
  import opened AudioBuffers
  import opened AudioTransport
  import opened FecQueue
  import AudioRecovery
  import ReedSolomon

  // ---------- one datagram ----------

  /** Whether the number lies in a block of which a parity packet is queued. */
  ghost predicate InQueuedBlock(q: seq<FecPacket>, k: int) {
    exists i :: 0 <= i < |q| && Base(q[i]) <= k < Base(q[i]) + 4
  }

  /**
   A data packet that is not late is stored with its timestamp and payload, with loss repair or without; nothing
   stored is lost or changed, but for a packet of the same number; and nothing else is added but packets of a block
   that is being repaired.
   */
  lemma DataDatagramIsStored(s: Buffers, p: seq<Byte>, hit: nat)
    requires Ready(s) && |p| >= 12 && ToInt(p[1]) == 97
    ensures
      var n := Number16(p, 2);
      var stored := s.data[n := DataPacket(Number32(p, 4), p[12..])];
      var (r, done) := Handle(s, p, hit);
      && (n < s.current ==> r == s && done == Success(()))
      && (n >= s.current ==>
            && r == s.(data := r.data)
            && (forall k :: k in stored ==> k in r.data && r.data[k] == stored[k])
            && (forall k :: k in r.data && k !in stored ==> s.fecEnabled && InQueuedBlock(s.fec, k))
            && (done.Failure? ==> s.fecEnabled && r.data == stored))
  {
    hide ToInt, DeserializeRtp, DeserializeFec, Reconstruct;
    NumbersRead(p, 0);
    var n := Number16(p, 2);
    var stored := s.(data := s.data[n := DataPacket(Number32(p, 4), p[12..])]);
    var i := FirstCovering(s.fec, n);
    if i < |s.fec| {
      ReconstructKeepsQueue(stored, Base(s.fec[i]));
      ReconstructAddsInBlock(stored, Base(s.fec[i]));
    }
  }

  lemma ReconstructAddsInBlock(s: Buffers, base: u16)
    requires Ready(s)
    ensures forall k :: k in Reconstruct(s, base).0.data && k !in s.data ==> s.fecEnabled && base <= k < base + 4
    ensures !s.fecEnabled ==> Reconstruct(s, base) == (s, Success(false))
    ensures Reconstruct(s, base).1.Failure? ==> Reconstruct(s, base).0 == s
  {
    hide ReedSolomon.ReconstructData, ReedSolomon.Count, Shards;
  }

  /** The parity packet in a datagram: its header follows the audio header. */
  function ParityIn(p: seq<Byte>): FecPacket
    requires |p| >= 24
  {
    FecPacket(AudioFecHeader(ToInt(p[12]), ToInt(p[13]), Number16(p, 14), Number32(p, 16), Number32(p, 20)), p[24..])
  }

  ghost predicate PutIn(r: seq<FecPacket>, q: seq<FecPacket>, x: FecPacket) {
    exists i :: 0 <= i <= |q| && r == q[..i] + [x] + q[i..]
  }

  /** What becomes of a receiver that is handed a parity packet. */
  ghost predicate TakesParity(s: Buffers, x: FecPacket, handled: Handled) {
    var (r, done) := handled;
    var base := x.header.baseSequenceNumber;
    && (!s.fecEnabled ==> r == s && done == Success(()))
    && (s.fecEnabled ==> (r.fecEnabled <==> base % 4 == 0) && r.current == s.current)
    && (s.fecEnabled && s.current > base + 6 ==> r.fec == s.fec && r.data == s.data && done == Success(()))
    && (s.fecEnabled && s.current <= base + 6 ==>
          && PutIn(r.fec, s.fec, x) && Sorted(r.fec)
          && (forall k :: k in s.data ==> k in r.data && r.data[k] == s.data[k])
          && (forall k :: k in r.data && k !in s.data ==> base <= k < base + 4)
          && (done.Failure? ==> r.data == s.data))
  }

  lemma ParityIsTaken(s: Buffers, x: FecPacket, hit: nat)
    requires Ready(s)
    ensures TakesParity(s, x, HandleFec(s, x, hit))
  {
    hide Reconstruct, InsertPosition, Sorted;
    if s.fecEnabled && s.current <= Base(x) + 6 {
      QueuedIsReady(s, x, hit);
      InsertKeepsSorted(s.fec, x, hit);
      var queued := s.(fecEnabled := Base(x) % 4 == 0, fec := InsertFec(s.fec, x, hit));
      ReconstructKeepsQueue(queued, Base(x));
      ReconstructAddsInBlock(queued, Base(x));
      assert PutIn(queued.fec, s.fec, x);
    }
  }

  /**
   A parity packet is queued exactly if decoding is on and its block ended no more than two numbers ago. One whose
   block does not start at a multiple of four turns decoding off for good, and does so even if it is late.
   */
  lemma ParityDatagramIsQueued(s: Buffers, p: seq<Byte>, hit: nat)
    requires Ready(s) && |p| >= 24 && ToInt(p[1]) == 127
    ensures TakesParity(s, ParityIn(p), Handle(s, p, hit))
  {
    hide ToInt, DeserializeRtp, DeserializeFec, HandleFec, HandleData, TakesParity, Ready;
    NumbersRead(p, 0);
    NumbersRead(p, 12);
    ParityIsTaken(s, ParityIn(p), hit);
  }

  /** Any other datagram leaves the receiver as it is, and is an error exactly if no header fits in. */
  lemma OtherDatagramIsIgnored(s: Buffers, p: seq<Byte>, hit: nat)
    requires Ready(s)
    requires |p| >= 12 ==> ToInt(p[1]) != 97 && (ToInt(p[1]) == 127 ==> |p| < 24)
    ensures Handle(s, p, hit) == (s, if |p| < 12 then Failure(BufferTooSmall) else Success(()))
  {
    hide ToInt;
  }

  // ---------- when a datagram is refused ----------

  /** Four shards of a block with missing data are at hand, but they are not equally long. */
  ghost predicate Unfit(s: Buffers, base: u16)
    requires Ready(s)
  {
    && s.fecEnabled && FirstOf(s.fec, base) < |s.fec| && base % 4 == 0 && base + 3 < 65536
    && ReedSolomon.Count(Shards(s, base)) >= 4 && !AllDataPresent(s, base) && ReedSolomon.LengthsDiffer(Shards(s, base))
  }

  lemma RepairFailsExactlyIf(s: Buffers, base: u16)
    requires Ready(s)
    ensures
      var done := Reconstruct(s, base).1;
      (done.Failure? <==> Unfit(s, base)) && (done.Failure? ==> done == Failure(ReedSolomon.IncorrectShardSize))
  {
    hide ReedSolomon.ReconstructData, ReedSolomon.Count, ReedSolomon.LengthsDiffer, Shards, Restore, TimestampStep;
    if s.fecEnabled && FirstOf(s.fec, base) < |s.fec| {
      QueuedBaseFits(s, base);
      ReedSolomon.ReconstructFailsExactlyIf(Shards(s, base));
    }
  }

  /** A data packet is refused exactly if the block it belongs to cannot be repaired because its shards differ in length. */
  lemma DataDatagramFailsExactlyIf(s: Buffers, p: seq<Byte>, hit: nat)
    requires Ready(s) && |p| >= 12 && ToInt(p[1]) == 97
    ensures
      var n := Number16(p, 2);
      var stored := s.(data := s.data[n := DataPacket(Number32(p, 4), p[12..])]);
      var i := FirstCovering(s.fec, n);
      var done := Handle(s, p, hit).1;
      done == if n >= s.current && i < |s.fec| && Unfit(stored, Base(s.fec[i])) then Failure(Code(ReedSolomon.IncorrectShardSize))
              else Success(())
  {
    hide ToInt, DeserializeRtp, DeserializeFec, Reconstruct, Unfit;
    NumbersRead(p, 0);
    var n := Number16(p, 2);
    var i := FirstCovering(s.fec, n);
    if i < |s.fec| {
      RepairFailsExactlyIf(s.(data := s.data[n := DataPacket(Number32(p, 4), p[12..])]), Base(s.fec[i]));
    }
  }

  /** And so is a parity packet; it stays queued. */
  lemma ParityDatagramFailsExactlyIf(s: Buffers, p: seq<Byte>, hit: nat)
    requires Ready(s) && |p| >= 24 && ToInt(p[1]) == 127
    ensures
      var x := ParityIn(p);
      var queued := s.(fecEnabled := s.fecEnabled && Base(x) % 4 == 0, fec := InsertFec(s.fec, x, hit));
      var done := Handle(s, p, hit).1;
      && Ready(queued)
      && done == if s.current <= Base(x) + 6 && Unfit(queued, Base(x)) then Failure(Code(ReedSolomon.IncorrectShardSize)) else Success(())
  {
    hide ToInt, DeserializeRtp, DeserializeFec, Reconstruct, Unfit, InsertFec, Ready;
    NumbersRead(p, 0);
    NumbersRead(p, 12);
    var x := ParityIn(p);
    QueuedIsReady(s, x, hit);
    var queued := s.(fecEnabled := s.fecEnabled && Base(x) % 4 == 0, fec := InsertFec(s.fec, x, hit));
    RepairFailsExactlyIf(queued, Base(x));
    if !s.fecEnabled {
      OffIsFit(queued, Base(x));
    }
  }

  lemma OffIsFit(s: Buffers, base: u16)
    requires Ready(s) && !s.fecEnabled
    ensures !Unfit(s, base)
  {
  }

  // ---------- what is forgotten ----------

  /** After a poll nothing is held of blocks that ended before the current number. */
  lemma {:induction false} PollForgets(s: Buffers, decryption: Decryption)
    requires Sorted(s.fec)
    ensures
      var r := Poll(s, decryption).0;
      && (forall k :: k in r.data ==> k + 4 >= r.current && k in s.data && r.data[k] == s.data[k])
      && (forall x :: x in r.fec ==> Base(x) + 4 >= r.current && x in s.fec)
    ensures s.current !in s.data ==>
              var r := Poll(s, decryption).0;
              && (forall k :: k in s.data && k + 4 >= s.current ==> k in r.data)
              && (forall x :: x in s.fec && Base(x) + 4 >= s.current ==> x in r.fec)
    decreases WrapsLeft(s), 0x1_0000 - s.current
  {
    hide WrapsLeft, FecFrom, LowerBound, Sorted;
    PruneForgets(s);
    if s.current in s.data {
      PruneForgets(s.(current := WrappingAdd(s.current, 1)));
      AdvanceDecreases(s);
      if Open(decryption, s.current, s.data[s.current].payload).None? {
        PollForgets(Advance(s), decryption);
      }
    }
  }

  lemma PruneForgets(s: Buffers)
    requires Sorted(s.fec)
    ensures Sorted(Prune(s).fec)
    ensures forall x :: x in Prune(s).fec <==> x in s.fec && Base(x) + 4 >= s.current
    ensures forall k :: k in Prune(s).data <==> k in s.data && k + 4 >= s.current
  {
    hide FecFrom, Sorted;
    FecFromIsSuffix(s.fec, SaturatingSub(s.current, 4));
    FecFromHolds(s.fec, SaturatingSub(s.current, 4));
  }

  lemma {:induction false} FecFromHolds(q: seq<FecPacket>, minimum: u16)
    ensures forall x :: x in FecFrom(q, minimum) <==> x in q && Base(x) >= minimum
  {
    if q != [] {
      FecFromHolds(q[1..], minimum);
      assert q == [q[0]] + q[1..];
    }
  }

  // ---------- timestamps of restored packets ----------

  /** The packet that the step is measured at: the first one present behind the block's first. */
  ghost predicate MeasuredAt(data: map<u16, DataPacket>, base: u16, m: nat)
    requires base + 3 < 0x1_0000
  {
    1 <= m < 4 && base + m in data && forall k: u16 | base < k < base + m :: k !in data
  }

  lemma MeasuredStepIsFloored(data: map<u16, DataPacket>, base: u16, timestamp: u32, m: nat)
    requires base + 3 < 0x1_0000 && MeasuredAt(data, base, m)
    ensures
      var elapsed, step := data[base + m].timestamp - timestamp, TimestampStep(data, base, timestamp);
      if elapsed < 0 then step == 0 else m * step <= elapsed < m * step + m
  {
    assert m == 1 || m == 2 || m == 3;
    assert m > 1 ==> base + 1 !in data;
    assert m > 2 ==> base + 2 !in data;
  }

  /**
   A packet put back gets the payload decoded for it and its place in the block times the average distance between the
   block's first timestamp and that of the first packet present behind it, rounded down to whole milliseconds; if that
   packet is older than the block, the block's own.
   */
  lemma RestoredTimestampsAreInterpolated(data: map<u16, DataPacket>, base: u16, timestamp: u32, shards: seq<ReedSolomon.Shard>,
                                          m: nat, i: nat)
    requires base + 3 < 0x1_0000 && |shards| == 4 && MeasuredAt(data, base, m)
    requires i < 4 && base + i !in data
    ensures base + 1 in data || base + 2 in data || base + 3 in data
    ensures
      var r := Restore(data, base, timestamp, TimestampStep(data, base, timestamp), shards);
      var elapsed := data[base + m].timestamp - timestamp;
      && base + i in r && r[base + i].payload == shards[i]
      && exists step: nat ::
           && r[base + i].timestamp == (timestamp + step * i) % 4294967296
           && if elapsed < 0 then step == 0 else m * step <= elapsed < m * step + m
  {
    hide TimestampStep;
    MeasuredStepIsFloored(data, base, timestamp, m);
    hide MeasuredAt;
    var step: nat := TimestampStep(data, base, timestamp);
    assert Restore(data, base, timestamp, step, shards)[base + i] == DataPacket(RestoredTimestamp(timestamp, step, i), shards[i]);
  }

  // ---------- a run without loss repair ----------

  /** The number of the first frame whose packet is never delivered, or the number of frames. */
  ghost function FirstLost(events: seq<Event>, n: nat): (i: nat)
    ensures i <= n
    ensures i < n ==> !Delivered(events, Data(i))
    ensures forall k: nat :: k < i ==> Delivered(events, Data(k))
  {
    if n == 0 then 0
    else
      var i := FirstLost(events, n - 1);
      if i < n - 1 || !Delivered(events, Data(n - 1)) then i else n
  }

  /** What is played of the first n frames if nothing is missing. */
  ghost function Played(t: Sent, decryption: Decryption, n: nat): seq<Emission>
    requires AllOpen(t, decryption) && n <= |t.frames|
  {
    seq(n, i requires 0 <= i < n =>
      Emission(i, AudioFrame(t.frames[i].timestamp, Open(decryption, i, t.frames[i].payload).value)))
  }

  /** What was delivered is stored as long as it is not played. */
  ghost predicate KeepsDelivered(s: Buffers, events: seq<Event>) {
    forall k: u16 :: k >= s.current && Delivered(events, Data(k)) ==> k in s.data
  }

  /** Only what was delivered is stored, as it was sent, and only that is passed. */
  ghost predicate OnlyDelivered(t: Sent, s: Buffers, events: seq<Event>) {
    && (forall k: u16 :: k in s.data ==> k < |t.frames| && s.data[k] == DataOf(t, k) && Delivered(events, Data(k)))
    && forall k: u16 :: k < s.current ==> Delivered(events, Data(k))
  }

  ghost predicate DeliveredOnly(t: Sent, decryption: Decryption, s: Session, events: seq<Event>) {
    && AllOpen(t, decryption) && !s.buffers.fecEnabled && s.buffers.current <= |t.frames|
    && OnlyDelivered(t, s.buffers, events)
    && s.emitted == Played(t, decryption, s.buffers.current)
  }

  /** A receiver without loss repair never stores anything wrong. */
  lemma {:induction false} WithoutRepairIsHarmless(t: Sent, decryption: Decryption, events: seq<Event>)
    requires WellFormed(t) && AllPossible(t, events)
    ensures Harmless(t, false, decryption, events)
    decreases |events|
  {
    hide Run, StepCorrupts, SafeSession;
    if events != [] {
      var k := |events| - 1;
      assert events == events[..k] + [events[k]];
      HarmlessPrefix(t, false, decryption, events, k);
      WithoutRepairIsHarmless(t, decryption, events[..k]);
      RunIsSafe(t, false, decryption, events[..k]);
      var s := Run(t, false, decryption, events[..k]).buffers;
      assert !s.fecEnabled by { SessionParts(t, decryption, false, Run(t, false, decryption, events[..k]), events[..k]); }
      NothingToCorrupt(t, s, events[k]);
      assert events[..k + 1] == events;
    }
  }

  lemma SessionParts(t: Sent, decryption: Decryption, fec: bool, s: Session, events: seq<Event>)
    requires WellFormed(t) && SafeSession(t, decryption, fec, s, events)
    ensures s.buffers.fecEnabled == fec && GenuineBuffers(t, s.buffers)
  {
    hide GenuineBuffers, GenuineOutput, QueueDelivered;
  }

  lemma NothingToCorrupt(t: Sent, s: Buffers, e: Event)
    requires WellFormed(t) && Possible(t, e) && !s.fecEnabled
    ensures !StepCorrupts(t, s, e)
  {
    hide ParityOf, InsertFec, FirstCovering, DoubleZero, ReedSolomon.Encode;
  }

  lemma PollKeepsLater(t: Sent, decryption: Decryption, s: Buffers)
    requires WellFormed(t) && AllOpen(t, decryption) && GenuineBuffers(t, s)
    ensures
      var r := Poll(s, decryption).0;
      && (forall k: u16 :: k in s.data && k >= r.current ==> k in r.data)
      && (forall k: u16 :: k in r.data ==> k in s.data && r.data[k] == s.data[k])
  {
    hide FecFrom, GenuineBuffers;
    if s.current in s.data {
      StoredIsGenuine(t, s);
      AdvanceKeepsLater(s);
    }
  }

  /** With loss repair or without, a step keeps what was delivered. */
  lemma StepKeepsDelivered(t: Sent, decryption: Decryption, s: Session, events: seq<Event>, e: Event)
    requires WellFormed(t) && AllOpen(t, decryption) && Ready(s.buffers) && GenuineBuffers(t, s.buffers)
    requires Possible(t, e) && !e.SkipGap? && KeepsDelivered(s.buffers, events)
    ensures KeepsDelivered(Step(t, decryption, s, e).buffers, events + [e])
  {
    hide GenuineBuffers, Handle, Poll, PacketBytes, Ready, ParityOf, Delivered, DataCorrupts, ParityCorrupts;
    var r := Step(t, decryption, s, e);
    match e {
      case Deliver(id, hit) =>
        match id {
          case Data(i) =>
            ReadsData(t, i, s.buffers, hit);
            DataIsKept(s.buffers, i, DataOf(t, i));
          case Parity(b, row) =>
            ReadsParity(t, b, row, s.buffers, hit);
            ParityKeepsData(s.buffers, ParityOf(t, b, row), hit);
        }
      case PollFrame =>
        PollIsGenuine(t, decryption, s.buffers);
        PollKeepsLater(t, decryption, s.buffers);
    }
    forall k: u16 | k >= r.buffers.current && Delivered(events + [e], Data(k)) ensures k in r.buffers.data {
      AudioRecovery.DeliveredAfter(events, e, Data(k));
    }
  }

  lemma DataIsKept(s: Buffers, i: u16, packet: DataPacket)
    requires Ready(s)
    ensures
      var r := HandleData(s, i, packet).0;
      && r.current == s.current
      && (i >= s.current ==> i in r.data)
      && (forall k: u16 :: k in s.data ==> k in r.data)
      && (!s.fecEnabled ==> r == if i < s.current then s else s.(data := s.data[i := packet]))
  {
    hide Reconstruct;
    var stored := s.(data := s.data[i := packet]);
    var k := FirstCovering(s.fec, i);
    if k < |s.fec| {
      ReconstructKeepsQueue(stored, Base(s.fec[k]));
      ReconstructAddsInBlock(stored, Base(s.fec[k]));
    }
  }

  lemma ParityKeepsData(s: Buffers, packet: FecPacket, hit: nat)
    requires Ready(s)
    ensures
      var r := HandleFec(s, packet, hit).0;
      r.current == s.current && (forall k: u16 :: k in s.data ==> k in r.data) && (!s.fecEnabled ==> r == s)
  {
    hide Reconstruct, InsertFec;
    if s.fecEnabled {
      QueuedIsReady(s, packet, hit);
      ReconstructKeepsQueue(s.(fecEnabled := Base(packet) % 4 == 0, fec := InsertFec(s.fec, packet, hit)), Base(packet));
    }
  }

  /** Without it, it adds nothing else. */
  lemma StepAddsDelivered(t: Sent, decryption: Decryption, s: Session, events: seq<Event>, e: Event)
    requires WellFormed(t) && Ready(s.buffers) && GenuineBuffers(t, s.buffers)
    requires Possible(t, e) && !e.SkipGap? && DeliveredOnly(t, decryption, s, events)
    ensures DeliveredOnly(t, decryption, Step(t, decryption, s, e), events + [e])
  {
    hide GenuineBuffers, Handle, Poll, PacketBytes, Ready, ParityOf, Delivered, DataCorrupts, ParityCorrupts, Played, HandleFec, HandleData, AllOpen;
    forall id: PacketId ensures Delivered(events + [e], id) <==> Delivered(events, id) || (e.Deliver? && e.id == id) {
      AudioRecovery.DeliveredAfter(events, e, id);
    }
    match e {
      case Deliver(id, hit) =>
        match id {
          case Data(i) =>
            ReadsData(t, i, s.buffers, hit);
            DataIsKept(s.buffers, i, DataOf(t, i));
          case Parity(b, row) =>
            ReadsParity(t, b, row, s.buffers, hit);
            ParityKeepsData(s.buffers, ParityOf(t, b, row), hit);
        }
      case PollFrame =>
        PollIsGenuine(t, decryption, s.buffers);
        PollKeepsLater(t, decryption, s.buffers);
        PollPlaysNext(t, decryption, s, events);
    }
  }

  lemma PollPlaysNext(t: Sent, decryption: Decryption, s: Session, events: seq<Event>)
    requires WellFormed(t) && Ready(s.buffers) && GenuineBuffers(t, s.buffers) && DeliveredOnly(t, decryption, s, events)
    ensures
      var r := Step(t, decryption, s, PollFrame);
      && r.emitted == Played(t, decryption, r.buffers.current)
      && r.buffers.current == s.buffers.current + (if s.buffers.current in s.buffers.data then 1 else 0)
  {
    hide GenuineBuffers, Prune, Ready, Delivered;
    PollMovesOn(t, decryption, s.buffers);
    var k := s.buffers.current;
    if k in s.buffers.data {
      assert Played(t, decryption, k + 1) == Played(t, decryption, k)
          + [Emission(k, AudioFrame(t.frames[k].timestamp, Open(decryption, k, t.frames[k].payload).value))];
    }
  }

  lemma NothingDelivered()
    ensures forall id :: !Delivered([], id)
  {
  }

  lemma {:induction false} RunKeepsDelivered(t: Sent, fec: bool, decryption: Decryption, events: seq<Event>)
    requires WellFormed(t) && AllOpen(t, decryption) && AllPossible(t, events) && NoSkips(events)
    requires Harmless(t, fec, decryption, events)
    ensures KeepsDelivered(Run(t, fec, decryption, events).buffers, events)
    decreases |events|
  {
    hide Step, SafeSession, StepCorrupts, AllOpen, Delivered;
    if events == [] {
      assert forall id :: !Delivered(events, id) by { NothingDelivered(); }
    } else {
      var k := |events| - 1;
      assert events == events[..k] + [events[k]];
      HarmlessPrefix(t, fec, decryption, events, k);
      RunKeepsDelivered(t, fec, decryption, events[..k]);
      RunIsSafe(t, fec, decryption, events[..k]);
      hide KeepsDelivered, Harmless;
      var s := Run(t, fec, decryption, events[..k]);
      SessionParts(t, decryption, fec, s, events[..k]);
      StepKeepsDelivered(t, decryption, s, events[..k], events[k]);
    }
  }

  lemma {:induction false} RunAddsDelivered(t: Sent, decryption: Decryption, events: seq<Event>)
    requires WellFormed(t) && AllOpen(t, decryption) && AllPossible(t, events) && NoSkips(events)
    ensures DeliveredOnly(t, decryption, Run(t, false, decryption, events), events)
    decreases |events|
  {
    hide Step, SafeSession, StepCorrupts, AllOpen, Delivered, Harmless;
    if events != [] {
      var k := |events| - 1;
      assert events == events[..k] + [events[k]];
      WithoutRepairIsHarmless(t, decryption, events[..k]);
      RunAddsDelivered(t, decryption, events[..k]);
      RunIsSafe(t, false, decryption, events[..k]);
      hide DeliveredOnly;
      var s := Run(t, false, decryption, events[..k]);
      SessionParts(t, decryption, false, s, events[..k]);
      StepAddsDelivered(t, decryption, s, events[..k], events[k]);
    }
  }

  lemma DrainedStopsAtGap(t: Sent, fec: bool, decryption: Decryption, events: seq<Event>)
    requires WellFormed(t) && AllOpen(t, decryption) && AllPossible(t, events) && NoSkips(events)
    requires Harmless(t, fec, decryption, events)
    ensures AllPossible(t, events + AudioRecovery.Polls(|t.frames|))
    ensures
      var current := Run(t, fec, decryption, events + AudioRecovery.Polls(|t.frames|)).buffers.current;
      current <= |t.frames| && (current < |t.frames| ==> !Delivered(events, Data(current)))
  {
    hide Run, Delivered, GenuineBuffers, SafeSession;
    var n := |t.frames|;
    var all := events + AudioRecovery.Polls(n);
    AudioRecovery.WithPolls(t, events, n);
    AudioRecovery.PollsAreHarmless(t, fec, decryption, events, n);
    AudioRecovery.DrainReachesGap(t, fec, decryption, events, n);
    RunKeepsDelivered(t, fec, decryption, all);
    RunIsSafe(t, fec, decryption, all);
    var s := Run(t, fec, decryption, all);
    SessionParts(t, decryption, fec, s, all);
    AudioRecovery.StoredBelow(t, s.buffers);
    assert s.buffers.current <= n by { CurrentIsBounded(t, s.buffers); }
    DeliveredInAll(events, n, Data(s.buffers.current));
  }

  lemma CurrentIsBounded(t: Sent, s: Buffers)
    requires WellFormed(t) && GenuineBuffers(t, s)
    ensures s.current <= |t.frames|
  {
  }

  lemma DeliveredInAll(events: seq<Event>, n: nat, id: PacketId)
    ensures Delivered(events + AudioRecovery.Polls(n), id) <==> Delivered(events, id)
  {
    var all := events + AudioRecovery.Polls(n);
    assert forall j :: 0 <= j < |events| ==> all[j] == events[j];
    if Delivered(events, id) {
      var j :| 0 <= j < |events| && events[j].Deliver? && events[j].id == id;
      assert all[j].Deliver? && all[j].id == id;
    }
  }

  /**
   A receiver without loss repair, under any loss, order and repetition of packets between polls: once drained it has
   played exactly the frames before the first one whose packet was never delivered, each with its own timestamp.
   */
  lemma PlaysUpToFirstLoss(t: Sent, decryption: Decryption, events: seq<Event>)
    requires WellFormed(t) && AllOpen(t, decryption) && AllPossible(t, events) && NoSkips(events)
    ensures AllPossible(t, events + AudioRecovery.Polls(|t.frames|))
    ensures Run(t, false, decryption, events + AudioRecovery.Polls(|t.frames|)).emitted
         == Played(t, decryption, FirstLost(events, |t.frames|))
  {
    hide Run, Delivered, Played, SafeSession;
    var n := |t.frames|;
    var all := events + AudioRecovery.Polls(n);
    WithoutRepairIsHarmless(t, decryption, events);
    DrainedStopsAtGap(t, false, decryption, events);
    AudioRecovery.WithPolls(t, events, n);
    RunAddsDelivered(t, decryption, all);
    var current := Run(t, false, decryption, all).buffers.current;
    forall k: u16 | k < current ensures Delivered(events, Data(k)) {
      DeliveredInAll(events, n, Data(k));
    }
    assert current == FirstLost(events, n);
  }

  /** With loss repair at least those are played. */
  lemma PlaysAtLeastUpToFirstLoss(t: Sent, fec: bool, decryption: Decryption, events: seq<Event>)
    requires WellFormed(t) && AllOpen(t, decryption) && AllPossible(t, events) && NoSkips(events) && RowZeroOnce(events)
    ensures AllPossible(t, events + AudioRecovery.Polls(|t.frames|))
    ensures
      var emitted := Run(t, fec, decryption, events + AudioRecovery.Polls(|t.frames|)).emitted;
      && FirstLost(events, |t.frames|) <= |emitted| <= |t.frames|
      && forall i :: 0 <= i < |emitted| ==> emitted[i].index == i && GenuineFrame(t, decryption, i, emitted[i].frame)
  {
    hide Run, Delivered, RowZeroOnce, GenuineFrame;
    var n := |t.frames|;
    var all := events + AudioRecovery.Polls(n);
    RowZeroOnceIsHarmless(t, fec, decryption, events);
    DrainedStopsAtGap(t, fec, decryption, events);
    AudioRecovery.WithPolls(t, events, n);
    RowZeroOnceIsHarmless(t, fec, decryption, all);
    RunIsInOrder(t, fec, decryption, all);
    OutputIsPrefix(t, fec, decryption, all);
  }
}
