/**
 Completeness of the repair: if four of the six packets of each block arrive, every frame comes out.
 The second part shows where the repair's limits lie.
 */
module AudioRecovery {
  import opened Wrappers
  import opened Bytes
  import opened AudioPacket
  import opened AudioBlocks
  import opened AudioBuffers
  import opened FecQueue
  import opened AudioTransport
  import RS = ReedSolomon

  // ---------- completeness ----------

  /** How many of the six packets of a block the receiver holds. */
  ghost function Held(t: Sent, s: Buffers, b: nat): nat
    requires WellFormed(t) && 4 * b + 4 <= |t.frames|
  {
    DataHeld(s.data, b) + One(ParityOf(t, b, 0) in s.fec) + One(ParityOf(t, b, 1) in s.fec)
  }

  /** How many of them were delivered. */
  ghost function DeliveredOf(events: seq<Event>, b: nat): nat {
    One(Delivered(events, Data(4 * b))) + One(Delivered(events, Data(4 * b + 1)))
    + One(Delivered(events, Data(4 * b + 2))) + One(Delivered(events, Data(4 * b + 3)))
    + One(Delivered(events, Parity(b, 0))) + One(Delivered(events, Parity(b, 1)))
  }

  /** A block of which four packets are held is complete. */
  ghost predicate Repaired(t: Sent, s: Buffers, b: nat)
    requires WellFormed(t) && 4 * b + 4 <= |t.frames|
  {
    Held(t, s, b) >= RS.DATA_SHARDS ==> AllDataPresent(s, 4 * b)
  }

  /** Nothing of a block that is still open is missing but what was never delivered. */
  ghost predicate KeepsData(t: Sent, s: Buffers, events: seq<Event>) {
    forall k: u16 :: k < |t.frames| && k + 4 >= s.current && (k < s.current || Delivered(events, Data(k))) ==> k in s.data
  }

  ghost predicate KeepsParity(t: Sent, s: Buffers, events: seq<Event>)
    requires WellFormed(t)
  {
    forall b: nat, row: nat |
      4 * b + 4 <= |t.frames| && 4 * b + 4 >= s.current && row < RS.FEC_SHARDS && Delivered(events, Parity(b, row)) ::
      ParityOf(t, b, row) in s.fec
  }

  ghost predicate RepairsAll(t: Sent, s: Buffers)
    requires WellFormed(t)
  {
    forall b: nat :: 4 * b + 4 <= |t.frames| && 4 * b + 4 >= s.current ==> Repaired(t, s, b)
  }

  ghost predicate Up(t: Sent, s: Session, events: seq<Event>)
    requires WellFormed(t)
  {
    && KeepsData(t, s.buffers, events)
    && KeepsParity(t, s.buffers, events)
    && RepairsAll(t, s.buffers)
    && ZeroFirst(s.buffers.fec)
  }

  /**
   Repeated parity packets that do no harm: none of row 0, and none of row 1 before row 0 of its block. In particular
   any network that repeats no parity packet is gentle.
   */
  ghost predicate Gentle(events: seq<Event>) {
    && RowZeroOnce(events)
    && forall k :: 0 <= k < |events| && events[k].Deliver? && events[k].id.Parity? && events[k].id.row == 0 ==>
         !DeliveredTwice(events[..k], Parity(events[k].id.block, 1))
  }

  lemma NoRepeatIsGentle(events: seq<Event>)
    requires forall id: PacketId :: id.Parity? ==> !DeliveredTwice(events, id)
    ensures Gentle(events)
  {
    forall k, b: nat | 0 <= k < |events| ensures !DeliveredTwice(events[..k], Parity(b, 1)) {
      assert !DeliveredTwice(events, Parity(b, 1));
      assert forall i :: 0 <= i < k ==> events[..k][i] == events[i];
    }
  }

  lemma GentlePrefix(events: seq<Event>, k: nat)
    requires Gentle(events) && k <= |events|
    ensures Gentle(events[..k])
  {
    hide DeliveredTwice, RowZeroOnce;
    RowZeroOnceOfPrefix(events, k);
    forall i | 0 <= i < k ensures events[..k][i] == events[i] && events[..k][..i] == events[..i] {
    }
  }

  /** Under gentle repetition a parity packet leaves row 0 of every block first in the queue. */
  lemma GentleInsert(t: Sent, q: seq<FecPacket>, events: seq<Event>, e: Event)
    requires WellFormed(t) && GenuineQueue(t, q) && QueueDelivered(q, events) && ZeroFirst(q)
    requires Possible(t, e) && e.Deliver? && e.id.Parity? && Gentle(events + [e])
    ensures ZeroFirst(InsertFec(q, ParityOf(t, e.id.block, e.id.row), e.hit))
  {
    hide DeliveredTwice, Delivered, InsertFec, ZeroFirst, ParityOf;
    var b, p := e.id.block, ParityOf(t, e.id.block, e.id.row);
    ParityNames(t, b, e.id.row);
    GenuineIsReady(t, Buffers(0, map[], q, true));
    if e.id.row == 0 {
      assert (events + [e])[|events|] == e && (events + [e])[..|events|] == events;
      assert !DeliveredTwice(events + [e], Parity(b, 0)) && !DeliveredTwice(events, Parity(b, 1));
      DeliveredLater(events, e, Parity(b, 0));
      forall k | 0 <= k < |q| ensures Key(q[k]) != Key(p) {
        assert Delivered(events, IdOf(q[k]));
        GenuineBase(t, q, k);
      }
      forall i, j | 0 <= i < j < |q| ensures !(Base(q[i]) == Base(q[j]) == Base(p)) {
        assert Key(q[i]) != Key(p) && Key(q[j]) != Key(p);
        assert IdOf(q[i]) == IdOf(q[j]) ==> DeliveredTwice(events, IdOf(q[i]));
      }
    }
    InsertKeepsZeroFirst(q, p, e.hit);
  }

  lemma NotFound(q: seq<FecPacket>, p: FecPacket)
    requires FirstOf(q, Base(p)) == |q|
    ensures p !in q
  {
  }

  /** How many shards reconstruction sees: row 1 in front leaves the first parity slot empty. */
  lemma ShardsSeen(t: Sent, s: Buffers, b: nat)
    requires WellFormed(t) && GenuineQueue(t, s.fec) && 4 * b + 4 <= |t.frames| && FirstOf(s.fec, 4 * b) < |s.fec|
    ensures
      var seen := RS.Count(Shards(s, 4 * b));
      if OneInFront(s.fec, 4 * b) then seen == DataHeld(s.data, b) + 1
      else seen >= DataHeld(s.data, b) + 1 && (ParityOf(t, b, 1) in s.fec ==> seen == DataHeld(s.data, b) + 2)
  {
    hide FirstOf, ParityOf, Genuine;
    ShardsHeld(s, b);
    ParityNames(t, b, 1);
    var i := FirstOf(s.fec, 4 * b);
    if ParityOf(t, b, 1) in s.fec && !OneInFront(s.fec, 4 * b) {
      var k :| 0 <= k < |s.fec| && s.fec[k] == ParityOf(t, b, 1);
      BlockStandsTogether(s.fec, 4 * b, k);
      assert Base(s.fec[i + 1]) == 4 * b;
    }
  }

  /**
   A block of which four different packets are held is complete after an attempt at repairing it, except exactly if
   two data packets are missing and row 1 stands in front of row 0.
   */
  lemma RepairedExactlyIf(t: Sent, s: Buffers, b: nat)
    requires WellFormed(t) && GenuineBuffers(t, s) && Ready(s) && s.fecEnabled && 4 * b + 4 <= |t.frames|
    requires Held(t, s, b) >= RS.DATA_SHARDS
    ensures AllDataPresent(Reconstruct(s, 4 * b).0, 4 * b) <==> !(DataHeld(s.data, b) == 2 && OneInFront(s.fec, 4 * b))
  {
    hide Reconstruct, GenuineData, GenuineQueue, Sorted, ParityOf, FirstOf, Shards;
    ReconstructIsGenuine(t, s, b);
    ParityNames(t, b, 0);
    ParityNames(t, b, 1);
    if FirstOf(s.fec, 4 * b) < |s.fec| {
      ShardsSeen(t, s, b);
    } else {
      NotFound(s.fec, ParityOf(t, b, 0));
      NotFound(s.fec, ParityOf(t, b, 1));
    }
  }

  /** With row 0 first, what is held is what is seen. */
  lemma ZeroFirstIsSeen(t: Sent, s: Buffers, b: nat)
    requires WellFormed(t) && GenuineBuffers(t, s) && Ready(s) && ZeroFirst(s.fec) && 4 * b + 4 <= |t.frames|
    requires OneInFront(s.fec, 4 * b)
    ensures ParityOf(t, b, 0) !in s.fec
  {
    hide ParityOf, FirstOf, GenuineData, Genuine;
    ParityNames(t, b, 0);
    var i := FirstOf(s.fec, 4 * b);
    forall k | 0 <= k < |s.fec| ensures s.fec[k] != ParityOf(t, b, 0) {
      if Base(s.fec[k]) == 4 * b {
        BlockStandsTogether(s.fec, 4 * b, k);
      }
    }
  }

  /** Trying to repair a block leaves it repaired. */
  lemma ReconstructRepairs(t: Sent, s: Buffers, b: nat)
    requires WellFormed(t) && GenuineBuffers(t, s) && Ready(s) && s.fecEnabled && ZeroFirst(s.fec) && 4 * b + 4 <= |t.frames|
    ensures Repaired(t, Reconstruct(s, 4 * b).0, b)
  {
    hide Reconstruct, GenuineBuffers, ParityOf, ZeroFirst, Ready;
    ReconstructIsGenuine(t, s, b);
    if Held(t, s, b) >= RS.DATA_SHARDS {
      RepairedExactlyIf(t, s, b);
      if OneInFront(s.fec, 4 * b) {
        ZeroFirstIsSeen(t, s, b);
      }
    }
  }

  /** It does not touch other blocks. */
  lemma ReconstructIsLocal(s: Buffers, base: u16, k: u16)
    requires Ready(s) && !(base <= k < base + 4)
    ensures k in Reconstruct(s, base).0.data <==> k in s.data
  {
    hide RS.ReconstructData, RS.Count, Shards;
  }

  lemma DeliveredAfter(events: seq<Event>, e: Event, id: PacketId)
    ensures Delivered(events + [e], id) <==> Delivered(events, id) || (e.Deliver? && e.id == id)
  {
    assert (events + [e])[|events|] == e;
    assert forall j :: 0 <= j < |events| ==> (events + [e])[j] == events[j];
    if Delivered(events, id) {
      var j :| 0 <= j < |events| && events[j].Deliver? && events[j].id == id;
      assert (events + [e])[j].Deliver? && (events + [e])[j].id == id;
    }
    if e.Deliver? && e.id == id {
      assert Delivered(events + [e], id);
    }
  }

  lemma DataEventIsUp(t: Sent, s: Buffers, events: seq<Event>, e: Event, i: nat)
    requires WellFormed(t) && GenuineBuffers(t, s) && Ready(s) && s.fecEnabled && i < |t.frames|
    requires KeepsData(t, s, events) && KeepsParity(t, s, events) && RepairsAll(t, s) && ZeroFirst(s.fec)
    requires e.Deliver? && e.id == Data(i)
    ensures var r := HandleData(s, i, DataOf(t, i)).0;
            KeepsData(t, r, events + [e]) && KeepsParity(t, r, events + [e]) && RepairsAll(t, r)
  {
    hide ParityOf, HandleData, Delivered, GenuineBuffers, ZeroFirst, DataCorrupts, Ready;
    var r := HandleData(s, i, DataOf(t, i)).0;
    DataEventIsSafe(t, s, i);
    DataEventKeys(t, s, i);
    forall k: u16 | k < |t.frames| && k + 4 >= r.current && (k < r.current || Delivered(events + [e], Data(k)))
      ensures k in r.data
    {
      DeliveredAfter(events, e, Data(k));
    }
    forall b: nat, row: nat | 4 * b + 4 <= |t.frames| && 4 * b + 4 >= r.current && row < RS.FEC_SHARDS
                              && Delivered(events + [e], Parity(b, row))
      ensures ParityOf(t, b, row) in r.fec
    {
      DeliveredAfter(events, e, Parity(b, row));
    }
    hide Repaired;
    forall b: nat | 4 * b + 4 <= |t.frames| && 4 * b + 4 >= r.current ensures Repaired(t, r, b) {
      assert Repaired(t, s, b);
      if b != i / 4 {
        KeptBlock(t, s, r, b);
      }
    }
  }

  lemma KeptBlock(t: Sent, s: Buffers, r: Buffers, c: nat)
    requires WellFormed(t) && 4 * c + 4 <= |t.frames| && r.fec == s.fec
    requires forall k: u16 :: k / 4 == c ==> (k in r.data <==> k in s.data)
    requires Repaired(t, s, c)
    ensures Repaired(t, r, c)
  {
    hide ParityOf;
  }

  /** A data packet that is not late is stored; its block is repaired if possible; other blocks keep their packets. */
  lemma DataEventKeys(t: Sent, s: Buffers, i: nat)
    requires WellFormed(t) && GenuineBuffers(t, s) && Ready(s) && s.fecEnabled && ZeroFirst(s.fec) && i < |t.frames|
    ensures var r := HandleData(s, i, DataOf(t, i)).0;
            && (i < s.current ==> r == s)
            && (i >= s.current ==> i in r.data)
            && (forall k: u16 :: k in s.data ==> k in r.data)
            && (forall k: u16 :: k / 4 != i / 4 ==> (k in r.data <==> k in s.data))
            && (i >= s.current && 4 * (i / 4) + 4 <= |t.frames| ==> Repaired(t, r, i / 4))
  {
    hide ParityOf, Reconstruct, Genuine, GenuineData, BlockData;
    if i >= s.current {
      var stored := s.(data := s.data[i := DataOf(t, i)]);
      assert GenuineBuffers(t, stored) by { StoredDataIsGenuine(t, s, i); }
      var k := FirstCovering(s.fec, i);
      if k < |s.fec| {
        GenuineBase(t, s.fec, k);
        var base := Base(s.fec[k]);
        assert base == 4 * (i / 4);
        ReconstructKeepsQueue(stored, base);
        ReconstructRepairs(t, stored, i / 4);
        forall k: u16 | k / 4 != i / 4 ensures k in Reconstruct(stored, base).0.data <==> k in s.data {
          ReconstructIsLocal(stored, base, k);
        }
      } else if 4 * (i / 4) + 4 <= |t.frames| {
        NoneOfBlock(t, stored, i);
      }
    }
  }

  lemma StoredDataIsGenuine(t: Sent, s: Buffers, i: nat)
    requires WellFormed(t) && GenuineBuffers(t, s) && i < |t.frames|
    ensures GenuineBuffers(t, s.(data := s.data[i := DataOf(t, i)]))
  {
    hide Genuine;
  }

  lemma NoneOfBlock(t: Sent, s: Buffers, i: nat)
    requires WellFormed(t) && GenuineBuffers(t, s) && 4 * (i / 4) + 4 <= |t.frames| && i < |t.frames|
    requires FirstCovering(s.fec, i) == |s.fec|
    ensures Repaired(t, s, i / 4)
  {
    hide GenuineBuffers, ParityOf;
    var b := i / 4;
    forall row: nat | row < RS.FEC_SHARDS ensures ParityOf(t, b, row) !in s.fec {
      ParityNames(t, b, row);
      assert Covers(ParityOf(t, b, row), i);
    }
    assert ParityOf(t, b, 0) !in s.fec && ParityOf(t, b, 1) !in s.fec;
  }

  lemma ParityEventKeys(t: Sent, s: Buffers, b: nat, row: nat, hit: nat)
    requires WellFormed(t) && GenuineBuffers(t, s) && Ready(s) && s.fecEnabled
    requires 4 * b + 4 <= |t.frames| && row < RS.FEC_SHARDS && ZeroFirst(InsertFec(s.fec, ParityOf(t, b, row), hit))
    ensures var r := HandleFec(s, ParityOf(t, b, row), hit).0;
            && (s.current > 4 * b + RS.TOTAL_SHARDS ==> r == s)
            && (s.current <= 4 * b + RS.TOTAL_SHARDS ==> ParityOf(t, b, row) in r.fec && Repaired(t, r, b))
            && (forall x :: x in s.fec ==> x in r.fec)
            && (forall x :: x in r.fec ==> x in s.fec || x == ParityOf(t, b, row))
            && (forall k: u16 :: k in s.data ==> k in r.data)
            && (forall k: u16 :: k / 4 != b ==> (k in r.data <==> k in s.data))
  {
    hide ParityOf, Reconstruct, Genuine, GenuineData, InsertFec;
    var p := ParityOf(t, b, row);
    ParityNames(t, b, row);
    if s.current <= 4 * b + RS.TOTAL_SHARDS {
      var queued := s.(fec := InsertFec(s.fec, p, hit));
      InsertedIsGenuine(t, s.fec, b, row, hit);
      QueuedIsReady(s, p, hit);
      InsertedElements(s.fec, p, hit);
      ReconstructKeepsQueue(queued, 4 * b);
      ReconstructRepairs(t, queued, b);
      forall k: u16 | k / 4 != b ensures k in Reconstruct(queued, 4 * b).0.data <==> k in s.data {
        ReconstructIsLocal(queued, 4 * b, k);
      }
    }
  }

  lemma ParityEventIsUp(t: Sent, s: Buffers, events: seq<Event>, e: Event, b: nat, row: nat, hit: nat)
    requires WellFormed(t) && GenuineBuffers(t, s) && Ready(s) && s.fecEnabled
    requires 4 * b + 4 <= |t.frames| && row < RS.FEC_SHARDS && ZeroFirst(InsertFec(s.fec, ParityOf(t, b, row), hit))
    requires KeepsData(t, s, events) && KeepsParity(t, s, events) && RepairsAll(t, s)
    requires e.Deliver? && e.id == Parity(b, row)
    ensures var r := HandleFec(s, ParityOf(t, b, row), hit).0;
            KeepsData(t, r, events + [e]) && KeepsParity(t, r, events + [e]) && RepairsAll(t, r)
  {
    hide ParityOf, HandleFec, Delivered, GenuineBuffers;
    var r := HandleFec(s, ParityOf(t, b, row), hit).0;
    ParityEventIsSafe(t, s, b, row, hit);
    ParityEventKeys(t, s, b, row, hit);
    forall k: u16 | k < |t.frames| && k + 4 >= r.current && (k < r.current || Delivered(events + [e], Data(k)))
      ensures k in r.data
    {
      DeliveredAfter(events, e, Data(k));
    }
    forall c: nat, i: nat | 4 * c + 4 <= |t.frames| && 4 * c + 4 >= r.current && i < RS.FEC_SHARDS
                            && Delivered(events + [e], Parity(c, i))
      ensures ParityOf(t, c, i) in r.fec
    {
      DeliveredAfter(events, e, Parity(c, i));
    }
    forall c: nat | 4 * c + 4 <= |t.frames| && 4 * c + 4 >= r.current ensures Repaired(t, r, c) {
      assert Repaired(t, s, c);
      if c != b {
        OtherBlock(t, s, r, b, row, c);
      }
    }
  }

  lemma OtherBlock(t: Sent, s: Buffers, r: Buffers, b: nat, row: nat, c: nat)
    requires WellFormed(t) && 4 * b + 4 <= |t.frames| && 4 * c + 4 <= |t.frames| && row < RS.FEC_SHARDS && b != c
    requires forall x :: x in r.fec ==> x in s.fec || x == ParityOf(t, b, row)
    requires forall x :: x in s.fec ==> x in r.fec
    requires forall k: u16 :: k / 4 != b ==> (k in r.data <==> k in s.data)
    requires Repaired(t, s, c)
    ensures Repaired(t, r, c)
  {
    hide ParityOf;
    ParityNames(t, b, row);
    ParityNames(t, c, 0);
    ParityNames(t, c, 1);
  }

  // ---------- polling ----------

  lemma FecFromKeeps(q: seq<FecPacket>, minimum: u16, p: FecPacket)
    requires p in q && Base(p) >= minimum
    ensures p in FecFrom(q, minimum)
  {
    if q[0] != p {
      FecFromKeeps(q[1..], minimum, p);
    }
  }

  /** Pruning keeps everything that an open block needs. */
  lemma PruneIsUp(t: Sent, s: Buffers, events: seq<Event>)
    requires WellFormed(t) && KeepsData(t, s, events) && KeepsParity(t, s, events) && RepairsAll(t, s)
    requires GenuineBuffers(t, s)
    ensures KeepsData(t, Prune(s), events) && KeepsParity(t, Prune(s), events) && RepairsAll(t, Prune(s))
  {
    hide ParityOf, FecFrom, Delivered, GenuineBuffers;
    var r := Prune(s);
    var minimum := SaturatingSub(s.current, RS.DATA_SHARDS);
    PruneIsGenuine(t, s);
    SuffixIsPart(r.fec, s.fec);
    forall b: nat, row: nat | 4 * b + 4 <= |t.frames| && 4 * b + 4 >= s.current && row < RS.FEC_SHARDS
      ensures ParityOf(t, b, row) in r.fec <==> ParityOf(t, b, row) in s.fec
    {
      ParityNames(t, b, row);
      if ParityOf(t, b, row) in s.fec {
        FecFromKeeps(s.fec, minimum, ParityOf(t, b, row));
      }
    }
    forall b: nat | 4 * b + 4 <= |t.frames| && 4 * b + 4 >= r.current ensures Repaired(t, r, b) {
      assert Repaired(t, s, b);
    }
  }

  lemma AdvanceIsUp(t: Sent, s: Buffers, events: seq<Event>)
    requires WellFormed(t) && KeepsData(t, s, events) && KeepsParity(t, s, events) && RepairsAll(t, s)
    requires GenuineBuffers(t, s) && s.current in s.data
    ensures KeepsData(t, Advance(s), events) && KeepsParity(t, Advance(s), events) && RepairsAll(t, Advance(s))
  {
    hide ParityOf, Prune, Delivered;
    StoredIsGenuine(t, s);
    var next := s.(current := s.current + 1);
    assert GenuineBuffers(t, next);
    forall b: nat | 4 * b + 4 <= |t.frames| && 4 * b + 4 >= next.current ensures Repaired(t, next, b) {
      assert Repaired(t, s, b);
    }
    PruneIsUp(t, next, events);
  }

  lemma WaitingIsUp(t: Sent, s: Buffers, events: seq<Event>, e: Event)
    requires WellFormed(t) && KeepsData(t, s, events) && KeepsParity(t, s, events) && !e.Deliver?
    ensures KeepsData(t, s, events + [e]) && KeepsParity(t, s, events + [e])
  {
    hide ParityOf, Delivered;
    forall id: PacketId ensures Delivered(events + [e], id) <==> Delivered(events, id) {
      DeliveredAfter(events, e, id);
    }
  }

  lemma StepIsUp(t: Sent, decryption: Decryption, s: Session, events: seq<Event>, e: Event)
    requires WellFormed(t) && AllOpen(t, decryption) && Ready(s.buffers)
    requires SafeSession(t, decryption, true, s, events) && Up(t, s, events)
    requires Possible(t, e) && Gentle(events + [e]) && !e.SkipGap?
    ensures Up(t, Step(t, decryption, s, e), events + [e])
  {
    hide GenuineBuffers, QueueDelivered, Handle, Skip, PacketBytes, Ready, ParityOf, GenuineOutput, Gentle;
    hide KeepsData, KeepsParity, RepairsAll, Prune, Advance, ZeroFirst, SuffixOf;
    match e {
      case Deliver(id, hit) =>
        match id {
          case Data(i) =>
            ReadsData(t, i, s.buffers, hit);
            DataEventIsSafe(t, s.buffers, i);
            DataEventIsUp(t, s.buffers, events, e, i);
          case Parity(b, row) =>
            ReadsParity(t, b, row, s.buffers, hit);
            QueueIsGenuine(t, s.buffers);
            GentleInsert(t, s.buffers.fec, events, e);
            ParityEventIsSafe(t, s.buffers, b, row, hit);
            ParityEventIsUp(t, s.buffers, events, e, b, row, hit);
        }
      case PollFrame =>
        WaitingIsUp(t, s.buffers, events, e);
        if s.buffers.current in s.buffers.data {
          StoredIsGenuine(t, s.buffers);
          AdvanceIsGenuine(t, s.buffers);
          AdvanceIsUp(t, s.buffers, events + [e]);
          SuffixIsPart(Advance(s.buffers).fec, s.buffers.fec);
        } else {
          PruneIsGenuine(t, s.buffers);
          PruneIsUp(t, s.buffers, events + [e]);
          SuffixIsPart(Prune(s.buffers).fec, s.buffers.fec);
        }
    }
  }

  lemma GentleIsSafe(t: Sent, decryption: Decryption, events: seq<Event>)
    requires WellFormed(t) && AllPossible(t, events) && Gentle(events)
    ensures Harmless(t, true, decryption, events)
    ensures SafeSession(t, decryption, true, Run(t, true, decryption, events), events)
  {
    hide Harmless, SafeSession, RowZeroOnce;
    RowZeroOnceIsHarmless(t, true, decryption, events);
    RunIsSafe(t, true, decryption, events);
  }

  lemma {:induction false} RunIsUp(t: Sent, decryption: Decryption, events: seq<Event>)
    requires WellFormed(t) && AllOpen(t, decryption)
    requires AllPossible(t, events) && Gentle(events) && NoSkips(events)
    ensures SafeSession(t, decryption, true, Run(t, true, decryption, events), events)
    ensures Up(t, Run(t, true, decryption, events), events)
    decreases |events|
  {
    hide Step, Gentle, Ready, Up, AllOpen, SafeSession;
    GentleIsSafe(t, decryption, events);
    if events == [] {
      FreshIsUp(t);
    } else {
      var k := |events| - 1;
      assert events == events[..k] + [events[k]];
      assert Possible(t, events[k]) && !events[k].SkipGap?;
      GentlePrefix(events, k);
      assert AllPossible(t, events[..k]) && NoSkips(events[..k]);
      hide Possible, AllPossible, NoSkips;
      RunIsUp(t, decryption, events[..k]);
      StepIsUp(t, decryption, Run(t, true, decryption, events[..k]), events[..k], events[k]);
    }
  }

  lemma FreshIsUp(t: Sent)
    requires WellFormed(t)
    ensures Up(t, Fresh(true), [])
  {
    hide ParityOf;
  }

  /** While the next frame is missing, its block cannot have had four of its packets delivered. */
  lemma StuckBlockLacksPackets(t: Sent, s: Buffers, events: seq<Event>)
    requires WellFormed(t) && KeepsData(t, s, events) && KeepsParity(t, s, events) && RepairsAll(t, s)
    requires s.current !in s.data && 4 * (s.current / 4) + 4 <= |t.frames|
    ensures DeliveredOf(events, s.current / 4) < RS.DATA_SHARDS
  {
    hide ParityOf, Delivered;
    var b := s.current / 4;
    assert Repaired(t, s, b);
    assert Delivered(events, Data(4 * b)) ==> 4 * b in s.data;
    assert Delivered(events, Data(4 * b + 1)) ==> 4 * b + 1 in s.data;
    assert Delivered(events, Data(4 * b + 2)) ==> 4 * b + 2 in s.data;
    assert Delivered(events, Data(4 * b + 3)) ==> 4 * b + 3 in s.data;
    assert Delivered(events, Parity(b, 0)) ==> ParityOf(t, b, 0) in s.fec;
    assert Delivered(events, Parity(b, 1)) ==> ParityOf(t, b, 1) in s.fec;
    assert Held(t, s, b) >= DeliveredOf(events, b);
  }

  // ---------- draining ----------

  function Polls(n: nat): (events: seq<Event>)
    ensures |events| == n
  {
    seq(n, _ => PollFrame)
  }

  lemma WithPolls(t: Sent, events: seq<Event>, n: nat)
    requires AllPossible(t, events) && NoSkips(events)
    ensures AllPossible(t, events + Polls(n)) && NoSkips(events + Polls(n))
    ensures RowZeroOnce(events) ==> RowZeroOnce(events + Polls(n))
    ensures Gentle(events) ==> Gentle(events + Polls(n))
  {
    var all := events + Polls(n);
    forall i | 0 <= i < |all| ensures all[i] == if i < |events| then events[i] else PollFrame {
    }
    assert forall i :: 0 <= i <= |events| ==> all[..i] == events[..i];
    forall id: PacketId | DeliveredTwice(all, id) ensures DeliveredTwice(events, id) {
    }
  }

  lemma {:induction false} PollsAreHarmless(t: Sent, fec: bool, decryption: Decryption, events: seq<Event>, n: nat)
    requires WellFormed(t) && AllPossible(t, events) && Harmless(t, fec, decryption, events)
    ensures AllPossible(t, events + Polls(n)) && Harmless(t, fec, decryption, events + Polls(n))
  {
    hide Run, StepCorrupts, Harmless;
    if n == 0 {
      assert events + Polls(0) == events;
    } else {
      PollsAreHarmless(t, fec, decryption, events, n - 1);
      var all := events + Polls(n);
      assert all[..|all| - 1] == events + Polls(n - 1) && all[|all| - 1] == PollFrame && all[..|all|] == all;
      assert AllPossible(t, all);
      HarmlessPrefix(t, fec, decryption, all, |all| - 1);
      PollCorruptsNothing(t, Run(t, fec, decryption, all[..|all| - 1]).buffers);
    }
  }

  lemma PollCorruptsNothing(t: Sent, s: Buffers)
    requires WellFormed(t)
    ensures !StepCorrupts(t, s, PollFrame)
  {
  }

  /** Every poll either finds the next frame missing or moves on by one. */
  lemma {:induction false} DrainReachesGap(t: Sent, fec: bool, decryption: Decryption, events: seq<Event>, n: nat)
    requires WellFormed(t) && AllOpen(t, decryption)
    requires AllPossible(t, events) && Harmless(t, fec, decryption, events)
    ensures AllPossible(t, events + Polls(n))
    ensures var s := Run(t, fec, decryption, events + Polls(n)).buffers;
            s.current in s.data ==> s.current >= n
    decreases n
  {
    PollsAreHarmless(t, fec, decryption, events, n);
    if n != 0 {
      PollsAreHarmless(t, fec, decryption, events, n - 1);
      DrainReachesGap(t, fec, decryption, events, n - 1);
      OneMorePoll(t, fec, decryption, events, n);
      RunIsSafe(t, fec, decryption, events + Polls(n - 1));
      hide Run, GenuineBuffers, GenuineOutput, QueueDelivered, Ready, Poll, AllPossible, Harmless, AllOpen, Polls;
      PollMovesOn(t, decryption, Run(t, fec, decryption, events + Polls(n - 1)).buffers);
    }
  }

  lemma OneMorePoll(t: Sent, fec: bool, decryption: Decryption, events: seq<Event>, n: nat)
    requires WellFormed(t) && n > 0
    requires AllPossible(t, events + Polls(n)) && AllPossible(t, events + Polls(n - 1))
    ensures Run(t, fec, decryption, events + Polls(n)).buffers
         == Poll(Run(t, fec, decryption, events + Polls(n - 1)).buffers, decryption).0
  {
    hide Ready, Poll;
    var all := events + Polls(n);
    assert all[..|all| - 1] == events + Polls(n - 1);
    assert all[|all| - 1] == PollFrame;
  }

  lemma DrainedPosition(t: Sent, decryption: Decryption, events: seq<Event>, blocks: nat)
    requires WellFormed(t) && AllOpen(t, decryption) && 4 * blocks <= |t.frames|
    requires AllPossible(t, events) && Gentle(events) && NoSkips(events)
    requires forall b :: 0 <= b < blocks ==> DeliveredOf(events, b) >= RS.DATA_SHARDS
    ensures AllPossible(t, events + Polls(|t.frames|))
    ensures Run(t, true, decryption, events + Polls(|t.frames|)).buffers.current >= 4 * blocks
  {
    hide Run, DeliveredOf, Polls, GenuineBuffers, GenuineOutput, QueueDelivered, KeepsData, KeepsParity, RepairsAll;
    hide AllOpen, Gentle, AllPossible, NoSkips;
    var n := |t.frames|;
    WithPolls(t, events, n);
    GentleIsSafe(t, decryption, events);
    DrainReachesGap(t, true, decryption, events, n);
    RunIsUp(t, decryption, events + Polls(n));
    var s := Run(t, true, decryption, events + Polls(n));
    StoredBelow(t, s.buffers);
    if s.buffers.current < 4 * blocks {
      StuckBlockLacksPackets(t, s.buffers, events + Polls(n));
      PollsDeliverNothing(events, n, s.buffers.current / 4);
    }
  }

  /** Completeness: if four of the six packets of each of the first `blocks` blocks are delivered, in any order
      and interleaved with polls, then draining the receiver yields every frame of those blocks, in order,
      byte for byte, and with its timestamp if the blocks are evenly timed. */
  lemma EveryFrameComesOut(t: Sent, decryption: Decryption, events: seq<Event>, blocks: nat)
    requires WellFormed(t) && AllOpen(t, decryption) && 4 * blocks <= |t.frames|
    requires AllPossible(t, events) && Gentle(events) && NoSkips(events)
    requires forall b :: 0 <= b < blocks ==> DeliveredOf(events, b) >= RS.DATA_SHARDS
    ensures AllPossible(t, events + Polls(|t.frames|))
    ensures var emitted := Run(t, true, decryption, events + Polls(|t.frames|)).emitted;
            && |emitted| >= 4 * blocks
            && forall i :: 0 <= i < 4 * blocks ==> emitted[i].index == i && GenuineFrame(t, decryption, i, emitted[i].frame)
  {
    hide DeliveredOf, Run, GenuineFrame, Polls;
    DrainedPosition(t, decryption, events, blocks);
    WithPolls(t, events, |t.frames|);
    GentleIsSafe(t, decryption, events + Polls(|t.frames|));
    OutputIsPrefix(t, true, decryption, events + Polls(|t.frames|));
    RunIsInOrder(t, true, decryption, events + Polls(|t.frames|));
  }

  lemma StoredBelow(t: Sent, s: Buffers)
    requires WellFormed(t) && GenuineBuffers(t, s)
    ensures s.current in s.data ==> s.current < |t.frames|
  {
  }

  lemma PollsDeliverNothing(events: seq<Event>, n: nat, b: nat)
    ensures DeliveredOf(events + Polls(n), b) >= DeliveredOf(events, b)
  {
    var all := events + Polls(n);
    assert forall j :: 0 <= j < |events| ==> all[j] == events[j];
    forall id: PacketId | Delivered(events, id) ensures Delivered(all, id) {
      var j :| 0 <= j < |events| && events[j].Deliver? && events[j].id == id;
      assert all[j].Deliver? && all[j].id == id;
    }
  }

  // ---------- limits ----------

  /** The events that deliver two data packets of the first block and its first parity packet twice. */
  const TWICE: seq<Event> := [Deliver(Data(2), 0), Deliver(Data(3), 0), Deliver(Parity(0, 0), 0), Deliver(Parity(0, 0), 0)]

  /** And those that deliver the second parity packet twice, and then the first one. */
  const STUCK: seq<Event> := [Deliver(Data(2), 0), Deliver(Data(3), 0), Deliver(Parity(0, 1), 0), Deliver(Parity(0, 1), 0),
                              Deliver(Parity(0, 0), 1)]

  /** The receiver with the data packets 2 and 3 of the first block and the given queue. */
  function HalfBlock(t: Sent, queue: seq<FecPacket>): Buffers
    requires 4 <= |t.frames|
  {
    Buffers(0, map[2 := DataOf(t, 2), 3 := DataOf(t, 3)], queue, true)
  }

  lemma OneParityIsTooFew(t: Sent)
    requires WellFormed(t) && 4 <= |t.frames|
    ensures Ready(HalfBlock(t, [ParityOf(t, 0, 0)]))
    ensures Reconstruct(HalfBlock(t, [ParityOf(t, 0, 0)]), 0) == (HalfBlock(t, [ParityOf(t, 0, 0)]), Success(false))
  {
    hide ParityOf;
    ParityNames(t, 0, 0);
    var s := HalfBlock(t, [ParityOf(t, 0, 0)]);
    assert FirstOf(s.fec, 0) == 0;
  }

  lemma TwiceTheSameParity(t: Sent)
    requires WellFormed(t) && 4 <= |t.frames|
    ensures var p := ParityOf(t, 0, 0);
            var data := BlockData(t.frames, t.len, 0);
            && Ready(HalfBlock(t, [p, p]))
            && var r := Reconstruct(HalfBlock(t, [p, p]), 0).0.data;
               && 0 in r && 1 in r
               && (r[0].payload == t.frames[0].payload && r[1].payload == t.frames[1].payload
                   <==> RS.Encode(data, t.len, 0) == RS.Encode(data, t.len, 1))
  {
    hide RS.Encode, RS.ReconstructData;
    var p := ParityOf(t, 0, 0);
    ParityNames(t, 0, 0);
    var s := HalfBlock(t, [p, p]);
    assert FirstOf(s.fec, 0) == 0;
    var data := BlockData(t.frames, t.len, 0);
    assert Shards(s, 0)
        == [None, None, Some(data[2]), Some(data[3]), Some(RS.Encode(data, t.len, 0)), Some(RS.Encode(data, t.len, 0))];
    RS.RepeatedRow(Shards(s, 0), data, t.len);
    var restored := RS.ReconstructData(Shards(s, 0)).value;
    RS.ReconstructSolves(Shards(s, 0), t.len);
    assert RS.Codeword(restored, t.len)[2] == restored[2] && RS.Codeword(restored, t.len)[3] == restored[3];
    assert restored == data <==> restored[0] == data[0] && restored[1] == data[1];
  }

  /** A parity packet that arrives twice takes both parity slots. What is then stored for the two missing
      frames is what was sent exactly if the two parities of the block agree. */
  lemma RepeatedParity(t: Sent, decryption: Decryption)
    requires WellFormed(t) && 4 <= |t.frames|
    ensures AllPossible(t, TWICE) && DeliveredTwice(TWICE, Parity(0, 0))
    ensures var data := BlockData(t.frames, t.len, 0);
            var stored := Run(t, true, decryption, TWICE).buffers.data;
            && 0 in stored && 1 in stored
            && (stored[0].payload == t.frames[0].payload && stored[1].payload == t.frames[1].payload
                <==> RS.Encode(data, t.len, 0) == RS.Encode(data, t.len, 1))
  {
    hide Run, PacketBytes, Reconstruct, ParityOf, BlockData, InsertFec, Ready, HalfBlock;
    var p, e := ParityOf(t, 0, 0), Deliver(Parity(0, 0), 0);
    assert TWICE[2] == TWICE[3] == e;
    assert TWICE[..2] + [e] == TWICE[..3] && TWICE[..3] + [e] == TWICE;
    HalfBlockArrives(t, decryption);
    ParityNames(t, 0, 0);
    InsertIntoEmpty(p, 0);
    InsertAtHit([p], p, 0);
    assert [p][..0] + [p] + [p][0..] == [p, p];
    ParityArrives(t, decryption, TWICE[..2], [], 0, 0);
    OneParityIsTooFew(t);
    ParityArrives(t, decryption, TWICE[..3], [p], 0, 0);
    TwiceTheSameParity(t);
  }

  lemma RunOneMore(t: Sent, fec: bool, decryption: Decryption, events: seq<Event>, e: Event)
    requires WellFormed(t) && AllPossible(t, events) && Possible(t, e)
    ensures AllPossible(t, events + [e])
    ensures Run(t, fec, decryption, events + [e]) == Step(t, decryption, Run(t, fec, decryption, events), e)
  {
    var all := events + [e];
    assert all[..|all| - 1] == events && all[|all| - 1] == e;
    forall i | 0 <= i < |all| ensures Possible(t, all[i]) {
      assert all[i] == if i < |events| then events[i] else e;
    }
  }

  lemma HalfBlockArrives(t: Sent, decryption: Decryption)
    requires WellFormed(t) && 4 <= |t.frames|
    ensures AllPossible(t, TWICE[..2])
    ensures Run(t, true, decryption, TWICE[..2]).buffers == HalfBlock(t, [])
  {
    hide Step, PacketBytes, Handle;
    var s1 := Buffers(0, map[2 := DataOf(t, 2)], [], true);
    ReadsData(t, 2, Buffers(0, map[], [], true), 0);
    ReadsData(t, 3, s1, 0);
    RunOneMore(t, true, decryption, [], TWICE[0]);
    assert [] + [TWICE[0]] == TWICE[..1];
    StepDelivers(t, decryption, Fresh(true), TWICE[0]);
    RunOneMore(t, true, decryption, TWICE[..1], TWICE[1]);
    assert TWICE[..1] + [TWICE[1]] == TWICE[..2];
    StepDelivers(t, decryption, Run(t, true, decryption, TWICE[..1]), TWICE[1]);
  }

  lemma StepDelivers(t: Sent, decryption: Decryption, s: Session, e: Event)
    requires WellFormed(t) && Possible(t, e) && Ready(s.buffers) && e.Deliver?
    ensures Step(t, decryption, s, e).buffers == Handle(s.buffers, PacketBytes(t.frames, t.len, e.id), e.hit).0
  {
  }

  lemma ParityArrives(t: Sent, decryption: Decryption, events: seq<Event>, queue: seq<FecPacket>, row: nat, hit: nat)
    requires WellFormed(t) && 4 <= |t.frames| && AllPossible(t, events) && row < RS.FEC_SHARDS
    requires Run(t, true, decryption, events).buffers == HalfBlock(t, queue)
    ensures AllPossible(t, events + [Deliver(Parity(0, row), hit)])
    ensures Ready(HalfBlock(t, InsertFec(queue, ParityOf(t, 0, row), hit)))
    ensures Run(t, true, decryption, events + [Deliver(Parity(0, row), hit)]).buffers
         == Reconstruct(HalfBlock(t, InsertFec(queue, ParityOf(t, 0, row), hit)), 0).0
  {
    hide Run, Step, PacketBytes, Handle, Reconstruct, ParityOf, InsertFec, Ready;
    var e := Deliver(Parity(0, row), hit);
    ParityNames(t, 0, row);
    RunOneMore(t, true, decryption, events, e);
    StepDelivers(t, decryption, Run(t, true, decryption, events), e);
    ReadsParity(t, 0, row, HalfBlock(t, queue), hit);
    QueuedIsReady(HalfBlock(t, queue), ParityOf(t, 0, row), hit);
  }

  /** A half block with row 1 in front is not repaired. */
  lemma HalfBlockStays(t: Sent, queue: seq<FecPacket>)
    requires WellFormed(t) && 4 <= |t.frames| && Ready(HalfBlock(t, queue)) && GenuineQueue(t, queue) && OneInFront(queue, 0)
    ensures Reconstruct(HalfBlock(t, queue), 0).0 == HalfBlock(t, queue)
  {
    hide ParityOf, Genuine, Sorted;
    ShardsSeen(t, HalfBlock(t, queue), 0);
  }

  /**
   Four different packets of the first block arrive, yet none of its frames ever comes out: the second parity packet
   came twice before the first one, which the search then put between the two.
   */
  lemma StuckRun(t: Sent, decryption: Decryption, n: nat)
    requires WellFormed(t) && 4 <= |t.frames|
    ensures AllPossible(t, STUCK) && AllPossible(t, STUCK + Polls(n))
    ensures DeliveredOf(STUCK, 0) == RS.DATA_SHARDS && RowZeroOnce(STUCK) && DeliveredTwice(STUCK[..4], Parity(0, 1))
    ensures Run(t, true, decryption, STUCK + Polls(n)).emitted == []
  {
    StuckDeliveries();
    StuckQueue(t, decryption);
    StuckPolls(t, decryption, n);
  }

  lemma StuckDeliveries()
    ensures DeliveredOf(STUCK, 0) == RS.DATA_SHARDS && RowZeroOnce(STUCK) && DeliveredTwice(STUCK[..4], Parity(0, 1))
  {
    assert STUCK[0].id == Data(2) && STUCK[1].id == Data(3) && STUCK[2].id == Parity(0, 1) && STUCK[4].id == Parity(0, 0);
    assert STUCK[..4][2].id == Parity(0, 1) && STUCK[..4][3].id == Parity(0, 1);
    assert forall i :: 0 <= i < |STUCK| ==> STUCK[i].id != Data(0) && STUCK[i].id != Data(1);
    assert forall i, b: nat :: 0 <= i < 4 ==> STUCK[i].id != Parity(b, 0);
  }

  lemma StuckQueue(t: Sent, decryption: Decryption)
    requires WellFormed(t) && 4 <= |t.frames|
    ensures AllPossible(t, STUCK)
    ensures
      var s := Run(t, true, decryption, STUCK);
      s.buffers == HalfBlock(t, [ParityOf(t, 0, 1), ParityOf(t, 0, 0), ParityOf(t, 0, 1)]) && s.emitted == []
  {
    hide Run, Reconstruct, ParityOf, Ready, InsertFec, OneInFront, HalfBlock;
    var p0, p1 := ParityOf(t, 0, 0), ParityOf(t, 0, 1);
    ParityNames(t, 0, 0);
    ParityNames(t, 0, 1);
    StuckInserts(p0, p1);
    assert STUCK[..2] == TWICE[..2];
    HalfBlockArrives(t, decryption);
    RowsArrive(t, decryption, STUCK[..2], [], 1, 0, [p1]);
    assert STUCK[..2] + [Deliver(Parity(0, 1), 0)] == STUCK[..3];
    RowsArrive(t, decryption, STUCK[..3], [p1], 1, 0, [p1, p1]);
    assert STUCK[..3] + [Deliver(Parity(0, 1), 0)] == STUCK[..4];
    RowsArrive(t, decryption, STUCK[..4], [p1, p1], 0, 1, [p1, p0, p1]);
    assert STUCK[..4] + [Deliver(Parity(0, 0), 1)] == STUCK;
    NothingAsked(t, decryption, STUCK);
  }

  lemma StuckInserts(p0: FecPacket, p1: FecPacket)
    requires Base(p0) == Base(p1) == 0 && Row(p0) == 0 && Row(p1) == 1
    ensures InsertFec([], p1, 0) == [p1] && InsertFec([p1], p1, 0) == [p1, p1] && InsertFec([p1, p1], p0, 1) == [p1, p0, p1]
    ensures OneInFront([p1], 0) && OneInFront([p1, p1], 0) && OneInFront([p1, p0, p1], 0)
  {
    hide InsertFec;
    InsertIntoEmpty(p1, 0);
    InsertAtHit([p1], p1, 0);
    assert [p1][..0] + [p1] + [p1][0..] == [p1, p1];
    InsertAtHit([p1, p1], p0, 1);
    assert [p1, p1][..1] + [p0] + [p1, p1][1..] == [p1, p0, p1];
  }

  lemma RowsArrive(t: Sent, decryption: Decryption, events: seq<Event>, queue: seq<FecPacket>, row: nat, hit: nat, next: seq<FecPacket>)
    requires WellFormed(t) && 4 <= |t.frames| && AllPossible(t, events) && row < RS.FEC_SHARDS
    requires Run(t, true, decryption, events).buffers == HalfBlock(t, queue)
    requires next == InsertFec(queue, ParityOf(t, 0, row), hit) && GenuineQueue(t, queue) && OneInFront(next, 0)
    ensures AllPossible(t, events + [Deliver(Parity(0, row), hit)]) && GenuineQueue(t, next)
    ensures Run(t, true, decryption, events + [Deliver(Parity(0, row), hit)]).buffers == HalfBlock(t, next)
  {
    hide Run, Reconstruct, ParityOf, Ready, GenuineQueue, InsertFec, OneInFront;
    ParityArrives(t, decryption, events, queue, row, hit);
    InsertedIsGenuine(t, queue, 0, row, hit);
    HalfBlockStays(t, next);
  }

  /** Without polls nothing comes out. */
  lemma {:induction false} NothingAsked(t: Sent, decryption: Decryption, events: seq<Event>)
    requires WellFormed(t) && AllPossible(t, events) && forall i :: 0 <= i < |events| ==> events[i].Deliver?
    ensures Run(t, true, decryption, events).emitted == []
  {
    hide Handle, PacketBytes, Ready;
    if events != [] {
      NothingAsked(t, decryption, events[..|events| - 1]);
    }
  }

  lemma {:induction false} StuckPolls(t: Sent, decryption: Decryption, n: nat)
    requires WellFormed(t) && 4 <= |t.frames| && AllPossible(t, STUCK)
    requires Run(t, true, decryption, STUCK).emitted == []
    requires
      Run(t, true, decryption, STUCK).buffers == HalfBlock(t, [ParityOf(t, 0, 1), ParityOf(t, 0, 0), ParityOf(t, 0, 1)])
    ensures AllPossible(t, STUCK + Polls(n))
    ensures Run(t, true, decryption, STUCK + Polls(n)) == Run(t, true, decryption, STUCK)
  {
    hide ParityOf, FecFrom, Run, Ready;
    if n == 0 {
      assert STUCK + Polls(0) == STUCK;
    } else {
      StuckPolls(t, decryption, n - 1);
      RunOneMore(t, true, decryption, STUCK + Polls(n - 1), PollFrame);
      assert STUCK + Polls(n - 1) + [PollFrame] == STUCK + Polls(n);
      var queue := [ParityOf(t, 0, 1), ParityOf(t, 0, 0), ParityOf(t, 0, 1)];
      AllKept(queue, 0);
      assert Prune(HalfBlock(t, queue)) == HalfBlock(t, queue);
    }
  }

  /** With one-byte payloads 0, 4, 8 and 12 the repeated parity packet makes the receiver store wrong bytes. */
  lemma RepeatedParityCorrupts(t: Sent, decryption: Decryption)
    requires t == Sent([Frame(0, [0x00]), Frame(5, [0x04]), Frame(10, [0x08]), Frame(15, [0x0c])], 1)
    ensures WellFormed(t) && AllPossible(t, TWICE)
    ensures var stored := Run(t, true, decryption, TWICE).buffers.data;
            0 in stored && 1 in stored
            && !(stored[0].payload == t.frames[0].payload && stored[1].payload == t.frames[1].payload)
  {
    hide Run, RS.ParityByte;
    assert WellFormed(t);
    RepeatedParity(t, decryption);
    var data := BlockData(t.frames, 1, 0);
    assert RS.Column(data, 1, 0) == [0x00, 0x04, 0x08, 0x0c];
    RS.PinnedParities();
    assert RS.Encode(data, 1, 0)[0] == 0x88 && RS.Encode(data, 1, 1)[0] == 0x24;
  }

  /** The saturating end of a block's range cuts off one sequence number only, the last one of all. */
  lemma LateTriggerReach(p: FecPacket, i: nat)
    requires Base(p) % 4 == 0 && i < RS.DATA_SHARDS
    ensures Base(p) + i < 0x1_0000
    ensures Covers(p, Base(p) + i) <==> Base(p) + i != 0xFFFF
  {
  }
}
