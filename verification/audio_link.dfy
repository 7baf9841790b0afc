/**
 The sender object and the receiver object joined by a network: frames are pushed into one, its packets are lost,
 reordered and repeated on the way, and frames are taken from the other.
 */
module AudioLink {
  import opened Wrappers
  import opened Bytes
  import opened AudioBlocks
  import opened AudioBuffers
  import opened AudioTransport
  import AudioDelivery
  import AudioDepayloader
  import AudioPayloader
  import AudioRecovery
  import ReedSolomon

  /** The k-th packet sent arrives, or the application asks for a frame. */
  datatype Action = Arrive(k: nat) | Ask

  predicate InRange(actions: seq<Action>, n: nat, fec: bool) {
    forall i | 0 <= i < |actions| && actions[i].Arrive? :: actions[i].k < |PacketsOf(n, fec)|
  }

  ghost predicate ArrivesTwice(actions: seq<Action>, n: nat, fec: bool, id: PacketId)
    requires InRange(actions, n, fec)
  {
    exists i, j :: 0 <= i < j < |actions| && actions[i].Arrive? && actions[j].Arrive?
                   && PacketsOf(n, fec)[actions[i].k] == id && PacketsOf(n, fec)[actions[j].k] == id
  }

  /** No parity packet of row 0 arrives twice. */
  ghost predicate ZeroArrivesOnce(actions: seq<Action>, n: nat, fec: bool)
    requires InRange(actions, n, fec)
  {
    forall b: nat :: !ArrivesTwice(actions, n, fec, Parity(b, 0))
  }

  /** And none of row 1 does before row 0 of its block arrives. */
  ghost predicate GentleArrivals(actions: seq<Action>, n: nat, fec: bool)
    requires InRange(actions, n, fec)
  {
    && ZeroArrivesOnce(actions, n, fec)
    && forall k :: 0 <= k < |actions| && actions[k].Arrive? && PacketsOf(n, fec)[actions[k].k].Parity?
                   && PacketsOf(n, fec)[actions[k].k].row == 0 ==>
         !ArrivesTwice(actions[..k], n, fec, Parity(PacketsOf(n, fec)[actions[k].k].block, 1))
  }

  ghost predicate Arrived(actions: seq<Action>, n: nat, fec: bool, id: PacketId)
    requires InRange(actions, n, fec)
  {
    exists i :: 0 <= i < |actions| && actions[i].Arrive? && PacketsOf(n, fec)[actions[i].k] == id
  }

  /** Of each of the first `blocks` blocks at least four of the six packets arrive. */
  ghost predicate EnoughArrive(actions: seq<Action>, n: nat, fec: bool, blocks: nat)
    requires InRange(actions, n, fec)
  {
    forall b: nat | b < blocks ::
      One(Arrived(actions, n, fec, Data(4 * b))) + One(Arrived(actions, n, fec, Data(4 * b + 1)))
      + One(Arrived(actions, n, fec, Data(4 * b + 2))) + One(Arrived(actions, n, fec, Data(4 * b + 3)))
      + One(Arrived(actions, n, fec, Parity(b, 0))) + One(Arrived(actions, n, fec, Parity(b, 1)))
      >= ReedSolomon.DATA_SHARDS
  }

  /** The frame with number i as it goes over the wire. */
  function Sealed(f: Frame, encryption: Option<AudioPayloader.Cipher>, i: u16): Frame
    requires encryption.Some? ==> encryption.value(i, f.payload).Some?
  {
    Frame(f.timestamp, if encryption.Some? then encryption.value(i, f.payload).value else f.payload)
  }

  /** The receiver's key is the sender's: what is sealed under a number is opened under it, and sealing never fails. */
  ghost predicate SameKey(encryption: Option<AudioPayloader.Cipher>, decryption: Decryption) {
    match encryption
    case None => decryption.None?
    case Some(encrypt) =>
      && decryption.Some? && AudioPayloader.IsCbcCipher(encrypt)
      && forall i: u16, p: seq<Byte> {:trigger encrypt(i, p)} ::
           encrypt(i, p).Some? && decryption.value(i, encrypt(i, p).value) == Some(p)
  }

  /** A plaintext with its padding: as many bytes as are missing to the next cipher block, each saying how many. */
  function Padded(p: seq<Byte>): (c: seq<Byte>)
    ensures |c| == AudioPayloader.CipherLen(|p|)
  {
    p + seq(16 - |p| % 16, _ => FromInt(16 - |p| % 16))
  }

  function Unpadded(c: seq<Byte>): Option<seq<Byte>> {
    if |c| > 0 && ToInt(c[|c| - 1]) <= |c| then Some(c[..|c| - ToInt(c[|c| - 1])]) else None
  }

  lemma PaddingComesOff(p: seq<Byte>)
    ensures Unpadded(Padded(p)) == Some(p)
  {
    hide FromInt, ToInt;
    IntRoundTrip(16 - |p| % 16);
    var c := Padded(p);
    assert c[|c| - 1] == FromInt(16 - |p| % 16);
    assert c[..|p|] == p;
  }

  function PaddingCipher(): AudioPayloader.Cipher {
    (i, p) => Some(Padded(p))
  }

  function UnpaddingCipher(): (u16, seq<Byte>) -> Option<seq<Byte>> {
    (i, c) => Unpadded(c)
  }

  lemma PaddingIsSameKey()
    ensures SameKey(Some(PaddingCipher()), Some(UnpaddingCipher()))
  {
    hide Padded, Unpadded;
    forall p ensures Unpadded(Padded(p)) == Some(p) && |Padded(p)| == AudioPayloader.CipherLen(|p|) {
      PaddingComesOff(p);
    }
    hide AudioPayloader.CipherLen;
  }

  lemma SameKeysExist()
    ensures exists encrypt: AudioPayloader.Cipher, decrypt: (u16, seq<Byte>) -> Option<seq<Byte>> ::
              SameKey(Some(encrypt), Some(decrypt))
  {
    hide SameKey, PaddingCipher, UnpaddingCipher;
    PaddingIsSameKey();
  }

  ghost function AllSealed(frames: seq<Frame>, encryption: Option<AudioPayloader.Cipher>, decryption: Decryption): (sealed: seq<Frame>)
    requires |frames| < 0x1_0000 && SameKey(encryption, decryption)
    ensures |sealed| == |frames|
  {
    seq(|frames|, i requires 0 <= i < |frames| => Sealed(frames[i], encryption, i))
  }

  lemma SealedFrame(frames: seq<Frame>, encryption: Option<AudioPayloader.Cipher>, decryption: Decryption, i: nat)
    requires i < |frames| < 0x1_0000 && SameKey(encryption, decryption)
    ensures encryption.Some? ==> AudioPayloader.IsCbcCipher(encryption.value) && encryption.value(i, frames[i].payload).Some?
    ensures AllSealed(frames, encryption, decryption)[i] == Sealed(frames[i], encryption, i)
  {
  }

  /** Everything a fresh sender sends for the frames. */
  method SendAll(frames: seq<Frame>, len: nat, fec: bool, encryption: Option<AudioPayloader.Cipher>, ghost decryption: Decryption)
    returns (packets: seq<seq<Byte>>, ghost wireLen: nat)
    requires Uniform(frames, len) && len > 0 && |frames| < 0x1_0000 && SameKey(encryption, decryption)
    requires encryption.Some? && fec ==> len % 16 == 0
    ensures Uniform(AllSealed(frames, encryption, decryption), wireLen)
    ensures packets == Stream(AllSealed(frames, encryption, decryption), wireLen, fec)
  {
    hide AudioPayloader.InStep, Stream, SameKey, AllSealed, AudioPayloader.CipherLen, AudioPayloader.SafeLen;
    IsCipher(encryption, decryption);
    hide AudioPayloader.IsCbcCipher;
    var payloader := new AudioPayloader.AudioPayloader(fec, len, encryption);
    ghost var sealed := AllSealed(frames, encryption, decryption);
    for i := 0 to |frames|
      invariant payloader.Valid() && payloader.sent == sealed[..i] && payloader.polled == []
      invariant payloader.fec == fec && payloader.frameLen == len && payloader.encryption == encryption
      invariant fresh(payloader) && fresh(payloader.dataShards)
    {
      NumberIsCount(payloader);
      SealedFrame(frames, encryption, decryption, i);
      var pushed := payloader.PushFrame(frames[i].timestamp, frames[i].payload);
      assert pushed == AudioPayloader.Pushed;
      assert sealed[..i + 1] == sealed[..i] + [sealed[i]];
    }
    assert payloader.sent == sealed;
    packets, wireLen := [], payloader.WireLen();
    var packet := payloader.PollPacket();
    while packet.Some?
      invariant payloader.Valid() && payloader.sent == sealed && fresh(payloader)
      invariant payloader.fec == fec && payloader.frameLen == len && payloader.encryption == encryption
      invariant payloader.polled == packets + (if packet.Some? then [packet.value] else [])
      invariant packet.None? ==> payloader.packetQueue == []
      decreases |payloader.packetQueue|, if packet.Some? then 1 else 0
    {
      packets := packets + [packet.value];
      packet := payloader.PollPacket();
    }
    AllSent(payloader);
  }

  lemma IsCipher(encryption: Option<AudioPayloader.Cipher>, decryption: Decryption)
    requires SameKey(encryption, decryption)
    ensures encryption.Some? ==> AudioPayloader.IsCbcCipher(encryption.value)
  {
  }

  lemma NumberIsCount(payloader: AudioPayloader.AudioPayloader)
    requires payloader.Valid() && |payloader.sent| < 0x1_0000
    ensures payloader.sequenceNumber == |payloader.sent|
  {
  }

  lemma AllSent(payloader: AudioPayloader.AudioPayloader)
    requires payloader.Valid() && payloader.packetQueue == []
    ensures Uniform(payloader.sent, payloader.WireLen())
    ensures payloader.polled == Stream(payloader.sent, payloader.WireLen(), payloader.fec)
  {
    hide Stream;
    assert payloader.polled + [] == payloader.polled;
  }

  // ---------- actions as events ----------

  /** The event that an action brings about; `hit` is what the receiver's search came upon. */
  function EventOf(action: Action, n: nat, fec: bool, hit: nat): Event
    requires action.Arrive? ==> action.k < |PacketsOf(n, fec)|
  {
    match action
    case Arrive(k) => Deliver(PacketsOf(n, fec)[k], hit)
    case Ask => PollFrame
  }

  predicate Mirror(e: Event, action: Action, n: nat, fec: bool)
    requires action.Arrive? ==> action.k < |PacketsOf(n, fec)|
  {
    if action.Arrive? then e.Deliver? && e.id == PacketsOf(n, fec)[action.k] else e == PollFrame
  }

  ghost predicate Mirrors(events: seq<Event>, actions: seq<Action>, n: nat, fec: bool)
    requires InRange(actions, n, fec)
  {
    |events| == |actions| && forall i | 0 <= i < |events| :: Mirror(events[i], actions[i], n, fec)
  }

  lemma MirroredEvents(t: Sent, fec: bool, events: seq<Event>, actions: seq<Action>)
    requires InRange(actions, |t.frames|, fec) && Mirrors(events, actions, |t.frames|, fec)
    ensures AllPossible(t, events) && NoSkips(events)
    ensures forall id :: Arrived(actions, |t.frames|, fec, id) <==> Delivered(events, id)
    ensures forall id :: ArrivesTwice(actions, |t.frames|, fec, id) <==> DeliveredTwice(events, id)
  {
    var n := |t.frames|;
    PacketsAreInStream(n, fec);
    assert forall i | 0 <= i < |events| :: Mirror(events[i], actions[i], n, fec);
    forall id ensures Arrived(actions, n, fec, id) <==> Delivered(events, id) {
      if Arrived(actions, n, fec, id) {
        var i :| 0 <= i < |actions| && actions[i].Arrive? && PacketsOf(n, fec)[actions[i].k] == id;
        assert Mirror(events[i], actions[i], n, fec);
      }
      if Delivered(events, id) {
        var i :| 0 <= i < |events| && events[i].Deliver? && events[i].id == id;
        assert Mirror(events[i], actions[i], n, fec);
      }
    }
    forall id ensures ArrivesTwice(actions, n, fec, id) <==> DeliveredTwice(events, id) {
      MirroredTwice(events, actions, n, fec, id);
    }
  }

  lemma MirroredTwice(events: seq<Event>, actions: seq<Action>, n: nat, fec: bool, id: PacketId)
    requires InRange(actions, n, fec) && Mirrors(events, actions, n, fec)
    ensures ArrivesTwice(actions, n, fec, id) <==> DeliveredTwice(events, id)
  {
    if ArrivesTwice(actions, n, fec, id) {
      var i, j :| 0 <= i < j < |actions| && actions[i].Arrive? && actions[j].Arrive?
                  && PacketsOf(n, fec)[actions[i].k] == id && PacketsOf(n, fec)[actions[j].k] == id;
      assert Mirror(events[i], actions[i], n, fec) && Mirror(events[j], actions[j], n, fec);
    }
    if DeliveredTwice(events, id) {
      var i, j :| 0 <= i < j < |events| && events[i].Deliver? && events[j].Deliver? && events[i].id == id && events[j].id == id;
      assert Mirror(events[i], actions[i], n, fec) && Mirror(events[j], actions[j], n, fec);
    }
  }

  lemma MirroredGentle(t: Sent, fec: bool, events: seq<Event>, actions: seq<Action>)
    requires InRange(actions, |t.frames|, fec) && Mirrors(events, actions, |t.frames|, fec)
    ensures ZeroArrivesOnce(actions, |t.frames|, fec) ==> RowZeroOnce(events)
    ensures GentleArrivals(actions, |t.frames|, fec) ==> AudioRecovery.Gentle(events)
  {
    var n := |t.frames|;
    MirroredEvents(t, fec, events, actions);
    hide ArrivesTwice, DeliveredTwice;
    forall k | 0 <= k < |events|
      ensures Mirror(events[k], actions[k], n, fec)
      ensures forall id :: ArrivesTwice(actions[..k], n, fec, id) <==> DeliveredTwice(events[..k], id)
    {
      forall i | 0 <= i < k ensures Mirror(events[..k][i], actions[..k][i], n, fec) {
        assert Mirror(events[i], actions[i], n, fec);
      }
      MirroredEvents(t, fec, events[..k], actions[..k]);
    }
  }

  lemma EnoughDelivered(t: Sent, fec: bool, events: seq<Event>, actions: seq<Action>, blocks: nat)
    requires InRange(actions, |t.frames|, fec) && Mirrors(events, actions, |t.frames|, fec)
    requires EnoughArrive(actions, |t.frames|, fec, blocks)
    ensures forall b | 0 <= b < blocks :: AudioRecovery.DeliveredOf(events, b) >= ReedSolomon.DATA_SHARDS
  {
    MirroredEvents(t, fec, events, actions);
    hide Arrived, Delivered, Mirrors;
    forall b: nat | b < blocks ensures AudioRecovery.DeliveredOf(events, b) >= ReedSolomon.DATA_SHARDS {
    }
  }

  /** What was taken from the receiver, told by the run. */
  ghost function FramesOf(emitted: seq<Emission>): seq<AudioFrame> {
    seq(|emitted|, i requires 0 <= i < |emitted| => emitted[i].frame)
  }

  /** Feeds the receiver and asks it for frames, then asks once for every frame sent. */
  method Play(ghost frames: seq<Frame>, ghost len: nat, count: nat, fec: bool, decryption: Decryption, packets: seq<seq<Byte>>,
              actions: seq<Action>)
    returns (played: seq<AudioFrame>, ghost events: seq<Event>)
    requires Uniform(frames, len) && count == |frames| < 0x1_0000 && packets == Stream(frames, len, fec)
    requires InRange(actions, |frames|, fec)
    ensures Mirrors(events, actions, |frames|, fec)
    ensures
      var t := Sent(frames, len);
      var all := events + AudioRecovery.Polls(|frames|);
      AllPossible(t, all) && played == FramesOf(Run(t, fec, decryption, all).emitted)
  {
    ghost var t := Sent(frames, len);
    var receiver := new AudioDepayloader.AudioDepayloader(fec, decryption);
    played, events := [], [];
    hide Ready, Handle, Poll, PacketBytes, Mirrors, Run, Step, FramesOf;
    NothingYet(t, fec, decryption);
    MirrorsNothing(actions, |frames|, fec);
    for i := 0 to |actions|
      invariant fresh(receiver) && receiver.Valid() && receiver.decryption == decryption
      invariant InRange(actions[..i], |frames|, fec) && Mirrors(events, actions[..i], |frames|, fec) && AllPossible(t, events)
      invariant receiver.State() == Run(t, fec, decryption, events).buffers
      invariant played == FramesOf(Run(t, fec, decryption, events).emitted)
    {
      assert actions[..i + 1] == actions[..i] + [actions[i]];
      ghost var hit := 0;
      if actions[i].Arrive? {
        var r;
        r, hit := receiver.HandlePacket(packets[actions[i].k]);
      } else {
        var frame := receiver.PollFrame();
        if frame.Some? {
          played := played + [frame.value];
        }
      }
      ghost var e := EventOf(actions[i], |frames|, fec, hit);
      MirrorsOneMore(events, actions[..i], actions[i], |frames|, fec, hit);
      PacketsAreInStream(|frames|, fec);
      AudioRecovery.RunOneMore(t, fec, decryption, events, e);
      StepEmits(t, decryption, Run(t, fec, decryption, events), e);
      events := events + [e];
    }
    assert actions[..|actions|] == actions;
    ghost var polls := [];
    assert events + polls == events;
    for i := 0 to count
      invariant fresh(receiver) && receiver.Valid() && receiver.decryption == decryption
      invariant polls == AudioRecovery.Polls(i) && AllPossible(t, events + polls)
      invariant receiver.State() == Run(t, fec, decryption, events + polls).buffers
      invariant played == FramesOf(Run(t, fec, decryption, events + polls).emitted)
    {
      var frame := receiver.PollFrame();
      if frame.Some? {
        played := played + [frame.value];
      }
      AudioRecovery.RunOneMore(t, fec, decryption, events + polls, PollFrame);
      StepEmits(t, decryption, Run(t, fec, decryption, events + polls), PollFrame);
      assert events + polls + [PollFrame] == events + (polls + [PollFrame]);
      polls := polls + [PollFrame];
      assert polls == AudioRecovery.Polls(i + 1);
    }
  }

  lemma NothingYet(t: Sent, fec: bool, decryption: Decryption)
    requires WellFormed(t)
    ensures AllPossible(t, []) && FramesOf(Run(t, fec, decryption, []).emitted) == []
    ensures Run(t, fec, decryption, []).buffers == Buffers(0, map[], [], fec)
  {
  }

  lemma MirrorsNothing(actions: seq<Action>, n: nat, fec: bool)
    requires InRange(actions, n, fec)
    ensures Mirrors([], actions[..0], n, fec)
  {
  }

  lemma MirrorsOneMore(events: seq<Event>, actions: seq<Action>, action: Action, n: nat, fec: bool, hit: nat)
    requires InRange(actions, n, fec) && Mirrors(events, actions, n, fec)
    requires action.Arrive? ==> action.k < |PacketsOf(n, fec)|
    ensures InRange(actions + [action], n, fec) && Mirrors(events + [EventOf(action, n, fec, hit)], actions + [action], n, fec)
  {
    forall i | 0 <= i <= |events|
      ensures Mirror((events + [EventOf(action, n, fec, hit)])[i], (actions + [action])[i], n, fec)
    {
      assert i < |events| ==> Mirror(events[i], actions[i], n, fec);
    }
  }

  lemma StepEmits(t: Sent, decryption: Decryption, s: Session, e: Event)
    requires WellFormed(t) && Possible(t, e) && Ready(s.buffers)
    ensures
      var r := Step(t, decryption, s, e);
      match e
      case Deliver(id, hit) =>
        r.buffers == Handle(s.buffers, PacketBytes(t.frames, t.len, id), hit).0 && FramesOf(r.emitted) == FramesOf(s.emitted)
      case PollFrame =>
        var (buffers, output) := Poll(s.buffers, decryption);
        r.buffers == buffers && FramesOf(r.emitted) == FramesOf(s.emitted) + (if output.Some? then [output.value] else [])
      case SkipGap => true
  {
    hide Ready, Handle, Poll, PacketBytes;
  }

  /** The first m frames' packets arrive. */
  ghost predicate FirstArrive(actions: seq<Action>, n: nat, fec: bool, m: nat)
    requires InRange(actions, n, fec)
  {
    forall i: nat | i < m :: Arrived(actions, n, fec, Data(i))
  }

  lemma SealedOpens(frames: seq<Frame>, wireLen: nat, encryption: Option<AudioPayloader.Cipher>, decryption: Decryption)
    requires |frames| < 0x1_0000 && SameKey(encryption, decryption)
    ensures AllOpen(Sent(AllSealed(frames, encryption, decryption), wireLen), decryption)
    ensures forall i | 0 <= i < |frames| ::
              Open(decryption, i, AllSealed(frames, encryption, decryption)[i].payload) == Some(frames[i].payload)
  {
  }

  lemma SealedTiming(frames: seq<Frame>, len: nat, wireLen: nat, encryption: Option<AudioPayloader.Cipher>, decryption: Decryption)
    requires |frames| < 0x1_0000 && SameKey(encryption, decryption)
    ensures
      var sealed := AllSealed(frames, encryption, decryption);
      forall i | 0 <= i < |frames| :: sealed[i].timestamp == frames[i].timestamp
                                      && (EvenAt(Sent(sealed, wireLen), i) <==> EvenAt(Sent(frames, len), i))
  {
    var sealed := AllSealed(frames, encryption, decryption);
    forall i | 0 <= i < |frames| ensures sealed[i].timestamp == frames[i].timestamp {
    }
    hide AllSealed, Sealed;
  }

  /**
   The two objects over a lossy network, with loss repair or without, encrypted or not: what is played are the frames
   that were pushed, from the first one on, byte for byte and with their timestamps, and no fewer than arrived in a
   row. With repair the blocks of which four packets arrived are played in full; without it exactly the frames that
   arrived in a row are.
   */
  method Relay(frames: seq<Frame>, len: nat, fec: bool, encryption: Option<AudioPayloader.Cipher>, decryption: Decryption,
               actions: seq<Action>)
    returns (played: seq<AudioFrame>)
    requires Uniform(frames, len) && 0 < len && |frames| < 0x1_0000
    requires SameKey(encryption, decryption) && (encryption.Some? && fec ==> len % 16 == 0)
    requires InRange(actions, |frames|, fec) && (fec ==> ZeroArrivesOnce(actions, |frames|, fec))
    ensures |played| <= |frames|
    ensures forall i | 0 <= i < |played| :: played[i].buffer == frames[i].payload
    ensures forall i | 0 <= i < |played| && (fec ==> EvenAt(Sent(frames, len), i)) :: played[i].timestamp == frames[i].timestamp
    ensures forall m: nat | m <= |frames| && FirstArrive(actions, |frames|, fec, m) :: |played| >= m
    ensures !fec ==> FirstArrive(actions, |frames|, fec, |played|)
    ensures fec && GentleArrivals(actions, |frames|, fec) ==>
              forall blocks: nat | 4 * blocks <= |frames| && EnoughArrive(actions, |frames|, fec, blocks) :: |played| >= 4 * blocks
  {
    var packets;
    ghost var events, wireLen;
    hide SameKey, AllSealed, EvenAt;
    packets, wireLen := SendAll(frames, len, fec, encryption, decryption);
    ghost var t := Sent(AllSealed(frames, encryption, decryption), wireLen);
    played, events := Play(t.frames, wireLen, |frames|, fec, decryption, packets, actions);
    hide Run, Mirrors, Stream, AudioRecovery.Polls, EnoughArrive, AudioRecovery.DeliveredOf, AllPossible, NoSkips, Arrived, Delivered;
    hide RowZeroOnce, AudioRecovery.Gentle, ZeroArrivesOnce, GentleArrivals, Open, AllOpen;
    SealedOpens(frames, wireLen, encryption, decryption);
    SealedTiming(frames, len, wireLen, encryption, decryption);
    MirroredEvents(t, fec, events, actions);
    MirroredGentle(t, fec, events, actions);
    if fec {
      AudioDelivery.PlaysAtLeastUpToFirstLoss(t, fec, decryption, events);
    } else {
      AudioDelivery.PlaysUpToFirstLoss(t, decryption, events);
    }
    forall blocks: nat | fec && GentleArrivals(actions, |frames|, fec) && 4 * blocks <= |frames|
                         && EnoughArrive(actions, |frames|, fec, blocks)
      ensures |played| >= 4 * blocks
    {
      EnoughDelivered(t, fec, events, actions, blocks);
      AudioRecovery.EveryFrameComesOut(t, decryption, events, blocks);
    }
  }
}
