/**
 The audio stream on the client: feeds datagrams to the receiver, hands out frames, and gives up on a
 missing frame once it has been waited for too long. Times are in nanoseconds.
 */
module AudioStream {
  import opened Wrappers
  import opened Bytes
  import opened AudioBuffers
  import opened AudioPacket
  import AudioDelivery
  import AudioDepayloader
  import Ping

  const MAX_JITTER := 10_000_000

  /** A frame handed out: when, and with which sequence number. */
  datatype Played = Played(now: nat, index: u16, frame: AudioFrame)

  /** A datagram to be sent. */
  datatype Transmit = Transmit(destination: nat, data: seq<Byte>)

  /** The receiver with the clock that decides about gaps. */
  datatype Clocked = Clocked(buffers: Buffers, lastFrame: nat, droppedFrames: bool, played: seq<Played>)

  // ---------- what the operations do ----------

  /** Takes every frame that is ready. */
  function Drain(s: Clocked, decryption: Decryption, now: nat): Clocked
    decreases WrapsLeft(s.buffers), 0x1_0000 - s.buffers.current
  {
    var (buffers, output) := Poll(s.buffers, decryption);
    PollDecreases(s.buffers, decryption);
    if output.None? then s.(buffers := buffers)
    else Drain(Clocked(buffers, now, false, s.played + [Played(now, WrappingSub(buffers.current, 1), output.value)]), decryption, now)
  }

  /** Gives up on the missing frame if it is overdue, then takes what is ready. */
  function Timeout(s: Clocked, decryption: Decryption, wait: nat, now: nat): Clocked {
    Drain(Skipped(s, wait, now), decryption, now)
  }

  /** The state in which a timeout drains: behind the gap, if it is overdue. */
  function Skipped(s: Clocked, wait: nat, now: nat): Clocked {
    if s.lastFrame + wait < now then s.(droppedFrames := true, buffers := Skip(s.buffers)) else s
  }

  function Receive(s: Clocked, decryption: Decryption, wait: nat, now: nat, packet: seq<Byte>, hit: nat): (Clocked, bool)
    requires Ready(s.buffers)
  {
    var (buffers, r) := Handle(s.buffers, packet, hit);
    if r.Failure? then (s.(buffers := buffers), false)
    else (Timeout(s.(buffers := buffers), decryption, wait, now), true)
  }

  class AudioStream {
    const addr: nat
    const maxSampleWait: nat
    var firstPacket: Option<nat>
    var lastFrame: nat
    var droppedFrames: bool
    const pingSender: Ping.PingSender
    const depayloader: AudioDepayloader.AudioDepayloader
    var events: seq<AudioFrame>

    /** Every frame handed to the event queue so far, and the events taken from it. */
    ghost var played: seq<Played>
    ghost var taken: seq<AudioFrame>

    ghost function State(): Clocked
      reads this, depayloader
    {
      Clocked(depayloader.State(), lastFrame, droppedFrames, played)
    }

    ghost predicate Valid()
      reads this, depayloader, pingSender
    {
      && depayloader.Valid() && pingSender.Valid()
      && taken + events == Frames(played)
    }

    /** A sample may be late by four packet durations and some jitter. */
    constructor (now: nat, addr: nat, packetDuration: nat, fec: bool, ping: Option<Ping.PingPayload>, decryption: Decryption)
      ensures Valid() && fresh(depayloader) && fresh(pingSender)
      ensures State() == Clocked(Buffers(0, map[], [], fec), now, true, []) && taken == []
      ensures this.addr == addr && maxSampleWait == packetDuration * 4 + 10_000_000 && firstPacket == None
      ensures pingSender.config == ping && pingSender.start == now
      ensures pingSender.queuedAt == [now] && pingSender.polled == []
      ensures depayloader.decryption == decryption
    {
      this.addr, maxSampleWait := addr, packetDuration * 4 + MAX_JITTER;
      firstPacket, lastFrame, droppedFrames, events := None, now, true, [];
      played, taken := [], [];
      pingSender := new Ping.PingSender(now, ping);
      depayloader := new AudioDepayloader.AudioDepayloader(fec, decryption);
    }

    method PollDepayloader(now: nat)
      requires Valid()
      modifies this, depayloader
      ensures Valid() && State() == Drain(old(State()), depayloader.decryption, now)
      ensures taken == old(taken) && firstPacket == old(firstPacket)
    {
      hide Poll;
      while true
        invariant Valid()
        invariant Drain(State(), depayloader.decryption, now) == Drain(old(State()), depayloader.decryption, now)
        invariant taken == old(taken) && firstPacket == old(firstPacket)
        decreases WrapsLeft(depayloader.State()), 0x1_0000 - depayloader.currentSequenceNumber
      {
        PollDecreases(depayloader.State(), depayloader.decryption);
        var frame := depayloader.PollFrame();
        if frame.None? {
          break;
        }
        lastFrame := now;
        droppedFrames := false;
        events := events + [frame.value];
        ghost var entry := Played(now, WrappingSub(depayloader.currentSequenceNumber, 1), frame.value);
        FramesAppend(played, entry);
        played := played + [entry];
      }
    }

    /** The next ping, addressed to the host. */
    method PollTransmit() returns (r: Option<Transmit>)
      requires Valid()
      modifies pingSender
      ensures Valid() && State() == old(State()) && pingSender.queuedAt == old(pingSender.queuedAt)
      ensures r.None? <==> |old(pingSender.polled)| == |pingSender.queuedAt|
      ensures r.None? ==> pingSender.polled == old(pingSender.polled)
      ensures r.Some? ==>
                && r.value == Transmit(addr, Ping.PingBytes(pingSender.config, |old(pingSender.polled)|))
                && pingSender.polled == old(pingSender.polled) + [r.value.data]
    {
      var data := pingSender.PollTransmit();
      if data.None? {
        return None;
      }
      return Some(Transmit(addr, data.value));
    }

    /** When to call again: not before a datagram comes, unless the last frame asked for did not. */
    method PollTimeout() returns (r: Option<nat>)
      ensures r == if droppedFrames then Some(lastFrame + maxSampleWait) else None
    {
      if !droppedFrames {
        return None;
      }
      return Some(lastFrame + maxSampleWait);
    }

    method PollEvent() returns (r: Option<AudioFrame>)
      requires Valid()
      modifies this
      ensures Valid() && State() == old(State())
      ensures r.None? <==> old(events) == []
      ensures r.None? ==> taken == old(taken) && events == []
      ensures r.Some? ==> taken == old(taken) + [r.value] && events == old(events)[1..]
    {
      if events == [] {
        return None;
      }
      r := Some(events[0]);
      taken := taken + [events[0]];
      events := events[1..];
      assert taken + events == old(taken + events);
    }

    method HandleTimeout(now: nat)
      requires Valid()
      modifies this, depayloader, pingSender
      ensures Valid() && State() == Timeout(old(State()), depayloader.decryption, maxSampleWait, now)
      ensures taken == old(taken) && firstPacket == old(firstPacket)
      ensures pingSender.polled == old(pingSender.polled)
      ensures pingSender.queuedAt
           == old(pingSender.queuedAt)
              + if now >= pingSender.start + 500_000_000 * |old(pingSender.queuedAt)| then [now] else []
    {
      hide Drain;
      pingSender.HandleTimeout(now);
      if lastFrame + maxSampleWait < now {
        droppedFrames := true;
        depayloader.TrySkipSamples();
      }
      PollDepayloader(now);
    }

    /** Returns whether the call succeeded; a datagram from elsewhere is ignored. */
    method HandleReceive(now: nat, source: nat, packet: seq<Byte>) returns (ok: bool, ghost hit: nat)
      requires Valid()
      modifies this, depayloader, pingSender
      ensures Valid() && taken == old(taken)
      ensures source != addr ==> ok && State() == old(State())
      ensures source == addr ==>
                (State(), ok) == Receive(old(State()), depayloader.decryption, maxSampleWait, now, packet, hit)
      ensures firstPacket == if source == addr && ok && old(firstPacket).None? then Some(now) else old(firstPacket)
      ensures pingSender.polled == old(pingSender.polled)
      ensures pingSender.queuedAt
           == old(pingSender.queuedAt)
              + if source == addr && ok && now >= pingSender.start + 500_000_000 * |old(pingSender.queuedAt)| then [now] else []
    {
      hide Drain, Handle;
      hit := 0;
      if addr != source {
        return true, 0;
      }
      var r;
      r, hit := depayloader.HandlePacket(packet);
      if r.Failure? {
        return false, hit;
      }
      if firstPacket.None? {
        firstPacket := Some(now);
      }
      HandleTimeout(now);
      return true, hit;
    }
  }

  function Frames(played: seq<Played>): (frames: seq<AudioFrame>)
    ensures |frames| == |played|
  {
    seq(|played|, i requires 0 <= i < |played| => played[i].frame)
  }

  lemma FramesAppend(played: seq<Played>, entry: Played)
    ensures Frames(played + [entry]) == Frames(played) + [entry.frame]
  {
  }

  // ---------- calls ----------

  /** What the stream is called with, in any order and with any times. */
  datatype Call = TimeoutCall(now: nat) | ReceiveCall(now: nat, packet: seq<Byte>, hit: nat)

  function Perform(s: Clocked, decryption: Decryption, wait: nat, call: Call): (r: Clocked)
    requires Ready(s.buffers)
    ensures Ready(r.buffers)
  {
    CallKeepsReady(s, decryption, wait, call);
    match call
    case TimeoutCall(now) => Timeout(s, decryption, wait, now)
    case ReceiveCall(now, packet, hit) => Receive(s, decryption, wait, now, packet, hit).0
  }

  function PerformAll(s: Clocked, decryption: Decryption, wait: nat, calls: seq<Call>): Clocked
    requires Ready(s.buffers)
    decreases |calls|
  {
    if calls == [] then s
    else PerformAll(Perform(s, decryption, wait, calls[0]), decryption, wait, calls[1..])
  }

  lemma {:induction false} DrainKeepsReady(s: Clocked, decryption: Decryption, now: nat)
    requires Ready(s.buffers)
    ensures Ready(Drain(s, decryption, now).buffers)
    decreases WrapsLeft(s.buffers), 0x1_0000 - s.buffers.current
  {
    hide Poll, Ready, WrapsLeft;
    PollKeepsReady(s.buffers, decryption);
    PollDecreases(s.buffers, decryption);
    var (buffers, output) := Poll(s.buffers, decryption);
    if output.Some? {
      DrainKeepsReady(Clocked(buffers, now, false, s.played + [Played(now, WrappingSub(buffers.current, 1), output.value)]), decryption, now);
    }
  }

  lemma TimeoutKeepsReady(s: Clocked, decryption: Decryption, wait: nat, now: nat)
    requires Ready(s.buffers)
    ensures Ready(Timeout(s, decryption, wait, now).buffers)
  {
    hide Drain, Skip, Ready;
    SkipKeepsReady(s.buffers);
    DrainKeepsReady(s, decryption, now);
    DrainKeepsReady(s.(droppedFrames := true, buffers := Skip(s.buffers)), decryption, now);
  }

  lemma CallKeepsReady(s: Clocked, decryption: Decryption, wait: nat, call: Call)
    requires Ready(s.buffers)
    ensures match call
            case TimeoutCall(now) => Ready(Timeout(s, decryption, wait, now).buffers)
            case ReceiveCall(now, packet, hit) => Ready(Receive(s, decryption, wait, now, packet, hit).0.buffers)
  {
    hide Timeout, Handle, Ready;
    match call
    case TimeoutCall(now) =>
      TimeoutKeepsReady(s, decryption, wait, now);
    case ReceiveCall(now, packet, hit) =>
      HandleKeepsReady(s.buffers, packet, hit);
      TimeoutKeepsReady(s.(buffers := Handle(s.buffers, packet, hit).0), decryption, wait, now);
  }

  // ---------- the history of a stream ----------

  /** A frame played, or a stored packet passed over because it did not decrypt. */
  datatype Moment = Shown(now: nat, index: u16, frame: AudioFrame) | PassedOver(now: nat, index: u16, payload: seq<Byte>)

  /** What a poll passes over. */
  function PassedBy(s: Buffers, decryption: Decryption, now: nat): seq<Moment>
    decreases WrapsLeft(s), 0x1_0000 - s.current
  {
    if !IsBad(s.data, decryption, s.current) then []
    else
      AdvanceDecreases(s);
      [PassedOver(now, s.current, s.data[s.current].payload)] + PassedBy(Advance(s), decryption, now)
  }

  /** What a poll adds to the history. */
  function PollLog(s: Buffers, decryption: Decryption, now: nat): seq<Moment> {
    var (r, output) := Poll(s, decryption);
    PassedBy(s, decryption, now) + if output.Some? then [Shown(now, WrappingSub(r.current, 1), output.value)] else []
  }

  function DrainLog(s: Clocked, decryption: Decryption, now: nat): seq<Moment>
    decreases WrapsLeft(s.buffers), 0x1_0000 - s.buffers.current
  {
    var (buffers, output) := Poll(s.buffers, decryption);
    PollDecreases(s.buffers, decryption);
    PollLog(s.buffers, decryption, now)
    + if output.None? then []
      else DrainLog(Clocked(buffers, now, false, s.played + [Played(now, WrappingSub(buffers.current, 1), output.value)]), decryption, now)
  }

  function CallLog(s: Clocked, decryption: Decryption, wait: nat, call: Call): seq<Moment>
    requires Ready(s.buffers)
  {
    match call
    case TimeoutCall(now) => DrainLog(Skipped(s, wait, now), decryption, now)
    case ReceiveCall(now, packet, hit) =>
      var (buffers, r) := Handle(s.buffers, packet, hit);
      if r.Failure? then [] else DrainLog(Skipped(s.(buffers := buffers), wait, now), decryption, now)
  }

  function History(s: Clocked, decryption: Decryption, wait: nat, calls: seq<Call>): seq<Moment>
    requires Ready(s.buffers)
    decreases |calls|
  {
    if calls == [] then []
    else CallLog(s, decryption, wait, calls[0]) + History(Perform(s, decryption, wait, calls[0]), decryption, wait, calls[1..])
  }

  /** The frames of a history. */
  function PlayedIn(log: seq<Moment>): seq<Played> {
    if log == [] then []
    else
      var m := log[|log| - 1];
      PlayedIn(log[..|log| - 1]) + if m.Shown? then [Played(m.now, m.index, m.frame)] else []
  }

  /** The sequence number that follows the last moment. */
  function Expected(log: seq<Moment>): u16 {
    if log == [] then 0 else WrappingAdd(log[|log| - 1].index, 1)
  }

  function LastTime(start: nat, log: seq<Moment>): nat {
    if PlayedIn(log) == [] then start else PlayedIn(log)[|PlayedIn(log)| - 1].now
  }

  /** Moment i follows the one before it, or comes after the wait since the last frame was over. */
  predicate InTime(start: nat, wait: nat, log: seq<Moment>, i: nat)
    requires i < |log|
  {
    log[i].index == Expected(log[..i]) || log[i].now > LastTime(start, log[..i]) + wait
  }

  /** Every moment is in time, and only packets that do not decrypt are passed over. */
  predicate Explained(start: nat, wait: nat, decryption: Decryption, log: seq<Moment>) {
    && (forall i :: 0 <= i < |log| ==> InTime(start, wait, log, i))
    && (forall i :: 0 <= i < |log| && log[i].PassedOver? ==> Open(decryption, log[i].index, log[i].payload).None?)
  }

  predicate Timed(start: nat, wait: nat, decryption: Decryption, s: Clocked, log: seq<Moment>) {
    && Explained(start, wait, decryption, log)
    && s.played == PlayedIn(log)
    && s.lastFrame == LastTime(start, log)
    && s.buffers.current == Expected(log)
  }

  /** A moment that may come next. */
  predicate MayFollow(start: nat, wait: nat, decryption: Decryption, log: seq<Moment>, m: Moment) {
    && (m.index == Expected(log) || m.now > LastTime(start, log) + wait)
    && (m.PassedOver? ==> Open(decryption, m.index, m.payload).None?)
  }

  lemma OneMoreMoment(start: nat, wait: nat, decryption: Decryption, log: seq<Moment>, m: Moment)
    requires Explained(start, wait, decryption, log) && MayFollow(start, wait, decryption, log, m)
    ensures Explained(start, wait, decryption, log + [m]) && Expected(log + [m]) == WrappingAdd(m.index, 1)
    ensures PlayedIn(log + [m]) == PlayedIn(log) + if m.Shown? then [Played(m.now, m.index, m.frame)] else []
    ensures LastTime(start, log + [m]) == if m.Shown? then m.now else LastTime(start, log)
  {
    hide LastTime, Expected, Open;
    var all := log + [m];
    assert all[..|all| - 1] == log;
    forall i | 0 <= i < |all| ensures InTime(start, wait, all, i) {
      assert all[..i] == if i < |log| then log[..i] else log;
      assert i < |log| ==> InTime(start, wait, log, i);
    }
    LastTimeOf(start, log, m);
  }

  lemma LastTimeOf(start: nat, log: seq<Moment>, m: Moment)
    ensures Expected(log + [m]) == WrappingAdd(m.index, 1)
    ensures LastTime(start, log + [m]) == if m.Shown? then m.now else LastTime(start, log)
  {
    assert (log + [m])[..|log|] == log;
  }

  /** Where a drain may start: at the expected number, or after a skip at one that is stored. */
  predicate MayStart(start: nat, wait: nat, s: Buffers, now: nat, log: seq<Moment>) {
    s.current == Expected(log) || (LastTime(start, log) + wait < now && s.current in s.data)
  }

  lemma Forth(n: u16)
    ensures WrappingSub(WrappingAdd(n, 1), 1) == n && WrappingAdd(WrappingSub(n, 1), 1) == n
  {
  }

  /** What a poll adds to the history is in time. */
  lemma {:induction false} PollIsTimed(start: nat, wait: nat, decryption: Decryption, s: Buffers, now: nat, log: seq<Moment>)
    requires Explained(start, wait, decryption, log) && MayStart(start, wait, s, now, log)
    ensures
      var (r, output) := Poll(s, decryption);
      var all := log + PollLog(s, decryption, now);
      && Explained(start, wait, decryption, all) && r.current == Expected(all)
      && PlayedIn(all) == PlayedIn(log) + (if output.Some? then [Played(now, WrappingSub(r.current, 1), output.value)] else [])
      && LastTime(start, all) == if output.Some? then now else LastTime(start, log)
    decreases WrapsLeft(s), 0x1_0000 - s.current
  {
    hide Explained, LastTime, Expected, PlayedIn, Open, WrapsLeft, FecFrom;
    Forth(s.current);
    hide WrappingAdd, WrappingSub;
    if IsBad(s.data, decryption, s.current) {
      var m := PassedOver(now, s.current, s.data[s.current].payload);
      OneMoreMoment(start, wait, decryption, log, m);
      AdvanceDecreases(s);
      AdvanceKeepsLater(s);
      PollIsTimed(start, wait, decryption, Advance(s), now, log + [m]);
      assert PollLog(s, decryption, now) == [m] + PollLog(Advance(s), decryption, now);
      assert log + [m] + PollLog(Advance(s), decryption, now) == log + PollLog(s, decryption, now);
    } else if s.current in s.data {
      AdvanceKeepsLater(s);
      var m := Shown(now, s.current, Poll(s, decryption).1.value);
      OneMoreMoment(start, wait, decryption, log, m);
      assert PollLog(s, decryption, now) == [m];
    } else {
      assert log + PollLog(s, decryption, now) == log;
    }
  }

  lemma {:induction false} DrainIsTimed(start: nat, wait: nat, decryption: Decryption, s: Clocked, now: nat, log: seq<Moment>)
    requires Explained(start, wait, decryption, log) && s.played == PlayedIn(log) && s.lastFrame == LastTime(start, log)
    requires MayStart(start, wait, s.buffers, now, log)
    ensures Timed(start, wait, decryption, Drain(s, decryption, now), log + DrainLog(s, decryption, now))
    decreases WrapsLeft(s.buffers), 0x1_0000 - s.buffers.current
  {
    hide Poll, WrapsLeft, Explained, PlayedIn, LastTime, Expected, PollLog;
    PollIsTimed(start, wait, decryption, s.buffers, now, log);
    PollDecreases(s.buffers, decryption);
    var (buffers, output) := Poll(s.buffers, decryption);
    var all := log + PollLog(s.buffers, decryption, now);
    if output.Some? {
      var next := Clocked(buffers, now, false, s.played + [Played(now, WrappingSub(buffers.current, 1), output.value)]);
      DrainIsTimed(start, wait, decryption, next, now, all);
      assert all + DrainLog(next, decryption, now) == log + DrainLog(s, decryption, now);
    } else {
      assert DrainLog(s, decryption, now) == PollLog(s.buffers, decryption, now);
    }
  }

  lemma TimeoutIsTimed(start: nat, wait: nat, decryption: Decryption, s: Clocked, now: nat, log: seq<Moment>)
    requires Timed(start, wait, decryption, s, log)
    ensures Timed(start, wait, decryption, Timeout(s, decryption, wait, now), log + DrainLog(Skipped(s, wait, now), decryption, now))
  {
    hide Drain, DrainLog, Explained, PlayedIn, LastTime, Expected;
    DrainIsTimed(start, wait, decryption, Skipped(s, wait, now), now, log);
  }

  lemma CallIsTimed(start: nat, wait: nat, decryption: Decryption, s: Clocked, call: Call, log: seq<Moment>)
    requires Ready(s.buffers) && Timed(start, wait, decryption, s, log)
    ensures Timed(start, wait, decryption, Perform(s, decryption, wait, call), log + CallLog(s, decryption, wait, call))
  {
    hide Drain, DrainLog, Skipped, Timeout, Handle, Ready, Explained, PlayedIn, LastTime, Expected;
    match call
    case TimeoutCall(now) => TimeoutIsTimed(start, wait, decryption, s, now, log);
    case ReceiveCall(now, packet, hit) =>
      HandleKeepsReady(s.buffers, packet, hit);
      var (buffers, r) := Handle(s.buffers, packet, hit);
      if r.Failure? {
        assert log + [] == log;
      } else {
        TimeoutIsTimed(start, wait, decryption, s.(buffers := buffers), now, log);
      }
  }

  /** Over any interleaving of datagrams and timeouts, with any bytes, any times and any encryption: the history holds
      the frames played; it leaves a number out only when the wait since the last frame is over, and what it passes
      over did not decrypt. */
  lemma {:induction false} GapsAreGivenUpInTime(start: nat, wait: nat, decryption: Decryption, s: Clocked, calls: seq<Call>, log: seq<Moment>)
    requires Ready(s.buffers) && Timed(start, wait, decryption, s, log)
    ensures Timed(start, wait, decryption, PerformAll(s, decryption, wait, calls), log + History(s, decryption, wait, calls))
    decreases |calls|
  {
    hide Perform, Timed, Ready, CallLog;
    if calls == [] {
      assert log + [] == log;
    } else {
      var more := CallLog(s, decryption, wait, calls[0]);
      var next := Perform(s, decryption, wait, calls[0]);
      CallIsTimed(start, wait, decryption, s, calls[0], log);
      GapsAreGivenUpInTime(start, wait, decryption, next, calls[1..], log + more);
      assert log + more + History(next, decryption, wait, calls[1..]) == log + (more + History(next, decryption, wait, calls[1..]));
    }
  }

  /** The same from the start of a stream; on an unencrypted one the history is the frames played, and nothing else. */
  lemma NewStreamIsTimed(start: nat, packetDuration: nat, fec: bool, decryption: Decryption, calls: seq<Call>)
    ensures
      var s := Clocked(Buffers(0, map[], [], fec), start, true, []);
      var wait := packetDuration * 4 + 10_000_000;
      && Ready(s.buffers)
      && var log := History(s, decryption, wait, calls);
         && Explained(start, wait, decryption, log)
         && PerformAll(s, decryption, wait, calls).played == PlayedIn(log)
         && (decryption.None? ==> forall m :: m in log ==> m.Shown?)
  {
    hide PerformAll, History;
    var s := Clocked(Buffers(0, map[], [], fec), start, true, []);
    var wait := packetDuration * 4 + MAX_JITTER;
    GapsAreGivenUpInTime(start, wait, decryption, s, calls, []);
    assert [] + History(s, decryption, wait, calls) == History(s, decryption, wait, calls);
  }

  // ---------- what a timeout plays ----------

  lemma {:induction false} DrainAppends(s: Clocked, decryption: Decryption, now: nat)
    ensures s.played <= Drain(s, decryption, now).played
    decreases WrapsLeft(s.buffers), 0x1_0000 - s.buffers.current
  {
    hide Poll, WrapsLeft;
    PollDecreases(s.buffers, decryption);
    var (buffers, output) := Poll(s.buffers, decryption);
    if output.Some? {
      DrainAppends(Clocked(buffers, now, false, s.played + [Played(now, WrappingSub(buffers.current, 1), output.value)]), decryption, now);
    }
  }

  /** The stored packet with this number, played. */
  function PlayedNow(s: Buffers, decryption: Decryption, n: u16, now: nat): Played
    requires n in s.data && !IsBad(s.data, decryption, n)
  {
    Played(now, n, AudioFrame(s.data[n].timestamp, Open(decryption, n, s.data[n].payload).value))
  }

  /** What a drain does with the packet at the current position. */
  lemma DrainStarts(s: Clocked, decryption: Decryption, now: nat)
    ensures
      var n, played := s.buffers.current, Drain(s, decryption, now).played;
      if n !in s.buffers.data then played == s.played
      else if IsBad(s.buffers.data, decryption, n) then
        played == Drain(s.(buffers := Advance(s.buffers)), decryption, now).played
      else |played| > |s.played| && s.played <= played && played[|s.played|] == PlayedNow(s.buffers, decryption, n, now)
  {
    hide Advance, Prune, Open, WrapsLeft;
    var n := s.buffers.current;
    PollDecreases(s.buffers, decryption);
    Forth(n);
    AdvanceKeepsLater(s.buffers);
    if n in s.buffers.data && !IsBad(s.buffers.data, decryption, n) {
      var (buffers, output) := Poll(s.buffers, decryption);
      var entry := Played(now, WrappingSub(buffers.current, 1), output.value);
      DrainAppends(Clocked(buffers, now, false, s.played + [entry]), decryption, now);
      assert (s.played + [entry])[|s.played|] == entry;
    }
  }

  /** A timeout looks at the next packet, or if that is overdue and a later one is there, at the first one there:
      it plays it, or passes it over and goes on, or plays nothing, exactly as it decrypts, does not, or is missing. */
  lemma TimeoutPlaysExactlyIf(s: Clocked, decryption: Decryption, wait: nat, now: nat)
    ensures
      var stored := NextStored(s.buffers.data, s.buffers.current);
      var n := if s.lastFrame + wait < now && stored.Some? then stored.value else s.buffers.current;
      var played := Timeout(s, decryption, wait, now).played;
      if n !in s.buffers.data then played == s.played
      else if IsBad(s.buffers.data, decryption, n) then
        played == Drain(Skipped(s, wait, now).(buffers := Advance(s.buffers.(current := n))), decryption, now).played
      else |played| > |s.played| && s.played <= played && played[|s.played|] == PlayedNow(s.buffers, decryption, n, now)
  {
    hide Drain, Advance;
    DrainStarts(Skipped(s, wait, now), decryption, now);
  }

  /** A datagram with the frame waited for, if it decrypts, is played at once, as it came. */
  lemma ReceivedFrameIsPlayed(s: Clocked, decryption: Decryption, wait: nat, now: nat, p: seq<Byte>, hit: nat)
    requires Ready(s.buffers) && |p| >= 12 && ToInt(p[1]) == 97
    requires Number16(p, 2) == s.buffers.current && Open(decryption, s.buffers.current, p[12..]).Some?
    ensures
      var (r, ok) := Receive(s, decryption, wait, now, p, hit);
      && (!s.buffers.fecEnabled ==> ok)
      && (ok ==> |r.played| > |s.played| && s.played <= r.played
                 && r.played[|s.played|]
                 == Played(now, Number16(p, 2), AudioFrame(Number32(p, 4), Open(decryption, Number16(p, 2), p[12..]).value)))
  {
    hide Handle, Timeout, ToInt, Drain, Open;
    AudioDelivery.DataDatagramIsStored(s.buffers, p, hit);
    var n := Number16(p, 2);
    var stored := s.(buffers := Handle(s.buffers, p, hit).0);
    assert n in stored.buffers.data && stored.buffers.data[n] == AudioBuffers.DataPacket(Number32(p, 4), p[12..]);
    TimeoutPlaysExactlyIf(stored, decryption, wait, now);
  }

  /** A drain leaves nothing that could be played next. */
  lemma {:induction false} DrainTakesAll(s: Clocked, decryption: Decryption, now: nat)
    ensures var r := Drain(s, decryption, now).buffers; r.current !in r.data
    decreases WrapsLeft(s.buffers), 0x1_0000 - s.buffers.current
  {
    hide WrapsLeft, Prune, Open;
    PollDecreases(s.buffers, decryption);
    var (buffers, output) := Poll(s.buffers, decryption);
    if output.Some? {
      hide Poll;
      DrainTakesAll(Clocked(buffers, now, false, s.played + [Played(now, WrappingSub(buffers.current, 1), output.value)]), decryption, now);
    } else {
      PollPassesOverBadPackets(s.buffers, decryption);
      var k :| PassesOver(s.buffers, decryption, k);
    }
  }

  // ---------- the clock ----------

  lemma {:induction false} DrainSetsClock(s: Clocked, decryption: Decryption, now: nat)
    ensures
      var r := Drain(s, decryption, now);
      && s.played <= r.played
      && (forall k :: |s.played| <= k < |r.played| ==> r.played[k].now == now)
      && if |r.played| > |s.played| then r.lastFrame == now && !r.droppedFrames
         else r.lastFrame == s.lastFrame && r.droppedFrames == s.droppedFrames
    decreases WrapsLeft(s.buffers), 0x1_0000 - s.buffers.current
  {
    hide Poll, WrapsLeft;
    PollDecreases(s.buffers, decryption);
    var (buffers, output) := Poll(s.buffers, decryption);
    if output.Some? {
      DrainSetsClock(Clocked(buffers, now, false, s.played + [Played(now, WrappingSub(buffers.current, 1), output.value)]), decryption, now);
    }
  }

  /** The time from which the wait counts is that of the last frame; and the stream asks to be woken when the wait is
      over exactly if no frame has been played since the wait was last over. */
  lemma TimeoutSetsClock(s: Clocked, decryption: Decryption, wait: nat, now: nat)
    ensures
      var r := Timeout(s, decryption, wait, now);
      && s.played <= r.played
      && (forall k :: |s.played| <= k < |r.played| ==> r.played[k].now == now)
      && if |r.played| > |s.played| then r.lastFrame == now && !r.droppedFrames
         else r.lastFrame == s.lastFrame && (r.droppedFrames <==> s.droppedFrames || s.lastFrame + wait < now)
  {
    hide Drain;
    DrainSetsClock(Skipped(s, wait, now), decryption, now);
  }

  // ---------- a run of calls ----------

  /** The calls of the driver, in any order. */
  datatype DriverCall = TransmitDue | EventDue | TimeoutDue(now: nat) | Received(now: nat, source: nat, packet: seq<Byte>)

  /** The time that a call tells the ping sender; `ok` says whether it succeeded. */
  function Told(call: DriverCall, addr: nat, ok: bool): seq<nat> {
    match call
    case TimeoutDue(now) => [now]
    case Received(now, source, _) => if source == addr && ok then [now] else []
    case _ => []
  }

  /** What the receiver gets to see of it; `hit` is what its search came upon. */
  function Heard(call: DriverCall, addr: nat, hit: nat): seq<Call> {
    match call
    case TimeoutDue(now) => [TimeoutCall(now)]
    case Received(now, source, packet) => if source == addr then [ReceiveCall(now, packet, hit)] else []
    case _ => []
  }

  function AllHeard(calls: seq<DriverCall>, addr: nat, hits: seq<nat>): seq<Call>
    requires |hits| == |calls|
  {
    if calls == [] then []
    else AllHeard(calls[..|calls| - 1], addr, hits[..|calls| - 1]) + Heard(calls[|calls| - 1], addr, hits[|calls| - 1])
  }

  lemma OneMoreHeard(calls: seq<DriverCall>, addr: nat, hits: seq<nat>, call: DriverCall, hit: nat)
    requires |hits| == |calls|
    ensures AllHeard(calls + [call], addr, hits + [hit]) == AllHeard(calls, addr, hits) + Heard(call, addr, hit)
  {
    assert (calls + [call])[..|calls|] == calls && (hits + [hit])[..|calls|] == hits;
  }

  lemma {:induction false} PerformMore(s: Clocked, decryption: Decryption, wait: nat, calls: seq<Call>, more: seq<Call>)
    requires Ready(s.buffers)
    ensures Ready(PerformAll(s, decryption, wait, calls).buffers)
    ensures PerformAll(s, decryption, wait, calls + more)
         == PerformAll(PerformAll(s, decryption, wait, calls), decryption, wait, more)
    decreases |calls|
  {
    hide Perform, Ready;
    if calls == [] {
      assert calls + more == more;
    } else {
      assert (calls + more)[1..] == calls[1..] + more;
      PerformMore(Perform(s, decryption, wait, calls[0]), decryption, wait, calls[1..], more);
    }
  }

  function AllTold(calls: seq<DriverCall>, addr: nat, oks: seq<bool>): seq<nat>
    requires |oks| == |calls|
  {
    if calls == [] then []
    else AllTold(calls[..|calls| - 1], addr, oks[..|calls| - 1]) + Told(calls[|calls| - 1], addr, oks[|calls| - 1])
  }

  lemma OneMoreTold(calls: seq<DriverCall>, addr: nat, oks: seq<bool>, call: DriverCall, ok: bool)
    requires |oks| == |calls|
    ensures AllTold(calls + [call], addr, oks + [ok]) == AllTold(calls, addr, oks) + Told(call, addr, ok)
  {
    assert (calls + [call])[..|calls|] == calls && (oks + [ok])[..|calls|] == oks;
  }

  lemma NothingCalled(start: nat, s: Clocked, decryption: Decryption, wait: nat, addr: nat)
    requires Ready(s.buffers)
    ensures Ping.PingTimes(start, AllTold([], addr, [])) == [start]
    ensures PerformAll(s, decryption, wait, AllHeard([], addr, [])) == s
  {
  }

  /** Makes one call, after those that told the ping sender the given times, and returns what came out of the stream. */
  method Make(stream: AudioStream, call: DriverCall, ghost times: seq<nat>)
    returns (sent: seq<Transmit>, taken: seq<AudioFrame>, ok: bool, ghost hit: nat)
    requires stream.Valid() && stream.pingSender.queuedAt == Ping.PingTimes(stream.pingSender.start, times)
    modifies stream, stream.depayloader, stream.pingSender
    ensures stream.Valid() && stream.taken == old(stream.taken) + taken
    ensures Ready(old(stream.State()).buffers)
    ensures stream.State()
         == PerformAll(old(stream.State()), stream.depayloader.decryption, stream.maxSampleWait, Heard(call, stream.addr, hit))
    ensures stream.pingSender.queuedAt == Ping.PingTimes(stream.pingSender.start, times + Told(call, stream.addr, ok))
    ensures |sent| <= 1 && |stream.pingSender.polled| == |old(stream.pingSender.polled)| + |sent|
    ensures sent != [] ==>
              sent[0] == Transmit(stream.addr, Ping.PingBytes(stream.pingSender.config, |old(stream.pingSender.polled)|))
  {
    hide Timeout, Receive, Ping.PingTimes, Ping.PingBytes, Ping.Pings, Ready;
    sent, taken, ok, hit := [], [], true, 0;
    assert Ready(stream.State().buffers);
    match call {
      case TransmitDue =>
        var transmit := stream.PollTransmit();
        if transmit.Some? {
          sent := [transmit.value];
        }
      case EventDue =>
        var event := stream.PollEvent();
        if event.Some? {
          taken := [event.value];
        }
      case TimeoutDue(now) =>
        stream.HandleTimeout(now);
      case Received(now, source, packet) =>
        ok, hit := stream.HandleReceive(now, source, packet);
    }
    assert times + [] == times;
    if Told(call, stream.addr, ok) != [] {
      Ping.PingTimesGrow(stream.pingSender.start, times, call.now);
    }
  }

  /**
   A stream over any run of calls. It sends the host pings 0, 1, 2, ... in order, each once; they are queued at the
   times of a ping sender that is told of every timeout and every datagram taken in, and of nothing else; and the
   events it returns are the first of the frames that the receiver has played in the timeouts and datagrams it got to
   see.
   */
  method Drive(start: nat, addr: nat, packetDuration: nat, fec: bool, ping: Option<Ping.PingPayload>, decryption: Decryption,
               calls: seq<DriverCall>)
    returns (sent: seq<Transmit>, taken: seq<AudioFrame>, ghost oks: seq<bool>, ghost hits: seq<nat>, ghost queuedAt: seq<nat>)
    ensures |oks| == |hits| == |calls| && queuedAt == Ping.PingTimes(start, AllTold(calls, addr, oks))
    ensures |sent| <= |queuedAt| && forall k | 0 <= k < |sent| :: sent[k] == Transmit(addr, Ping.PingBytes(ping, k))
    ensures taken <= Frames(PerformAll(Clocked(Buffers(0, map[], [], fec), start, true, []), decryption,
                                       packetDuration * 4 + 10_000_000, AllHeard(calls, addr, hits)).played)
  {
    var stream := new AudioStream(start, addr, packetDuration, fec, ping, decryption);
    sent, taken, oks, hits := [], [], [], [];
    hide Ping.PingBytes, Ping.Pings, Ping.PingTimes, Perform, PerformAll, AllHeard, AllTold, Heard, Told, Handle, Drain;
    ghost var s, wait := stream.State(), stream.maxSampleWait;
    NothingCalled(start, s, decryption, wait, addr);
    assert calls[..0] == [];
    for i := 0 to |calls|
      invariant stream.Valid() && stream.addr == addr && stream.pingSender.config == ping && stream.pingSender.start == start
      invariant stream.maxSampleWait == wait && stream.depayloader.decryption == decryption
      invariant fresh(stream) && fresh(stream.depayloader) && fresh(stream.pingSender)
      invariant |oks| == |hits| == i && stream.pingSender.queuedAt == Ping.PingTimes(start, AllTold(calls[..i], addr, oks))
      invariant stream.State() == PerformAll(s, decryption, wait, AllHeard(calls[..i], addr, hits))
      invariant |sent| == |stream.pingSender.polled|
      invariant forall k | 0 <= k < |sent| :: sent[k] == Transmit(addr, Ping.PingBytes(ping, k))
      invariant taken == stream.taken
    {
      assert calls[..i + 1] == calls[..i] + [calls[i]];
      var out, events, ok;
      ghost var hit;
      out, events, ok, hit := Make(stream, calls[i], AllTold(calls[..i], addr, oks));
      OneMoreTold(calls[..i], addr, oks, calls[i], ok);
      OneMoreHeard(calls[..i], addr, hits, calls[i], hit);
      PerformMore(s, decryption, wait, AllHeard(calls[..i], addr, hits), Heard(calls[i], addr, hit));
      sent, taken, oks, hits := sent + out, taken + events, oks + [ok], hits + [hit];
    }
    assert calls[..|calls|] == calls;
    queuedAt := stream.pingSender.queuedAt;
    assert stream.taken <= stream.taken + stream.events;
    stream.pingSender.NextIsNumbered();
  }
}
