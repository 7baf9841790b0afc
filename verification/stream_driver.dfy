/**
 The asynchronous UDP driver. A future created by `Drive` may be polled any number of times and dropped at any
 point; all that must survive is kept in the driver. What the socket, the timer and the stream's handlers do
 is chosen by the environment, one `Turn` for each pass through the loop.
 */
module StreamDriver {
  import opened Wrappers

  datatype Transmit = Transmit(destination: nat, data: seq<bv8>)

  /** What a handler of the stream does: it queues packets and events, and succeeds or fails. */
  datatype Reaction<E> = Reaction(transmits: seq<Transmit>, events: seq<E>, ok: bool)

  datatype SendResult = Sent | WouldBlock | SendError

  datatype RecvResult<E> = NothingReceived | Received(source: nat, data: seq<bv8>, reaction: Reaction<E>) | RecvError

  datatype Timer<E> = NoDeadline | NotYet(deadline: nat) | Elapsed(deadline: nat, reaction: Reaction<E>)

  datatype Turn<E> = Turn(writable: bool, sends: seq<SendResult>, recv: RecvResult<E>, timer: Timer<E>)

  datatype Poll<E> = Pending | Event(event: E) | Error

  datatype Step<E> = Again | Done(result: Poll<E>)

  /** What the stream is told: a datagram that arrived, or that its deadline is over. */
  datatype Heard = Datagram(source: nat, data: seq<bv8>) | DeadlineOver

  // ---------- what a pass does ----------

  /**
   The driver as it shows itself: the packets not sent yet, the one in the slot first; the events not delivered yet; and
   what was sent and what the stream was told so far.
   */
  datatype Progress<E> = Progress(queue: seq<Transmit>, events: seq<E>, sent: seq<Transmit>, heard: seq<Heard>)

  /** How many packets the socket takes before it first refuses one. */
  function Taken(sends: seq<SendResult>): (n: nat)
    ensures n <= |sends|
    ensures forall i | 0 <= i < n :: sends[i] == Sent
    ensures n < |sends| ==> sends[n] != Sent
  {
    if sends == [] || sends[0] != Sent then 0 else 1 + Taken(sends[1..])
  }

  /** How many of the waiting packets are sent. */
  function SentOf(queue: seq<Transmit>, writable: bool, sends: seq<SendResult>): (n: nat)
    ensures n <= |queue|
  {
    if !writable then 0 else if Taken(sends) < |queue| then Taken(sends) else |queue|
  }

  /** Sending fails if a packet is left and the socket answers it with an error. */
  predicate SendFails(queue: seq<Transmit>, writable: bool, sends: seq<SendResult>) {
    writable && Taken(sends) < |queue| && Taken(sends) < |sends| && sends[Taken(sends)] == SendError
  }

  function Written<E>(p: Progress<E>, writable: bool, sends: seq<SendResult>): Progress<E> {
    var n := SentOf(p.queue, writable, sends);
    p.(queue := p.queue[n..], sent := p.sent + p.queue[..n])
  }

  /** The stream is told something and reacts. */
  function Told<E>(p: Progress<E>, heard: Heard, reaction: Reaction<E>): Progress<E> {
    Progress(p.queue + reaction.transmits, p.events + reaction.events, p.sent, p.heard + [heard])
  }

  function Next<E>(ok: bool): Step<E> {
    if ok then Again else Done(Error)
  }

  /** What is written comes first, then an event that waits, then a datagram, then the deadline. */
  function AfterTurn<E>(p: Progress<E>, turn: Turn<E>): (Progress<E>, Step<E>) {
    var w := Written(p, turn.writable, turn.sends);
    if SendFails(p.queue, turn.writable, turn.sends) then (w, Done(Error))
    else if w.events != [] then (w.(events := w.events[1..]), Done(Event(w.events[0])))
    else if turn.recv.RecvError? then (w, Done(Error))
    else if turn.recv.Received? then
      (Told(w, Datagram(turn.recv.source, turn.recv.data), turn.recv.reaction), Next(turn.recv.reaction.ok))
    else if turn.timer.Elapsed? then (Told(w, DeadlineOver, turn.timer.reaction), Next(turn.timer.reaction.ok))
    else (w, Done(Pending))
  }

  function EventIn<E>(step: Step<E>): seq<E> {
    if step.Done? && step.result.Event? then [step.result.event] else []
  }

  /** Only a pass with nothing to deliver and nothing to read asks the stream for its deadline. */
  predicate LooksAtTimer<E>(p: Progress<E>, turn: Turn<E>) {
    && !SendFails(p.queue, turn.writable, turn.sends) && p.events == []
    && turn.recv.NothingReceived? && !turn.timer.NoDeadline?
  }

  /** A turn in which nothing is ready. */
  function Quiet<E>(): Turn<E> {
    Turn(false, [], NothingReceived, NoDeadline)
  }

  lemma QuietEnds<E>(p: Progress<E>)
    ensures AfterTurn(p, Quiet()).1.Done?
  {
  }

  /** The passes of one poll. */
  function AfterPoll<E>(p: Progress<E>, turns: seq<Turn<E>>): (Progress<E>, Poll<E>)
    decreases |turns|
  {
    if turns == [] then (AfterTurn(p, Quiet()).0, AfterTurn(p, Quiet()).1.result)
    else
      var (q, step) := AfterTurn(p, turns[0]);
      if step.Done? then (q, step.result) else AfterPoll(q, turns[1..])
  }

  // ---------- what follows for whole polls ----------

  /** What a turn has for the stream to hear: a datagram, or without one the end of the deadline. */
  predicate Speaks<E>(turn: Turn<E>) {
    turn.recv.Received? || (turn.recv.NothingReceived? && turn.timer.Elapsed?)
  }

  function ReactionTo<E>(turn: Turn<E>): Reaction<E>
    requires Speaks(turn)
  {
    if turn.recv.Received? then turn.recv.reaction else turn.timer.reaction
  }

  /** What the stream hears in a turn, and what it answers and raises then. */
  datatype Effects<E> = Effects(heard: seq<Heard>, answers: seq<Transmit>, raised: seq<E>)

  function EffectsOf<E>(turn: Turn<E>): Effects<E> {
    if !Speaks(turn) then Effects([], [], [])
    else
      Effects([if turn.recv.Received? then Datagram(turn.recv.source, turn.recv.data) else DeadlineOver],
              ReactionTo(turn).transmits, ReactionTo(turn).events)
  }

  function AllEffects<E>(turns: seq<Turn<E>>): Effects<E> {
    if turns == [] then Effects([], [], [])
    else
      var first, rest := EffectsOf(turns[0]), AllEffects(turns[1..]);
      Effects(first.heard + rest.heard, first.answers + rest.answers, first.raised + rest.raised)
  }

  function Delivered<E>(r: Poll<E>): seq<E> {
    if r.Event? then [r.event] else []
  }

  /**
   The stream has heard of the first m turns, each of which had something for it to hear and went well but perhaps the
   last. Packets sent and waiting are those from before and the answers to these turns, in order; and so are events,
   of which the poll has returned the first one if it returned any.
   */
  ghost predicate Balanced<E>(p: Progress<E>, q: Progress<E>, r: Poll<E>, turns: seq<Turn<E>>, m: nat) {
    && m <= |turns| && p.sent <= q.sent
    && (forall i | 0 <= i < m :: Speaks(turns[i]) && (i < m - 1 ==> ReactionTo(turns[i]).ok))
    && var effects := AllEffects(turns[..m]);
       && q.heard == p.heard + effects.heard
       && q.sent + q.queue == p.sent + p.queue + effects.answers
       && Delivered(r) + q.events == p.events + effects.raised
  }

  /** Why a poll ends after m turns were heard of: an event waits; nothing is ready; or something failed. */
  ghost predicate EndsFor<E>(p: Progress<E>, q: Progress<E>, r: Poll<E>, turns: seq<Turn<E>>, m: nat)
    requires m <= |turns|
  {
    && (p.events != [] ==> m == 0 && !r.Pending? && (r.Event? ==> r.event == p.events[0]))
    && match r
       case Event(_) => m == 0 || GoesWell(turns[m - 1])
       case Pending => q.events == [] && (m == |turns| || (turns[m].recv.NothingReceived? && !turns[m].timer.Elapsed?))
       case Error =>
         || (m > 0 && !GoesWell(turns[m - 1]))
         || (m < |turns| && (turns[m].recv.RecvError? || (turns[m].writable && SendError in turns[m].sends)))
  }

  ghost predicate Explained<E>(p: Progress<E>, q: Progress<E>, r: Poll<E>, turns: seq<Turn<E>>, m: nat) {
    Balanced(p, q, r, turns, m) && EndsFor(p, q, r, turns, m)
  }

  predicate GoesWell<E>(turn: Turn<E>) {
    Speaks(turn) && ReactionTo(turn).ok
  }

  lemma WritingKeepsPackets<E>(p: Progress<E>, turn: Turn<E>)
    ensures
      var w := Written(p, turn.writable, turn.sends);
      p.sent <= w.sent && w.sent + w.queue == p.sent + p.queue && w.events == p.events && w.heard == p.heard
  {
    hide SentOf;
    var n := SentOf(p.queue, turn.writable, turn.sends);
    assert p.queue == p.queue[..n] + p.queue[n..];
  }

  lemma NoEffects<E>(turns: seq<Turn<E>>)
    ensures AllEffects(turns[..0]) == Effects([], [], [])
  {
  }

  lemma FirstEffects<E>(turns: seq<Turn<E>>, m: nat)
    requires 0 < m <= |turns|
    ensures
      var first, rest := EffectsOf(turns[0]), AllEffects(turns[1..][..m - 1]);
      AllEffects(turns[..m]) == Effects(first.heard + rest.heard, first.answers + rest.answers, first.raised + rest.raised)
  {
    assert turns[..m][1..] == turns[1..][..m - 1];
  }

  /** The end of a poll: the turn that the stream hears of last, or the one in which the poll ends without it. */
  lemma LastTurn<E>(p: Progress<E>, turns: seq<Turn<E>>)
    requires turns != [] && AfterTurn(p, turns[0]).1.Done?
    ensures
      var (q, step) := AfterTurn(p, turns[0]);
      var m := if q.heard == p.heard then 0 else 1;
      Explained(p, q, step.result, turns, m)
  {
    hide Written, AllEffects;
    var turn := turns[0];
    NoEffects(turns);
    NoEffects(turns[1..]);
    FirstEffects(turns, 1);
    WritingKeepsPackets(p, turn);
    var w := Written(p, turn.writable, turn.sends);
    Regroup(w.sent, w.queue, EffectsOf(turn).answers);
    NothingAdded(p, turn);
  }

  lemma NothingAdded<E>(p: Progress<E>, turn: Turn<E>)
    ensures p.sent + p.queue + [] == p.sent + p.queue && p.events + [] == p.events && p.heard + [] == p.heard
    ensures EffectsOf(turn).answers + [] == EffectsOf(turn).answers && EffectsOf(turn).raised + [] == EffectsOf(turn).raised
    ensures EffectsOf(turn).heard + [] == EffectsOf(turn).heard
  {
    hide EffectsOf;
  }

  /** A turn after which the poll goes on: the stream has heard of it. */
  lemma AnotherTurn<E>(p: Progress<E>, turn: Turn<E>)
    requires AfterTurn(p, turn).1.Again?
    ensures
      var q, effects := AfterTurn(p, turn).0, EffectsOf(turn);
      && p.events == [] && GoesWell(turn) && p.sent <= q.sent
      && q.heard == p.heard + effects.heard && q.sent + q.queue == p.sent + p.queue + effects.answers && q.events == effects.raised
  {
    hide Written;
    WritingKeepsPackets(p, turn);
    var w := Written(p, turn.writable, turn.sends);
    Regroup(w.sent, w.queue, EffectsOf(turn).answers);
    assert [] + EffectsOf(turn).raised == EffectsOf(turn).raised;
  }

  lemma ChainExplained<E>(p: Progress<E>, q: Progress<E>, r: Progress<E>, result: Poll<E>, turns: seq<Turn<E>>, m: nat)
    requires turns != [] && AfterTurn(p, turns[0]) == (q, Again) && Explained(q, r, result, turns[1..], m)
    ensures Explained(p, r, result, turns, m + 1)
  {
    hide AfterTurn, AllEffects, EffectsOf;
    AnotherTurn(p, turns[0]);
    ChainBalanced(p, q, r, result, turns, m);
    assert forall i | 0 < i < |turns| :: turns[i] == turns[1..][i - 1];
    hide Balanced;
  }

  lemma ChainBalanced<E>(p: Progress<E>, q: Progress<E>, r: Progress<E>, result: Poll<E>, turns: seq<Turn<E>>, m: nat)
    requires turns != [] && AfterTurn(p, turns[0]) == (q, Again) && Balanced(q, r, result, turns[1..], m)
    ensures Balanced(p, r, result, turns, m + 1)
  {
    AnotherTurn(p, turns[0]);
    FirstEffects(turns, m + 1);
    hide AfterTurn, AllEffects, EffectsOf;
    var first, rest := EffectsOf(turns[0]), AllEffects(turns[1..][..m]);
    Regroup(p.sent + p.queue, first.answers, rest.answers);
    Regroup(p.heard, first.heard, rest.heard);
    assert p.events + (first.raised + rest.raised) == first.raised + rest.raised;
    assert forall i | 0 < i <= m :: turns[i] == turns[1..][i - 1];
  }

  /** Every poll, whatever the socket, the timer and the stream do, is told by how many turns the stream has heard of. */
  lemma {:induction false} PollIsExplained<E>(p: Progress<E>, turns: seq<Turn<E>>)
    ensures exists m: nat :: Explained(p, AfterPoll(p, turns).0, AfterPoll(p, turns).1, turns, m)
    decreases |turns|
  {
    hide AfterTurn, Explained;
    var (last, result) := AfterPoll(p, turns);
    if turns == [] {
      QuietPoll(p);
      assert Explained(p, last, result, turns, 0);
    } else {
      var (q, step) := AfterTurn(p, turns[0]);
      if step.Again? {
        PollIsExplained(q, turns[1..]);
        var m: nat :| Explained(q, last, result, turns[1..], m);
        ChainExplained(p, q, last, result, turns, m);
        var n: nat := m + 1;
        assert Explained(p, last, result, turns, n);
      } else {
        LastTurn(p, turns);
        assert (last, result) == (q, step.result);
        var m: nat := if q.heard == p.heard then 0 else 1;
        assert Explained(p, last, result, turns, m);
      }
    }
  }

  lemma QuietPoll<E>(p: Progress<E>)
    ensures
      var (q, r) := AfterPoll(p, []);
      Explained(p, q, r, [], 0)
  {
    NoEffects<E>([]);
    NothingAdded(p, Quiet());
  }

  /** If no event waits and sending does not fail, what the first turn brings is handed to the stream at once. */
  lemma FirstTurnIsHeard<E>(p: Progress<E>, turns: seq<Turn<E>>)
    requires turns != [] && Speaks(turns[0]) && p.events == [] && !SendFails(p.queue, turns[0].writable, turns[0].sends)
    ensures
      var q := AfterPoll(p, turns).0;
      |q.heard| > |p.heard|
      && q.heard[|p.heard|] == if turns[0].recv.Received? then Datagram(turns[0].recv.source, turns[0].recv.data) else DeadlineOver
  {
    hide Explained, SendFails;
    var q := AfterTurn(p, turns[0]).0;
    assert q.heard[|p.heard|] == if turns[0].recv.Received? then Datagram(turns[0].recv.source, turns[0].recv.data) else DeadlineOver;
    hide AfterTurn;
    PollIsExplained(q, turns[1..]);
    var (last, result) := AfterPoll(q, turns[1..]);
    var m: nat :| Explained(q, last, result, turns[1..], m);
    BalancedGrows(q, last, result, turns[1..], m);
  }

  lemma BalancedGrows<E>(p: Progress<E>, q: Progress<E>, r: Poll<E>, turns: seq<Turn<E>>, m: nat)
    requires Explained(p, q, r, turns, m)
    ensures p.sent <= q.sent && p.heard <= q.heard
  {
    hide AllEffects;
  }

  /** What waits is sent at once as far as the socket takes it, whatever comes after. */
  lemma FirstTurnSends<E>(p: Progress<E>, turns: seq<Turn<E>>)
    requires turns != []
    ensures p.sent + p.queue[..SentOf(p.queue, turns[0].writable, turns[0].sends)] <= AfterPoll(p, turns).0.sent
  {
    hide Explained, SendFails;
    var (q, step) := AfterTurn(p, turns[0]);
    PollIsExplained(q, turns[1..]);
    var (last, result) := AfterPoll(q, turns[1..]);
    var m: nat :| Explained(q, last, result, turns[1..], m);
    BalancedGrows(q, last, result, turns[1..], m);
  }

  /** The socket takes at least n packets in every turn. */
  predicate Willing<E>(turns: seq<Turn<E>>, n: nat) {
    forall i | 0 <= i < |turns| :: turns[i].writable && Taken(turns[i].sends) >= n
  }

  lemma WillingTurn<E>(p: Progress<E>, turn: Turn<E>)
    requires turn.writable && Taken(turn.sends) >= |p.queue|
    ensures
      var (q, step) := AfterTurn(p, turn);
      && (step.Again? ==> q.sent == p.sent + p.queue && q.queue == EffectsOf(turn).answers && (turn.recv.Received? || turn.timer.Elapsed?))
      && (step.Done? && step.result.Pending? ==> q.sent == p.sent + p.queue && q.queue == [])
  {
    hide Taken;
    assert [] + EffectsOf(turn).answers == EffectsOf(turn).answers;
  }

  /** A socket that takes everything: if the turns last until nothing is ready and the poll has to wait, everything has
      been sent, answers included. */
  lemma {:induction false} WillingSocketSendsAll<E>(p: Progress<E>, turns: seq<Turn<E>>)
    requires turns != [] && turns[|turns| - 1].recv.NothingReceived? && !turns[|turns| - 1].timer.Elapsed?
    requires Willing(turns, |p.queue| + |AllEffects(turns).answers|)
    requires AfterPoll(p, turns).1.Pending?
    ensures AfterPoll(p, turns).0.queue == []
    ensures p.sent + p.queue <= AfterPoll(p, turns).0.sent
    decreases |turns|
  {
    hide Taken, AfterTurn, EffectsOf;
    var (q, step) := AfterTurn(p, turns[0]);
    WillingTurn(p, turns[0]);
    if step.Again? {
      WillingSocketSendsAll(q, turns[1..]);
    }
  }

  function Slot(transmit: Option<Transmit>): seq<Transmit> {
    if transmit.Some? then [transmit.value] else []
  }

  /** The driven stream: queues of packets to send and of events to deliver. */
  class UdpStream<E> {
    var transmits: seq<Transmit>
    var events: seq<E>

    /** All packets and events ever queued, and those taken so far. */
    ghost var offered: seq<Transmit>
    ghost var pulled: seq<Transmit>
    ghost var raised: seq<E>
    ghost var delivered: seq<E>
    /** What the stream was told, and how many events were waiting each time. */
    ghost var heard: seq<Heard>
    ghost var waiting: seq<nat>

    ghost predicate Valid()
      reads this
    {
      pulled + transmits == offered && delivered + events == raised
    }

    constructor ()
      ensures Valid() && offered == [] && pulled == [] && raised == [] && delivered == [] && waiting == [] && heard == []
    {
      transmits, events := [], [];
      offered, pulled, raised, delivered, waiting, heard := [], [], [], [], [], [];
    }

    method PollTransmit() returns (r: Option<Transmit>)
      requires Valid()
      modifies this`transmits, this`pulled
      ensures Valid()
      ensures r.None? <==> old(transmits) == []
      ensures Slot(r) + transmits == old(transmits) && pulled == old(pulled) + Slot(r)
    {
      if transmits == [] {
        return None;
      }
      r := Some(transmits[0]);
      assert transmits == [transmits[0]] + transmits[1..];
      pulled := pulled + [transmits[0]];
      transmits := transmits[1..];
      assert pulled + transmits == old(pulled + transmits);
    }

    method PollEvent() returns (r: Option<E>)
      requires Valid()
      modifies this`events, this`delivered
      ensures Valid()
      ensures r == if old(events) == [] then None else Some(old(events)[0])
      ensures r.None? ==> events == [] && delivered == old(delivered)
      ensures r.Some? ==> delivered == old(delivered) + [r.value] && events == old(events)[1..]
    {
      if events == [] {
        return None;
      }
      r := Some(events[0]);
      delivered := delivered + [events[0]];
      events := events[1..];
      assert delivered + events == old(delivered + events);
    }

    /** A received datagram or an elapsed deadline. */
    method Handle(ghost told: Heard, reaction: Reaction<E>) returns (ok: bool)
      requires Valid()
      modifies this
      ensures Valid() && ok == reaction.ok
      ensures pulled == old(pulled) && delivered == old(delivered)
      ensures offered == old(offered) + reaction.transmits && raised == old(raised) + reaction.events
      ensures transmits == old(transmits) + reaction.transmits && events == old(events) + reaction.events
      ensures waiting == old(waiting) + [|old(events)|] && heard == old(heard) + [told]
    {
      heard := heard + [told];
      waiting := waiting + [|events|];
      transmits, offered := transmits + reaction.transmits, offered + reaction.transmits;
      events, raised := events + reaction.events, raised + reaction.events;
      ok := reaction.ok;
      assert pulled + transmits == old(pulled + transmits) + reaction.transmits;
      assert delivered + events == old(delivered + events) + reaction.events;
    }
  }

  class StreamDriver<E> {
    const inner: UdpStream<E>
    var transmit: Option<Transmit>

    /** The packets that the socket accepted. */
    ghost var sent: seq<Transmit>

    /** The packets taken from the stream and the handlers run before there was a driver. */
    ghost const before: seq<Transmit>
    ghost const earlier: nat

    /** No packet is lost, repeated or reordered, and no handler ran while an event was waiting. */
    ghost predicate Valid()
      reads this, inner
    {
      && inner.Valid()
      && before + sent + Slot(transmit) == inner.pulled
      && earlier <= |inner.waiting| && forall i :: earlier <= i < |inner.waiting| ==> inner.waiting[i] == 0
    }

    constructor (stream: UdpStream<E>)
      requires stream.Valid()
      ensures Valid() && inner == stream && sent == [] && transmit == None
      ensures before == stream.pulled && earlier == |stream.waiting|
    {
      inner, transmit, sent := stream, None, [];
      before, earlier := stream.pulled, |stream.waiting|;
    }

    /** A new future; making it changes nothing in the driver. */
    method Drive(deadline: nat) returns (future: DriveFuture<E>)
      requires Valid()
      ensures Valid() && fresh(future) && future.driver == this && future.oldDeadline == deadline
    {
      future := new DriveFuture(this, deadline);
    }

    /** The packets not sent yet. */
    ghost function Queue(): (queue: seq<Transmit>)
      reads this, inner
      ensures transmit.Some? ==> queue != []
    {
      Slot(transmit) + inner.transmits
    }

    ghost function State(): Progress<E>
      reads this, inner
    {
      Progress(Queue(), inner.events, sent, inner.heard)
    }

    /** Fills the slot if it is empty and sends until the socket refuses; tells whether sending failed. */
    method Write(writable: bool, sends: seq<SendResult>) returns (failed: bool)
      requires Valid()
      modifies this, inner`transmits, inner`pulled
      ensures Valid()
      ensures State() == Written(old(State()), writable, sends)
      ensures transmit.None? <==> Queue() == []
      ensures failed <==> SendFails(old(Queue()), writable, sends)
    {
      hide Taken, SentOf, SendFails;
      ghost var q := Queue();
      NothingIsSent(q, writable, sends);
      if transmit.None? {
        transmit := inner.PollTransmit();
        assert before + sent + Slot(transmit) == inner.pulled;
      }
      assert Queue() == q && State() == old(State());
      if transmit.Some? && writable {
        failed := SendWaiting(sends);
        return;
      }
      SplitOff(sent, q, sent, q);
      return false;
    }

    /** The socket has taken the packet in the slot; the next one follows. */
    method SendSlot()
      requires Valid() && transmit.Some?
      modifies this, inner`transmits, inner`pulled
      ensures Valid()
      ensures sent + Queue() == old(sent + Queue()) && |sent| == old(|sent|) + 1
      ensures transmit.None? <==> Queue() == []
    {
      Regroup(sent, [transmit.value], inner.transmits);
      Regroup(before, sent, [transmit.value]);
      sent := sent + [transmit.value];
      transmit := inner.PollTransmit();
    }

    /** Sends the packet in the slot and those behind it, until the socket refuses or none is left. */
    method SendWaiting(sends: seq<SendResult>) returns (failed: bool)
      requires Valid() && transmit.Some?
      modifies this, inner`transmits, inner`pulled
      ensures Valid()
      ensures State() == Written(old(State()), true, sends)
      ensures transmit.None? <==> Queue() == []
      ensures failed <==> SendFails(old(Queue()), true, sends)
    {
      hide Taken, SentOf, SendFails, Queue, Valid;
      ghost var q, start := Queue(), sent;
      var k := 0;
      failed := false;
      while true
        invariant Valid() && inner.events == old(inner.events) && inner.heard == old(inner.heard)
        invariant transmit.Some? && 0 <= k <= Taken(sends)
        invariant sent + Queue() == start + q && |sent| == |start| + k
        decreases |sends| - k
      {
        // An exhausted list of results stands for a socket that would block.
        var result := if k < |sends| then sends[k] else WouldBlock;
        match result {
          case WouldBlock =>
            break;
          case SendError =>
            failed := true;
            break;
          case Sent =>
            k := k + 1;
        }
        SendSlot();
        if transmit.None? {
          break;
        }
      }
      SplitOff(start, q, sent, Queue());
      SentIs(q, sends, k);
    }

    /** The next event, if one waits. */
    method TakeEvent() returns (event: Option<E>)
      requires Valid()
      modifies inner`events, inner`delivered
      ensures Valid()
      ensures event == if old(inner.events) == [] then None else Some(old(inner.events)[0])
      ensures State() == old(State()).(events := if event.None? then [] else old(inner.events)[1..])
      ensures inner.delivered == old(inner.delivered) + if event.Some? then [event.value] else []
    {
      event := inner.PollEvent();
    }

    /** Tells the stream of a datagram or of its deadline, when no event waits. */
    method Tell(ghost told: Heard, reaction: Reaction<E>) returns (ok: bool)
      requires Valid() && inner.events == []
      modifies inner
      ensures Valid() && State() == Told(old(State()), told, reaction) && ok == reaction.ok
      ensures inner.delivered == old(inner.delivered)
    {
      ghost var rest, slot := inner.transmits, Slot(transmit);
      ok := inner.Handle(told, reaction);
      assert slot + (rest + reaction.transmits) == slot + rest + reaction.transmits;
    }
  }

  lemma NothingIsSent(q: seq<Transmit>, writable: bool, sends: seq<SendResult>)
    ensures !writable || q == [] ==> SentOf(q, writable, sends) == 0 && !SendFails(q, writable, sends)
  {
  }

  /** Where sending stops: at the end of the queue, or at the first refusal. */
  lemma SentIs(q: seq<Transmit>, sends: seq<SendResult>, k: nat)
    requires k <= |q| && k <= Taken(sends) && (k == |q| || k == |sends| || sends[k] != Sent)
    ensures SentOf(q, true, sends) == k
    ensures SendFails(q, true, sends) <==> k < |q| && k < |sends| && sends[k] == SendError
  {
    hide Taken;
  }

  lemma Regroup<T>(a: seq<T>, b: seq<T>, c: seq<T>)
    ensures a + (b + c) == a + b + c
  {
  }

  /** Two ways to cut the same packets: what was sent beyond the start is the front of the queue. */
  lemma SplitOff<T>(start: seq<T>, q: seq<T>, sent: seq<T>, queue: seq<T>)
    requires sent + queue == start + q && |start| <= |sent|
    ensures var n := |sent| - |start|; n <= |q| && sent == start + q[..n] && queue == q[n..] && |queue| == |q| - n
  {
    var n := |sent| - |start|;
    assert |sent| + |queue| == |start| + |q|;
    assert sent == (sent + queue)[..|sent|] && queue == (sent + queue)[|sent|..];
    assert (start + q)[..|sent|] == start + q[..n] && (start + q)[|sent|..] == q[n..];
  }

  /** The future: it borrows the driver and remembers only the deadline its timer is set to. */
  class DriveFuture<E> {
    const driver: StreamDriver<E>
    var oldDeadline: nat

    constructor (driver: StreamDriver<E>, deadline: nat)
      ensures this.driver == driver && oldDeadline == deadline
    {
      this.driver, oldDeadline := driver, deadline;
    }

    /** One pass through the loop: write, deliver, read, look at the timer. */
    method Pass(turn: Turn<E>) returns (step: Step<E>)
      requires driver.Valid()
      modifies this, driver, driver.inner
      ensures driver.Valid()
      ensures (driver.State(), step) == AfterTurn(old(driver.State()), turn)
      ensures driver.inner.delivered == old(driver.inner.delivered) + EventIn(step)
      ensures step.Done? && step.result.Pending? ==> (driver.transmit.None? <==> driver.Queue() == [])
      ensures oldDeadline == if LooksAtTimer(old(driver.State()), turn) then turn.timer.deadline else old(oldDeadline)
    {
      hide SendFails, Written, Told, Taken, SentOf;
      ghost var p := driver.State();
      var failed := driver.Write(turn.writable, turn.sends);
      if failed {
        return Done(Error);
      }
      var event := driver.TakeEvent();
      if event.Some? {
        return Done(Event(event.value));
      }

      match turn.recv {
        case Received(source, data, reaction) =>
          var ok := driver.Tell(Datagram(source, data), reaction);
          return Next(ok);
        case RecvError =>
          return Done(Error);
        case NothingReceived =>
      }

      if !turn.timer.NoDeadline? {
        if oldDeadline != turn.timer.deadline {
          oldDeadline := turn.timer.deadline;
        }
        if turn.timer.Elapsed? {
          var ok := driver.Tell(DeadlineOver, turn.timer.reaction);
          return Next(ok);
        }
      }

      // Nothing was queued since the last look, so this one finds nothing either.
      event := driver.TakeEvent();
      assert event.None?;
      return Done(Pending);
    }

    /** One poll: as many passes as the stream reacts in. */
    method PollOnce(turns: seq<Turn<E>>) returns (r: Poll<E>)
      requires driver.Valid()
      modifies this, driver, driver.inner
      ensures driver.Valid()
      ensures (driver.State(), r) == AfterPoll(old(driver.State()), turns)
      ensures driver.inner.delivered == old(driver.inner.delivered) + if r.Event? then [r.event] else []
      ensures r.Pending? ==> (driver.transmit.None? <==> driver.Queue() == [])
    {
      hide AfterTurn;
      var n := 0;
      while true
        invariant driver.Valid() && 0 <= n <= |turns|
        invariant AfterPoll(driver.State(), turns[n..]) == AfterPoll(old(driver.State()), turns)
        invariant driver.inner.delivered == old(driver.inner.delivered)
        decreases |turns| - n
      {
        // When the environment has no more turns, nothing is ready.
        ghost var left := turns[n..];
        var turn := if n < |turns| then turns[n] else Quiet();
        ghost var p := driver.State();
        var step := Pass(turn);
        QuietEnds(p);
        if step.Done? {
          return step.result;
        }
        assert left[1..] == turns[n + 1..];
        n := n + 1;
      }
    }
  }
}
