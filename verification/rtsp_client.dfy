/**
 The RTSP client: one request at a time, each over its own connection, answered when the host closes it. How
 requests become bytes and bytes become replies is a parameter.
 */
module RtspClient {
  import opened Wrappers
  import opened Bytes

  datatype Phase = WaitForSendRequest | SendRequest | WaitResponse | Disconnected

  datatype RtspError = AlreadySending | NotEncoded | Undecodable | MissingSequenceNumber | OutOfOrder | Status(code: nat)

  datatype Decoded<R> = NotDecoded | Decoded(cseq: Option<nat>, status: nat, reply: R)

  /** Encoding may fail with the encryption. */
  datatype Codec<!Q, R> = Codec(encode: (nat, Q) -> Option<seq<Byte>>, decode: seq<Byte> -> Decoded<R>)

  datatype Output<R> = Connect | Write(data: seq<Byte>) | Timeout | Response(reply: Option<R>)

  datatype Outcome<+T, +E> = Done(value: T) | Err(error: E) | Panic

  datatype Rtsp<Q, R> = Rtsp(sequence: nat, phase: Phase, transmit: Option<Q>, expectResponse: bool, current: Option<R>, received: seq<Byte>)

  function Fresh<Q, R>(): Rtsp<Q, R> {
    Rtsp(1, WaitForSendRequest, None, false, None, [])
  }

  function Busy<Q, R>(r: Rtsp<Q, R>): bool {
    r.transmit.Some? || !r.phase.WaitForSendRequest?
  }

  function Queue<Q, R>(r: Rtsp<Q, R>, q: Q, expectResponse: bool): (Rtsp<Q, R>, Outcome<(), RtspError>) {
    if Busy(r) then (r, Err(AlreadySending)) else (r.(transmit := Some(q), expectResponse := expectResponse), Done(()))
  }

  function Receive<Q, R>(r: Rtsp<Q, R>, data: seq<Byte>): Rtsp<Q, R> {
    r.(received := r.received + data)
  }

  /** The host closed the connection: only now is the reply read, and only if one is expected. */
  function Disconnect<Q, R>(codec: Codec<Q, R>, r: Rtsp<Q, R>): (Rtsp<Q, R>, Outcome<(), RtspError>) {
    if !r.expectResponse then (r.(phase := Disconnected, received := []), Done(()))
    else
      var taken := r.(received := []);
      match codec.decode(r.received)
      case NotDecoded => (taken, Err(Undecodable))
      case Decoded(None, _, _) => (taken, Err(MissingSequenceNumber))
      case Decoded(Some(cseq), status, reply) =>
        if cseq != r.sequence then (taken, Err(OutOfOrder))
        else if status / 100 != 2 then (taken.(sequence := r.sequence + 1), Err(Status(status)))
        else (taken.(sequence := r.sequence + 1, phase := Disconnected, current := Some(reply)), Done(()))
  }

  /** A request whose encoding failed is gone, but the phase stays: the next poll finds nothing to send and panics. */
  function Poll<Q, R>(codec: Codec<Q, R>, r: Rtsp<Q, R>): (Rtsp<Q, R>, Outcome<Output<R>, RtspError>) {
    match r.phase
    case WaitForSendRequest => if r.transmit.Some? then (r.(phase := SendRequest), Done(Connect)) else (r, Done(Timeout))
    case SendRequest =>
      (if r.transmit.None? then (r, Panic)
       else
         match codec.encode(r.sequence, r.transmit.value)
         case None => (r.(transmit := None), Err(NotEncoded))
         case Some(data) => (r.(transmit := None, phase := WaitResponse, received := []), Done(Write(data))))
    case WaitResponse => (r, Done(Timeout))
    case Disconnected => (r.(phase := WaitForSendRequest, current := None), Done(Response(r.current)))
  }

  // ---------- replies ----------

  /** When the host closes the connection nothing is left of what was received, and a reply that is expected is taken
      exactly if it can be read, carries the number of the request and tells of success. The number goes up for every
      reply that carries it. */
  lemma ReplyIsTakenExactlyIf<Q, R>(codec: Codec<Q, R>, r: Rtsp<Q, R>)
    ensures
      var (t, result) := Disconnect(codec, r);
      var d := codec.decode(r.received);
      && t.received == [] && t.transmit == r.transmit && t.expectResponse == r.expectResponse
      && (result.Done? <==> !r.expectResponse || (d.Decoded? && d.cseq == Some(r.sequence) && 200 <= d.status < 300))
      && (result.Done? ==> t.phase.Disconnected? && t.current == if r.expectResponse then Some(d.reply) else r.current)
      && (!result.Done? ==> t.phase == r.phase && t.current == r.current)
      && t.sequence == r.sequence + if r.expectResponse && d.Decoded? && d.cseq == Some(r.sequence) then 1 else 0
  {
  }

  /** Which error a reply that is not taken brings. */
  lemma ReplyFailsAs<Q, R>(codec: Codec<Q, R>, r: Rtsp<Q, R>)
    ensures
      var result := Disconnect(codec, r).1;
      var d := codec.decode(r.received);
      && !result.Panic?
      && (r.expectResponse ==>
            && (result == Err(Undecodable) <==> d.NotDecoded?)
            && (result == Err(MissingSequenceNumber) <==> d.Decoded? && d.cseq.None?)
            && (result == Err(OutOfOrder) <==> d.Decoded? && d.cseq.Some? && d.cseq.value != r.sequence)
            && forall code :: result == Err(Status(code)) <==>
                 d.Decoded? && d.cseq == Some(r.sequence) && d.status == code && !(200 <= code < 300))
  {
  }

  /** What several receives amount to, whichever way the data was cut. */
  function ReceiveAll<Q, R>(r: Rtsp<Q, R>, chunks: seq<seq<Byte>>): Rtsp<Q, R>
    decreases |chunks|
  {
    if chunks == [] then r else ReceiveAll(Receive(r, chunks[0]), chunks[1..])
  }

  function Joined(chunks: seq<seq<Byte>>): seq<Byte> {
    if chunks == [] then [] else chunks[0] + Joined(chunks[1..])
  }

  lemma {:induction false} ChunksAreJoined<Q, R>(r: Rtsp<Q, R>, chunks: seq<seq<Byte>>)
    ensures ReceiveAll(r, chunks) == r.(received := r.received + Joined(chunks))
    decreases |chunks|
  {
    if chunks == [] {
      assert r.received + [] == r.received;
    } else {
      ChunksAreJoined(Receive(r, chunks[0]), chunks[1..]);
      assert r.received + chunks[0] + Joined(chunks[1..]) == r.received + (chunks[0] + Joined(chunks[1..]));
    }
  }

  /**
   One exchange, from rest to rest: the request goes out under the current number over a new connection, whatever was
   received before is forgotten, the reply may arrive in any pieces, and if it answers the request it is handed over
   once the host has closed the connection. The next request has the next number.
   */
  lemma OneExchange<Q, R>(codec: Codec<Q, R>, r: Rtsp<Q, R>, q: Q, chunks: seq<seq<Byte>>)
    requires r.phase.WaitForSendRequest? && r.transmit.None? && r.current.None?
    requires codec.encode(r.sequence, q).Some?
    requires var d := codec.decode(Joined(chunks)); d.Decoded? && d.cseq == Some(r.sequence) && 200 <= d.status < 300
    ensures
      var (queued, asked) := Queue(r, q, true);
      var (connecting, connect) := Poll(codec, queued);
      var (waiting, write) := Poll(codec, connecting);
      var (closed, read) := Disconnect(codec, ReceiveAll(waiting, chunks));
      var (done, response) := Poll(codec, closed);
      && asked == Done(()) && connect == Done(Connect)
      && write == Done(Write(codec.encode(r.sequence, q).value)) && Poll(codec, waiting) == (waiting, Done(Timeout))
      && read == Done(()) && response == Done(Response(Some(codec.decode(Joined(chunks)).reply)))
      && done == r.(sequence := r.sequence + 1, expectResponse := true, received := [])
  {
    var waiting := Poll(codec, Poll(codec, Queue(r, q, true).0).0).0;
    ChunksAreJoined(waiting, chunks);
    assert [] + Joined(chunks) == Joined(chunks);
  }

  class RtspClient<Q, R> {
    const codec: Codec<Q, R>
    var sequence: nat
    var phase: Phase
    var transmit: Option<Q>
    var expectResponse: bool
    var current: Option<R>
    var received: seq<Byte>

    ghost function Model(): Rtsp<Q, R>
      reads this
    {
      Rtsp(sequence, phase, transmit, expectResponse, current, received)
    }

    constructor (codec: Codec<Q, R>)
      ensures this.codec == codec && Model() == Fresh()
    {
      this.codec := codec;
      sequence, phase, transmit := 1, WaitForSendRequest, None;
      expectResponse, current, received := false, None, [];
    }

    method SendInner(q: Q) returns (r: Outcome<(), RtspError>)
      modifies this`transmit
      ensures r == if old(Busy(Model())) then Err(AlreadySending) else Done(())
      ensures transmit == if r.Done? then Some(q) else old(transmit)
    {
      if transmit.Some? || !phase.WaitForSendRequest? {
        return Err(AlreadySending);
      }
      transmit := Some(q);
      return Done(());
    }

    method Send(q: Q) returns (r: Outcome<(), RtspError>)
      modifies this
      ensures (Model(), r) == Queue(old(Model()), q, true)
    {
      r := SendInner(q);
      if r.Done? {
        expectResponse := true;
      }
    }

    method SendNoResponse(q: Q) returns (r: Outcome<(), RtspError>)
      modifies this
      ensures (Model(), r) == Queue(old(Model()), q, false)
    {
      r := SendInner(q);
      if r.Done? {
        expectResponse := false;
      }
    }

    method HandleReceive(data: seq<Byte>)
      modifies this
      ensures Model() == Receive(old(Model()), data)
    {
      received := received + data;
    }

    method HandleDisconnected() returns (r: Outcome<(), RtspError>)
      modifies this
      ensures (Model(), r) == Disconnect(codec, old(Model()))
    {
      if expectResponse {
        var raw := received;
        received := [];
        var decoded := codec.decode(raw);
        if decoded.NotDecoded? {
          return Err(Undecodable);
        }
        if decoded.cseq.None? {
          return Err(MissingSequenceNumber);
        }
        if decoded.cseq.value != sequence {
          return Err(OutOfOrder);
        }
        sequence := sequence + 1;
        if decoded.status / 100 != 2 {
          return Err(Status(decoded.status));
        }
        current := Some(decoded.reply);
      }
      phase := Disconnected;
      received := [];
      return Done(());
    }

    method PollOutput() returns (r: Outcome<Output<R>, RtspError>)
      modifies this
      ensures (Model(), r) == Poll(codec, old(Model()))
    {
      match phase {
        case WaitForSendRequest =>
          if transmit.Some? {
            phase := SendRequest;
            return Done(Connect);
          }
          return Done(Timeout);
        case SendRequest =>
          if transmit.None? {
            return Panic;
          }
          var request := transmit.value;
          transmit := None;
          var data := codec.encode(sequence, request);
          if data.None? {
            return Err(NotEncoded);
          }
          received := [];
          phase := WaitResponse;
          return Done(Write(data.value));
        case WaitResponse =>
          return Done(Timeout);
        case Disconnected =>
          phase := WaitForSendRequest;
          r := Done(Response(current));
          current := None;
      }
    }
  }
}
