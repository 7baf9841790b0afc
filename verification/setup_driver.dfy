/**
 Setups driven the way the drivers do it: received data and closed connections are passed on only while the setup has
 asked to wait. Such a setup never panics and never finds its RTSP client busy, and a host that answers every request
 gets it connected.
 */
module SetupDriver {
  import opened Wrappers
  import opened Bytes
  import R = RtspClient
  import opened StreamSetup
  import opened SetupRuns

  /** The request a state waits for an answer to. */
  ghost function RequestOf(s: Setup): Option<Request> {
    match s.state
    case RtspOptionsReceive => Some(Options)
    case RtspDescribeReceive => Some(Describe)
    case SetupAudio => Some(SetupAudioRequest)
    case SetupVideo => if s.session.Some? then Some(SetupVideoRequest(s.session.value)) else None
    case SetupFoundationMic => if s.session.Some? then Some(SetupMicRequest(s.session.value)) else None
    case SetupControl => if s.session.Some? then Some(SetupControlRequest(s.session.value)) else None
    case RtspAnnounceReceive => if s.session.Some? && s.sdp.Some? then Some(Announce(s.session.value, s.sdp.value)) else None
    case RtspPlayReceive => if s.session.Some? then Some(Play(s.session.value)) else None
    case _ => None
  }

  /** The request of the state is on its way, or the client is at rest because the state waits for nothing. */
  ghost predicate Tidy(config: Config, s: Setup) {
    && Sound(config, s)
    && if s.rtsp.phase.WaitForSendRequest? then s.rtsp.transmit == RequestOf(s)
       else RequestOf(s).Some? && s.rtsp.transmit == (if s.rtsp.phase.SendRequest? then RequestOf(s) else None)
  }

  ghost predicate GoesWell(config: Config, codec: Codec, s: Setup, t: Setup, r: Option<Outcome>) {
    match r
    case None => Tidy(config, t) && t.rtsp.phase.WaitForSendRequest?
    case Some(Panic) => false
    case Some(Err(e)) => e != FromRtsp(R.AlreadySending)
    case Some(Done(output)) =>
      && Tidy(config, t)
      && (output.Timeout? ==> t.rtsp.phase.WaitResponse?)
      && (output.TcpWrite? ==> s.rtsp.phase.SendRequest? && t.rtsp.phase.WaitResponse? && t.state == s.state && RequestOf(s).Some?
                               && codec.encode(s.rtsp.sequence, RequestOf(s).value) == Some(output.data))
  }

  lemma TidyReply(config: Config, codec: Codec, s: Setup, reply: Reply)
    requires Sound(config, s) && s.rtsp.phase.WaitForSendRequest? && s.rtsp.transmit.None?
    requires RequestOf(s).Some?
    ensures
      var (t, r) := OnReply(config, s, reply);
      GoesWell(config, codec, s, t, r) || (r.None? && t == s)
    ensures s.rtsp.expectResponse ==> OnReply(config, s, reply) != (s, None)
  {
  }

  lemma TidyIdle(config: Config, codec: Codec, s: Setup)
    requires Tidy(config, s) && s.rtsp.transmit.None? && (s.rtsp.phase.WaitForSendRequest? || s.rtsp.phase.WaitResponse?)
    ensures
      var (t, r) := OnIdle(config, s);
      GoesWell(config, codec, s, t, r)
  {
  }

  lemma TidyPass(config: Config, codec: Codec, s: Setup)
    requires Tidy(config, s)
    ensures
      var (t, r) := Pass(config, codec, s);
      GoesWell(config, codec, s, t, r)
  {
    hide OnReply, OnIdle;
    var (rtsp, r) := R.Poll(codec, s.rtsp);
    var t := s.(rtsp := rtsp);
    if r.Done? {
      match r.value
      case Response(Some(reply)) => TidyReply(config, codec, t, reply);
      case Timeout => TidyIdle(config, codec, t);
      case _ =>
    }
  }

  lemma {:induction false} TidyPoll(config: Config, codec: Codec, s: Setup)
    requires Tidy(config, s)
    ensures
      var (t, r) := Poll(config, codec, s);
      GoesWell(config, codec, s, t, Some(r))
    decreases PassesLeft(s)
  {
    hide Tidy, Pass;
    PassComesCloser(config, codec, s);
    TidyPass(config, codec, s);
    var (t, r) := Pass(config, codec, s);
    if r.None? {
      TidyPoll(config, codec, t);
    }
  }

  predicate FromNetwork(input: Input) {
    !input.TimePassed?
  }

  lemma TidyHandle(config: Config, codec: Codec, s: Setup, input: Input)
    requires Tidy(config, s)
    requires FromNetwork(input) ==> s.rtsp.phase.WaitResponse?
    ensures
      var (t, r) := Handle(codec, s, input);
      && Tidy(config, t) && !r.Panic?
      && (r.Err? ==> r.error != FromRtsp(R.AlreadySending))
      && (!input.TcpDisconnected? ==> t.rtsp.phase == s.rtsp.phase)
  {
  }

  // ---------- disciplined runs ----------

  /** Every call was made after calls that succeeded, and network input only came while the setup was listening. */
  ghost predicate Disciplined(config: Config, codec: Codec, now: Instant, calls: seq<Call>) {
    forall i | 0 <= i < |calls| ::
      var s := Run(config, codec, now, calls[..i]);
      s.failure.None? && (calls[i].InputCall? && FromNetwork(calls[i].input) ==> s.listening)
  }

  ghost predicate Well(config: Config, s: Session) {
    match s.failure
    case None => Tidy(config, s.setup) && (s.listening ==> s.setup.rtsp.phase.WaitResponse?)
    case Some(Failed(e)) => e != FromRtsp(R.AlreadySending)
    case Some(Panicked) => false
  }

  lemma StepGoesWell(config: Config, codec: Codec, s: Session, call: Call)
    requires s.failure.None? && Well(config, s)
    requires call.InputCall? && FromNetwork(call.input) ==> s.listening
    ensures Well(config, Step(config, codec, s, call))
  {
    hide Tidy, Poll, Handle;
    match call
    case PollCall => TidyPoll(config, codec, s.setup);
    case InputCall(input) =>
      TidyHandle(config, codec, s.setup, input);
      var (t, r) := Handle(codec, s.setup, input);
      assert Step(config, codec, s, call) == Session(t, s.log, s.listening && !input.TcpDisconnected?, FailureOf(r));
      match r {
        case Done(_) => assert FailureOf(r).None?;
        case Err(e) => assert FailureOf(r) == Some(Failed(e));
      }
  }

  /** Driven with discipline, a setup never panics, never finds the client busy, and only waits when it was asked something. */
  lemma {:induction false} DisciplinedSetupsGoWell(config: Config, codec: Codec, now: Instant, calls: seq<Call>)
    requires Disciplined(config, codec, now, calls)
    ensures Well(config, Run(config, codec, now, calls))
  {
    if calls != [] {
      var before := calls[..|calls| - 1];
      assert forall i | 0 <= i < |before| :: calls[..i] == before[..i];
      DisciplinedSetupsGoWell(config, codec, now, before);
      assert before == calls[..|calls| - 1];
      StepGoesWell(config, codec, Run(config, codec, now, before), calls[|calls| - 1]);
    }
  }

  // ---------- a host that answers ----------

  ghost predicate IsGood(reply: Reply, session: string) {
    reply.describe.Some? && reply.setup.Some? && reply.setup.value.session == session && reply.connectData.Some?
  }

  ghost predicate IsAnswer(codec: Codec, sequence: nat, answer: seq<Byte>, session: string) {
    && codec.decode(answer).Decoded?
    && codec.decode(answer).cseq == Some(sequence)
    && codec.decode(answer).status / 100 == 2
    && IsGood(codec.decode(answer).reply, session)
  }

  /** Every request can be encoded, and the host's answer to it can be read, carries its number and keeps one session. */
  ghost predicate Answers(codec: Codec, host: seq<Byte> -> seq<Byte>, session: string) {
    forall n, q :: codec.encode(n, q).Some? && IsAnswer(codec, n, host(codec.encode(n, q).value), session)
  }

  /** The driver's loop: poll, write requests to the host, and when asked to wait pass on the answer and the close. */
  ghost function Turn(config: Config, codec: Codec, host: seq<Byte> -> seq<Byte>, s: Session, pending: seq<Byte>): (Session, seq<Byte>) {
    var t := Step(config, codec, s, PollCall);
    if t.failure.Some? || t.log == [] then (t, pending)
    else
      match t.log[|t.log| - 1]
      case TcpWrite(data) => (t, host(data))
      case Timeout(at) =>
        (Step(config, codec, Step(config, codec, t, InputCall(TcpReceive(at, pending))), InputCall(TcpDisconnected(at))), pending)
      case _ => (t, pending)
  }

  ghost function Drive(config: Config, codec: Codec, host: seq<Byte> -> seq<Byte>, now: Instant, turns: nat): (Session, seq<Byte>) {
    if turns == 0 then (Session(New(now), [], false, None), [])
    else
      var (s, pending) := Drive(config, codec, host, now, turns - 1);
      Turn(config, codec, host, s, pending)
  }

  /** A setup that is being served: what was answered so far is good, and the answer to come is too. */
  ghost predicate Served(config: Config, codec: Codec, session: string, s: Setup, pending: seq<Byte>) {
    && Tidy(config, s)
    && (s.session.Some? ==> s.session.value == session)
    && (s.state.RtspSetupAudioReceive? ==> s.state.session == session)
    && (s.rtsp.phase.WaitResponse? ==> s.rtsp.received == [] && IsAnswer(codec, s.rtsp.sequence, pending, session))
    && (s.rtsp.current.Some? ==> IsGood(s.rtsp.current.value, session))
  }

  /** How far a setup is from being connected. */
  function Distance(s: Setup): nat {
    var phase := s.rtsp.phase;
    4 * (12 - Rank(s.state))
    + (if phase.WaitForSendRequest? then 3 else if phase.SendRequest? then 2 else if phase.WaitResponse? then 1 else 0)
  }

  /** What a poll of a setup that is being served does: never an error, and always a step closer unless it waits. */
  ghost predicate Progress(config: Config, codec: Codec, session: string, pending: seq<Byte>, s: Setup, t: Setup, r: Option<Outcome>) {
    match r
    case None => Served(config, codec, session, t, pending) && t.rtsp.phase.WaitForSendRequest? && Distance(t) < Distance(s)
    case Some(Done(TcpWrite(data))) =>
      && RequestOf(s).Some? && codec.encode(t.rtsp.sequence, RequestOf(s).value) == Some(data) && s.rtsp.phase.SendRequest?
      && (forall answer | IsAnswer(codec, t.rtsp.sequence, answer, session) :: Served(config, codec, session, t, answer))
      && Distance(t) < Distance(s)
    case Some(Done(Timeout(_))) => t == s && s.rtsp.phase.WaitResponse?
    case Some(Done(Connected(mic))) => Served(config, codec, session, t, pending) && mic == config.enableMic
    case Some(Done(_)) => Served(config, codec, session, t, pending) && Distance(t) < Distance(s)
    case _ => false
  }

  lemma ReplyServes(config: Config, codec: Codec, session: string, s: Setup, reply: Reply, pending: seq<Byte>)
    requires Sound(config, s) && s.rtsp.phase.WaitForSendRequest? && s.rtsp.transmit.None? && RequestOf(s).Some?
    requires s.session.Some? ==> s.session.value == session
    requires IsGood(reply, session) && s.rtsp.expectResponse
    ensures
      var (t, r) := OnReply(config, s, reply);
      && (r.Some? ==> r.value.Done? && Started(r.value.value) != [])
      && Served(config, codec, session, t, pending) && t.rtsp.phase.WaitForSendRequest? && Rank(t.state) > Rank(s.state)
  {
  }

  lemma IdleServes(config: Config, codec: Codec, session: string, s: Setup, pending: seq<Byte>)
    requires Served(config, codec, session, s, pending) && s.rtsp.transmit.None? && s.rtsp.phase.WaitForSendRequest?
    ensures
      var (t, r) := OnIdle(config, s);
      Progress(config, codec, session, pending, s, t, r)
  {
  }

  lemma ServedPass(config: Config, codec: Codec, session: string, s: Setup, pending: seq<Byte>)
    requires Served(config, codec, session, s, pending)
    requires forall n, q :: codec.encode(n, q).Some?
    ensures
      var (t, r) := Pass(config, codec, s);
      Progress(config, codec, session, pending, s, t, r)
  {
    hide OnReply;
    var (rtsp, r) := R.Poll(codec, s.rtsp);
    var t := s.(rtsp := rtsp);
    if s.rtsp.phase.WaitForSendRequest? && s.rtsp.transmit.None? {
      hide OnIdle;
      assert t == s;
      IdleServes(config, codec, session, s, pending);
    } else if s.rtsp.phase.Disconnected? && s.rtsp.current.Some? {
      ReplyServes(config, codec, session, t, s.rtsp.current.value, pending);
      var (u, q) := OnReply(config, t, s.rtsp.current.value);
      assert Pass(config, codec, s) == (u, q);
      assert Distance(u) < Distance(s);
    }
  }

  lemma {:induction false} ServedPoll(config: Config, codec: Codec, session: string, s: Setup, pending: seq<Byte>)
    requires Served(config, codec, session, s, pending)
    requires forall n, q :: codec.encode(n, q).Some?
    ensures
      var (t, r) := Poll(config, codec, s);
      Progress(config, codec, session, pending, s, t, Some(r))
    decreases PassesLeft(s)
  {
    hide Served, Pass, RequestOf;
    PassComesCloser(config, codec, s);
    ServedPass(config, codec, session, s, pending);
    var (t, r) := Pass(config, codec, s);
    if r.None? {
      ServedPoll(config, codec, session, t, pending);
    }
  }

  /** The answer arrives and the host closes the connection. */
  lemma AnswerServes(config: Config, codec: Codec, session: string, s: Setup, pending: seq<Byte>, at: Instant)
    requires Served(config, codec, session, s, pending) && s.rtsp.phase.WaitResponse?
    ensures
      var (t, r) := Handle(codec, s, TcpReceive(at, pending));
      var (u, q) := Handle(codec, t, TcpDisconnected(at));
      r.Done? && q.Done? && Served(config, codec, session, u, pending) && Distance(u) < Distance(s)
  {
    assert [] + pending == pending;
  }

  predicate WasConnected(config: Config, log: seq<Output>) {
    Connected(config.enableMic) in log
  }

  lemma TurnServes(config: Config, codec: Codec, host: seq<Byte> -> seq<Byte>, session: string, s: Session, pending: seq<Byte>)
    requires Answers(codec, host, session)
    requires s.failure.None? && Served(config, codec, session, s.setup, pending)
    ensures
      var (t, next) := Turn(config, codec, host, s, pending);
      && t.failure.None? && Served(config, codec, session, t.setup, next)
      && (WasConnected(config, s.log) ==> WasConnected(config, t.log))
      && (WasConnected(config, t.log) || Distance(t.setup) < Distance(s.setup))
  {
    hide Served, Handle, Poll, Distance, RequestOf, IsAnswer;
    assert forall n, q :: codec.encode(n, q).Some? by {
      assert forall n, q :: codec.encode(n, q).Some? && IsAnswer(codec, n, host(codec.encode(n, q).value), session);
    }
    ServedPoll(config, codec, session, s.setup, pending);
    var (t, r) := Poll(config, codec, s.setup);
    match r.value
    case Timeout(at) => AnswerServes(config, codec, session, s.setup, pending, at);
    case TcpWrite(data) => assert IsAnswer(codec, t.rtsp.sequence, host(codec.encode(t.rtsp.sequence, RequestOf(s.setup).value).value), session);
    case _ =>
  }

  lemma {:induction false} DriveServes(config: Config, codec: Codec, host: seq<Byte> -> seq<Byte>, session: string, now: Instant, turns: nat)
    requires Answers(codec, host, session)
    ensures
      var (s, pending) := Drive(config, codec, host, now, turns);
      && s.failure.None? && Served(config, codec, session, s.setup, pending)
      && (WasConnected(config, s.log) || Distance(s.setup) + turns <= 51)
  {
    hide Turn, Served;
    if turns == 0 {
      FreshIsServed(config, codec, session, now);
    } else {
      DriveServes(config, codec, host, session, now, turns - 1);
      var (s, pending) := Drive(config, codec, host, now, turns - 1);
      TurnServes(config, codec, host, session, s, pending);
    }
  }

  lemma FreshIsServed(config: Config, codec: Codec, session: string, now: Instant)
    ensures Served(config, codec, session, New(now), []) && Distance(New(now)) == 51
  {
  }

  /** Completeness: a host that answers every request of one session gets the setup connected, with no error on the way. */
  lemma AnsweringHostConnects(config: Config, codec: Codec, host: seq<Byte> -> seq<Byte>, session: string, now: Instant)
    requires Answers(codec, host, session)
    ensures
      var s := Drive(config, codec, host, now, 52).0;
      s.failure.None? && Connected(config.enableMic) in s.log
  {
    DriveServes(config, codec, host, session, now, 52);
  }

  // ---------- the panic does occur ----------

  /** What a driver does is a run. */
  lemma {:induction false} DriveIsRun(config: Config, codec: Codec, host: seq<Byte> -> seq<Byte>, now: Instant, turns: nat)
    ensures exists calls :: Run(config, codec, now, calls) == Drive(config, codec, host, now, turns).0
  {
    hide Step;
    if turns == 0 {
      assert Run(config, codec, now, []) == Session(New(now), [], false, None);
    } else {
      DriveIsRun(config, codec, host, now, turns - 1);
      var (s, pending) := Drive(config, codec, host, now, turns - 1);
      var calls :| Run(config, codec, now, calls) == s;
      OneMoreCall(config, codec, now, calls, PollCall);
      var t := Step(config, codec, s, PollCall);
      if t.failure.None? && t.log != [] && t.log[|t.log| - 1].Timeout? {
        var at := t.log[|t.log| - 1].at;
        OneMoreCall(config, codec, now, calls + [PollCall], InputCall(TcpReceive(at, pending)));
        OneMoreCall(config, codec, now, calls + [PollCall] + [InputCall(TcpReceive(at, pending))], InputCall(TcpDisconnected(at)));
      }
    }
  }

  lemma OneMoreCall(config: Config, codec: Codec, now: Instant, calls: seq<Call>, call: Call)
    ensures Run(config, codec, now, calls + [call]) == Step(config, codec, Run(config, codec, now, calls), call)
  {
    assert (calls + [call])[..|calls|] == calls;
  }

  /** An answering host, then a closed connection: the setup is connected, and panics. */
  lemma AnsweredThenClosedPanics(config: Config, codec: Codec, host: seq<Byte> -> seq<Byte>, session: string, now: Instant)
    requires Answers(codec, host, session)
    ensures
      exists calls ::
        var s := Run(config, codec, now, calls);
        Connected(config.enableMic) in s.log && s.failure == Some(Panicked)
  {
    hide Step, Drive, Sound, Starts, Running;
    AnsweringHostConnects(config, codec, host, session, now);
    DriveIsRun(config, codec, host, now, 52);
    var calls :| Run(config, codec, now, calls) == Drive(config, codec, host, now, 52).0;
    RunIsInOrder(config, codec, now, calls);
    var s := Run(config, codec, now, calls);
    assert s.setup.state.StateConnected?;
    ClosedWhenConnectedPanics(config, codec, now, calls, now);
    var close := InputCall(TcpDisconnected(now));
    assert calls + [close, PollCall] == calls + [close] + [PollCall];
    LogsGrow(config, codec, s, close);
    LogsGrow(config, codec, Step(config, codec, s, close), PollCall);
    OneMoreCall(config, codec, now, calls, close);
    OneMoreCall(config, codec, now, calls + [close], PollCall);
  }

  lemma LogsGrow(config: Config, codec: Codec, s: Session, call: Call)
    ensures forall x :: x in s.log ==> x in Step(config, codec, s, call).log
  {
    StepLogs(config, codec, s, call);
    hide Step;
    var t := Step(config, codec, s, call);
    forall x | x in s.log ensures x in t.log {
      assert t.log == s.log || x in t.log[..|s.log|];
    }
  }

  /** Hosts that answer can be had for every session. */
  lemma AnswersCanBeMet(session: string)
    ensures exists codec: Codec, host: seq<Byte> -> seq<Byte> :: Answers(codec, host, session)
  {
    var reply := Reply(Some(Sdp(false, false, false, 0)), Some(SetupReply(session, None)), Some(None));
    var codec: Codec := R.Codec((n, q) => Some(seq(n, _ => 0)), data => R.Decoded(Some(|data|), 200, reply));
    var host: seq<Byte> -> seq<Byte> := data => data;
    assert Answers(codec, host, session);
  }
}
