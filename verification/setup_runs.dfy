/**
 Whole setups. Every run: whatever the caller feeds in and whatever the host replies. Disciplined runs: network input
 only arrives while the setup waits for it. And a run against a host that answers every request.
 */
module SetupRuns {
  import opened Wrappers
  import opened Bytes
  import R = RtspClient
  import opened StreamSetup

  datatype Call = PollCall | InputCall(input: Input)

  datatype Failure = Failed(error: SetupError) | Panicked

  /**
   `log` holds everything poll returned. `listening` says that the last poll asked to wait and the connection was not
   closed since. `failure` is how the last call failed; a panic ends everything.
   */
  datatype Session = Session(setup: Setup, log: seq<Output>, listening: bool, failure: Option<Failure>)

  ghost function FailureOf<T>(r: R.Outcome<T, SetupError>): Option<Failure> {
    match r
    case Done(_) => None
    case Err(e) => Some(Failed(e))
    case Panic => Some(Panicked)
  }

  ghost function Step(config: Config, codec: Codec, s: Session, call: Call): Session {
    if s.failure == Some(Panicked) then s
    else
      match call
      case PollCall =>
        var (t, r) := Poll(config, codec, s.setup);
        Session(t, if r.Done? then s.log + [r.value] else s.log, r.Done? && r.value.Timeout?, FailureOf(r))
      case InputCall(input) =>
        var (t, r) := Handle(codec, s.setup, input);
        Session(t, s.log, s.listening && !input.TcpDisconnected?, FailureOf(r))
  }

  ghost function Run(config: Config, codec: Codec, now: Instant, calls: seq<Call>): Session {
    if calls == [] then Session(New(now), [], false, None)
    else Step(config, codec, Run(config, codec, now, calls[..|calls| - 1]), calls[|calls| - 1])
  }

  // ---------- the streams that were started ----------

  datatype Stream = Audio | Video | Microphone | Control

  function Started(output: Output): seq<Stream> {
    match output
    case StartAudioStream(_, _, _, _) => [Audio]
    case StartVideoStream(_, _) => [Video]
    case FoundationStartMic(_, _, _) => [Microphone]
    case StartControlStream(_, _, _, _) => [Control]
    case _ => []
  }

  function Starts(log: seq<Output>): seq<Stream> {
    if log == [] then [] else Starts(log[..|log| - 1]) + Started(log[|log| - 1])
  }

  /** The order the streams have to be started in. */
  function Order(config: Config): seq<Stream> {
    [Audio, Video] + (if config.enableMic then [Microphone] else []) + [Control]
  }

  function Rank(state: State): nat {
    match state
    case RtspOptionsReceive => 0
    case RtspDescribeReceive => 1
    case SetupAudio => 2
    case RtspSetupAudioReceive(_) => 3
    case SetupVideo => 4
    case RtspSetupVideoReceive => 5
    case SetupFoundationMic => 6
    case RtspSetupFoundationMicReceive => 7
    case SetupControl => 8
    case RtspSetupControlReceive => 9
    case RtspAnnounceReceive => 10
    case RtspPlayReceive => 11
    case StateConnected => 12
  }

  /** How many streams are running in a state. */
  function Running(config: Config, state: State): nat {
    var rank := Rank(state);
    if rank < 3 then 0
    else if rank < 5 then 1
    else if rank < 7 then 2
    else if rank < 9 then if config.enableMic then 3 else 2
    else |Order(config)|
  }

  /** What holds of the setup itself in every run. */
  ghost predicate Sound(config: Config, s: Setup) {
    && (Rank(s.state) >= 2 ==> s.sdp.Some?)
    && (s.session.Some? <==> Rank(s.state) >= 4)
    && (s.state.SetupFoundationMic? || s.state.RtspSetupFoundationMicReceive? ==> config.enableMic)
    && (s.microphone <==> config.enableMic && Rank(s.state) >= 7)
    && (s.rtsp.expectResponse <==> 0 < Rank(s.state) < 11)
    && (s.rtsp.current.Some? <==> s.rtsp.phase.Disconnected? && s.rtsp.expectResponse)
  }

  /** What one call does to a sound setup, whatever comes in. */
  ghost predicate Advances(config: Config, s: Setup, t: Setup, started: seq<Stream>) {
    && Sound(config, t)
    && Rank(s.state) <= Rank(t.state)
    && (s.session.Some? ==> t.session == s.session)
    && Running(config, s.state) + |started| == Running(config, t.state)
    && (started != [] ==> started == [Order(config)[Running(config, s.state)]])
  }

  ghost function StartedBy(r: Option<Outcome>): seq<Stream> {
    if r.Some? && r.value.Done? then Started(r.value.value) else []
  }

  /** A poll panics only without a request to send, or when told of a closed connection after everything was connected. */
  predicate WillPanic(s: Setup) {
    || (s.rtsp.phase.SendRequest? && s.rtsp.transmit.None?)
    || (s.rtsp.phase.Disconnected? && s.state.StateConnected?)
  }

  /** The result of a pass that did not panic. */
  ghost predicate Clean(config: Config, t: Setup, r: Option<Outcome>) {
    match r
    case None => !WillPanic(t)
    case Some(outcome) =>
      && !outcome.Panic?
      && (outcome.Done? && outcome.value.Connected? ==> t.state.StateConnected? && outcome.value.microphone == config.enableMic)
  }

  lemma AskIsClean(config: Config, s: Setup, q: Request, expectResponse: bool, next: State)
    requires !s.rtsp.phase.Disconnected?
    ensures
      var (t, r) := AskFor(s, q, expectResponse, next);
      && Clean(config, t, r) && StartedBy(r) == []
      && t == (if r.Some? then s else s.(state := next, rtsp := s.rtsp.(transmit := Some(q), expectResponse := expectResponse)))
  {
  }

  lemma OnReplyAdvances(config: Config, s: Setup, reply: Reply)
    requires Sound(config, s) && !s.rtsp.phase.Disconnected? && !s.rtsp.phase.SendRequest?
    ensures
      var (t, r) := OnReply(config, s, reply);
      Advances(config, s, t, StartedBy(r)) && Clean(config, t, r)
  {
    hide AskFor;
    match s.state
    case RtspDescribeReceive => AskIsClean(config, s.(sdp := reply.describe), SetupAudioRequest, true, SetupAudio);
    case RtspAnnounceReceive => AskIsClean(config, s, Play(s.session.value), false, RtspPlayReceive);
    case _ =>
  }

  lemma OnSilenceAdvances(config: Config, s: Setup)
    requires Sound(config, s) && !s.rtsp.phase.Disconnected? && !s.rtsp.phase.SendRequest?
    ensures
      var (t, r) := OnSilence(s);
      && Advances(config, s, t, StartedBy(r))
      && if Rank(s.state) == 0 || Rank(s.state) == 11 then Clean(config, t, r) else r == Some(R.Panic)
  {
  }

  lemma OnIdleAdvances(config: Config, s: Setup)
    requires Sound(config, s) && !s.rtsp.phase.Disconnected? && !s.rtsp.phase.SendRequest?
    ensures
      var (t, r) := OnIdle(config, s);
      Advances(config, s, t, StartedBy(r)) && Clean(config, t, r)
  {
    hide AskFor;
    match s.state
    case RtspSetupAudioReceive(session) => AskIsClean(config, s, SetupVideoRequest(session), true, SetupVideo);
    case RtspSetupVideoReceive =>
      AskIsClean(config, s, SetupMicRequest(s.session.value), true, SetupFoundationMic);
      AskIsClean(config, s, SetupControlRequest(s.session.value), true, SetupControl);
    case RtspSetupFoundationMicReceive => AskIsClean(config, s, SetupControlRequest(s.session.value), true, SetupControl);
    case RtspSetupControlReceive => AskIsClean(config, s, Announce(s.session.value, s.sdp.value), true, RtspAnnounceReceive);
    case _ =>
  }

  lemma PassAdvances(config: Config, codec: Codec, s: Setup)
    requires Sound(config, s)
    ensures
      var (t, r) := Pass(config, codec, s);
      && Advances(config, s, t, StartedBy(r))
      && if WillPanic(s) then r == Some(R.Panic) else Clean(config, t, r)
  {
    hide OnReply, OnSilence, OnIdle, Order;
    var (rtsp, r) := R.Poll(codec, s.rtsp);
    var t := s.(rtsp := rtsp);
    assert Sound(config, t);
    if r.Done? {
      match r.value
      case Response(Some(reply)) => OnReplyAdvances(config, t, reply);
      case Response(None) => OnSilenceAdvances(config, t);
      case Timeout => OnIdleAdvances(config, t);
      case _ =>
    }
  }

  lemma {:induction false} PollAdvances(config: Config, codec: Codec, s: Setup)
    requires Sound(config, s)
    ensures
      var (t, r) := Poll(config, codec, s);
      && Advances(config, s, t, StartedBy(Some(r)))
      && if WillPanic(s) then r.Panic? else Clean(config, t, Some(r))
    decreases PassesLeft(s)
  {
    hide Sound, Pass;
    PassComesCloser(config, codec, s);
    PassAdvances(config, codec, s);
    var (t, r) := Pass(config, codec, s);
    if r.None? {
      PollAdvances(config, codec, t);
    }
  }

  lemma HandleAdvances(config: Config, codec: Codec, s: Setup, input: Input)
    requires Sound(config, s)
    ensures Advances(config, s, Handle(codec, s, input).0, []) && !Handle(codec, s, input).1.Panic?
  {
  }

  // ---------- every run ----------

  ghost predicate InOrder(config: Config, s: Session) {
    && Sound(config, s.setup)
    && Starts(s.log) == Order(config)[..Running(config, s.setup.state)]
    && (forall i | 0 <= i < |s.log| && s.log[i].Connected? :: s.setup.state.StateConnected? && s.log[i].microphone == config.enableMic)
  }

  lemma OneMore(order: seq<Stream>, n: nat, started: seq<Stream>)
    requires n + |started| <= |order|
    requires started != [] ==> n < |order| && started == [order[n]]
    ensures order[..n] + started == order[..n + |started|]
  {
  }

  lemma StepKeepsInOrder(config: Config, codec: Codec, s: Session, call: Call)
    requires InOrder(config, s)
    ensures
      var t := Step(config, codec, s, call);
      && InOrder(config, t)
      && Rank(s.setup.state) <= Rank(t.setup.state)
      && (s.setup.session.Some? ==> t.setup.session == s.setup.session)
  {
    hide Sound, Poll, Handle, Rank;
    if s.failure != Some(Panicked) {
      match call
      case PollCall =>
        PollAdvances(config, codec, s.setup);
        var (t, r) := Poll(config, codec, s.setup);
        OneMore(Order(config), Running(config, s.setup.state), StartedBy(Some(r)));
        if r.Done? {
          assert (s.log + [r.value])[..|s.log|] == s.log;
        }
        StillConnected(s.setup.state, t.state);
      case InputCall(input) =>
        HandleAdvances(config, codec, s.setup, input);
        StillConnected(s.setup.state, Handle(codec, s.setup, input).0.state);
    }
  }

  lemma StillConnected(s: State, t: State)
    requires Rank(s) <= Rank(t)
    ensures s.StateConnected? ==> t.StateConnected?
  {
  }

  lemma {:induction false} RunIsInOrder(config: Config, codec: Codec, now: Instant, calls: seq<Call>)
    ensures InOrder(config, Run(config, codec, now, calls))
  {
    if calls != [] {
      RunIsInOrder(config, codec, now, calls[..|calls| - 1]);
      StepKeepsInOrder(config, codec, Run(config, codec, now, calls[..|calls| - 1]), calls[|calls| - 1]);
    }
  }

  /**
   The main theorem: in every run the streams start in their order, each at most once, and Connected is only reported
   once all of them were started, with the microphone exactly when it was asked for.
   */
  lemma StreamsStartInOrder(config: Config, codec: Codec, now: Instant, calls: seq<Call>)
    ensures
      var log := Run(config, codec, now, calls).log;
      && Starts(log) <= Order(config)
      && forall i | 0 <= i < |log| && log[i].Connected? :: Starts(log[..i]) == Order(config) && log[i].microphone == config.enableMic
  {
    RunIsInOrder(config, codec, now, calls);
    var s := Run(config, codec, now, calls);
    forall i | 0 <= i < |s.log| && s.log[i].Connected?
      ensures Starts(s.log[..i]) == Order(config)
    {
      ConnectedComesLast(config, codec, now, calls, i);
    }
  }

  lemma StepLogs(config: Config, codec: Codec, s: Session, call: Call)
    ensures
      var t := Step(config, codec, s, call);
      t.log == s.log || (|t.log| == |s.log| + 1 && t.log[..|s.log|] == s.log)
  {
    hide Poll, Handle;
  }

  lemma {:induction false} ConnectedComesLast(config: Config, codec: Codec, now: Instant, calls: seq<Call>, i: nat)
    requires i < |Run(config, codec, now, calls).log| && Run(config, codec, now, calls).log[i].Connected?
    ensures Starts(Run(config, codec, now, calls).log[..i]) == Order(config)
  {
    hide Step, Sound, Order, Starts, InOrder;
    var s := Run(config, codec, now, calls[..|calls| - 1]);
    StepLogs(config, codec, s, calls[|calls| - 1]);
    var t := Run(config, codec, now, calls);
    if i < |s.log| {
      ConnectedComesLast(config, codec, now, calls[..|calls| - 1], i);
      assert t.log[..i] == s.log[..i];
    } else {
      RunIsInOrder(config, codec, now, calls);
      LastIsConnected(config, t);
      assert t.log[..|t.log| - 1] == t.log[..i];
    }
  }

  lemma LastIsConnected(config: Config, s: Session)
    requires InOrder(config, s) && s.log != [] && s.log[|s.log| - 1].Connected?
    ensures Starts(s.log[..|s.log| - 1]) == Order(config)
  {
    hide Order, Sound, Running;
    AllRunning(config);
    StartsBefore(s.log);
    hide Starts;
    assert s.setup.state == StateConnected;
    assert Order(config)[..|Order(config)|] == Order(config);
  }

  lemma StartsBefore(log: seq<Output>)
    requires log != [] && log[|log| - 1].Connected?
    ensures Starts(log[..|log| - 1]) == Starts(log)
  {
  }

  lemma AllRunning(config: Config)
    ensures Running(config, StateConnected) == |Order(config)|
  {
  }

  /** In every run: a poll panics exactly under WillPanic. */
  lemma PanicsExactlyIf(config: Config, codec: Codec, now: Instant, calls: seq<Call>)
    ensures
      var s := Run(config, codec, now, calls).setup;
      Poll(config, codec, s).1.Panic? <==> WillPanic(s)
  {
    RunIsInOrder(config, codec, now, calls);
    PollAdvances(config, codec, Run(config, codec, now, calls).setup);
  }

  predicate RequestAtHand(s: Setup) {
    s.rtsp.phase.SendRequest? ==> s.rtsp.transmit.Some?
  }

  lemma {:induction false} PollKeepsRequestAtHand(config: Config, codec: Codec, s: Setup)
    requires forall n, q :: codec.encode(n, q).Some?
    requires RequestAtHand(s)
    ensures RequestAtHand(Poll(config, codec, s).0)
    decreases PassesLeft(s)
  {
    PassComesCloser(config, codec, s);
    var (t, r) := Pass(config, codec, s);
    assert RequestAtHand(t);
    hide Pass;
    if r.None? {
      PollKeepsRequestAtHand(config, codec, t);
    }
  }

  lemma {:induction false} RunKeepsRequestAtHand(config: Config, codec: Codec, now: Instant, calls: seq<Call>)
    requires forall n, q :: codec.encode(n, q).Some?
    ensures RequestAtHand(Run(config, codec, now, calls).setup)
  {
    hide Poll;
    if calls != [] {
      RunKeepsRequestAtHand(config, codec, now, calls[..|calls| - 1]);
      PollKeepsRequestAtHand(config, codec, Run(config, codec, now, calls[..|calls| - 1]).setup);
    }
  }

  /** While requests can be encoded: a poll panics exactly when a closed connection is reported after everything was connected. */
  lemma PanicsExactlyWhenConnectedAndClosed(config: Config, codec: Codec, now: Instant, calls: seq<Call>)
    requires forall n, q :: codec.encode(n, q).Some?
    ensures
      var s := Run(config, codec, now, calls).setup;
      Poll(config, codec, s).1.Panic? <==> s.state.StateConnected? && s.rtsp.phase.Disconnected?
  {
    PanicsExactlyIf(config, codec, now, calls);
    RunKeepsRequestAtHand(config, codec, now, calls);
  }

  /** Only a reply starts a stream, and it is read in the first pass of a poll. */
  lemma {:induction false} NoReplyNoStart(config: Config, codec: Codec, s: Setup)
    requires !s.rtsp.phase.Disconnected?
    ensures
      var (t, r) := Poll(config, codec, s);
      r.Done? ==> Started(r.value) == []
    decreases PassesLeft(s)
  {
    PassComesCloser(config, codec, s);
    var (t, r) := Pass(config, codec, s);
    if r.None? {
      NoReplyNoStart(config, codec, t);
    }
  }

  lemma PassKeepsTheAudioSession(config: Config, codec: Codec, s: Setup)
    requires s.state.RtspSetupAudioReceive? && s.session.None?
    ensures
      var (t, _) := Pass(config, codec, s);
      t.session == Some(s.state.session) || (t.session.None? && t.state == s.state)
  {
  }

  /** The session of the audio stream becomes the session of the setup. */
  lemma {:induction false} PollKeepsTheAudioSession(config: Config, codec: Codec, s: Setup)
    requires Sound(config, s) && s.state.RtspSetupAudioReceive?
    ensures
      var (t, _) := Poll(config, codec, s);
      t.session == Some(s.state.session) || (t.session.None? && t.state == s.state)
    decreases PassesLeft(s)
  {
    PassComesCloser(config, codec, s);
    PassAdvances(config, codec, s);
    PassKeepsTheAudioSession(config, codec, s);
    hide Pass;
    var (t, r) := Pass(config, codec, s);
    if r.None? {
      if t.session.None? {
        PollKeepsTheAudioSession(config, codec, t);
      } else {
        PollAdvances(config, codec, t);
      }
    }
  }

  /** Every stream after the audio stream is started by a reply of the audio stream's session. */
  lemma LaterStreamsShareTheSession(config: Config, codec: Codec, now: Instant, calls: seq<Call>)
    ensures
      var s := Run(config, codec, now, calls).setup;
      var (t, r) := Poll(config, codec, s);
      && (r.Done? && Started(r.value) != [] ==>
            && s.rtsp.current.Some? && s.rtsp.current.value.setup.Some?
            && var session := s.rtsp.current.value.setup.value.session;
               if r.value.StartAudioStream? then t.state == RtspSetupAudioReceive(session)
               else s.session == Some(session) && t.session == s.session)
      && (s.state.RtspSetupAudioReceive? ==> t.session == Some(s.state.session) || (t.session.None? && t.state == s.state))
      && (s.session.Some? ==> t.session == s.session)
  {
    RunIsInOrder(config, codec, now, calls);
    var s := Run(config, codec, now, calls).setup;
    if s.state.RtspSetupAudioReceive? {
      PollKeepsTheAudioSession(config, codec, s);
    }
    PollAdvances(config, codec, s);
    if s.rtsp.phase.Disconnected? {
      OnePassStarts(config, codec, s);
    } else {
      NoReplyNoStart(config, codec, s);
    }
  }

  lemma OnePassStarts(config: Config, codec: Codec, s: Setup)
    requires Sound(config, s) && s.rtsp.phase.Disconnected?
    ensures
      var (t, r) := Poll(config, codec, s);
      r.Done? && Started(r.value) != [] ==>
        && s.rtsp.current.Some? && s.rtsp.current.value.setup.Some?
        && var session := s.rtsp.current.value.setup.value.session;
           if r.value.StartAudioStream? then t.state == RtspSetupAudioReceive(session)
           else s.session == Some(session)
  {
    PassComesCloser(config, codec, s);
    var (t, r) := Pass(config, codec, s);
    if r.None? {
      assert !t.rtsp.phase.Disconnected?;
      NoReplyNoStart(config, codec, t);
    }
  }

  // ---------- the streams and the announced SDP ----------

  /** The version is a.b.c or a later one. */
  predicate From(v: Version, a: int, b: int, c: int) {
    v.major > a || (v.major == a && (v.minor > b || (v.minor == b && v.patch >= c)))
  }

  /** The stream was started with the settings of the SDP that is going to be announced. */
  ghost predicate Agrees(config: Config, sdp: Option<Sdp>, output: Output) {
    match output
    case StartAudioStream(_, encrypted, fec, _) =>
      sdp.Some? && encrypted == sdp.value.audioEncrypted && (fec <==> From(config.version, 7, 1, 415))
    case StartVideoStream(port, _) => sdp.Some? && port == sdp.value.videoPort
    case FoundationStartMic(_, encrypted, _) => sdp.Some? && encrypted == sdp.value.micEncrypted
    case StartControlStream(_, encryption, _, _) =>
      && sdp.Some?
      && (encryption.Unencrypted? <==> !From(config.version, 7, 1, 431))
      && (encryption.Sunshine? ==> sdp.value.controlV2)
      && (encryption.Nvidia? ==> !sdp.value.controlV2)
    case _ => true
  }

  ghost predicate AllAgree(config: Config, s: Session) {
    forall i | 0 <= i < |s.log| :: Agrees(config, s.setup.sdp, s.log[i])
  }

  /** The SDP is the one that the DESCRIBE reply gives; after that only the video port is filled in, when its stream
      starts. */
  ghost predicate KeepsSdp(s: Setup, t: Setup) {
    || t.sdp == s.sdp
    || (s.state.RtspDescribeReceive? && s.rtsp.current.Some? && s.rtsp.current.value.describe.Some?
        && t.sdp == s.rtsp.current.value.describe)
    || (s.state.SetupVideo? && s.sdp.Some? && t.sdp.Some? && t.sdp.value == s.sdp.value.(videoPort := t.sdp.value.videoPort))
  }

  lemma ReplyKeepsSdp(config: Config, s: Setup, reply: Reply)
    ensures
      var (t, r) := OnReply(config, s, reply);
      KeepsSdp(s.(rtsp := s.rtsp.(current := Some(reply))), t) && (r.Some? && r.value.Done? ==> Agrees(config, t.sdp, r.value.value))
  {
  }

  lemma PassKeepsSdp(config: Config, codec: Codec, s: Setup)
    ensures
      var (t, r) := Pass(config, codec, s);
      && KeepsSdp(s, t) && (r.Some? && r.value.Done? ==> Agrees(config, t.sdp, r.value.value))
      && (!s.rtsp.phase.Disconnected? ==> t.sdp == s.sdp)
      && (r.None? ==> !t.rtsp.phase.Disconnected?)
  {
    PassComesCloser(config, codec, s);
    if s.rtsp.phase.Disconnected? && s.rtsp.current.Some? {
      ReplyKeepsSdp(config, s.(rtsp := R.Poll(codec, s.rtsp).0), s.rtsp.current.value);
      hide OnReply;
    }
  }

  lemma {:induction false} PollKeepsSdp(config: Config, codec: Codec, s: Setup)
    ensures
      var (t, r) := Poll(config, codec, s);
      KeepsSdp(s, t) && (r.Done? ==> Agrees(config, t.sdp, r.value))
      && (!s.rtsp.phase.Disconnected? ==> t.sdp == s.sdp)
    decreases PassesLeft(s)
  {
    hide Pass, Agrees;
    PassComesCloser(config, codec, s);
    PassKeepsSdp(config, codec, s);
    var (t, r) := Pass(config, codec, s);
    if r.None? {
      PollKeepsSdp(config, codec, t);
    }
  }

  lemma {:induction false} StartIsListed(log: seq<Output>, i: nat)
    requires i < |log| && Started(log[i]) != []
    ensures Started(log[i])[0] in Starts(log)
    decreases |log|
  {
    if i < |log| - 1 {
      StartIsListed(log[..|log| - 1], i);
    }
  }

  /** What was started before still agrees with the SDP after a call. */
  lemma StillAgrees(config: Config, s: Session, t: Setup, i: nat)
    requires InOrder(config, s) && KeepsSdp(s.setup, t)
    requires i < |s.log| && Agrees(config, s.setup.sdp, s.log[i])
    ensures Agrees(config, t.sdp, s.log[i])
  {
    if Started(s.log[i]) != [] {
      StartIsListed(s.log, i);
      assert s.setup.state.SetupVideo? ==> Starts(s.log) == [Audio];
    }
  }

  /** In every run all streams that were started agree with the SDP, so the SDP announced in the end names them as they are. */
  lemma {:induction false} StreamsAgreeWithTheSdp(config: Config, codec: Codec, now: Instant, calls: seq<Call>)
    ensures AllAgree(config, Run(config, codec, now, calls))
  {
    hide Poll, Agrees, KeepsSdp, InOrder;
    if calls != [] {
      var before := calls[..|calls| - 1];
      StreamsAgreeWithTheSdp(config, codec, now, before);
      RunIsInOrder(config, codec, now, before);
      var s := Run(config, codec, now, before);
      PollKeepsSdp(config, codec, s.setup);
      var t := Poll(config, codec, s.setup).0;
      forall i | 0 <= i < |s.log| ensures Agrees(config, t.sdp, s.log[i]) {
        StillAgrees(config, s, t, i);
      }
    }
  }

  /** In every run the SDP is what the reply to DESCRIBE gave, but for the video port, which the reply that starts the
      video stream fills in. */
  lemma SdpComesFromDescribe(config: Config, codec: Codec, now: Instant, calls: seq<Call>)
    ensures
      var s := Run(config, codec, now, calls).setup;
      var t := Poll(config, codec, s).0;
      && (s.sdp.None? && t.sdp.Some? ==> s.state.RtspDescribeReceive? && s.rtsp.current.Some? && t.sdp == s.rtsp.current.value.describe)
      && (s.sdp.Some? && !s.state.RtspDescribeReceive? ==>
            t.sdp.Some? && t.sdp.value == s.sdp.value.(videoPort := if s.state.SetupVideo? then t.sdp.value.videoPort else s.sdp.value.videoPort))
      && forall input :: Handle(codec, s, input).0.sdp == s.sdp
  {
    hide Run, Poll;
    PollKeepsSdp(config, codec, Run(config, codec, now, calls).setup);
  }

  // ---------- the streams and the replies that started them ----------

  /** The reply at hand lets a stream be started on the port. */
  ghost predicate Offers(s: Setup, port: nat, otherwise: nat) {
    && s.rtsp.current.Some? && s.rtsp.current.value.setup.Some?
    && port == match s.rtsp.current.value.setup.value.port
               case Some(named) => named
               case None => otherwise
  }

  /** A stream is started on the port that the reply at hand names, or on the default one, and at the time the setup
      was told last; the control stream gets the reply's connect data. A wait is for a second. */
  ghost predicate AsReplied(s: Setup, output: Output) {
    match output
    case StartAudioStream(port, _, _, at) => Offers(s, port, 48000) && at == s.now
    case StartVideoStream(port, at) => Offers(s, port, 47998) && at == s.now
    case FoundationStartMic(port, _, at) => Offers(s, port, 47996) && at == s.now
    case StartControlStream(port, _, connectData, at) =>
      Offers(s, port, 47998) && s.rtsp.current.value.connectData == Some(connectData) && at == s.now
    case Timeout(at) => at == s.now + 1000
    case _ => true
  }

  /** What comes of a reply, a silence or a rest changes neither the clock nor what the RTSP client has read. */
  ghost predicate KeepsReading(s: Setup, t: Setup, r: Option<Outcome>) {
    && t.now == s.now && t.rtsp.received == s.rtsp.received && t.rtsp.sequence == s.rtsp.sequence
    && t.rtsp.current == s.rtsp.current
    && (r.Some? && r.value.Done? ==> !r.value.value.TcpWrite?)
  }

  lemma ReplyIsAsReplied(config: Config, s: Setup, reply: Reply)
    ensures
      var (t, r) := OnReply(config, s, reply);
      && KeepsReading(s, t, r)
      && (r.Some? && r.value.Done? ==> AsReplied(s.(rtsp := s.rtsp.(current := Some(reply))), r.value.value))
  {
  }

  lemma SilenceIsAsReplied(config: Config, s: Setup)
    ensures
      var (t, r) := OnSilence(s);
      KeepsReading(s, t, r) && (r.Some? ==> !r.value.Done?)
  {
  }

  lemma IdleIsAsReplied(config: Config, s: Setup)
    ensures
      var (t, r) := OnIdle(config, s);
      KeepsReading(s, t, r) && (r.Some? && r.value.Done? ==> AsReplied(s, r.value.value))
  {
  }

  lemma PassIsAsReplied(config: Config, codec: Codec, s: Setup)
    ensures
      var (t, r) := Pass(config, codec, s);
      && t.now == s.now && t.rtsp.sequence == s.rtsp.sequence
      && t.rtsp.received == (if r.Some? && r.value.Done? && r.value.value.TcpWrite? then [] else s.rtsp.received)
      && (r.Some? && r.value.Done? ==> AsReplied(s, r.value.value))
    ensures (s.rtsp.current.Some? ==> s.rtsp.phase.Disconnected?) ==> Pass(config, codec, s).0.rtsp.current.None?
  {
    hide OnReply, OnSilence, OnIdle, AsReplied;
    var t := s.(rtsp := R.Poll(codec, s.rtsp).0);
    if s.rtsp.phase.Disconnected? {
      if s.rtsp.current.Some? {
        ReplyIsAsReplied(config, t, s.rtsp.current.value);
        var u := t.(rtsp := t.rtsp.(current := Some(s.rtsp.current.value)));
        SameReply(s, u);
        var r := OnReply(config, t, s.rtsp.current.value).1;
        assert r.Some? && r.value.Done? ==> AsReplied(u, r.value.value);
      } else {
        SilenceIsAsReplied(config, t);
      }
    } else {
      IdleIsAsReplied(config, t);
      NetworkIsAsReplied(s);
    }
  }

  lemma NetworkIsAsReplied(s: Setup)
    ensures AsReplied(s, TcpConnect) && forall data :: AsReplied(s, TcpWrite(data))
  {
  }

  lemma SameReply(s: Setup, t: Setup)
    requires s.rtsp.current == t.rtsp.current && s.now == t.now
    ensures forall output | AsReplied(t, output) :: AsReplied(s, output)
  {
  }

  /** A wait asked for after the first pass of a poll is for a second from the same time. */
  lemma AlsoAsReplied(s: Setup, t: Setup, output: Output)
    requires AsReplied(t, output) && Started(output) == [] && t.now == s.now
    ensures AsReplied(s, output)
  {
  }

  lemma {:induction false} PollIsAsReplied(config: Config, codec: Codec, s: Setup)
    ensures
      var (t, r) := Poll(config, codec, s);
      && t.now == s.now
      && (r.Done? ==> AsReplied(s, r.value))
    decreases PassesLeft(s)
  {
    hide Pass, AsReplied;
    PassComesCloser(config, codec, s);
    PassIsAsReplied(config, codec, s);
    var (t, r) := Pass(config, codec, s);
    if r.None? {
      PollIsAsReplied(config, codec, t);
      NoReplyNoStart(config, codec, t);
      var last := Poll(config, codec, t).1;
      if last.Done? {
        AlsoAsReplied(s, t, last.value);
      }
    }
  }

  /** The last time that the setup was told. */
  function LastTold(now: Instant, calls: seq<Call>): Instant {
    if calls == [] then now
    else
      var call := calls[|calls| - 1];
      if call.InputCall? then call.input.now else LastTold(now, calls[..|calls| - 1])
  }

  lemma {:induction false} ClockIsLastTold(config: Config, codec: Codec, now: Instant, calls: seq<Call>)
    ensures
      var s := Run(config, codec, now, calls);
      s.failure != Some(Panicked) ==> s.setup.now == LastTold(now, calls)
  {
    hide Poll;
    if calls != [] {
      var before := calls[..|calls| - 1];
      ClockIsLastTold(config, codec, now, before);
      PollIsAsReplied(config, codec, Run(config, codec, now, before).setup);
    }
  }

  /** The k-th call of a run is a poll that returned the output. */
  ghost predicate ReturnedBy(config: Config, codec: Codec, now: Instant, calls: seq<Call>, k: nat, output: Output)
    requires k < |calls|
  {
    var s := Run(config, codec, now, calls[..k]);
    calls[k].PollCall? && s.failure != Some(Panicked) && Poll(config, codec, s.setup).1 == R.Done(output)
  }

  lemma {:induction false} OutputsAreReturned(config: Config, codec: Codec, now: Instant, calls: seq<Call>, i: nat)
    requires i < |Run(config, codec, now, calls).log|
    ensures
      var log := Run(config, codec, now, calls).log;
      exists k | 0 <= k < |calls| ::
        ReturnedBy(config, codec, now, calls, k, log[i]) && Run(config, codec, now, calls[..k]).log == log[..i]
    decreases |calls|
  {
    hide Poll, Handle;
    var n := |calls| - 1;
    var before := calls[..n];
    var s, log := Run(config, codec, now, before), Run(config, codec, now, calls).log;
    StepLogs(config, codec, s, calls[n]);
    if i < |s.log| {
      OutputsAreReturned(config, codec, now, before, i);
      var k :| 0 <= k < n && ReturnedBy(config, codec, now, before, k, s.log[i])
               && Run(config, codec, now, before[..k]).log == s.log[..i];
      assert calls[..k] == before[..k] && calls[k] == before[k];
      assert log[..i] == s.log[..i];
      assert ReturnedBy(config, codec, now, calls, k, log[i]);
    } else {
      assert log[..i] == s.log;
      assert ReturnedBy(config, codec, now, calls, n, log[i]);
    }
  }

  /**
   In every run, each stream is started by a poll with the reply at hand: on its port, or on 48000 for audio, 47998 for
   video and control and 47996 for the microphone if it names none, with its connect data, and with the last time told
   before.
   */
  lemma StreamsStartAsReplied(config: Config, codec: Codec, now: Instant, calls: seq<Call>, i: nat)
    requires i < |Run(config, codec, now, calls).log|
    ensures
      var log := Run(config, codec, now, calls).log;
      exists k | 0 <= k < |calls| ::
        && ReturnedBy(config, codec, now, calls, k, log[i]) && Run(config, codec, now, calls[..k]).log == log[..i]
        && AsReplied(Run(config, codec, now, calls[..k]).setup, log[i])
        && Run(config, codec, now, calls[..k]).setup.now == LastTold(now, calls[..k])
  {
    hide Run, Poll, AsReplied;
    OutputsAreReturned(config, codec, now, calls, i);
    var log := Run(config, codec, now, calls).log;
    var k :| 0 <= k < |calls| && ReturnedBy(config, codec, now, calls, k, log[i]) && Run(config, codec, now, calls[..k]).log == log[..i];
    ClockIsLastTold(config, codec, now, calls[..k]);
    PollIsAsReplied(config, codec, Run(config, codec, now, calls[..k]).setup);
  }

  // ---------- where the reply at hand comes from ----------

  /** What has been received since the last request was written, or the connection was last closed. */
  ghost function Inbox(config: Config, codec: Codec, now: Instant, calls: seq<Call>): seq<Byte> {
    if calls == [] then []
    else
      var before, call := calls[..|calls| - 1], calls[|calls| - 1];
      match call
      case PollCall =>
        var r := Poll(config, codec, Run(config, codec, now, before).setup).1;
        if r.Done? && r.value.TcpWrite? then [] else Inbox(config, codec, now, before)
      case InputCall(TcpReceive(_, data)) => Inbox(config, codec, now, before) + data
      case InputCall(TcpDisconnected(_)) => []
      case InputCall(TimePassed(_)) => Inbox(config, codec, now, before)
  }

  /** The number that the answer to the request in hand has to carry: one more than answers that carried theirs. */
  ghost function Expected(config: Config, codec: Codec, now: Instant, calls: seq<Call>): nat {
    if calls == [] then 1
    else
      var before, call := calls[..|calls| - 1], calls[|calls| - 1];
      var n := Expected(config, codec, now, before);
      if call.InputCall? && call.input.TcpDisconnected? && Run(config, codec, now, before).setup.rtsp.expectResponse
         && Numbered(codec.decode(Inbox(config, codec, now, before)), n)
      then n + 1 else n
  }

  predicate Numbered(d: R.Decoded<Reply>, n: nat) {
    d.Decoded? && d.cseq == Some(n)
  }

  lemma {:induction false} PollKeepsInbox(config: Config, codec: Codec, s: Setup)
    ensures
      var (t, r) := Poll(config, codec, s);
      && t.rtsp.received == (if r.Done? && r.value.TcpWrite? then [] else s.rtsp.received)
      && t.rtsp.sequence == s.rtsp.sequence
    decreases PassesLeft(s)
  {
    hide Pass;
    PassComesCloser(config, codec, s);
    PassIsAsReplied(config, codec, s);
    var (t, r) := Pass(config, codec, s);
    if r.None? {
      PollKeepsInbox(config, codec, t);
    }
  }

  lemma HandleKeepsInbox(codec: Codec, s: Setup, input: Input)
    ensures
      var t := Handle(codec, s, input).0;
      && t.rtsp.received == (match input
                             case TimePassed(_) => s.rtsp.received
                             case TcpReceive(_, data) => s.rtsp.received + data
                             case TcpDisconnected(_) => [])
      && t.rtsp.sequence == s.rtsp.sequence + if input.TcpDisconnected? && s.rtsp.expectResponse
                                                 && Numbered(codec.decode(s.rtsp.received), s.rtsp.sequence) then 1 else 0
  {
  }

  lemma {:induction false} InboxIsReceived(config: Config, codec: Codec, now: Instant, calls: seq<Call>)
    ensures
      var s := Run(config, codec, now, calls);
      s.failure != Some(Panicked) ==>
        && s.setup.rtsp.received == Inbox(config, codec, now, calls)
        && s.setup.rtsp.sequence == Expected(config, codec, now, calls)
  {
    hide Poll, Handle, Numbered;
    if calls != [] {
      var before := calls[..|calls| - 1];
      var s := Run(config, codec, now, before).setup;
      InboxIsReceived(config, codec, now, before);
      PollKeepsInbox(config, codec, s);
      if calls[|calls| - 1].InputCall? {
        HandleKeepsInbox(codec, s, calls[|calls| - 1].input);
      }
    }
  }

  /** The reply was read when the connection was closed by the j-th call: out of all that had been received, with the
      number expected and a status of success; and it has not been handed over since. */
  ghost predicate ReadBy(config: Config, codec: Codec, now: Instant, calls: seq<Call>, j: nat, reply: Reply)
    requires j < |calls|
  {
    var d := codec.decode(Inbox(config, codec, now, calls[..j]));
    && calls[j].InputCall? && calls[j].input.TcpDisconnected?
    && Numbered(d, Expected(config, codec, now, calls[..j])) && 200 <= d.status < 300 && d.reply == reply
    && forall i | j < i < |calls| :: calls[i].InputCall?
  }

  lemma StillRead(config: Config, codec: Codec, now: Instant, before: seq<Call>, call: Call, j: nat, reply: Reply)
    requires j < |before| && ReadBy(config, codec, now, before, j, reply) && call.InputCall?
    ensures ReadBy(config, codec, now, before + [call], j, reply)
  {
    hide Inbox, Expected, Numbered;
    var calls := before + [call];
    assert calls[..j] == before[..j];
    assert forall i | 0 <= i < |before| :: calls[i] == before[i];
  }

  lemma SoundReply(config: Config, s: Setup)
    requires Sound(config, s)
    ensures s.rtsp.current.Some? ==> s.rtsp.phase.Disconnected?
  {
  }

  lemma {:induction false} ReplyAtHandWasRead(config: Config, codec: Codec, now: Instant, calls: seq<Call>)
    requires Run(config, codec, now, calls).failure != Some(Panicked)
    requires Run(config, codec, now, calls).setup.rtsp.current.Some?
    ensures
      exists j | 0 <= j < |calls| :: ReadBy(config, codec, now, calls, j, Run(config, codec, now, calls).setup.rtsp.current.value)
  {
    hide Poll, Sound, Inbox, Expected;
    var n := |calls| - 1;
    var before := calls[..n];
    var s, reply := Run(config, codec, now, before), Run(config, codec, now, calls).setup.rtsp.current.value;
    InboxIsReceived(config, codec, now, before);
    PolledReplyIsGone(config, codec, now, before);
    var input := calls[n].input;
    HandleReads(codec, s.setup, input);
    hide Handle;
    if s.setup.rtsp.current == Some(reply) {
      ReplyAtHandWasRead(config, codec, now, before);
      var j :| 0 <= j < n && ReadBy(config, codec, now, before, j, reply);
      assert calls == before + [calls[n]];
      StillRead(config, codec, now, before, calls[n], j, reply);
    } else {
      assert ReadBy(config, codec, now, calls, n, reply);
    }
  }

  lemma PolledReplyIsGone(config: Config, codec: Codec, now: Instant, calls: seq<Call>)
    ensures Poll(config, codec, Run(config, codec, now, calls).setup).0.rtsp.current.None?
  {
    hide Poll, Run;
    RunIsInOrder(config, codec, now, calls);
    SoundReply(config, Run(config, codec, now, calls).setup);
    PollTakesReply(config, codec, Run(config, codec, now, calls).setup);
  }

  /** A reply gets to hand only when the connection is closed, read out of what was received. */
  lemma HandleReads(codec: Codec, s: Setup, input: Input)
    ensures
      var r := Handle(codec, s, input).0.rtsp.current;
      || r == s.rtsp.current
      || (input.TcpDisconnected? && r.Some?
          && var d := codec.decode(s.rtsp.received);
             Numbered(d, s.rtsp.sequence) && 200 <= d.status < 300 && d.reply == r.value)
  {
  }

  lemma {:induction false} PollTakesReply(config: Config, codec: Codec, s: Setup)
    requires s.rtsp.current.Some? ==> s.rtsp.phase.Disconnected?
    ensures Poll(config, codec, s).0.rtsp.current.None?
    decreases PassesLeft(s)
  {
    hide Pass;
    PassComesCloser(config, codec, s);
    PassIsAsReplied(config, codec, s);
    var (t, r) := Pass(config, codec, s);
    if r.None? {
      PollTakesReply(config, codec, t);
    }
  }

  // ---------- when the RTSP client is found busy ----------

  /**
   A poll is going to ask while the client is busy: the connection was closed before the pending request was sent, in a
   state that answers the reply or the silence with a request; or the client still waits for a reply in a state that is
   done with its own.
   */
  predicate WillBeBusy(s: Setup) {
    || (s.rtsp.phase.Disconnected? && s.rtsp.transmit.Some?
        && match s.rtsp.current
           case None => s.state.RtspOptionsReceive?
           case Some(reply) => s.state.RtspAnnounceReceive? || (s.state.RtspDescribeReceive? && reply.describe.Some?))
    || (s.rtsp.phase.WaitResponse?
        && (s.state.RtspSetupAudioReceive? || s.state.RtspSetupVideoReceive? || s.state.RtspSetupFoundationMicReceive?
            || s.state.RtspSetupControlReceive?))
  }

  const BUSY: Outcome := R.Err(FromRtsp(R.AlreadySending))

  lemma PassIsBusyExactlyIf(config: Config, codec: Codec, s: Setup)
    requires Sound(config, s)
    ensures
      var (t, r) := Pass(config, codec, s);
      (r == Some(BUSY) <==> WillBeBusy(s)) && (r.None? ==> !WillBeBusy(t))
  {
    if s.rtsp.phase.Disconnected? {
      hide OnIdle;
    } else {
      hide OnReply, OnSilence;
    }
  }

  lemma {:induction false} PollIsBusyExactlyIf(config: Config, codec: Codec, s: Setup)
    requires Sound(config, s)
    ensures Poll(config, codec, s).1 == BUSY <==> WillBeBusy(s)
    decreases PassesLeft(s)
  {
    hide Sound, Pass, WillBeBusy;
    PassComesCloser(config, codec, s);
    PassAdvances(config, codec, s);
    PassIsBusyExactlyIf(config, codec, s);
    var (t, r) := Pass(config, codec, s);
    if r.None? {
      PollIsBusyExactlyIf(config, codec, t);
    }
  }

  /** In every run: a poll finds the client busy exactly under WillBeBusy, and no other call ever does. */
  lemma BusyExactlyIf(config: Config, codec: Codec, now: Instant, calls: seq<Call>)
    ensures
      var s := Run(config, codec, now, calls).setup;
      && (Poll(config, codec, s).1 == BUSY <==> WillBeBusy(s))
      && forall input :: Handle(codec, s, input).1 != R.Err(FromRtsp(R.AlreadySending))
  {
    RunIsInOrder(config, codec, now, calls);
    PollIsBusyExactlyIf(config, codec, Run(config, codec, now, calls).setup);
  }

  // ---------- the other errors ----------

  /** The reply at hand cannot be read the way the state needs it. */
  predicate BadlyAnswered(s: Setup) {
    && s.rtsp.phase.Disconnected? && s.rtsp.current.Some?
    && var reply := s.rtsp.current.value;
       match s.state
       case RtspDescribeReceive => reply.describe.None?
       case SetupAudio => reply.setup.None?
       case SetupVideo => reply.setup.None?
       case SetupFoundationMic => reply.setup.None?
       case SetupControl => reply.setup.None? || reply.connectData.None?
       case _ => false
  }

  /** It can, but it is one of another session than the audio stream's. */
  predicate ForeignSession(s: Setup) {
    && s.rtsp.phase.Disconnected? && s.rtsp.current.Some? && !BadlyAnswered(s)
    && (s.state.SetupVideo? || s.state.SetupFoundationMic? || s.state.SetupControl?)
    && s.session != Some(s.rtsp.current.value.setup.value.session)
  }

  /** The request to be sent cannot be encoded. */
  predicate Unencodable(codec: Codec, s: Setup) {
    s.rtsp.phase.SendRequest? && s.rtsp.transmit.Some? && codec.encode(s.rtsp.sequence, s.rtsp.transmit.value).None?
  }

  ghost predicate FailsAs(codec: Codec, s: Setup, r: Option<Outcome>) {
    && (r == Some(R.Err(BadReply)) <==> BadlyAnswered(s))
    && (r == Some(R.Err(WrongSessionId)) <==> ForeignSession(s))
    && (r == Some(R.Err(FromRtsp(R.NotEncoded))) <==> Unencodable(codec, s))
    && (r.Some? && r.value.Err? ==> BadlyAnswered(s) || ForeignSession(s) || Unencodable(codec, s) || r.value == BUSY)
  }

  lemma PassFailsAs(config: Config, codec: Codec, s: Setup)
    requires Sound(config, s)
    ensures
      var (t, r) := Pass(config, codec, s);
      FailsAs(codec, s, r) && (r.None? ==> FailsAs(codec, t, None))
  {
    if s.rtsp.phase.Disconnected? {
      hide OnIdle;
    } else {
      hide OnReply, OnSilence;
    }
  }

  lemma {:induction false} PollFailsAs(config: Config, codec: Codec, s: Setup)
    requires Sound(config, s)
    ensures FailsAs(codec, s, Some(Poll(config, codec, s).1))
    decreases PassesLeft(s)
  {
    hide Sound, Pass, BadlyAnswered, ForeignSession, Unencodable;
    PassComesCloser(config, codec, s);
    PassAdvances(config, codec, s);
    PassFailsAs(config, codec, s);
    var (t, r) := Pass(config, codec, s);
    if r.None? {
      PollFailsAs(config, codec, t);
    }
  }

  /** In every run: a poll fails because of a reply exactly if that cannot be read or is of another session, because of
      a request exactly if that cannot be encoded, and otherwise only because the client is busy. */
  lemma FailsExactlyAs(config: Config, codec: Codec, now: Instant, calls: seq<Call>)
    ensures
      var s := Run(config, codec, now, calls).setup;
      FailsAs(codec, s, Some(Poll(config, codec, s).1))
  {
    RunIsInOrder(config, codec, now, calls);
    PollFailsAs(config, codec, Run(config, codec, now, calls).setup);
  }

  /** Without discipline the client can be found busy: a connection reported closed before the first request was sent. */
  lemma EarlyCloseFindsTheClientBusy(config: Config, codec: Codec, now: Instant)
    ensures Run(config, codec, now, [InputCall(TcpDisconnected(now)), PollCall]).failure == Some(Failed(FromRtsp(R.AlreadySending)))
  {
    var close := InputCall(TcpDisconnected(now));
    assert [close, PollCall][..1] == [close] && [close][..0] == [];
    var start := Session(New(now), [], false, None);
    assert Run(config, codec, now, []) == start;
    var s := Step(config, codec, start, close);
    assert Run(config, codec, now, [close]) == s;
    assert Run(config, codec, now, [close, PollCall]) == Step(config, codec, s, PollCall);
    assert Pass(config, codec, s.setup).1 == Some(R.Err(FromRtsp(R.AlreadySending)));
  }

  /** A request that could not be encoded is lost, and the next poll panics. */
  lemma FailedEncodingThenPanics(config: Config, codec: Codec, now: Instant)
    requires codec.encode(1, Options).None?
    ensures Run(config, codec, now, [PollCall, PollCall]).failure == Some(Failed(FromRtsp(R.NotEncoded)))
    ensures Run(config, codec, now, [PollCall, PollCall, PollCall]).failure == Some(Panicked)
  {
    assert [PollCall][..0] == [] && [PollCall, PollCall][..1] == [PollCall];
    assert [PollCall, PollCall, PollCall][..2] == [PollCall, PollCall];
    var start := Session(New(now), [], false, None);
    assert Run(config, codec, now, []) == start;
    var connecting := Step(config, codec, start, PollCall);
    assert Pass(config, codec, start.setup).1 == Some(R.Done(TcpConnect));
    assert Run(config, codec, now, [PollCall]) == connecting;
    var failed := Step(config, codec, connecting, PollCall);
    assert Pass(config, codec, connecting.setup).1 == Some(R.Err(FromRtsp(R.NotEncoded)));
    assert Run(config, codec, now, [PollCall, PollCall]) == failed;
    assert Pass(config, codec, failed.setup).1 == Some(R.Panic);
    assert Run(config, codec, now, [PollCall, PollCall, PollCall]) == Step(config, codec, failed, PollCall);
  }

  /** After everything was connected a closed connection makes the next poll panic. */
  lemma ClosedWhenConnectedPanics(config: Config, codec: Codec, now: Instant, calls: seq<Call>, at: Instant)
    requires var s := Run(config, codec, now, calls);
             s.failure.None? && s.setup.state.StateConnected?
    ensures Run(config, codec, now, calls + [InputCall(TcpDisconnected(at)), PollCall]).failure == Some(Panicked)
  {
    hide Poll, Sound;
    RunIsInOrder(config, codec, now, calls);
    var s := Run(config, codec, now, calls);
    var close := InputCall(TcpDisconnected(at));
    var all := calls + [close, PollCall];
    assert all[..|all| - 1] == calls + [close] && (calls + [close])[..|calls|] == calls;
    var closed := Step(config, codec, s, close);
    ConnectedExpectsNothing(config, s.setup);
    assert closed.setup.rtsp.phase.Disconnected?;
    HandleAdvances(config, codec, s.setup, close.input);
    PollAdvances(config, codec, closed.setup);
    assert Run(config, codec, now, calls + [close]) == closed;
  }

  lemma ConnectedExpectsNothing(config: Config, s: Setup)
    requires Sound(config, s) && s.state.StateConnected?
    ensures !s.rtsp.expectResponse
  {
  }
}
