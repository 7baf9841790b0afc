/**
 Setting a stream up over RTSP: a machine above the RTSP client that starts the audio, video, microphone and control
 streams and reports when everything is connected. What the requests and replies contain beyond the session, the
 ports and the encryption is part of the codec.
 */
module StreamSetup {
  import opened Wrappers
  import opened Bytes
  import R = RtspClient

  type Instant = nat

  const DEFAULT_AUDIO_PORT := 48000
  const DEFAULT_VIDEO_PORT := 47998
  const FOUNDATION_DEFAULT_MIC_PORT := 47996
  /** In milliseconds. */
  const POLL_INTERVAL := 1000

  datatype Version = Version(major: int, minor: int, patch: int)

  predicate AtLeast(v: Version, w: Version) {
    if v.major != w.major then v.major > w.major
    else if v.minor != w.minor then v.minor > w.minor
    else v.patch >= w.patch
  }

  datatype Config = Config(version: Version, enableMic: bool)

  /** The parts of the client's session description the setup itself uses. */
  datatype Sdp = Sdp(audioEncrypted: bool, micEncrypted: bool, controlV2: bool, videoPort: nat)

  datatype Request =
    | Options
    | Describe
    | SetupAudioRequest
    | SetupVideoRequest(session: string)
    | SetupMicRequest(session: string)
    | SetupControlRequest(session: string)
    | Announce(session: string, sdp: Sdp)
    | Play(session: string)

  /** The answer to a stream request; the connect data only matters for the control stream. */
  datatype SetupReply = SetupReply(session: string, port: Option<nat>)

  /** What can be read out of a reply: None where reading it that way is an error. */
  datatype Reply = Reply(describe: Option<Sdp>, setup: Option<SetupReply>, connectData: Option<Option<nat>>)

  type Rtsp = R.Rtsp<Request, Reply>
  type Codec = R.Codec<Request, Reply>

  datatype ControlEncryption = Unencrypted | Nvidia | Sunshine

  datatype Output =
    | Timeout(at: Instant)
    | TcpConnect
    | TcpWrite(data: seq<Byte>)
    | StartAudioStream(port: nat, encrypted: bool, fec: bool, now: Instant)
    | StartVideoStream(port: nat, now: Instant)
    | FoundationStartMic(port: nat, encrypted: bool, now: Instant)
    | StartControlStream(port: nat, encryption: ControlEncryption, connectData: Option<nat>, now: Instant)
    | Connected(microphone: bool)

  datatype SetupError = FromRtsp(error: R.RtspError) | BadReply | WrongSessionId

  type Outcome = R.Outcome<Output, SetupError>

  datatype Input = TimePassed(now: Instant) | TcpReceive(now: Instant, data: seq<Byte>) | TcpDisconnected(now: Instant)

  datatype State =
    | RtspOptionsReceive
    | RtspDescribeReceive
    | SetupAudio
    | RtspSetupAudioReceive(session: string)
    | SetupVideo
    | RtspSetupVideoReceive
    | SetupFoundationMic
    | RtspSetupFoundationMicReceive
    | SetupControl
    | RtspSetupControlReceive
    | RtspAnnounceReceive
    | RtspPlayReceive
    | StateConnected

  datatype Setup = Setup(rtsp: Rtsp, sdp: Option<Sdp>, session: Option<string>, now: Instant, state: State, microphone: bool)

  function New(now: Instant): Setup {
    Setup(R.Fresh().(transmit := Some(Options)), None, None, now, RtspOptionsReceive, false)
  }

  function PortOr(port: Option<nat>, otherwise: nat): nat {
    if port.Some? then port.value else otherwise
  }

  // ---------- one pass of the poll loop; None means go around again ----------

  /** Hands a request to the RTSP client and moves on to `next`, unless the client is busy. */
  function AskFor(s: Setup, q: Request, expectResponse: bool, next: State): (Setup, Option<Outcome>) {
    match R.Queue(s.rtsp, q, expectResponse)
    case (rtsp, Done(_)) => (s.(rtsp := rtsp, state := next), None)
    case (rtsp, Err(e)) => (s.(rtsp := rtsp), Some(R.Err(FromRtsp(e))))
    case (rtsp, Panic) => (s.(rtsp := rtsp), Some(R.Panic))
  }

  function ControlEncryptionFor(config: Config, sdp: Sdp): ControlEncryption {
    if !AtLeast(config.version, Version(7, 1, 431)) then Unencrypted
    else if sdp.controlV2 then Sunshine else Nvidia
  }

  function OnReply(config: Config, s: Setup, reply: Reply): (Setup, Option<Outcome>) {
    match s.state
    case RtspDescribeReceive =>
      if reply.describe.None? then (s, Some(R.Err(BadReply)))
      else AskFor(s.(sdp := reply.describe), SetupAudioRequest, true, SetupAudio)
    case SetupAudio =>
      if reply.setup.None? then (s, Some(R.Err(BadReply)))
      else if s.sdp.None? then (s, Some(R.Panic))
      else (s.(state := RtspSetupAudioReceive(reply.setup.value.session)),
            Some(R.Done(StartAudioStream(PortOr(reply.setup.value.port, DEFAULT_AUDIO_PORT), s.sdp.value.audioEncrypted,
                                         AtLeast(config.version, Version(7, 1, 415)), s.now))))
    case SetupVideo =>
      if reply.setup.None? then (s, Some(R.Err(BadReply)))
      else if s.session.None? then (s, Some(R.Panic))
      else if reply.setup.value.session != s.session.value then (s, Some(R.Err(WrongSessionId)))
      else if s.sdp.None? then (s, Some(R.Panic))
      else
        var port := PortOr(reply.setup.value.port, DEFAULT_VIDEO_PORT);
        (s.(sdp := Some(s.sdp.value.(videoPort := port)), state := RtspSetupVideoReceive), Some(R.Done(StartVideoStream(port, s.now))))
    case SetupFoundationMic =>
      if reply.setup.None? then (s, Some(R.Err(BadReply)))
      else if s.session.None? then (s, Some(R.Panic))
      else if reply.setup.value.session != s.session.value then (s, Some(R.Err(WrongSessionId)))
      else if s.sdp.None? then (s, Some(R.Panic))
      else (s.(state := RtspSetupFoundationMicReceive, microphone := true),
            Some(R.Done(FoundationStartMic(PortOr(reply.setup.value.port, FOUNDATION_DEFAULT_MIC_PORT), s.sdp.value.micEncrypted, s.now))))
    case SetupControl =>
      if reply.setup.None? || reply.connectData.None? then (s, Some(R.Err(BadReply)))
      else if s.session.None? then (s, Some(R.Panic))
      else if reply.setup.value.session != s.session.value then (s, Some(R.Err(WrongSessionId)))
      else if s.sdp.None? then (s, Some(R.Panic))
      else (s.(state := RtspSetupControlReceive),
            Some(R.Done(StartControlStream(PortOr(reply.setup.value.port, DEFAULT_VIDEO_PORT),
                                           ControlEncryptionFor(config, s.sdp.value), reply.connectData.value, s.now))))
    case RtspAnnounceReceive =>
      if s.session.None? then (s, Some(R.Panic)) else AskFor(s, Play(s.session.value), false, RtspPlayReceive)
    case _ => (s, None)
  }

  /** A connection closed without a reply being expected. */
  function OnSilence(s: Setup): (Setup, Option<Outcome>) {
    match s.state
    case RtspOptionsReceive => AskFor(s, Describe, true, RtspDescribeReceive)
    case RtspPlayReceive => (s.(state := StateConnected), None)
    case _ => (s, Some(R.Panic))
  }

  /** The RTSP client has nothing to do: send the next request, or wait. */
  function OnIdle(config: Config, s: Setup): (Setup, Option<Outcome>) {
    match s.state
    case RtspSetupAudioReceive(session) =>
      var (t, r) := AskFor(s, SetupVideoRequest(session), true, SetupVideo);
      if r.None? then (t.(session := Some(session)), None) else (t, r)
    case RtspSetupVideoReceive =>
      if s.session.None? then (s, Some(R.Panic))
      else if config.enableMic then AskFor(s, SetupMicRequest(s.session.value), true, SetupFoundationMic)
      else AskFor(s, SetupControlRequest(s.session.value), true, SetupControl)
    case RtspSetupFoundationMicReceive =>
      if s.session.None? then (s, Some(R.Panic)) else AskFor(s, SetupControlRequest(s.session.value), true, SetupControl)
    case RtspSetupControlReceive =>
      if s.session.None? || s.sdp.None? then (s, Some(R.Panic))
      else AskFor(s, Announce(s.session.value, s.sdp.value), true, RtspAnnounceReceive)
    case StateConnected => (s, Some(R.Done(Connected(s.microphone))))
    case _ => (s, Some(R.Done(Timeout(s.now + POLL_INTERVAL))))
  }

  function Pass(config: Config, codec: Codec, s: Setup): (Setup, Option<Outcome>) {
    match R.Poll(codec, s.rtsp)
    case (rtsp, Err(e)) => (s.(rtsp := rtsp), Some(R.Err(FromRtsp(e))))
    case (rtsp, Panic) => (s.(rtsp := rtsp), Some(R.Panic))
    case (rtsp, Done(output)) =>
      var t := s.(rtsp := rtsp);
      match output
      case Connect => (t, Some(R.Done(TcpConnect)))
      case Write(data) => (t, Some(R.Done(TcpWrite(data))))
      case Response(Some(reply)) => OnReply(config, t, reply)
      case Response(None) => OnSilence(t)
      case Timeout => OnIdle(config, t)
  }

  /** A reply or a silence can be followed by a request, and a request by connecting; then the loop is left. */
  function PassesLeft(s: Setup): nat {
    if s.rtsp.phase.Disconnected? then 2
    else if s.rtsp.phase.WaitForSendRequest? && s.rtsp.transmit.None? then 1
    else 0
  }

  lemma PassComesCloser(config: Config, codec: Codec, s: Setup)
    ensures Pass(config, codec, s).1.None? ==> PassesLeft(Pass(config, codec, s).0) < PassesLeft(s)
  {
  }

  function Poll(config: Config, codec: Codec, s: Setup): (Setup, Outcome)
    decreases PassesLeft(s)
  {
    PassComesCloser(config, codec, s);
    var (t, r) := Pass(config, codec, s);
    if r.None? then Poll(config, codec, t) else (t, r.value)
  }

  function Handle(codec: Codec, s: Setup, input: Input): (Setup, R.Outcome<(), SetupError>) {
    match input
    case TimePassed(now) => (s.(now := now), R.Done(()))
    case TcpReceive(now, data) => (s.(now := now, rtsp := R.Receive(s.rtsp, data)), R.Done(()))
    case TcpDisconnected(now) =>
      match R.Disconnect(codec, s.rtsp)
      case (rtsp, Done(_)) => (s.(now := now, rtsp := rtsp), R.Done(()))
      case (rtsp, Err(e)) => (s.(now := now, rtsp := rtsp), R.Err(FromRtsp(e)))
      case (rtsp, Panic) => (s.(now := now, rtsp := rtsp), R.Panic)
  }

  class StreamSetup {
    const config: Config
    const rtsp: R.RtspClient<Request, Reply>
    var sdp: Option<Sdp>
    var session: Option<string>
    var now: Instant
    var state: State
    var microphone: bool

    ghost function Model(): Setup
      reads this, rtsp
    {
      Setup(rtsp.Model(), sdp, session, now, state, microphone)
    }

    constructor (config: Config, codec: Codec, now: Instant)
      ensures this.config == config && fresh(rtsp) && rtsp.codec == codec && Model() == New(now)
    {
      this.config := config;
      rtsp := new R.RtspClient<Request, Reply>(codec);
      sdp, session, this.now, state, microphone := None, None, now, RtspOptionsReceive, false;
      new;
      var _ := rtsp.SendNoResponse(Options);
    }

    method Ask(q: Request, expectResponse: bool, next: State) returns (r: Option<Outcome>)
      modifies this`state, rtsp
      ensures (Model(), r) == AskFor(old(Model()), q, expectResponse, next)
    {
      var sent;
      if expectResponse {
        sent := rtsp.Send(q);
      } else {
        sent := rtsp.SendNoResponse(q);
      }
      match sent {
        case Done(_) =>
          state := next;
          return None;
        case Err(e) => return Some(R.Err(FromRtsp(e)));
        case Panic => return Some(R.Panic);
      }
    }

    method HandleReply(reply: Reply) returns (r: Option<Outcome>)
      modifies this, rtsp
      ensures (Model(), r) == OnReply(config, old(Model()), reply)
    {
      match state {
        case RtspDescribeReceive =>
          if reply.describe.None? {
            return Some(R.Err(BadReply));
          }
          sdp := reply.describe;
          r := Ask(SetupAudioRequest, true, SetupAudio);
        case SetupAudio =>
          if reply.setup.None? {
            return Some(R.Err(BadReply));
          }
          if sdp.None? {
            return Some(R.Panic);
          }
          state := RtspSetupAudioReceive(reply.setup.value.session);
          return Some(R.Done(StartAudioStream(PortOr(reply.setup.value.port, DEFAULT_AUDIO_PORT), sdp.value.audioEncrypted,
                                              AtLeast(config.version, Version(7, 1, 415)), now)));
        case SetupVideo =>
          var refused := Refusal(reply);
          if refused.Some? {
            return refused;
          }
          var port := PortOr(reply.setup.value.port, DEFAULT_VIDEO_PORT);
          sdp := Some(sdp.value.(videoPort := port));
          state := RtspSetupVideoReceive;
          return Some(R.Done(StartVideoStream(port, now)));
        case SetupFoundationMic =>
          var refused := Refusal(reply);
          if refused.Some? {
            return refused;
          }
          state := RtspSetupFoundationMicReceive;
          microphone := true;
          return Some(R.Done(FoundationStartMic(PortOr(reply.setup.value.port, FOUNDATION_DEFAULT_MIC_PORT), sdp.value.micEncrypted, now)));
        case SetupControl =>
          if reply.connectData.None? {
            return Some(R.Err(BadReply));
          }
          var refused := Refusal(reply);
          if refused.Some? {
            return refused;
          }
          state := RtspSetupControlReceive;
          return Some(R.Done(StartControlStream(PortOr(reply.setup.value.port, DEFAULT_VIDEO_PORT),
                                                ControlEncryptionFor(config, sdp.value), reply.connectData.value, now)));
        case RtspAnnounceReceive =>
          if session.None? {
            return Some(R.Panic);
          }
          r := Ask(Play(session.value), false, RtspPlayReceive);
        case _ =>
          return None;
      }
    }

    /** The checks every stream after the audio stream starts with. */
    method Refusal(reply: Reply) returns (r: Option<Outcome>)
      ensures
        r == if reply.setup.None? then Some(R.Err(BadReply))
             else if session.None? then Some(R.Panic)
             else if reply.setup.value.session != session.value then Some(R.Err(WrongSessionId))
             else if sdp.None? then Some(R.Panic) else None
    {
      if reply.setup.None? {
        return Some(R.Err(BadReply));
      }
      if session.None? {
        return Some(R.Panic);
      }
      if reply.setup.value.session != session.value {
        return Some(R.Err(WrongSessionId));
      }
      return if sdp.None? then Some(R.Panic) else None;
    }

    method HandleSilence() returns (r: Option<Outcome>)
      modifies this, rtsp
      ensures (Model(), r) == OnSilence(old(Model()))
    {
      match state {
        case RtspOptionsReceive => r := Ask(Describe, true, RtspDescribeReceive);
        case RtspPlayReceive =>
          state := StateConnected;
          return None;
        case _ => return Some(R.Panic);
      }
    }

    method SendNext() returns (r: Option<Outcome>)
      modifies this, rtsp
      ensures (Model(), r) == OnIdle(config, old(Model()))
    {
      match state {
        case RtspSetupAudioReceive(id) =>
          r := Ask(SetupVideoRequest(id), true, SetupVideo);
          if r.None? {
            session := Some(id);
          }
        case RtspSetupVideoReceive =>
          if session.None? {
            return Some(R.Panic);
          }
          if config.enableMic {
            r := Ask(SetupMicRequest(session.value), true, SetupFoundationMic);
          } else {
            r := Ask(SetupControlRequest(session.value), true, SetupControl);
          }
        case RtspSetupFoundationMicReceive =>
          if session.None? {
            return Some(R.Panic);
          }
          r := Ask(SetupControlRequest(session.value), true, SetupControl);
        case RtspSetupControlReceive =>
          if session.None? || sdp.None? {
            return Some(R.Panic);
          }
          r := Ask(Announce(session.value, sdp.value), true, RtspAnnounceReceive);
        case StateConnected =>
          return Some(R.Done(Connected(microphone)));
        case _ =>
          return Some(R.Done(Timeout(now + POLL_INTERVAL)));
      }
    }

    method PollOutput() returns (r: Outcome)
      modifies this, rtsp
      ensures (Model(), r) == Poll(config, rtsp.codec, old(Model()))
    {
      ghost var start := Model();
      while true
        invariant Poll(config, rtsp.codec, Model()) == Poll(config, rtsp.codec, start)
        decreases PassesLeft(Model())
      {
        ghost var before := Model();
        PassComesCloser(config, rtsp.codec, before);
        var polled := rtsp.PollOutput();
        var left: Option<Outcome> := None;
        match polled {
          case Err(e) => return R.Err(FromRtsp(e));
          case Panic => return R.Panic;
          case Done(Connect) => return R.Done(TcpConnect);
          case Done(Write(data)) => return R.Done(TcpWrite(data));
          case Done(Response(Some(reply))) => left := HandleReply(reply);
          case Done(Response(None)) => left := HandleSilence();
          case Done(Timeout) => left := SendNext();
        }
        assert (Model(), left) == Pass(config, rtsp.codec, before);
        if left.Some? {
          return left.value;
        }
      }
    }

    method HandleInput(input: Input) returns (r: R.Outcome<(), SetupError>)
      modifies this, rtsp
      ensures (Model(), r) == Handle(rtsp.codec, old(Model()), input)
    {
      match input {
        case TimePassed(now) =>
          this.now := now;
          return R.Done(());
        case TcpReceive(now, data) =>
          this.now := now;
          rtsp.HandleReceive(data);
          return R.Done(());
        case TcpDisconnected(now) =>
          this.now := now;
          var closed := rtsp.HandleDisconnected();
          match closed {
            case Done(_) => return R.Done(());
            case Err(e) => return R.Err(FromRtsp(e));
            case Panic => return R.Panic;
          }
      }
    }
  }
}
