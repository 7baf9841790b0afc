/**
 Whole pairings. First: which sequences of events a client can go through when every call, every response and every
 result of the cryptography is arbitrary. Then: an honest host that was told the same PIN always gets it paired.
 */
module PairingRuns {
  import opened Wrappers
  import opened Bytes
  import opened Pairing

  /** One call on a pairing. The backend stands for whatever the cryptography answers during that call. */
  datatype Call = PollCall(backend: Backend) | HandleCall(backend: Backend, response: Response)

  /** A call that succeeded: an output handed out, or a response accepted. */
  datatype Event = Sent(output: Output, backend: Backend) | Accepted(response: Response, backend: Backend)

  datatype Session = Session(state: Option<State>, log: seq<Event>)

  ghost function Step(c: Client, s: Session, call: Call): Session {
    match call
    case PollCall(b) =>
      var (state, r) := Poll(c, b, s.state);
      Session(state, if r.Done? then s.log + [Sent(r.value, b)] else s.log)
    case HandleCall(b, response) =>
      var (state, r) := Handle(c, b, s.state, response);
      Session(state, if r.Done? then s.log + [Accepted(response, b)] else s.log)
  }

  ghost function Run(c: Client, challenge: seq<Byte>, calls: seq<Call>): Session {
    if calls == [] then Session(Some(SendPhase1(challenge)), [])
    else Step(c, Run(c, challenge, calls[..|calls| - 1]), calls[|calls| - 1])
  }

  // ---------- what a transcript must look like ----------

  function OfferedCertificate(e: Event): Pem {
    if e.Accepted? && e.response.Phase1Response? && e.response.certificate.Some? then e.response.certificate.value else ""
  }

  /** What the phase 2 response decrypts to: the host's response hash, then its challenge. */
  ghost function Decrypted(c: Client, e: Event): seq<Byte> {
    if e.Accepted? && e.response.Phase2Response? && e.backend.decrypt(c.aesKey, e.response.encryptedResponse).Some?
    then e.backend.decrypt(c.aesKey, e.response.encryptedResponse).value else []
  }

  /** The lengths of SHA-1 and SHA-256 digests. */
  function DigestLen(algorithm: HashAlgorithm): nat {
    if algorithm.Sha1? then 20 else 32
  }

  /** A digest in a field of 32 bytes. */
  function InField(digest: seq<Byte>): (r: seq<Byte>)
    requires |digest| <= 32
    ensures |r| == 32
  {
    seq(32, i requires 0 <= i < 32 => if i < |digest| then digest[i] else 0)
  }

  /** The backend hashes `certificate`'s signature between `prefix` and `suffix` to the full buffer `hash`. */
  ghost predicate Hashes(b: Backend, algorithm: HashAlgorithm, prefix: seq<Byte>, certificate: Pem, suffix: seq<Byte>, hash: seq<Byte>) {
    && |hash| == 32
    && b.certificateSignature(certificate).Some?
    && b.digest(algorithm, prefix + b.certificateSignature(certificate).value + suffix) == Some(hash)
  }

  /** The host's secret of a phase 3 response: signed by `certificate`, and the one its phase 2 hash committed to. */
  ghost predicate ProvesIdentity(c: Client, challenge: seq<Byte>, certificate: Pem, plain: seq<Byte>, e: Event) {
    && e.Accepted? && e.response.Phase3Response? && e.response.paired
    && var answer := e.response.serverPairingSecret;
    && |answer| >= 16
    && e.backend.verify(answer[..16], answer[16..], certificate) == Some(true)
    && |plain| >= DigestLen(c.algorithm)
    && Hashes(e.backend, c.algorithm, challenge, certificate, answer[..16], InField(plain[..DigestLen(c.algorithm)]))
  }

  /** The hash a client sends in phase 3 commits it to its secret, bound to the host's challenge. */
  ghost predicate Commits(c: Client, plain: seq<Byte>, e: Event) {
    var n := DigestLen(c.algorithm);
    && |plain| >= n + 16
    && e.Sent? && e.output.SendHttp? && e.output.request.Phase3Request?
    && exists hash | Hashes(e.backend, c.algorithm, plain[n..n + 16], c.certificate, c.secret, hash) ::
         e.backend.encrypt(c.aesKey, hash[..n]) == Some(e.output.request.encryptedResponseHash)
  }

  /** May `e` come after the events of `before`? The protocol, without any machine. */
  ghost predicate Follows(c: Client, challenge: seq<Byte>, before: seq<Event>, e: Event) {
    match |before|
    case 0 => e.Sent? && e.output == SendHttp(Phase1Request(c.salt, c.certificate))
    case 1 => e.Accepted? && e.response.Phase1Response? && e.response.paired && e.response.certificate.Some?
    case 2 => e.Sent? && e.output.SendHttp? && e.output.request.Phase2Request?
              && e.backend.encrypt(c.aesKey, challenge) == Some(e.output.request.encryptedChallenge)
    case 3 => e.Accepted? && e.response.Phase2Response? && e.response.paired
              && |Decrypted(c, e)| >= DigestLen(c.algorithm) + 16
    case 4 => Commits(c, Decrypted(c, before[3]), e)
    case 5 => ProvesIdentity(c, challenge, OfferedCertificate(before[1]), Decrypted(c, before[3]), e)
    case 6 => e.Sent? && e.backend.sign(c.key, c.secret).Some?
              && e.output == SendHttp(Phase4Request(c.secret + e.backend.sign(c.key, c.secret).value))
    case 7 => e.Accepted? && e.response == Phase4Response(true)
    case 8 => e.Sent? && e.output == SetServerIdentifier(OfferedCertificate(before[1]))
    case 9 => e.Sent? && e.output == SendHttps(Phase5Request)
    case 10 => e.Accepted? && e.response == Phase4Response(true)
    case 11 => e.Sent? && e.output == Paired
    case _ => false
  }

  ghost predicate Genuine(c: Client, challenge: seq<Byte>, log: seq<Event>) {
    forall i | 0 <= i < |log| :: Follows(c, challenge, log[..i], log[i])
  }

  lemma GenuineGrows(c: Client, challenge: seq<Byte>, log: seq<Event>, e: Event)
    ensures Genuine(c, challenge, log + [e]) <==> Genuine(c, challenge, log) && Follows(c, challenge, log, e)
  {
    hide Follows;
    var longer := log + [e];
    assert longer[..|log|] == log && longer[|log|] == e;
    assert forall i | 0 <= i < |log| :: longer[..i] == log[..i] && longer[i] == log[i];
  }

  lemma FieldIsPadded(x: seq<Byte>)
    requires |x| <= 32
    ensures Padded(x) == InField(x)
  {
  }

  /** The state a pairing is in after a genuine transcript. */
  ghost function StateAfter(c: Client, challenge: seq<Byte>, log: seq<Event>): Option<State> {
    var certificate := if |log| > 1 then OfferedCertificate(log[1]) else "";
    var plain := if |log| > 3 then Decrypted(c, log[3]) else [];
    var n := DigestLen(c.algorithm);
    var hash := if |plain| >= n + 16 then InField(plain[..n]) else [];
    match |log|
    case 0 => Some(SendPhase1(challenge))
    case 1 => Some(RecvPhase1(challenge))
    case 2 => Some(SendPhase2(challenge, certificate))
    case 3 => Some(RecvPhase2(challenge, certificate))
    case 4 => Some(SendPhase3(challenge, certificate, hash, if |plain| >= n + 16 then plain[n..n + 16] else []))
    case 5 => Some(RecvPhase3(challenge, certificate, hash))
    case 6 => Some(SendPhase4(certificate))
    case 7 => Some(RecvPhase4(certificate))
    case 8 => Some(SetCertificate(certificate))
    case 9 => Some(SendPhase5)
    case 10 => Some(RecvPhase5)
    case 11 => Some(PairedState)
    case _ => None
  }

  predicate Dead(state: Option<State>) {
    state.None? || state.value.Failed?
  }

  /** Once dead, every further call panics. */
  lemma DeadStaysDead(c: Client, s: Session, call: Call)
    requires Dead(s.state)
    ensures Dead(Step(c, s, call).state) && Step(c, s, call).log == s.log
  {
  }

  /** A hash computed through the 32-byte buffer. */
  lemma HashGoesThrough(b: Backend, algorithm: HashAlgorithm, prefix: seq<Byte>, certificate: Pem, suffix: seq<Byte>, len: nat)
    requires b.certificateSignature(certificate).Some? && len <= 32
    ensures
      var r := HashUneq(b, algorithm, prefix + b.certificateSignature(certificate).value + suffix, len);
      && (r.Done? ==> exists hash :: Hashes(b, algorithm, prefix, certificate, suffix, hash) && r.value == hash[..len])
      && (forall hash | Hashes(b, algorithm, prefix, certificate, suffix, hash) :: r == Done(hash[..len]))
  {
    var d := b.digest(algorithm, prefix + b.certificateSignature(certificate).value + suffix);
    if d.Some? && |d.value| == 32 {
      assert Hashes(b, algorithm, prefix, certificate, suffix, d.value);
    }
  }

  /** The heart of both directions: in step with a genuine transcript, a call succeeds exactly when its event may follow. */
  lemma PollFollows(c: Client, challenge: seq<Byte>, log: seq<Event>, b: Backend)
    requires Genuine(c, challenge, log)
    ensures
      var (state, r) := Poll(c, b, StateAfter(c, challenge, log));
      && (r.Done? ==> Follows(c, challenge, log, Sent(r.value, b)) && state == StateAfter(c, challenge, log + [Sent(r.value, b)]))
      && (!r.Done? ==> Dead(state))
      && (forall o | Follows(c, challenge, log, Sent(o, b)) :: r == Done(o))
  {
    if |log| == 4 {
      assert Follows(c, challenge, log[..3], log[3]);
      if b.certificateSignature(c.certificate).Some? {
        var plain, n := Decrypted(c, log[3]), DigestLen(c.algorithm);
        HashGoesThrough(b, c.algorithm, plain[n..n + 16], c.certificate, c.secret, n);
      }
    }
    AgreesBefore(c, challenge, log, Sent(Paired, b));
    forall o ensures StateAfter(c, challenge, log + [Sent(o, b)]) == StateAfter(c, challenge, log + [Sent(Paired, b)]) {
      AgreesBefore(c, challenge, log, Sent(o, b));
    }
  }

  lemma AgreesBefore(c: Client, challenge: seq<Byte>, log: seq<Event>, e: Event)
    ensures forall i | 0 <= i < |log| :: (log + [e])[i] == log[i]
    ensures (log + [e])[|log|] == e
  {
  }

  /** The check of the host's secret. */
  lemma SecretIsChecked(c: Client, b: Backend, challenge: seq<Byte>, certificate: Pem, hash: seq<Byte>, secret: seq<Byte>,
                        signature: seq<Byte>)
    requires |hash| == 32
    ensures
      var (state, r) := CheckServerSecret(c, b, challenge, certificate, hash, secret, signature);
      && (r.Done? <==> b.verify(secret, signature, certificate) == Some(true)
                       && Hashes(b, c.algorithm, challenge, certificate, secret, hash))
      && (if r.Done? then state == Some(SendPhase4(certificate)) else Dead(state))
  {
    if b.certificateSignature(certificate).Some? {
      HashGoesThrough(b, c.algorithm, challenge, certificate, secret, 32);
      assert forall hash: seq<Byte> | |hash| == 32 :: hash[..32] == hash;
    }
  }

  lemma HandleFollows(c: Client, challenge: seq<Byte>, log: seq<Event>, b: Backend, response: Response)
    requires Genuine(c, challenge, log)
    ensures
      var (state, r) := Handle(c, b, StateAfter(c, challenge, log), response);
      var e := Accepted(response, b);
      && (r.Done? <==> Follows(c, challenge, log, e))
      && (if r.Done? then state == StateAfter(c, challenge, log + [e]) else Dead(state))
  {
    hide Padded, InField, CheckServerSecret, Hashes;
    var e := Accepted(response, b);
    AgreesBefore(c, challenge, log, e);
    if |log| == 3 {
      var plain, n := Decrypted(c, e), DigestLen(c.algorithm);
      if |plain| >= n + 16 {
        FieldIsPadded(plain[..n]);
      }
    }
    if |log| == 5 {
      assert Follows(c, challenge, log[..3], log[3]);
      var plain, n := Decrypted(c, log[3]), DigestLen(c.algorithm);
      if response.Phase3Response? && |response.serverPairingSecret| >= 16 {
        SecretIsChecked(c, b, challenge, OfferedCertificate(log[1]), InField(plain[..n]), response.serverPairingSecret[..16],
                        response.serverPairingSecret[16..]);
      }
    }
  }

  // ---------- how calls fail ----------

  /** A call after a failure panics. */
  lemma DeadPanics(c: Client, b: Backend, state: Option<State>, response: Response)
    requires Dead(state)
    ensures Poll(c, b, state).1 == Panic && Handle(c, b, state, response).1 == Panic
  {
  }

  /** A poll panics where a response is due or nothing is left to do, and where a digest does not fill the buffer;
      it fails otherwise only if the backend does. */
  lemma PollFailsAs(c: Client, challenge: seq<Byte>, log: seq<Event>, b: Backend)
    requires Genuine(c, challenge, log)
    ensures
      var r := Poll(c, b, StateAfter(c, challenge, log)).1;
      && (r.Err? ==> r == Err(BackendError) && |log| in {2, 4, 6})
      && (r == Panic <==>
            || |log| in {1, 3, 5, 7, 10} || |log| >= 12
            || (|log| == 4 && b.certificateSignature(c.certificate).Some?
                && var n := DigestLen(c.algorithm);
                   var challenge := Decrypted(c, log[3])[n..n + 16];
                   var digest := b.digest(c.algorithm, challenge + b.certificateSignature(c.certificate).value + c.secret);
                   digest.Some? && |digest.value| != 32))
  {
    hide InField, Commits, ProvesIdentity;
    if |log| == 4 {
      assert Follows(c, challenge, log[..3], log[3]);
    }
  }

  /** A well-formed response of phase 3, whatever it proves. */
  predicate BringsSecret(response: Response) {
    response.Phase3Response? && response.paired && |response.serverPairingSecret| >= 16
  }

  /** What a backend makes of the host's secret: the signature's verdict, and the digest if it comes so far. */
  ghost function Verdict(b: Backend, certificate: Pem, response: Response): Option<bool>
    requires BringsSecret(response)
  {
    b.verify(response.serverPairingSecret[..16], response.serverPairingSecret[16..], certificate)
  }

  ghost function Rehashed(c: Client, b: Backend, challenge: seq<Byte>, certificate: Pem, response: Response): Option<seq<Byte>>
    requires BringsSecret(response)
  {
    if b.certificateSignature(certificate).None? then None
    else b.digest(c.algorithm, challenge + b.certificateSignature(certificate).value + response.serverPairingSecret[..16])
  }

  /** Which error a response that is not accepted brings: a wrong PIN is reported exactly if the host's secret is
      signed by its certificate but does not open the hash it sent before. */
  lemma ResponseFailsAs(c: Client, challenge: seq<Byte>, log: seq<Event>, b: Backend, response: Response)
    requires Genuine(c, challenge, log)
    ensures
      var r := Handle(c, b, StateAfter(c, challenge, log), response).1;
      && (|log| !in {1, 3, 5, 7, 10} ==> r == Panic)
      && (|log| in {1, 7, 10} ==> r.Done? || r == Err(PairingFailed))
      && (|log| == 3 ==>
            if response.Phase2Response? && response.paired && b.decrypt(c.aesKey, response.encryptedResponse).None?
            then r == Err(BackendError) else r.Done? || r == Err(PairingFailed))
      && (|log| == 5 ==>
            if !BringsSecret(response) then r == Err(PairingFailed)
            else
              var certificate := OfferedCertificate(log[1]);
              match Verdict(b, certificate, response)
              case None => r == Err(BackendError)
              case Some(false) => r == Err(PairingFailed)
              case Some(true) =>
                match Rehashed(c, b, challenge, certificate, response)
                case None => r == Err(BackendError)
                case Some(digest) =>
                  if |digest| != 32 then r == Panic
                  else |Decrypted(c, log[3])| >= DigestLen(c.algorithm)
                       && r == if digest == InField(Decrypted(c, log[3])[..DigestLen(c.algorithm)]) then Done(()) else Err(WrongPin))
  {
    hide InField, Padded, Commits, ProvesIdentity;
    if |log| == 5 {
      assert Follows(c, challenge, log[..3], log[3]);
    }
    assert forall digest: seq<Byte> | |digest| == 32 :: digest[..32] == digest;
  }

  // ---------- every run ----------

  ghost predicate InStep(c: Client, challenge: seq<Byte>, s: Session) {
    Genuine(c, challenge, s.log) && (Dead(s.state) || s.state == StateAfter(c, challenge, s.log))
  }

  lemma StepKeepsInStep(c: Client, challenge: seq<Byte>, s: Session, call: Call)
    requires InStep(c, challenge, s)
    ensures InStep(c, challenge, Step(c, s, call))
  {
    hide Genuine, Follows, StateAfter;
    if Dead(s.state) {
      DeadStaysDead(c, s, call);
    } else {
      match call
      case PollCall(b) =>
        PollFollows(c, challenge, s.log, b);
        var r := Poll(c, b, s.state).1;
        if r.Done? {
          GenuineGrows(c, challenge, s.log, Sent(r.value, b));
        }
      case HandleCall(b, response) =>
        HandleFollows(c, challenge, s.log, b, response);
        GenuineGrows(c, challenge, s.log, Accepted(response, b));
    }
  }

  lemma {:induction false} RunIsInStep(c: Client, challenge: seq<Byte>, calls: seq<Call>)
    ensures InStep(c, challenge, Run(c, challenge, calls))
  {
    if calls != [] {
      RunIsInStep(c, challenge, calls[..|calls| - 1]);
      StepKeepsInStep(c, challenge, Run(c, challenge, calls[..|calls| - 1]), calls[|calls| - 1]);
    }
  }

  lemma NothingSentYet(c: Client, challenge: seq<Byte>)
    ensures StateAfter(c, challenge, []) == Some(SendPhase1(challenge))
  {
  }

  function CallOf(e: Event): Call {
    match e
    case Sent(_, b) => PollCall(b)
    case Accepted(response, b) => HandleCall(b, response)
  }

  ghost function CallsOf(log: seq<Event>): seq<Call> {
    seq(|log|, i requires 0 <= i < |log| => CallOf(log[i]))
  }

  lemma {:induction false} GenuineTranscriptHappens(c: Client, challenge: seq<Byte>, log: seq<Event>)
    requires Genuine(c, challenge, log)
    ensures Run(c, challenge, CallsOf(log)) == Session(StateAfter(c, challenge, log), log)
  {
    hide Genuine, Follows, StateAfter, Poll, Handle;
    if log == [] {
      NothingSentYet(c, challenge);
    } else {
      var before, e := log[..|log| - 1], log[|log| - 1];
      assert log == before + [e];
      GenuineGrows(c, challenge, before, e);
      GenuineTranscriptHappens(c, challenge, before);
      assert CallsOf(log)[..|log| - 1] == CallsOf(before);
      match e
      case Sent(o, b) => PollFollows(c, challenge, before, b);
      case Accepted(response, b) => HandleFollows(c, challenge, before, b, response);
    }
  }

  /** The main theorem: a pairing shows a transcript to the outside if and only if the protocol allows it. */
  lemma TranscriptsAreTheProtocol(c: Client, challenge: seq<Byte>, log: seq<Event>)
    ensures (exists calls :: Run(c, challenge, calls).log == log) <==> Genuine(c, challenge, log)
  {
    if Genuine(c, challenge, log) {
      GenuineTranscriptHappens(c, challenge, log);
    }
    forall calls ensures Genuine(c, challenge, Run(c, challenge, calls).log) {
      RunIsInStep(c, challenge, calls);
    }
  }

  /** After a call that failed, in whatever way, no later call succeeds. */
  lemma {:induction false} FailureIsFinal(c: Client, challenge: seq<Byte>, calls: seq<Call>, n: nat, m: nat)
    requires n < m <= |calls|
    requires Run(c, challenge, calls[..n + 1]).log == Run(c, challenge, calls[..n]).log
    ensures Dead(Run(c, challenge, calls[..m]).state)
    ensures Run(c, challenge, calls[..m]).log == Run(c, challenge, calls[..n]).log
    decreases m
  {
    hide Step;
    assert calls[..m][..m - 1] == calls[..m - 1];
    if m == n + 1 {
      FailedIsDead(c, challenge, calls[..n], calls[n]);
    } else {
      FailureIsFinal(c, challenge, calls, n, m - 1);
      DeadStaysDead(c, Run(c, challenge, calls[..m - 1]), calls[m - 1]);
    }
  }

  lemma FailedIsDead(c: Client, challenge: seq<Byte>, before: seq<Call>, call: Call)
    requires Step(c, Run(c, challenge, before), call).log == Run(c, challenge, before).log
    ensures Dead(Step(c, Run(c, challenge, before), call).state)
  {
    hide Genuine, Follows, StateAfter;
    RunIsInStep(c, challenge, before);
    var s := Run(c, challenge, before);
    if Dead(s.state) {
      DeadStaysDead(c, s, call);
    } else {
      match call
      case PollCall(b) => PollFollows(c, challenge, s.log, b);
      case HandleCall(b, response) => HandleFollows(c, challenge, s.log, b, response);
    }
  }

  /** What handing out a host certificate means: it was offered first, and its owner then proved to know the PIN. */
  lemma TrustedCertificateIsProven(c: Client, challenge: seq<Byte>, calls: seq<Call>, i: nat)
    requires i < |Run(c, challenge, calls).log|
    requires Run(c, challenge, calls).log[i].Sent?
    requires !Run(c, challenge, calls).log[i].output.SendHttp?
    ensures
      var log := Run(c, challenge, calls).log;
      && i >= 8
      && log[1].Accepted?
      && log[8].Sent? && log[8].output == SetServerIdentifier(OfferedCertificate(log[1]))
      && log[1].response.Phase1Response? && log[1].response.certificate == Some(OfferedCertificate(log[1]))
      && ProvesIdentity(c, challenge, OfferedCertificate(log[1]), Decrypted(c, log[3]), log[5])
      && log[7].Accepted? && log[7].response == Phase4Response(true)
      && (log[i].output.SetServerIdentifier? ==> i == 8)
      && (log[i].output.SendHttps? ==> i == 9)
      && (log[i].output.Paired? ==> i == 11 && log[10].Accepted? && log[10].response == Phase4Response(true))
  {
    RunIsInStep(c, challenge, calls);
    var log := Run(c, challenge, calls).log;
    assert Follows(c, challenge, log[..i], log[i]);
    assert i >= 8;
    assert Follows(c, challenge, log[..1], log[1]);
    assert Follows(c, challenge, log[..5], log[5]);
    assert Follows(c, challenge, log[..7], log[7]);
    assert Follows(c, challenge, log[..8], log[8]);
    assert i >= 10 ==> Follows(c, challenge, log[..10], log[10]);
  }
}
