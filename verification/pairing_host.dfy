/**
 Pairing with an honest host. The host is not part of the repository: it is the counterpart the client's checks are
 written for. The cryptography is any backend with the usual laws.
 */
module PairingHost {
  import opened Wrappers
  import opened Bytes
  import opened Pairing
  import opened PairingRuns

  datatype Host = Host(certificate: Pem, key: Pem, pin: Pin, challenge: seq<Byte>, secret: seq<Byte>)

  /** What a host remembers between the phases. */
  datatype Memory = Memory(aesKey: seq<Byte>, clientCertificate: Pem, committed: Option<seq<Byte>>)

  ghost predicate Signs(b: Backend, key: Pem, certificate: Pem) {
    forall data :: b.sign(key, data).Some? && b.verify(data, b.sign(key, data).value, certificate) == Some(true)
  }

  /** Hashes have their standard lengths. */
  ghost predicate HashesNaturally(b: Backend) {
    forall algorithm, data :: b.digest(algorithm, data).Some? && |b.digest(algorithm, data).value| == DigestLen(algorithm)
  }

  /** Whole blocks can be encrypted and decrypted under every key, and decryption undoes encryption. */
  ghost predicate CipherInverts(b: Backend) {
    && (forall key, data | |key| == 16 && |data| % 16 == 0 ::
          && b.encrypt(key, data).Some? && |b.encrypt(key, data).value| == |data|
          && b.decrypt(key, b.encrypt(key, data).value) == Some(data))
    && (forall key, data | |key| == 16 && |data| % 16 == 0 ::
          b.decrypt(key, data).Some? && |b.decrypt(key, data).value| == |data|)
  }

  /** The laws for a client with this certificate and key, and a host. */
  ghost predicate Lawful(b: Backend, certificate: Pem, key: Pem, host: Host) {
    && HashesNaturally(b) && CipherInverts(b)
    && Signs(b, key, certificate) && Signs(b, host.key, host.certificate)
    && b.certificateSignature(certificate).Some? && b.certificateSignature(host.certificate).Some?
  }

  /** Key derivation is what a pairing starts with, and it works exactly for hosts from generation 7 on. */
  lemma PairingStartsFromGenerationSeven(b: Backend, majorVersion: int, certificate: Pem, key: Pem, pin: Pin, salt: seq<Byte>, secret: seq<Byte>)
    requires HashesNaturally(b)
    ensures NewClient(b, majorVersion, certificate, key, pin, salt, secret).Done? <==> majorVersion >= 7
    ensures majorVersion < 7 ==> NewClient(b, majorVersion, certificate, key, pin, salt, secret).Panic?
  {
    assert b.digest(AlgorithmFor(majorVersion), SaltPin(salt, pin)).Some?;
  }

  /** The hash both sides compute to commit to a secret. */
  ghost function Commitment(b: Backend, challenge: seq<Byte>, certificate: Pem, secret: seq<Byte>): (hash: seq<Byte>)
    requires HashesNaturally(b) && b.certificateSignature(certificate).Some?
    ensures |hash| == 32
  {
    assert b.digest(Sha256, challenge + b.certificateSignature(certificate).value + secret).Some?;
    b.digest(Sha256, challenge + b.certificateSignature(certificate).value + secret).value
  }

  /** The host derives the key from the salt it is sent and the PIN it shows. */
  ghost function HostKey(b: Backend, host: Host, salt: seq<Byte>): (key: seq<Byte>)
    requires HashesNaturally(b)
    ensures |key| == 16
  {
    var digits := [FromInt(48 + host.pin[0]), FromInt(48 + host.pin[1]), FromInt(48 + host.pin[2]), FromInt(48 + host.pin[3])];
    assert b.digest(Sha256, salt + digits).Some?;
    b.digest(Sha256, salt + digits).value[..16]
  }

  const Refused := Phase4Response(false)

  /** How an honest host answers. It pairs only with a client whose phase 4 secret opens its phase 3 commitment. */
  ghost function Serve(b: Backend, host: Host, m: Memory, request: Request): (Memory, Response)
    requires HashesNaturally(b) && b.certificateSignature(host.certificate).Some?
  {
    match request
    case Phase1Request(salt, certificate) =>
      (Memory(HostKey(b, host, salt), certificate, None), Phase1Response(true, Some(host.certificate)))
    case Phase2Request(encrypted) =>
      (var challenge := b.decrypt(m.aesKey, encrypted);
       if challenge.None? then (m, Refused)
       else
         var answer := b.encrypt(m.aesKey, Commitment(b, challenge.value, host.certificate, host.secret) + host.challenge);
         if answer.None? then (m, Refused) else (m, Phase2Response(true, answer.value)))
    case Phase3Request(encrypted) =>
      (var s := b.sign(host.key, host.secret);
       if s.None? then (m, Refused)
       else (m.(committed := b.decrypt(m.aesKey, encrypted)), Phase3Response(true, host.secret + s.value)))
    case Phase4Request(answer) =>
      (m, Phase4Response(
         && |answer| >= 16
         && b.verify(answer[..16], answer[16..], m.clientCertificate) == Some(true)
         && b.certificateSignature(m.clientCertificate).Some?
         && m.committed == Some(Commitment(b, host.challenge, m.clientCertificate, answer[..16]))))
    case Phase5Request => (m, Phase4Response(true))
  }

  /** The request that was handed out last and waits for its response. */
  ghost function Asked(log: seq<Event>): Option<Request> {
    if log == [] || !log[|log| - 1].Sent? then None
    else
      match log[|log| - 1].output
      case SendHttp(request) => Some(request)
      case SendHttps(request) => Some(request)
      case _ => None
  }

  /** The caller's loop: poll, and answer every request by asking the host. */
  ghost function Turn(b: Backend, host: Host, c: Client, s: Session, m: Memory): (Session, Memory)
    requires HashesNaturally(b) && b.certificateSignature(host.certificate).Some?
  {
    match Asked(s.log)
    case None => (Step(c, s, PollCall(b)), m)
    case Some(request) =>
      var answer := Serve(b, host, m, request);
      (Step(c, s, HandleCall(b, answer.1)), answer.0)
  }

  ghost function Pair(b: Backend, host: Host, c: Client, challenge: seq<Byte>, turns: nat): (Session, Memory)
    requires HashesNaturally(b) && b.certificateSignature(host.certificate).Some?
  {
    if turns == 0 then (Session(Some(SendPhase1(challenge)), []), Memory([], "", None))
    else
      var (s, m) := Pair(b, host, c, challenge, turns - 1);
      Turn(b, host, c, s, m)
  }

  // ---------- who gets paired ----------

  /** What passes between a client and a host whose PINs gave the keys `c.aesKey` and `hostKey`. */
  ghost predicate Exchange(b: Backend, c: Client, host: Host, challenge: seq<Byte>, hostKey: seq<Byte>) {
    && Lawful(b, c.certificate, c.key, host)
    && c.algorithm == Sha256
    && |c.aesKey| == 16 && HostKey(b, host, c.salt) == hostKey
    && |challenge| == |host.challenge| == 16
    && |c.secret| == |host.secret| == 16
  }

  /** Data encrypted under one key and decrypted under the other, if the cipher takes it. */
  ghost function Through(b: Backend, from: seq<Byte>, to: seq<Byte>, data: seq<Byte>): Option<seq<Byte>> {
    if b.encrypt(from, data).None? then None else b.decrypt(to, b.encrypt(from, data).value)
  }

  ghost function Carry(b: Backend, from: seq<Byte>, to: seq<Byte>, data: seq<Byte>): (r: seq<Byte>)
    requires CipherInverts(b) && |from| == |to| == 16 && |data| % 16 == 0
    ensures |r| == |data|
    ensures from == to ==> r == data
    ensures Through(b, from, to, data) == Some(r)
  {
    b.decrypt(to, b.encrypt(from, data).value).value
  }

  /** What the host answers in phase 2: a commitment to what it took for the challenge, and its own challenge. */
  ghost function Answer(b: Backend, host: Host, taken: seq<Byte>): (answer: seq<Byte>)
    requires HashesNaturally(b) && b.certificateSignature(host.certificate).Some?
    ensures |answer| == 32 + |host.challenge|
  {
    Commitment(b, taken, host.certificate, host.secret) + host.challenge
  }

  /** What the client reads of it. */
  ghost function Read(b: Backend, c: Client, host: Host, challenge: seq<Byte>, hostKey: seq<Byte>): (r: seq<Byte>)
    requires Exchange(b, c, host, challenge, hostKey)
    ensures |r| == 32 + 16
  {
    Carry(b, hostKey, c.aesKey, Answer(b, host, Carry(b, c.aesKey, hostKey, challenge)))
  }

  /** The client finds its own challenge in the host's commitment. */
  ghost predicate ClientConvinced(b: Backend, c: Client, host: Host, challenge: seq<Byte>, hostKey: seq<Byte>)
    requires Exchange(b, c, host, challenge, hostKey)
  {
    Read(b, c, host, challenge, hostKey)[..32] == Commitment(b, challenge, host.certificate, host.secret)
  }

  /** The host finds its challenge in the client's commitment. */
  ghost predicate HostConvinced(b: Backend, c: Client, host: Host, challenge: seq<Byte>, hostKey: seq<Byte>)
    requires Exchange(b, c, host, challenge, hostKey)
  {
    Carry(b, c.aesKey, hostKey, Commitment(b, Read(b, c, host, challenge, hostKey)[32..], c.certificate, c.secret))
    == Commitment(b, host.challenge, c.certificate, c.secret)
  }

  lemma NextTurn(b: Backend, c: Client, host: Host, challenge: seq<Byte>, n: nat)
    requires HashesNaturally(b) && b.certificateSignature(host.certificate).Some?
    ensures
      var (s, m) := Pair(b, host, c, challenge, n);
      Pair(b, host, c, challenge, n + 1) == Turn(b, host, c, s, m)
  {
    hide Turn;
  }

  lemma AfterPhase1(b: Backend, c: Client, host: Host, challenge: seq<Byte>, hostKey: seq<Byte>)
    requires Exchange(b, c, host, challenge, hostKey)
    ensures
      var (s, m) := Pair(b, host, c, challenge, 2);
      s.state == Some(SendPhase2(challenge, host.certificate)) && |s.log| == 2 && s.log[1].Accepted? && m == Memory(hostKey, c.certificate, None)
  {
    assert Pair(b, host, c, challenge, 1) == Turn(b, host, c, Session(Some(SendPhase1(challenge)), []), Memory([], "", None));
  }

  lemma AfterPhase2(b: Backend, c: Client, host: Host, challenge: seq<Byte>, hostKey: seq<Byte>)
    requires Exchange(b, c, host, challenge, hostKey)
    ensures
      var (s, m) := Pair(b, host, c, challenge, 4);
      var read := Read(b, c, host, challenge, hostKey);
      && s.state == Some(SendPhase3(challenge, host.certificate, read[..32], read[32..]))
      && |s.log| == 4 && s.log[3].Accepted? && m == Memory(hostKey, c.certificate, None)
  {
    AfterPhase1(b, c, host, challenge, hostKey);
    var (s, m) := Pair(b, host, c, challenge, 2);
    var (t, _) := Turn(b, host, c, s, m);
    assert Pair(b, host, c, challenge, 3) == (t, m);
    var read := Read(b, c, host, challenge, hostKey);
    assert Padded(read[..32]) == read[..32];
    assert read[32..32 + 16] == read[32..];
  }

  lemma AfterPhase3(b: Backend, c: Client, host: Host, challenge: seq<Byte>, hostKey: seq<Byte>)
    requires Exchange(b, c, host, challenge, hostKey)
    ensures
      var (s, m) := Pair(b, host, c, challenge, 6);
      && m == Memory(hostKey, c.certificate, Some(Carry(b, c.aesKey, hostKey,
           Commitment(b, Read(b, c, host, challenge, hostKey)[32..], c.certificate, c.secret))))
      && (if ClientConvinced(b, c, host, challenge, hostKey)
          then s.state == Some(SendPhase4(host.certificate)) && |s.log| == 6 && s.log[5].Accepted?
          else Dead(s.state) && |s.log| == 5)
    ensures
      var (s, m) := Pair(b, host, c, challenge, 5);
      && |s.log| == 5 && s.log[4].Sent? && s.log[4].output.SendHttp?
      && (!ClientConvinced(b, c, host, challenge, hostKey) ==>
            Handle(c, b, s.state, Serve(b, host, m, s.log[4].output.request).1).1 == Err(WrongPin))
  {
    hide Pair;
    AfterPhase2(b, c, host, challenge, hostKey);
    NextTurn(b, c, host, challenge, 4);
    NextTurn(b, c, host, challenge, 5);
    var (s, m) := Pair(b, host, c, challenge, 4);
    var read := Read(b, c, host, challenge, hostKey);
    HashGoesThrough(b, Sha256, read[32..], c.certificate, c.secret, 32);
    var mine := Commitment(b, read[32..], c.certificate, c.secret);
    assert Hashes(b, Sha256, read[32..], c.certificate, c.secret, mine);
    assert mine[..32] == mine;
    var (t, _) := Turn(b, host, c, s, m);
    assert Pair(b, host, c, challenge, 5) == (t, m);
    var signature := b.sign(host.key, host.secret).value;
    assert (host.secret + signature)[..16] == host.secret && (host.secret + signature)[16..] == signature;
    HashGoesThrough(b, Sha256, challenge, host.certificate, host.secret, 32);
    var theirs := Commitment(b, challenge, host.certificate, host.secret);
    assert Hashes(b, Sha256, challenge, host.certificate, host.secret, theirs);
    assert theirs[..32] == theirs;
  }

  lemma AfterPhase4(b: Backend, c: Client, host: Host, challenge: seq<Byte>, hostKey: seq<Byte>)
    requires Exchange(b, c, host, challenge, hostKey)
    requires ClientConvinced(b, c, host, challenge, hostKey)
    ensures
      var (s, _) := Pair(b, host, c, challenge, 8);
      if HostConvinced(b, c, host, challenge, hostKey)
      then s.state == Some(SetCertificate(host.certificate)) && |s.log| == 8 && s.log[7].Accepted?
      else Dead(s.state) && |s.log| == 7
  {
    hide Pair, CipherInverts, Carry, Read, ClientConvinced;
    AfterPhase3(b, c, host, challenge, hostKey);
    var (s, m) := Pair(b, host, c, challenge, 6);
    var signature := b.sign(c.key, c.secret).value;
    NextTurn(b, c, host, challenge, 6);
    NextTurn(b, c, host, challenge, 7);
    var (t, _) := Turn(b, host, c, s, m);
    assert Pair(b, host, c, challenge, 7) == (t, m);
    assert (c.secret + signature)[..16] == c.secret && (c.secret + signature)[16..] == signature;
  }

  lemma SetThenAsk(b: Backend, c: Client, host: Host, s: Session, m: Memory)
    requires HashesNaturally(b) && b.certificateSignature(host.certificate).Some?
    requires s.state == Some(SetCertificate(host.certificate)) && |s.log| == 8 && s.log[7].Accepted?
    ensures
      var (t, n) := Turn(b, host, c, s, m);
      Turn(b, host, c, t, n) == (Session(Some(RecvPhase5), s.log + [Sent(SetServerIdentifier(host.certificate), b), Sent(SendHttps(Phase5Request), b)]), m)
  {
    hide Serve, Handle;
    var first, second := Sent(SetServerIdentifier(host.certificate), b), Sent(SendHttps(Phase5Request), b);
    assert Turn(b, host, c, s, m) == (Session(Some(SendPhase5), s.log + [first]), m);
    assert s.log + [first] + [second] == s.log + [first, second];
  }

  lemma AskThenPaired(b: Backend, c: Client, host: Host, s: Session, m: Memory)
    requires HashesNaturally(b) && b.certificateSignature(host.certificate).Some?
    requires s.state == Some(RecvPhase5) && |s.log| == 10 && s.log[9] == Sent(SendHttps(Phase5Request), b)
    ensures
      var (t, n) := Turn(b, host, c, s, m);
      Turn(b, host, c, t, n).0.log == s.log + [Accepted(Phase4Response(true), b), Sent(Paired, b)]
  {
    assert Serve(b, host, m, Phase5Request) == (m, Phase4Response(true));
    hide Serve;
  }

  lemma AfterPhase5(b: Backend, c: Client, host: Host, challenge: seq<Byte>)
    requires HashesNaturally(b) && b.certificateSignature(host.certificate).Some?
    requires
      var (s, _) := Pair(b, host, c, challenge, 8);
      s.state == Some(SetCertificate(host.certificate)) && |s.log| == 8 && s.log[7].Accepted?
    ensures
      var (s, _) := Pair(b, host, c, challenge, 12);
      |s.log| == 12 && s.log[8].Sent? && s.log[8].output == SetServerIdentifier(host.certificate) && s.log[11] == Sent(Paired, b)
  {
    hide Pair, Turn;
    var (s, m) := Pair(b, host, c, challenge, 8);
    SetThenAsk(b, c, host, s, m);
    NextTurn(b, c, host, challenge, 8);
    NextTurn(b, c, host, challenge, 9);
    var (t, n) := Pair(b, host, c, challenge, 10);
    AskThenPaired(b, c, host, t, n);
    NextTurn(b, c, host, challenge, 10);
    NextTurn(b, c, host, challenge, 11);
  }

  lemma DeadTurn(b: Backend, c: Client, host: Host, s: Session, m: Memory)
    requires HashesNaturally(b) && b.certificateSignature(host.certificate).Some?
    requires Dead(s.state)
    ensures Dead(Turn(b, host, c, s, m).0.state) && Turn(b, host, c, s, m).0.log == s.log
  {
    hide Step, Serve;
    match Asked(s.log)
    case None => DeadStaysDead(c, s, PollCall(b));
    case Some(request) => DeadStaysDead(c, s, HandleCall(b, Serve(b, host, m, request).1));
  }

  lemma {:induction false} DeadPairing(b: Backend, c: Client, host: Host, challenge: seq<Byte>, n: nat, m: nat)
    requires HashesNaturally(b) && b.certificateSignature(host.certificate).Some?
    requires n <= m && Dead(Pair(b, host, c, challenge, n).0.state)
    ensures Dead(Pair(b, host, c, challenge, m).0.state) && Pair(b, host, c, challenge, m).0.log == Pair(b, host, c, challenge, n).0.log
  {
    hide Pair, Turn;
    if n < m {
      DeadPairing(b, c, host, challenge, n, m - 1);
      var (s, memory) := Pair(b, host, c, challenge, m - 1);
      DeadTurn(b, c, host, s, memory);
      NextTurn(b, c, host, challenge, m - 1);
    }
  }

  /** The main theorem: the twelve turns pair exactly when each side finds its own challenge in the other's commitment. */
  lemma PairsExactlyIfBothConvinced(b: Backend, c: Client, host: Host, challenge: seq<Byte>, hostKey: seq<Byte>)
    requires Exchange(b, c, host, challenge, hostKey)
    ensures
      var log := Pair(b, host, c, challenge, 12).0.log;
      |log| == 12 <==> ClientConvinced(b, c, host, challenge, hostKey) && HostConvinced(b, c, host, challenge, hostKey)
    ensures
      var log := Pair(b, host, c, challenge, 12).0.log;
      |log| == 12 ==> log[8].Sent? && log[8].output == SetServerIdentifier(host.certificate) && log[11] == Sent(Paired, b)
  {
    AfterPhase3(b, c, host, challenge, hostKey);
    if ClientConvinced(b, c, host, challenge, hostKey) {
      AfterPhase4(b, c, host, challenge, hostKey);
      if HostConvinced(b, c, host, challenge, hostKey) {
        AfterPhase5(b, c, host, challenge);
      } else {
        DeadPairing(b, c, host, challenge, 8, 12);
      }
    } else {
      DeadPairing(b, c, host, challenge, 6, 12);
    }
  }

  /** The host's key is the client's if it shows the PIN that was typed. */
  lemma SameKeyDerived(b: Backend, host: Host, salt: seq<Byte>)
    requires HashesNaturally(b)
    ensures b.digest(Sha256, Salted(salt, host.pin)).Some? && |b.digest(Sha256, Salted(salt, host.pin)).value| == 32
    ensures HostKey(b, host, salt) == b.digest(Sha256, Salted(salt, host.pin)).value[..16]
  {
    assert b.digest(Sha256, Salted(salt, host.pin)).Some?;
  }

  /** Completeness: with the same PIN on both sides, an honest host of generation 7 or later always gets paired. */
  lemma SamePinPairs(b: Backend, majorVersion: int, certificate: Pem, key: Pem, salt: seq<Byte>, secret: seq<Byte>, challenge: seq<Byte>,
                     host: Host)
    requires majorVersion >= 7 && Lawful(b, certificate, key, host)
    requires |challenge| == |host.challenge| == 16 && |secret| == |host.secret| == 16
    ensures
      var made := NewClient(b, majorVersion, certificate, key, host.pin, salt, secret);
      && made.Done?
      && var log := Pair(b, host, made.value, challenge, 12).0.log;
         |log| == 12 && log[8].Sent? && log[8].output == SetServerIdentifier(host.certificate) && log[11] == Sent(Paired, b)
  {
    hide Pair, ClientConvinced, HostConvinced, Salted, NewClient, HostKey;
    SameKeyDerived(b, host, salt);
    NewClientKeepsWhatItIsGiven(b, majorVersion, certificate, key, host.pin, salt, secret);
    var c := NewClient(b, majorVersion, certificate, key, host.pin, salt, secret).value;
    assert Exchange(b, c, host, challenge, c.aesKey);
    PairsExactlyIfBothConvinced(b, c, host, challenge, c.aesKey);
    SameKeyConvinces(b, c, host, challenge);
  }

  lemma SameKeyConvinces(b: Backend, c: Client, host: Host, challenge: seq<Byte>)
    requires Exchange(b, c, host, challenge, c.aesKey)
    ensures ClientConvinced(b, c, host, challenge, c.aesKey) && HostConvinced(b, c, host, challenge, c.aesKey)
  {
    var theirs := Commitment(b, challenge, host.certificate, host.secret);
    assert (theirs + host.challenge)[..32] == theirs && (theirs + host.challenge)[32..] == host.challenge;
  }

  // ---------- a wrong PIN ----------

  ghost function Digest(b: Backend, x: seq<Byte>): (digest: seq<Byte>)
    requires HashesNaturally(b)
    ensures |digest| == 32
  {
    assert b.digest(Sha256, x).Some?;
    b.digest(Sha256, x).value
  }

  /** A cipher that works block by block, as AES does in ECB mode: what comes behind the first 32 bytes does not change
      what they become. */
  ghost predicate Blockwise(b: Backend) {
    forall from, to, data | |from| == |to| == 16 && |data| == 48 ::
      var whole, head := Through(b, from, to, data), Through(b, from, to, data[..32]);
      whole.Some? && head.Some? && |whole.value| >= 32 ==> whole.value[..32] == head.value
  }

  /** A digest encrypted under one key does not happen to become a digest under another. */
  ghost predicate ForeignKeysShow(b: Backend)
    requires HashesNaturally(b)
  {
    forall from, to, x, y | |from| == |to| == 16 && from != to :: Through(b, from, to, Digest(b, x)) != Some(Digest(b, y))
  }

  /** No two PINs have the same key under this salt. */
  ghost predicate TellsPinsApart(b: Backend, salt: seq<Byte>) {
    forall pin: Pin, pin': Pin :: HeadsTellApart(b, Sha256, Salted(salt, pin), Salted(salt, pin'))
  }

  lemma HeadGoesThrough(b: Backend, from: seq<Byte>, to: seq<Byte>, data: seq<Byte>)
    requires Blockwise(b) && |from| == |to| == 16 && |data| == 48
    ensures
      var whole, head := Through(b, from, to, data), Through(b, from, to, data[..32]);
      whole.Some? && head.Some? && |whole.value| >= 32 ==> whole.value[..32] == head.value
  {
    hide Through;
  }

  lemma ForeignDigestDiffers(b: Backend, from: seq<Byte>, to: seq<Byte>, x: seq<Byte>, y: seq<Byte>)
    requires HashesNaturally(b) && ForeignKeysShow(b) && |from| == |to| == 16 && from != to
    ensures Through(b, from, to, Digest(b, x)) != Some(Digest(b, y))
  {
    hide HashesNaturally, Through, Digest;
  }

  lemma ForeignKeyDoesNotConvince(b: Backend, c: Client, host: Host, challenge: seq<Byte>, hostKey: seq<Byte>)
    requires Exchange(b, c, host, challenge, hostKey) && Blockwise(b) && ForeignKeysShow(b)
    requires hostKey != c.aesKey
    ensures !ClientConvinced(b, c, host, challenge, hostKey)
  {
    hide Signs, HostConvinced, HostKey, CipherInverts, Carry, Through, Blockwise, ForeignKeysShow;
    var taken := Carry(b, c.aesKey, hostKey, challenge);
    var answer := Answer(b, host, taken);
    var x := taken + b.certificateSignature(host.certificate).value + host.secret;
    var y := challenge + b.certificateSignature(host.certificate).value + host.secret;
    assert Commitment(b, challenge, host.certificate, host.secret) == Digest(b, y);
    assert answer[..32] == Digest(b, x);
    assert Carry(b, hostKey, c.aesKey, answer) == Read(b, c, host, challenge, hostKey);
    assert |Carry(b, hostKey, c.aesKey, answer[..32])| == 32;
    HeadGoesThrough(b, hostKey, c.aesKey, answer);
    ForeignDigestDiffers(b, hostKey, c.aesKey, x, y);
  }

  lemma {:induction false} PairingIsInStep(b: Backend, c: Client, host: Host, challenge: seq<Byte>, turns: nat)
    requires HashesNaturally(b) && b.certificateSignature(host.certificate).Some?
    ensures InStep(c, challenge, Pair(b, host, c, challenge, turns).0) && |Pair(b, host, c, challenge, turns).0.log| <= turns
  {
    hide Serve, Poll, Handle, StateAfter, Genuine;
    if turns == 0 {
      NothingSentYet(c, challenge);
      assert Genuine(c, challenge, []) by { NothingIsGenuine(c, challenge); }
    } else {
      PairingIsInStep(b, c, host, challenge, turns - 1);
      var (s, m) := Pair(b, host, c, challenge, turns - 1);
      match Asked(s.log)
      case None => StepKeepsInStep(c, challenge, s, PollCall(b));
      case Some(request) => StepKeepsInStep(c, challenge, s, HandleCall(b, Serve(b, host, m, request).1));
    }
  }

  lemma NothingIsGenuine(c: Client, challenge: seq<Byte>)
    ensures Genuine(c, challenge, [])
  {
  }

  /** Of the outputs of a pairing, those that trust the host come after the eighth event. */
  lemma EarlyOutputsAreRequests(c: Client, challenge: seq<Byte>, log: seq<Event>)
    requires Genuine(c, challenge, log) && |log| < 8
    ensures forall i | 0 <= i < |log| && log[i].Sent? :: log[i].output.SendHttp?
  {
    forall i | 0 <= i < |log| && log[i].Sent? ensures log[i].output.SendHttp? {
      assert Follows(c, challenge, log[..i], log[i]);
    }
  }

  /**
   Soundness: if the PIN typed is not the one the host shows, no number of turns pairs. The client never trusts the
   host's certificate, sends no encrypted request and does not report success; it reports a wrong PIN at the host's
   third response.
   */
  lemma WrongPinNeverPairs(b: Backend, majorVersion: int, certificate: Pem, key: Pem, pin: Pin, salt: seq<Byte>, secret: seq<Byte>,
                           challenge: seq<Byte>, host: Host, turns: nat)
    requires majorVersion >= 7 && Lawful(b, certificate, key, host)
    requires |challenge| == |host.challenge| == 16 && |secret| == |host.secret| == |salt| == 16
    requires Blockwise(b) && ForeignKeysShow(b) && TellsPinsApart(b, salt)
    requires pin != host.pin
    ensures
      var made := NewClient(b, majorVersion, certificate, key, pin, salt, secret);
      && made.Done?
      && (var log := Pair(b, host, made.value, challenge, turns).0.log;
          |log| <= 5 && forall i | 0 <= i < |log| && log[i].Sent? :: log[i].output.SendHttp?)
      && (var (s, m) := Pair(b, host, made.value, challenge, 5);
          && |s.log| == 5 && s.log[4].Sent? && s.log[4].output.SendHttp?
          && Handle(made.value, b, s.state, Serve(b, host, m, s.log[4].output.request).1).1 == Err(WrongPin))
  {
    hide Pair, Serve, Handle, ClientConvinced, Salted, NewClient, HostKey, StateAfter, Genuine, Blockwise, ForeignKeysShow, Signs;
    var c, hostKey := WrongPinExchange(b, majorVersion, certificate, key, pin, salt, secret, challenge, host);
    ForeignKeyDoesNotConvince(b, c, host, challenge, hostKey);
    AfterPhase3(b, c, host, challenge, hostKey);
    hide Exchange;
    if turns > 6 {
      DeadPairing(b, c, host, challenge, 6, turns);
    }
    PairingIsInStep(b, c, host, challenge, turns);
    EarlyOutputsAreRequests(c, challenge, Pair(b, host, c, challenge, turns).0.log);
  }

  lemma WrongPinExchange(b: Backend, majorVersion: int, certificate: Pem, key: Pem, pin: Pin, salt: seq<Byte>, secret: seq<Byte>,
                         challenge: seq<Byte>, host: Host)
    returns (c: Client, hostKey: seq<Byte>)
    requires majorVersion >= 7 && Lawful(b, certificate, key, host)
    requires |challenge| == |host.challenge| == 16 && |secret| == |host.secret| == 16
    requires TellsPinsApart(b, salt) && pin != host.pin && |salt| == 16
    ensures NewClient(b, majorVersion, certificate, key, pin, salt, secret) == Done(c)
    ensures Exchange(b, c, host, challenge, hostKey) && hostKey != c.aesKey
  {
    hide Salted, NewClient, HostKey, CipherInverts, Signs;
    SameKeyDerived(b, host, salt);
    NewClientKeepsWhatItIsGiven(b, majorVersion, certificate, key, pin, salt, secret);
    SaltedDiffers(salt, pin, salt, host.pin);
    hostKey := HostKey(b, host, salt);
    assert HeadsTellApart(b, Sha256, Salted(salt, pin), Salted(salt, host.pin));
    c := NewClient(b, majorVersion, certificate, key, pin, salt, secret).value;
  }

  /** Both together: the client reports success if and only if the PINs agree. */
  lemma PairedExactlyIfPinsAgree(b: Backend, majorVersion: int, certificate: Pem, key: Pem, pin: Pin, salt: seq<Byte>, secret: seq<Byte>,
                                 challenge: seq<Byte>, host: Host)
    requires majorVersion >= 7 && Lawful(b, certificate, key, host)
    requires |challenge| == |host.challenge| == 16 && |secret| == |host.secret| == |salt| == 16
    requires Blockwise(b) && ForeignKeysShow(b) && TellsPinsApart(b, salt)
    ensures
      var made := NewClient(b, majorVersion, certificate, key, pin, salt, secret);
      && made.Done?
      && ((exists turns: nat :: Sent(Paired, b) in Pair(b, host, made.value, challenge, turns).0.log) <==> pin == host.pin)
  {
    hide Pair, NewClient, Handle, Serve, Signs, CipherInverts, HashesNaturally, Blockwise, ForeignKeysShow, TellsPinsApart;
    if pin == host.pin {
      SamePinPairs(b, majorVersion, certificate, key, salt, secret, challenge, host);
      var c := NewClient(b, majorVersion, certificate, key, pin, salt, secret).value;
      assert Pair(b, host, c, challenge, 12).0.log[11] == Sent(Paired, b);
    } else {
      WrongPinNeverPairs(b, majorVersion, certificate, key, pin, salt, secret, challenge, host, 0);
      var c := NewClient(b, majorVersion, certificate, key, pin, salt, secret).value;
      forall turns: nat ensures Sent(Paired, b) !in Pair(b, host, c, challenge, turns).0.log {
        WrongPinNeverPairs(b, majorVersion, certificate, key, pin, salt, secret, challenge, host, turns);
      }
    }
  }

  // ---------- the laws do not contradict each other ----------

  /** A cipher for the purpose: every byte is added to the one of the key at its place in its block. */
  function Masked(key: seq<Byte>, data: seq<Byte>): (r: seq<Byte>)
    requires |key| == 16
    ensures |r| == |data|
  {
    seq(|data|, i requires 0 <= i < |data| => data[i] ^ key[i % 16])
  }

  function MaskedBlocks(key: seq<Byte>, data: seq<Byte>): Option<seq<Byte>> {
    if |key| == 16 && |data| % 16 == 0 then Some(Masked(key, data)) else None
  }

  /** And a digest: the last four of twenty bytes, with zeros behind them. */
  function LastFour(algorithm: HashAlgorithm, data: seq<Byte>): (digest: seq<Byte>)
    ensures |digest| == DigestLen(algorithm)
    ensures algorithm.Sha256? ==> forall i | 16 <= i < 32 :: digest[i] == 0
  {
    var head := if |data| == 20 then data[16..] else seq(4, _ => 0);
    head + seq(DigestLen(algorithm) - 4, _ => 0)
  }

  function Toy(): Backend {
    Backend((algorithm, data) => Some(LastFour(algorithm, data)), (key, data) => MaskedBlocks(key, data),
            (key, data) => MaskedBlocks(key, data), certificate => Some([]), (data, signature, certificate) => Some(true),
            (key, data) => Some([]))
  }

  lemma MaskComesOff(a: Byte, b: Byte, c: Byte)
    ensures (a ^ b) ^ b == a
    ensures a == 0 && (a ^ b) ^ c == 0 ==> b == c
  {
  }

  lemma MaskedTwice(key: seq<Byte>, data: seq<Byte>)
    requires |key| == 16
    ensures Masked(key, Masked(key, data)) == data
  {
    forall i | 0 <= i < |data| ensures Masked(key, Masked(key, data))[i] == data[i] {
      MaskComesOff(data[i], key[i % 16], 0);
    }
  }

  lemma ToyInverts()
    ensures CipherInverts(Toy())
  {
    hide Masked;
    forall key: seq<Byte>, data: seq<Byte> | |key| == 16 && |data| % 16 == 0 ensures Masked(key, Masked(key, data)) == data {
      MaskedTwice(key, data);
    }
  }

  lemma ToyCarries(from: seq<Byte>, to: seq<Byte>, data: seq<Byte>)
    requires |from| == |to| == 16 && |data| % 16 == 0
    ensures Through(Toy(), from, to, data) == Some(Masked(to, Masked(from, data)))
  {
    hide Masked;
  }

  lemma ToyIsBlockwise()
    ensures Blockwise(Toy())
  {
    hide Through, Toy;
    forall from: seq<Byte>, to: seq<Byte>, data: seq<Byte> | |from| == |to| == 16 && |data| == 48
      ensures
        var whole, head := Through(Toy(), from, to, data), Through(Toy(), from, to, data[..32]);
        whole.Some? && head.Some? && |whole.value| >= 32 ==> whole.value[..32] == head.value
    {
      ToyCarries(from, to, data);
      ToyCarries(from, to, data[..32]);
      MaskedHead(from, to, data, 32);
    }
  }

  lemma MaskedHead(from: seq<Byte>, to: seq<Byte>, data: seq<Byte>, n: nat)
    requires |from| == |to| == 16 && n <= |data|
    ensures Masked(to, Masked(from, data))[..n] == Masked(to, Masked(from, data[..n]))
  {
  }

  lemma ToyShowsForeignKeys()
    requires HashesNaturally(Toy())
    ensures ForeignKeysShow(Toy())
  {
    hide Through, HashesNaturally, LastFour, Masked;
    forall from: seq<Byte>, to: seq<Byte>, x, y | |from| == |to| == 16 && from != to
      ensures Through(Toy(), from, to, Digest(Toy(), x)) != Some(Digest(Toy(), y))
    {
      assert Digest(Toy(), x) == LastFour(Sha256, x) && Digest(Toy(), y) == LastFour(Sha256, y);
      ToyCarries(from, to, LastFour(Sha256, x));
      ZerosShowKeys(from, to, LastFour(Sha256, x));
    }
  }

  lemma ZerosShowKeys(from: seq<Byte>, to: seq<Byte>, d: seq<Byte>)
    requires |from| == |to| == 16 && from != to && |d| == 32 && forall i | 16 <= i < 32 :: d[i] == 0
    ensures exists i :: 16 <= i < 32 && Masked(to, Masked(from, d))[i] != 0
  {
    var i :| 0 <= i < 16 && from[i] != to[i];
    MaskComesOff(d[16 + i], from[i], to[i]);
    assert Masked(to, Masked(from, d))[16 + i] == (d[16 + i] ^ from[i]) ^ to[i];
  }

  lemma ToyTellsPinsApart(salt: seq<Byte>)
    requires |salt| == 16
    ensures TellsPinsApart(Toy(), salt)
  {
    hide FromInt;
    forall pin: Pin, pin': Pin ensures HeadsTellApart(Toy(), Sha256, Salted(salt, pin), Salted(salt, pin')) {
      var x, y := Salted(salt, pin), Salted(salt, pin');
      var h, h' := LastFour(Sha256, x), LastFour(Sha256, y);
      assert x == salt + x[16..] && y == salt + y[16..];
      if h[..16] == h'[..16] {
        assert x[16..] == h[..16][..4] && y[16..] == h'[..16][..4];
      }
    }
  }

  lemma LawsCanBeMet(certificate: Pem, key: Pem, host: Host, salt: seq<Byte>)
    requires |salt| == 16
    ensures exists b: Backend ::
              Lawful(b, certificate, key, host) && Blockwise(b) && ForeignKeysShow(b) && TellsPinsApart(b, salt)
  {
    ToyInverts();
    ToyIsLawful(certificate, key, host);
    ToyIsBlockwise();
    ToyShowsForeignKeys();
    ToyTellsPinsApart(salt);
    hide Lawful, Blockwise, ForeignKeysShow, TellsPinsApart;
  }

  lemma ToyIsLawful(certificate: Pem, key: Pem, host: Host)
    ensures Lawful(Toy(), certificate, key, host) && HashesNaturally(Toy())
  {
    ToyInverts();
    hide CipherInverts, LastFour, MaskedBlocks;
  }
}
