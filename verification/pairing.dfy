/**
 The client's side of pairing: a machine that is polled for requests and fed the responses.
 The cryptography is a parameter; only its laws are assumed, and only where they are named.
 */
module Pairing {
  import opened Wrappers
  import opened Bytes

  type Pem = string

  const SALT_LENGTH := 16
  const CHALLENGE_LENGTH := 16
  const KEY_LENGTH := 16
  const SECRET_LENGTH := 16
  const MAX_HASH_LEN := 32

  datatype HashAlgorithm = Sha1 | Sha256

  function HashLen(algorithm: HashAlgorithm): nat {
    match algorithm case Sha1 => 20 case Sha256 => 32
  }

  function AlgorithmFor(majorVersion: int): HashAlgorithm {
    if majorVersion >= 7 then Sha256 else Sha1
  }

  /** The operations of a crypto backend; None is an error of the backend. */
  datatype Backend = Backend(
    digest: (HashAlgorithm, seq<Byte>) -> Option<seq<Byte>>,
    encrypt: (seq<Byte>, seq<Byte>) -> Option<seq<Byte>>,
    decrypt: (seq<Byte>, seq<Byte>) -> Option<seq<Byte>>,
    certificateSignature: Pem -> Option<seq<Byte>>,
    verify: (seq<Byte>, seq<Byte>, Pem) -> Option<bool>,
    sign: (Pem, seq<Byte>) -> Option<seq<Byte>>)

  datatype PairError = PairingFailed | WrongPin | BackendError

  datatype Outcome<+T> = Done(value: T) | Err(error: PairError) | Panic

  datatype Request =
    | Phase1Request(salt: seq<Byte>, clientCertificate: Pem)
    | Phase2Request(encryptedChallenge: seq<Byte>)
    | Phase3Request(encryptedResponseHash: seq<Byte>)
    | Phase4Request(clientPairingSecret: seq<Byte>)
    | Phase5Request

  datatype Response =
    | Phase1Response(paired: bool, certificate: Option<Pem>)
    | Phase2Response(paired: bool, encryptedResponse: seq<Byte>)
    | Phase3Response(paired: bool, serverPairingSecret: seq<Byte>)
    | Phase4Response(paired: bool)

  datatype Output = SendHttp(request: Request) | SetServerIdentifier(certificate: Pem) | SendHttps(request: Request) | Paired

  datatype State =
    | Failed
    | SendPhase1(challenge: seq<Byte>)
    | RecvPhase1(challenge: seq<Byte>)
    | SendPhase2(challenge: seq<Byte>, certificate: Pem)
    | RecvPhase2(challenge: seq<Byte>, certificate: Pem)
    | SendPhase3(challenge: seq<Byte>, certificate: Pem, responseHash: seq<Byte>, serverChallenge: seq<Byte>)
    | RecvPhase3(challenge: seq<Byte>, certificate: Pem, responseHash: seq<Byte>)
    | SendPhase4(certificate: Pem)
    | RecvPhase4(certificate: Pem)
    | SetCertificate(certificate: Pem)
    | SendPhase5
    | RecvPhase5
    | PairedState

  /** What stays fixed during a pairing. */
  datatype Client = Client(certificate: Pem, key: Pem, algorithm: HashAlgorithm, salt: seq<Byte>, aesKey: seq<Byte>, secret: seq<Byte>)

  // ---------- hashing ----------

  /** Hashing always goes through a 32-byte buffer; a backend copies its digest there and panics if it does not fit. */
  function HashUneq(b: Backend, algorithm: HashAlgorithm, data: seq<Byte>, len: nat): (r: Outcome<seq<Byte>>)
    requires len <= MAX_HASH_LEN
    ensures r.Done? ==> |r.value| == len
  {
    match b.digest(algorithm, data)
    case None => Err(BackendError)
    case Some(digest) => if |digest| != MAX_HASH_LEN then Panic else Done(digest[..len])
  }

  type Pin = p: seq<nat> | |p| == 4 && forall i :: 0 <= i < 4 ==> p[i] < 10 witness [0, 0, 0, 0]

  function SaltPin(salt: seq<Byte>, pin: Pin): seq<Byte> {
    salt + seq(4, i requires 0 <= i < 4 => FromInt(0x30 + pin[i]))
  }

  /** The salt and the digits of the PIN as characters: another salt or another PIN is another input of the hash. */
  lemma SaltedPinsDiffer(salt: seq<Byte>, pin: Pin, salt': seq<Byte>, pin': Pin)
    requires |salt| == |salt'| == SALT_LENGTH
    ensures SaltPin(salt, pin) == SaltPin(salt', pin') <==> salt == salt' && pin == pin'
    ensures |SaltPin(salt, pin)| == SALT_LENGTH + 4
  {
    hide FromInt, ToInt;
    var a, b := SaltPin(salt, pin), SaltPin(salt', pin');
    if a == b {
      assert salt == a[..SALT_LENGTH] == b[..SALT_LENGTH] == salt';
      forall i | 0 <= i < 4 ensures pin[i] == pin'[i] {
        assert a[SALT_LENGTH + i] == FromInt(0x30 + pin[i]) && b[SALT_LENGTH + i] == FromInt(0x30 + pin'[i]);
        IntRoundTrip(0x30 + pin[i]);
        IntRoundTrip(0x30 + pin'[i]);
      }
    }
  }

  function AesKey(b: Backend, algorithm: HashAlgorithm, salt: seq<Byte>, pin: Pin): Outcome<seq<Byte>> {
    HashUneq(b, algorithm, SaltPin(salt, pin), KEY_LENGTH)
  }

  /** The salt and the four digits that were typed, as ASCII characters. */
  function Salted(salt: seq<Byte>, pin: Pin): seq<Byte> {
    salt + [FromInt(48 + pin[0]), FromInt(48 + pin[1]), FromInt(48 + pin[2]), FromInt(48 + pin[3])]
  }

  /** The key is the first half of the digest of the salt and the digits typed, whenever that digest has 32 bytes. */
  lemma KeyIsTheDigestsHead(b: Backend, algorithm: HashAlgorithm, salt: seq<Byte>, pin: Pin)
    ensures
      AesKey(b, algorithm, salt, pin)
      == match b.digest(algorithm, Salted(salt, pin))
         case None => Err(BackendError)
         case Some(digest) => if |digest| == 32 then Done(digest[..16]) else Panic
  {
    hide FromInt;
    assert SaltPin(salt, pin) == Salted(salt, pin);
  }

  /** The two inputs have digests of 32 bytes that do not agree in their first 16 by chance. */
  ghost predicate HeadsTellApart(b: Backend, algorithm: HashAlgorithm, x: seq<Byte>, y: seq<Byte>) {
    && b.digest(algorithm, x).Some? && |b.digest(algorithm, x).value| == 32
    && b.digest(algorithm, y).Some? && |b.digest(algorithm, y).value| == 32
    && (b.digest(algorithm, x).value[..16] == b.digest(algorithm, y).value[..16] ==> x == y)
  }

  /** Two keys are equal exactly if both the salts and the PINs are. */
  lemma KeysTellApart(b: Backend, algorithm: HashAlgorithm, salt: seq<Byte>, pin: Pin, salt': seq<Byte>, pin': Pin)
    requires |salt| == |salt'| == 16
    requires HeadsTellApart(b, algorithm, Salted(salt, pin), Salted(salt', pin'))
    ensures
      var x, y := AesKey(b, algorithm, salt, pin), AesKey(b, algorithm, salt', pin');
      x.Done? && y.Done? && (x == y <==> salt == salt' && pin == pin')
  {
    hide FromInt, AesKey, Salted;
    KeyIsTheDigestsHead(b, algorithm, salt, pin);
    KeyIsTheDigestsHead(b, algorithm, salt', pin');
    SaltedDiffers(salt, pin, salt', pin');
  }

  lemma SaltedDiffers(salt: seq<Byte>, pin: Pin, salt': seq<Byte>, pin': Pin)
    requires |salt| == |salt'| == 16
    ensures Salted(salt, pin) == Salted(salt', pin') <==> salt == salt' && pin == pin'
  {
    hide FromInt;
    SaltedPinsDiffer(salt, pin, salt', pin');
    assert SaltPin(salt, pin) == Salted(salt, pin) && SaltPin(salt', pin') == Salted(salt', pin');
  }

  /** What stays fixed during a pairing is settled first; only the key derivation can go wrong. */
  function NewClient(b: Backend, majorVersion: int, certificate: Pem, key: Pem, pin: Pin, salt: seq<Byte>, secret: seq<Byte>): Outcome<Client> {
    match AesKey(b, AlgorithmFor(majorVersion), salt, pin)
    case Err(e) => Err(e)
    case Panic => Panic
    case Done(aesKey) => Done(Client(certificate, key, AlgorithmFor(majorVersion), salt, aesKey, secret))
  }

  /** A pairing starts exactly if the key can be derived, with SHA-256 from generation 7 on and with SHA-1 before; it
      keeps the identity, the salt and the secret it was given. */
  lemma NewClientKeepsWhatItIsGiven(b: Backend, majorVersion: int, certificate: Pem, key: Pem, pin: Pin, salt: seq<Byte>, secret: seq<Byte>)
    ensures
      var algorithm := if majorVersion >= 7 then Sha256 else Sha1;
      NewClient(b, majorVersion, certificate, key, pin, salt, secret)
      == match b.digest(algorithm, Salted(salt, pin))
         case None => Err(BackendError)
         case Some(digest) =>
           if |digest| == 32 then Done(Client(certificate, key, algorithm, salt, digest[..16], secret)) else Panic
  {
    hide AesKey, Salted;
    KeyIsTheDigestsHead(b, if majorVersion >= 7 then Sha256 else Sha1, salt, pin);
  }

  // ---------- the machine ----------

  /** A hash value in its 32-byte field, with zeros behind it. */
  function Padded(hash: seq<Byte>): (r: seq<Byte>)
    requires |hash| <= MAX_HASH_LEN
    ensures |r| == MAX_HASH_LEN
  {
    hash + seq(MAX_HASH_LEN - |hash|, _ => 0)
  }

  /** Handles the response to the last request. The state is taken out first, so it is gone after a backend error. */
  function Handle(c: Client, b: Backend, state: Option<State>, response: Response): (Option<State>, Outcome<()>) {
    if state.None? then (None, Panic)
    else
      match state.value
      case RecvPhase1(challenge) =>
        if response.Phase1Response? && response.paired && response.certificate.Some? then
          (Some(SendPhase2(challenge, response.certificate.value)), Done(()))
        else (Some(Failed), Err(PairingFailed))
      case RecvPhase2(challenge, certificate) =>
        if response.Phase2Response? && response.paired then
          match b.decrypt(c.aesKey, response.encryptedResponse) {
            case None => (None, Err(BackendError))
            case Some(plain) =>
              var n := HashLen(c.algorithm);
              if |plain| < n + CHALLENGE_LENGTH then (Some(Failed), Err(PairingFailed))
              else (Some(SendPhase3(challenge, certificate, Padded(plain[..n]), plain[n..n + CHALLENGE_LENGTH])), Done(()))
          }
        else (Some(Failed), Err(PairingFailed))
      case RecvPhase3(challenge, certificate, responseHash) =>
        if response.Phase3Response? && response.paired && |response.serverPairingSecret| >= SECRET_LENGTH then
          CheckServerSecret(c, b, challenge, certificate, responseHash,
                            response.serverPairingSecret[..SECRET_LENGTH], response.serverPairingSecret[SECRET_LENGTH..])
        else (Some(Failed), Err(PairingFailed))
      case RecvPhase4(certificate) =>
        if response.Phase4Response? && response.paired then (Some(SetCertificate(certificate)), Done(()))
        else (Some(Failed), Err(PairingFailed))
      case RecvPhase5 =>
        if response.Phase4Response? && response.paired then (Some(PairedState), Done(()))
        else (Some(Failed), Err(PairingFailed))
      case _ => (None, Panic)
  }

  function CheckServerSecret(c: Client, b: Backend, challenge: seq<Byte>, certificate: Pem, responseHash: seq<Byte>,
                             secret: seq<Byte>, signature: seq<Byte>): (Option<State>, Outcome<()>)
  {
    match b.verify(secret, signature, certificate)
    case None => (None, Err(BackendError))
    case Some(false) => (Some(Failed), Err(PairingFailed))
    case Some(true) =>
      match b.certificateSignature(certificate)
      case None => (None, Err(BackendError))
      case Some(s) =>
        match HashUneq(b, c.algorithm, challenge + s + secret, MAX_HASH_LEN)
        case Err(e) => (None, Err(e))
        case Panic => (None, Panic)
        case Done(expected) =>
          if responseHash != expected then (Some(Failed), Err(WrongPin)) else (Some(SendPhase4(certificate)), Done(()))
  }

  function Poll(c: Client, b: Backend, state: Option<State>): (Option<State>, Outcome<Output>) {
    if state.None? then (None, Panic)
    else
      match state.value
      case SendPhase1(challenge) => (Some(RecvPhase1(challenge)), Done(SendHttp(Phase1Request(c.salt, c.certificate))))
      case SendPhase2(challenge, certificate) =>
        (match b.encrypt(c.aesKey, challenge)
         case None => (None, Err(BackendError))
         case Some(e) => (Some(RecvPhase2(challenge, certificate)), Done(SendHttp(Phase2Request(e)))))
      case SendPhase3(challenge, certificate, responseHash, serverChallenge) =>
        (match b.certificateSignature(c.certificate)
         case None => (None, Err(BackendError))
         case Some(s) =>
           match HashUneq(b, c.algorithm, serverChallenge + s + c.secret, HashLen(c.algorithm))
           case Err(e) => (None, Err(e))
           case Panic => (None, Panic)
           case Done(hash) =>
             match b.encrypt(c.aesKey, hash)
             case None => (None, Err(BackendError))
             case Some(e) => (Some(RecvPhase3(challenge, certificate, responseHash)), Done(SendHttp(Phase3Request(e)))))
      case SendPhase4(certificate) =>
        (match b.sign(c.key, c.secret)
         case None => (None, Err(BackendError))
         case Some(s) => (Some(RecvPhase4(certificate)), Done(SendHttp(Phase4Request(c.secret + s)))))
      case SetCertificate(certificate) => (Some(SendPhase5), Done(SetServerIdentifier(certificate)))
      case SendPhase5 => (Some(RecvPhase5), Done(SendHttps(Phase5Request)))
      case PairedState => (None, Done(Paired))
      case _ => (None, Panic)
  }

  class ClientPairing {
    const client: Client
    const backend: Backend
    var state: Option<State>

    static method New(b: Backend, majorVersion: int, certificate: Pem, key: Pem, pin: Pin,
                      salt: seq<Byte>, challenge: seq<Byte>, secret: seq<Byte>) returns (r: Outcome<ClientPairing>)
      ensures
        match NewClient(b, majorVersion, certificate, key, pin, salt, secret)
        case Done(c) => r.Done? && fresh(r.value) && r.value.client == c && r.value.backend == b && r.value.state == Some(SendPhase1(challenge))
        case Err(e) => r == Err(e)
        case Panic => r == Panic
    {
      var algorithm := AlgorithmFor(majorVersion);
      var aesKey := AesKey(b, algorithm, salt, pin);
      if !aesKey.Done? {
        return if aesKey.Err? then Err(aesKey.error) else Panic;
      }
      var pairing := new ClientPairing(Client(certificate, key, algorithm, salt, aesKey.value, secret), b, challenge);
      return Done(pairing);
    }

    constructor (client: Client, backend: Backend, challenge: seq<Byte>)
      ensures this.client == client && this.backend == backend && state == Some(SendPhase1(challenge))
    {
      this.client, this.backend, state := client, backend, Some(SendPhase1(challenge));
    }

    method HandleResponse(response: Response) returns (r: Outcome<()>)
      modifies this
      ensures (state, r) == Handle(client, backend, old(state), response)
    {
      var taken := state;
      state := None;
      if taken.None? {
        return Panic;
      }
      match taken.value {
        case RecvPhase1(challenge) =>
          if !response.Phase1Response? || !response.paired || response.certificate.None? {
            state := Some(Failed);
            return Err(PairingFailed);
          }
          state := Some(SendPhase2(challenge, response.certificate.value));
          return Done(());
        case RecvPhase2(challenge, certificate) =>
          if !response.Phase2Response? || !response.paired {
            state := Some(Failed);
            return Err(PairingFailed);
          }
          var plain := backend.decrypt(client.aesKey, response.encryptedResponse);
          if plain.None? {
            return Err(BackendError);
          }
          var n := HashLen(client.algorithm);
          if |plain.value| < n + CHALLENGE_LENGTH {
            state := Some(Failed);
            return Err(PairingFailed);
          }
          state := Some(SendPhase3(challenge, certificate, Padded(plain.value[..n]), plain.value[n..n + CHALLENGE_LENGTH]));
          return Done(());
        case RecvPhase3(challenge, certificate, responseHash) =>
          if !response.Phase3Response? || !response.paired || |response.serverPairingSecret| < SECRET_LENGTH {
            state := Some(Failed);
            return Err(PairingFailed);
          }
          r := VerifyServer(challenge, certificate, responseHash, response.serverPairingSecret[..SECRET_LENGTH],
                            response.serverPairingSecret[SECRET_LENGTH..]);
        case RecvPhase4(certificate) =>
          if !response.Phase4Response? || !response.paired {
            state := Some(Failed);
            return Err(PairingFailed);
          }
          state := Some(SetCertificate(certificate));
          return Done(());
        case RecvPhase5 =>
          if !response.Phase4Response? || !response.paired {
            state := Some(Failed);
            return Err(PairingFailed);
          }
          state := Some(PairedState);
          return Done(());
        case _ =>
          return Panic;
      }
    }

    method VerifyServer(challenge: seq<Byte>, certificate: Pem, responseHash: seq<Byte>, secret: seq<Byte>, signature: seq<Byte>)
      returns (r: Outcome<()>)
      requires state.None?
      modifies this
      ensures (state, r) == CheckServerSecret(client, backend, challenge, certificate, responseHash, secret, signature)
    {
      var verified := backend.verify(secret, signature, certificate);
      if verified.None? {
        return Err(BackendError);
      }
      if !verified.value {
        state := Some(Failed);
        return Err(PairingFailed);
      }
      var s := backend.certificateSignature(certificate);
      if s.None? {
        return Err(BackendError);
      }
      var expected := HashUneq(backend, client.algorithm, challenge + s.value + secret, MAX_HASH_LEN);
      match expected {
        case Err(e) => return Err(e);
        case Panic => return Panic;
        case Done(hash) =>
          if responseHash != hash {
            state := Some(Failed);
            return Err(WrongPin);
          }
      }
      state := Some(SendPhase4(certificate));
      return Done(());
    }

    method PollOutput() returns (r: Outcome<Output>)
      modifies this
      ensures (state, r) == Poll(client, backend, old(state))
    {
      var taken := state;
      state := None;
      if taken.None? {
        return Panic;
      }
      match taken.value {
        case SendPhase1(challenge) =>
          state := Some(RecvPhase1(challenge));
          return Done(SendHttp(Phase1Request(client.salt, client.certificate)));
        case SendPhase2(challenge, certificate) =>
          var e := backend.encrypt(client.aesKey, challenge);
          if e.None? {
            return Err(BackendError);
          }
          state := Some(RecvPhase2(challenge, certificate));
          return Done(SendHttp(Phase2Request(e.value)));
        case SendPhase3(challenge, certificate, responseHash, serverChallenge) =>
          var s := backend.certificateSignature(client.certificate);
          if s.None? {
            return Err(BackendError);
          }
          var hash := HashUneq(backend, client.algorithm, serverChallenge + s.value + client.secret, HashLen(client.algorithm));
          if !hash.Done? {
            return if hash.Err? then Err(hash.error) else Panic;
          }
          var e := backend.encrypt(client.aesKey, hash.value);
          if e.None? {
            return Err(BackendError);
          }
          state := Some(RecvPhase3(challenge, certificate, responseHash));
          return Done(SendHttp(Phase3Request(e.value)));
        case SendPhase4(certificate) =>
          var s := backend.sign(client.key, client.secret);
          if s.None? {
            return Err(BackendError);
          }
          state := Some(RecvPhase4(certificate));
          return Done(SendHttp(Phase4Request(client.secret + s.value)));
        case SetCertificate(certificate) =>
          state := Some(SendPhase5);
          return Done(SetServerIdentifier(certificate));
        case SendPhase5 =>
          state := Some(RecvPhase5);
          return Done(SendHttps(Phase5Request));
        case PairedState =>
          return Done(Paired);
        case _ =>
          return Panic;
      }
    }
  }
}
