/**
 * When each end of the handshake goes on, and with what: the conditions in the fields of the
 * messages, the signed bytes, the derived keys and the first records.
 */
module Negotiation {
  import opened Bytes
  import opened Crypto
  import opened Frames
  import opened Messages
  import opened Records
  import opened Handshakes

  /** The transcript as the client sees it. */
  function SeenBy(c: ClientEnd, s: ServerHello): Transcript {
    Transcript(c.minVersion, c.maxVersion, s.selected, c.nonce, s.nonce, c.ephemeral, s.publicKey, s.keyId)
  }

  /** The record key of one direction, by its two labels. */
  function Directional(a: Key, b: Key, t: Transcript, key: string, nonce: string): RecordKey {
    var hash := Sha256(TranscriptBytes(t));
    RecordKey(Hkdf(Shared({a, b}), hash, key), Hkdf(Shared({a, b}), hash, nonce))
  }

  function ToService(t: Transcript): RecordKey {
    Directional(t.clientPublic, t.serverPublic, t, "YA-V1-C2S-KEY", "YA-V1-C2S-NONCE")
  }

  function ToClient(t: Transcript): RecordKey {
    Directional(t.clientPublic, t.serverPublic, t, "YA-V1-S2C-KEY", "YA-V1-S2C-NONCE")
  }

  // ---- the client ----

  /** The answer to the client's hello, in its range, signed by a key it trusts over exactly this transcript. */
  predicate Answers(c: ClientEnd, s: ServerHello) {
    && s.requestId == c.requestId && c.minVersion <= s.selected && s.selected <= c.maxVersion
    && s.keyId in c.trusted && s.signature == Signed(c.trusted[s.keyId], TranscriptBytes(SeenBy(c, s)))
  }

  predicate LibrariesWork(env: HelloEnv) {
    env.hashOk && env.exchangeOk && env.cipherOk && 0 < env.size <= MAX_PAYLOAD - TAG_SIZE
  }

  /** The finished message: record 1 towards the service, in the version selected, with the hash of the transcript. */
  function FinishedRecord(c: ClientEnd, s: ServerHello, size: nat): WireFrame {
    SealedFrame(ToService(SeenBy(c, s)), 1,
                Encoded(Envelope(s.selected, c.requestId,
                  ClientFinishedBody(Some(Sha256(TranscriptBytes(SeenBy(c, s)))))), size))
  }

  lemma DecodedHello(message: Buffer)
    requires DecodeServerHello(message).Some?
    ensures var s := DecodeServerHello(message).value; s.requestId != 0 && s.selected != 0 && 0 < |s.keyId| <= 255
  {
  }

  /**
   * A client accepts a server hello if and only if it answers the hello sent; it then holds both
   * keys and has sent record 1.
   */
  lemma ClientAcceptsIff(c: ClientEnd, message: Buffer, env: HelloEnv)
    ensures ClientReceiveHello(c, message, env).1.Reply? <==>
              && c.state == HelloSent && DecodeServerHello(message).Some?
              && Answers(c, DecodeServerHello(message).value) && LibrariesWork(env)
    ensures ClientReceiveHello(c, message, env).1.Reply? ==>
              var s := DecodeServerHello(message).value;
              ClientReceiveHello(c, message, env)
              == (c.(selected := s.selected, state := Established, writer := Some(End(ToService(SeenBy(c, s)), 2)),
                     reader := Some(End(ToClient(SeenBy(c, s)), 1))),
                  Reply(FinishedRecord(c, s, env.size)))
    ensures ClientReceiveHello(c, message, env).1.Reject? ==>
              var d := ClientReceiveHello(c, message, env).0; d.state == Failed && d.writer == None && d.reader == None
  {
    if c.state == HelloSent && DecodeServerHello(message).Some? {
      DecodedHello(message);
    }
  }

  /** Why a client turns a server hello down, by the first thing wrong with it. */
  lemma ClientRefusals(c: ClientEnd, message: Buffer, env: HelloEnv)
    requires c.state == HelloSent
    ensures var s, r := DecodeServerHello(message), ClientReceiveHello(c, message, env).1;
            && (s.None? || s.value.requestId != c.requestId ==> r == Reject(InvalidMessage))
            && (s.Some? && s.value.requestId == c.requestId
                  && (s.value.selected < c.minVersion || c.maxVersion < s.value.selected) ==>
                  r == Reject(HandshakeError.UnsupportedVersion))
            && (s.Some? && s.value.requestId == c.requestId && c.minVersion <= s.value.selected
                  && s.value.selected <= c.maxVersion ==>
                  && (s.value.keyId !in c.trusted ==> r == Reject(UnknownServiceKey))
                  && (s.value.keyId in c.trusted
                        && s.value.signature != Signed(c.trusted[s.value.keyId],
                              TranscriptBytes(SeenBy(c, s.value))) ==>
                        r == Reject(InvalidServiceSignature)))
  {
    if DecodeServerHello(message).Some? {
      DecodedHello(message);
    }
  }

  // ---- the service ----

  predicate Overlap(s: ServerEnd, c: ClientHello) {
    && s.minVersion <= s.maxVersion && c.minVersion <= c.maxVersion
    && s.minVersion <= c.maxVersion && c.minVersion <= s.maxVersion
  }

  /** The largest version in both ranges. */
  function Largest(s: ServerEnd, c: ClientHello): U16 {
    if s.maxVersion <= c.maxVersion then s.maxVersion else c.maxVersion
  }

  /** The transcript as the service sees it. */
  function SignedBy(s: ServerEnd, c: ClientHello, nonce: Key, publicKey: Key): Transcript {
    Transcript(c.minVersion, c.maxVersion, Largest(s, c), c.nonce, nonce, c.publicKey, publicKey, s.keyId)
  }

  predicate ServerReady(s: ServerEnd, env: ServerEnv) {
    && s.state == Initial && s.identity.Some? && 0 < |s.keyId| <= 255
    && env.keyPair.Some? && env.nonce.Some? && env.hashOk && env.signOk && env.exchangeOk
  }

  function SignedHello(s: ServerEnd, c: ClientHello, env: ServerEnv): Buffer
    requires ServerReady(s, env)
  {
    var t := SignedBy(s, c, env.nonce.value, env.keyPair.value);
    Encoded(Envelope(0, c.requestId,
                     ServerHelloBody(t.selected, env.nonce, env.keyPair, Some(s.keyId),
                       Some(Signed(s.identity.value, TranscriptBytes(t))))),
            env.size)
  }

  /**
   * A service answers a hello if and only if it is fresh and the ranges overlap; it then has signed
   * that transcript and holds both keys.
   */
  lemma ServerAnswersIff(s: ServerEnd, message: Buffer, env: ServerEnv)
    ensures ServerReceiveHello(s, message, env).1.Reply? <==>
              ServerReady(s, env) && DecodeClientHello(message).Some? && Overlap(s, DecodeClientHello(message).value)
    ensures ServerReceiveHello(s, message, env).1.Reply? ==>
              var c := DecodeClientHello(message).value;
              var t := SignedBy(s, c, env.nonce.value, env.keyPair.value);
              ServerReceiveHello(s, message, env)
              == (s.(identity := None, requestId := c.requestId, selected := t.selected, state := AwaitingFinished,
                     hash := Sha256(TranscriptBytes(t)),
                     reader := Some(End(ToService(t), 1)), writer := Some(End(ToClient(t), 1))),
                  Reply(SignedHello(s, c, env)))
    ensures ServerReceiveHello(s, message, env).1.Reject? ==>
              var d := ServerReceiveHello(s, message, env).0;
              d.state == Failed && d.writer == None && d.reader == None && d.identity == None
  {
    if DecodeClientHello(message).Some? {
      var c := DecodeClientHello(message).value;
      assert c.minVersion != 0 && c.requestId != 0 && c.minVersion <= c.maxVersion;
    }
  }

  /**
   * A service is established if and only if record 1 is the finished message of its own transcript,
   * version and request.
   */
  lemma ServerFinishesIff(s: ServerEnd, frame: WireFrame)
    requires s.reader.Some?
    ensures ServerReceiveFinished(s, frame).1.Reply? <==>
              && s.state == AwaitingFinished && OpenRecord(s.reader.value, frame).1.Done?
              && DecodeClientFinished(OpenRecord(s.reader.value, frame).1.value)
                 == Some(ClientFinished(s.requestId, s.selected, s.hash))
    ensures ServerReceiveFinished(s, frame).0.state
            == if ServerReceiveFinished(s, frame).1.Reply? then Established else Failed
  {
  }
}
