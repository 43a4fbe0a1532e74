/**
 * Messages and their envelopes. FlatBuffers is an abstract codec: a buffer either holds an
 * envelope, with the size its builder gave it, or does not parse. Fields a table may lack
 * are options; the decoders below are the checks the protocol makes on what it finds.
 */
module Messages {
  import opened Bytes
  import opened Crypto

  const MAX_SDK_VERSION: nat := 64
  const MAX_KEY_ID: nat := 255
  const MAX_PRODUCT_ID: nat := 255
  const MAX_FEATURE: nat := 128
  const MAX_FEATURES: nat := 256
  const MAX_ENVELOPE: nat := 1024 * 1024

  type SessionId = id: Bytes | |id| == 16 witness [0,0,0,0,0,0,0,0,0,0,0,0,0,0,0,0]

  datatype Body =
    | ClientHelloBody(minVersion: U16, maxVersion: U16, clientNonce: Option<Bytes>, clientPublic: Option<Bytes>,
      sdkVersion: Option<Bytes>)
    | ServerHelloBody(selected: U16, serverNonce: Option<Bytes>, serverPublic: Option<Bytes>, keyId: Option<Bytes>,
      signature: Option<Signature>)
    | ClientFinishedBody(hash: Option<Digest>)
    | AuthorizeBody(product: Option<Bytes>, process: U64, processStart: U64)
    | AuthResultBody(error: U16, session: Option<Bytes>, features: Option<seq<Bytes>>, expire: U64, interval: U32,
      timeout: U32)
    | HeartbeatBody(session: Option<Bytes>)
    | HeartbeatAckBody(state: Byte, features: Option<seq<Bytes>>, expire: U64)
    | CloseSessionBody
    | OtherBody

  datatype Envelope = Envelope(version: U16, requestId: U64, body: Body)

  datatype Buffer = Encoded(envelope: Envelope, size: nat) | Unparsable(raw: Bytes)
  {
    function Size(): nat {
      match this
      case Encoded(_, n) => n
      case Unparsable(raw) => |raw|
    }

    /** verifyEnvelope: the buffer parses and is no larger than an envelope may be. */
    predicate Checked() {
      Encoded? && 8 <= size <= MAX_ENVELOPE
    }
  }

  datatype ClientHello = ClientHello(requestId: U64, minVersion: U16, maxVersion: U16, nonce: Key, publicKey: Key,
      sdkVersion: Bytes)
  datatype ServerHello = ServerHello(requestId: U64, selected: U16, nonce: Key, publicKey: Key, keyId: Bytes,
      signature: Signature)
  datatype ClientFinished = ClientFinished(requestId: U64, version: U16, hash: Digest)
  datatype Authorize = Authorize(requestId: U64, version: U16, product: Bytes, process: U64)
  datatype AuthResult = AuthResult(requestId: U64, version: U16, error: U16, session: Option<SessionId>,
                                   features: seq<Bytes>, expire: U64, interval: U32, timeout: U32)
  datatype Heartbeat = Heartbeat(requestId: U64, version: U16, session: SessionId)
  datatype HeartbeatAck = HeartbeatAck(requestId: U64, version: U16, state: Byte, features: seq<Bytes>, expire: U64)
  datatype CloseSession = CloseSession(requestId: U64, version: U16)

  // Authorization error codes and license states that the service and the client use.
  const NO_ERROR: U16 := 0
  const EXPIRED_ERROR: U16 := 2005
  const PRODUCT_MISMATCH_ERROR: U16 := 2007
  const SESSION_LIMIT_ERROR: U16 := 3003
  const KNOWN_ERRORS: set<U16> := {0, 1001, 1002, 1003, 2001, 2002, 2003, 2004, 2005, 2006, 2007, 2008,
                                   3001, 3002, 3003, 3004, 4001, 4002, 5001, 5002}

  const STATE_VALID: Byte := 1
  const STATE_GRACE: Byte := 2
  const STATE_EXPIRED: Byte := 3
  const STATE_REVOKED: Byte := 4

  predicate KnownState(s: Byte) { 1 <= s <= 4 }

  predicate ValidFeature(f: Bytes) { 0 < |f| <= MAX_FEATURE }

  predicate ValidFeatures(fs: seq<Bytes>) {
    |fs| <= MAX_FEATURES && forall i :: 0 <= i < |fs| ==> ValidFeature(fs[i])
  }

  predicate IsKey(b: Option<Bytes>) { b.Some? && |b.value| == 32 }

  predicate IsSignature(s: Option<Signature>) { s.Some? && (s.value.Arbitrary? ==> |s.value.raw| == 64) }

  predicate IsDigest(d: Option<Digest>) { d.Some? && (d.value.Unhashed? ==> |d.value.raw| == 32) }

  function Text(b: Option<Bytes>): Bytes { if b.Some? then b.value else [] }

  /** Features as a decoder delivers them; None when the vector breaks a limit. */
  function Features(source: Option<seq<Bytes>>): Option<seq<Bytes>> {
    match source
    case None => Some([])
    case Some(fs) => if ValidFeatures(fs) then Some(fs) else None
  }

  /** copyFeatures followed by the caller's length comparison. */
  method CopyFeatures(source: Option<seq<Bytes>>) returns (r: Option<seq<Bytes>>)
    ensures r == Features(source)
  {
    if source.None? { return Some([]); }
    var features: seq<Bytes> := [];
    if |source.value| <= MAX_FEATURES {
      var i := 0;
      while i < |source.value|
        invariant 0 <= i <= |source.value|
        invariant features == source.value[..i]
        invariant forall k :: 0 <= k < i ==> ValidFeature(source.value[k])
      {
        if |source.value[i]| == 0 || |source.value[i]| > MAX_FEATURE {
          assert !ValidFeature(source.value[i]);
          features := [];
          break;
        }
        features := features + [source.value[i]];
        i := i + 1;
      }
    }
    if |source.value| != |features| { return None; }
    assert features == source.value;
    return Some(features);
  }

  // ---- encoders: None is InvalidField; size is what the builder made of it ----

  function EncodeClientHello(m: ClientHello, size: nat): Option<Buffer> {
    if m.requestId == 0 || m.minVersion == 0 || m.minVersion > m.maxVersion
      || !(0 < |m.sdkVersion| <= MAX_SDK_VERSION) then None
    else Some(Encoded(Envelope(0, m.requestId,
      ClientHelloBody(m.minVersion, m.maxVersion, Some(m.nonce), Some(m.publicKey), Some(m.sdkVersion))), size))
  }

  function EncodeServerHello(m: ServerHello, size: nat): Option<Buffer> {
    if m.requestId == 0 || m.selected == 0 || !(0 < |m.keyId| <= MAX_KEY_ID) then None
    else Some(Encoded(Envelope(0, m.requestId,
      ServerHelloBody(m.selected, Some(m.nonce), Some(m.publicKey), Some(m.keyId), Some(m.signature))), size))
  }

  function EncodeClientFinished(m: ClientFinished, size: nat): Option<Buffer> {
    if m.requestId == 0 || m.version == 0 then None
    else Some(Encoded(Envelope(m.version, m.requestId, ClientFinishedBody(Some(m.hash))), size))
  }

  function EncodeAuthorize(m: Authorize, size: nat): Option<Buffer> {
    if m.requestId == 0 || m.version == 0 || !(0 < |m.product| <= MAX_PRODUCT_ID) || m.process == 0 then None
    else Some(Encoded(Envelope(m.version, m.requestId, AuthorizeBody(Some(m.product), m.process, 0)), size))
  }

  /** An AuthResult carries a session exactly when it carries no error. */
  predicate ConsistentResult(error: U16, hasSession: bool) {
    error in KNOWN_ERRORS && (error == NO_ERROR <==> hasSession)
  }

  function EncodeAuthResult(m: AuthResult, size: nat): Option<Buffer> {
    if m.requestId == 0 || m.version == 0 || !ConsistentResult(m.error, m.session.Some?)
      || !ValidFeatures(m.features) then None
    else Some(Encoded(Envelope(m.version, m.requestId,
      AuthResultBody(m.error, m.session, Some(m.features), m.expire, m.interval, m.timeout)), size))
  }

  function EncodeHeartbeat(m: Heartbeat, size: nat): Option<Buffer> {
    if m.requestId == 0 || m.version == 0 then None
    else Some(Encoded(Envelope(m.version, m.requestId, HeartbeatBody(Some(m.session))), size))
  }

  function EncodeHeartbeatAck(m: HeartbeatAck, size: nat): Option<Buffer> {
    if m.requestId == 0 || m.version == 0 || !KnownState(m.state) || !ValidFeatures(m.features) then None
    else Some(Encoded(Envelope(m.version, m.requestId, HeartbeatAckBody(m.state, Some(m.features), m.expire)), size))
  }

  function EncodeCloseSession(m: CloseSession, size: nat): Option<Buffer> {
    if m.requestId == 0 || m.version == 0 then None
    else Some(Encoded(Envelope(m.version, m.requestId, CloseSessionBody), size))
  }

  // ---- decoders: None is any of InvalidEnvelope, UnexpectedType, InvalidField ----

  function DecodeClientHello(b: Buffer): Option<ClientHello> {
    if !b.Checked() then None else
    var e := b.envelope;
    if e.version != 0 || e.requestId == 0 || !e.body.ClientHelloBody? then None else
    var h := e.body;
    if h.minVersion == 0 || h.minVersion > h.maxVersion || !(0 < |Text(h.sdkVersion)| <= MAX_SDK_VERSION)
       || !IsKey(h.clientNonce) || !IsKey(h.clientPublic) then None
    else Some(ClientHello(e.requestId, h.minVersion, h.maxVersion, h.clientNonce.value, h.clientPublic.value,
      Text(h.sdkVersion)))
  }

  function DecodeServerHello(b: Buffer): Option<ServerHello> {
    if !b.Checked() then None else
    var e := b.envelope;
    if e.version != 0 || e.requestId == 0 || !e.body.ServerHelloBody? then None else
    var h := e.body;
    if h.selected == 0 || !(0 < |Text(h.keyId)| <= MAX_KEY_ID)
       || !IsKey(h.serverNonce) || !IsKey(h.serverPublic) || !IsSignature(h.signature) then None
    else Some(ServerHello(e.requestId, h.selected, h.serverNonce.value, h.serverPublic.value, Text(h.keyId),
      h.signature.value))
  }

  /** The envelope of an application message: version and request id set. */
  predicate Application(b: Buffer) {
    b.Checked() && b.envelope.version != 0 && b.envelope.requestId != 0
  }

  function DecodeClientFinished(b: Buffer): Option<ClientFinished> {
    if !Application(b) || !b.envelope.body.ClientFinishedBody? || !IsDigest(b.envelope.body.hash) then None
    else Some(ClientFinished(b.envelope.requestId, b.envelope.version, b.envelope.body.hash.value))
  }

  function DecodeAuthorize(b: Buffer): Option<Authorize> {
    if !Application(b) || !b.envelope.body.AuthorizeBody? then None else
    var a := b.envelope.body;
    if !(0 < |Text(a.product)| <= MAX_PRODUCT_ID) || a.process == 0 then None
    else Some(Authorize(b.envelope.requestId, b.envelope.version, Text(a.product), a.process))
  }

  function DecodeAuthResult(b: Buffer): Option<AuthResult> {
    if !Application(b) || !b.envelope.body.AuthResultBody? then None else
    var r := b.envelope.body;
    var features := Features(r.features);
    if features.None? then None else
    if Text(r.session) != [] && |Text(r.session)| != 16 then None else
    var session: Option<SessionId> := if Text(r.session) == [] then None else Some(Text(r.session));
    if !ConsistentResult(r.error, session.Some?) then None
    else Some(AuthResult(b.envelope.requestId, b.envelope.version, r.error, session, features.value, r.expire,
      r.interval, r.timeout))
  }

  function DecodeHeartbeat(b: Buffer): Option<Heartbeat> {
    if !Application(b) || !b.envelope.body.HeartbeatBody? || |Text(b.envelope.body.session)| != 16 then None
    else Some(Heartbeat(b.envelope.requestId, b.envelope.version, Text(b.envelope.body.session)))
  }

  function DecodeHeartbeatAck(b: Buffer): Option<HeartbeatAck> {
    if !Application(b) || !b.envelope.body.HeartbeatAckBody? then None else
    var a := b.envelope.body;
    var features := Features(a.features);
    if !KnownState(a.state) || features.None? then None
    else Some(HeartbeatAck(b.envelope.requestId, b.envelope.version, a.state, features.value, a.expire))
  }

  function DecodeCloseSession(b: Buffer): Option<CloseSession> {
    if !Application(b) || !b.envelope.body.CloseSessionBody? then None
    else Some(CloseSession(b.envelope.requestId, b.envelope.version))
  }

  // ---- the pairs are inverse to each other, and no buffer is two messages ----

  datatype Message =
    | ClientHelloMessage(clientHello: ClientHello)
    | ServerHelloMessage(serverHello: ServerHello)
    | ClientFinishedMessage(finished: ClientFinished)
    | AuthorizeMessage(authorize: Authorize)
    | AuthResultMessage(authResult: AuthResult)
    | HeartbeatMessage(heartbeat: Heartbeat)
    | HeartbeatAckMessage(heartbeatAck: HeartbeatAck)
    | CloseSessionMessage(closeSession: CloseSession)

  function EncodeMessage(m: Message, size: nat): Option<Buffer> {
    match m
    case ClientHelloMessage(x) => EncodeClientHello(x, size)
    case ServerHelloMessage(x) => EncodeServerHello(x, size)
    case ClientFinishedMessage(x) => EncodeClientFinished(x, size)
    case AuthorizeMessage(x) => EncodeAuthorize(x, size)
    case AuthResultMessage(x) => EncodeAuthResult(x, size)
    case HeartbeatMessage(x) => EncodeHeartbeat(x, size)
    case HeartbeatAckMessage(x) => EncodeHeartbeatAck(x, size)
    case CloseSessionMessage(x) => EncodeCloseSession(x, size)
  }

  /** The decoder for m's type accepts the buffer as m. */
  predicate DecodesTo(b: Buffer, m: Message) {
    match m
    case ClientHelloMessage(x) => DecodeClientHello(b) == Some(x)
    case ServerHelloMessage(x) => DecodeServerHello(b) == Some(x)
    case ClientFinishedMessage(x) => DecodeClientFinished(b) == Some(x)
    case AuthorizeMessage(x) => DecodeAuthorize(b) == Some(x)
    case AuthResultMessage(x) => DecodeAuthResult(b) == Some(x)
    case HeartbeatMessage(x) => DecodeHeartbeat(b) == Some(x)
    case HeartbeatAckMessage(x) => DecodeHeartbeatAck(b) == Some(x)
    case CloseSessionMessage(x) => DecodeCloseSession(b) == Some(x)
  }

  /** What is encoded decodes to itself and, through whichever decoder, to nothing else. */
  lemma MessageRoundTrip(m: Message, size: nat, n: Message)
    requires EncodeMessage(m, size).Some? && EncodeMessage(m, size).value.Checked()
    requires (m.ClientFinishedMessage? && m.finished.hash.Unhashed? ==> |m.finished.hash.raw| == 32)
             && (m.ServerHelloMessage? && m.serverHello.signature.Arbitrary? ==> |m.serverHello.signature.raw| == 64)
    ensures DecodesTo(EncodeMessage(m, size).value, n) <==> n == m
  {
  }

  /** Whatever a decoder accepts, from whomever, is a message its encoder could have sent. */
  lemma DecodedIsEncodable(b: Buffer, m: Message, n: Message)
    requires DecodesTo(b, m)
    ensures EncodeMessage(m, b.Size()).Some? && DecodesTo(EncodeMessage(m, b.Size()).value, m)
    ensures DecodesTo(b, n) ==> n == m
  {
    match m
    case ClientHelloMessage(_) =>
    case ServerHelloMessage(_) =>
    case ClientFinishedMessage(_) =>
    case AuthorizeMessage(_) =>
    case AuthResultMessage(_) =>
    case HeartbeatMessage(_) =>
    case HeartbeatAckMessage(_) =>
    case CloseSessionMessage(_) =>
  }

  predicate WireFeatures(fs: seq<Bytes>) { |fs| <= 256 && forall i :: 0 <= i < |fs| ==> 1 <= |fs[i]| <= 128 }

  /** The limits of each message, in numbers. */
  lemma WireLimits(m: Message, size: nat)
    ensures EncodeMessage(m, size).Some? <==>
              match m
              case ClientHelloMessage(x) => x.requestId != 0 && 1 <= x.minVersion <= x.maxVersion
                && 1 <= |x.sdkVersion| <= 64
              case ServerHelloMessage(x) => x.requestId != 0 && x.selected != 0 && 1 <= |x.keyId| <= 255
              case ClientFinishedMessage(x) => x.requestId != 0 && x.version != 0
              case AuthorizeMessage(x) => x.requestId != 0 && x.version != 0 && 1 <= |x.product| <= 255
                && x.process != 0
              case AuthResultMessage(x) =>
                && x.requestId != 0 && x.version != 0 && WireFeatures(x.features) && (x.error == 0 <==> x.session.Some?)
                && x.error in {0, 1001, 1002, 1003, 2001, 2002, 2003, 2004, 2005, 2006, 2007, 2008,
                               3001, 3002, 3003, 3004, 4001, 4002, 5001, 5002}
              case HeartbeatMessage(x) => x.requestId != 0 && x.version != 0
              case HeartbeatAckMessage(x) => x.requestId != 0 && x.version != 0 && 1 <= x.state <= 4
                && WireFeatures(x.features)
              case CloseSessionMessage(x) => x.requestId != 0 && x.version != 0
  {
    match m
    case AuthResultMessage(x) => SameFeatureLimits(x.features);
    case HeartbeatAckMessage(x) => SameFeatureLimits(x.features);
    case _ =>
  }

  lemma SameFeatureLimits(fs: seq<Bytes>)
    ensures ValidFeatures(fs) <==> WireFeatures(fs)
  {
    forall i | 0 <= i < |fs| ensures ValidFeature(fs[i]) <==> 1 <= |fs[i]| <= 128 {
    }
  }
}
