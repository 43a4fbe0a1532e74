/**
 * The signed key exchange, as two state machines over values and the two classes that
 * implement them. Randomness, builder sizes and failures of the cryptographic library are
 * the environment records; every refusal fails the machine and drops its traffic keys.
 */
module Handshakes {
  import opened Bytes
  import opened Crypto
  import opened Messages
  import opened Records

  datatype HandshakeError = InvalidState | InvalidMessage | UnsupportedVersion | UnknownServiceKey
                          | InvalidServiceSignature | KeyExchangeFailed | InvalidFinished | InternalError

  datatype Reply<+T> = Reply(value: T) | Reject(error: HandshakeError)

  datatype HandshakeState = Initial | HelloSent | AwaitingFinished | Established | Failed

  datatype StartEnv = StartEnv(nonce: Option<Key>, keyPair: Option<Key>, size: nat)
  datatype HelloEnv = HelloEnv(hashOk: bool, exchangeOk: bool, size: nat, cipherOk: bool)
  datatype ServerEnv = ServerEnv(keyPair: Option<Key>, nonce: Option<Key>, hashOk: bool, signOk: bool,
      exchangeOk: bool, size: nat)

  function TranscriptFor(c: ClientHello, s: ServerHello): Transcript {
    Transcript(c.minVersion, c.maxVersion, s.selected, c.nonce, s.nonce, c.publicKey, s.publicKey, s.keyId)
  }

  // ---- client ----

  datatype ClientEnd = ClientEnd(
    trusted: map<Bytes, Key>, sdkVersion: Bytes, requestId: U64, minVersion: U16, maxVersion: U16,
    selected: U16, nonce: Key, ephemeral: Key, writer: Option<End>, reader: Option<End>, state: HandshakeState)
  {
    function Fail(): ClientEnd { this.(writer := None, reader := None, state := Failed) }

    function Hello(): ClientHello {
      ClientHello(requestId, minVersion, maxVersion, nonce, ephemeral, sdkVersion)
    }
  }

  function ClientStart(c: ClientEnd, env: StartEnv): (ClientEnd, Reply<Buffer>) {
    if c.state != Initial || c.requestId == 0 || c.minVersion == 0
      || c.minVersion > c.maxVersion then (c.Fail(), Reject(InvalidState))
    else if env.nonce.None? then (c.Fail(), Reject(InternalError)) else
    var c := c.(nonce := env.nonce.value);
    if env.keyPair.None? then (c.Fail(), Reject(KeyExchangeFailed)) else
    var c := c.(ephemeral := env.keyPair.value);
    match EncodeClientHello(c.Hello(), env.size)
    case None => (c.Fail(), Reject(InvalidMessage))
    case Some(b) => (c.(state := HelloSent), Reply(b))
  }

  /** The checks a server hello must pass before any key is derived from it. */
  predicate Trusted(c: ClientEnd, s: ServerHello) {
    && s.requestId == c.requestId
    && c.minVersion <= s.selected <= c.maxVersion
    && s.keyId in c.trusted
    && Encodable(TranscriptFor(c.Hello(), s))
    && Verifies(c.trusted[s.keyId], TranscriptBytes(TranscriptFor(c.Hello(), s)), s.signature)
  }

  function RefuseHello(c: ClientEnd, s: ServerHello): HandshakeError {
    if s.requestId != c.requestId then InvalidMessage
    else if s.selected < c.minVersion || s.selected > c.maxVersion then UnsupportedVersion
    else if s.keyId !in c.trusted then UnknownServiceKey
    else InvalidServiceSignature
  }

  /** The client with the keys of transcript t installed. */
  function Keyed(c: ClientEnd, t: Transcript): ClientEnd {
    c.(writer := Some(Fresh(KeysOf(t).clientToService)), reader := Some(Fresh(KeysOf(t).serviceToClient)),
      selected := t.selected)
  }

  function ClientReceiveHello(c: ClientEnd, message: Buffer, env: HelloEnv): (ClientEnd, Reply<WireFrame>) {
    if c.state != HelloSent then (c.Fail(), Reject(InvalidState)) else
    match DecodeServerHello(message)
    case None => (c.Fail(), Reject(InvalidMessage))
    case Some(s) =>
      if !Trusted(c, s) then (c.Fail(), Reject(RefuseHello(c, s)))
      else if !env.hashOk then (c.Fail(), Reject(InvalidServiceSignature))
      else if !env.exchangeOk then (c.Fail(), Reject(KeyExchangeFailed)) else
      ClientFinish(Keyed(c, TranscriptFor(c.Hello(), s)), TranscriptFor(c.Hello(), s), env)
  }

  /** The finished message, sealed as the first record of a client with its keys installed. */
  function ClientFinish(k: ClientEnd, t: Transcript, env: HelloEnv): (ClientEnd, Reply<WireFrame>)
    requires k.writer.Some?
  {
    match EncodeClientFinished(ClientFinished(k.requestId, t.selected, Sha256(TranscriptBytes(t))), env.size)
    case None => (k.Fail(), Reject(InvalidMessage))
    case Some(b) =>
      match SealRecord(k.writer.value, b, env.cipherOk)
      case (_, Denied(_)) => (k.Fail(), Reject(InternalError))
      case (w, Done(f)) => (k.(writer := Some(w), state := Established), Reply(f))
  }

  function ClientSeal(c: ClientEnd, plain: Buffer, cipherOk: bool): (ClientEnd, Outcome<WireFrame>) {
    if c.state == Established && c.writer.Some? then
      var (w, r) := SealRecord(c.writer.value, plain, cipherOk);
      (c.(writer := Some(w)), r)
    else (c, Denied(InvalidFrame))
  }

  function ClientOpen(c: ClientEnd, frame: WireFrame): (ClientEnd, Outcome<Buffer>) {
    if c.state == Established && c.reader.Some? then
      var (e, r) := OpenRecord(c.reader.value, frame);
      (c.(reader := Some(e)), r)
    else (c, Denied(InvalidFrame))
  }

  // ---- server ----

  /** identity is the signing key until it is wiped. */
  datatype ServerEnd = ServerEnd(
    keyId: Bytes, identity: Option<Key>, minVersion: U16, maxVersion: U16,
    selected: U16, requestId: U64, hash: Digest, writer: Option<End>, reader: Option<End>, state: HandshakeState)
  {
    function Fail(): ServerEnd { this.(identity := None, writer := None, reader := None, state := Failed) }
  }

  function Max(a: U16, b: U16): U16 { if a > b then a else b }
  function Min(a: U16, b: U16): U16 { if a < b then a else b }

  /** The hello a server answers with, before its signature. */
  function Answer(s: ServerEnd, c: ClientHello, nonce: Key, publicKey: Key): ServerHello {
    ServerHello(c.requestId, Min(s.maxVersion, c.maxVersion), nonce, publicKey, s.keyId, Arbitrary([]))
  }

  /** The server after it has signed transcript t and installed its keys. */
  function ServerKeyed(s: ServerEnd, requestId: U64, t: Transcript): ServerEnd {
    s.(identity := None, requestId := requestId, selected := t.selected, hash := Sha256(TranscriptBytes(t)),
       reader := Some(Fresh(KeysOf(t).clientToService)), writer := Some(Fresh(KeysOf(t).serviceToClient)),
       state := AwaitingFinished)
  }

  function ServerReceiveHello(s: ServerEnd, message: Buffer, env: ServerEnv): (ServerEnd, Reply<Buffer>) {
    if s.state != Initial then (s.Fail(), Reject(InvalidState)) else
    match DecodeClientHello(message)
    case None => (s.Fail(), Reject(InvalidMessage))
    case Some(c) =>
      if Max(s.minVersion, c.minVersion) > Min(s.maxVersion, c.maxVersion) then (s.Fail(), Reject(UnsupportedVersion))
      else if env.keyPair.None? || env.nonce.None? then (s.Fail(), Reject(InternalError)) else
      var answer := Answer(s, c, env.nonce.value, env.keyPair.value);
      var t := TranscriptFor(c, answer);
      if !Encodable(t) || !env.hashOk then (s.Fail(), Reject(InvalidMessage))
      else if !env.signOk || s.identity.None? then (s.Fail(), Reject(InternalError)) else
      match EncodeServerHello(answer.(signature := Signed(s.identity.value, TranscriptBytes(t))), env.size)
      case None => (s.Fail(), Reject(KeyExchangeFailed))
      case Some(b) => if !env.exchangeOk then (s.Fail(), Reject(KeyExchangeFailed))
        else (ServerKeyed(s, c.requestId, t), Reply(b))
  }

  function ServerReceiveFinished(s: ServerEnd, frame: WireFrame): (ServerEnd, Reply<()>) {
    if s.state != AwaitingFinished || s.reader.None? then (s.Fail(), Reject(InvalidState)) else
    match OpenRecord(s.reader.value, frame)
    case (_, Denied(_)) => (s.Fail(), Reject(InvalidFinished))
    case (e, Done(b)) =>
      match DecodeClientFinished(b)
      case None => (s.Fail(), Reject(InvalidFinished))
      case Some(m) =>
        if m.requestId != s.requestId || m.version != s.selected
          || m.hash != s.hash then (s.Fail(), Reject(InvalidFinished))
        else (s.(reader := Some(e), state := Established), Reply(()))
  }

  function ServerSeal(s: ServerEnd, plain: Buffer, cipherOk: bool): (ServerEnd, Outcome<WireFrame>) {
    if s.state == Established && s.writer.Some? then
      var (w, r) := SealRecord(s.writer.value, plain, cipherOk);
      (s.(writer := Some(w)), r)
    else (s, Denied(InvalidFrame))
  }

  function ServerOpen(s: ServerEnd, frame: WireFrame): (ServerEnd, Outcome<Buffer>) {
    if s.state == Established && s.reader.Some? then
      var (e, r) := OpenRecord(s.reader.value, frame);
      (s.(reader := Some(e)), r)
    else (s, Denied(InvalidFrame))
  }

  /**
   * What every reachable server handshake satisfies: keys exactly while the exchange is under way
   * or done, the signing key only before it.
   */
  predicate ServerConsistent(s: ServerEnd) {
    && (s.state in {AwaitingFinished, Established} <==> s.writer.Some?)
    && (s.writer.Some? <==> s.reader.Some?)
    && (s.identity.Some? <==> s.state == Initial)
    && (s.writer.Some? ==> s.selected != 0)
    && s.state != HelloSent
  }

  predicate ClientConsistent(c: ClientEnd) {
    && (c.state == Established <==> c.writer.Some?)
    && (c.writer.Some? <==> c.reader.Some?)
    && c.state != AwaitingFinished
  }

  /** Every operation keeps a server handshake consistent, only a fresh one signs, and a failed one never recovers. */
  lemma ServerStaysConsistent(s: ServerEnd, message: Buffer, env: ServerEnv, frame: WireFrame, plain: Buffer,
      cipherOk: bool)
    requires ServerConsistent(s)
    ensures ServerConsistent(ServerReceiveHello(s, message, env).0)
    ensures ServerConsistent(ServerReceiveFinished(s, frame).0)
    ensures ServerConsistent(ServerSeal(s, plain, cipherOk).0)
    ensures ServerConsistent(ServerOpen(s, frame).0)
    ensures ServerReceiveHello(s, message, env).1.Reply? ==>
              s.state == Initial && ServerReceiveHello(s, message, env).0.identity.None?
    ensures s.state == Failed ==>
              && ServerReceiveHello(s, message, env).0.state == Failed
              && ServerReceiveFinished(s, frame).0.state == Failed
              && ServerSeal(s, plain, cipherOk).1.Denied? && ServerOpen(s, frame).1.Denied?
  {
  }

  /** Where the two server messages lead, and what they leave alone. */
  lemma ServerOutcomes(s: ServerEnd, message: Buffer, env: ServerEnv, frame: WireFrame)
    ensures ServerReceiveHello(s, message, env).0.state == if ServerReceiveHello(s, message, env).1.Reply?
            then AwaitingFinished else Failed
    ensures ServerReceiveFinished(s, frame).0.state == if ServerReceiveFinished(s, frame).1.Reply? then Established
            else Failed
    ensures SameServer(s, ServerReceiveHello(s, message, env).0) && SameServer(s, ServerReceiveFinished(s, frame).0)
  {
  }

  predicate SameServer(s: ServerEnd, u: ServerEnd) {
    u.keyId == s.keyId && u.minVersion == s.minVersion && u.maxVersion == s.maxVersion
  }

  lemma ClientStaysConsistent(c: ClientEnd, start: StartEnv, message: Buffer, env: HelloEnv, frame: WireFrame,
      plain: Buffer, cipherOk: bool)
    requires ClientConsistent(c)
    ensures ClientConsistent(ClientStart(c, start).0)
    ensures ClientConsistent(ClientReceiveHello(c, message, env).0)
    ensures ClientConsistent(ClientSeal(c, plain, cipherOk).0)
    ensures ClientConsistent(ClientOpen(c, frame).0)
    ensures c.state == Failed ==>
              && ClientStart(c, start).0.state == Failed && ClientReceiveHello(c, message, env).0.state == Failed
              && ClientSeal(c, plain, cipherOk).1.Denied? && ClientOpen(c, frame).1.Denied?
  {
  }

  /** The version a server selects is the largest that both ranges contain. */
  lemma SelectsLargestCommon(s: ServerEnd, message: Buffer, env: ServerEnv, v: nat)
    requires ServerReceiveHello(s, message, env).1.Reply?
    ensures DecodeClientHello(message).Some?
    ensures var c, selected := DecodeClientHello(message).value, ServerReceiveHello(s, message, env).0.selected;
            && s.minVersion <= selected <= s.maxVersion && c.minVersion <= selected <= c.maxVersion
            && (s.minVersion <= v <= s.maxVersion && c.minVersion <= v <= c.maxVersion ==> v <= selected)
  {
  }

  // ---- the objects ----

  class ClientHandshake {
    const trusted: map<Bytes, Key>
    const sdkVersion: Bytes
    const requestId: U64
    const minVersion: U16
    const maxVersion: U16
    var selected: U16
    var nonce: Key
    var ephemeral: Key
    var writer: RecordWriter?
    var reader: RecordReader?
    var state: HandshakeState

    constructor (trusted: map<Bytes, Key>, sdkVersion: Bytes, requestId: U64, minVersion: U16, maxVersion: U16,
      blank: Key)
      ensures View() == ClientEnd(trusted, sdkVersion, requestId, minVersion, maxVersion, 0, blank, blank, None, None,
                Initial)
    {
      this.trusted, this.sdkVersion, this.requestId := trusted, sdkVersion, requestId;
      this.minVersion, this.maxVersion := minVersion, maxVersion;
      selected, nonce, ephemeral := 0, blank, blank;
      writer, reader, state := null, null, Initial;
    }

    ghost function View(): ClientEnd
      reads this, writer, reader
    {
      ClientEnd(trusted, sdkVersion, requestId, minVersion, maxVersion, selected, nonce, ephemeral,
                if writer == null then None else Some(writer.View()),
                if reader == null then None else Some(reader.View()), state)
    }

    method Fail()
      modifies this
      ensures View() == old(View()).Fail()
    {
      writer := null;
      reader := null;
      state := Failed;
    }

    method Start(env: StartEnv) returns (r: Reply<Buffer>)
      modifies this
      ensures (View(), r) == ClientStart(old(View()), env)
    {
      if state != Initial || requestId == 0 || minVersion == 0 || minVersion > maxVersion {
        Fail();
        return Reject(InvalidState);
      }
      if env.nonce.None? {
        Fail();
        return Reject(InternalError);
      }
      nonce := env.nonce.value;
      if env.keyPair.None? {
        Fail();
        return Reject(KeyExchangeFailed);
      }
      ephemeral := env.keyPair.value;
      var encoded := EncodeClientHello(ClientHello(requestId, minVersion, maxVersion, nonce, ephemeral, sdkVersion),
        env.size);
      if encoded.None? {
        Fail();
        return Reject(InvalidMessage);
      }
      state := HelloSent;
      return Reply(encoded.value);
    }

    method HandleServerHello(message: Buffer, env: HelloEnv) returns (r: Reply<WireFrame>)
      modifies this
      ensures (View(), r) == ClientReceiveHello(old(View()), message, env)
    {
      if state != HelloSent {
        Fail();
        return Reject(InvalidState);
      }
      var decoded := DecodeServerHello(message);
      if decoded.None? || decoded.value.requestId != requestId {
        Fail();
        return Reject(InvalidMessage);
      }
      var server := decoded.value;
      if server.selected < minVersion || server.selected > maxVersion {
        Fail();
        return Reject(UnsupportedVersion);
      }
      if server.keyId !in trusted {
        Fail();
        return Reject(UnknownServiceKey);
      }
      var client := ClientHello(requestId, minVersion, maxVersion, nonce, ephemeral, sdkVersion);
      var transcript := TranscriptFor(client, server);
      var encoded := BuildTranscript(transcript);
      if encoded.None? || !env.hashOk || server.signature != Signed(trusted[server.keyId], encoded.value) {
        Fail();
        return Reject(InvalidServiceSignature);
      }
      if !env.exchangeOk {
        Fail();
        return Reject(KeyExchangeFailed);
      }
      var hash := Sha256(encoded.value);
      var keys := DeriveSessionKeys(Exchange(ephemeral, server.publicKey), hash);
      writer := new RecordWriter(keys.clientToService);
      reader := new RecordReader(keys.serviceToClient);
      selected := server.selected;
      assert View() == Keyed(old(View()), transcript);
      r := Finish(transcript, hash, env);
    }

    /** The end of handleServerHello, with the keys in place. */
    method Finish(ghost transcript: Transcript, hash: Digest, env: HelloEnv) returns (r: Reply<WireFrame>)
      requires writer != null && hash == Sha256(TranscriptBytes(transcript)) && transcript.selected == selected
      modifies this, writer
      ensures (View(), r) == ClientFinish(old(View()), transcript, env)
    {
      var finished := EncodeClientFinished(ClientFinished(requestId, selected, hash), env.size);
      if finished.None? {
        Fail();
        return Reject(InvalidMessage);
      }
      var encrypted := writer.Seal(finished.value, env.cipherOk);
      if encrypted.Denied? {
        Fail();
        return Reject(InternalError);
      }
      state := Established;
      return Reply(encrypted.value);
    }

    method Seal(plain: Buffer, cipherOk: bool) returns (r: Outcome<WireFrame>)
      modifies writer
      ensures (View(), r) == ClientSeal(old(View()), plain, cipherOk)
    {
      if state == Established && writer != null {
        r := writer.Seal(plain, cipherOk);
      } else {
        r := Denied(InvalidFrame);
      }
    }

    method Open(frame: WireFrame) returns (r: Outcome<Buffer>)
      modifies reader
      ensures (View(), r) == ClientOpen(old(View()), frame)
    {
      if state == Established && reader != null {
        r := reader.Open(frame);
      } else {
        r := Denied(InvalidFrame);
      }
    }
  }

  class ServerHandshake {
    const keyId: Bytes
    const minVersion: U16
    const maxVersion: U16
    var identity: Option<Key>
    var selected: U16
    var requestId: U64
    var hash: Digest
    var writer: RecordWriter?
    var reader: RecordReader?
    var state: HandshakeState

    constructor (keyId: Bytes, identity: Key, minVersion: U16, maxVersion: U16)
      ensures View() == ServerEnd(keyId, Some(identity), minVersion, maxVersion, 0, 0, Unhashed([]), None, None,
                Initial)
      ensures writer == null && reader == null
    {
      this.keyId, this.minVersion, this.maxVersion := keyId, minVersion, maxVersion;
      this.identity := Some(identity);
      selected, requestId, hash := 0, 0, Unhashed([]);
      writer, reader, state := null, null, Initial;
    }

    ghost function View(): ServerEnd
      reads this, writer, reader
    {
      ServerEnd(keyId, identity, minVersion, maxVersion, selected, requestId, hash,
                if writer == null then None else Some(writer.View()),
                if reader == null then None else Some(reader.View()), state)
    }

    method Fail()
      modifies this
      ensures View() == old(View()).Fail()
      ensures writer == null && reader == null
    {
      identity := None;
      writer := null;
      reader := null;
      state := Failed;
    }

    method HandleClientHello(message: Buffer, env: ServerEnv) returns (r: Reply<Buffer>)
      modifies this
      ensures (View(), r) == ServerReceiveHello(old(View()), message, env)
      ensures writer != null ==> fresh(writer)
      ensures reader != null ==> fresh(reader)
    {
      if state != Initial {
        Fail();
        return Reject(InvalidState);
      }
      var decoded := DecodeClientHello(message);
      if decoded.None? {
        Fail();
        return Reject(InvalidMessage);
      }
      var client := decoded.value;
      var lowest := Max(minVersion, client.minVersion);
      var highest := Min(maxVersion, client.maxVersion);
      if lowest > highest {
        Fail();
        return Reject(UnsupportedVersion);
      }
      if env.keyPair.None? || env.nonce.None? {
        Fail();
        return Reject(InternalError);
      }
      var server := ServerHello(client.requestId, highest, env.nonce.value, env.keyPair.value, keyId, Arbitrary([]));
      var transcript := TranscriptFor(client, server);
      var encoded := BuildTranscript(transcript);
      if encoded.None? || !env.hashOk {
        Fail();
        return Reject(InvalidMessage);
      }
      if !env.signOk || identity.None? {
        Fail();
        return Reject(InternalError);
      }
      server := server.(signature := Signed(identity.value, encoded.value));
      identity := None;
      var hello := EncodeServerHello(server, env.size);
      if hello.None? || !env.exchangeOk {
        Fail();
        return Reject(KeyExchangeFailed);
      }
      ExchangeCommutes(env.keyPair.value, client.publicKey);
      var keys := DeriveSessionKeys(Exchange(env.keyPair.value, client.publicKey), Sha256(encoded.value));
      requestId := client.requestId;
      selected := highest;
      hash := Sha256(encoded.value);
      reader := new RecordReader(keys.clientToService);
      writer := new RecordWriter(keys.serviceToClient);
      state := AwaitingFinished;
      return Reply(hello.value);
    }

    method HandleClientFinished(frame: WireFrame) returns (r: Reply<()>)
      modifies this, reader
      ensures (View(), r) == ServerReceiveFinished(old(View()), frame)
      ensures writer == null || writer == old(writer)
      ensures reader == null || reader == old(reader)
    {
      if state != AwaitingFinished || reader == null {
        Fail();
        return Reject(InvalidState);
      }
      var plaintext := reader.Open(frame);
      if plaintext.Denied? {
        Fail();
        return Reject(InvalidFinished);
      }
      var finished := DecodeClientFinished(plaintext.value);
      if finished.None? || finished.value.requestId != requestId || finished.value.version != selected
        || finished.value.hash != hash {
        Fail();
        return Reject(InvalidFinished);
      }
      state := Established;
      return Reply(());
    }

    method Seal(plain: Buffer, cipherOk: bool) returns (r: Outcome<WireFrame>)
      modifies writer
      ensures (View(), r) == ServerSeal(old(View()), plain, cipherOk)
    {
      if state == Established && writer != null {
        r := writer.Seal(plain, cipherOk);
      } else {
        r := Denied(InvalidFrame);
      }
    }

    method Open(frame: WireFrame) returns (r: Outcome<Buffer>)
      modifies reader
      ensures (View(), r) == ServerOpen(old(View()), frame)
    {
      if state == Established && reader != null {
        r := reader.Open(frame);
      } else {
        r := Denied(InvalidFrame);
      }
    }
  }
}
