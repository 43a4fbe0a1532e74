/**
 * Any number of SDK clients and service connections over a network that may drop, repeat,
 * reorder, alter and invent frames. What the network cannot do is seal under a key neither of
 * whose ephemeral secrets it owns, or sign with an honest service key. History records who
 * generated which key, what was signed, accepted, granted and sealed.
 */
module Agreement {
  import opened Bytes
  import opened Crypto
  import opened Messages
  import opened Records
  import opened Handshakes
  import opened Sessions
  import opened Licensing
  import opened Connections
  import Clients

  /**
   * pool: the public keys whose private halves only honest parties ever hold; identity: the
   * signing key of the service, which every client trusts and only the service holds.
   */
  datatype Setup = Setup(pool: iset<Key>, identity: Key, keyId: Bytes,
                         minVersion: U16, maxVersion: U16, license: Snapshot, interval: U32, timeout: U32)

  datatype Party = Client(who: nat) | Server(which: nat)

  /** now: the service's clock when a connection sealed it. */
  datatype Emission = Emission(author: Party, aead: Aead, now: U64)

  /** The transcript a client accepted, and the product it asks for over the channel. */
  datatype Meeting = Meeting(transcript: Transcript, product: Bytes)

  datatype Grant = Grant(session: SessionId, product: Bytes, features: seq<Bytes>, expire: U64, now: U64)

  datatype History = History(owner: map<Key, Party>, signed: map<nat, Transcript>, met: map<nat, Meeting>,
                             grants: map<nat, Grant>, sealed: set<Emission>)

  datatype World = World(clients: map<nat, Clients.Sdk>, conns: map<nat, Conn>, table: Table, past: History)

  // ---- the network ----

  /** Neither private half of the exchange is known to the network. */
  ghost predicate Secret(g: Setup, k: Derived) {
    forall p :: p in k.secret.pair ==> p in g.pool
  }

  ghost predicate Deliverable(g: Setup, h: History, f: WireFrame) {
    f.WireFrame? ==>
      && (f.payload.Sealed? && Secret(g, f.payload.aead.key) ==> exists e :: e in h.sealed && e.aead == f.payload.aead)
      && (f.payload.Clear? ==> forall m :: CarriesSignature(f.payload.buffer, g.identity, m) ==>
                                 exists j :: j in h.signed && TranscriptBytes(h.signed[j]) == m)
  }

  predicate CarriesSignature(b: Buffer, k: Key, m: Bytes) {
    b.Encoded? && b.envelope.body.ServerHelloBody? && b.envelope.body.signature == Some(Signed(k, m))
  }

  /** The sealed frames among those a party sent. */
  function Emitted(author: Party, frames: seq<WireFrame>, now: U64): set<Emission> {
    set f | f in frames && f.WireFrame? && f.payload.Sealed? :: Emission(author, f.payload.aead, now)
  }

  // ---- what the history says about itself ----

  /** The version is the largest that the signed client range and the service's range share. */
  predicate Negotiated(g: Setup, t: Transcript) {
    && t.selected == Min(g.maxVersion, t.maxVersion)
    && g.minVersion <= t.selected && t.minVersion <= t.selected
  }

  ghost predicate SignedOk(g: Setup, h: History, j: nat)
    requires j in h.signed
  {
    var t := h.signed[j];
    && Encodable(t) && t.serviceKeyId == g.keyId && Negotiated(g, t)
    && t.serverPublic in h.owner && h.owner[t.serverPublic] == Server(j)
  }

  ghost predicate MetOk(g: Setup, h: History, i: nat)
    requires i in h.met
  {
    var t := h.met[i].transcript;
    && Encodable(t)
    && t.clientPublic in h.owner && h.owner[t.clientPublic] == Client(i)
    && exists j :: j in h.signed && h.signed[j] == t
  }

  ghost predicate GrantOk(g: Setup, h: History, j: nat)
    requires j in h.grants
  {
    var r := h.grants[j];
    && j in h.signed
    && r.product == g.license.product && r.features == g.license.features && r.expire == g.license.expire
    && !Lapsed(g.license, r.now)
    && (h.signed[j].clientPublic in g.pool ==>
          exists i :: i in h.met && h.met[i].transcript == h.signed[j] && h.met[i].product == r.product)
  }

  /** A plaintext from connection j grants only what j granted. */
  predicate ServerContent(h: History, j: nat, plain: Buffer) {
    && (DecodeAuthResult(plain).Some? && DecodeAuthResult(plain).value.error == NO_ERROR ==>
          var r := DecodeAuthResult(plain).value;
          j in h.grants && r.session == Some(h.grants[j].session) && r.features == h.grants[j].features
            && r.expire == h.grants[j].expire)
    && (DecodeHeartbeatAck(plain).Some? ==>
          var a := DecodeHeartbeatAck(plain).value;
          j in h.grants && a.features == h.grants[j].features && a.expire == h.grants[j].expire)
  }

  /** A plaintext that acknowledges a heartbeat as valid is sent while the license has not expired. */
  predicate Timely(license: Snapshot, now: U64, plain: Buffer) {
    DecodeHeartbeatAck(plain).Some? && DecodeHeartbeatAck(plain).value.state == 1 ==>
      license.expire == 0 || now < license.expire
  }

  /** A plaintext from client i asks only for what i wants. */
  predicate ClientContent(product: Bytes, plain: Buffer) {
    DecodeAuthorize(plain).Some? ==> DecodeAuthorize(plain).value.product == product
  }

  ghost predicate EmissionOk(g: Setup, h: History, e: Emission) {
    match e.author
    case Client(i) =>
      && i in h.met && e.aead.key == KeysOf(h.met[i].transcript).clientToService.key
      && ClientContent(h.met[i].product, e.aead.plain)
    case Server(j) =>
      && j in h.signed && e.aead.key == KeysOf(h.signed[j]).serviceToClient.key
      && ServerContent(h, j, e.aead.plain) && Timely(g.license, e.now, e.aead.plain)
  }

  ghost predicate HistoryOk(g: Setup, h: History) {
    && (forall p :: p in h.owner ==> p in g.pool)
    && (forall j :: j in h.signed ==> SignedOk(g, h, j))
    && (forall i :: i in h.met ==> MetOk(g, h, i))
    && (forall j :: j in h.grants ==> GrantOk(g, h, j))
    && (forall e :: e in h.sealed ==> EmissionOk(g, h, e))
  }

  ghost predicate Extends<K, V>(m: map<K, V>, n: map<K, V>) {
    forall k :: k in m ==> k in n && n[k] == m[k]
  }

  ghost predicate Grows(h: History, k: History) {
    Extends(h.owner, k.owner) && Extends(h.signed, k.signed) && Extends(h.met, k.met) && Extends(h.grants, k.grants)
      && h.sealed <= k.sealed
  }

  // ---- where an authentic frame came from ----

  lemma SameHonestTranscript(g: Setup, h: History, t: Transcript, j: nat)
    requires HistoryOk(g, h) && j in h.signed && Encodable(t)
    ensures TranscriptBytes(h.signed[j]) == TranscriptBytes(t) ==> h.signed[j] == t
  {
    assert SignedOk(g, h, j);
    if TranscriptBytes(h.signed[j]) == TranscriptBytes(t) {
      TranscriptInjective(h.signed[j], t);
    }
  }

  /** The exchange of a transcript whose two keys honest parties generated is secret. */
  lemma HonestKeysSecret(g: Setup, t: Transcript)
    requires t.clientPublic in g.pool && t.serverPublic in g.pool
    ensures Secret(g, KeysOf(t).clientToService.key) && Secret(g, KeysOf(t).serviceToClient.key)
  {
  }

  /** A frame that a client accepts over the channel of transcript t was sealed by the connection that signed t. */
  lemma FromServer(g: Setup, h: History, t: Transcript, f: WireFrame) returns (j: nat)
    requires HistoryOk(g, h) && Deliverable(g, h, f) && Encodable(t)
    requires t.clientPublic in g.pool && t.serverPublic in g.pool
    requires f.WireFrame? && f.payload.Sealed? && f.payload.aead.key == KeysOf(t).serviceToClient.key
    ensures j in h.signed && h.signed[j] == t && ServerContent(h, j, f.payload.aead.plain)
  {
    HonestKeysSecret(g, t);
    var e :| e in h.sealed && e.aead == f.payload.aead;
    assert EmissionOk(g, h, e);
    LabelsDiffer();
    assert e.author.Server?;
    j := e.author.which;
    assert SignedOk(g, h, j);
    KeysDetermineTranscript(h.signed[j], t);
  }

  /** A frame that a connection accepts over the channel of transcript t was sealed by the client that accepted t. */
  lemma FromClient(g: Setup, h: History, t: Transcript, f: WireFrame) returns (i: nat)
    requires HistoryOk(g, h) && Deliverable(g, h, f) && Encodable(t)
    requires t.clientPublic in g.pool && t.serverPublic in g.pool
    requires f.WireFrame? && f.payload.Sealed? && f.payload.aead.key == KeysOf(t).clientToService.key
    ensures i in h.met && h.met[i].transcript == t && ClientContent(h.met[i].product, f.payload.aead.plain)
  {
    HonestKeysSecret(g, t);
    var e :| e in h.sealed && e.aead == f.payload.aead;
    assert EmissionOk(g, h, e);
    LabelsDiffer();
    assert e.author.Client?;
    i := e.author.who;
    assert MetOk(g, h, i);
    KeysDetermineTranscript(h.met[i].transcript, t);
  }

  // ---- what each party is, given the history ----

  /** The grant that a Valid client holds. */
  ghost predicate GrantedTo(h: History, i: nat, s: Clients.Sdk, j: nat) {
    && i in h.met && j in h.signed && j in h.grants
    && h.signed[j] == h.met[i].transcript
    && h.grants[j].session == s.session
    && h.grants[j].product == s.config.product
    && h.grants[j].features == s.snapshot.features
    && h.grants[j].expire == s.snapshot.expire
  }

  ghost predicate TrustsHonest(g: Setup, trusted: map<Bytes, Key>) {
    forall id :: id in trusted ==> trusted[id] == g.identity
  }

  /** An endpoint works with the keys of the transcript its client accepted. */
  predicate ClientKeyed(t: Transcript, c: ClientEnd) {
    && c.writer.Some? && c.writer.value.key == KeysOf(t).clientToService
    && c.reader.Some? && c.reader.value.key == KeysOf(t).serviceToClient
    && c.selected == t.selected && c.minVersion == t.minVersion && c.maxVersion == t.maxVersion
  }

  ghost predicate HandshakeOk(g: Setup, h: History, i: nat, c: ClientEnd) {
    && (c.state == HelloSent ==>
          i !in h.met && c.ephemeral in h.owner && h.owner[c.ephemeral] == Client(i) && TrustsHonest(g, c.trusted))
    && (c.state == Established ==> i in h.met && ClientKeyed(h.met[i].transcript, c))
  }

  ghost predicate ClientOk(g: Setup, h: History, i: nat, s: Clients.Sdk) {
    && Clients.SdkInvariant(s)
    && (s.operation == Clients.Dialing ==> TrustsHonest(g, s.config.trusted))
    && (s.operation == Clients.Dialing || s.snapshot.state == Clients.Uninitialized ==> i !in h.met)
    && (s.handshake.Some? ==> HandshakeOk(g, h, i, s.handshake.value))
    && (i in h.met ==> h.met[i].product == s.config.product)
    && (s.snapshot.state == Clients.Valid ==> exists j :: GrantedTo(h, i, s, j))
  }

  predicate ServerKeyedBy(t: Transcript, s: ServerEnd) {
    && s.writer.Some? && s.writer.value.key == KeysOf(t).serviceToClient
    && s.reader.Some? && s.reader.value.key == KeysOf(t).clientToService
    && s.selected == t.selected
  }

  ghost predicate ConnOk(g: Setup, h: History, j: nat, c: Conn) {
    && Consistent(c)
    && c.license == g.license && c.handshake.keyId == g.keyId
    && c.handshake.minVersion == g.minVersion && c.handshake.maxVersion == g.maxVersion
    && (c.phase == ExpectHello ==> j !in h.signed && c.handshake.identity == Some(g.identity))
    && (c.phase in {ExpectFinished, ExpectAuthorize, Active} ==>
          j in h.signed && ServerKeyedBy(h.signed[j], c.handshake))
    && (c.phase in {ExpectHello, ExpectFinished, ExpectAuthorize} ==> j !in h.grants)
    && (c.phase == Active ==> j in h.grants && h.grants[j].session == c.session.value.id)
  }

  ghost predicate WorldOk(g: Setup, w: World) {
    && HistoryOk(g, w.past)
    && (forall i :: i in w.clients ==> ClientOk(g, w.past, i, w.clients[i]))
    && (forall i :: i in w.past.met ==> i in w.clients)
    && (forall j :: j in w.conns ==> ConnOk(g, w.past, j, w.conns[j]))
  }

  // ---- growth of the history ----

  lemma GrowthKeepsHistory(g: Setup, h: History, k: History)
    requires HistoryOk(g, h) && Grows(h, k)
    ensures forall j :: j in h.signed ==> SignedOk(g, k, j)
    ensures forall i :: i in h.met ==> MetOk(g, k, i)
    ensures forall j :: j in h.grants ==> GrantOk(g, k, j)
    ensures forall e :: e in h.sealed ==> EmissionOk(g, k, e)
  {
    forall j | j in h.signed ensures SignedOk(g, k, j) {
      assert SignedOk(g, h, j);
    }
    forall i | i in h.met ensures MetOk(g, k, i) {
      assert MetOk(g, h, i);
      var j :| j in h.signed && h.signed[j] == h.met[i].transcript;
      assert j in k.signed && k.signed[j] == k.met[i].transcript;
    }
    forall j | j in h.grants ensures GrantOk(g, k, j) {
      assert GrantOk(g, h, j);
      if h.signed[j].clientPublic in g.pool {
        var i :| i in h.met && h.met[i].transcript == h.signed[j] && h.met[i].product == h.grants[j].product;
        assert i in k.met && k.met[i].transcript == k.signed[j] && k.met[i].product == k.grants[j].product;
      }
    }
    forall e | e in h.sealed ensures EmissionOk(g, k, e) {
      assert EmissionOk(g, h, e);
    }
  }

  /**
   * Growth that concerns neither a client's meeting nor a connection's signature and grant leaves
   * that party as it was.
   */
  lemma GrowthKeepsClient(g: Setup, h: History, k: History, i: nat, s: Clients.Sdk)
    requires ClientOk(g, h, i, s) && Grows(h, k) && (i in k.met ==> i in h.met)
    ensures ClientOk(g, k, i, s)
  {
    if s.snapshot.state == Clients.Valid {
      var j :| GrantedTo(h, i, s, j);
      assert GrantedTo(k, i, s, j);
    }
  }

  lemma GrowthKeepsConn(g: Setup, h: History, k: History, j: nat, c: Conn)
    requires ConnOk(g, h, j, c) && Grows(h, k)
    requires (j in k.signed ==> j in h.signed) && (j in k.grants ==> j in h.grants)
    ensures ConnOk(g, k, j, c)
  {
  }

  // ---- client events ----

  function Generates(e: Clients.Event): Option<Key> {
    if e.Dial? then e.start.keyPair else None
  }

  function Arrives(e: Clients.Event): Option<WireFrame> {
    match e
    case ServerHelloArrives(f, _, _, _, _, _, _) => f
    case AuthResultArrives(f) => f
    case AckArrives(f) => f
    case _ => None
  }

  /** The transcript a client accepts in this event, if it accepts one. */
  function Meets(s: Clients.Sdk, e: Clients.Event): Option<Meeting> {
    if !e.ServerHelloArrives? || s.handshake.None? || e.frame.None? || ClearBuffer(e.frame.value).None? then None else
    var b := ClearBuffer(e.frame.value).value;
    if ClientReceiveHello(s.handshake.value, b, e.env).1.Reject? then None
    else Some(Meeting(TranscriptFor(s.handshake.value.Hello(), DecodeServerHello(b).value), s.config.product))
  }

  ghost predicate ClientCan(g: Setup, h: History, s: Clients.Sdk, e: Clients.Event) {
    && Clients.Enabled(s, e)
    && (Arrives(e).Some? ==> Deliverable(g, h, Arrives(e).value))
    && (Generates(e).Some? ==> Generates(e).value in g.pool && Generates(e).value !in h.owner)
    && (e.Initialize? ==> TrustsHonest(g, e.config.trusted))
  }

  function AfterClient(h: History, i: nat, s: Clients.Sdk, e: Clients.Event): History
    requires Clients.Enabled(s, e)
  {
    h.(owner := if Generates(e).Some? then h.owner[Generates(e).value := Client(i)] else h.owner,
       met := if Meets(s, e).Some? then h.met[i := Meets(s, e).value] else h.met,
       sealed := h.sealed + Emitted(Client(i), Clients.Apply(s, e).frames, 0))
  }

  /** The sealed frames among these carry only what a client of that key and product says. */
  ghost predicate ClientFrames(key: Derived, product: Bytes, frames: seq<WireFrame>) {
    forall f :: f in frames && f.WireFrame? && f.payload.Sealed? ==>
      f.payload.aead.key == key && ClientContent(product, f.payload.aead.plain)
  }

  /** What sealing as a client puts on the wire. */
  lemma ClientSealed(c: ClientEnd, plain: Buffer, cipherOk: bool, product: Bytes)
    requires ClientContent(product, plain)
    ensures var (d, r) := ClientSeal(c, plain, cipherOk);
            r.Done? ==> && c.writer.Some? && ClientFrames(c.writer.value.key.key, product, [r.value])
                        && d == c.(writer := Some(c.writer.value.(next := d.writer.value.next)))
  {
  }

  lemma SealedAdded(g: Setup, h: History, i: nat, frames: seq<WireFrame>)
    requires HistoryOk(g, h) && i in h.met
    requires ClientFrames(KeysOf(h.met[i].transcript).clientToService.key, h.met[i].product, frames)
    ensures HistoryOk(g, h.(sealed := h.sealed + Emitted(Client(i), frames, 0)))
  {
    var k := h.(sealed := h.sealed + Emitted(Client(i), frames, 0));
    GrowthKeepsHistory(g, h, k);
    forall e | e in k.sealed ensures EmissionOk(g, k, e) {
      if e !in h.sealed {
        assert e in Emitted(Client(i), frames, 0);
      }
    }
  }

  /** An accepted server hello was signed by a connection of the service. */
  lemma HelloAuthentic(g: Setup, h: History, i: nat, c: ClientEnd, f: WireFrame, b: Buffer, env: HelloEnv)
    requires HistoryOk(g, h) && HandshakeOk(g, h, i, c) && Deliverable(g, h, f) && ClearBuffer(f) == Some(b)
    requires ClientReceiveHello(c, b, env).1.Reply?
    ensures DecodeServerHello(b).Some?
    ensures var t := TranscriptFor(c.Hello(), DecodeServerHello(b).value);
            && Encodable(t) && t.clientPublic == c.ephemeral && c.state == HelloSent
            && (exists j :: j in h.signed && h.signed[j] == t)
            && ClientKeyed(t, ClientReceiveHello(c, b, env).0)
            && ClientReceiveHello(c, b, env).0.state == Established
  {
    var m := DecodeServerHello(b).value;
    var t := TranscriptFor(c.Hello(), m);
    assert Trusted(c, m);
    SignatureKnown(g, h, f, b, t);
  }

  /** A delivered signature of the service was made by one of its connections, over that very transcript. */
  lemma SignatureKnown(g: Setup, h: History, f: WireFrame, b: Buffer, t: Transcript)
    requires HistoryOk(g, h) && Deliverable(g, h, f) && ClearBuffer(f) == Some(b) && Encodable(t)
    requires CarriesSignature(b, g.identity, TranscriptBytes(t))
    ensures exists j :: j in h.signed && h.signed[j] == t
  {
    var j :| j in h.signed && TranscriptBytes(h.signed[j]) == TranscriptBytes(t);
    SameHonestTranscript(g, h, t, j);
  }

  lemma FinishedFrame(c: ClientEnd, b: Buffer, env: HelloEnv, product: Bytes)
    requires ClientReceiveHello(c, b, env).1.Reply?
    ensures var t := TranscriptFor(c.Hello(), DecodeServerHello(b).value);
            ClientFrames(KeysOf(t).clientToService.key, product, [ClientReceiveHello(c, b, env).1.value])
  {
  }

  lemma RequestFrames(s: Clients.Sdk, c: ClientEnd, finished: WireFrame, fw: bool, process: U64, size: nat,
      cipherOk: bool, written: bool)
    requires c.writer.Some? && ClientFrames(c.writer.value.key.key, s.config.product, [finished])
    ensures var t := Clients.RequestAuthorization(s, c, finished, fw, process, size, cipherOk, written);
            && ClientFrames(c.writer.value.key.key, s.config.product, t.frames)
            && t.client.config == s.config && t.client.snapshot.state in {s.snapshot.state, Clients.Error}
            && t.client.operation in {Clients.Idle, Clients.AwaitAuthResult}
            && (t.client.handshake.Some? ==>
                   && t.client.handshake == Some(c.(writer := t.client.handshake.value.writer))
                   && t.client.handshake.value.writer.Some?
                   && t.client.handshake.value.writer.value.key == c.writer.value.key)
  {
  }

  /** What one client event must leave behind. */
  ghost predicate ClientKept(g: Setup, h: History, k: History, i: nat, s: Clients.Sdk) {
    && HistoryOk(g, k) && Grows(h, k) && k.signed == h.signed && k.grants == h.grants
    && (forall n :: n in k.met ==> n in h.met || n == i)
    && ClientOk(g, k, i, s)
  }

  lemma DialTurn(s: Clients.Sdk, e: Clients.Event)
    requires Clients.Enabled(s, e) && e.Dial?
    ensures var t := Clients.Apply(s, e);
            && t.client.config == s.config && t.client.operation in {Clients.Idle, Clients.AwaitServerHello}
            && t.client.snapshot.state in {s.snapshot.state, Clients.Error}
            && (t.client.operation == Clients.Idle ==> t.client.handshake.None?)
            && (t.client.handshake.Some? ==>
                  && t.client.handshake.value.state == HelloSent
                  && e.start.keyPair == Some(t.client.handshake.value.ephemeral)
                  && t.client.handshake.value.trusted == s.config.trusted)
            && (forall f :: f in t.frames && f.WireFrame? ==> !f.payload.Sealed?)
  {
  }

  lemma DialHistory(h: History, i: nat, s: Clients.Sdk, e: Clients.Event)
    requires Clients.Enabled(s, e) && e.Dial?
    ensures AfterClient(h, i, s, e)
            == h.(owner := if Generates(e).Some? then h.owner[Generates(e).value := Client(i)] else h.owner)
  {
    DialTurn(s, e);
    assert Emitted(Client(i), Clients.Apply(s, e).frames, 0) == {};
  }

  lemma DialKeeps(g: Setup, h: History, i: nat, s: Clients.Sdk, e: Clients.Event)
    requires HistoryOk(g, h) && ClientOk(g, h, i, s) && ClientCan(g, h, s, e) && e.Dial?
    ensures ClientKept(g, h, AfterClient(h, i, s, e), i, Clients.Apply(s, e).client)
  {
    DialTurn(s, e);
    DialHistory(h, i, s, e);
    Clients.EventAdvances(s, e);
    DialedKept(g, h, AfterClient(h, i, s, e), i, s, e, Clients.Apply(s, e).client);
  }

  lemma DialedKept(g: Setup, h: History, k: History, i: nat, s: Clients.Sdk, e: Clients.Event, u: Clients.Sdk)
    requires HistoryOk(g, h) && ClientOk(g, h, i, s) && s.operation == Clients.Dialing && Clients.SdkInvariant(u)
             && e.Dial?
    requires Generates(e).Some? ==> Generates(e).value in g.pool && Generates(e).value !in h.owner
    requires k == h.(owner := if Generates(e).Some? then h.owner[Generates(e).value := Client(i)] else h.owner)
    requires u.config == s.config && u.operation in {Clients.Idle, Clients.AwaitServerHello}
             && u.snapshot.state in {Clients.Connecting, Clients.Error}
    requires u.handshake.Some? ==>
               && u.handshake.value.state == HelloSent && e.start.keyPair == Some(u.handshake.value.ephemeral)
                                   && u.handshake.value.trusted == s.config.trusted
    ensures ClientKept(g, h, k, i, u)
  {
    KeyAdded(g, h, i, Generates(e));
    DialedOk(g, h, k, i, s, e, u);
  }

  /** A new key pair of a party leaves the history in order. */
  lemma KeyAdded(g: Setup, h: History, i: nat, key: Option<Key>)
    requires HistoryOk(g, h) && (key.Some? ==> key.value in g.pool && key.value !in h.owner)
    ensures var k := h.(owner := if key.Some? then h.owner[key.value := Client(i)] else h.owner);
            HistoryOk(g, k) && Grows(h, k)
  {
    GrowthKeepsHistory(g, h, h.(owner := if key.Some? then h.owner[key.value := Client(i)] else h.owner));
  }

  lemma DialedOk(g: Setup, h: History, k: History, i: nat, s: Clients.Sdk, e: Clients.Event, u: Clients.Sdk)
    requires ClientOk(g, h, i, s) && s.operation == Clients.Dialing && Clients.SdkInvariant(u) && e.Dial?
    requires k == h.(owner := if Generates(e).Some? then h.owner[Generates(e).value := Client(i)] else h.owner)
    requires u.config == s.config && u.operation in {Clients.Idle, Clients.AwaitServerHello}
             && u.snapshot.state in {Clients.Connecting, Clients.Error}
    requires u.handshake.Some? ==>
               && u.handshake.value.state == HelloSent && e.start.keyPair == Some(u.handshake.value.ephemeral)
                                   && u.handshake.value.trusted == s.config.trusted
    ensures ClientOk(g, k, i, u)
  {
  }

  lemma ServerHelloKeeps(g: Setup, h: History, i: nat, s: Clients.Sdk, e: Clients.Event)
    requires HistoryOk(g, h) && ClientOk(g, h, i, s) && ClientCan(g, h, s, e) && e.ServerHelloArrives?
    ensures ClientKept(g, h, AfterClient(h, i, s, e), i, Clients.Apply(s, e).client)
  {
    Clients.EventAdvances(s, e);
    if Meets(s, e).Some? {
      var b := ClearBuffer(e.frame.value).value;
      var c := s.handshake.value;
      HelloAuthentic(g, h, i, c, e.frame.value, b, e.env);
      FinishedFrame(c, b, e.env, s.config.product);
      var (d, r) := ClientReceiveHello(c, b, e.env);
      RequestFrames(s, d, r.value, e.finishedWritten, e.process, e.size, e.cipherOk, e.written);
      MeetingKeeps(g, h, i, Meets(s, e).value, d, Clients.Apply(s, e));
    } else {
      assert Clients.Apply(s, e).frames == [];
      assert AfterClient(h, i, s, e) == h;
    }
  }

  lemma MeetingKeeps(g: Setup, h: History, i: nat, m: Meeting, d: ClientEnd, u: Clients.Turn)
    requires HistoryOk(g, h) && i !in h.met
    requires var t := m.transcript;
             && Encodable(t) && t.clientPublic in h.owner && h.owner[t.clientPublic] == Client(i)
             && (exists j :: j in h.signed && h.signed[j] == t)
             && ClientKeyed(t, d) && d.state == Established
    requires Clients.SdkInvariant(u.client) && u.client.config.product == m.product
    requires u.client.snapshot.state in {Clients.Connecting, Clients.Error} && u.client.operation != Clients.Dialing
    requires ClientFrames(d.writer.value.key.key, m.product, u.frames)
    requires u.client.handshake.Some? ==> && u.client.handshake == Some(d.(writer := u.client.handshake.value.writer))
                                          && u.client.handshake.value.writer.Some?
                                          && u.client.handshake.value.writer.value.key == d.writer.value.key
    ensures ClientKept(g, h, h.(met := h.met[i := m], sealed := h.sealed + Emitted(Client(i), u.frames, 0)), i,
              u.client)
  {
    MeetingHistory(g, h, i, m, u.frames);
    MetClientOk(g, h.(met := h.met[i := m], sealed := h.sealed + Emitted(Client(i), u.frames, 0)), i, m, d, u.client);
  }

  lemma MeetingHistory(g: Setup, h: History, i: nat, m: Meeting, frames: seq<WireFrame>)
    requires HistoryOk(g, h) && i !in h.met && Encodable(m.transcript)
    requires m.transcript.clientPublic in h.owner && h.owner[m.transcript.clientPublic] == Client(i)
    requires exists j :: j in h.signed && h.signed[j] == m.transcript
    requires ClientFrames(KeysOf(m.transcript).clientToService.key, m.product, frames)
    ensures HistoryOk(g, h.(met := h.met[i := m], sealed := h.sealed + Emitted(Client(i), frames, 0)))
  {
    MetAdded(g, h, i, m);
    SealedAdded(g, h.(met := h.met[i := m]), i, frames);
  }

  lemma MetAdded(g: Setup, h: History, i: nat, m: Meeting)
    requires HistoryOk(g, h) && i !in h.met && Encodable(m.transcript)
    requires m.transcript.clientPublic in h.owner && h.owner[m.transcript.clientPublic] == Client(i)
    requires exists j :: j in h.signed && h.signed[j] == m.transcript
    ensures HistoryOk(g, h.(met := h.met[i := m]))
  {
    var k := h.(met := h.met[i := m]);
    GrowthKeepsHistory(g, h, k);
    var j :| j in h.signed && h.signed[j] == m.transcript;
    assert j in k.signed && k.signed[j] == k.met[i].transcript;
    assert MetOk(g, k, i);
  }

  lemma MetClientOk(g: Setup, k: History, i: nat, m: Meeting, d: ClientEnd, s: Clients.Sdk)
    requires i in k.met && k.met[i] == m && ClientKeyed(m.transcript, d) && d.state == Established
    requires Clients.SdkInvariant(s) && s.config.product == m.product
    requires s.snapshot.state in {Clients.Connecting, Clients.Error} && s.operation != Clients.Dialing
    requires s.handshake.Some? ==> && s.handshake == Some(d.(writer := s.handshake.value.writer))
                                   && s.handshake.value.writer.Some?
                                   && s.handshake.value.writer.value.key == d.writer.value.key
    ensures ClientOk(g, k, i, s)
  {
  }

  /** Both keys of an accepted transcript are honest. */
  lemma MetKeysHonest(g: Setup, h: History, i: nat)
    requires HistoryOk(g, h) && i in h.met
    ensures var t := h.met[i].transcript; Encodable(t) && t.clientPublic in g.pool && t.serverPublic in g.pool
  {
  }

  /** A connection that met an honest client granted that client's product. */
  lemma GrantForClient(g: Setup, h: History, i: nat, j: nat)
    requires HistoryOk(g, h) && i in h.met && j in h.grants && j in h.signed && h.signed[j] == h.met[i].transcript
    ensures h.grants[j].product == h.met[i].product
  {
  }

  lemma SignerUnique(g: Setup, h: History, j: nat, n: nat)
    requires HistoryOk(g, h) && j in h.signed && n in h.signed && h.signed[j] == h.signed[n]
    ensures j == n
  {
  }

  /** What opens over an established client's channel came from the connection it met. */
  lemma OpenedFromServer(g: Setup, h: History, i: nat, c: ClientEnd, f: WireFrame) returns (j: nat)
    requires HistoryOk(g, h) && HandshakeOk(g, h, i, c) && Deliverable(g, h, f) && ClientOpen(c, f).1.Done?
    ensures i in h.met && ClientKeyed(h.met[i].transcript, c)
            && ClientOpen(c, f).0 == c.(reader := ClientOpen(c, f).0.reader)
    ensures ClientKeyed(h.met[i].transcript, ClientOpen(c, f).0)
    ensures j in h.signed && h.signed[j] == h.met[i].transcript && ServerContent(h, j, ClientOpen(c, f).1.value)
  {
    MetKeysHonest(g, h, i);
    j := FromServer(g, h, h.met[i].transcript, f);
  }

  /** What an answer makes of a client, in terms of the record it came in. */
  lemma AuthResultTurn(s: Clients.Sdk, frame: Option<WireFrame>)
    requires Clients.SdkInvariant(s) && s.operation == Clients.AwaitAuthResult && s.handshake.Some?
    ensures var u := Clients.TakeAuthResult(s, frame).client;
            && u.config == s.config && u.snapshot.state in {Clients.Valid, Clients.Error} && u.operation == Clients.Idle
            && (u.snapshot.state == Clients.Error ==> u.handshake.None?)
            && (u.snapshot.state == Clients.Valid ==>
                  && frame.Some? && ClientOpen(s.handshake.value, frame.value).1.Done?
                  && u.handshake == Some(ClientOpen(s.handshake.value, frame.value).0)
                  && var r := DecodeAuthResult(ClientOpen(s.handshake.value, frame.value).1.value);
                     && r.Some? && r.value.error == NO_ERROR && r.value.session == Some(u.session)
                     && u.snapshot.features == r.value.features && u.snapshot.expire == r.value.expire)
  {
  }

  lemma AuthResultKeeps(g: Setup, h: History, i: nat, s: Clients.Sdk, e: Clients.Event)
    requires HistoryOk(g, h) && ClientOk(g, h, i, s) && ClientCan(g, h, s, e) && e.AuthResultArrives?
    ensures ClientKept(g, h, AfterClient(h, i, s, e), i, Clients.Apply(s, e).client)
  {
    Clients.EventAdvances(s, e);
    assert Clients.Apply(s, e).frames == [];
    assert Emitted(Client(i), [], 0) == {};
    assert AfterClient(h, i, s, e) == h;
    AuthResultTurn(s, e.frame);
    ResultTaken(g, h, i, s, e.frame, Clients.Apply(s, e).client);
  }

  lemma ResultTaken(g: Setup, h: History, i: nat, s: Clients.Sdk, frame: Option<WireFrame>, u: Clients.Sdk)
    requires HistoryOk(g, h) && ClientOk(g, h, i, s) && s.handshake.Some? && Clients.SdkInvariant(u)
    requires u.config == s.config && u.snapshot.state in {Clients.Valid, Clients.Error} && u.operation == Clients.Idle
    requires u.snapshot.state == Clients.Error ==> u.handshake.None?
    requires u.snapshot.state == Clients.Valid ==>
               && frame.Some? && Deliverable(g, h, frame.value) && ClientOpen(s.handshake.value, frame.value).1.Done?
               && u.handshake == Some(ClientOpen(s.handshake.value, frame.value).0)
               && var r := DecodeAuthResult(ClientOpen(s.handshake.value, frame.value).1.value);
                  && r.Some? && r.value.error == NO_ERROR && r.value.session == Some(u.session)
                  && u.snapshot.features == r.value.features && u.snapshot.expire == r.value.expire
    ensures ClientKept(g, h, h, i, u)
  {
    if u.snapshot.state == Clients.Valid {
      var j := OpenedFromServer(g, h, i, s.handshake.value, frame.value);
      GrantForClient(g, h, i, j);
      assert GrantedTo(h, i, u, j);
    }
  }

  lemma AckTurn(s: Clients.Sdk, frame: Option<WireFrame>)
    requires s.handshake.Some? && s.worker.AwaitAck? && s.snapshot.state == Clients.Valid
    ensures var t := Clients.TakeAck(s, frame);
            && t.frames == [] && t.client.config == s.config && t.client.session == s.session
            && t.client.operation == s.operation
            && t.client.snapshot.state != Clients.Uninitialized
            && (t.client.handshake == s.handshake || (frame.Some? && ClientOpen(s.handshake.value, frame.value).1.Done?
                                                      && t.client.handshake
                                                            == Some(ClientOpen(s.handshake.value, frame.value).0)))
            && (t.client.snapshot.state == Clients.Valid ==>
                  && frame.Some? && ClientOpen(s.handshake.value, frame.value).1.Done?
                  && var a := DecodeHeartbeatAck(ClientOpen(s.handshake.value, frame.value).1.value);
                     a.Some? && t.client.snapshot.features == a.value.features
                       && t.client.snapshot.expire == a.value.expire)
  {
  }

  lemma AckKeeps(g: Setup, h: History, i: nat, s: Clients.Sdk, e: Clients.Event)
    requires HistoryOk(g, h) && ClientOk(g, h, i, s) && ClientCan(g, h, s, e) && e.AckArrives?
    ensures ClientKept(g, h, AfterClient(h, i, s, e), i, Clients.Apply(s, e).client)
  {
    Clients.EventAdvances(s, e);
    AckTurn(s, e.frame);
    assert AfterClient(h, i, s, e) == h;
    AckedKeeps(g, h, i, s, e.frame, Clients.Apply(s, e).client);
  }

  lemma AckedKeeps(g: Setup, h: History, i: nat, s: Clients.Sdk, frame: Option<WireFrame>, u: Clients.Sdk)
    requires HistoryOk(g, h) && ClientOk(g, h, i, s) && s.handshake.Some? && s.snapshot.state == Clients.Valid
    requires frame.Some? ==> Deliverable(g, h, frame.value)
    requires Clients.SdkInvariant(u) && u.config == s.config && u.session == s.session && u.operation == s.operation
    requires u.snapshot.state != Clients.Uninitialized
    requires u.handshake == s.handshake || (frame.Some? && ClientOpen(s.handshake.value, frame.value).1.Done?
                                            && u.handshake == Some(ClientOpen(s.handshake.value, frame.value).0))
    requires u.snapshot.state == Clients.Valid ==>
               && frame.Some? && ClientOpen(s.handshake.value, frame.value).1.Done?
               && var a := DecodeHeartbeatAck(ClientOpen(s.handshake.value, frame.value).1.value);
                  a.Some? && u.snapshot.features == a.value.features && u.snapshot.expire == a.value.expire
    ensures ClientKept(g, h, h, i, u)
  {
    if frame.Some? && ClientOpen(s.handshake.value, frame.value).1.Done? {
      var j := OpenedFromServer(g, h, i, s.handshake.value, frame.value);
      if u.snapshot.state == Clients.Valid {
        var n :| GrantedTo(h, i, s, n);
        SignerUnique(g, h, j, n);
        assert GrantedTo(h, i, u, j);
      }
    }
  }

  /** What a beat sends and leaves. */
  lemma BeatTurn(s: Clients.Sdk, size: nat, cipherOk: bool, written: bool)
    requires s.handshake.Some? && s.handshake.value.writer.Some?
    ensures var u, c := Clients.SendBeat(s, size, cipherOk, written), s.handshake.value;
            && ClientFrames(c.writer.value.key.key, s.config.product, u.frames)
            && u.client.config == s.config && u.client.session == s.session && u.client.operation == s.operation
            && (u.client.snapshot == s.snapshot || u.client.snapshot.state == Clients.Error)
            && u.client.handshake.Some? && u.client.handshake.value.writer.Some?
            && u.client.handshake.value == c.(writer := u.client.handshake.value.writer)
            && u.client.handshake.value.writer.value.key == c.writer.value.key
  {
    var c := s.handshake.value;
    var encoded := EncodeHeartbeat(Heartbeat(s.nextId, c.selected, s.session), size);
    if encoded.Some? {
      ClientSealed(c, encoded.value, cipherOk, s.config.product);
    }
  }

  lemma BeatKeeps(g: Setup, h: History, i: nat, s: Clients.Sdk, e: Clients.Event)
    requires HistoryOk(g, h) && ClientOk(g, h, i, s) && ClientCan(g, h, s, e) && e.Beat?
    ensures ClientKept(g, h, AfterClient(h, i, s, e), i, Clients.Apply(s, e).client)
  {
    Clients.EventAdvances(s, e);
    BeatTurn(s, e.size, e.cipherOk, e.written);
    SentKeeps(g, h, i, s, Clients.Apply(s, e));
  }

  lemma SentKeeps(g: Setup, h: History, i: nat, s: Clients.Sdk, u: Clients.Turn)
    requires HistoryOk(g, h) && ClientOk(g, h, i, s) && Clients.SdkInvariant(u.client)
    requires s.handshake.Some? && s.handshake.value.state == Established
    requires var c := s.handshake.value;
             && c.writer.Some? && ClientFrames(c.writer.value.key.key, s.config.product, u.frames)
             && u.client.config == s.config && u.client.session == s.session && u.client.operation == s.operation
             && (u.client.snapshot == s.snapshot || u.client.snapshot.state == Clients.Error)
             && u.client.handshake.Some? && u.client.handshake.value.writer.Some?
             && u.client.handshake.value == c.(writer := u.client.handshake.value.writer)
             && u.client.handshake.value.writer.value.key == c.writer.value.key
    ensures ClientKept(g, h, h.(sealed := h.sealed + Emitted(Client(i), u.frames, 0)), i, u.client)
  {
    SealedAdded(g, h, i, u.frames);
    var k := h.(sealed := h.sealed + Emitted(Client(i), u.frames, 0));
    if u.client.snapshot.state == Clients.Valid {
      var n :| GrantedTo(h, i, s, n);
      assert GrantedTo(k, i, u.client, n);
    }
  }

  /** The frames of a farewell. */
  lemma JoinTurn(s: Clients.Sdk, size: nat, cipherOk: bool)
    ensures var t := Clients.FinishShutdown(s, size, cipherOk);
            && t.client.handshake.None? && t.client.snapshot.state == Clients.Closed && t.client.config == s.config
            && t.client.operation == Clients.Idle
            && (t.frames != [] ==> s.handshake.Some? && s.handshake.value.state == Established)
            && (s.handshake.Some? && s.handshake.value.state == Established && s.handshake.value.writer.Some? ==>
                  ClientFrames(s.handshake.value.writer.value.key.key, s.config.product, t.frames))
  {
    if s.handshake.Some? && s.handshake.value.state == Established && s.handshake.value.writer.Some? {
      var encoded := EncodeCloseSession(CloseSession(s.nextId, s.handshake.value.selected), size);
      if encoded.Some? {
        ClientSealed(s.handshake.value, encoded.value, cipherOk, s.config.product);
      }
    }
  }

  lemma JoinKeeps(g: Setup, h: History, i: nat, s: Clients.Sdk, e: Clients.Event)
    requires HistoryOk(g, h) && ClientOk(g, h, i, s) && ClientCan(g, h, s, e) && e.Join?
    ensures ClientKept(g, h, AfterClient(h, i, s, e), i, Clients.Apply(s, e).client)
  {
    Clients.EventAdvances(s, e);
    JoinTurn(s, e.size, e.cipherOk);
    LeaverKeeps(g, h, i, s, Clients.Apply(s, e));
    assert AfterClient(h, i, s, e) == h.(sealed := h.sealed + Emitted(Client(i), Clients.Apply(s, e).frames, 0));
  }

  lemma LeaverKeeps(g: Setup, h: History, i: nat, s: Clients.Sdk, u: Clients.Turn)
    requires HistoryOk(g, h) && ClientOk(g, h, i, s) && Clients.SdkInvariant(u.client)
    requires u.client.handshake.None? && u.client.snapshot.state == Clients.Closed && u.client.config == s.config
             && u.client.operation == Clients.Idle
    requires u.frames != [] ==> s.handshake.Some? && s.handshake.value.state == Established
    requires s.handshake.Some? && s.handshake.value.state == Established && s.handshake.value.writer.Some? ==>
               ClientFrames(s.handshake.value.writer.value.key.key, s.config.product, u.frames)
    ensures ClientKept(g, h, h.(sealed := h.sealed + Emitted(Client(i), u.frames, 0)), i, u.client)
  {
    if u.frames == [] {
      assert Emitted(Client(i), u.frames, 0) == {};
      assert h.(sealed := h.sealed + Emitted(Client(i), u.frames, 0)) == h;
    } else {
      SealedAdded(g, h, i, u.frames);
    }
  }

  lemma ClientEventKeeps(g: Setup, h: History, i: nat, s: Clients.Sdk, e: Clients.Event)
    requires HistoryOk(g, h) && ClientOk(g, h, i, s) && ClientCan(g, h, s, e)
    ensures ClientKept(g, h, AfterClient(h, i, s, e), i, Clients.Apply(s, e).client)
  {
    match e
    case Dial(_, _, _, _, _, _, _) => DialKeeps(g, h, i, s, e);
    case ServerHelloArrives(_, _, _, _, _, _, _) => ServerHelloKeeps(g, h, i, s, e);
    case AuthResultArrives(_) => AuthResultKeeps(g, h, i, s, e);
    case AckArrives(_) => AckKeeps(g, h, i, s, e);
    case Beat(_, _, _) => BeatKeeps(g, h, i, s, e);
    case Join(_, _) => JoinKeeps(g, h, i, s, e);
    case _ => QuietKeeps(g, h, i, s, e);
  }

  lemma QuietKeeps(g: Setup, h: History, i: nat, s: Clients.Sdk, e: Clients.Event)
    requires HistoryOk(g, h) && ClientOk(g, h, i, s) && ClientCan(g, h, s, e)
             && (e.Initialize? || e.Shutdown? || e.WorkerStops?)
    ensures ClientKept(g, h, AfterClient(h, i, s, e), i, Clients.Apply(s, e).client)
  {
    assert Emitted(Client(i), [], 0) == {};
    assert AfterClient(h, i, s, e) == h;
    if e.Initialize? {
      InitializeKeeps(g, h, i, s, e.config);
    } else {
      Clients.EventAdvances(s, e);
      PausedKeeps(g, h, i, s, Clients.Apply(s, e).client);
    }
  }

  lemma InitializeKeeps(g: Setup, h: History, i: nat, s: Clients.Sdk, config: Clients.Config)
    requires HistoryOk(g, h) && ClientOk(g, h, i, s) && s.operation == Clients.Idle && TrustsHonest(g, config.trusted)
    ensures ClientKept(g, h, h, i, Clients.BeginInitialize(s, config).client)
  {
    Clients.InitializeAdvances(s, config);
  }

  /** A client that only moved its operation, its thread or its stop flag. */
  lemma PausedKeeps(g: Setup, h: History, i: nat, s: Clients.Sdk, u: Clients.Sdk)
    requires HistoryOk(g, h) && ClientOk(g, h, i, s) && Clients.SdkInvariant(u)
    requires u == s.(operation := u.operation, worker := u.worker, stop := u.stop) && u.operation != Clients.Dialing
    ensures ClientKept(g, h, h, i, u)
  {
    if u.snapshot.state == Clients.Valid {
      var n :| GrantedTo(h, i, s, n);
      assert GrantedTo(h, i, u, n);
    }
  }

  // ---- connection events ----

  function ServerGenerates(c: Conn, env: ConnEnv): Option<Key> {
    if c.phase == ExpectHello then env.server.keyPair else None
  }

  /** The transcript a connection signs for this frame, if it signs one. */
  function Signs(c: Conn, f: WireFrame, env: ConnEnv): Option<Transcript> {
    if c.phase != ExpectHello || ClearBuffer(f).None? then None else
    var b := ClearBuffer(f).value;
    if ServerReceiveHello(c.handshake, b, env.server).1.Reject? then None else
    var m := DecodeClientHello(b).value;
    Some(TranscriptFor(m, Answer(c.handshake, m, env.server.nonce.value, env.server.keyPair.value)))
  }

  function Granted(c: Conn, d: Conn, now: U64): Option<Grant> {
    if c.phase == ExpectAuthorize && d.phase == Active && d.session.Some? then
      Some(Grant(d.session.value.id, d.session.value.product, d.session.value.features, d.session.value.expire, now))
    else None
  }

  function AfterServer(h: History, j: nat, c: Conn, f: WireFrame, now: U64, env: ConnEnv, s: Step): History {
    h.(owner := if ServerGenerates(c, env).Some? then h.owner[ServerGenerates(c, env).value := Server(j)] else h.owner,
       signed := if Signs(c, f, env).Some? then h.signed[j := Signs(c, f, env).value] else h.signed,
       grants := if Granted(c, s.conn, now).Some? then h.grants[j := Granted(c, s.conn, now).value] else h.grants,
       sealed := h.sealed + Emitted(Server(j), Responses(s.result), now))
  }

  ghost predicate ServerCan(g: Setup, h: History, c: Conn, f: WireFrame, env: ConnEnv) {
    && Deliverable(g, h, f)
    && (ServerGenerates(c, env).Some? ==>
          ServerGenerates(c, env).value in g.pool && ServerGenerates(c, env).value !in h.owner)
  }

  ghost predicate ServerKept(g: Setup, h: History, k: History, j: nat, c: Conn) {
    && HistoryOk(g, k) && Grows(h, k) && k.met == h.met
    && (forall n :: n in k.signed ==> n in h.signed || n == j)
    && (forall n :: n in k.grants ==> n in h.grants || n == j)
    && ConnOk(g, k, j, c)
  }

  /** Signing installs the keys of the signed transcript. */
  lemma HelloTurn(c: Conn, t: Table, f: WireFrame, env: ConnEnv)
    requires Consistent(c) && c.phase == ExpectHello
    ensures var s := HandleHello(c, t, f, env);
            && Emitted(Server(0), Responses(s.result), 0) == {}
            && (Signs(c, f, env).None? ==> s.conn.phase == Closed)
            && (Signs(c, f, env).Some? ==>
                  var tr := Signs(c, f, env).value;
                  && s.conn.phase == ExpectFinished && ServerKeyedBy(tr, s.conn.handshake)
                  && env.server.keyPair == Some(tr.serverPublic)
                  && Encodable(tr) && tr.serviceKeyId == c.handshake.keyId
                  && tr.selected == Min(c.handshake.maxVersion, tr.maxVersion)
                  && c.handshake.minVersion <= tr.selected && tr.minVersion <= tr.selected)
  {
  }

  lemma HelloEventKeeps(g: Setup, h: History, j: nat, c: Conn, t: Table, f: WireFrame, mono: U64, now: U64,
      env: ConnEnv)
    requires HistoryOk(g, h) && ConnOk(g, h, j, c) && ServerCan(g, h, c, f, env) && c.phase == ExpectHello
    ensures var s := Handle(c, t, f, mono, now, env);
            ServerKept(g, h, AfterServer(h, j, c, f, now, env, s), j, s.conn)
  {
    HandleKeeps(c, t, f, mono, now, env);
    HelloTurn(c, t, f, env);
    var s := Handle(c, t, f, mono, now, env);
    assert s == HandleHello(c, t, f, env);
    assert Emitted(Server(j), Responses(s.result), now) == {};
    SignedKeeps(g, h, j, Signs(c, f, env), ServerGenerates(c, env), s.conn);
  }

  /** A connection that generated a key, and either signed with it or closed. */
  lemma SignedKeeps(g: Setup, h: History, j: nat, signs: Option<Transcript>, key: Option<Key>, d: Conn)
    requires HistoryOk(g, h) && j !in h.signed && j !in h.grants
    requires key.Some? ==> key.value in g.pool && key.value !in h.owner
    requires Consistent(d) && d.license == g.license && d.handshake.keyId == g.keyId
    requires d.handshake.minVersion == g.minVersion && d.handshake.maxVersion == g.maxVersion
    requires signs.None? ==> d.phase == Closed
    requires signs.Some? ==>
               && d.phase == ExpectFinished && ServerKeyedBy(signs.value, d.handshake)
               && key == Some(signs.value.serverPublic)
                             && Encodable(signs.value) && signs.value.serviceKeyId == g.keyId
                             && Negotiated(g, signs.value)
    ensures ServerKept(g, h, h.(owner := if key.Some? then h.owner[key.value := Server(j)] else h.owner,
                                signed := if signs.Some? then h.signed[j := signs.value] else h.signed,
                                sealed := h.sealed + {}), j, d)
  {
    var k := h.(owner := if key.Some? then h.owner[key.value := Server(j)] else h.owner,
                signed := if signs.Some? then h.signed[j := signs.value] else h.signed, sealed := h.sealed + {});
    assert k.sealed == h.sealed;
    GrowthKeepsHistory(g, h, k);
    if signs.Some? {
      assert SignedOk(g, k, j);
    }
  }

  lemma FinishedTurn(c: Conn, t: Table, f: WireFrame, mono: U64, now: U64, env: ConnEnv)
    requires Consistent(c) && c.phase == ExpectFinished
    ensures var s := Handle(c, t, f, mono, now, env);
            && s.result.response.None?
            && (s.conn.phase != Closed ==>
                  && s.conn.phase == ExpectAuthorize && s.conn.handshake.writer == c.handshake.writer
                  && s.conn.handshake.reader.Some? && s.conn.handshake.reader.value.key == c.handshake.reader.value.key
                  && s.conn.handshake.selected == c.handshake.selected)
  {
  }

  lemma FinishedEventKeeps(g: Setup, h: History, j: nat, c: Conn, t: Table, f: WireFrame, mono: U64, now: U64,
      env: ConnEnv)
    requires HistoryOk(g, h) && ConnOk(g, h, j, c) && c.phase == ExpectFinished
    ensures var s := Handle(c, t, f, mono, now, env);
            ServerKept(g, h, AfterServer(h, j, c, f, now, env, s), j, s.conn)
  {
    HandleKeeps(c, t, f, mono, now, env);
    FinishedTurn(c, t, f, mono, now, env);
    var s := Handle(c, t, f, mono, now, env);
    assert Emitted(Server(j), Responses(s.result), now) == {};
    assert AfterServer(h, j, c, f, now, env, s) == h;
  }

  // -- answers over the channel --

  /** The sealed frames among these are under the key and say only what the session allows. */
  ghost predicate Answers(key: Derived, session: Option<Session>, license: Snapshot, now: U64, frames: seq<WireFrame>) {
    forall f :: f in frames && f.WireFrame? && f.payload.Sealed? ==>
      && f.payload.aead.key == key && AnswerContent(session, f.payload.aead.plain)
      && Timely(license, now, f.payload.aead.plain)
  }

  predicate AnswerContent(session: Option<Session>, plain: Buffer) {
    && (DecodeAuthResult(plain).Some? && DecodeAuthResult(plain).value.error == NO_ERROR ==>
          var r := DecodeAuthResult(plain).value;
          session.Some? && r.session == Some(session.value.id) && r.features == session.value.features
            && r.expire == session.value.expire)
    && (DecodeHeartbeatAck(plain).Some? ==>
          var a := DecodeHeartbeatAck(plain).value;
          session.Some? && a.features == session.value.features && a.expire == session.value.expire)
  }

  lemma RespondTurn(c: Conn, t: Table, plain: Buffer, closeAfter: bool, env: ConnEnv, session: Option<Session>,
      now: U64)
    requires c.handshake.writer.Some? && AnswerContent(session, plain) && Timely(c.license, now, plain)
    ensures var s := EncryptedResponse(c, t, plain, closeAfter, env);
            && Answers(c.handshake.writer.value.key.key, session, c.license, now, Responses(s.result))
            && s.conn.handshake == c.handshake.(writer := s.conn.handshake.writer)
            && s.conn.handshake.writer.Some? && s.conn.handshake.writer.value.key == c.handshake.writer.value.key
            && (s.conn.phase == Closed || (s.conn.session == c.session && s.conn.phase == c.phase))
            && (s.result.response.Some? && !closeAfter ==> s.conn.session == c.session && s.conn.phase == c.phase)
  {
  }

  /** What a connection that handled a request still holds. */
  ghost predicate SameChannel(c: Conn, d: Conn) {
    && c.handshake.writer.Some? && d.handshake.writer.Some?
    && d.handshake.writer.value.key == c.handshake.writer.value.key
    && d.handshake.reader == c.handshake.reader && d.handshake.selected == c.handshake.selected
  }

  lemma AuthorizeTurn(c: Conn, t: Table, plain: Buffer, mono: U64, now: U64, env: ConnEnv)
    requires Consistent(c) && c.phase == ExpectAuthorize
    ensures var s := HandleAuthorize(c, t, plain, mono, now, env);
            && Answers(c.handshake.writer.value.key.key, s.conn.session, c.license, now, Responses(s.result))
            && SameChannel(c, s.conn)
            && s.conn.phase in {Active, Closed}
            && (s.conn.phase == Active ==>
                  && DecodeAuthorize(plain).Some? && DecodeAuthorize(plain).value.product == c.license.product
                                           && !Lapsed(c.license, now))
  {
    AuthorizeKeeps(c, t, plain, mono, now, env);
    var request := DecodeAuthorize(plain);
    if request.Some? && request.value.version == c.handshake.selected {
      DecideKeeps(c, t, request.value, mono, now, env);
      var d := Decide(c, t, request.value, mono, now, env);
      var encoded := EncodeAuthResult(d.answer, env.size);
      if encoded.Some? {
        RespondTurn(d.conn, d.table, encoded.value, d.error != NoError, env, d.conn.session, now);
      }
    }
  }

  lemma ActiveTurn(c: Conn, t: Table, plain: Buffer, mono: U64, now: U64, env: ConnEnv)
    requires Consistent(c) && c.phase == Active
    ensures var s := HandleActive(c, t, plain, mono, now, env);
            && Answers(c.handshake.writer.value.key.key, c.session, c.license, now, Responses(s.result))
            && SameChannel(c, s.conn)
            && s.conn.phase in {Active, Closed}
            && (s.conn.phase == Active ==> s.conn.session == c.session)
  {
    var heartbeat := DecodeHeartbeat(plain);
    if heartbeat.Some? && GoodHeartbeat(c, t, heartbeat.value) {
      var m, x := heartbeat.value, c.session.value;
      var encoded := EncodeHeartbeatAck(HeartbeatAck(m.requestId, c.handshake.selected, if Lapsed(c.license, now)
        then STATE_EXPIRED else STATE_VALID, x.features, x.expire), env.size);
      if encoded.Some? {
        var u := TouchedTable(c, t, m, mono);
        assert AnswerContent(c.session, encoded.value);
        if Lapsed(c.license, now) {
          RespondTurn(c.(session := None), ReleaseTable(c, u), encoded.value, true, env, c.session, now);
        } else {
          RespondTurn(c, u, encoded.value, false, env, c.session, now);
        }
      }
    }
  }

  lemma ServerSealedAdded(g: Setup, h: History, j: nat, session: Option<Session>, frames: seq<WireFrame>, now: U64)
    requires HistoryOk(g, h) && j in h.signed
             && Answers(KeysOf(h.signed[j]).serviceToClient.key, session, g.license, now, frames)
    requires session.Some? ==> && j in h.grants && h.grants[j].session == session.value.id
                               && h.grants[j].features == session.value.features
                               && h.grants[j].expire == session.value.expire
    ensures HistoryOk(g, h.(sealed := h.sealed + Emitted(Server(j), frames, now)))
  {
    var k := h.(sealed := h.sealed + Emitted(Server(j), frames, now));
    GrowthKeepsHistory(g, h, k);
    forall e | e in k.sealed ensures EmissionOk(g, k, e) {
      if e !in h.sealed {
        assert e in Emitted(Server(j), frames, now);
      }
    }
  }

  lemma GrantAdded(g: Setup, h: History, j: nat, r: Grant)
    requires HistoryOk(g, h) && j in h.signed && j !in h.grants
    requires r.product == g.license.product && r.features == g.license.features && r.expire == g.license.expire
             && !Lapsed(g.license, r.now)
    requires h.signed[j].clientPublic in g.pool ==>
               exists i :: i in h.met && h.met[i].transcript == h.signed[j] && h.met[i].product == r.product
    ensures HistoryOk(g, h.(grants := h.grants[j := r]))
  {
    var k := h.(grants := h.grants[j := r]);
    GrowthKeepsHistory(g, h, k);
    if h.signed[j].clientPublic in g.pool {
      var i :| i in h.met && h.met[i].transcript == h.signed[j] && h.met[i].product == r.product;
      assert i in k.met && k.met[i].transcript == k.signed[j] && k.met[i].product == r.product;
    }
    assert GrantOk(g, k, j);
  }

  /** What opens over a connection's channel: the channel stays, and an honest peer's request is its own. */
  lemma OpenedFromClient(g: Setup, h: History, j: nat, c: Conn, f: WireFrame)
    requires HistoryOk(g, h) && ConnOk(g, h, j, c) && c.phase in {ExpectAuthorize, Active} && Deliverable(g, h, f)
    requires ServerOpen(c.handshake, f).1.Done?
    ensures var k := c.(handshake := ServerOpen(c.handshake, f).0);
            && Consistent(k) && j in h.signed && ServerKeyedBy(h.signed[j], k.handshake)
    ensures var plain := ServerOpen(c.handshake, f).1.value;
            h.signed[j].clientPublic in g.pool && DecodeAuthorize(plain).Some? ==>
              exists i :: i in h.met && h.met[i].transcript == h.signed[j]
                && h.met[i].product == DecodeAuthorize(plain).value.product
  {
    assert SignedOk(g, h, j);
    if h.signed[j].clientPublic in g.pool {
      var i := FromClient(g, h, h.signed[j], f);
    }
  }

  /** What a step on a request says about itself. */
  ghost predicate RequestStep(c: Conn, f: WireFrame, now: U64, s: Step)
    requires c.handshake.writer.Some? && ServerOpen(c.handshake, f).1.Done?
  {
    var k, plain := c.(handshake := ServerOpen(c.handshake, f).0), ServerOpen(c.handshake, f).1.value;
    && Answers(c.handshake.writer.value.key.key, s.conn.session, c.license, now, Responses(s.result))
    && SameChannel(k, s.conn) && s.conn.phase in {Active, Closed}
    && (s.conn.phase == Active ==>
          && DecodeAuthorize(plain).Some? && DecodeAuthorize(plain).value.product == c.license.product
                                   && !Lapsed(c.license, now))
  }

  lemma RequestSteps(c: Conn, t: Table, f: WireFrame, mono: U64, now: U64, env: ConnEnv)
    requires Consistent(c) && c.phase == ExpectAuthorize && ServerOpen(c.handshake, f).1.Done?
    ensures RequestStep(c, f, now, Handle(c, t, f, mono, now, env))
  {
    var (e, received) := ServerOpen(c.handshake, f);
    AuthorizeTurn(c.(handshake := e), t, received.value, mono, now, env);
  }

  lemma RefusedSteps(c: Conn, t: Table, f: WireFrame, mono: U64, now: U64, env: ConnEnv)
    requires Consistent(c) && c.phase == ExpectAuthorize && ServerOpen(c.handshake, f).1.Denied?
    ensures Handle(c, t, f, mono, now, env)
            == StopAndRelease(c.(handshake := ServerOpen(c.handshake, f).0), t, BadFrame)
  {
  }

  lemma AuthorizeEventKeeps(g: Setup, h: History, j: nat, c: Conn, t: Table, f: WireFrame, mono: U64, now: U64,
      env: ConnEnv)
    requires HistoryOk(g, h) && ConnOk(g, h, j, c) && ServerCan(g, h, c, f, env) && c.phase == ExpectAuthorize
    ensures var s := Handle(c, t, f, mono, now, env);
            ServerKept(g, h, AfterServer(h, j, c, f, now, env, s), j, s.conn)
  {
    HandleKeeps(c, t, f, mono, now, env);
    if ServerOpen(c.handshake, f).1.Done? {
      RequestSteps(c, t, f, mono, now, env);
      RequestTaken(g, h, j, c, f, now, env, Handle(c, t, f, mono, now, env));
    } else {
      RefusedSteps(c, t, f, mono, now, env);
      RefusedKeeps(g, h, j, c, f, now, env, Handle(c, t, f, mono, now, env));
    }
  }

  lemma RefusedKeeps(g: Setup, h: History, j: nat, c: Conn, f: WireFrame, now: U64, env: ConnEnv, s: Step)
    requires HistoryOk(g, h) && ConnOk(g, h, j, c) && c.phase == ExpectAuthorize
    requires Consistent(s.conn) && SameOwner(c, s.conn) && s.conn.phase == Closed && s.result.response.None?
    ensures ServerKept(g, h, AfterServer(h, j, c, f, now, env, s), j, s.conn)
  {
    assert Emitted(Server(j), Responses(s.result), now) == {};
    assert AfterServer(h, j, c, f, now, env, s) == h;
  }

  /** A request that opened, and whatever step it led to. */
  lemma RequestTaken(g: Setup, h: History, j: nat, c: Conn, f: WireFrame, now: U64, env: ConnEnv, s: Step)
    requires HistoryOk(g, h) && ConnOk(g, h, j, c) && c.phase == ExpectAuthorize && Deliverable(g, h, f)
    requires Consistent(s.conn) && SameOwner(c, s.conn) && ServerOpen(c.handshake, f).1.Done?
             && RequestStep(c, f, now, s)
    ensures ServerKept(g, h, AfterServer(h, j, c, f, now, env, s), j, s.conn)
  {
    OpenedFromClient(g, h, j, c, f);
    AuthorizedKeeps(g, h, j, s.conn, Granted(c, s.conn, now), Responses(s.result), now);
  }

  lemma AuthorizedKeeps(g: Setup, h: History, j: nat, d: Conn, grant: Option<Grant>, frames: seq<WireFrame>, now: U64)
    requires HistoryOk(g, h) && j in h.signed && j !in h.grants
    requires Consistent(d) && d.license == g.license && d.handshake.keyId == g.keyId
    requires d.handshake.minVersion == g.minVersion && d.handshake.maxVersion == g.maxVersion
    requires ServerKeyedBy(h.signed[j], d.handshake)
    requires if grant.None? then d.phase == Closed
             else
               && d.phase == Active
               && var x := d.session.value;
                  grant.value == Grant(x.id, x.product, x.features, x.expire, grant.value.now)
    requires Answers(KeysOf(h.signed[j]).serviceToClient.key, d.session, g.license, now, frames)
    requires grant.Some? ==> !Lapsed(g.license, grant.value.now)
    requires grant.Some? && h.signed[j].clientPublic in g.pool ==>
               exists i :: i in h.met && h.met[i].transcript == h.signed[j] && h.met[i].product == g.license.product
    ensures ServerKept(g, h, h.(grants := if grant.Some? then h.grants[j := grant.value] else h.grants,
                                sealed := h.sealed + Emitted(Server(j), frames, now)), j, d)
  {
    var k := h.(grants := if grant.Some? then h.grants[j := grant.value] else h.grants);
    if grant.Some? {
      GrantAdded(g, h, j, grant.value);
    }
    ServerSealedAdded(g, k, j, d.session, frames, now);
  }

  lemma ActiveEventKeeps(g: Setup, h: History, j: nat, c: Conn, t: Table, f: WireFrame, mono: U64, now: U64,
      env: ConnEnv)
    requires HistoryOk(g, h) && ConnOk(g, h, j, c) && ServerCan(g, h, c, f, env) && c.phase == Active
    ensures var s := Handle(c, t, f, mono, now, env);
            ServerKept(g, h, AfterServer(h, j, c, f, now, env, s), j, s.conn)
  {
    HandleKeeps(c, t, f, mono, now, env);
    var s := Handle(c, t, f, mono, now, env);
    var (e, received) := ServerOpen(c.handshake, f);
    assert GrantOk(g, h, j);
    if received.Done? {
      OpenedFromClient(g, h, j, c, f);
      var k := c.(handshake := e);
      ActiveTurn(k, t, received.value, mono, now, env);
      AnsweredKeeps(g, h, j, c.session, s.conn, Responses(s.result), now);
    } else {
      assert Emitted(Server(j), Responses(s.result), now) == {};
      assert AfterServer(h, j, c, f, now, env, s) == h;
    }
  }

  lemma AnsweredKeeps(g: Setup, h: History, j: nat, session: Option<Session>, d: Conn, frames: seq<WireFrame>, now: U64)
    requires HistoryOk(g, h) && j in h.signed && j in h.grants && session.Some?
    requires h.grants[j].session == session.value.id && h.grants[j].features == session.value.features
             && h.grants[j].expire == session.value.expire
    requires Consistent(d) && d.license == g.license && d.handshake.keyId == g.keyId
    requires d.handshake.minVersion == g.minVersion && d.handshake.maxVersion == g.maxVersion
    requires ServerKeyedBy(h.signed[j], d.handshake)
    requires d.phase in {Active, Closed} && (d.phase == Active ==> d.session == session)
    requires Answers(KeysOf(h.signed[j]).serviceToClient.key, session, g.license, now, frames)
    ensures ServerKept(g, h, h.(sealed := h.sealed + Emitted(Server(j), frames, now)), j, d)
  {
    ServerSealedAdded(g, h, j, session, frames, now);
  }

  lemma ServerEventKeeps(g: Setup, h: History, j: nat, c: Conn, t: Table, f: WireFrame, mono: U64, now: U64,
      env: ConnEnv)
    requires HistoryOk(g, h) && ConnOk(g, h, j, c) && ServerCan(g, h, c, f, env)
    ensures var s := Handle(c, t, f, mono, now, env);
            ServerKept(g, h, AfterServer(h, j, c, f, now, env, s), j, s.conn)
  {
    match c.phase
    case ExpectHello => HelloEventKeeps(g, h, j, c, t, f, mono, now, env);
    case ExpectFinished => FinishedEventKeeps(g, h, j, c, t, f, mono, now, env);
    case ExpectAuthorize => AuthorizeEventKeeps(g, h, j, c, t, f, mono, now, env);
    case Active => ActiveEventKeeps(g, h, j, c, t, f, mono, now, env);
    case Closed =>
      var s := Handle(c, t, f, mono, now, env);
      assert Emitted(Server(j), Responses(s.result), now) == {};
      assert AfterServer(h, j, c, f, now, env, s) == h;
  }

  // ---- runs ----

  datatype Action =
    | NewClient(who: nat, sdk: Clients.Sdk)
    | ClientActs(who: nat, event: Clients.Event)
    | Accept(which: nat, peer: Bytes)
    | ServerActs(which: nat, frame: WireFrame, mono: U64, now: U64, env: ConnEnv)
    | Drop(which: nat)
    | Sweep(mono: U64, limit: U64)

  ghost predicate Can(g: Setup, w: World, a: Action) {
    match a
    case NewClient(i, s) => i !in w.clients && Clients.Unused(s)
    case ClientActs(i, e) => i in w.clients && ClientCan(g, w.past, w.clients[i], e)
    case Accept(j, _) => j !in w.conns && j !in w.past.signed
    case ServerActs(j, f, _, _, env) => j in w.conns && ServerCan(g, w.past, w.conns[j], f, env)
    case Drop(j) => j in w.conns
    case Sweep(_, _) => true
  }

  ghost function Do(g: Setup, w: World, a: Action): World
    requires Can(g, w, a)
  {
    match a
    case NewClient(i, s) => w.(clients := w.clients[i := s])
    case ClientActs(i, e) =>
      w.(clients := w.clients[i := Clients.Apply(w.clients[i], e).client],
        past := AfterClient(w.past, i, w.clients[i], e))
    case Accept(j, peer) =>
      w.(conns :=
        w.conns[j := NewConn(g.keyId, g.identity, g.minVersion, g.maxVersion, g.license, peer, g.interval, g.timeout)])
    case ServerActs(j, f, mono, now, env) =>
      var s := Handle(w.conns[j], w.table, f, mono, now, env);
      w.(conns := w.conns[j := s.conn], table := s.table, past := AfterServer(w.past, j, w.conns[j], f, now, env, s))
    case Drop(j) => w.(conns := w.conns - {j}, table := ReleaseTable(w.conns[j], w.table))
    case Sweep(mono, limit) => w.(table := Expire(w.table, mono, limit))
  }

  ghost predicate Run(g: Setup, run: seq<World>, actions: seq<Action>) {
    && |run| == |actions| + 1
    && run[0] == World(map[], map[], map[], History(map[], map[], map[], map[], {}))
    && forall n :: 0 <= n < |actions| ==> Can(g, run[n], actions[n]) && run[n + 1] == Do(g, run[n], actions[n])
  }

  lemma ClientActionKeeps(g: Setup, w: World, i: nat, e: Clients.Event)
    requires WorldOk(g, w) && Can(g, w, ClientActs(i, e))
    ensures WorldOk(g, Do(g, w, ClientActs(i, e)))
  {
    ClientEventKeeps(g, w.past, i, w.clients[i], e);
    ClientChanged(g, w, i, Clients.Apply(w.clients[i], e).client, AfterClient(w.past, i, w.clients[i], e));
  }

  /** Clients and connections that the growth of the history does not concern. */
  lemma OtherClients(g: Setup, w: World, k: History, i: nat)
    requires i in w.clients ==> ClientOk(g, w.past, i, w.clients[i])
    requires Grows(w.past, k) && i in w.clients && (i in k.met ==> i in w.past.met)
    ensures ClientOk(g, k, i, w.clients[i])
  {
    GrowthKeepsClient(g, w.past, k, i, w.clients[i]);
  }

  lemma ClientChanged(g: Setup, w: World, i: nat, s: Clients.Sdk, k: History)
    requires WorldOk(g, w) && i in w.clients && ClientKept(g, w.past, k, i, s)
    ensures WorldOk(g, w.(clients := w.clients[i := s], past := k))
  {
    forall n | n in w.clients && n != i ensures ClientOk(g, k, n, w.clients[n]) {
      OtherClients(g, w, k, n);
    }
    forall n | n in w.conns ensures ConnOk(g, k, n, w.conns[n]) {
      GrowthKeepsConn(g, w.past, k, n, w.conns[n]);
    }
  }

  lemma ServerActionKeeps(g: Setup, w: World, j: nat, f: WireFrame, mono: U64, now: U64, env: ConnEnv)
    requires WorldOk(g, w) && Can(g, w, ServerActs(j, f, mono, now, env))
    ensures WorldOk(g, Do(g, w, ServerActs(j, f, mono, now, env)))
  {
    var s := Handle(w.conns[j], w.table, f, mono, now, env);
    ServerEventKeeps(g, w.past, j, w.conns[j], w.table, f, mono, now, env);
    ServerChanged(g, w, j, s.conn, s.table, AfterServer(w.past, j, w.conns[j], f, now, env, s));
  }

  lemma ServerChanged(g: Setup, w: World, j: nat, c: Conn, t: Table, k: History)
    requires WorldOk(g, w) && j in w.conns && ServerKept(g, w.past, k, j, c)
    ensures WorldOk(g, w.(conns := w.conns[j := c], table := t, past := k))
  {
    forall n | n in w.clients ensures ClientOk(g, k, n, w.clients[n]) {
      OtherClients(g, w, k, n);
    }
    forall n | n in w.conns && n != j ensures ConnOk(g, k, n, w.conns[n]) {
      GrowthKeepsConn(g, w.past, k, n, w.conns[n]);
    }
  }

  lemma ActionKeeps(g: Setup, w: World, a: Action)
    requires WorldOk(g, w) && Can(g, w, a)
    ensures WorldOk(g, Do(g, w, a))
  {
    match a
    case ClientActs(i, e) => ClientActionKeeps(g, w, i, e);
    case ServerActs(j, f, mono, now, env) => ServerActionKeeps(g, w, j, f, mono, now, env);
    case NewClient(i, s) =>
      assert ClientOk(g, w.past, i, s);
    case Accept(j, peer) =>
      assert j in w.past.grants ==> GrantOk(g, w.past, j);
      assert ConnOk(g, w.past, j,
               NewConn(g.keyId, g.identity, g.minVersion, g.maxVersion, g.license, peer, g.interval, g.timeout));
    case Drop(j) =>
    case Sweep(_, _) =>
  }

  lemma {:induction false} RunKeepsWorld(g: Setup, run: seq<World>, actions: seq<Action>, n: nat)
    requires Run(g, run, actions) && n < |run|
    ensures WorldOk(g, run[n])
  {
    if n > 0 {
      RunKeepsWorld(g, run, actions, n - 1);
      ActionKeeps(g, run[n - 1], actions[n - 1]);
    }
  }

  /** One client and one connection that share a transcript. */
  ghost predicate Agreed(g: Setup, w: World, i: nat, j: nat) {
    && i in w.past.met && j in w.past.signed && w.past.signed[j] == w.past.met[i].transcript
    && forall k :: k in w.past.signed && w.past.signed[k] == w.past.met[i].transcript ==> k == j
  }

  /** The version is in both ranges, and v is not a larger one. */
  predicate LargestCommon(g: Setup, c: ClientEnd, v: nat) {
    && g.minVersion <= c.selected <= g.maxVersion && c.minVersion <= c.selected <= c.maxVersion
    && (g.minVersion <= v <= g.maxVersion && c.minVersion <= v <= c.maxVersion ==> v <= c.selected)
  }

  predicate Crosswise(s: ServerEnd, c: ClientEnd) {
    && s.writer.Some? && s.reader.Some? && c.writer.Some? && c.reader.Some?
    && s.writer.value.key == c.reader.value.key && s.reader.value.key == c.writer.value.key
    && s.selected == c.selected
  }

  lemma SignerAgrees(g: Setup, w: World, i: nat, j: nat)
    requires HistoryOk(g, w.past) && i in w.past.met && j in w.past.signed
             && w.past.signed[j] == w.past.met[i].transcript
    ensures Agreed(g, w, i, j)
  {
  }

  lemma MeetingAgrees(g: Setup, w: World, i: nat, c: ClientEnd, v: nat) returns (j: nat)
    requires HistoryOk(g, w.past) && HandshakeOk(g, w.past, i, c) && c.state == Established
    ensures Agreed(g, w, i, j) && ClientKeyed(w.past.signed[j], c)
    ensures w.past.signed[j].minVersion == c.minVersion && w.past.signed[j].maxVersion == c.maxVersion
    ensures c.selected == w.past.signed[j].selected && LargestCommon(g, c, v)
  {
    assert MetOk(g, w.past, i);
    j :| j in w.past.signed && w.past.signed[j] == w.past.met[i].transcript;
    assert SignedOk(g, w.past, j);
    SignerAgrees(g, w, i, j);
  }

  lemma OpenCrosswise(g: Setup, h: History, j: nat, s: Conn, c: ClientEnd)
    requires ConnOk(g, h, j, s) && s.phase != Closed && j in h.signed && ClientKeyed(h.signed[j], c)
    ensures Crosswise(s.handshake, c)
  {
  }

  lemma EstablishedAgrees(g: Setup, w: World, i: nat, v: nat) returns (j: nat)
    requires WorldOk(g, w) && i in w.clients && w.clients[i].handshake.Some?
             && w.clients[i].handshake.value.state == Established
    ensures var c := w.clients[i].handshake.value;
            && Agreed(g, w, i, j)
            && w.past.signed[j].minVersion == c.minVersion && w.past.signed[j].maxVersion == c.maxVersion
            && c.selected == w.past.signed[j].selected && LargestCommon(g, c, v)
            && (j in w.conns && w.conns[j].phase != Closed ==> Crosswise(w.conns[j].handshake, c))
  {
    var c := w.clients[i].handshake.value;
    assert ClientOk(g, w.past, i, w.clients[i]);
    j := MeetingAgrees(g, w, i, c, v);
    if j in w.conns && w.conns[j].phase != Closed {
      OpenCrosswise(g, w.past, j, w.conns[j], c);
    }
  }

  /**
   * Handshake agreement: in every run, if a client's handshake is established then exactly one
   * connection of the service signed exactly the transcript the client accepted, under the
   * client's own version range even if its hello was altered on the way; the version is the
   * largest both ranges contain; and while that connection is open the two ends hold the same
   * keys crosswise.
   */
  lemma HandshakeAgreement(g: Setup, run: seq<World>, actions: seq<Action>, n: nat, i: nat, v: nat) returns (j: nat)
    requires Run(g, run, actions) && n < |run| && i in run[n].clients
    requires run[n].clients[i].handshake.Some? && run[n].clients[i].handshake.value.state == Established
    ensures var w, c := run[n], run[n].clients[i].handshake.value;
            && Agreed(g, w, i, j)
            && w.past.signed[j].minVersion == c.minVersion && w.past.signed[j].maxVersion == c.maxVersion
            && c.selected == w.past.signed[j].selected && LargestCommon(g, c, v)
            && (j in w.conns && w.conns[j].phase != Closed ==> Crosswise(w.conns[j].handshake, c))
  {
    RunKeepsWorld(g, run, actions, n);
    j := EstablishedAgrees(g, run[n], i, v);
  }

  /** What the client publishes is the grant, and the grant is the license, unlapsed. */
  ghost predicate PublishesGrant(g: Setup, w: World, i: nat, j: nat)
    requires i in w.clients
  {
    var s := w.clients[i];
    && j in w.past.grants
    && w.past.grants[j].session == s.session
    && w.past.grants[j].product == s.config.product == g.license.product
    && s.snapshot.features == w.past.grants[j].features == g.license.features
    && s.snapshot.expire == w.past.grants[j].expire == g.license.expire
    && (g.license.expire == 0 || w.past.grants[j].now < g.license.expire)
  }

  lemma GrantHolds(g: Setup, w: World, i: nat, j: nat)
    requires HistoryOk(g, w.past) && i in w.clients && GrantedTo(w.past, i, w.clients[i], j)
    ensures Agreed(g, w, i, j) && PublishesGrant(g, w, i, j)
  {
    assert GrantOk(g, w.past, j);
    SignerAgrees(g, w, i, j);
  }

  lemma ValidAgrees(g: Setup, w: World, i: nat) returns (j: nat)
    requires WorldOk(g, w) && i in w.clients && w.clients[i].snapshot.state == Clients.Valid
    ensures Agreed(g, w, i, j) && PublishesGrant(g, w, i, j)
    ensures j in w.conns && w.conns[j].phase != Closed ==>
              w.conns[j].phase == Active && w.conns[j].session.Some?
                && w.conns[j].session.value.id == w.clients[i].session
  {
    assert ClientOk(g, w.past, i, w.clients[i]);
    j :| GrantedTo(w.past, i, w.clients[i], j);
    GrantHolds(g, w, i, j);
    if j in w.conns {
      OpenHolds(g, w.past, j, w.conns[j]);
    }
  }

  lemma OpenHolds(g: Setup, h: History, j: nat, c: Conn)
    requires ConnOk(g, h, j, c) && j in h.grants
    ensures c.phase != Closed ==> c.phase == Active && c.session.Some? && c.session.value.id == h.grants[j].session
  {
  }

  /**
   * Grant agreement, end to end: in every run over an arbitrary network, a client that reports
   * Valid holds the session that exactly one connection of the trusted service granted to it,
   * for the product it asked for; what it publishes is that license's features and expiry; and
   * the license had not lapsed on the service's clock when it was granted.
   */
  lemma GrantAgreement(g: Setup, run: seq<World>, actions: seq<Action>, n: nat, i: nat) returns (j: nat)
    requires Run(g, run, actions) && n < |run| && i in run[n].clients
             && run[n].clients[i].snapshot.state == Clients.Valid
    ensures Agreed(g, run[n], i, j) && PublishesGrant(g, run[n], i, j)
    ensures j in run[n].conns && run[n].conns[j].phase != Closed ==>
              run[n].conns[j].phase == Active && run[n].conns[j].session.Some?
                && run[n].conns[j].session.value.id == run[n].clients[i].session
  {
    RunKeepsWorld(g, run, actions, n);
    j := ValidAgrees(g, run[n], i);
  }
}
