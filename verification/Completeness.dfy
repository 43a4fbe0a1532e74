/**
 * The other half of agreement: when nothing interferes, a client that asks a compatible service
 * for its product does become Valid, in a run of the same system.
 */
module Completeness {
  import opened Bytes
  import opened Crypto
  import opened Frames
  import opened Messages
  import opened Records
  import opened Handshakes
  import opened Sessions
  import opened Licensing
  import opened Connections
  import opened Agreement
  import Grants
  import Answers
  import Clients
  import RequestIds

  /** What the two parties bring and draw: configuration, versions, nonces, key pairs, clocks and session ids. */
  datatype Plan = Plan(
    config: Clients.Config, lo: U16, hi: U16, sdkVersion: Bytes, blank: Key,
    clientNonce: Key, clientKey: Key, serverNonce: Key, serverKey: Key,
    peer: Bytes, process: U64, mono: U64, now: U64, draws: seq<Option<SessionId>>)

  /** A client and a service that suit each other: trust, product, a common version, and a license in force. */
  ghost predicate Compatible(g: Setup, x: Plan) {
    && x.config.Complete() && x.config.product == g.license.product && |g.license.product| <= MAX_PRODUCT_ID
    && g.keyId in x.config.trusted && TrustsHonest(g, x.config.trusted) && 0 < |g.keyId| <= MAX_KEY_ID
    && 0 < |x.sdkVersion| <= MAX_SDK_VERSION && 0 < x.lo <= x.hi && Max(g.minVersion, x.lo) <= Min(g.maxVersion, x.hi)
    && x.clientKey in g.pool && x.serverKey in g.pool && x.clientKey != x.serverKey
    && x.peer != [] && x.process != 0 && Draw(map[], x.draws).Some?
    && ValidFeatures(g.license.features) && g.license.maxSessions > 0 && !Lapsed(g.license, x.now)
  }

  // ---- the messages ----

  const SIZE: nat := 8

  function Version(g: Setup, x: Plan): U16 { Min(g.maxVersion, x.hi) }

  function HelloOf(x: Plan): ClientHello {
    ClientHello(Clients.HELLO_ID, x.lo, x.hi, x.clientNonce, x.clientKey, x.sdkVersion)
  }

  function TranscriptOf(g: Setup, x: Plan): Transcript {
    Transcript(x.lo, x.hi, Version(g, x), x.clientNonce, x.serverNonce, x.clientKey, x.serverKey, g.keyId)
  }

  function AnswerOf(g: Setup, x: Plan): ServerHello {
    ServerHello(Clients.HELLO_ID, Version(g, x), x.serverNonce, x.serverKey, g.keyId,
      Signed(g.identity, TranscriptBytes(TranscriptOf(g, x))))
  }

  function FinishedOf(g: Setup, x: Plan): ClientFinished {
    ClientFinished(Clients.HELLO_ID, Version(g, x), Sha256(TranscriptBytes(TranscriptOf(g, x))))
  }

  function RequestOf(g: Setup, x: Plan): Authorize {
    Authorize(Clients.AUTHORIZE_ID, Version(g, x), g.license.product, x.process)
  }

  lemma AllEncode(g: Setup, x: Plan)
    requires Compatible(g, x)
    ensures EncodeClientHello(HelloOf(x), SIZE).Some? && EncodeServerHello(AnswerOf(g, x), SIZE).Some?
    ensures EncodeClientFinished(FinishedOf(g, x), SIZE).Some? && EncodeAuthorize(RequestOf(g, x), SIZE).Some?
    ensures DecodeClientHello(EncodeClientHello(HelloOf(x), SIZE).value) == Some(HelloOf(x))
    ensures DecodeServerHello(EncodeServerHello(AnswerOf(g, x), SIZE).value) == Some(AnswerOf(g, x))
    ensures DecodeClientFinished(EncodeClientFinished(FinishedOf(g, x), SIZE).value) == Some(FinishedOf(g, x))
    ensures Encodable(TranscriptOf(g, x)) && Version(g, x) != 0
  {
  }

  lemma ClearFrameOpens(b: Buffer)
    requires 0 < b.Size() <= MAX_PAYLOAD
    ensures ClearBuffer(ClearFrame(b)) == Some(b)
  {
    var h := Header(FRAME_VERSION, 0, 0, b.Size());
    WireDecodes(h, Clear(b));
    assert ClearFrame(b) == WireFrame(EncodeHeader(h), Clear(b));
    ClearDecodes(ClearFrame(b), h);
  }

  function HelloFrame(x: Plan): WireFrame
    requires EncodeClientHello(HelloOf(x), SIZE).Some?
  {
    ClearFrame(EncodeClientHello(HelloOf(x), SIZE).value)
  }

  function AnswerFrame(g: Setup, x: Plan): WireFrame
    requires EncodeServerHello(AnswerOf(g, x), SIZE).Some?
  {
    ClearFrame(EncodeServerHello(AnswerOf(g, x), SIZE).value)
  }

  function FinishedFrame(g: Setup, x: Plan): WireFrame
    requires EncodeClientFinished(FinishedOf(g, x), SIZE).Some?
  {
    SealedFrame(KeysOf(TranscriptOf(g, x)).clientToService, 1, EncodeClientFinished(FinishedOf(g, x), SIZE).value)
  }

  function RequestFrame(g: Setup, x: Plan): WireFrame
    requires EncodeAuthorize(RequestOf(g, x), SIZE).Some?
  {
    SealedFrame(KeysOf(TranscriptOf(g, x)).clientToService, 2, EncodeAuthorize(RequestOf(g, x), SIZE).value)
  }

  // ---- the client ----

  const FRESH: Clients.Sdk := Clients.Sdk(
    Clients.Published(Clients.Uninitialized, [], 0), Clients.Config([], [], map[], 0, 0), Clients.Idle,
      Clients.NotStarted,
    false, false, None, [0,0,0,0,0,0,0,0,0,0,0,0,0,0,0,0], Clients.FIRST_FREE_ID, [])

  function DialEvent(x: Plan): Clients.Event {
    Clients.Dial(true, StartEnv(Some(x.clientNonce), Some(x.clientKey), SIZE), true, x.lo, x.hi, x.sdkVersion, x.blank)
  }

  function HelloEvent(g: Setup, x: Plan): Clients.Event
    requires EncodeServerHello(AnswerOf(g, x), SIZE).Some?
  {
    Clients.ServerHelloArrives(Some(AnswerFrame(g, x)), HelloEnv(true, true, SIZE, true), true, x.process, SIZE, true,
      true)
  }

  /** The handshake of a client that has sent its hello. */
  function Waiting(x: Plan): ClientEnd {
    ClientEnd(x.config.trusted, x.sdkVersion, Clients.HELLO_ID, x.lo, x.hi, 0, x.clientNonce, x.clientKey, None, None,
      HelloSent)
  }

  function Dialing(x: Plan): Clients.Sdk {
    FRESH.(snapshot := FRESH.snapshot.(state := Clients.Connecting), config := x.config, operation := Clients.Dialing)
  }

  function Greeted(x: Plan): Clients.Sdk {
    Dialing(x).(transport := true, handshake := Some(Waiting(x)), operation := Clients.AwaitServerHello)
  }

  lemma ClientDials(g: Setup, x: Plan)
    requires Compatible(g, x)
    ensures Clients.Apply(FRESH, Clients.Initialize(x.config)) == Clients.Turn(Dialing(x), [])
    ensures EncodeClientHello(HelloOf(x), SIZE).Some?
            && Clients.Apply(Dialing(x), DialEvent(x)) == Clients.Turn(Greeted(x), [HelloFrame(x)])
  {
    AllEncode(g, x);
  }

  /** The handshake of a client that has sent n records. */
  function Met(g: Setup, x: Plan, n: U64): ClientEnd {
    var keys := KeysOf(TranscriptOf(g, x));
    Waiting(x).(writer := Some(End(keys.clientToService, n)), reader := Some(Fresh(keys.serviceToClient)),
                selected := Version(g, x), state := Established)
  }

  function Asking(g: Setup, x: Plan): Clients.Sdk {
    Greeted(x).(handshake := Some(Met(g, x, 3)), operation := Clients.AwaitAuthResult,
      used := [Clients.HELLO_ID, Clients.AUTHORIZE_ID])
  }

  lemma ClientMeets(g: Setup, x: Plan)
    requires Compatible(g, x)
    ensures EncodeServerHello(AnswerOf(g, x), SIZE).Some? && EncodeClientFinished(FinishedOf(g, x), SIZE).Some?
    ensures ClientReceiveHello(Waiting(x), EncodeServerHello(AnswerOf(g, x), SIZE).value,
              HelloEnv(true, true, SIZE, true))
            == (Met(g, x, 2), Reply(FinishedFrame(g, x)))
  {
    AllEncode(g, x);
    assert TranscriptFor(Waiting(x).Hello(), AnswerOf(g, x)) == TranscriptOf(g, x);
  }

  lemma ClientAsks(g: Setup, x: Plan)
    requires Compatible(g, x)
    ensures EncodeServerHello(AnswerOf(g, x), SIZE).Some? && EncodeClientFinished(FinishedOf(g, x), SIZE).Some?
            && EncodeAuthorize(RequestOf(g, x), SIZE).Some?
    ensures Clients.Apply(Greeted(x), HelloEvent(g, x))
            == Clients.Turn(Asking(g, x), [FinishedFrame(g, x), RequestFrame(g, x)])
  {
    AllEncode(g, x);
    ClearFrameOpens(EncodeServerHello(AnswerOf(g, x), SIZE).value);
    ClientMeets(g, x);
    assert [] + [Clients.HELLO_ID] + [Clients.AUTHORIZE_ID] == [Clients.HELLO_ID, Clients.AUTHORIZE_ID];
  }

  // ---- the service ----

  function EnvOf(x: Plan): ConnEnv {
    ConnEnv(ServerEnv(Some(x.serverKey), Some(x.serverNonce), true, true, true, SIZE), SIZE, true, x.draws)
  }

  function Accepted(g: Setup, x: Plan): Conn {
    NewConn(g.keyId, g.identity, g.minVersion, g.maxVersion, g.license, x.peer, g.interval, g.timeout)
  }

  function Answered(g: Setup, x: Plan): Conn {
    Accepted(g, x).(handshake := ServerKeyed(Accepted(g, x).handshake, Clients.HELLO_ID, TranscriptOf(g, x)),
      phase := ExpectFinished)
  }

  function Ready(g: Setup, x: Plan): Conn {
    var h := Answered(g, x).handshake;
    Answered(g,
      x).(handshake :=
        h.(reader := Some(End(KeysOf(TranscriptOf(g, x)).clientToService, 2)), state := Established), phase :=
          ExpectAuthorize)
  }

  lemma ServerAnswers(g: Setup, x: Plan)
    requires Compatible(g, x)
    ensures EncodeServerHello(AnswerOf(g, x), SIZE).Some? && EncodeClientHello(HelloOf(x), SIZE).Some?
    ensures Handle(Accepted(g, x), map[], HelloFrame(x), x.mono, x.now, EnvOf(x))
            == Step(Answered(g, x), map[], ConnResult(NoError, Some(AnswerFrame(g, x)), false))
  {
    AllEncode(g, x);
    ClearFrameOpens(EncodeClientHello(HelloOf(x), SIZE).value);
    var c := Accepted(g, x).handshake;
    var answer := Answer(c, HelloOf(x), x.serverNonce, x.serverKey);
    assert TranscriptFor(HelloOf(x), answer) == TranscriptOf(g, x);
  }

  lemma ServerFinishes(g: Setup, x: Plan)
    requires Compatible(g, x)
    ensures EncodeClientFinished(FinishedOf(g, x), SIZE).Some?
    ensures Handle(Answered(g, x), map[], FinishedFrame(g, x), x.mono, x.now, EnvOf(x))
            == Step(Ready(g, x), map[], ConnResult(NoError, None, false))
  {
    AllEncode(g, x);
    var r := Answered(g, x).handshake.reader.value;
    OpenSealed(r, EncodeClientFinished(FinishedOf(g, x), SIZE).value);
  }

  /** The last turn of the service. */
  function Granting(g: Setup, x: Plan): Step
    requires EncodeAuthorize(RequestOf(g, x), SIZE).Some?
  {
    Handle(Ready(g, x), map[], RequestFrame(g, x), x.mono, x.now, EnvOf(x))
  }

  lemma ServerGrants(g: Setup, x: Plan)
    requires Compatible(g, x)
    ensures EncodeAuthorize(RequestOf(g, x), SIZE).Some?
            && Grants.Granted(Ready(g, x), map[], RequestOf(g, x), Granting(g, x))
  {
    AllEncode(g, x);
    var c := Ready(g, x);
    assert Consistent(c);
    assert Holding(map[], g.license.product) == {};
    assert Grants.Receptive(c, map[], EnvOf(x));
    assert Grants.Proper(c, RequestOf(g, x), SIZE);
    Grants.GrantIff(c, map[], RequestOf(g, x), SIZE, x.mono, x.now, EnvOf(x));
  }

  // ---- the client again ----

  /** What the client makes of the answer. */
  function Settled(g: Setup, x: Plan): Clients.Sdk
    requires EncodeAuthorize(RequestOf(g, x), SIZE).Some? && Granting(g, x).result.response.Some?
  {
    Clients.TakeAuthResult(Asking(g, x), Granting(g, x).result.response).client
  }

  /**
   * The client becomes Valid with the license's features and the granted session exactly when the
   * heartbeat numbers make sense.
   */
  lemma ClientSettles(g: Setup, x: Plan)
    requires Compatible(g, x)
    ensures EncodeAuthorize(RequestOf(g, x), SIZE).Some? && Granting(g, x).result.response.Some?
            && Granting(g, x).conn.session.Some?
    ensures Settled(g, x).snapshot.state == Clients.Valid <==> 0 < g.interval < g.timeout
    ensures 0 < g.interval < g.timeout ==>
              && Settled(g, x).snapshot == Clients.Published(Clients.Valid, g.license.features, g.license.expire)
              && Settled(g, x).session == Granting(g, x).conn.session.value.id
  {
    ServerGrants(g, x);
    var w, r := Ready(g, x).handshake.writer.value, Met(g, x, 3).reader.value;
    assert w == r;
  }

  // ---- the run ----

  const NOTHING: History := History(map[], map[], map[], map[], {})

  const EMPTY: World := World(map[], map[], map[], NOTHING)

  /** A run can be carried on by anything that can happen at its end. */
  lemma Onwards(g: Setup, run: seq<World>, actions: seq<Action>, a: Action)
      returns (longer: seq<World>, more: seq<Action>)
    requires Run(g, run, actions) && Can(g, run[|actions|], a)
    ensures Run(g, longer, more) && |more| == |actions| + 1 && longer[|more|] == Do(g, run[|actions|], a)
  {
    longer, more := run + [Do(g, run[|actions|], a)], actions + [a];
    forall n | 0 <= n < |more| ensures Can(g, longer[n], more[n]) && longer[n + 1] == Do(g, longer[n], more[n]) {
      if n < |actions| {
        assert longer[n] == run[n] && longer[n + 1] == run[n + 1] && more[n] == actions[n];
      }
    }
  }

  /** One turn of the only connection, whose step is known. */
  lemma ServerTurn(g: Setup, run: seq<World>, actions: seq<Action>, c: Conn, t: Table, f: WireFrame, mono: U64,
      now: U64,
      env: ConnEnv, s: Step)
      returns (longer: seq<World>, more: seq<Action>)
    requires Run(g, run, actions)
    requires var v := run[|actions|];
             && v.conns == map[0 := c] && v.table == t && ServerCan(g, v.past, c, f, env)
             && Handle(c, t, f, mono, now, env) == s
    ensures Run(g, longer, more) && |more| == |actions| + 1
    ensures var v, w := run[|actions|], longer[|more|];
            && w.clients == v.clients && w.conns == map[0 := s.conn] && w.table == s.table
            && w.past == AfterServer(v.past, 0, c, f, now, env, s)
  {
    longer, more := Onwards(g, run, actions, ServerActs(0, f, mono, now, env));
  }

  /** One event of the only client, whose turn is known. */
  lemma ClientTurn(g: Setup, run: seq<World>, actions: seq<Action>, s: Clients.Sdk, e: Clients.Event, t: Clients.Turn)
      returns (longer: seq<World>, more: seq<Action>)
    requires Run(g, run, actions)
    requires var v := run[|actions|];
             v.clients == map[0 := s] && ClientCan(g, v.past, s, e) && Clients.Apply(s, e) == t
    ensures Run(g, longer, more) && |more| == |actions| + 1
    ensures var v, w := run[|actions|], longer[|more|];
            && w.clients == map[0 := t.client] && w.conns == v.conns && w.table == v.table
            && w.past.owner
                  == (if Generates(e).Some? then v.past.owner[Generates(e).value := Client(0)] else v.past.owner)
            && w.past.sealed == v.past.sealed + Emitted(Client(0), t.frames, 0)
            && w.past.signed == v.past.signed && w.past.grants == v.past.grants
            && (!e.ServerHelloArrives? ==> w.past.met == v.past.met)
  {
    longer, more := Onwards(g, run, actions, ClientActs(0, e));
  }

  /** A new client, configured, and its hello on the wire. */
  lemma FirstHalf(g: Setup, x: Plan) returns (run: seq<World>, actions: seq<Action>, w: World)
    requires Compatible(g, x)
    ensures Run(g, run, actions) && w == run[|actions|]
    ensures w.clients == map[0 := Greeted(x)] && w.conns == map[0 := Accepted(g, x)] && w.table == map[]
    ensures w.past == NOTHING.(owner := map[x.clientKey := Client(0)])
  {
    run, actions := [EMPTY], [];
    run, actions := Onwards(g, run, actions, NewClient(0, FRESH));
    ClientDials(g, x);
    run, actions := ClientTurn(g, run, actions, FRESH, Clients.Initialize(x.config), Clients.Turn(Dialing(x), []));
    assert Emitted(Client(0), [], 0) == {} && Emitted(Client(0), [HelloFrame(x)], 0) == {};
    run, actions := ClientTurn(g, run, actions, Dialing(x), DialEvent(x), Clients.Turn(Greeted(x), [HelloFrame(x)]));
    run, actions := Onwards(g, run, actions, Accept(0, x.peer));
    w := run[|actions|];
  }

  lemma HelloDeliverable(g: Setup, x: Plan, h: History)
    requires Compatible(g, x)
    ensures EncodeClientHello(HelloOf(x), SIZE).Some? && Agreement.Deliverable(g, h, HelloFrame(x))
  {
    AllEncode(g, x);
  }

  lemma AnswerDeliverable(g: Setup, x: Plan, h: History)
    requires Compatible(g, x) && 0 in h.signed && h.signed[0] == TranscriptOf(g, x)
    ensures EncodeServerHello(AnswerOf(g, x), SIZE).Some? && Agreement.Deliverable(g, h, AnswerFrame(g, x))
  {
    AllEncode(g, x);
    var b := EncodeServerHello(AnswerOf(g, x), SIZE).value;
    forall m | CarriesSignature(b, g.identity, m)
      ensures exists j :: j in h.signed && TranscriptBytes(h.signed[j]) == m
    {
      assert 0 in h.signed && TranscriptBytes(h.signed[0]) == m;
    }
  }

  /** A sealed frame that its author has sent can be delivered. */
  lemma SentDeliverable(g: Setup, h: History, author: Party, frames: seq<WireFrame>, now: U64, f: WireFrame)
    requires f in frames && f.WireFrame? && f.payload.Sealed? && Emitted(author, frames, now) <= h.sealed
    ensures Agreement.Deliverable(g, h, f)
  {
    assert Emission(author, f.payload.aead, now) in Emitted(author, frames, now);
  }

  /** The service answers the hello. */
  lemma HelloArrives(g: Setup, x: Plan, run: seq<World>, actions: seq<Action>)
      returns (longer: seq<World>, more: seq<Action>, w: World)
    requires Compatible(g, x) && Run(g, run, actions)
    requires var v := run[|actions|];
             && v.clients == map[0 := Greeted(x)] && v.conns == map[0 := Accepted(g, x)] && v.table == map[]
             && v.past == NOTHING.(owner := map[x.clientKey := Client(0)])
    ensures Run(g, longer, more) && w == longer[|more|]
    ensures w.clients == map[0 := Greeted(x)] && w.conns == map[0 := Answered(g, x)] && w.table == map[]
    ensures w.past.signed == map[0 := TranscriptOf(g, x)]
  {
    var v := run[|actions|];
    HelloDeliverable(g, x, v.past);
    ServerAnswers(g, x);
    SignsTranscript(g, x);
    var s := Step(Answered(g, x), map[], ConnResult(NoError, Some(AnswerFrame(g, x)), false));
    longer, more := ServerTurn(g, run, actions, Accepted(g, x), map[], HelloFrame(x), x.mono, x.now, EnvOf(x), s);
    w := longer[|more|];
  }

  lemma SignsTranscript(g: Setup, x: Plan)
    requires Compatible(g, x)
    ensures EncodeClientHello(HelloOf(x), SIZE).Some?
            && Signs(Accepted(g, x), HelloFrame(x), EnvOf(x)) == Some(TranscriptOf(g, x))
  {
    AllEncode(g, x);
    ClearFrameOpens(EncodeClientHello(HelloOf(x), SIZE).value);
  }

  /** The client accepts the answer and asks. */
  lemma AnswerArrives(g: Setup, x: Plan, run: seq<World>, actions: seq<Action>)
      returns (longer: seq<World>, more: seq<Action>, w: World)
    requires Compatible(g, x) && Run(g, run, actions)
    requires var v := run[|actions|];
             && v.clients == map[0 := Greeted(x)] && v.conns == map[0 := Answered(g, x)] && v.table == map[]
             && v.past.signed == map[0 := TranscriptOf(g, x)]
    ensures Run(g, longer, more) && w == longer[|more|]
    ensures w.clients == map[0 := Asking(g, x)] && w.conns == map[0 := Answered(g, x)] && w.table == map[]
    ensures EncodeClientFinished(FinishedOf(g, x), SIZE).Some? && EncodeAuthorize(RequestOf(g, x), SIZE).Some?
            && Emitted(Client(0), [FinishedFrame(g, x), RequestFrame(g, x)], 0) <= w.past.sealed
  {
    AnswerDeliverable(g, x, run[|actions|].past);
    ClientAsks(g, x);
    var t := Clients.Turn(Asking(g, x), [FinishedFrame(g, x), RequestFrame(g, x)]);
    longer, more := ClientTurn(g, run, actions, Greeted(x), HelloEvent(g, x), t);
    w := longer[|more|];
  }

  /** The service takes the finished message. */
  lemma FinishedArrives(g: Setup, x: Plan, run: seq<World>, actions: seq<Action>)
      returns (longer: seq<World>, more: seq<Action>, w: World)
    requires Compatible(g, x) && Run(g, run, actions)
    requires EncodeClientFinished(FinishedOf(g, x), SIZE).Some? && EncodeAuthorize(RequestOf(g, x), SIZE).Some?
    requires var v := run[|actions|];
             && v.clients == map[0 := Asking(g, x)] && v.conns == map[0 := Answered(g, x)] && v.table == map[]
             && Emitted(Client(0), [FinishedFrame(g, x), RequestFrame(g, x)], 0) <= v.past.sealed
    ensures Run(g, longer, more) && w == longer[|more|]
    ensures w.clients == map[0 := Asking(g, x)] && w.conns == map[0 := Ready(g, x)] && w.table == map[]
    ensures Emitted(Client(0), [FinishedFrame(g, x), RequestFrame(g, x)], 0) <= w.past.sealed
  {
    var frames := [FinishedFrame(g, x), RequestFrame(g, x)];
    SentDeliverable(g, run[|actions|].past, Client(0), frames, 0, frames[0]);
    ServerFinishes(g, x);
    var s := Step(Ready(g, x), map[], ConnResult(NoError, None, false));
    longer, more := ServerTurn(g, run, actions, Answered(g, x), map[], FinishedFrame(g, x), x.mono, x.now, EnvOf(x), s);
    w := longer[|more|];
  }

  /** The service takes the request. */
  lemma RequestArrives(g: Setup, x: Plan, run: seq<World>, actions: seq<Action>)
      returns (longer: seq<World>, more: seq<Action>, w: World)
    requires Run(g, run, actions)
    requires EncodeClientFinished(FinishedOf(g, x), SIZE).Some? && EncodeAuthorize(RequestOf(g, x), SIZE).Some?
    requires var v := run[|actions|];
             && v.clients == map[0 := Asking(g, x)] && v.conns == map[0 := Ready(g, x)] && v.table == map[]
             && Emitted(Client(0), [FinishedFrame(g, x), RequestFrame(g, x)], 0) <= v.past.sealed
    ensures Run(g, longer, more) && w == longer[|more|]
    ensures w.clients == map[0 := Asking(g, x)] && w.conns == map[0 := Granting(g, x).conn]
            && w.table == Granting(g, x).table
    ensures Emitted(Server(0), Responses(Granting(g, x).result), x.now) <= w.past.sealed
  {
    var frames := [FinishedFrame(g, x), RequestFrame(g, x)];
    SentDeliverable(g, run[|actions|].past, Client(0), frames, 0, frames[1]);
    longer, more :=
      ServerTurn(g, run, actions, Ready(g, x), map[], RequestFrame(g, x), x.mono, x.now, EnvOf(x), Granting(g, x));
    w := longer[|more|];
  }

  /**
   * Completeness: for a compatible client and service there is a run of the system, from nothing,
   * in which the client is answered by a connection that is Active with a session; and the client
   * ends Valid, with the license's features and expiry and that session, exactly when the
   * service's heartbeat interval is positive and shorter than its timeout.
   */
  lemma HonestRunReachesValid(g: Setup, x: Plan) returns (run: seq<World>, actions: seq<Action>)
    requires Compatible(g, x)
    ensures Run(g, run, actions)
    ensures EncodeAuthorize(RequestOf(g, x), SIZE).Some? && Granting(g, x).result.response.Some?
    ensures var w := run[|actions|];
            && w.clients == map[0 := Settled(g, x)] && w.conns == map[0 := Granting(g, x).conn]
            && w.table == Granting(g, x).table
    ensures var w := run[|actions|];
            && 0 in w.clients && 0 in w.conns && w.conns[0].phase == Active && w.conns[0].session.Some?
            && (w.clients[0].snapshot.state == Clients.Valid <==> 0 < g.interval < g.timeout)
            && (0 < g.interval < g.timeout ==>
                  && w.clients[0].snapshot == Clients.Published(Clients.Valid, g.license.features, g.license.expire)
                  && w.clients[0].session == w.conns[0].session.value.id)
  {
    var w: World;
    run, actions, w := FirstHalf(g, x);
    run, actions, w := HelloArrives(g, x, run, actions);
    run, actions, w := AnswerArrives(g, x, run, actions);
    run, actions, w := FinishedArrives(g, x, run, actions);
    run, actions, w := RequestArrives(g, x, run, actions);
    ServerGrants(g, x);
    ClientSettles(g, x);
    var response := Granting(g, x).result.response;
    ResponseSealed(g, x);
    SentDeliverable(g, w.past, Server(0), Responses(Granting(g, x).result), x.now, response.value);
    var event := Clients.AuthResultArrives(response);
    run, actions := ClientTurn(g, run, actions, Asking(g, x), event, Clients.Apply(Asking(g, x), event));
  }

  /** A response that opens as a record is a sealed frame. */
  lemma ResponseSealed(g: Setup, x: Plan)
    requires Compatible(g, x)
    ensures EncodeAuthorize(RequestOf(g, x), SIZE).Some? && Granting(g, x).result.response.Some?
    ensures Granting(g, x).result.response.value.WireFrame? && Granting(g, x).result.response.value.payload.Sealed?
  {
    ServerGrants(g, x);
  }

  /** The client's own part of that run, up to its request. */
  lemma ClientPart(g: Setup, x: Plan) returns (run: seq<Clients.Sdk>, events: seq<Clients.Event>)
    requires Compatible(g, x)
    ensures Clients.ClientRun(run, events) && |events| == 3
    ensures Clients.Apply(run[0], events[0]).frames == [] && |Clients.Apply(run[1], events[1]).frames| == 1
    ensures |Clients.Apply(run[2], events[2]).frames| == 2
  {
    ClientDials(g, x);
    ClientAsks(g, x);
    assert Clients.Unused(FRESH);
    run := [FRESH, Dialing(x), Greeted(x), Asking(g, x)];
    events := [Clients.Initialize(x.config), DialEvent(x), HelloEvent(g, x)];
  }

  /** The hello and the finished message are both sent then, under one request id; the request has another. */
  lemma HonestRunSharesAnId(g: Setup, x: Plan) returns (run: seq<Clients.Sdk>, events: seq<Clients.Event>)
    requires Compatible(g, x)
    ensures Clients.ClientRun(run, events)
    ensures var sent := RequestIds.Sent(run, events, |events|);
            && |sent| == 3 && RequestIds.IsHello(sent[0]) && RequestIds.IsFinished(sent[1])
            && RequestIds.RequestId(sent[0]) == RequestIds.RequestId(sent[1]) == 1 != RequestIds.RequestId(sent[2])
  {
    run, events := ClientPart(g, x);
    ThreeSent(run, events);
    RequestIds.HelloAndFinishedCollide(run, events, 3);
    RequestIds.SharedRequestIds(run, events, 3, 0, 2);
  }

  lemma ThreeSent(run: seq<Clients.Sdk>, events: seq<Clients.Event>)
    requires Clients.ClientRun(run, events) && |events| == 3
    requires Clients.Apply(run[0], events[0]).frames == [] && |Clients.Apply(run[1], events[1]).frames| == 1
    requires |Clients.Apply(run[2], events[2]).frames| == 2
    ensures |RequestIds.Sent(run, events, 3)| == 3
  {
    assert |RequestIds.Sent(run, events, 1)| == 0;
    assert |RequestIds.Sent(run, events, 2)| == 1;
  }

  // ---- heartbeats ----

  /**
   * The two ends of a channel in step: the client about to send record n, the service record m,
   * both about the same session.
   */
  ghost predicate InStep(g: Setup, keys: SessionKeys, s: Clients.Sdk, c: Conn, table: Table, n: U64, m: U64) {
    && s.handshake.Some? && s.handshake.value.state == Established && s.handshake.value.selected == c.handshake.selected
    && s.handshake.value.writer == Some(End(keys.clientToService, n))
    && s.handshake.value.reader == Some(End(keys.serviceToClient, m))
    && s.nextId == n && s.worker == Clients.Waiting && !s.stop && s.transport && s.operation == Clients.Idle
    && s.snapshot == Clients.Published(Clients.Valid, g.license.features, g.license.expire)
    && Consistent(c) && c.phase == Active && c.license == g.license
    && c.handshake.reader == Some(End(keys.clientToService, n))
    && c.handshake.writer == Some(End(keys.serviceToClient, m))
    && c.session.Some? && c.session.value.id == s.session && s.session in table
  }

  const STEADY: ConnEnv := ConnEnv(ServerEnv(None, None, true, true, true, SIZE), SIZE, true, [])

  function BeatOf(s: Clients.Sdk): Heartbeat
    requires s.handshake.Some?
  {
    Heartbeat(s.nextId, s.handshake.value.selected, s.session)
  }

  /** The client after its beat, and the frame it sends. */
  lemma BeatGoes(g: Setup, keys: SessionKeys, s: Clients.Sdk, c: Conn, table: Table, n: U64, m: U64)
    requires InStep(g, keys, s, c, table, n, m) && 0 < n < LAST_SEQUENCE - 1
    ensures Clients.Apply(s, Clients.Beat(SIZE, true, true))
            == Clients.Turn(s.(nextId := n + 1, handshake := Answers.Sent(s), used := s.used
              + [n], worker := Clients.AwaitAck(n)),
                            [Answers.NextRecord(c, Answers.BeatBuffer(BeatOf(s), SIZE))])
  {
    Answers.BeatSent(s, SIZE, true);
  }

  /** The service's answer to it. */
  lemma BeatAnswered(g: Setup, keys: SessionKeys, s: Clients.Sdk, c: Conn, table: Table, n: U64, m: U64, mono: U64,
      now: U64)
    requires InStep(g, keys, s, c, table, n, m) && 0 < n < LAST_SEQUENCE - 1 && m < LAST_SEQUENCE - 1
    requires ValidFeatures(g.license.features) && Answers.Unexpired(g.license.expire, now)
    ensures Handle(c, table, Answers.NextRecord(c, Answers.BeatBuffer(BeatOf(s), SIZE)), mono, now, STEADY)
            == Step(Answers.Exchanged(c), table[s.session := table[s.session].(lastHeartbeat := mono)],
                    ConnResult(NoError, Some(Answers.Response(c, Answers.AckBuffer(c, BeatOf(s), 1, SIZE))), false))
  {
    Answers.LiveAnswered(c, table, BeatOf(s), SIZE, mono, now, STEADY);
  }

  /** What the client makes of the answer. */
  lemma AckTaken(g: Setup, keys: SessionKeys, s: Clients.Sdk, c: Conn, table: Table, n: U64, m: U64, mono: U64)
    requires InStep(g, keys, s, c, table, n, m) && 0 < n < LAST_SEQUENCE - 1 && m < LAST_SEQUENCE - 1
             && ValidFeatures(g.license.features)
    ensures var waiting :=
            s.(nextId := n + 1, handshake := Answers.Sent(s), used := s.used + [n], worker := Clients.AwaitAck(n));
            var ack := Clients.AckArrives(Some(Answers.Response(c, Answers.AckBuffer(c, BeatOf(s), 1, SIZE))));
            && Clients.Enabled(waiting, ack) && Clients.Apply(waiting, ack).frames == []
            && InStep(g, keys, Clients.Apply(waiting, ack).client, Answers.Exchanged(c),
                      table[s.session := table[s.session].(lastHeartbeat := mono)], n + 1, m + 1)
  {
    var b := Answers.AckBuffer(c, BeatOf(s), 1, SIZE);
    Answers.AckReads(c, BeatOf(s), 1, SIZE);
    OpenSealed(End(keys.serviceToClient, m), b);
  }

  /** The only client and the only connection of a world, in step. */
  ghost predicate Pair(g: Setup, keys: SessionKeys, w: World, n: U64, m: U64) {
    && w.clients.Keys == {0} && w.conns.Keys == {0}
    && InStep(g, keys, w.clients[0], w.conns[0], w.table, n, m)
  }

  lemma OnlyKey<T>(m: map<nat, T>)
    requires m.Keys == {0}
    ensures m == map[0 := m[0]]
  {
    assert forall k :: k in m <==> k in m.Keys;
  }

  /** The client's beat is on the wire. */
  lemma BeatLeaves(g: Setup, keys: SessionKeys, run: seq<World>, actions: seq<Action>, n: U64, m: U64)
      returns (longer: seq<World>, more: seq<Action>)
    requires Run(g, run, actions) && Pair(g, keys, run[|actions|], n, m) && 0 < n < LAST_SEQUENCE - 1
    ensures Run(g, longer, more) && |more| == |actions| + 1
    ensures var v, w := run[|actions|], longer[|more|];
            var s, c := v.clients[0], v.conns[0];
            && w.clients == map[0 :=
                  s.(nextId := n + 1, handshake := Answers.Sent(s), used := s.used
                    + [n], worker := Clients.AwaitAck(n))]
            && w.conns == map[0 := c] && w.table == v.table
            && Emitted(Client(0), [Answers.NextRecord(c, Answers.BeatBuffer(BeatOf(s), SIZE))], 0) <= w.past.sealed
  {
    var v := run[|actions|];
    OnlyKey(v.clients);
    OnlyKey(v.conns);
    BeatGoes(g, keys, v.clients[0], v.conns[0], v.table, n, m);
    var beat := Clients.Beat(SIZE, true, true);
    longer, more := ClientTurn(g, run, actions, v.clients[0], beat, Clients.Apply(v.clients[0], beat));
  }

  /** The client that waits for the acknowledgement of its beat. */
  function Waits(s: Clients.Sdk, n: U64): Clients.Sdk
    requires s.handshake.Some? && s.handshake.value.writer.Some? && s.handshake.value.writer.value.next < LAST_SEQUENCE
    requires n < LAST_SEQUENCE
  {
    s.(nextId := n + 1, handshake := Answers.Sent(s), used := s.used + [n], worker := Clients.AwaitAck(n))
  }

  /** The service's acknowledgement is on the wire. */
  lemma AckLeaves(g: Setup, keys: SessionKeys, run: seq<World>, actions: seq<Action>, s: Clients.Sdk, c: Conn, t: Table,
      n: U64, m: U64, mono: U64, now: U64)
      returns (longer: seq<World>, more: seq<Action>)
    requires Run(g, run, actions) && InStep(g, keys, s, c, t, n, m) && 0 < n < LAST_SEQUENCE - 1
             && m < LAST_SEQUENCE - 1
    requires ValidFeatures(g.license.features) && Answers.Unexpired(g.license.expire, now)
    requires var v := run[|actions|];
             && v.conns == map[0 := c] && v.table == t
             && Emitted(Client(0), [Answers.NextRecord(c, Answers.BeatBuffer(BeatOf(s), SIZE))], 0) <= v.past.sealed
    ensures Run(g, longer, more) && |more| == |actions| + 1
    ensures var v, w := run[|actions|], longer[|more|];
            && w.clients == v.clients && w.conns == map[0 := Answers.Exchanged(c)]
            && w.table == t[s.session := t[s.session].(lastHeartbeat := mono)]
            && Emitted(Server(0), [Answers.Response(c, Answers.AckBuffer(c, BeatOf(s), 1, SIZE))], now) <= w.past.sealed
  {
    var frame := Answers.NextRecord(c, Answers.BeatBuffer(BeatOf(s), SIZE));
    SentDeliverable(g, run[|actions|].past, Client(0), [frame], 0, frame);
    BeatAnswered(g, keys, s, c, t, n, m, mono, now);
    var response := Answers.Response(c, Answers.AckBuffer(c, BeatOf(s), 1, SIZE));
    var table := t[s.session := t[s.session].(lastHeartbeat := mono)];
    var step := Step(Answers.Exchanged(c), table, ConnResult(NoError, Some(response), false));
    longer, more := ServerTurn(g, run, actions, c, t, frame, mono, now, STEADY, step);
  }

  /**
   * One honest heartbeat, there and back: the client stays Valid, the connection Active, and both
   * are in step again.
   */
  lemma HonestBeat(g: Setup, keys: SessionKeys, run: seq<World>, actions: seq<Action>, n: U64, m: U64, mono: U64,
      now: U64)
      returns (longer: seq<World>, more: seq<Action>)
    requires Run(g, run, actions) && Pair(g, keys, run[|actions|], n, m) && 0 < n < LAST_SEQUENCE - 1
             && m < LAST_SEQUENCE - 1
    requires ValidFeatures(g.license.features) && Answers.Unexpired(g.license.expire, now)
    ensures Run(g, longer, more) && |more| == |actions| + 3 && Pair(g, keys, longer[|more|], n + 1, m + 1)
  {
    var v := run[|actions|];
    var s, c, t := v.clients[0], v.conns[0], v.table;
    longer, more := BeatLeaves(g, keys, run, actions, n, m);
    longer, more := AckLeaves(g, keys, longer, more, s, c, t, n, m, mono, now);
    var response := Answers.Response(c, Answers.AckBuffer(c, BeatOf(s), 1, SIZE));
    SentDeliverable(g, longer[|more|].past, Server(0), [response], now, response);
    AckTaken(g, keys, s, c, t, n, m, mono);
    var ack := Clients.AckArrives(Some(response));
    longer, more := ClientTurn(g, longer, more, Waits(s, n), ack, Clients.Apply(Waits(s, n), ack));
  }

  /** The clocks of the service at successive heartbeats. */
  datatype Moment = Moment(mono: U64, now: U64)

  lemma {:induction false} HonestBeats(g: Setup, keys: SessionKeys, run: seq<World>, actions: seq<Action>, n: U64,
      m: U64, moments: seq<Moment>)
      returns (longer: seq<World>, more: seq<Action>)
    requires Run(g, run, actions) && Pair(g, keys, run[|actions|], n, m) && 0 < n && n + |moments| < LAST_SEQUENCE
             && m + |moments| < LAST_SEQUENCE
    requires ValidFeatures(g.license.features)
    requires forall i :: 0 <= i < |moments| ==> Answers.Unexpired(g.license.expire, moments[i].now)
    ensures Run(g, longer, more) && Pair(g, keys, longer[|more|], n + |moments|, m + |moments|)
    ensures |more| == |actions| + 3 * |moments|
  {
    longer, more := run, actions;
    if moments != [] {
      var k := |moments| - 1;
      longer, more := HonestBeats(g, keys, run, actions, n, m, moments[..k]);
      longer, more := HonestBeat(g, keys, longer, more, n + k, m + k, moments[k].mono, moments[k].now);
    }
  }

  function SessionOf(g: Setup, x: Plan): Session
    requires Draw(map[], x.draws).Some?
  {
    Answers.SlotOf(Ready(g, x), map[], x.mono, EnvOf(x))
  }

  lemma GrantingIs(g: Setup, x: Plan)
    requires Compatible(g, x)
    ensures EncodeAuthorize(RequestOf(g, x), SIZE).Some?
    ensures var session := SessionOf(g, x);
            Granting(g, x)
            == Step(Answers.Exchanged(Ready(g, x)).(session := Some(session), phase := Active),
              map[session.id := session],
                    ConnResult(NoError,
                      Some(Answers.Response(Ready(g, x),
                        Answers.GrantBuffer(Ready(g, x), RequestOf(g, x), session.id, SIZE))), false))
    ensures DecodeAuthResult(Answers.GrantBuffer(Ready(g, x), RequestOf(g, x), SessionOf(g, x).id, SIZE))
            == Some(AuthResult(2, Version(g, x), 0, Some(SessionOf(g, x).id), g.license.features, g.license.expire,
              g.interval, g.timeout))
  {
    AllEncode(g, x);
    assert Holding(map[], g.license.product) == {};
    Answers.GrantAnswered(Ready(g, x), map[], RequestOf(g, x), SIZE, x.mono, x.now, EnvOf(x));
  }

  lemma SettledIs(g: Setup, x: Plan)
    requires Compatible(g, x) && 0 < g.interval < g.timeout
    ensures EncodeAuthorize(RequestOf(g, x), SIZE).Some? && Granting(g, x).result.response.Some?
    ensures Settled(g, x)
            == Asking(g, x).(handshake :=
              Some(Met(g, x, 3).(reader := Some(End(KeysOf(TranscriptOf(g, x)).serviceToClient, 2)))),
                             session := SessionOf(g, x).id, operation := Clients.Idle, worker := Clients.Waiting,
                             snapshot := Clients.Published(Clients.Valid, g.license.features, g.license.expire))
  {
    GrantingIs(g, x);
    var keys := KeysOf(TranscriptOf(g, x));
    OpenSealed(End(keys.serviceToClient, 1),
      Answers.GrantBuffer(Ready(g, x), RequestOf(g, x), SessionOf(g, x).id, SIZE));
  }

  /** After the grant the two ends are in step. */
  lemma GrantedInStep(g: Setup, x: Plan)
    requires Compatible(g, x) && 0 < g.interval < g.timeout
    ensures EncodeAuthorize(RequestOf(g, x), SIZE).Some? && Granting(g, x).result.response.Some?
    ensures InStep(g, KeysOf(TranscriptOf(g, x)), Settled(g, x), Granting(g, x).conn, Granting(g, x).table, 3, 2)
  {
    GrantingIs(g, x);
    SettledIs(g, x);
    StepsMatch(g, x, Settled(g, x), Granting(g, x).conn, Granting(g, x).table);
  }

  lemma StepsMatch(g: Setup, x: Plan, s: Clients.Sdk, c: Conn, table: Table)
    requires Compatible(g, x)
    requires s.handshake == Some(Met(g, x, 3).(reader := Some(End(KeysOf(TranscriptOf(g, x)).serviceToClient, 2))))
    requires s.session == SessionOf(g, x).id && s.operation == Clients.Idle && s.worker == Clients.Waiting
    requires s.snapshot == Clients.Published(Clients.Valid, g.license.features, g.license.expire)
    requires s.nextId == 3 && !s.stop && s.transport
    requires c == Answers.Exchanged(Ready(g, x)).(session := Some(SessionOf(g, x)), phase := Active)
    requires table == map[SessionOf(g, x).id := SessionOf(g, x)]
    ensures InStep(g, KeysOf(TranscriptOf(g, x)), s, c, table, 3, 2)
  {
    AllEncode(g, x);
  }

  /**
   * For a compatible client and service and any number of moments at which the license has not
   * expired, there is a run in which the client becomes Valid and, after a heartbeat at each of
   * those moments, still is, with the license's features, on an active connection.
   */
  lemma HonestHeartbeatsKeepValid(g: Setup, x: Plan, moments: seq<Moment>)
      returns (run: seq<World>, actions: seq<Action>)
    requires Compatible(g, x) && 0 < g.interval < g.timeout && 3 + |moments| < LAST_SEQUENCE
    requires forall i :: 0 <= i < |moments| ==> Answers.Unexpired(g.license.expire, moments[i].now)
    ensures Run(g, run, actions) && Pair(g, KeysOf(TranscriptOf(g, x)), run[|actions|], 3 + |moments|, 2 + |moments|)
    ensures var w := run[|actions|];
            && w.clients[0].snapshot == Clients.Published(Clients.Valid, g.license.features, g.license.expire)
            && w.conns[0].phase == Active
  {
    run, actions := HonestRunReachesValid(g, x);
    GrantedInStep(g, x);
    run, actions := HonestBeats(g, KeysOf(TranscriptOf(g, x)), run, actions, 3, 2, moments);
  }

  // ---- the end ----

  /** The farewell of a client that is in step. */
  function Goodbye(s: Clients.Sdk): Buffer
    requires s.handshake.Some?
  {
    Encoded(Envelope(s.handshake.value.selected, s.nextId, CloseSessionBody), SIZE)
  }

  lemma GoodbyeTaken(g: Setup, keys: SessionKeys, s: Clients.Sdk, c: Conn, table: Table, n: U64, m: U64, mono: U64,
      now: U64)
    requires InStep(g, keys, s, c, table, n, m) && 0 < n < LAST_SEQUENCE - 1 && m < LAST_SEQUENCE - 1
    ensures var r := Handle(c, table, Answers.NextRecord(c, Goodbye(s)), mono, now, STEADY);
            && r.conn.phase == Closed && r.table == table - {s.session} && r.result == ConnResult(NoError, None, true)
  {
    Answers.RecordOpens(c, Goodbye(s));
    assert DecodeCloseSession(Goodbye(s)) == Some(CloseSession(s.nextId, s.handshake.value.selected));
    assert DecodeHeartbeat(Goodbye(s)) == None;
  }

  /** shutdown of a client in step, up to its last frame. */
  lemma GoodbyeLeaves(g: Setup, keys: SessionKeys, run: seq<World>, actions: seq<Action>, n: U64, m: U64)
      returns (longer: seq<World>, more: seq<Action>)
    requires Run(g, run, actions) && Pair(g, keys, run[|actions|], n, m) && 0 < n < LAST_SEQUENCE - 1
    ensures Run(g, longer, more)
    ensures var v, w := run[|actions|], longer[|more|];
            && 0 in w.clients && w.clients[0].snapshot == Clients.Published(Clients.Closed, [], g.license.expire)
            && w.conns == map[0 := v.conns[0]] && w.table == v.table
            && Emitted(Client(0), [Answers.NextRecord(v.conns[0], Goodbye(v.clients[0]))], 0) <= w.past.sealed
  {
    var v := run[|actions|];
    var s := v.clients[0];
    OnlyKey(v.clients);
    OnlyKey(v.conns);
    var stopping := s.(stop := true, operation := Clients.Joining);
    longer, more := ClientTurn(g, run, actions, s, Clients.Shutdown, Clients.Turn(stopping, []));
    var alone := stopping.(worker := Clients.Exited);
    longer, more := ClientTurn(g, longer, more, stopping, Clients.WorkerStops, Clients.Turn(alone, []));
    Answers.FarewellSent(alone, SIZE, true);
    var join := Clients.Join(SIZE, true);
    longer, more := ClientTurn(g, longer, more, alone, join, Clients.Apply(alone, join));
  }

  /** However long the session was, shutdown ends it on both sides: client and connection closed, the slot returned. */
  lemma HonestShutdownReturnsSlot(g: Setup, x: Plan, moments: seq<Moment>, mono: U64, now: U64)
      returns (run: seq<World>, actions: seq<Action>)
    requires Compatible(g, x) && 0 < g.interval < g.timeout && 4 + |moments| < LAST_SEQUENCE
    requires forall i :: 0 <= i < |moments| ==> Answers.Unexpired(g.license.expire, moments[i].now)
    ensures Run(g, run, actions)
    ensures var w := run[|actions|];
            && 0 in w.clients && w.clients[0].snapshot == Clients.Published(Clients.Closed, [], g.license.expire)
            && 0 in w.conns && w.conns[0].phase == Closed && w.conns[0].session == None
  {
    run, actions := HonestHeartbeatsKeepValid(g, x, moments);
    var keys, n, m := KeysOf(TranscriptOf(g, x)), 3 + |moments|, 2 + |moments|;
    var v := run[|actions|];
    var s, c, t := v.clients[0], v.conns[0], v.table;
    run, actions := GoodbyeLeaves(g, keys, run, actions, n, m);
    var frame := Answers.NextRecord(c, Goodbye(s));
    SentDeliverable(g, run[|actions|].past, Client(0), [frame], 0, frame);
    GoodbyeTaken(g, keys, s, c, t, n, m, mono, now);
    HandleKeeps(c, t, frame, mono, now, STEADY);
    run, actions := ServerTurn(g, run, actions, c, t, frame, mono, now, STEADY, Handle(c, t, frame, mono, now, STEADY));
  }
}
