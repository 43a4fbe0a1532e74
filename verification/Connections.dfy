/**
 * One client connection of the authorization service: hello, finished, authorize, then
 * heartbeats until the end, holding one slot of the shared session table while active.
 */
module Connections {
  import opened Bytes
  import opened Crypto
  import Frames
  import opened Messages
  import opened Records
  import opened Handshakes
  import opened Sessions
  import opened Licensing

  datatype Phase = ExpectHello | ExpectFinished | ExpectAuthorize | Active | Closed

  datatype ConnError = NoError | BadFrame | HandshakeFailed | BadMessage | ProductMismatch
                     | SessionLimit | InvalidSession | LicenseExpired | AlreadyClosed

  datatype ConnResult = ConnResult(error: ConnError, response: Option<WireFrame>, closed: bool)

  /** Randomness, builder size and library failures of one call; draws are the random session ids it may take. */
  datatype ConnEnv = ConnEnv(server: ServerEnv, size: nat, cipherOk: bool, draws: seq<Option<SessionId>>)

  datatype Conn = Conn(handshake: ServerEnd, license: Snapshot, peer: Bytes, interval: U32, timeout: U32,
                       session: Option<Session>, phase: Phase)

  datatype Step = Step(conn: Conn, table: Table, result: ConnResult)

  function NewConn(keyId: Bytes, identity: Key, minVersion: U16, maxVersion: U16, license: Snapshot, peer: Bytes,
      interval: U32, timeout: U32): Conn {
    Conn(ServerEnd(keyId, Some(identity), minVersion, maxVersion, 0, 0, Unhashed([]), None, None, Initial),
         license, peer, interval, timeout, None, ExpectHello)
  }

  function Responses(r: ConnResult): seq<WireFrame> {
    if r.response.Some? then [r.response.value] else []
  }

  function Stop(c: Conn, t: Table, error: ConnError): Step {
    Step(c.(phase := Closed), t, ConnResult(error, None, true))
  }

  /** closeSession. */
  function ReleaseTable(c: Conn, t: Table): Table {
    if c.session.Some? then Close(t, c.session.value.id) else t
  }

  function StopAndRelease(c: Conn, t: Table, error: ConnError): Step {
    Stop(c.(session := None), ReleaseTable(c, t), error)
  }

  function EncryptedResponse(c: Conn, t: Table, plain: Buffer, closeAfter: bool, env: ConnEnv): Step {
    match ServerSeal(c.handshake, plain, env.cipherOk)
    case (h, Denied(_)) => StopAndRelease(c.(handshake := h), t, BadFrame)
    case (h, Done(f)) =>
      Step(c.(handshake := h, phase := if closeAfter then Closed else c.phase), t,
        ConnResult(NoError, Some(f), closeAfter))
  }

  predicate Lapsed(license: Snapshot, now: U64) {
    license.expire != 0 && now >= license.expire
  }

  function HandleHello(c: Conn, t: Table, frame: WireFrame, env: ConnEnv): Step {
    match ClearBuffer(frame)
    case None => Stop(c, t, BadFrame)
    case Some(b) =>
      match ServerReceiveHello(c.handshake, b, env.server)
      case (h, Reject(_)) => Stop(c.(handshake := h), t, HandshakeFailed)
      case (h, Reply(answer)) =>
        Step(c.(handshake := h, phase := ExpectFinished), t, ConnResult(NoError, Some(ClearFrame(answer)), false))
  }

  /** What an authorize request is answered with, and the connection and table it leaves. */
  datatype Decision = Decision(conn: Conn, table: Table, answer: AuthResult, error: ConnError)

  function Decide(c: Conn, t: Table, m: Authorize, mono: U64, now: U64, env: ConnEnv): Decision {
    var blank := AuthResult(m.requestId, c.handshake.selected, NO_ERROR, None, [], 0, c.interval, c.timeout);
    if m.product != c.license.product then Decision(c, t, blank.(error := PRODUCT_MISMATCH_ERROR), ProductMismatch)
    else if Lapsed(c.license, now) then Decision(c, t, blank.(error := EXPIRED_ERROR), LicenseExpired) else
    match Create(t, c.license.product, c.peer, c.license.features, c.license.expire, mono, c.license.maxSessions,
      env.draws)
    case (u, NotCreated(_)) => Decision(c, u, blank.(error := SESSION_LIMIT_ERROR), SessionLimit)
    case (u, Created(s)) =>
      Decision(c.(session := Some(s), phase := Active), u,
        blank.(session := Some(s.id), features := s.features, expire := s.expire), NoError)
  }

  function HandleAuthorize(c: Conn, t: Table, plain: Buffer, mono: U64, now: U64, env: ConnEnv): Step {
    match DecodeAuthorize(plain)
    case None => Stop(c, t, BadMessage)
    case Some(m) =>
      if m.version != c.handshake.selected then Stop(c, t, BadMessage) else
      var d := Decide(c, t, m, mono, now, env);
      match EncodeAuthResult(d.answer, env.size)
      case None => StopAndRelease(d.conn, d.table, BadMessage)
      case Some(b) =>
        // The error of the decision overwrites whatever sealing reported.
        var s := EncryptedResponse(d.conn, d.table, b, d.error != NoError, env);
        s.(result := s.result.(error := d.error))
  }

  predicate GoodHeartbeat(c: Conn, t: Table, m: Heartbeat) {
    m.version == c.handshake.selected && c.session.Some? && m.session == c.session.value.id && c.session.value.id in t
  }

  /** The table after a heartbeat that names this connection's session in this version. */
  function TouchedTable(c: Conn, t: Table, m: Heartbeat, mono: U64): Table {
    if GoodHeartbeat(c, t, m) then Touch(t, c.session.value.id, mono) else t
  }

  function HandleHeartbeat(c: Conn, t: Table, m: Heartbeat, mono: U64, now: U64, env: ConnEnv): Step {
    if !GoodHeartbeat(c, t, m) then StopAndRelease(c, t, InvalidSession) else
    var u := TouchedTable(c, t, m, mono);
    var s := c.session.value;
    match EncodeHeartbeatAck(HeartbeatAck(m.requestId, c.handshake.selected, if Lapsed(c.license, now)
      then STATE_EXPIRED else STATE_VALID, s.features, s.expire), env.size)
    case None => StopAndRelease(c, u, BadMessage)
    case Some(b) =>
      if Lapsed(c.license, now) then
        var r := EncryptedResponse(c.(session := None), ReleaseTable(c, u), b, true, env);
        r.(result := r.result.(error := LicenseExpired))
      else EncryptedResponse(c, u, b, false, env)
  }

  function HandleActive(c: Conn, t: Table, plain: Buffer, mono: U64, now: U64, env: ConnEnv): Step {
    match DecodeHeartbeat(plain)
    case Some(m) => HandleHeartbeat(c, t, m, mono, now, env)
    case None =>
      var close := DecodeCloseSession(plain);
      StopAndRelease(c, t, if close.Some? && close.value.version == c.handshake.selected then NoError else BadMessage)
  }

  function Handle(c: Conn, t: Table, frame: WireFrame, mono: U64, now: U64, env: ConnEnv): Step {
    match c.phase
    case Closed => Step(c, t, ConnResult(AlreadyClosed, None, false))
    case ExpectHello => HandleHello(c, t, frame, env)
    case ExpectFinished => HandleFinished(c, t, frame)
    case _ => HandleSealed(c, t, frame, mono, now, env)
  }

  function HandleFinished(c: Conn, t: Table, frame: WireFrame): Step {
    match ServerReceiveFinished(c.handshake, frame)
    case (h, Reject(_)) => Stop(c.(handshake := h), t, HandshakeFailed)
    case (h, Reply(_)) => Step(c.(handshake := h, phase := ExpectAuthorize), t, ConnResult(NoError, None, false))
  }

  function HandleSealed(c: Conn, t: Table, frame: WireFrame, mono: U64, now: U64, env: ConnEnv): Step {
    match ServerOpen(c.handshake, frame)
    case (h, Denied(_)) => StopAndRelease(c.(handshake := h), t, BadFrame)
    case (h, Done(plain)) =>
      if c.phase == ExpectAuthorize then HandleAuthorize(c.(handshake := h), t, plain, mono, now, env)
      else HandleActive(c.(handshake := h), t, plain, mono, now, env)
  }

  // ---- what every frame keeps ----

  predicate PhaseMatches(c: Conn) {
    match c.phase
    case ExpectHello => c.handshake.state == Initial
    case ExpectFinished => c.handshake.state == AwaitingFinished
    case ExpectAuthorize => c.handshake.state == Established
    case Active => c.handshake.state == Established
    case Closed => true
  }

  /** A slot is held exactly while active, it is one for this license, and the handshake is where the phase says. */
  predicate Consistent(c: Conn) {
    && ServerConsistent(c.handshake)
    && PhaseMatches(c)
    && (c.session.Some? <==> c.phase == Active)
    && (c.session.Some? ==>
          c.session.value.product == c.license.product && c.session.value.features == c.license.features
                            && c.session.value.expire == c.license.expire)
  }

  predicate Follows(before: Phase, after: Phase) {
    || after == Closed
    || (before == ExpectHello && after == ExpectFinished)
    || (before == ExpectFinished && after == ExpectAuthorize)
    || (before == ExpectAuthorize && after == Active)
    || (before == Active && after == Active)
  }

  /** The fixed parts of a connection. */
  predicate SameOwner(c: Conn, d: Conn) {
    && d.license == c.license && d.peer == c.peer && d.interval == c.interval && d.timeout == c.timeout
    && d.handshake.keyId == c.handshake.keyId
    && d.handshake.minVersion == c.handshake.minVersion && d.handshake.maxVersion == c.handshake.maxVersion
  }

  predicate Keeps(c: Conn, s: Step) {
    Consistent(s.conn) && Follows(c.phase, s.conn.phase) && SameOwner(c, s.conn)
  }

  lemma RespondKeeps(c: Conn, t: Table, plain: Buffer, closeAfter: bool, env: ConnEnv)
    requires ServerConsistent(c.handshake) && c.handshake.state == Established
    requires if closeAfter then c.session.None? else Consistent(c)
    ensures var s := EncryptedResponse(c, t, plain, closeAfter, env);
            && Consistent(s.conn) && SameOwner(c, s.conn)
            && (s.conn.phase == Closed || (!closeAfter && s.conn.phase == c.phase))
  {
  }

  lemma DecideKeeps(c: Conn, t: Table, m: Authorize, mono: U64, now: U64, env: ConnEnv)
    requires Consistent(c) && c.phase == ExpectAuthorize
    ensures var d := Decide(c, t, m, mono, now, env);
            && Consistent(d.conn) && SameOwner(c, d.conn) && d.conn.handshake == c.handshake
            && (if d.error == NoError then d.conn.phase == Active else d.conn == c)
  {
  }

  lemma AuthorizeKeeps(c: Conn, t: Table, plain: Buffer, mono: U64, now: U64, env: ConnEnv)
    requires Consistent(c) && c.phase == ExpectAuthorize
    ensures Keeps(c, HandleAuthorize(c, t, plain, mono, now, env))
  {
    var request := DecodeAuthorize(plain);
    if request.Some? && request.value.version == c.handshake.selected {
      DecideKeeps(c, t, request.value, mono, now, env);
      var d := Decide(c, t, request.value, mono, now, env);
      var encoded := EncodeAuthResult(d.answer, env.size);
      if encoded.Some? {
        RespondKeeps(d.conn, d.table, encoded.value, d.error != NoError, env);
      }
    }
  }

  lemma ActiveKeeps(c: Conn, t: Table, plain: Buffer, mono: U64, now: U64, env: ConnEnv)
    requires Consistent(c) && c.phase == Active
    ensures Keeps(c, HandleActive(c, t, plain, mono, now, env))
  {
    var heartbeat := DecodeHeartbeat(plain);
    if heartbeat.Some? {
      HeartbeatKeeps(c, t, heartbeat.value, mono, now, env);
    }
  }

  lemma HeartbeatKeeps(c: Conn, t: Table, m: Heartbeat, mono: U64, now: U64, env: ConnEnv)
    requires Consistent(c) && c.phase == Active
    ensures Keeps(c, HandleHeartbeat(c, t, m, mono, now, env))
  {
    if GoodHeartbeat(c, t, m) {
      var u := TouchedTable(c, t, m, mono);
      var s := c.session.value;
      var encoded := EncodeHeartbeatAck(HeartbeatAck(m.requestId, c.handshake.selected, if Lapsed(c.license, now)
        then STATE_EXPIRED else STATE_VALID, s.features, s.expire), env.size);
      if encoded.Some? {
        if Lapsed(c.license, now) {
          RespondKeeps(c.(session := None), ReleaseTable(c, u), encoded.value, true, env);
        } else {
          RespondKeeps(c, u, encoded.value, false, env);
        }
      }
    }
  }

  lemma HelloKeeps(c: Conn, t: Table, frame: WireFrame, env: ConnEnv)
    requires Consistent(c) && c.phase == ExpectHello
    ensures Keeps(c, HandleHello(c, t, frame, env))
  {
    var b := ClearBuffer(frame);
    if b.Some? {
      ServerStaysConsistent(c.handshake, b.value, env.server, frame, b.value, true);
      ServerOutcomes(c.handshake, b.value, env.server, frame);
    }
  }

  lemma FinishedKeeps(c: Conn, t: Table, frame: WireFrame, mono: U64, now: U64, env: ConnEnv)
    requires Consistent(c) && c.phase == ExpectFinished
    ensures Keeps(c, Handle(c, t, frame, mono, now, env))
  {
    ServerStaysConsistent(c.handshake, Unparsable([]), env.server, frame, Unparsable([]), true);
    ServerOutcomes(c.handshake, Unparsable([]), env.server, frame);
  }

  /**
   * Every frame, at every time and beside any table, keeps a connection consistent and moves it
   * forward in the one order; a closed one stays closed.
   */
  lemma HandleKeeps(c: Conn, t: Table, frame: WireFrame, mono: U64, now: U64, env: ConnEnv)
    requires Consistent(c)
    ensures Keeps(c, Handle(c, t, frame, mono, now, env))
  {
    match c.phase
    case Closed =>
    case ExpectHello => HelloKeeps(c, t, frame, env);
    case ExpectFinished => FinishedKeeps(c, t, frame, mono, now, env);
    case ExpectAuthorize =>
      var (h, received) := ServerOpen(c.handshake, frame);
      if received.Done? {
        AuthorizeKeeps(c.(handshake := h), t, received.value, mono, now, env);
      }
    case Active =>
      var (h, received) := ServerOpen(c.handshake, frame);
      if received.Done? {
        ActiveKeeps(c.(handshake := h), t, received.value, mono, now, env);
      }
  }

  // ---- whole runs of one connection ----

  /** One frame as the connection meets it: the table beside it at that moment, the clocks, the environment. */
  datatype Input = Input(frame: WireFrame, table: Table, mono: U64, now: U64, env: ConnEnv)

  function Feed(c: Conn, i: Input): Step {
    Handle(c, i.table, i.frame, i.mono, i.now, i.env)
  }

  function After(c: Conn, inputs: seq<Input>): Conn
  {
    if inputs == [] then c else Feed(After(c, inputs[..|inputs| - 1]), inputs[|inputs| - 1]).conn
  }

  /** The only frames that do not close a connection, by their place in the run. */
  predicate Expected(c: Conn, i: Input, place: nat) {
    if place == 0 then ClearBuffer(i.frame).Some? && DecodeClientHello(ClearBuffer(i.frame).value).Some?
    else
      && c.handshake.reader.Some?
      && c.handshake.reader.value.next == place
      && Authentic(c.handshake.reader.value, i.frame)
      && DecodeWire(i.frame).Decoded? && DecodeWire(i.frame).value.sequence == place
      && var plain := i.frame.payload.aead.plain;
         if place == 1 then DecodeClientFinished(plain).Some?
         else if place == 2 then
           DecodeAuthorize(plain).Some? && DecodeAuthorize(plain).value.product == c.license.product
         else
           && DecodeHeartbeat(plain).Some? && c.session.Some?
           && DecodeHeartbeat(plain).value.session == c.session.value.id
  }

  function PhaseAt(n: nat): Phase {
    match n case 0 => ExpectHello case 1 => ExpectFinished case 2 => ExpectAuthorize case _ => Active
  }

  /** A connection open after n frames: its phase, and the number its reader waits for. */
  predicate OpenAt(c: Conn, n: nat) {
    && Consistent(c)
    && c.phase == PhaseAt(n)
    && (n > 0 ==> c.handshake.reader.value.next == n)
  }

  lemma AuthorizeAdvances(c: Conn, t: Table, plain: Buffer, mono: U64, now: U64, env: ConnEnv)
    requires Consistent(c) && c.phase == ExpectAuthorize
    requires HandleAuthorize(c, t, plain, mono, now, env).conn.phase != Closed
    ensures DecodeAuthorize(plain).Some? && DecodeAuthorize(plain).value.product == c.license.product
    ensures HandleAuthorize(c, t, plain, mono, now, env).conn.handshake.reader == c.handshake.reader
    ensures HandleAuthorize(c, t, plain, mono, now, env).conn.phase == Active
  {
    DecideKeeps(c, t, DecodeAuthorize(plain).value, mono, now, env);
  }

  lemma ActiveAdvances(c: Conn, t: Table, plain: Buffer, mono: U64, now: U64, env: ConnEnv)
    requires Consistent(c) && c.phase == Active
    requires HandleActive(c, t, plain, mono, now, env).conn.phase != Closed
    ensures DecodeHeartbeat(plain).Some? && DecodeHeartbeat(plain).value.session == c.session.value.id
    ensures HandleActive(c, t, plain, mono, now, env).conn.handshake.reader == c.handshake.reader
    ensures HandleActive(c, t, plain, mono, now, env).conn.phase == Active
  {
  }

  lemma Advances(c: Conn, i: Input, n: nat)
    requires OpenAt(c, n) && Feed(c, i).conn.phase != Closed
    ensures Expected(c, i, n) && OpenAt(Feed(c, i).conn, n + 1)
  {
    HandleKeeps(c, i.table, i.frame, i.mono, i.now, i.env);
    if n >= 2 {
      var (h, received) := ServerOpen(c.handshake, i.frame);
      var k := c.(handshake := h);
      assert Consistent(k);
      if n == 2 {
        AuthorizeAdvances(k, i.table, received.value, i.mono, i.now, i.env);
      } else {
        ActiveAdvances(k, i.table, received.value, i.mono, i.now, i.env);
      }
    }
  }

  /**
   * For every frame sequence, beside every evolution of the shared table: a connection still
   * open after it was fed a hello, then the finished message as record 1, then an authorize
   * request for the licensed product as record 2, then only heartbeats for its own session as
   * records 3, 4, and so on.
   */
  lemma {:induction false} AcceptedInputsInOrder(c: Conn, inputs: seq<Input>, n: nat)
    requires OpenAt(c, 0) && After(c, inputs).phase != Closed && n < |inputs|
    ensures Expected(After(c, inputs[..n]), inputs[n], n)
    ensures OpenAt(After(c, inputs), |inputs|)
  {
    OpenPrefix(c, inputs, |inputs|);
    assert inputs[..|inputs|] == inputs;
    OpenPrefix(c, inputs, n);
    OpenPrefix(c, inputs, n + 1);
    AfterLast(c, inputs, n + 1);
    Advances(After(c, inputs[..n]), inputs[n], n);
  }

  lemma {:induction false} OpenPrefix(c: Conn, inputs: seq<Input>, n: nat)
    requires OpenAt(c, 0) && After(c, inputs).phase != Closed && n <= |inputs|
    ensures OpenAt(After(c, inputs[..n]), n)
  {
    if n == 0 {
      assert inputs[..0] == [];
    } else {
      OpenPrefix(c, inputs, n - 1);
      OpenNext(c, inputs, n);
    }
  }

  lemma OpenNext(c: Conn, inputs: seq<Input>, n: nat)
    requires 0 < n <= |inputs| && After(c, inputs).phase != Closed
    requires OpenAt(After(c, inputs[..n - 1]), n - 1)
    ensures OpenAt(After(c, inputs[..n]), n)
  {
    AfterLast(c, inputs, n);
    if After(c, inputs[..n]).phase == Closed {
      StaysClosed(c, inputs, n);
    } else {
      Advances(After(c, inputs[..n - 1]), inputs[n - 1], n - 1);
    }
  }

  lemma AfterLast(c: Conn, inputs: seq<Input>, n: nat)
    requires 0 < n <= |inputs|
    ensures After(c, inputs[..n]) == Feed(After(c, inputs[..n - 1]), inputs[n - 1]).conn
  {
    assert inputs[..n][..n - 1] == inputs[..n - 1];
  }

  lemma {:induction false} StaysClosed(c: Conn, inputs: seq<Input>, n: nat)
    requires n <= |inputs| && After(c, inputs[..n]).phase == Closed
    ensures After(c, inputs).phase == Closed
    decreases |inputs| - n
  {
    if n < |inputs| {
      assert inputs[..n + 1][..n] == inputs[..n];
      StaysClosed(c, inputs, n + 1);
    } else {
      assert inputs[..n] == inputs;
    }
  }

  // ---- what ends a connection without an error ----

  const CLEAN: ConnResult := ConnResult(NoError, None, true)

  /** The plaintext says goodbye in the version agreed on. */
  predicate SaysClose(c: Conn, plain: Buffer) {
    DecodeCloseSession(plain).Some? && DecodeCloseSession(plain).value.version == c.handshake.selected
  }

  /** The sealing of an answer of this size cannot succeed. */
  predicate SealFails(c: Conn, env: ConnEnv) {
    c.handshake.writer.Some? ==>
      c.handshake.writer.value.next == LAST_SEQUENCE || !(0 < env.size <= Frames.MAX_PAYLOAD - TAG_SIZE)
        || !env.cipherOk
  }

  /** The plaintext asks for the licensed product, a slot is free for it, and its features fit the answer. */
  predicate AsksAndMayHave(c: Conn, t: Table, plain: Buffer, now: U64, env: ConnEnv) {
    && DecodeAuthorize(plain).Some?
    && var m := DecodeAuthorize(plain).value;
       && m.version == c.handshake.selected && m.product == c.license.product && !Lapsed(c.license, now)
       && c.peer != [] && |Holding(t, c.license.product)| < c.license.maxSessions && Draw(t, env.draws).Some?
       && ValidFeatures(c.license.features)
  }

  /** What the next record opens to, if it opens. */
  function Opened(c: Conn, frame: WireFrame): Option<Buffer> {
    match ServerOpen(c.handshake, frame).1 case Done(plain) => Some(plain) case Denied(_) => None
  }

  lemma AuthorizeCleanIff(c: Conn, t: Table, plain: Buffer, mono: U64, now: U64, env: ConnEnv)
    requires Consistent(c) && c.phase == ExpectAuthorize
    ensures HandleAuthorize(c, t, plain, mono, now, env).result == CLEAN <==>
              AsksAndMayHave(c, t, plain, now, env) && SealFails(c, env)
  {
    if DecodeAuthorize(plain).Some? && DecodeAuthorize(plain).value.version == c.handshake.selected {
      DecideCleanIff(c, t, DecodeAuthorize(plain).value, mono, now, env);
    }
  }

  lemma DecideCleanIff(c: Conn, t: Table, m: Authorize, mono: U64, now: U64, env: ConnEnv)
    requires m.requestId != 0 && m.version == c.handshake.selected != 0 && 0 < |m.product|
    ensures var d := Decide(c, t, m, mono, now, env);
            && d.conn.handshake == c.handshake
            && (d.error == NoError <==> && m.product == c.license.product && !Lapsed(c.license, now) && c.peer != []
                                        && |Holding(t, c.license.product)| < c.license.maxSessions
                                        && Draw(t, env.draws).Some?)
            && (d.error == NoError ==> d.answer.features == c.license.features)
            && (EncodeAuthResult(d.answer, env.size).Some? <==> ValidFeatures(d.answer.features))
  {
  }

  lemma ActiveCleanIff(c: Conn, t: Table, plain: Buffer, mono: U64, now: U64, env: ConnEnv)
    requires Consistent(c) && c.phase == Active
    ensures HandleActive(c, t, plain, mono, now, env).result == CLEAN <==> SaysClose(c, plain)
  {
  }

  /**
   * In every phase, a frame closes the connection without error and without an answer if and
   * only if it is a close message of an active connection, or a request that would have been
   * granted had its answer not failed to seal: that failure is reported as no error.
   */
  lemma CleanCloseIff(c: Conn, t: Table, frame: WireFrame, mono: U64, now: U64, env: ConnEnv)
    requires Consistent(c)
    ensures Handle(c, t, frame, mono, now, env).result == CLEAN
       <==> && Opened(c, frame).Some?
            && var plain := Opened(c, frame).value;
               || (c.phase == Active && SaysClose(c, plain))
               || (c.phase == ExpectAuthorize && AsksAndMayHave(c, t, plain, now, env) && SealFails(c, env))
  {
    var h := ServerOpen(c.handshake, frame).0;
    var k := c.(handshake := h);
    if Opened(c, frame).Some? && c.phase == ExpectAuthorize {
      AuthorizeCleanIff(k, t, Opened(c, frame).value, mono, now, env);
    } else if Opened(c, frame).Some? && c.phase == Active {
      ActiveCleanIff(k, t, Opened(c, frame).value, mono, now, env);
    }
  }

  /**
   * A request that would have been granted, when the cipher fails: closed, the slot given back, and
   * no error reported.
   */
  lemma FailedSealReportsNothing(c: Conn, t: Table, frame: WireFrame, mono: U64, now: U64, env: ConnEnv)
    requires Consistent(c) && c.phase == ExpectAuthorize && Opened(c, frame).Some?
    requires AsksAndMayHave(c, t, Opened(c, frame).value, now, env) && !env.cipherOk
    ensures var s := Handle(c, t, frame, mono, now, env);
            s.result == CLEAN && s.conn.phase == Closed && s.table == t
  {
    CleanCloseIff(c, t, frame, mono, now, env);
    var k := c.(handshake := ServerOpen(c.handshake, frame).0);
    FailedSealReturnsSlot(k, t, Opened(c, frame).value, mono, now, env);
  }

  lemma FailedSealReturnsSlot(c: Conn, t: Table, plain: Buffer, mono: U64, now: U64, env: ConnEnv)
    requires Consistent(c) && c.phase == ExpectAuthorize && AsksAndMayHave(c, t, plain, now, env) && !env.cipherOk
    ensures HandleAuthorize(c, t, plain, mono, now, env).table == t
            && HandleAuthorize(c, t, plain, mono, now, env).conn.phase == Closed
  {
    var d := Decide(c, t, DecodeAuthorize(plain).value, mono, now, env);
    DecideCleanIff(c, t, DecodeAuthorize(plain).value, mono, now, env);
    assert d.table == t[d.conn.session.value.id := d.conn.session.value];
    assert Close(d.table, d.conn.session.value.id) == t;
  }

  /**
   * For every frame sequence that ends in a clean close: hello, finished, authorize and
   * heartbeats in that order as consecutive records, and last, as the next record, either the
   * close message or an authorize request whose answer failed to seal.
   */
  lemma CleanRunInOrder(c: Conn, inputs: seq<Input>, last: Input, n: nat)
    requires OpenAt(c, 0) && After(c, inputs).phase != Closed && Feed(After(c, inputs), last).result == CLEAN
    ensures n < |inputs| ==> Expected(After(c, inputs[..n]), inputs[n], n)
    ensures var d := After(c, inputs);
            && |inputs| >= 2 && OpenAt(d, |inputs|) && d.handshake.reader.value.next == |inputs|
            && Authentic(d.handshake.reader.value, last.frame) && Opened(d, last.frame).Some?
            && if |inputs| == 2 then AsksAndMayHave(d, last.table, Opened(d, last.frame).value, last.now, last.env)
            && SealFails(d, last.env)
               else SaysClose(d, Opened(d, last.frame).value)
  {
    if inputs != [] {
      AcceptedInputsInOrder(c, inputs, if n < |inputs| then n else 0);
    }
    CleanEnd(After(c, inputs), last, |inputs|);
  }

  lemma CleanEnd(d: Conn, last: Input, n: nat)
    requires OpenAt(d, n) && Feed(d, last).result == CLEAN
    ensures n >= 2 && Authentic(d.handshake.reader.value, last.frame) && Opened(d, last.frame).Some?
    ensures if n == 2 then AsksAndMayHave(d, last.table, Opened(d, last.frame).value, last.now, last.env)
            && SealFails(d, last.env)
            else SaysClose(d, Opened(d, last.frame).value)
  {
    CleanCloseIff(d, last.table, last.frame, last.mono, last.now, last.env);
  }

  // ---- the object ----

  class Connection {
    const handshake: ServerHandshake
    const license: Snapshot
    const sessions: SessionManager
    const peer: Bytes
    const interval: U32
    const timeout: U32
    var session: Option<Session>
    var phase: Phase

    constructor (keyId: Bytes, identity: Key, minVersion: U16, maxVersion: U16, license: Snapshot,
      sessions: SessionManager, peer: Bytes, interval: U32, timeout: U32)
      ensures View() == NewConn(keyId, identity, minVersion, maxVersion, license, peer, interval, timeout)
      ensures this.sessions == sessions
      ensures fresh(handshake) && handshake.writer == null && handshake.reader == null
    {
      var server := new ServerHandshake(keyId, identity, minVersion, maxVersion);
      handshake := server;
      this.license, this.sessions, this.peer, this.interval, this.timeout := license, sessions, peer, interval, timeout;
      session, phase := None, ExpectHello;
    }

    ghost function View(): Conn
      reads this, handshake, handshake.writer, handshake.reader
    {
      Conn(handshake.View(), license, peer, interval, timeout, session, phase)
    }

    method CloseSlot()
      modifies this`session, sessions
      ensures sessions.sessions == ReleaseTable(old(View()), old(sessions.sessions))
      ensures View() == old(View()).(session := None)
    {
      if session.Some? {
        var _ := sessions.CloseSession(session.value.id);
        session := None;
      }
    }

    /** The destructor. */
    method Destroy()
      modifies this`session, sessions
      ensures sessions.sessions == ReleaseTable(old(View()), old(sessions.sessions))
      ensures View() == old(View()).(session := None)
    {
      CloseSlot();
    }

    method RespondEncrypted(plain: Buffer, closeAfter: bool, env: ConnEnv) returns (r: ConnResult)
      modifies this, handshake.writer, sessions
      ensures Step(View(), sessions.sessions, r)
              == EncryptedResponse(old(View()), old(sessions.sessions), plain, closeAfter, env)
    {
      var sealed := handshake.Seal(plain, env.cipherOk);
      if sealed.Denied? {
        phase := Closed;
        CloseSlot();
        return ConnResult(BadFrame, None, true);
      }
      if closeAfter { phase := Closed; }
      return ConnResult(NoError, Some(sealed.value), closeAfter);
    }

    method ReceiveHello(frame: WireFrame, env: ConnEnv) returns (r: ConnResult)
      modifies this, handshake
      ensures Step(View(), sessions.sessions, r) == HandleHello(old(View()), old(sessions.sessions), frame, env)
      ensures handshake.writer != null ==> handshake.writer == old(handshake.writer) || fresh(handshake.writer)
      ensures handshake.reader != null ==> handshake.reader == old(handshake.reader) || fresh(handshake.reader)
    {
      var decoded := DecodeWire(frame);
      if decoded.Refused? || decoded.value.flags != 0 || decoded.value.sequence != 0 {
        phase := Closed;
        return ConnResult(BadFrame, None, true);
      }
      var hello := if frame.payload.Clear? then frame.payload.buffer else Unparsable([]);
      var response := handshake.HandleClientHello(hello, env.server);
      if response.Reject? {
        phase := Closed;
        return ConnResult(HandshakeFailed, None, true);
      }
      phase := ExpectFinished;
      return ConnResult(NoError, Some(ClearFrame(response.value)), false);
    }

    method ReceiveAuthorize(plain: Buffer, mono: U64, now: U64, env: ConnEnv) returns (r: ConnResult)
      modifies this, handshake.writer, sessions
      ensures Step(View(), sessions.sessions, r)
              == HandleAuthorize(old(View()), old(sessions.sessions), plain, mono, now, env)
    {
      var request := DecodeAuthorize(plain);
      if request.None? || request.value.version != handshake.selected {
        phase := Closed;
        return ConnResult(BadMessage, None, true);
      }
      var response := AuthResult(request.value.requestId, handshake.selected, NO_ERROR, None, [], 0, interval, timeout);
      var error := NoError;
      if request.value.product != license.product {
        response := response.(error := PRODUCT_MISMATCH_ERROR);
        error := ProductMismatch;
      } else if license.expire != 0 && now >= license.expire {
        response := response.(error := EXPIRED_ERROR);
        error := LicenseExpired;
      } else {
        var created := sessions.CreateSession(license.product, peer, license.features, license.expire, mono,
          license.maxSessions, env.draws);
        match created {
          case NotCreated(_) =>
            response := response.(error := SESSION_LIMIT_ERROR);
            error := SessionLimit;
          case Created(s) =>
            session := Some(s);
            response := response.(session := Some(s.id), features := s.features, expire := s.expire);
            phase := Active;
        }
      }
      ghost var d := Decide(old(View()), old(sessions.sessions), request.value, mono, now, env);
      assert Decision(View(), sessions.sessions, response, error) == d;
      var encoded := EncodeAuthResult(response, env.size);
      if encoded.None? {
        phase := Closed;
        CloseSlot();
        return ConnResult(BadMessage, None, true);
      }
      r := RespondEncrypted(encoded.value, error != NoError, env);
      r := r.(error := error);
    }

    method ReceiveHeartbeat(heartbeat: Heartbeat, mono: U64, now: U64, env: ConnEnv) returns (r: ConnResult)
      modifies this, handshake.writer, sessions
      ensures Step(View(), sessions.sessions, r)
              == HandleHeartbeat(old(View()), old(sessions.sessions), heartbeat, mono, now, env)
    {
      var known := false;
      if heartbeat.version == handshake.selected && session.Some? && heartbeat.session == session.value.id {
        known := sessions.Heartbeat(session.value.id, mono);
      }
      if !known {
        phase := Closed;
        CloseSlot();
        return ConnResult(InvalidSession, None, true);
      }
      var expired := license.expire != 0 && now >= license.expire;
      var state := if expired then STATE_EXPIRED else STATE_VALID;
      var ack := HeartbeatAck(heartbeat.requestId, handshake.selected, state, session.value.features,
        session.value.expire);
      var encoded := EncodeHeartbeatAck(ack, env.size);
      if encoded.None? {
        phase := Closed;
        CloseSlot();
        return ConnResult(BadMessage, None, true);
      }
      if expired {
        CloseSlot();
        r := RespondEncrypted(encoded.value, true, env);
        r := r.(error := LicenseExpired);
        return;
      }
      r := RespondEncrypted(encoded.value, false, env);
    }

    method ReceiveActive(plain: Buffer, mono: U64, now: U64, env: ConnEnv) returns (r: ConnResult)
      modifies this, handshake.writer, sessions
      ensures Step(View(), sessions.sessions, r)
              == HandleActive(old(View()), old(sessions.sessions), plain, mono, now, env)
    {
      var heartbeat := DecodeHeartbeat(plain);
      if heartbeat.Some? {
        r := ReceiveHeartbeat(heartbeat.value, mono, now, env);
        return;
      }
      var close := DecodeCloseSession(plain);
      if close.Some? && close.value.version == handshake.selected {
        CloseSlot();
        phase := Closed;
        return ConnResult(NoError, None, true);
      }
      phase := Closed;
      CloseSlot();
      return ConnResult(BadMessage, None, true);
    }

    /** handle. */
    method HandleFrame(frame: WireFrame, mono: U64, now: U64, env: ConnEnv) returns (r: ConnResult)
      modifies this, handshake, handshake.writer, handshake.reader, sessions
      ensures Step(View(), sessions.sessions, r) == Handle(old(View()), old(sessions.sessions), frame, mono, now, env)
      ensures handshake.writer != null ==> handshake.writer == old(handshake.writer) || fresh(handshake.writer)
      ensures handshake.reader != null ==> handshake.reader == old(handshake.reader) || fresh(handshake.reader)
    {
      if phase == Closed { return ConnResult(AlreadyClosed, None, false); }
      if phase == ExpectHello {
        r := ReceiveHello(frame, env);
        return;
      }
      if phase == ExpectFinished {
        r := ReceiveFinished(frame);
        return;
      }
      r := ReceiveSealed(frame, mono, now, env);
    }

    method ReceiveFinished(frame: WireFrame) returns (r: ConnResult)
      modifies this, handshake, handshake.reader
      ensures Step(View(), sessions.sessions, r) == HandleFinished(old(View()), old(sessions.sessions), frame)
      ensures handshake.writer != null ==> handshake.writer == old(handshake.writer)
      ensures handshake.reader != null ==> handshake.reader == old(handshake.reader)
    {
      var finished := handshake.HandleClientFinished(frame);
      if finished.Reject? {
        phase := Closed;
        return ConnResult(HandshakeFailed, None, true);
      }
      phase := ExpectAuthorize;
      return ConnResult(NoError, None, false);
    }

    method ReceiveSealed(frame: WireFrame, mono: U64, now: U64, env: ConnEnv) returns (r: ConnResult)
      modifies this, handshake.writer, handshake.reader, sessions
      ensures Step(View(), sessions.sessions, r)
              == HandleSealed(old(View()), old(sessions.sessions), frame, mono, now, env)
    {
      var received := handshake.Open(frame);
      if received.Denied? {
        phase := Closed;
        CloseSlot();
        return ConnResult(BadFrame, None, true);
      }
      if phase == ExpectAuthorize {
        r := ReceiveAuthorize(received.value, mono, now, env);
      } else {
        r := ReceiveActive(received.value, mono, now, env);
      }
    }
  }
}
