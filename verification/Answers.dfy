/**
 * What each side answers, in the fields of the messages and of the license: the service to a
 * request and to a heartbeat, the client to a result and to an acknowledgement. State and error
 * numbers are those of the wire.
 */
module Answers {
  import opened Bytes
  import opened Crypto
  import opened Frames
  import opened Messages
  import opened Records
  import opened Handshakes
  import opened Sessions
  import opened Licensing
  import opened Connections
  import Clients

  // ---- the service ----

  /** A license without an expiry, or with one still to come. */
  predicate Unexpired(expire: U64, now: U64) { expire == 0 || now < expire }

  /** Both directions of the channel have numbers left, and an answer of the given size can be sealed. */
  predicate CanAnswer(c: Conn, env: ConnEnv) {
    && Consistent(c) && c.handshake.reader.Some? && c.handshake.writer.Some?
    && c.handshake.reader.value.next < LAST_SEQUENCE && c.handshake.writer.value.next < LAST_SEQUENCE
    && env.cipherOk && 8 <= env.size <= MAX_PAYLOAD - TAG_SIZE
  }

  /** The next record of the client, with this content. */
  function NextRecord(c: Conn, plain: Buffer): WireFrame
    requires c.handshake.reader.Some?
  {
    SealedFrame(c.handshake.reader.value.key, c.handshake.reader.value.next, plain)
  }

  /** The connection after one record each way. */
  function Exchanged(c: Conn): Conn
    requires Numbered(c)
  {
    var h := c.handshake;
    c.(handshake := h.(reader := Some(h.reader.value.(next := h.reader.value.next + 1)),
                       writer := Some(h.writer.value.(next := h.writer.value.next + 1))))
  }

  predicate Numbered(c: Conn) {
    && c.handshake.reader.Some? && c.handshake.writer.Some?
    && c.handshake.reader.value.next < LAST_SEQUENCE && c.handshake.writer.value.next < LAST_SEQUENCE
  }

  /** What a client at the other end reads in the response. */
  function Received(c: Conn, r: ConnResult): Option<Buffer>
    requires c.handshake.writer.Some?
  {
    if r.response.None? then None
    else match OpenRecord(c.handshake.writer.value, r.response.value).1 case Done(b) => Some(b) case Denied(_) => None
  }

  lemma RecordOpens(c: Conn, plain: Buffer)
    requires Consistent(c) && c.handshake.state == Established && Numbered(c) && Sealable(plain)
    ensures ServerOpen(c.handshake, NextRecord(c, plain))
            == (c.handshake.(reader := Some(c.handshake.reader.value.(next := c.handshake.reader.value.next + 1))),
              Done(plain))
  {
    OpenSealed(c.handshake.reader.value, plain);
  }

  lemma ResponseOpens(c: Conn, t: Table, plain: Buffer, closeAfter: bool, env: ConnEnv)
    requires c.handshake.state == Established && c.handshake.writer.Some?
             && c.handshake.writer.value.next < LAST_SEQUENCE
    requires Sealable(plain) && env.cipherOk
    ensures var s := EncryptedResponse(c, t, plain, closeAfter, env);
            && s.table == t && s.result.error == NoError && s.result.closed == closeAfter
            && s.result.response
                  == Some(SealedFrame(c.handshake.writer.value.key, c.handshake.writer.value.next, plain))
            && s.conn == c.(handshake :=
                  c.handshake.(writer := Some(c.handshake.writer.value.(next := c.handshake.writer.value.next + 1))),
                            phase := if closeAfter then Closed else c.phase)
  {
  }

  /** A heartbeat for this connection's own session, in the agreed version, with its slot in the table. */
  predicate GoodBeat(c: Conn, t: Table, m: Heartbeat, size: nat) {
    && c.phase == Active && c.session.Some? && m.version == c.handshake.selected && m.session == c.session.value.id
    && m.session in t && m.requestId != 0 && m.version != 0 && 8 <= size <= MAX_PAYLOAD - TAG_SIZE
  }

  function BeatBuffer(m: Heartbeat, size: nat): Buffer {
    Encoded(Envelope(m.version, m.requestId, HeartbeatBody(Some(m.session))), size)
  }

  function AckBuffer(c: Conn, m: Heartbeat, state: Byte, size: nat): Buffer {
    Encoded(Envelope(c.handshake.selected, m.requestId,
      HeartbeatAckBody(state, Some(c.license.features), c.license.expire)), size)
  }

  lemma AckReads(c: Conn, m: Heartbeat, state: Byte, size: nat)
    requires 8 <= size <= MAX_PAYLOAD - TAG_SIZE && c.handshake.selected != 0 && m.requestId != 0 && KnownState(state)
    requires ValidFeatures(c.license.features)
    ensures DecodeHeartbeatAck(AckBuffer(c, m, state, size))
            == Some(HeartbeatAck(m.requestId, c.handshake.selected, state, c.license.features, c.license.expire))
  {
  }

  lemma BeatHandled(c: Conn, t: Table, m: Heartbeat, size: nat, mono: U64, now: U64, env: ConnEnv)
    requires CanAnswer(c, env) && GoodBeat(c, t, m, size) && ValidFeatures(c.license.features)
    ensures c.handshake.state == Established && c.handshake.selected != 0
    ensures Handle(c, t, NextRecord(c, BeatBuffer(m, size)), mono, now, env)
            == HandleHeartbeat(c.(handshake := ServerOpen(c.handshake, NextRecord(c, BeatBuffer(m, size))).0), t, m,
              mono, now, env)
  {
    RecordOpens(c, BeatBuffer(m, size));
  }

  /**
   * A good heartbeat whose acknowledgement can be encoded and sealed. Under an unexpired license
   * it is acknowledged as valid (1), the connection stays active and its slot is touched; under an
   * expired one as expired (3), the connection is closed and its slot returned. Either way the
   * acknowledgement repeats the request id and carries the license's features and expiry.
   */
  lemma HeartbeatAnswered(c: Conn, t: Table, m: Heartbeat, size: nat, mono: U64, now: U64, env: ConnEnv)
    requires CanAnswer(c, env) && GoodBeat(c, t, m, size) && ValidFeatures(c.license.features)
    ensures var s := Handle(c, t, NextRecord(c, BeatBuffer(m, size)), mono, now, env);
            var state := if Unexpired(c.license.expire, now) then 1 else 3;
            && Received(c, s.result) == Some(AckBuffer(c, m, state, env.size))
            && DecodeHeartbeatAck(AckBuffer(c, m, state, env.size))
               == Some(HeartbeatAck(m.requestId, m.version, state, c.license.features, c.license.expire))
            && (Unexpired(c.license.expire, now) ==>
                  && s.conn == Exchanged(c) && s.conn.phase == Active
                  && s.table == t[m.session := t[m.session].(lastHeartbeat := mono)]
                  && s.result.error == NoError && s.result.closed == false)
            && (!Unexpired(c.license.expire, now) ==>
                  && s.conn.phase == Closed && s.conn.session == None && s.table == t - {m.session}
                  && s.result.error == LicenseExpired && s.result.closed == true)
  {
    if Unexpired(c.license.expire, now) {
      LiveAnswered(c, t, m, size, mono, now, env);
      AckReads(c, m, 1, env.size);
      OpenSealed(c.handshake.writer.value, AckBuffer(c, m, 1, env.size));
    } else {
      LastAnswered(c, t, m, size, mono, now, env);
      AckReads(c, m, 3, env.size);
      OpenSealed(c.handshake.writer.value, AckBuffer(c, m, 3, env.size));
    }
  }

  function Response(c: Conn, plain: Buffer): WireFrame
    requires c.handshake.writer.Some?
  {
    SealedFrame(c.handshake.writer.value.key, c.handshake.writer.value.next, plain)
  }

  lemma LiveAnswered(c: Conn, t: Table, m: Heartbeat, size: nat, mono: U64, now: U64, env: ConnEnv)
    requires CanAnswer(c, env) && GoodBeat(c, t, m, size) && ValidFeatures(c.license.features)
             && Unexpired(c.license.expire, now)
    ensures Handle(c, t, NextRecord(c, BeatBuffer(m, size)), mono, now, env)
            == Step(Exchanged(c), t[m.session := t[m.session].(lastHeartbeat := mono)],
                    ConnResult(NoError, Some(Response(c, AckBuffer(c, m, 1, env.size))), false))
  {
    BeatHandled(c, t, m, size, mono, now, env);
    RecordOpens(c, BeatBuffer(m, size));
    var k := c.(handshake := ServerOpen(c.handshake, NextRecord(c, BeatBuffer(m, size))).0);
    LiveBeat(k, t, m, mono, now, env);
    ResponseOpens(k, t[m.session := t[m.session].(lastHeartbeat := mono)], AckBuffer(k, m, 1, env.size), false, env);
  }

  lemma LastAnswered(c: Conn, t: Table, m: Heartbeat, size: nat, mono: U64, now: U64, env: ConnEnv)
    requires CanAnswer(c, env) && GoodBeat(c, t, m, size) && ValidFeatures(c.license.features)
             && !Unexpired(c.license.expire, now)
    ensures Handle(c, t, NextRecord(c, BeatBuffer(m, size)), mono, now, env)
            == Step(Exchanged(c).(session := None, phase := Closed), t - {m.session},
                    ConnResult(LicenseExpired, Some(Response(c, AckBuffer(c, m, 3, env.size))), true))
  {
    BeatHandled(c, t, m, size, mono, now, env);
    RecordOpens(c, BeatBuffer(m, size));
    var k := c.(handshake := ServerOpen(c.handshake, NextRecord(c, BeatBuffer(m, size))).0);
    LastBeat(k, t, m, mono, now, env);
    ResponseOpens(k.(session := None), t - {m.session}, AckBuffer(k, m, 3, env.size), true, env);
  }

  lemma LiveBeat(c: Conn, t: Table, m: Heartbeat, mono: U64, now: U64, env: ConnEnv)
    requires Consistent(c) && c.phase == Active && c.session.Some? && m.session == c.session.value.id && m.session in t
    requires m.version == c.handshake.selected && m.requestId != 0 && c.handshake.writer.value.next < LAST_SEQUENCE
    requires env.cipherOk && 8 <= env.size <= MAX_PAYLOAD - TAG_SIZE && ValidFeatures(c.license.features)
    requires Unexpired(c.license.expire, now)
    ensures HandleHeartbeat(c, t, m, mono, now, env)
            == EncryptedResponse(c, t[m.session := t[m.session].(lastHeartbeat := mono)],
              AckBuffer(c, m, 1, env.size), false, env)
  {
  }

  lemma LastBeat(c: Conn, t: Table, m: Heartbeat, mono: U64, now: U64, env: ConnEnv)
    requires Consistent(c) && c.phase == Active && c.session.Some? && m.session == c.session.value.id && m.session in t
    requires m.version == c.handshake.selected && m.requestId != 0 && c.handshake.writer.value.next < LAST_SEQUENCE
    requires env.cipherOk && 8 <= env.size <= MAX_PAYLOAD - TAG_SIZE && ValidFeatures(c.license.features)
    requires !Unexpired(c.license.expire, now)
    ensures var r := EncryptedResponse(c.(session := None), t - {m.session}, AckBuffer(c, m, 3, env.size), true, env);
            HandleHeartbeat(c, t, m, mono, now, env) == r.(result := r.result.(error := LicenseExpired))
  {
    assert Touch(t, m.session, mono) - {m.session} == t - {m.session};
  }

  /**
   * A heartbeat in another version, for another session, or without its slot: closed without an
   * answer, the own slot returned.
   */
  lemma StrayHeartbeat(c: Conn, t: Table, frame: WireFrame, m: Heartbeat, mono: U64, now: U64, env: ConnEnv)
    requires Consistent(c) && c.phase == Active && ServerOpen(c.handshake, frame).1.Done?
    requires DecodeHeartbeat(ServerOpen(c.handshake, frame).1.value) == Some(m)
    requires m.version != c.handshake.selected || m.session != c.session.value.id || m.session !in t
    ensures var s := Handle(c, t, frame, mono, now, env);
            s.conn.phase == Closed && s.table == t - {c.session.value.id}
              && s.result == ConnResult(InvalidSession, None, true)
  {
  }

  /** Why a frame closes a connection, by phase and first fault; none of these is answered. */
  lemma CloseReasons(c: Conn, t: Table, frame: WireFrame, mono: U64, now: U64, env: ConnEnv)
    requires Consistent(c)
    ensures var r := Handle(c, t, frame, mono, now, env).result;
            && (c.phase == Closed ==> r == ConnResult(AlreadyClosed, None, false))
            && (c.phase == ExpectHello && ClearBuffer(frame) == None ==> r == ConnResult(BadFrame, None, true))
            && (c.phase == ExpectHello && ClearBuffer(frame).Some?
                && ServerReceiveHello(c.handshake, ClearBuffer(frame).value, env.server).1.Reject? ==>
                  r == ConnResult(HandshakeFailed, None, true))
            && (c.phase == ExpectFinished && ServerReceiveFinished(c.handshake, frame).1.Reject? ==>
                  r == ConnResult(HandshakeFailed, None, true))
            && (c.phase in {ExpectAuthorize, Active} && ServerOpen(c.handshake, frame).1.Denied? ==>
                  r == ConnResult(BadFrame, None, true))
            && (c.phase in {ExpectAuthorize, Active} && ServerOpen(c.handshake, frame).1.Done? ==>
                  var plain := ServerOpen(c.handshake, frame).1.value;
                  && (c.phase == ExpectAuthorize
                      && (DecodeAuthorize(plain) == None
                            || DecodeAuthorize(plain).value.version != c.handshake.selected) ==>
                        r == ConnResult(BadMessage, None, true))
                  && (c.phase == Active && DecodeHeartbeat(plain) == None
                      && (DecodeCloseSession(plain) == None
                            || DecodeCloseSession(plain).value.version != c.handshake.selected) ==>
                        r == ConnResult(BadMessage, None, true)))
  {
  }

  // ---- requests ----

  predicate GoodRequest(c: Conn, m: Authorize, size: nat) {
    && c.phase == ExpectAuthorize && m.version == c.handshake.selected && m.requestId != 0 && m.process != 0
    && 0 < |m.product| <= 255 && 8 <= size <= MAX_PAYLOAD - TAG_SIZE
  }

  function RequestBuffer(m: Authorize, size: nat): Buffer {
    Encoded(Envelope(m.version, m.requestId, AuthorizeBody(Some(m.product), m.process, 0)), size)
  }

  function RefusalBuffer(c: Conn, m: Authorize, error: U16, size: nat): Buffer {
    Encoded(Envelope(c.handshake.selected, m.requestId,
      AuthResultBody(error, None, Some([]), 0, c.interval, c.timeout)), size)
  }

  /** A slot of the license is free for this connection. */
  predicate SlotFree(c: Conn, t: Table, env: ConnEnv) {
    && c.license.product != [] && c.peer != [] && |Holding(t, c.license.product)| < c.license.maxSessions
    && Draw(t, env.draws).Some?
  }

  /** The number and the connection error of the first condition a request fails. */
  predicate RefusedWith(c: Conn, t: Table, m: Authorize, now: U64, env: ConnEnv, number: U16, error: ConnError) {
    || (m.product != c.license.product && number == 2007 && error == ProductMismatch)
    || (m.product == c.license.product && !Unexpired(c.license.expire, now) && number == 2005
          && error == LicenseExpired)
    || (m.product == c.license.product && Unexpired(c.license.expire, now) && !SlotFree(c, t, env) && number == 3003
          && error == SessionLimit)
  }

  /** The connection after it has opened the client's next record. */
  function Opening(c: Conn): Conn
    requires Numbered(c)
  {
    c.(handshake := c.handshake.(reader := Some(c.handshake.reader.value.(next := c.handshake.reader.value.next + 1))))
  }

  lemma RefusedStill(c: Conn, k: Conn, t: Table, m: Authorize, now: U64, env: ConnEnv, number: U16, error: ConnError)
    requires RefusedWith(c, t, m, now, env, number, error) && k.license == c.license && k.peer == c.peer
    ensures RefusedWith(k, t, m, now, env, number, error)
  {
  }

  lemma OpenedRequest(c: Conn, t: Table, f: WireFrame, h: ServerEnd, plain: Buffer, mono: U64, now: U64, env: ConnEnv)
    requires c.phase == ExpectAuthorize && ServerOpen(c.handshake, f) == (h, Done(plain))
    ensures Handle(c, t, f, mono, now, env) == HandleAuthorize(c.(handshake := h), t, plain, mono, now, env)
  {
  }

  lemma RequestReads(m: Authorize, size: nat)
    requires m.version != 0 && m.requestId != 0 && m.process != 0 && 0 < |m.product| <= 255
             && 8 <= size <= MAX_PAYLOAD - TAG_SIZE
    ensures DecodeAuthorize(RequestBuffer(m, size)) == Some(m)
  {
  }

  lemma RequestHandled(c: Conn, t: Table, m: Authorize, size: nat, mono: U64, now: U64, env: ConnEnv)
    requires CanAnswer(c, env) && GoodRequest(c, m, size)
    ensures c.handshake.selected != 0 && DecodeAuthorize(RequestBuffer(m, size)) == Some(m)
    ensures Handle(c, t, NextRecord(c, RequestBuffer(m, size)), mono, now, env)
            == HandleAuthorize(Opening(c), t, RequestBuffer(m, size), mono, now, env)
  {
    RecordOpens(c, RequestBuffer(m, size));
    RequestReads(m, size);
    OpenedRequest(c, t, NextRecord(c, RequestBuffer(m, size)), Opening(c).handshake, RequestBuffer(m, size), mono,
      now, env);
  }

  /** A decision whose answer encodes to b is sent as the next record, and closes the connection if it is a refusal. */
  lemma DecisionSent(k: Conn, t: Table, m: Authorize, size: nat, mono: U64, now: U64, env: ConnEnv, d: Decision,
      b: Buffer)
    requires k.handshake.state == Established && k.handshake.writer.Some?
             && k.handshake.writer.value.next < LAST_SEQUENCE
    requires env.cipherOk && Sealable(b) && DecodeAuthorize(RequestBuffer(m, size)) == Some(m)
             && m.version == k.handshake.selected
    requires Decide(k, t, m, mono, now, env) == d && d.conn.handshake == k.handshake
             && EncodeAuthResult(d.answer, env.size) == Some(b)
    ensures var w := k.handshake.writer.value;
            HandleAuthorize(k, t, RequestBuffer(m, size), mono, now, env)
            == Step(d.conn.(handshake := k.handshake.(writer := Some(w.(next := w.next + 1))),
                            phase := if d.error != NoError then Closed else d.conn.phase),
                    d.table, ConnResult(d.error, Some(SealedFrame(w.key, w.next, b)), d.error != NoError))
  {
    ResponseOpens(d.conn, d.table, b, d.error != NoError, env);
  }

  /** Ready to answer the request it has opened. */
  predicate Answering(k: Conn, m: Authorize, size: nat, env: ConnEnv) {
    && k.handshake.state == Established && k.handshake.writer.Some? && k.handshake.writer.value.next < LAST_SEQUENCE
    && env.cipherOk && 8 <= env.size <= MAX_PAYLOAD - TAG_SIZE && m.requestId != 0
    && DecodeAuthorize(RequestBuffer(m, size)) == Some(m) && m.version == k.handshake.selected != 0
  }

  lemma OpeningAnswers(c: Conn, m: Authorize, size: nat, env: ConnEnv)
    requires CanAnswer(c, env) && GoodRequest(c, m, size)
    ensures Answering(Opening(c), m, size, env)
    ensures Opening(c).handshake.writer == c.handshake.writer && Opening(c).handshake.selected == c.handshake.selected
    ensures Exchanged(c) == Opening(c).(handshake := Replied(Opening(c)))
  {
    RequestReads(m, size);
  }

  function Replied(k: Conn): ServerEnd
    requires k.handshake.writer.Some? && k.handshake.writer.value.next < LAST_SEQUENCE
  {
    k.handshake.(writer := Some(k.handshake.writer.value.(next := k.handshake.writer.value.next + 1)))
  }

  lemma RefusalSent(k: Conn, t: Table, m: Authorize, size: nat, mono: U64, now: U64, env: ConnEnv, number: U16,
      error: ConnError)
    requires Answering(k, m, size, env) && RefusedWith(k, t, m, now, env, number, error)
    ensures HandleAuthorize(k, t, RequestBuffer(m, size), mono, now, env)
            == Step(k.(handshake := Replied(k), phase := Closed), t,
                    ConnResult(error, Some(Response(k, RefusalBuffer(k, m, number, env.size))), true))
    ensures DecodeAuthResult(RefusalBuffer(k, m, number, env.size))
            == Some(AuthResult(m.requestId, m.version, number, None, [], 0, k.interval, k.timeout))
  {
    RefusalDecided(k, t, m, mono, now, env, number, error);
    var answer := AuthResult(m.requestId, k.handshake.selected, number, None, [], 0, k.interval, k.timeout);
    DecisionSent(k, t, m, size, mono, now, env, Decision(k, t, answer, error), RefusalBuffer(k, m, number, env.size));
  }

  lemma GrantSent(k: Conn, t: Table, m: Authorize, size: nat, mono: U64, now: U64, env: ConnEnv)
    requires Answering(k, m, size, env) && ValidFeatures(k.license.features)
    requires m.product == k.license.product && Unexpired(k.license.expire, now) && SlotFree(k, t, env)
    ensures var s := SlotOf(k, t, mono, env);
            HandleAuthorize(k, t, RequestBuffer(m, size), mono, now, env)
            == Step(k.(handshake := Replied(k), session := Some(s), phase := Active), t[s.id := s],
                    ConnResult(NoError, Some(Response(k, GrantBuffer(k, m, s.id, env.size))), false))
  {
    var s := SlotOf(k, t, mono, env);
    GrantDecided(k, t, m, mono, now, env);
    GrantReads(k, m, s.id, env.size);
    DecisionSent(k, t, m, size, mono, now, env, Decide(k, t, m, mono, now, env), GrantBuffer(k, m, s.id, env.size));
  }

  lemma GrantReads(c: Conn, m: Authorize, id: SessionId, size: nat)
    requires 8 <= size <= MAX_PAYLOAD - TAG_SIZE && m.version == c.handshake.selected != 0 && m.requestId != 0
    requires ValidFeatures(c.license.features)
    ensures var answer :=
            AuthResult(m.requestId, c.handshake.selected, 0, Some(id), c.license.features, c.license.expire,
              c.interval, c.timeout);
            && EncodeAuthResult(answer, size) == Some(GrantBuffer(c, m, id, size))
            && DecodeAuthResult(GrantBuffer(c, m, id, size)) == Some(answer)
  {
  }

  lemma RefusalDecided(c: Conn, t: Table, m: Authorize, mono: U64, now: U64, env: ConnEnv, number: U16,
      error: ConnError)
    requires RefusedWith(c, t, m, now, env, number, error)
    ensures Decide(c, t, m, mono, now, env)
            == Decision(c, t,
              AuthResult(m.requestId, c.handshake.selected, number, None, [], 0, c.interval, c.timeout), error)
  {
  }

  /**
   * A request that cannot be granted is answered with the number of its first fault, then the
   * connection is closed; no slot is taken.
   */
  lemma RefusalAnswered(c: Conn, t: Table, m: Authorize, size: nat, mono: U64, now: U64, env: ConnEnv, number: U16,
      error: ConnError)
    requires CanAnswer(c, env) && GoodRequest(c, m, size) && RefusedWith(c, t, m, now, env, number, error)
    ensures Handle(c, t, NextRecord(c, RequestBuffer(m, size)), mono, now, env)
            == Step(Exchanged(c).(phase := Closed), t,
                    ConnResult(error, Some(Response(c, RefusalBuffer(c, m, number, env.size))), true))
    ensures DecodeAuthResult(RefusalBuffer(c, m, number, env.size))
            == Some(AuthResult(m.requestId, m.version, number, None, [], 0, c.interval, c.timeout))
  {
    RequestHandled(c, t, m, size, mono, now, env);
    OpeningAnswers(c, m, size, env);
    RefusedStill(c, Opening(c), t, m, now, env, number, error);
    RefusalSent(Opening(c), t, m, size, mono, now, env, number, error);
  }

  function GrantBuffer(c: Conn, m: Authorize, id: SessionId, size: nat): Buffer {
    Encoded(Envelope(c.handshake.selected, m.requestId,
                     AuthResultBody(0, Some(id), Some(c.license.features), c.license.expire, c.interval, c.timeout)),
                       size)
  }

  /** The slot a granted request takes. */
  function SlotOf(c: Conn, t: Table, mono: U64, env: ConnEnv): Session
    requires Draw(t, env.draws).Some?
  {
    Session(Draw(t, env.draws).value, c.license.product, c.peer, c.license.features, c.license.expire, mono)
  }

  lemma GrantDecided(c: Conn, t: Table, m: Authorize, mono: U64, now: U64, env: ConnEnv)
    requires m.product == c.license.product && Unexpired(c.license.expire, now) && SlotFree(c, t, env)
    ensures var s := SlotOf(c, t, mono, env);
            Decide(c, t, m, mono, now, env)
            == Decision(c.(session := Some(s), phase := Active), t[s.id := s],
                        AuthResult(m.requestId, c.handshake.selected, 0, Some(s.id), c.license.features,
                          c.license.expire, c.interval, c.timeout),
                        NoError)
  {
  }

  /**
   * A request for the licensed product, in time and with a slot free, is granted: the slot, the
   * answer and the numbers, exactly.
   */
  lemma GrantAnswered(c: Conn, t: Table, m: Authorize, size: nat, mono: U64, now: U64, env: ConnEnv)
    requires CanAnswer(c, env) && GoodRequest(c, m, size) && ValidFeatures(c.license.features)
    requires m.product == c.license.product && Unexpired(c.license.expire, now) && SlotFree(c, t, env)
    ensures var s := SlotOf(c, t, mono, env);
            && s.id !in t
            && Handle(c, t, NextRecord(c, RequestBuffer(m, size)), mono, now, env)
               == Step(Exchanged(c).(session := Some(s), phase := Active), t[s.id := s],
                       ConnResult(NoError, Some(Response(c, GrantBuffer(c, m, s.id, env.size))), false))
            && DecodeAuthResult(GrantBuffer(c, m, s.id, env.size))
               == Some(AuthResult(m.requestId, m.version, 0, Some(s.id), c.license.features, c.license.expire,
                 c.interval, c.timeout))
  {
    RequestHandled(c, t, m, size, mono, now, env);
    OpeningAnswers(c, m, size, env);
    GrantReads(c, m, SlotOf(c, t, mono, env).id, env.size);
    GrantSent(Opening(c), t, m, size, mono, now, env);
  }

  // ---- the client ----

  /** initialize goes on to dial exactly once, and exactly with a complete configuration. */
  lemma InitializeTaken(s: Clients.Sdk, config: Clients.Config)
    ensures var u := Clients.BeginInitialize(s, config);
            var complete := config.product != [] && config.endpoint != [] && config.trusted != map[]
              && 0 < config.connectTimeout && 0 < config.ioTimeout;
            && u.frames == []
            && (s.snapshot.state != Clients.Uninitialized ==> u.client == s)
            && (s.snapshot.state == Clients.Uninitialized && !complete ==>
                  u.client == s.(snapshot := s.snapshot.(state := Clients.Error)))
            && (s.snapshot.state == Clients.Uninitialized && complete ==>
                  u.client == s.(snapshot := s.snapshot.(state := Clients.Connecting), config := config,
                    operation := Clients.Dialing))
  {
  }

  /** A failed initialization: an error without features, and nothing kept. */
  predicate GaveUp(s: Clients.Sdk, u: Clients.Sdk) {
    && u.snapshot.state == Clients.Error && u.snapshot.features == [] && u.snapshot.expire == s.snapshot.expire
    && u.handshake == None && u.transport == false && u.operation == Clients.Idle
  }

  /**
   * The hello goes out exactly when the socket connects, both random draws succeed and the message
   * encodes; else initialization gives up.
   */
  lemma DialTaken(s: Clients.Sdk, connected: bool, start: StartEnv, written: bool, lo: U16, hi: U16,
      sdkVersion: Bytes, blank: Key)
    ensures var u := Clients.DialOut(s, connected, start, written, lo, hi, sdkVersion, blank);
            var goes := connected && start.nonce.Some? && start.keyPair.Some? && 0 < lo <= hi
              && 1 <= |sdkVersion| <= 64;
            && (goes ==>
                  var body := ClientHelloBody(lo, hi, start.nonce, start.keyPair, Some(sdkVersion));
                  u.frames == [ClearFrame(Encoded(Envelope(0, 1, body), start.size))])
            && (!goes ==> u.frames == [])
            && (goes && written ==>
                  && u.client.operation == Clients.AwaitServerHello && u.client.snapshot == s.snapshot
                  && u.client.handshake.Some?
                  && u.client.handshake.value.state == HelloSent && u.client.handshake.value.requestId == 1
                  && u.client.handshake.value.trusted == s.config.trusted)
            && (!goes || !written ==> GaveUp(s, u.client))
  {
  }

  /** The request a client with these keys would send as its next record, if it can. */
  predicate CanAsk(h: ClientEnd, product: Bytes, process: U64, size: nat, cipherOk: bool) {
    && h.state == Established && h.writer.Some? && h.writer.value.next < LAST_SEQUENCE && h.selected != 0
    && 1 <= |product| <= 255 && process != 0 && cipherOk && 0 < size <= MAX_PAYLOAD - TAG_SIZE
  }

  function Asking(h: ClientEnd, product: Bytes, process: U64, size: nat): WireFrame
    requires h.writer.Some?
  {
    SealedFrame(h.writer.value.key, h.writer.value.next,
                Encoded(Envelope(h.selected, 2, AuthorizeBody(Some(product), process, 0)), size))
  }

  /**
   * After an accepted server hello: the finished message, then the request, and a wait for its
   * result; any failure gives up.
   */
  lemma HelloTaken(s: Clients.Sdk, h: ClientEnd, finished: WireFrame, fw: bool, process: U64, size: nat,
      cipherOk: bool, written: bool)
    requires h.state == Established && h.writer.Some?
    ensures var u := Clients.RequestAuthorization(s, h, finished, fw, process, size, cipherOk, written);
            var asks := fw && CanAsk(h, s.config.product, process, size, cipherOk);
            && u.frames == (if asks then [finished, Asking(h, s.config.product, process, size)] else [finished])
            && (asks && written ==>
                  && u.client.operation == Clients.AwaitAuthResult && u.client.snapshot == s.snapshot
                  && u.client.handshake == Some(h.(writer := Some(h.writer.value.(next := h.writer.value.next + 1)))))
            && (!asks || !written ==> GaveUp(s, u.client))
  {
  }

  /** A server hello that does not arrive, is not a clear frame, or is not accepted, gives up without a word. */
  lemma HelloRefused(s: Clients.Sdk, frame: Option<WireFrame>, env: HelloEnv, fw: bool, process: U64, size: nat,
      cipherOk: bool, written: bool)
    requires s.handshake.Some?
    requires frame.None? || ClearBuffer(frame.value).None?
             || ClientReceiveHello(s.handshake.value, ClearBuffer(frame.value).value, env).1.Reject?
    ensures var u := Clients.TakeServerHello(s, frame, env, fw, process, size, cipherOk, written);
            u.frames == []
            && GaveUp(s, u.client)
  {
  }

  /** A channel on which one more record can be sent. */
  predicate CanSend(s: Clients.Sdk, size: nat, cipherOk: bool) {
    && s.handshake.Some? && s.handshake.value.state == Established && s.handshake.value.writer.Some?
    && s.handshake.value.writer.value.next < LAST_SEQUENCE && s.handshake.value.selected != 0 && s.nextId != 0
    && cipherOk && 0 < size <= MAX_PAYLOAD - TAG_SIZE
  }

  function Sending(s: Clients.Sdk, body: Body, size: nat): WireFrame
    requires s.handshake.Some? && s.handshake.value.writer.Some?
  {
    var w := s.handshake.value.writer.value;
    SealedFrame(w.key, w.next, Encoded(Envelope(s.handshake.value.selected, s.nextId, body), size))
  }

  function Sent(s: Clients.Sdk): Option<ClientEnd>
    requires s.handshake.Some? && s.handshake.value.writer.Some? && s.handshake.value.writer.value.next < LAST_SEQUENCE
  {
    var w := s.handshake.value.writer.value;
    Some(s.handshake.value.(writer := Some(w.(next := w.next + 1))))
  }

  /** A beat that cannot be sealed or written publishes an error without features and ends the thread. */
  lemma BeatFails(s: Clients.Sdk, size: nat, cipherOk: bool, written: bool)
    requires s.handshake.Some? && s.handshake.value.state == Established && s.handshake.value.writer.Some?
    requires !CanSend(s, size, cipherOk) || !written
    ensures var u := Clients.SendBeat(s, size, cipherOk, written).client;
            && u.snapshot == Clients.Published(Clients.Error, [], s.snapshot.expire) && u.worker == Clients.Exited
            && u.nextId == Clients.Bump(s.nextId)
  {
  }

  /** A beat is the next record, names the session and the next request id, and waits for that id's acknowledgement. */
  lemma BeatSent(s: Clients.Sdk, size: nat, cipherOk: bool)
    requires CanSend(s, size, cipherOk)
    ensures Clients.SendBeat(s, size, cipherOk, true)
            == Clients.Turn(s.(nextId := Clients.Bump(s.nextId), handshake := Sent(s), used := s.used
              + [s.nextId], worker := Clients.AwaitAck(s.nextId)),
                            [Sending(s, HeartbeatBody(Some(s.session)), size)])
  {
  }

  /** shutdown says goodbye in the next record when there is a channel, and leaves nothing behind. */
  lemma FarewellSent(s: Clients.Sdk, size: nat, cipherOk: bool)
    ensures var u := Clients.FinishShutdown(s, size, cipherOk);
            && u.client.snapshot == Clients.Published(Clients.Closed, [], s.snapshot.expire)
            && u.client.handshake == None
            && u.client.transport == false && u.client.operation == Clients.Idle
            && (s.transport && CanSend(s, size, cipherOk) ==> u.frames == [Sending(s, CloseSessionBody, size)])
            && (!s.transport || s.handshake == None || s.handshake.value.state != Established ==> u.frames == [])
  {
  }

  /** The result is for the client's request, grants a session and names sensible heartbeat times. */
  predicate Accepts(h: ClientEnd, r: AuthResult) {
    && r.error == 0 && r.requestId == 2 && r.version == h.selected && r.session.Some?
    && r.interval != 0 && r.timeout != 0 && r.interval < r.timeout
  }

  /**
   * Exactly such a result, sealed as the next record, makes the client Valid, with what the result
   * carries; anything else is an error.
   */
  lemma ResultPublished(s: Clients.Sdk, frame: Option<WireFrame>)
    requires s.handshake.Some?
    ensures var u := Clients.TakeAuthResult(s, frame);
            var result := if frame.None? then None else
                            match ClientOpen(s.handshake.value, frame.value).1 case Done(b) =>
                              DecodeAuthResult(b) case Denied(_) => None;
            && u.frames == []
            && (result.Some? && Accepts(s.handshake.value, result.value) ==>
                  && u.client.snapshot == Clients.Published(Clients.Valid, result.value.features, result.value.expire)
                  && Some(u.client.session) == result.value.session && u.client.worker == Clients.Waiting
                  && u.client.operation == Clients.Idle)
            && (result.None? || !Accepts(s.handshake.value, result.value) ==>
                  && u.client.snapshot.state == Clients.Error && u.client.snapshot.features == []
                  && u.client.handshake == None && u.client.transport == false && u.client.operation == Clients.Idle)
  {
  }

  /** The client state that a wire state stands for. */
  predicate StandsFor(state: Byte, published: Clients.ClientState) {
    && (state == 1 <==> published == Clients.Valid) && (state == 2 <==> published == Clients.Grace)
    && (state == 3 <==> published == Clients.Expired) && (state == 4 <==> published == Clients.Revoked)
    && (state !in {1, 2, 3, 4} <==> published == Clients.Error)
  }

  /**
   * An acknowledgement of the awaited heartbeat publishes exactly its state and expiry, its
   * features if and only if that state is valid, and only then does the thread go on. Anything
   * else publishes an error without features and ends the thread.
   */
  lemma AckPublished(s: Clients.Sdk, frame: Option<WireFrame>)
    requires s.handshake.Some? && s.worker.AwaitAck?
    ensures var u := Clients.TakeAck(s, frame);
            var ack := if frame.None? then None else
                         match ClientOpen(s.handshake.value, frame.value).1 case Done(b) =>
                           DecodeHeartbeatAck(b) case Denied(_) => None;
            var good := ack.Some? && ack.value.requestId == s.worker.requestId
              && ack.value.version == s.handshake.value.selected;
            && u.frames == []
            && (good ==>
                  && StandsFor(ack.value.state, u.client.snapshot.state) && u.client.snapshot.expire == ack.value.expire
                  && u.client.snapshot.features == (if ack.value.state == 1 then ack.value.features else [])
                  && u.client.worker == (if ack.value.state == 1 then Clients.Waiting else Clients.Exited))
            && (!good ==>
                  && u.client.snapshot.state == Clients.Error && u.client.snapshot.features == []
                  && u.client.worker == Clients.Exited)
  {
  }
}
