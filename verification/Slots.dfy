/**
 * The service: any number of interleaved connections over one session table. Frames are
 * arbitrary here; nothing about who sent them is assumed.
 */
module Slots {
  import opened Bytes
  import opened Crypto
  import opened Messages
  import opened Records
  import opened Handshakes
  import opened Sessions
  import opened Licensing
  import opened Connections

  /** What one frame does to the shared table, told by what it does to the connection's own slot. */
  ghost predicate TableEffect(c: Conn, t: Table, s: Step, mono: U64, draws: seq<Option<SessionId>>) {
    match (c.session, s.conn.session)
    case (None, None) => s.table == t
    case (None, Some(x)) =>
      && s.table == t[x.id := x] && x.id !in t && Some(x.id) in draws
      && x.product == c.license.product && |Holding(t, x.product)| < c.license.maxSessions
    case (Some(x), None) => s.table == Close(t, x.id)
    case (Some(x), Some(y)) => x == y && (s.table == t || s.table == Touch(t, x.id, mono))
  }

  lemma DecideEffect(c: Conn, t: Table, m: Authorize, mono: U64, now: U64, env: ConnEnv)
    requires c.session.None?
    ensures var d := Decide(c, t, m, mono, now, env);
            && d.conn.license == c.license
            && TableEffect(c, t, Step(d.conn, d.table, ConnResult(d.error, None, false)), mono, env.draws)
            && ReleaseTable(d.conn, d.table) == t
            && (d.error != NoError ==> d.conn.session.None?)
  {
    var d := Decide(c, t, m, mono, now, env);
    CreateCounts(t, c.license.product, c.peer, c.license.features, c.license.expire, mono, c.license.maxSessions,
      env.draws, []);
    if d.error == NoError {
      assert Close(d.table, d.conn.session.value.id) == t;
    }
  }

  /** Sending an answer leaves slot and table alone, or gives the slot up. */
  lemma RespondEffect(c: Conn, t: Table, plain: Buffer, closeAfter: bool, env: ConnEnv)
    ensures var s := EncryptedResponse(c, t, plain, closeAfter, env);
            || (s.conn.session == c.session && s.table == t)
            || (s.conn.session.None? && s.table == ReleaseTable(c, t))
  {
  }

  lemma AuthorizeEffect(c: Conn, t: Table, plain: Buffer, mono: U64, now: U64, env: ConnEnv)
    requires Consistent(c) && c.phase == ExpectAuthorize
    ensures TableEffect(c, t, HandleAuthorize(c, t, plain, mono, now, env), mono, env.draws)
  {
    var request := DecodeAuthorize(plain);
    if request.Some? && request.value.version == c.handshake.selected {
      DecideEffect(c, t, request.value, mono, now, env);
      var d := Decide(c, t, request.value, mono, now, env);
      var encoded := EncodeAuthResult(d.answer, env.size);
      if encoded.Some? {
        RespondEffect(d.conn, d.table, encoded.value, d.error != NoError, env);
      }
    }
  }

  lemma ActiveEffect(c: Conn, t: Table, plain: Buffer, mono: U64, now: U64, env: ConnEnv)
    requires Consistent(c) && c.phase == Active
    ensures TableEffect(c, t, HandleActive(c, t, plain, mono, now, env), mono, env.draws)
  {
    var id := c.session.value.id;
    assert Close(Touch(t, id, mono), id) == Close(t, id);
  }

  lemma HandleEffect(c: Conn, t: Table, frame: WireFrame, mono: U64, now: U64, env: ConnEnv)
    requires Consistent(c)
    ensures TableEffect(c, t, Handle(c, t, frame, mono, now, env), mono, env.draws)
  {
    if c.phase in {ExpectAuthorize, Active} {
      var (h, received) := ServerOpen(c.handshake, frame);
      if received.Done? {
        var k := c.(handshake := h);
        assert Consistent(k);
        if c.phase == ExpectAuthorize {
          AuthorizeEffect(k, t, received.value, mono, now, env);
        } else {
          ActiveEffect(k, t, received.value, mono, now, env);
        }
      }
    }
  }

  // ---- the service as a machine ----

  /** swept: whether the table was ever swept for inactive sessions. */
  datatype Service = Service(license: Snapshot, conns: map<nat, Conn>, table: Table, swept: bool)

  datatype Event =
    | Accept(who: nat, conn: Conn)
    | Frame(who: nat, frame: WireFrame, mono: U64, now: U64, env: ConnEnv)
    | Destroy(who: nat)
    | Sweep(mono: U64, timeout: U64)

  /** The session id a live connection holds. */
  predicate Holds(s: Service, j: nat, id: SessionId) {
    j in s.conns && s.conns[j].session.Some? && s.conns[j].session.value.id == id
  }

  /**
   * After a sweep a connection can hold an id that has left the table; random ids then must not
   * repeat one that is still held.
   */
  ghost predicate NoReissue(s: Service, env: ConnEnv) {
    forall j, id :: Holds(s, j, id) ==> Some(id) !in env.draws
  }

  ghost predicate Enabled(s: Service, e: Event) {
    match e
    case Accept(j, c) => j !in s.conns && Consistent(c) && c.phase == ExpectHello && c.license == s.license
    case Frame(j, _, _, _, env) => j in s.conns && (s.swept ==> NoReissue(s, env))
    case Destroy(j) => j in s.conns
    case Sweep(_, _) => true
  }

  ghost function Apply(s: Service, e: Event): Service
    requires Enabled(s, e)
  {
    match e
    case Accept(j, c) => s.(conns := s.conns[j := c])
    case Frame(j, f, mono, now, env) =>
      var r := Handle(s.conns[j], s.table, f, mono, now, env);
      s.(conns := s.conns[j := r.conn], table := r.table)
    case Destroy(j) => s.(conns := s.conns - {j}, table := ReleaseTable(s.conns[j], s.table))
    case Sweep(mono, timeout) => s.(table := Expire(s.table, mono, timeout), swept := true)
  }

  ghost predicate Owned(s: Service, id: SessionId) {
    exists j :: Holds(s, j, id)
  }

  /**
   * Connections are consistent, no id is held twice, every slot has its owner and counts against
   * the license's product, and the quota holds.
   */
  ghost predicate SlotInvariant(s: Service) {
    && (forall j :: j in s.conns ==> Consistent(s.conns[j]) && s.conns[j].license == s.license)
    && (forall i, j, id :: Holds(s, i, id) && Holds(s, j, id) ==> i == j)
    && (forall id :: id in s.table ==> Owned(s, id) && s.table[id].product == s.license.product)
    && (!s.swept ==> forall j, id :: Holds(s, j, id) ==> id in s.table)
    && |Holding(s.table, s.license.product)| <= s.license.maxSessions
  }

  lemma HolderAfter(s: Service, j: nat, c: Conn, t: Table, i: nat, id: SessionId)
    ensures Holds(s.(conns := s.conns[j := c], table := t), i, id)
       <==> if i == j then c.session.Some? && c.session.value.id == id else Holds(s, i, id)
  {
  }

  lemma OwnersPersist(s: Service, j: nat, c: Conn, t: Table, id: SessionId)
    requires Owned(s, id) && (Holds(s, j, id) ==> c.session.Some? && c.session.value.id == id)
    ensures Owned(s.(conns := s.conns[j := c], table := t), id)
  {
    var i :| Holds(s, i, id);
    HolderAfter(s, j, c, t, i, id);
  }

  /** A frame keeps the invariant, by what it did to the connection's slot. */
  lemma FrameKeeps(s: Service, j: nat, f: WireFrame, mono: U64, now: U64, env: ConnEnv)
    requires SlotInvariant(s) && j in s.conns && (s.swept ==> NoReissue(s, env))
    ensures SlotInvariant(Apply(s, Frame(j, f, mono, now, env)))
  {
    var c := s.conns[j];
    HandleKeeps(c, s.table, f, mono, now, env);
    HandleEffect(c, s.table, f, mono, now, env);
    var r := Handle(c, s.table, f, mono, now, env);
    SlotChangeKeeps(s, j, r, mono, env);
  }

  lemma SlotChangeKeeps(s: Service, j: nat, r: Step, mono: U64, env: ConnEnv)
    requires SlotInvariant(s) && j in s.conns && (s.swept ==> NoReissue(s, env))
    requires Consistent(r.conn) && r.conn.license == s.license
    requires TableEffect(s.conns[j], s.table, r, mono, env.draws)
    ensures SlotInvariant(s.(conns := s.conns[j := r.conn], table := r.table))
  {
    var u := s.(conns := s.conns[j := r.conn], table := r.table);
    forall i, k, id | Holds(u, i, id) && Holds(u, k, id) ensures i == k {
      OneHolder(s, j, r, mono, env, i, k, id);
    }
    forall id | id in u.table ensures Owned(u, id) && u.table[id].product == s.license.product {
      SlotOwned(s, j, r, mono, env, id);
    }
    forall i, id | !s.swept && Holds(u, i, id) ensures id in u.table {
      HolderAfter(s, j, r.conn, r.table, i, id);
      StillInTable(s, j, r, mono, env, i, id);
    }
    CountAfter(s, s.conns[j], r, mono, env);
  }

  lemma OneHolder(s: Service, j: nat, r: Step, mono: U64, env: ConnEnv, i: nat, k: nat, id: SessionId)
    requires SlotInvariant(s) && j in s.conns && (s.swept ==> NoReissue(s, env))
    requires TableEffect(s.conns[j], s.table, r, mono, env.draws)
    requires var u := s.(conns := s.conns[j := r.conn], table := r.table); Holds(u, i, id) && Holds(u, k, id)
    ensures i == k
  {
    HolderAfter(s, j, r.conn, r.table, i, id);
    HolderAfter(s, j, r.conn, r.table, k, id);
    if i == j {
      NotHeldByOthers(s, j, r, mono, env, k, id);
    } else if k == j {
      NotHeldByOthers(s, j, r, mono, env, i, id);
    }
  }

  lemma SlotOwned(s: Service, j: nat, r: Step, mono: U64, env: ConnEnv, id: SessionId)
    requires SlotInvariant(s) && j in s.conns && TableEffect(s.conns[j], s.table, r, mono, env.draws) && id in r.table
    ensures Owned(s.(conns := s.conns[j := r.conn], table := r.table), id) && r.table[id].product == s.license.product
  {
    if r.conn.session.Some? && r.conn.session.value.id == id {
      assert Holds(s.(conns := s.conns[j := r.conn], table := r.table), j, id);
    } else {
      assert id in s.table;
      OwnersPersist(s, j, r.conn, r.table, id);
    }
  }

  lemma NotHeldByOthers(s: Service, j: nat, r: Step, mono: U64, env: ConnEnv, i: nat, id: SessionId)
    requires SlotInvariant(s) && j in s.conns && (s.swept ==> NoReissue(s, env))
    requires TableEffect(s.conns[j], s.table, r, mono, env.draws)
    requires r.conn.session.Some? && r.conn.session.value.id == id && (i == j || Holds(s, i, id))
    ensures i == j
  {
    if s.conns[j].session.Some? {
      assert Holds(s, j, id);
    } else {
      assert id !in s.table && Some(id) in env.draws;
    }
  }

  lemma StillInTable(s: Service, j: nat, r: Step, mono: U64, env: ConnEnv, i: nat, id: SessionId)
    requires SlotInvariant(s) && j in s.conns && !s.swept
    requires TableEffect(s.conns[j], s.table, r, mono, env.draws)
    requires if i == j then r.conn.session.Some? && r.conn.session.value.id == id else Holds(s, i, id)
    ensures id in r.table
  {
    if s.conns[j].session.Some? {
      assert Holds(s, j, s.conns[j].session.value.id);
    }
  }

  lemma CountAfter(s: Service, c: Conn, r: Step, mono: U64, env: ConnEnv)
    requires |Holding(s.table, s.license.product)| <= s.license.maxSessions && c.license == s.license
    requires TableEffect(c, s.table, r, mono, env.draws)
    ensures |Holding(r.table, s.license.product)| <= s.license.maxSessions
  {
    match (c.session, r.conn.session)
    case (None, None) =>
    case (None, Some(x)) => AddCounts(s.table, x, s.license.product);
    case (Some(x), None) => OthersNeverRaiseCounts(s.table, x.id, mono, 0, s.license.product);
    case (Some(x), Some(_)) => OthersNeverRaiseCounts(s.table, x.id, mono, 0, s.license.product);
  }

  lemma DestroyKeeps(s: Service, j: nat)
    requires SlotInvariant(s) && j in s.conns
    ensures SlotInvariant(Apply(s, Destroy(j)))
  {
    var u := Apply(s, Destroy(j));
    forall i, id ensures Holds(u, i, id) <==> i != j && Holds(s, i, id) {
    }
    forall id | id in u.table ensures Owned(u, id) && u.table[id].product == s.license.product {
      SurvivorOwned(s, j, id);
    }
    forall i, id | !s.swept && Holds(u, i, id) ensures id in u.table {
      SurvivorInTable(s, j, i, id);
    }
    ReleaseCounts(s.conns[j], s.table, s.license.product);
  }

  lemma ReleaseCounts(c: Conn, t: Table, product: Bytes)
    ensures |Holding(ReleaseTable(c, t), product)| <= |Holding(t, product)|
  {
    if c.session.Some? {
      OthersNeverRaiseCounts(t, c.session.value.id, 0, 0, product);
    }
  }

  lemma SurvivorInTable(s: Service, j: nat, i: nat, id: SessionId)
    requires SlotInvariant(s) && j in s.conns && !s.swept && i != j && Holds(s, i, id)
    ensures id in ReleaseTable(s.conns[j], s.table)
  {
    assert s.conns[j].session.Some? ==> Holds(s, j, s.conns[j].session.value.id);
  }

  lemma SurvivorOwned(s: Service, j: nat, id: SessionId)
    requires SlotInvariant(s) && j in s.conns && id in ReleaseTable(s.conns[j], s.table)
    ensures Owned(s.(conns := s.conns - {j}, table := ReleaseTable(s.conns[j], s.table)), id)
  {
    var i :| Holds(s, i, id);
    assert Holds(s.(conns := s.conns - {j}, table := ReleaseTable(s.conns[j], s.table)), i, id);
  }

  lemma AcceptKeeps(s: Service, j: nat, c: Conn)
    requires SlotInvariant(s) && Enabled(s, Accept(j, c))
    ensures SlotInvariant(Apply(s, Accept(j, c)))
  {
    var u := Apply(s, Accept(j, c));
    forall i, id ensures Holds(u, i, id) <==> Holds(s, i, id) {
    }
    forall id | id in u.table ensures Owned(u, id) {
      var i :| Holds(s, i, id);
      assert Holds(u, i, id);
    }
  }

  lemma SweepKeeps(s: Service, mono: U64, timeout: U64)
    requires SlotInvariant(s)
    ensures SlotInvariant(Apply(s, Sweep(mono, timeout)))
  {
    var u := Apply(s, Sweep(mono, timeout));
    forall i, id ensures Holds(u, i, id) <==> Holds(s, i, id) {
    }
    forall id | id in u.table ensures Owned(u, id) {
      var i :| Holds(s, i, id);
      assert Holds(u, i, id);
    }
    OthersNeverRaiseCounts(s.table, [0,0,0,0,0,0,0,0,0,0,0,0,0,0,0,0], mono, timeout, s.license.product);
  }

  ghost predicate ServiceRun(run: seq<Service>, events: seq<Event>) {
    && |run| == |events| + 1
    && run[0].conns == map[] && run[0].table == map[] && !run[0].swept
    && forall i :: 0 <= i < |events| ==> Enabled(run[i], events[i]) && run[i + 1] == Apply(run[i], events[i])
  }

  lemma {:induction false} RunKeepsSlots(run: seq<Service>, events: seq<Event>, n: nat)
    requires ServiceRun(run, events) && n < |run|
    ensures SlotInvariant(run[n])
  {
    if n == 0 {
      assert Holding(run[0].table, run[0].license.product) == {};
    } else {
      RunKeepsSlots(run, events, n - 1);
      match events[n - 1]
      case Accept(j, c) => AcceptKeeps(run[n - 1], j, c);
      case Frame(j, f, mono, now, env) => FrameKeeps(run[n - 1], j, f, mono, now, env);
      case Destroy(j) => DestroyKeeps(run[n - 1], j);
      case Sweep(mono, timeout) => SweepKeeps(run[n - 1], mono, timeout);
    }
  }

  /**
   * No leak and no overrun, for any interleaving of any number of connections: each slot in
   * the table belongs to exactly one live active connection, the product's count never passes
   * the license's limit, and when every connection is closed or destroyed the table is empty.
   * While nothing swept the table, every active connection also still has its slot.
   */
  lemma NoSlotLeak(run: seq<Service>, events: seq<Event>, n: nat)
    requires ServiceRun(run, events) && n < |run|
    ensures var s := run[n];
            && (forall id :: id in s.table ==>
                  exists j :: Holds(s, j, id) && s.conns[j].phase == Active && forall i :: Holds(s, i, id) ==> i == j)
            && |s.table| <= s.license.maxSessions
            && ((forall j :: j in s.conns ==> s.conns[j].phase == Closed) ==> s.table == map[])
            && (!s.swept ==> forall j :: j in s.conns && s.conns[j].phase == Active ==>
                  s.conns[j].session.Some? && s.conns[j].session.value.id in s.table)
  {
    RunKeepsSlots(run, events, n);
    var s := run[n];
    forall id | id in s.table
      ensures exists j :: Holds(s, j, id) && s.conns[j].phase == Active && forall i :: Holds(s, i, id) ==> i == j
    {
      var j :| Holds(s, j, id);
    }
    assert Holding(s.table, s.license.product) == s.table.Keys;
    forall j | j in s.conns && s.conns[j].phase == Active && !s.swept
      ensures s.conns[j].session.Some? && s.conns[j].session.value.id in s.table
    {
      assert Holds(s, j, s.conns[j].session.value.id);
    }
    if forall j :: j in s.conns ==> s.conns[j].phase == Closed {
      assert forall id :: id in s.table ==> Owned(s, id);
      assert s.table.Keys == {};
    }
  }

  // ---- the serve loop ----

  /**
   * One turn of serve: the frame readFrame gave (none on a transport failure) and whether the
   * answer could be written.
   */
  datatype Turn = Turn(frame: Option<WireFrame>, mono: U64, now: U64, env: ConnEnv, writeOk: bool)

  /** What one connection has added to a table. */
  ghost predicate OwnSlotOnly(before: Table, now: Table, session: Option<Session>) {
    match session
    case None => now == before
    case Some(x) => x.id !in before && now - {x.id} == before
  }

  lemma TurnKeepsOwnSlot(before: Table, c: Conn, t: Table, s: Step, mono: U64, draws: seq<Option<SessionId>>)
    requires OwnSlotOnly(before, t, c.session) && TableEffect(c, t, s, mono, draws)
    ensures OwnSlotOnly(before, s.table, s.conn.session)
  {
  }

  /** The responses written to a peer, turn by turn, until a frame or a write fails or the connection closes. */
  function Written(c: Conn, t: Table, turns: seq<Turn>): seq<WireFrame>
    decreases |turns|
  {
    if c.phase == Closed || turns == [] || turns[0].frame.None? then []
    else
      var s := Handle(c, t, turns[0].frame.value, turns[0].mono, turns[0].now, turns[0].env);
      if s.result.response.Some? && !turns[0].writeOk then []
      else
        (if s.result.response.Some? then [s.result.response.value] else [])
        + (if s.result.closed then [] else Written(s.conn, s.table, turns[1..]))
  }

  /** One turn's answer, and the answers after it. */
  lemma WrittenTurn(c: Conn, t: Table, turns: seq<Turn>, i: nat, s: Step)
    requires i < |turns| && c.phase != Closed && turns[i].frame.Some?
    requires s == Handle(c, t, turns[i].frame.value, turns[i].mono, turns[i].now, turns[i].env)
    ensures Written(c, t, turns[i..])
            == if s.result.response.Some? && !turns[i].writeOk then []
               else Responses(s.result) + (if s.result.closed then [] else Written(s.conn, s.table, turns[i + 1..]))
  {
  }

  /** One turn on a frame: the step of the connection, which keeps to its own slot. */
  method ServeTurn(connection: Connection, sessions: SessionManager, turns: seq<Turn>, i: nat, ghost before: Table,
      ghost rest: seq<WireFrame>)
      returns (reply: seq<WireFrame>, stop: bool, ghost more: seq<WireFrame>)
    requires i < |turns| && turns[i].frame.Some? && connection.phase != Closed && connection.sessions == sessions
    requires Consistent(connection.View()) && OwnSlotOnly(before, sessions.sessions, connection.session)
    requires Pending(connection.View(), sessions.sessions, turns, i, false, rest)
    modifies connection, connection.handshake, connection.handshake.writer, connection.handshake.reader, sessions
    ensures Consistent(connection.View()) && OwnSlotOnly(before, sessions.sessions, connection.session)
    ensures rest == reply + more && Pending(connection.View(), sessions.sessions, turns, i + 1, stop, more)
    ensures connection.handshake.writer != null ==>
              connection.handshake.writer == old(connection.handshake.writer) || fresh(connection.handshake.writer)
    ensures connection.handshake.reader != null ==>
              connection.handshake.reader == old(connection.handshake.reader) || fresh(connection.handshake.reader)
  {
    var turn := turns[i];
    ghost var c, t := connection.View(), sessions.sessions;
    ghost var s := Handle(c, t, turn.frame.value, turn.mono, turn.now, turn.env);
    HandleKeeps(c, t, turn.frame.value, turn.mono, turn.now, turn.env);
    HandleEffect(c, t, turn.frame.value, turn.mono, turn.now, turn.env);
    TurnKeepsOwnSlot(before, c, t, s, turn.mono, turn.env.draws);
    WrittenTurn(c, t, turns, i, s);
    var result := connection.HandleFrame(turn.frame.value, turn.mono, turn.now, turn.env);
    more := if result.closed then [] else Written(s.conn, s.table, turns[i + 1..]);
    if result.response.Some? && !turn.writeOk { return [], true, []; }
    return Responses(result), result.closed, more;
  }

  /** Nothing more is written once the connection is closed or the frames run out. */
  lemma WrittenEnds(c: Conn, t: Table, turns: seq<Turn>, i: nat)
    requires i <= |turns| && (c.phase == Closed || i == |turns| || turns[i].frame.None?)
    ensures Written(c, t, turns[i..]) == []
  {
  }

  /** What is still to be written after i turns. */
  ghost predicate Pending(c: Conn, t: Table, turns: seq<Turn>, i: nat, stop: bool, rest: seq<WireFrame>)
    requires i <= |turns|
  {
    if stop then rest == [] else rest == Written(c, t, turns[i..])
  }

  lemma NothingPending(c: Conn, t: Table, turns: seq<Turn>, i: nat, stop: bool, rest: seq<WireFrame>)
    requires i <= |turns| && Pending(c, t, turns, i, stop, rest)
    requires stop || c.phase == Closed || i == |turns| || turns[i].frame.None?
    ensures rest == []
  {
    if !stop {
      WrittenEnds(c, t, turns, i);
    }
  }

  lemma CarryOn(done: seq<WireFrame>, reply: seq<WireFrame>, more: seq<WireFrame>, rest: seq<WireFrame>)
    requires rest == reply + more
    ensures (done + reply) + more == done + rest
  {
  }

  /**
   * serve: the peer gets the answers of the connection, and whatever it sends and wherever it
   * stops, the table ends as it began.
   */
  method Serve(keyId: Bytes, identity: Key, license: Snapshot, sessions: SessionManager, peer: Bytes, interval: U32,
      timeout: U32,
               turns: seq<Turn>) returns (responses: seq<WireFrame>)
    modifies sessions
    ensures sessions.sessions == old(sessions.sessions)
    ensures responses == Written(NewConn(keyId, identity, 1, 1, license, peer, interval, timeout),
              old(sessions.sessions), turns)
  {
    responses := [];
    ghost var before := sessions.sessions;
    var connection := new Connection(keyId, identity, 1, 1, license, sessions, peer, interval, timeout);
    ghost var all := Written(connection.View(), sessions.sessions, turns);
    ghost var rest := all;
    var i, stop := 0, false;
    assert turns[0..] == turns;
    while connection.phase != Closed && i < |turns| && !stop && turns[i].frame.Some?
      invariant 0 <= i <= |turns|
      invariant responses + rest == all && Pending(connection.View(), sessions.sessions, turns, i, stop, rest)
      invariant Consistent(connection.View()) && OwnSlotOnly(before, sessions.sessions, connection.session)
      invariant fresh(connection) && fresh(connection.handshake) && connection.sessions == sessions
      invariant connection.handshake.writer != null ==> fresh(connection.handshake.writer)
      invariant connection.handshake.reader != null ==> fresh(connection.handshake.reader)
      decreases |turns| - i
    {
      var reply: seq<WireFrame>;
      ghost var more;
      reply, stop, more := ServeTurn(connection, sessions, turns, i, before, rest);
      CarryOn(responses, reply, more, rest);
      responses := responses + reply;
      rest := more;
      i := i + 1;
    }
    NothingPending(connection.View(), sessions.sessions, turns, i, stop, rest);
    connection.Destroy();
  }
}
