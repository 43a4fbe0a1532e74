/** The shared session table and its quota. */
module Sessions {
  import opened Bytes
  import opened Sets
  import opened Messages

  datatype Session = Session(id: SessionId, product: Bytes, peer: Bytes, features: seq<Bytes>, expire: U64,
      lastHeartbeat: U64)

  type Table = map<SessionId, Session>

  datatype CreateError = InvalidLicense | SessionLimitExceeded | InternalError

  datatype Created = Created(session: Session) | NotCreated(error: CreateError)

  /** The ids that count against a product's quota. */
  function Holding(t: Table, product: Bytes): set<SessionId> {
    set id | id in t && t[id].product == product
  }

  /** The first drawn id that is not taken; a failed draw, or no further draw, gives none. */
  function Draw(t: Table, draws: seq<Option<SessionId>>): (id: Option<SessionId>)
    ensures id.Some? ==> id.value !in t && id in draws
  {
    if draws == [] || draws[0].None? then None
    else if draws[0].value !in t then draws[0]
    else Draw(t, draws[1..])
  }

  function Create(t: Table, product: Bytes, peer: Bytes, features: seq<Bytes>, expire: U64, now: U64, max: U32,
                  draws: seq<Option<SessionId>>): (Table, Created) {
    if product == [] || peer == [] || max == 0 then (t, NotCreated(InvalidLicense))
    else if |Holding(t, product)| >= max then (t, NotCreated(SessionLimitExceeded)) else
    match Draw(t, draws)
    case None => (t, NotCreated(InternalError))
    case Some(id) =>
      var s := Session(id, product, peer, features, expire, now);
      (t[id := s], Created(s))
  }

  function Touch(t: Table, id: SessionId, now: U64): Table {
    if id in t then t[id := t[id].(lastHeartbeat := now)] else t
  }

  function Close(t: Table, id: SessionId): Table { t - {id} }

  predicate Stale(s: Session, now: U64, timeout: U64) {
    now >= s.lastHeartbeat && now - s.lastHeartbeat >= timeout
  }

  function Expire(t: Table, now: U64, timeout: U64): Table {
    map id | id in t && !Stale(t[id], now, timeout) :: t[id]
  }

  /** A heartbeat moves its own session's time only; a sweep drops exactly the sessions silent for the timeout. */
  lemma TableEffects(t: Table, id: SessionId, now: U64, timeout: U64, k: SessionId)
    ensures Touch(t, id, now).Keys == t.Keys
    ensures k in t ==> Touch(t, id, now)[k] == if k == id then t[k].(lastHeartbeat := now) else t[k]
    ensures k in Expire(t, now, timeout) <==> k in t && (now < t[k].lastHeartbeat || now - t[k].lastHeartbeat < timeout)
    ensures k in Expire(t, now, timeout) ==> Expire(t, now, timeout)[k] == t[k]
    ensures k in Close(t, id) <==> k in t && k != id
  {
  }

  /**
   * A session was created exactly when its slot was free: the new table holds one more of that
   * product and the same of any other.
   */
  lemma CreateCounts(t: Table, product: Bytes, peer: Bytes, features: seq<Bytes>, expire: U64, now: U64, max: U32,
                     draws: seq<Option<SessionId>>, other: Bytes)
    ensures var (u, r) := Create(t, product, peer, features, expire, now, max, draws);
            && (r.Created? <==> product != [] && peer != [] && |Holding(t, product)| < max && Draw(t, draws).Some?)
            && (r.NotCreated? ==> u == t)
            && (r.Created? ==>
                  && r.session.product == product && r.session.peer == peer && r.session.features == features
                  && r.session.expire == expire && r.session.lastHeartbeat == now)
            && (r.Created? ==> r.session.id !in t && u == t[r.session.id := r.session] && |Holding(t, product)| < max)
            && |Holding(u, other)| == |Holding(t, other)| + (if r.Created? && other == product then 1 else 0)
  {
    var (u, r) := Create(t, product, peer, features, expire, now, max, draws);
    if r.Created? {
      AddCounts(t, r.session, other);
    }
  }

  lemma AddCounts(t: Table, s: Session, product: Bytes)
    requires s.id !in t
    ensures |Holding(t[s.id := s], product)| == |Holding(t, product)| + (if s.product == product then 1 else 0)
  {
    if s.product == product {
      assert Holding(t[s.id := s], product) == Holding(t, product) + {s.id};
    } else {
      assert Holding(t[s.id := s], product) == Holding(t, product);
    }
  }

  /** Touching, closing and expiring never raise a count. */
  lemma OthersNeverRaiseCounts(t: Table, id: SessionId, now: U64, timeout: U64, product: Bytes)
    ensures |Holding(Touch(t, id, now), product)| == |Holding(t, product)|
    ensures |Holding(Close(t, id), product)| <= |Holding(t, product)|
    ensures |Holding(Expire(t, now, timeout), product)| <= |Holding(t, product)|
  {
    assert Holding(Touch(t, id, now), product) == Holding(t, product);
    SubsetSize(Holding(Close(t, id), product), Holding(t, product));
    SubsetSize(Holding(Expire(t, now, timeout), product), Holding(t, product));
  }

  class SessionManager {
    var sessions: Table

    constructor ()
      ensures sessions == map[]
    {
      sessions := map[];
    }

    /** count_if over the table. */
    method CountActive(product: Bytes) returns (active: nat)
      ensures active == |Holding(sessions, product)|
    {
      active := 0;
      var rest := sessions.Keys;
      ghost var counted: set<SessionId> := {};
      while rest != {}
        invariant rest <= sessions.Keys
        invariant counted == set id | id in sessions && id !in rest && sessions[id].product == product
        invariant active == |counted|
        decreases rest
      {
        var id :| id in rest;
        rest := rest - {id};
        if sessions[id].product == product {
          counted := counted + {id};
          active := active + 1;
        }
      }
      assert counted == Holding(sessions, product);
    }

    /** create: quota check, then draw ids until one is free. */
    method CreateSession(product: Bytes, peer: Bytes, features: seq<Bytes>, expire: U64, now: U64, max: U32,
                         draws: seq<Option<SessionId>>) returns (r: Created)
      modifies this
      ensures (sessions, r) == Create(old(sessions), product, peer, features, expire, now, max, draws)
    {
      if product == [] || peer == [] || max == 0 { return NotCreated(InvalidLicense); }
      var active := CountActive(product);
      if active >= max { return NotCreated(SessionLimitExceeded); }
      var i := 0;
      while true
        invariant 0 <= i <= |draws|
        invariant Draw(sessions, draws) == Draw(sessions, draws[i..])
        invariant sessions == old(sessions)
        decreases |draws| - i
      {
        if i == |draws| || draws[i].None? { return NotCreated(InternalError); }
        if draws[i].value !in sessions { break; }
        i := i + 1;
      }
      var session := Session(draws[i].value, product, peer, features, expire, now);
      sessions := sessions[session.id := session];
      return Created(session);
    }

    method Heartbeat(id: SessionId, now: U64) returns (known: bool)
      modifies this
      ensures sessions == Touch(old(sessions), id, now)
      ensures known <==> id in old(sessions)
    {
      if id !in sessions { return false; }
      sessions := sessions[id := sessions[id].(lastHeartbeat := now)];
      return true;
    }

    method CloseSession(id: SessionId) returns (erased: bool)
      modifies this
      ensures sessions == Close(old(sessions), id)
      ensures erased <==> id in old(sessions)
    {
      erased := id in sessions;
      sessions := sessions - {id};
    }

    /** expireInactive: erase_if over the table. */
    method ExpireInactive(now: U64, timeout: U64) returns (erased: nat)
      modifies this
      ensures sessions == Expire(old(sessions), now, timeout)
      ensures erased == |set id | id in old(sessions) && Stale(old(sessions)[id], now, timeout)|
    {
      erased := 0;
      var rest := sessions.Keys;
      ghost var gone: set<SessionId> := {};
      while rest != {}
        invariant rest <= sessions.Keys
        invariant gone == set id | id in old(sessions) && id !in rest && Stale(old(sessions)[id], now, timeout)
        invariant erased == |gone|
        invariant sessions == old(sessions) - gone
        decreases rest
      {
        var id :| id in rest;
        rest := rest - {id};
        if Stale(sessions[id], now, timeout) {
          gone := gone + {id};
          sessions := sessions - {id};
          erased := erased + 1;
        }
      }
      assert gone == set id | id in old(sessions) && Stale(old(sessions)[id], now, timeout);
    }
  }
}
