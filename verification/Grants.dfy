/** Every license the issuers and the validator let through can be granted over the wire. */
module Grants {
  import opened Bytes
  import opened Crypto
  import opened Frames
  import opened Messages
  import opened Records
  import opened Handshakes
  import opened Sessions
  import opened Licensing
  import opened Connections
  import Issuance

  // ---- how large a result may be ----

  /** Room for feature strings: each with its length, terminator, padding and offset. */
  function FeatureRoom(features: seq<Bytes>): nat {
    if features == [] then 0 else FeatureRoom(features[..|features| - 1]) + |features[|features| - 1]| + 12
  }

  lemma {:induction false} FeatureRoomBounded(features: seq<Bytes>)
    requires forall i :: 0 <= i < |features| ==> ValidFeature(features[i])
    ensures FeatureRoom(features) <= |features| * (MAX_FEATURE + 12)
  {
    if features != [] {
      FeatureRoomBounded(features[..|features| - 1]);
      assert ValidFeature(features[|features| - 1]);
    }
  }

  /** A builder needs the room of the features and at most 512 bytes besides. */
  predicate BuiltWithin(features: seq<Bytes>, size: nat) {
    8 <= size <= 512 + FeatureRoom(features)
  }

  lemma ResultSealable(features: seq<Bytes>, size: nat)
    requires ValidFeatures(features) && BuiltWithin(features, size)
    ensures 8 <= size <= MAX_PAYLOAD - TAG_SIZE && size <= MAX_ENVELOPE
  {
    FeatureRoomBounded(features);
  }

  // ---- an established client asks for the product ----

  /** The connection waits for a request, has numbers left, and may draw a fresh session id. */
  predicate Receptive(c: Conn, t: Table, env: ConnEnv) {
    && Consistent(c) && c.phase == ExpectAuthorize && c.peer != []
    && c.handshake.reader.value.next < LAST_SEQUENCE && c.handshake.writer.value.next < LAST_SEQUENCE
    && env.cipherOk && BuiltWithin(c.license.features, env.size)
    && Draw(t, env.draws).Some?
  }

  /** A request the client could encode in the agreed version, for the licensed product. */
  predicate Proper(c: Conn, m: Authorize, size: nat) {
    && m.version == c.handshake.selected && m.product == c.license.product
    && EncodeAuthorize(m, size).Some? && 8 <= size <= MAX_PAYLOAD - TAG_SIZE
  }

  function RequestFrame(c: Conn, m: Authorize, size: nat): WireFrame
    requires EncodeAuthorize(m, size).Some? && c.handshake.reader.Some?
  {
    SealedFrame(c.handshake.reader.value.key, c.handshake.reader.value.next, EncodeAuthorize(m, size).value)
  }

  /** Active with a slot, and a client at the other end reads the license's own features and expiry. */
  predicate Granted(c: Conn, t: Table, m: Authorize, s: Step) {
    && c.handshake.writer.Some? && s.conn.phase == Active && s.conn.session.Some? && s.conn.session.value.id !in t
    && s.table == t[s.conn.session.value.id := s.conn.session.value]
    && s.result.error == NoError && s.result.response.Some?
    && var unsealed := OpenRecord(c.handshake.writer.value, s.result.response.value).1;
       unsealed.Done? && DecodeAuthResult(unsealed.value)
                       == Some(AuthResult(m.requestId, m.version, NO_ERROR, Some(s.conn.session.value.id),
                         c.license.features, c.license.expire, c.interval, c.timeout))
  }

  lemma RequestOpens(c: Conn, m: Authorize, size: nat)
    requires Consistent(c) && c.phase == ExpectAuthorize && c.handshake.reader.value.next < LAST_SEQUENCE
             && Proper(c, m, size)
    ensures ServerOpen(c.handshake, RequestFrame(c, m, size)).1 == Done(EncodeAuthorize(m, size).value)
    ensures ServerOpen(c.handshake, RequestFrame(c, m, size)).0
            == c.handshake.(reader := Some(c.handshake.reader.value.(next := c.handshake.reader.value.next + 1)))
    ensures DecodeAuthorize(EncodeAuthorize(m, size).value) == Some(m)
  {
    OpenSealed(c.handshake.reader.value, EncodeAuthorize(m, size).value);
  }

  /** The request decides on a slot when one is free. */
  lemma Decides(c: Conn, t: Table, m: Authorize, mono: U64, now: U64, env: ConnEnv)
    requires c.peer != [] && c.license.product != [] && c.license.maxSessions != 0 && m.product == c.license.product
    requires !Lapsed(c.license, now) && |Holding(t, c.license.product)| < c.license.maxSessions
             && Draw(t, env.draws).Some?
    ensures var d := Decide(c, t, m, mono, now, env);
            && d.error == NoError && d.conn.session.Some? && d.conn.session.value.id !in t
            && d.conn == c.(session := d.conn.session, phase := Active)
            && d.table == t[d.conn.session.value.id := d.conn.session.value]
            && d.answer == AuthResult(m.requestId, c.handshake.selected, NO_ERROR, Some(d.conn.session.value.id),
                  c.license.features, c.license.expire, c.interval, c.timeout)
  {
  }

  lemma ResultDecodes(a: AuthResult, size: nat)
    requires EncodeAuthResult(a, size).Some? && 8 <= size <= MAX_ENVELOPE
    ensures DecodeAuthResult(EncodeAuthResult(a, size).value) == Some(a)
  {
  }

  /**
   * With a slot free and the license not lapsed, the request is granted exactly when the
   * license's features fit the wire; when they do not, the slot is given back and the
   * connection closed.
   */
  lemma GrantIff(c: Conn, t: Table, m: Authorize, size: nat, mono: U64, now: U64, env: ConnEnv)
    requires Receptive(c, t, env) && Proper(c, m, size) && c.license.maxSessions != 0
    requires !Lapsed(c.license, now) && |Holding(t, c.license.product)| < c.license.maxSessions
    ensures var s := Handle(c, t, RequestFrame(c, m, size), mono, now, env);
            && (Granted(c, t, m, s) <==> ValidFeatures(c.license.features))
            && (!ValidFeatures(c.license.features) ==>
                  s.table == t && s.conn.phase == Closed && s.result == ConnResult(BadMessage, None, true))
  {
    RequestOpens(c, m, size);
    var current := c.(handshake := ServerOpen(c.handshake, RequestFrame(c, m, size)).0);
    Decides(current, t, m, mono, now, env);
    var d := Decide(current, t, m, mono, now, env);
    assert Handle(c, t, RequestFrame(c, m, size), mono, now, env)
           == HandleAuthorize(current, t, EncodeAuthorize(m, size).value, mono, now, env);
    if ValidFeatures(c.license.features) {
      ResultSealable(c.license.features, env.size);
      ResultDecodes(d.answer, env.size);
      OpenSealed(c.handshake.writer.value, EncodeAuthResult(d.answer, env.size).value);
    } else {
      assert Close(d.table, d.conn.session.value.id) == t;
    }
  }

  /** Every license of the C++ issuer is grantable: its limits are within the wire's. */
  lemma GrantComplete(d: Issuance.Definition, c: Conn, t: Table, m: Authorize, size: nat, mono: U64, now: U64,
      env: ConnEnv)
    requires Issuance.IssuerAccepts(d) && c.license == Issuance.SnapshotOf(d)
    requires Receptive(c, t, env) && m.version == c.handshake.selected && m.product == d.product && m.requestId != 0
             && m.process != 0
    requires 8 <= size <= MAX_PAYLOAD - TAG_SIZE
    requires (d.expire == 0 || now < d.expire) && |Holding(t, d.product)| < d.maxSessions
    ensures EncodeAuthorize(m, size).Some? && Granted(c, t, m, Handle(c, t, RequestFrame(c, m, size), mono, now, env))
    ensures c.license.features == d.features && c.license.expire == d.expire
  {
    GrantIff(c, t, m, size, mono, now, env);
  }

  // ---- what can be granted at all ----

  /** This request for the product encodes, and the connection grants it. */
  predicate GrantsRequest(c: Conn, t: Table, m: Authorize, size: nat, mono: U64, now: U64, env: ConnEnv) {
    && m.product == c.license.product && EncodeAuthorize(m, size).Some? && c.handshake.reader.Some?
    && Granted(c, t, m, Handle(c, t, RequestFrame(c, m, size), mono, now, env))
  }

  /** Some request for the licensed product can be encoded and is granted. */
  ghost predicate Grantable(c: Conn, t: Table, mono: U64, now: U64, env: ConnEnv) {
    exists m, size :: GrantsRequest(c, t, m, size, mono, now, env)
  }

  /** Only a product and features that fit the wire can be granted. */
  lemma GrantsOnlyFitting(c: Conn, t: Table, m: Authorize, size: nat, mono: U64, now: U64, env: ConnEnv)
    requires GrantsRequest(c, t, m, size, mono, now, env)
    ensures |c.license.product| <= MAX_PRODUCT_ID && ValidFeatures(c.license.features)
  {
    var s := Handle(c, t, RequestFrame(c, m, size), mono, now, env);
    var plain := OpenRecord(c.handshake.writer.value, s.result.response.value).1.value;
    AcceptedFeaturesValid(plain);
  }

  lemma AcceptedFeaturesValid(plain: Buffer)
    requires DecodeAuthResult(plain).Some?
    ensures ValidFeatures(DecodeAuthResult(plain).value.features)
  {
  }

  /**
   * With a slot free and the license not lapsed, a license is grantable exactly when product and
   * features fit the wire.
   */
  lemma GrantableIff(c: Conn, t: Table, mono: U64, now: U64, env: ConnEnv)
    requires Receptive(c, t, env) && c.license.product != [] && c.license.maxSessions != 0
    requires !Lapsed(c.license, now) && |Holding(t, c.license.product)| < c.license.maxSessions
    ensures Grantable(c, t, mono, now, env) <==>
              |c.license.product| <= MAX_PRODUCT_ID && ValidFeatures(c.license.features)
  {
    if Grantable(c, t, mono, now, env) {
      var m, size :| GrantsRequest(c, t, m, size, mono, now, env);
      GrantsOnlyFitting(c, t, m, size, mono, now, env);
    }
    if |c.license.product| <= MAX_PRODUCT_ID && ValidFeatures(c.license.features) {
      var m := Authorize(1, c.handshake.selected, c.license.product, 1);
      assert Proper(c, m, 8);
      GrantIff(c, t, m, 8, mono, now, env);
      assert GrantsRequest(c, t, m, 8, mono, now, env);
    }
  }

  /**
   * A license of the Rust issuer is grantable exactly when its product has at most 255 bytes and no
   * feature more than 128.
   */
  lemma RemoteGrantIff(d: Issuance.RemoteDefinition, c: Conn, t: Table, mono: U64, now: U64, env: ConnEnv)
    requires Issuance.RemoteAccepts(d) && c.license == Issuance.RemoteSnapshot(d) && Receptive(c, t, env)
    requires (d.kind == Permanent || now < d.expire) && |Holding(t, d.product)| < d.maxSessions
    ensures Grantable(c, t, mono, now, env)
       <==> |d.product| <= MAX_PRODUCT_ID && forall i :: 0 <= i < |d.features| ==> |d.features[i]| <= MAX_FEATURE
  {
    GrantableIff(c, t, mono, now, env);
    forall i | 0 <= i < |d.features| ensures ValidFeature(d.features[i]) <==> |d.features[i]| <= MAX_FEATURE {
      assert Issuance.RemoteFeature(d.features[i]);
    }
  }

  function Repeated(b: Byte, n: nat): Bytes { seq(n, _ => b) }

  /**
   * A Rust-issued license without features whose product has 300 bytes: accepted by its issuer,
   * asked for by nobody.
   */
  lemma LongProductNotGrantable(c: Conn, t: Table, mono: U64, now: U64, env: ConnEnv)
    requires c.license == Issuance.RemoteSnapshot(LongProduct())
    ensures Issuance.RemoteAccepts(LongProduct()) && !Grantable(c, t, mono, now, env)
    ensures forall m: Authorize, size :: m.product == LongProduct().product ==> EncodeAuthorize(m, size).None?
  {
    assert |LongProduct().product| == 300;
  }

  function LongProduct(): Issuance.RemoteDefinition {
    Issuance.RemoteDefinition([65], Repeated(65, 300), [65], 0, 0, 0, Permanent, [], 1, None)
  }

  /** One with a feature of 200 bytes: asked for, and refused with its slot given back. */
  lemma LongFeatureNotGrantable(c: Conn, t: Table, m: Authorize, size: nat, mono: U64, now: U64, env: ConnEnv)
    requires c.license == Issuance.RemoteSnapshot(LongFeature()) && Receptive(c, t, env) && Proper(c, m, size)
    requires |Holding(t, c.license.product)| == 0
    ensures Issuance.RemoteAccepts(LongFeature())
    ensures var s := Handle(c, t, RequestFrame(c, m, size), mono, now, env);
            s.table == t && s.conn.phase == Closed && s.result == ConnResult(BadMessage, None, true)
  {
    var f := LongFeature().features[0];
    assert |f| == 200;
    assert !ValidFeature(c.license.features[0]);
    GrantIff(c, t, m, size, mono, now, env);
  }

  function LongFeature(): Issuance.RemoteDefinition {
    Issuance.RemoteDefinition([65], [65], [65], 0, 0, 0, Permanent, [Repeated(65, 200)], 1, None)
  }
}
