/**
 * The rules of activation as the rows state them: when a request succeeds, what it leaves
 * behind, and which error answers the first condition that fails. Every condition is written in
 * the fields of the rows, so that the handlers are measured against it and not against
 * themselves.
 */
module ActivationRules {
  import opened Bytes
  import opened Crypto
  import opened Ledger
  import opened LedgerLaws

  // ---- conditions on rows ----

  predicate Formed(r: Request) {
    && r.version == 1 && 1 <= |r.machine| <= 1024
    && (r.key == None || 1 <= |r.key.value| <= 200)
  }

  /** Nothing expires at or after the moment it names. */
  predicate Ahead(expires: Option<int>, t: int) {
    match expires case None => true case Some(e) => t < e
  }

  predicate CodeOpen(db: Db, c: CodeHash, t: int) {
    && c in db.codes && db.codes[c].product in db.products
    && db.codes[c].disabled == false && Ahead(db.codes[c].expires, t)
  }

  predicate InForce(l: License, t: int) {
    l.status == Live && l.notBefore <= t && Ahead(l.expires, t)
  }

  /** The license row a usable code leads to; a code without one would get a permanent, unowned one of its own limit. */
  predicate LeadsTo(db: Db, c: CodeHash, env: Env, l: Id, row: License) {
    && c in db.codes
    && match db.codes[c].license
       case Some(own) => l == own && l in db.licenses && row == db.licenses[l]
       case None =>
         && l == env.newLicense && l !in db.licenses
         && row.product == db.codes[c].product && row.user == None && row.status == Live
         && row.notBefore == env.now && row.expires == None && row.deviceLimit == db.codes[c].limit
  }

  predicate HasKey(db: Db, r: Request, a: Id) {
    r.key.Some? && a in db.acts && db.acts[a].code == r.code && db.acts[a].key == r.key
  }

  predicate BoundTo(db: Db, r: Request, l: Id, a: Id) {
    && a in db.acts && db.acts[a].unbound == false
    && db.acts[a].license == l && db.acts[a].device == Sha256(r.machine)
  }

  ghost predicate NoKeyRow(db: Db, r: Request) { forall a :: a in db.acts ==> !HasKey(db, r, a) }

  ghost predicate NoBinding(db: Db, r: Request, l: Id) { forall a :: a in db.acts ==> !BoundTo(db, r, l, a) }

  /** The bound rows of a license. */
  function Devices(db: Db, l: Id): set<Id> {
    set a | a in db.acts && db.acts[a].unbound == false && db.acts[a].license == l
  }

  /** Both limits have room for one more. */
  predicate HasRoom(db: Db, c: CodeHash, l: Id, row: License) {
    c in db.codes && db.codes[c].count < db.codes[c].limit && |Devices(db, l)| < row.deviceLimit
  }

  /** A new row may be bound: there is room, signing works, and the drawn id is free. */
  predicate MayInsert(db: Db, c: CodeHash, l: Id, row: License, env: Env) {
    HasRoom(db, c, l, row) && env.signed != None && env.newActivation !in db.acts
  }

  /** The row that answers a request: the key's own, the device's own, or a new one. */
  ghost predicate Serves(db: Db, r: Request, l: Id, row: License, env: Env, a: Id) {
    || (HasKey(db, r, a) && db.acts[a].unbound == false && db.acts[a].device == Sha256(r.machine))
    || (NoKeyRow(db, r) && BoundTo(db, r, l, a))
    || (NoKeyRow(db, r) && NoBinding(db, r, l) && MayInsert(db, r.code, l, row, env) && a == env.newActivation)
  }

  /** Everything a request needs before its row is looked for. */
  predicate Eligible(db: Db, r: Request, l: Id, row: License, env: Env) {
    && Formed(r) && env.admitted && CodeOpen(db, r.code, env.now) && db.products[db.codes[r.code].product] == r.product
    && LeadsTo(db, r.code, env, l, row) && row.product == db.codes[r.code].product && InForce(row, env.now)
  }

  // ---- the handler's tests say the same ----

  lemma CodeTests(db: Db, c: CodeHash, t: int)
    ensures CodeUsable(db, c, t) <==> CodeOpen(db, c, t)
  {
  }

  lemma LicenseTests(l: License, t: int)
    ensures LicenseRefusal(l, t) == None <==> InForce(l, t)
    ensures l.status != Live ==> LicenseRefusal(l, t) == Some(LicenseRevokedError)
    ensures l.status == Live && t < l.notBefore ==> LicenseRefusal(l, t) == Some(NotYetValid)
    ensures l.status == Live && l.notBefore <= t && !Ahead(l.expires, t) ==>
              LicenseRefusal(l, t) == Some(LicenseExpired)
  {
  }

  lemma RowTests(db: Db, r: Request, l: Id, a: Id)
    ensures r.key.Some? ==> (a in Keyed(db, r.code, r.key.value) <==> HasKey(db, r, a))
    ensures a in Bound(db, l, Sha256(r.machine)) <==> BoundTo(db, r, l, a)
    ensures ActiveByLicense(db, l) == Devices(db, l)
  {
  }

  /** The license a request is about, in whichever way it comes by it. */
  lemma LinkTests(db: Db, c: CodeHash, env: Env, l: Id, row: License)
    requires Sound(db) && c in db.codes && LeadsTo(db, c, env, l, row)
    ensures Linked(db, c, env).Ok?
    ensures var (d, m) := Linked(db, c, env).value;
            && m == l && l in d.licenses && d.licenses[l] == row && row.product == db.codes[c].product
            && d.acts == db.acts && d.tokens == db.tokens && d.devices == db.devices && d.products == db.products
            && d.outbox == db.outbox && c in d.codes && Sound(d)
            && d.codes == db.codes[c := db.codes[c].(license := Some(l))]
            && d.licenses == db.licenses[l := row]
  {
    LinkKeeps(db, c, env);
    if db.codes[c].license.Some? {
      assert db.codes[c := db.codes[c].(license := Some(l))] == db.codes;
      assert db.licenses[l := row] == db.licenses;
    } else {
      assert row == License(db.codes[c].product, None, Live, env.now, None, db.codes[c].limit);
    }
  }

  // ---- from eligibility to the row ----

  /** The tables an eligible request works on: its license in place and its code linked to it. */
  function Joined(db: Db, c: CodeHash, l: Id, row: License): Db
    requires c in db.codes
  {
    db.(licenses := db.licenses[l := row], codes := db.codes[c := db.codes[c].(license := Some(l))])
  }

  lemma EligibleRest(db: Db, r: Request, l: Id, row: License, env: Env)
    requires Sound(db) && Eligible(db, r, l, row, env)
    ensures var d := Joined(db, r.code, l, row);
            && Sound(d) && r.code in d.codes && l in d.licenses && d.licenses[l] == row && d.acts == db.acts
            && Linked(db, r.code, env) == Ok((d, l)) && Transact(db, r, env) == Redeem(d, r, l, env)
  {
    CodeTests(db, r.code, env.now);
    LicenseTests(row, env.now);
    LinkTests(db, r.code, env, l, row);
  }

  /** finish_activation on a bound row of a known license. */
  lemma FinishTests(d: Db, a: Id, env: Env)
    requires a in d.acts && d.acts[a].license in d.licenses && d.acts[a].unbound == false
    ensures var row := d.licenses[d.acts[a].license];
            && (Finish(d, a, env).Ok? <==> InForce(row, env.clock) && env.newToken !in d.tokens)
            && (Finish(d, a, env).Ok? ==>
                  Finish(d, a, env).value
                  == (d.(tokens := d.tokens[env.newToken := Token(a, env.tokenExpires, false)]),
                    Activated(d.acts[a].blob, env.newToken)))
            && (row.status != Live ==> Finish(d, a, env) == Err(LicenseRevokedError))
            && (row.status == Live && env.clock < row.notBefore ==> Finish(d, a, env) == Err(NotYetValid))
            && (row.status == Live && row.notBefore <= env.clock && !Ahead(row.expires, env.clock) ==>
                  Finish(d, a, env) == Err(LicenseExpired))
            && (InForce(row, env.clock) && env.newToken in d.tokens ==> Finish(d, a, env) == Err(Internal))
  {
    LicenseTests(d.licenses[d.acts[a].license], env.clock);
  }

  /** A row unbound already is refused. */
  lemma FinishUnbound(d: Db, a: Id, env: Env)
    requires a in d.acts && d.acts[a].license in d.licenses && d.acts[a].unbound == true
    ensures Finish(d, a, env) == Err(ActivationInactive)
  {
  }

  /** The tables as they stand when the row is finished. */
  function Prepared(db: Db, r: Request, l: Id, row: License, env: Env, a: Id): Db
    requires r.code in db.codes && (a !in db.acts ==> env.signed.Some?)
  {
    var d := Joined(db, r.code, l, row);
    if a in db.acts then d.(devices := d.devices + {Sha256(r.machine)})
    else
      d.(devices := d.devices + {Sha256(r.machine)},
         acts := d.acts[a := Activation(l, Sha256(r.machine), r.code, r.key, env.signed.value, false)],
         codes := d.codes[r.code := d.codes[r.code].(count := d.codes[r.code].count + 1)])
  }

  lemma RedeemKeyed(d: Db, r: Request, l: Id, env: Env, a: Id)
    requires KeysUnique(d) && r.code in d.codes && l in d.licenses && r.key.Some? && a in Keyed(d, r.code, r.key.value)
    ensures d.acts[a].device != Sha256(r.machine) ==> Redeem(d, r, l, env) == Err(IdempotencyMismatch)
    ensures d.acts[a].device == Sha256(r.machine) && d.acts[a].unbound ==>
              Redeem(d, r, l, env) == Err(ActivationInactive)
    ensures d.acts[a].device == Sha256(r.machine) && !d.acts[a].unbound ==> Redeem(d, r, l, env) == Finish(d, a, env)
  {
    KeyedSingleton(d, r.code, r.key.value, a);
  }

  lemma LinkedRow(d: Db, a: Id)
    requires ActsOk(d) && a in d.acts
    ensures d.acts[a].code in d.codes && d.codes[d.acts[a].code].license == Some(d.acts[a].license)
    ensures d.devices + {d.acts[a].device} == d.devices
  {
  }

  lemma KeyedRest(db: Db, r: Request, l: Id, row: License, env: Env, a: Id)
    requires Sound(db) && Eligible(db, r, l, row, env) && HasKey(db, r, a)
    ensures db.acts[a].license == l
    ensures db.acts[a].device != Sha256(r.machine) ==> Transact(db, r, env) == Err(IdempotencyMismatch)
    ensures db.acts[a].device == Sha256(r.machine) && db.acts[a].unbound ==>
              Transact(db, r, env) == Err(ActivationInactive)
    ensures db.acts[a].device == Sha256(r.machine) && !db.acts[a].unbound ==>
              Transact(db, r, env) == Finish(Prepared(db, r, l, row, env, a), a, env)
  {
    EligibleRest(db, r, l, row, env);
    var d := Joined(db, r.code, l, row);
    LinkedRow(d, a);
    RowTests(d, r, l, a);
    RedeemKeyed(d, r, l, env, a);
  }

  lemma NoRows(db: Db, r: Request, l: Id)
    ensures r.key.Some? ==> (NoKeyRow(db, r) <==> Keyed(db, r.code, r.key.value) == {})
    ensures r.key.None? ==> NoKeyRow(db, r)
    ensures NoBinding(db, r, l) <==> Bound(db, l, Sha256(r.machine)) == {}
  {
    forall a ensures r.key.Some? ==> (a in Keyed(db, r.code, r.key.value) <==> HasKey(db, r, a))
      ensures a in Bound(db, l, Sha256(r.machine)) <==> BoundTo(db, r, l, a)
    {
      RowTests(db, r, l, a);
    }
    if r.key.Some? && NoKeyRow(db, r) {
      assert forall a :: a in Keyed(db, r.code, r.key.value) ==> HasKey(db, r, a);
    }
  }

  lemma RedeemKeyless(d: Db, r: Request, l: Id, env: Env)
    requires r.code in d.codes && l in d.licenses && (r.key.Some? ==> Keyed(d, r.code, r.key.value) == {})
    ensures Redeem(d, r, l, env) == Bind(d.(devices := d.devices + {Sha256(r.machine)}), r, l, env)
  {
  }

  lemma SameRows(db: Db, d: Db, r: Request, l: Id)
    requires d.acts == db.acts
    ensures Bound(d, l, Sha256(r.machine)) == Bound(db, l, Sha256(r.machine)) && ActiveByLicense(d, l) == Devices(db, l)
    ensures r.key.Some? ==> Keyed(d, r.code, r.key.value) == Keyed(db, r.code, r.key.value)
  {
  }

  /** The tables with the device row in place. */
  function Seen(db: Db, r: Request, l: Id, row: License): Db
    requires r.code in db.codes
  {
    var d := Joined(db, r.code, l, row);
    d.(devices := d.devices + {Sha256(r.machine)})
  }

  lemma KeylessRest(db: Db, r: Request, l: Id, row: License, env: Env)
    requires Sound(db) && Eligible(db, r, l, row, env) && NoKeyRow(db, r)
    ensures var seen := Seen(db, r, l, row);
            r.code in seen.codes && l in seen.licenses && Transact(db, r, env) == Bind(seen, r, l, env)
    ensures r.key.Some? ==> Keyed(db, r.code, r.key.value) == {}
  {
    EligibleRest(db, r, l, row, env);
    NoRows(db, r, l);
    SameRows(db, Joined(db, r.code, l, row), r, l);
    RedeemKeyless(Joined(db, r.code, l, row), r, l, env);
  }

  lemma BoundRest(db: Db, r: Request, l: Id, row: License, env: Env, a: Id)
    requires Sound(db) && Eligible(db, r, l, row, env) && NoKeyRow(db, r) && BoundTo(db, r, l, a)
    ensures Transact(db, r, env) == Finish(Prepared(db, r, l, row, env, a), a, env)
  {
    KeylessRest(db, r, l, row, env);
    SameRows(db, Seen(db, r, l, row), r, l);
    RowTests(db, r, l, a);
    BoundSingleton(db, l, Sha256(r.machine), a);
  }

  lemma UnboundRest(db: Db, r: Request, l: Id, row: License, env: Env)
    requires Sound(db) && Eligible(db, r, l, row, env) && NoKeyRow(db, r) && NoBinding(db, r, l)
    ensures db.codes[r.code].count >= db.codes[r.code].limit ==> Transact(db, r, env) == Err(ActivationLimit)
    ensures db.codes[r.code].count < db.codes[r.code].limit && |Devices(db, l)| >= row.deviceLimit ==>
              Transact(db, r, env) == Err(DeviceLimit)
    ensures HasRoom(db, r.code, l, row) && env.signed == None ==> Transact(db, r, env) == Err(Internal)
    ensures HasRoom(db, r.code, l, row) && env.signed != None && env.newActivation in db.acts ==>
              Transact(db, r, env) == Err(ActivationConflict)
    ensures MayInsert(db, r.code, l, row, env) ==>
              Transact(db, r, env) == Finish(Prepared(db, r, l, row, env, env.newActivation), env.newActivation, env)
  {
    KeylessRest(db, r, l, row, env);
    SameRows(db, Seen(db, r, l, row), r, l);
    NoRows(db, r, l);
    BindUnbound(Seen(db, r, l, row), r, l, env);
    if MayInsert(db, r.code, l, row, env) {
      PreparedNew(db, r, l, row, env);
    }
  }

  /** The new row as inserted. */
  function NewRow(r: Request, l: Id, env: Env): Activation
    requires env.signed.Some?
  {
    Activation(l, Sha256(r.machine), r.code, r.key, env.signed.value, false)
  }

  /** A device without a binding, by what stands in its way. */
  lemma BindUnbound(d: Db, r: Request, l: Id, env: Env)
    requires r.code in d.codes && l in d.licenses && Bound(d, l, Sha256(r.machine)) == {}
    requires r.key.Some? ==> Keyed(d, r.code, r.key.value) == {}
    ensures var full, crowded :=
            d.codes[r.code].count >= d.codes[r.code].limit, |ActiveByLicense(d, l)| >= d.licenses[l].deviceLimit;
            && (full ==> Bind(d, r, l, env) == Err(ActivationLimit))
            && (!full && crowded ==> Bind(d, r, l, env) == Err(DeviceLimit))
            && (!full && !crowded && env.signed.None? ==> Bind(d, r, l, env) == Err(Internal))
            && (!full && !crowded && env.signed.Some? && env.newActivation in d.acts ==>
                  Bind(d, r, l, env) == Err(ActivationConflict))
            && (!full && !crowded && env.signed.Some? && env.newActivation !in d.acts ==>
                  Bind(d, r, l, env)
                    == Finish(WithActivation(d, env.newActivation, NewRow(r, l, env)), env.newActivation, env))
  {
  }

  lemma PreparedNew(db: Db, r: Request, l: Id, row: License, env: Env)
    requires r.code in db.codes && env.newActivation !in db.acts && env.signed.Some?
    ensures r.code in Seen(db, r, l, row).codes
    ensures Prepared(db, r, l, row, env, env.newActivation)
            == WithActivation(Seen(db, r, l, row), env.newActivation, NewRow(r, l, env))
  {
  }

  // ---- the rules ----

  /** The request succeeds, for license l with terms row, through activation a. */
  ghost predicate Succeeds(db: Db, r: Request, env: Env, l: Id, row: License, a: Id) {
    && Eligible(db, r, l, row, env) && Serves(db, r, l, row, env, a)
    && InForce(row, env.clock) && env.newToken !in db.tokens
  }

  lemma ServedRest(db: Db, r: Request, l: Id, row: License, env: Env, a: Id)
    requires Sound(db) && Eligible(db, r, l, row, env) && Serves(db, r, l, row, env, a)
    ensures a !in db.acts ==> env.signed.Some?
    ensures var p := Prepared(db, r, l, row, env, a);
            && a in p.acts && p.acts[a].unbound == false && p.acts[a].license == l && l in p.licenses
            && p.licenses[l] == row
            && p.acts[a].device == Sha256(r.machine) && p.tokens == db.tokens
            && Transact(db, r, env) == Finish(p, a, env)
  {
    if HasKey(db, r, a) {
      KeyedRest(db, r, l, row, env, a);
    } else if BoundTo(db, r, l, a) {
      BoundRest(db, r, l, row, env, a);
    } else {
      UnboundRest(db, r, l, row, env);
    }
  }

  /**
   * What a successful request leaves: one live token for the row it is served by, that row bound
   * to its license and device, and, for a new row only, its code counted up by one. Nothing else
   * changes but the license made and linked on first use.
   */
  lemma ActivatedResult(db: Db, r: Request, env: Env, l: Id, row: License, a: Id)
    requires Sound(db) && Succeeds(db, r, env, l, row, a)
    ensures Transact(db, r, env).Ok?
    ensures var (d, x) := Transact(db, r, env).value;
            && a in d.acts && d.acts[a].unbound == false && d.acts[a].license == l
            && d.acts[a].device == Sha256(r.machine)
            && x == Activated(d.acts[a].blob, env.newToken)
            && d.tokens == db.tokens[env.newToken := Token(a, env.tokenExpires, false)]
            && d.licenses == db.licenses[l := row] && d.devices == db.devices + {Sha256(r.machine)}
            && d.products == db.products && d.outbox == db.outbox
            && (a in db.acts ==>
                  d.acts == db.acts && d.codes == db.codes[r.code := db.codes[r.code].(license := Some(l))])
            && (a !in db.acts ==>
                  && env.signed.Some?
                  && d.acts == db.acts[a := Activation(l, Sha256(r.machine), r.code, r.key, env.signed.value, false)]
                  && d.codes == db.codes[r.code :=
                        db.codes[r.code].(license := Some(l), count := db.codes[r.code].count + 1)])
  {
    ServedRest(db, r, l, row, env, a);
    var p := Prepared(db, r, l, row, env, a);
    FinishTests(p, a, env);
    PreparedFields(db, r, l, row, env, a);
    assert Transact(db, r, env).value.0 == p.(tokens := db.tokens[env.newToken := Token(a, env.tokenExpires, false)]);
  }

  lemma PreparedFields(db: Db, r: Request, l: Id, row: License, env: Env, a: Id)
    requires r.code in db.codes && (a !in db.acts ==> env.signed.Some?)
    ensures var p := Prepared(db, r, l, row, env, a);
            && p.licenses == db.licenses[l := row] && p.devices == db.devices + {Sha256(r.machine)}
            && p.products == db.products && p.outbox == db.outbox && p.tokens == db.tokens
            && (a in db.acts ==>
                  p.acts == db.acts && p.codes == db.codes[r.code := db.codes[r.code].(license := Some(l))])
            && (a !in db.acts ==>
                  && p.acts == db.acts[a := NewRow(r, l, env)]
                  && p.codes == db.codes[r.code :=
                        db.codes[r.code].(license := Some(l), count := db.codes[r.code].count + 1)])
  {
  }

  /** A request that fails before any license is looked at. */
  lemma EarlyRefusals(db: Db, r: Request, env: Env)
    ensures !Formed(r) ==> Transact(db, r, env) == Err(InvalidActivation)
    ensures Formed(r) && !env.admitted ==> Transact(db, r, env) == Err(RateLimited)
    ensures Formed(r) && env.admitted && !CodeOpen(db, r.code, env.now) ==> Transact(db, r, env) == Err(InvalidCode)
    ensures Formed(r) && env.admitted && CodeOpen(db, r.code, env.now)
            && db.products[db.codes[r.code].product] != r.product ==>
              Transact(db, r, env) == Err(ProductMismatch)
    ensures Addressed(db, r, env) && db.codes[r.code].license == None && env.newLicense in db.licenses ==>
              Transact(db, r, env) == Err(Internal)
  {
    CodeTests(db, r.code, env.now);
  }

  /** A well-formed, admitted request with an open code of the product it names. */
  predicate Addressed(db: Db, r: Request, env: Env) {
    Formed(r) && env.admitted && CodeOpen(db, r.code, env.now) && db.products[db.codes[r.code].product] == r.product
  }

  /** A request whose license is not in force when it begins. */
  lemma LicenseRefusals(db: Db, r: Request, env: Env, l: Id, row: License)
    requires Sound(db) && Addressed(db, r, env) && LeadsTo(db, r.code, env, l, row)
    ensures row.status != Live ==> Transact(db, r, env) == Err(LicenseRevokedError)
    ensures row.status == Live && env.now < row.notBefore ==> Transact(db, r, env) == Err(NotYetValid)
    ensures row.status == Live && row.notBefore <= env.now && !Ahead(row.expires, env.now) ==>
              Transact(db, r, env) == Err(LicenseExpired)
    ensures InForce(row, env.now) ==> Eligible(db, r, l, row, env)
  {
    CodeTests(db, r.code, env.now);
    LinkTests(db, r.code, env, l, row);
    LicenseTests(row, env.now);
  }

  /** An eligible request that no row can serve. */
  lemma RowRefusals(db: Db, r: Request, env: Env, l: Id, row: License, a: Id)
    requires Sound(db) && Eligible(db, r, l, row, env)
    ensures HasKey(db, r, a) && db.acts[a].device != Sha256(r.machine) ==>
              Transact(db, r, env) == Err(IdempotencyMismatch)
    ensures HasKey(db, r, a) && db.acts[a].device == Sha256(r.machine) && db.acts[a].unbound ==>
              Transact(db, r, env) == Err(ActivationInactive)
    ensures NoKeyRow(db, r) && NoBinding(db, r, l) ==>
              && (db.codes[r.code].count >= db.codes[r.code].limit ==> Transact(db, r, env) == Err(ActivationLimit))
              && (db.codes[r.code].count < db.codes[r.code].limit && |Devices(db, l)| >= row.deviceLimit ==>
                    Transact(db, r, env) == Err(DeviceLimit))
              && (HasRoom(db, r.code, l, row) && env.signed == None ==> Transact(db, r, env) == Err(Internal))
              && (HasRoom(db, r.code, l, row) && env.signed != None && env.newActivation in db.acts ==>
                    Transact(db, r, env) == Err(ActivationConflict))
  {
    if HasKey(db, r, a) {
      KeyedRest(db, r, l, row, env, a);
    }
    if NoKeyRow(db, r) && NoBinding(db, r, l) {
      UnboundRest(db, r, l, row, env);
    }
  }

  /**
   * A request whose row is found, but whose license is no longer in force on the wall clock, or
   * whose token id is taken.
   */
  lemma FinalRefusals(db: Db, r: Request, env: Env, l: Id, row: License, a: Id)
    requires Sound(db) && Eligible(db, r, l, row, env) && Serves(db, r, l, row, env, a)
    ensures env.clock < row.notBefore ==> Transact(db, r, env) == Err(NotYetValid)
    ensures row.notBefore <= env.clock && !Ahead(row.expires, env.clock) ==> Transact(db, r, env) == Err(LicenseExpired)
    ensures InForce(row, env.clock) && env.newToken in db.tokens ==> Transact(db, r, env) == Err(Internal)
  {
    ServedRest(db, r, l, row, env, a);
    FinishTests(Prepared(db, r, l, row, env, a), a, env);
  }

  /** Either some row serves an eligible request, or one of the conditions on rows refuses it. */
  lemma ServedOrRefused(db: Db, r: Request, env: Env, l: Id, row: License) returns (a: Id)
    requires Sound(db) && Eligible(db, r, l, row, env)
    ensures Serves(db, r, l, row, env, a) || Transact(db, r, env).Err?
  {
    a := env.newActivation;
    if !NoKeyRow(db, r) {
      a :| a in db.acts && HasKey(db, r, a);
    } else if !NoBinding(db, r, l) {
      a :| a in db.acts && BoundTo(db, r, l, a);
    }
    RowRefusals(db, r, env, l, row, a);
  }

  /** A request succeeds if and only if there is a license in force, at both clocks, and a row to serve it. */
  lemma ActivatedIff(db: Db, r: Request, env: Env)
    requires Sound(db)
    ensures Transact(db, r, env).Ok? <==> exists l, row, a :: Succeeds(db, r, env, l, row, a)
  {
    if l, row, a :| Succeeds(db, r, env, l, row, a) {
      ActivatedResult(db, r, env, l, row, a);
    }
    if Transact(db, r, env).Ok? {
      EarlyRefusals(db, r, env);
      var l, row := LicenseOf(db, r.code, env);
      LicenseRefusals(db, r, env, l, row);
      var a := ServedOrRefused(db, r, env, l, row);
      FinalRefusals(db, r, env, l, row, a);
      assert Succeeds(db, r, env, l, row, a);
    }
  }

  lemma LicenseOf(db: Db, c: CodeHash, env: Env) returns (l: Id, row: License)
    requires Sound(db) && c in db.codes && (db.codes[c].license == None ==> env.newLicense !in db.licenses)
    ensures LeadsTo(db, c, env, l, row)
  {
    if db.codes[c].license.Some? {
      l := db.codes[c].license.value;
      row := db.licenses[l];
    } else {
      l, row := env.newLicense, License(db.codes[c].product, None, Live, env.now, None, db.codes[c].limit);
    }
  }
}
