/**
 * The activation ledger: codes, licenses, devices, activations and tokens, and the handlers
 * that change them. Each handler is one transaction: it commits as a whole or, on any error,
 * leaves the tables as they were. Codes are named by their hash and devices by their machine
 * digest, which the tables hold unique.
 */
module Ledger {
  import opened Bytes
  import opened Sets
  import opened Crypto

  type Id = nat
  type CodeHash = Bytes

  datatype LicenseStatus = Live | Revoked

  datatype Code = Code(product: Id, license: Option<Id>, limit: nat, count: int, expires: Option<int>, disabled: bool)
  datatype License = License(product: Id, user: Option<Id>, status: LicenseStatus, notBefore: int,
      expires: Option<int>, deviceLimit: nat)
  datatype Activation = Activation(license: Id, device: Digest, code: CodeHash, key: Option<Bytes>, blob: Bytes,
      unbound: bool)
  datatype Token = Token(activation: Id, expires: int, revoked: bool)
  datatype Topic = LicenseUpdated | LicenseRevoked | DeviceUnbound | FeaturesChanged
  datatype Event = Event(topic: Topic, activation: Id)

  datatype Db = Db(
    products: map<Id, Bytes>, codes: map<CodeHash, Code>, licenses: map<Id, License>, devices: set<Digest>,
    acts: map<Id, Activation>, tokens: map<Id, Token>, outbox: seq<Event>)

  datatype Error = InvalidActivation | RateLimited | InvalidCode | ProductMismatch | LicenseRevokedError | NotYetValid
                 | LicenseExpired | IdempotencyMismatch | ActivationInactive | ActivationLimit | DeviceLimit
                 | ActivationConflict | NotFound | BadRequest | Internal

  datatype Result<+T> = Ok(value: T) | Err(error: Error)

  /** The license blob and the id of the token issued with it. */
  datatype Activated = Activated(blob: Bytes, token: Id)

  datatype Request = Request(version: nat, product: Bytes, code: CodeHash, machine: Bytes, key: Option<Bytes>)

  /** Limiter verdict, the transaction's and the wall clock, the drawn ids, and the blob if signing succeeded. */
  datatype Env = Env(admitted: bool, now: int, clock: int, newLicense: Id, newActivation: Id, newToken: Id,
      tokenExpires: int, signed: Option<Bytes>)

  // ---- queries ----

  type Rows = map<Id, Activation>

  function RowsOfCode(acts: Rows, c: CodeHash): set<Id> {
    set a | a in acts && !acts[a].unbound && acts[a].code == c
  }

  function RowsOfLicense(acts: Rows, l: Id): set<Id> {
    set a | a in acts && !acts[a].unbound && acts[a].license == l
  }

  function ActiveByCode(db: Db, c: CodeHash): set<Id> { RowsOfCode(db.acts, c) }

  function ActiveByLicense(db: Db, l: Id): set<Id> { RowsOfLicense(db.acts, l) }

  /** The rows of an idempotency key; at most one by the unique index. */
  function Keyed(db: Db, c: CodeHash, key: Bytes): set<Id> {
    set a | a in db.acts && db.acts[a].code == c && db.acts[a].key == Some(key)
  }

  /** The active rows of a license on a device; at most one by the partial unique index. */
  function Bound(db: Db, l: Id, device: Digest): set<Id> {
    set a | a in db.acts && !db.acts[a].unbound && db.acts[a].license == l && db.acts[a].device == device
  }

  /** The active rows an owner can unbind from a device. */
  function Matching(db: Db, user: Id, device: Digest): set<Id> {
    set a | a in db.acts && !db.acts[a].unbound && db.acts[a].device == device
            && db.acts[a].license in db.licenses && db.licenses[db.acts[a].license].user == Some(user)
  }

  predicate WellFormed(r: Request) {
    && r.version == 1 && 0 < |r.machine| <= 1024
    && (r.key.Some? ==> 0 < |r.key.value| <= 200)
  }

  predicate CodeUsable(db: Db, c: CodeHash, now: int) {
    && c in db.codes && db.codes[c].product in db.products && !db.codes[c].disabled
    && (db.codes[c].expires.Some? ==> db.codes[c].expires.value > now)
  }

  /** validate_license_state. */
  function LicenseRefusal(l: License, now: int): Option<Error> {
    if l.status != Live then Some(LicenseRevokedError)
    else if l.notBefore > now then Some(NotYetValid)
    else if l.expires.Some? && l.expires.value <= now then Some(LicenseExpired)
    else None
  }

  // ---- activate ----

  /** The license a code activates, created and linked on first use. */
  function Linked(db: Db, c: CodeHash, env: Env): Result<(Db, Id)>
    requires c in db.codes
  {
    var code := db.codes[c];
    if code.license.Some? then Ok((db, code.license.value))
    else if env.newLicense in db.licenses then Err(Internal)
    else
      var l := License(code.product, None, Live, env.now, None, code.limit);
      Ok((db.(licenses := db.licenses[env.newLicense := l],
        codes := db.codes[c := code.(license := Some(env.newLicense))]), env.newLicense))
  }

  /** finish_activation: recheck, then issue one token. */
  function Finish(db: Db, a: Id, env: Env): Result<(Db, Activated)>
    requires a in db.acts
  {
    var act := db.acts[a];
    if act.license !in db.licenses then Err(Internal)
    else if act.unbound then Err(ActivationInactive)
    else
      var refusal := LicenseRefusal(db.licenses[act.license], env.clock);
      if refusal.Some? then Err(refusal.value)
      else if env.newToken in db.tokens then Err(Internal)
      else Ok((db.(tokens := db.tokens[env.newToken := Token(a, env.tokenExpires, false)]),
        Activated(act.blob, env.newToken)))
  }

  /** Any of the unique indexes on activations: its primary key, the active binding, the idempotency key. */
  predicate ViolatesUnique(db: Db, r: Request, l: Id, env: Env) {
    || env.newActivation in db.acts
    || Bound(db, l, Sha256(r.machine)) != {}
    || (r.key.Some? && Keyed(db, r.code, r.key.value) != {})
  }

  /** The insert of a new activation and the increment of its code, with the constraints of the tables. */
  function Insert(db: Db, r: Request, l: Id, env: Env): Result<Db>
    requires r.code in db.codes
  {
    if env.signed.None? then Err(Internal)
    else if ViolatesUnique(db, r, l, env) then Err(ActivationConflict)
    else if db.codes[r.code].count + 1 > db.codes[r.code].limit then Err(Internal)
    else
      Ok(WithActivation(db, env.newActivation,
        Activation(l, Sha256(r.machine), r.code, r.key, env.signed.value, false)))
  }

  /** A new row, counted by its code. */
  function WithActivation(db: Db, n: Id, act: Activation): Db
    requires act.code in db.codes
  {
    db.(acts := db.acts[n := act],
      codes := db.codes[act.code := db.codes[act.code].(count := db.codes[act.code].count + 1)])
  }

  /** After the device row is in place: the existing binding, or a new one within both limits. */
  ghost function Bind(db: Db, r: Request, l: Id, env: Env): Result<(Db, Activated)>
    requires r.code in db.codes && l in db.licenses
  {
    var existing := Bound(db, l, Sha256(r.machine));
    if existing != {} then
      var a :| a in existing;
      Finish(db, a, env)
    else if db.codes[r.code].count >= db.codes[r.code].limit then Err(ActivationLimit)
    else if |ActiveByLicense(db, l)| >= db.licenses[l].deviceLimit then Err(DeviceLimit)
    else
      match Insert(db, r, l, env)
      case Err(e) => Err(e)
      case Ok(d) => Finish(d, env.newActivation, env)
  }

  /** With the license in hand: a replay of the idempotency key, or a binding. */
  ghost function Redeem(db: Db, r: Request, l: Id, env: Env): Result<(Db, Activated)>
    requires r.code in db.codes && l in db.licenses
  {
    if r.key.Some? && Keyed(db, r.code, r.key.value) != {} then
      var a :| a in Keyed(db, r.code, r.key.value);
      if db.acts[a].device != Sha256(r.machine) then Err(IdempotencyMismatch)
      else if db.acts[a].unbound then Err(ActivationInactive)
      else Finish(db, a, env)
    else Bind(db.(devices := db.devices + {Sha256(r.machine)}), r, l, env)
  }

  /** The whole transaction, up to its commit. */
  ghost function Transact(db: Db, r: Request, env: Env): Result<(Db, Activated)> {
    if !WellFormed(r) then Err(InvalidActivation)
    else if !env.admitted then Err(RateLimited)
    else if !CodeUsable(db, r.code, env.now) then Err(InvalidCode)
    else if db.products[db.codes[r.code].product] != r.product then Err(ProductMismatch)
    else
      match Linked(db, r.code, env)
      case Err(e) => Err(e)
      case Ok((d, l)) =>
        if l !in d.licenses then Err(Internal)
        else if d.licenses[l].product != db.codes[r.code].product then Err(ProductMismatch)
        else if LicenseRefusal(d.licenses[l], env.now).Some? then Err(LicenseRefusal(d.licenses[l], env.now).value)
        else Redeem(d, r, l, env)
  }

  /** The committed effect: all of it, or none. */
  ghost function AfterActivate(db: Db, r: Request, env: Env): Db {
    match Transact(db, r, env) case Ok((d, _)) => d case Err(_) => db
  }

  // ---- unbind ----

  /** Rows of the set that were activated with code c. */
  function OfCode(db: Db, rows: set<Id>, c: CodeHash): set<Id> {
    set a | a in rows && a in db.acts && db.acts[a].code == c
  }

  function UnboundEvents(order: seq<Id>): seq<Event> {
    seq(|order|, i requires 0 <= i < |order| => Event(DeviceUnbound, order[i]))
  }

  /** Unbinding a set of rows: marked, their tokens revoked, each code's count lowered by its rows. */
  function UnbindRows(db: Db, rows: set<Id>, order: seq<Id>): Db {
    db.(acts := map a | a in db.acts :: if a in rows then db.acts[a].(unbound := true) else db.acts[a],
        tokens := map t | t in db.tokens ::
          if db.tokens[t].activation in rows then db.tokens[t].(revoked := true) else db.tokens[t],
        codes := map c | c in db.codes :: db.codes[c].(count := db.codes[c].count - |OfCode(db, rows, c)|),
        outbox := db.outbox + UnboundEvents(order))
  }

  ghost predicate Lists(order: seq<Id>, rows: set<Id>) {
    (forall a :: a in order <==> a in rows) && forall i, j :: 0 <= i < j < |order| ==> order[i] != order[j]
  }

  // ---- administration ----

  function CreateCodes(db: Db, product: Id, license: Option<Id>, limit: nat, expires: Option<int>,
      hashes: seq<CodeHash>): Result<Db> {
    if |hashes| == 0 || |hashes| > 100 || !(1 <= limit <= 10000) then Err(BadRequest)
    else if license.Some?
      && (license.value !in db.licenses || db.licenses[license.value].product != product) then Err(ProductMismatch)
    else if product !in db.products || (exists i :: 0 <= i < |hashes| && hashes[i] in db.codes)
            || (exists i, j :: 0 <= i < j < |hashes| && hashes[i] == hashes[j]) then Err(Internal)
    else Ok(db.(codes := map c | c in db.codes.Keys + (set h | h in hashes) ::
      if c in db.codes then db.codes[c] else Code(product, license, limit, 0, expires, false)))
  }

  datatype LicenseKind = TrialKind | SubscriptionKind | PermanentKind | UnknownKind

  /** A permanent license has no expiry; any other has one that is still to come. */
  predicate ExpiryAllowed(kind: LicenseKind, expires: Option<int>, clock: int) {
    if kind == PermanentKind then expires.None? else expires.Some? && expires.value > clock
  }

  /** now is the transaction's clock, the default of not_before; clock is the handler's. */
  function CreateLicense(db: Db, id: Id, kind: LicenseKind, l: License, now: int, clock: int): Result<Db> {
    if kind == UnknownKind || !(1 <= l.deviceLimit <= 10000)
      || !ExpiryAllowed(kind, l.expires, clock) then Err(BadRequest)
    else if id in db.licenses || l.product !in db.products
      || (l.expires.Some? && l.expires.value <= now) then Err(Internal)
    else Ok(db.(licenses := db.licenses[id := l.(status := Live, notBefore := now)]))
  }

  /** A status change queues one event for each active row of the license, in the order given. */
  function UpdateLicense(db: Db, id: Id, status: LicenseStatus, order: seq<Id>): Db {
    var topic := if status == Revoked then LicenseRevoked else LicenseUpdated;
    db.(licenses := if id in db.licenses then db.licenses[id := db.licenses[id].(status := status)] else db.licenses,
        outbox := db.outbox + seq(|order|, i requires 0 <= i < |order| => Event(topic, order[i])))
  }

  // ---- the invariant of committed states ----

  predicate CodesOk(db: Db) {
    forall c :: c in db.codes ==>
      && db.codes[c].product in db.products
      && db.codes[c].count == |ActiveByCode(db, c)| <= db.codes[c].limit
      && (db.codes[c].license.Some? ==> db.codes[c].license.value in db.licenses
                                        && db.licenses[db.codes[c].license.value].product == db.codes[c].product)
  }

  predicate ActsOk(db: Db) {
    forall a :: a in db.acts ==>
      db.acts[a].code in db.codes && db.codes[db.acts[a].code].license == Some(db.acts[a].license)
                                 && db.acts[a].device in db.devices
  }

  predicate LicensesOk(db: Db) {
    forall l :: l in db.licenses ==> |ActiveByLicense(db, l)| <= db.licenses[l].deviceLimit
  }

  predicate BindingsUnique(db: Db) {
    forall a, b ::
      (a in db.acts && b in db.acts && !db.acts[a].unbound && !db.acts[b].unbound
       && db.acts[a].license == db.acts[b].license && db.acts[a].device == db.acts[b].device)
      ==> a == b
  }

  predicate KeysUnique(db: Db) {
    forall a, b ::
      (a in db.acts && b in db.acts && db.acts[a].code == db.acts[b].code
       && db.acts[a].key == db.acts[b].key && db.acts[a].key.Some?)
      ==> a == b
  }

  predicate TokensOk(db: Db) {
    forall t :: t in db.tokens ==> db.tokens[t].activation in db.acts
                                   && (db.acts[db.tokens[t].activation].unbound ==> db.tokens[t].revoked)
  }

  predicate Sound(db: Db) {
    CodesOk(db) && ActsOk(db) && LicensesOk(db) && BindingsUnique(db) && KeysUnique(db) && TokensOk(db)
  }

  /** Queries over the activations depend on nothing else. */
  lemma SameActs(db: Db, d: Db)
    requires d.acts == db.acts
    ensures forall c :: ActiveByCode(d, c) == ActiveByCode(db, c)
    ensures forall l :: ActiveByLicense(d, l) == ActiveByLicense(db, l)
  {
  }

  // ---- activate keeps it ----

  /** Rows belong to licenses that exist. */
  lemma FreshLicenseUnused(db: Db, l: Id)
    requires CodesOk(db) && ActsOk(db) && l !in db.licenses
    ensures ActiveByLicense(db, l) == {}
  {
    forall a | a in db.acts ensures db.acts[a].license != l {
      assert db.codes[db.acts[a].code].license == Some(db.acts[a].license);
    }
  }

  lemma LinkActs(db: Db, d: Db, c: CodeHash)
    requires ActsOk(db) && d.acts == db.acts && d.devices == db.devices
    requires c in db.codes && db.codes[c].license.None?
    requires forall k :: k in db.codes ==> k in d.codes && (k != c ==> d.codes[k] == db.codes[k])
    ensures ActsOk(d)
  {
    forall a | a in d.acts
      ensures d.acts[a].code in d.codes && d.codes[d.acts[a].code].license == Some(d.acts[a].license)
    {
      assert db.codes[db.acts[a].code].license == Some(db.acts[a].license);
    }
  }

  lemma LinkKeeps(db: Db, c: CodeHash, env: Env)
    requires Sound(db) && c in db.codes && Linked(db, c, env).Ok?
    ensures Sound(Linked(db, c, env).value.0)
    ensures var (d, l) := Linked(db, c, env).value; c in d.codes && d.codes[c].license == Some(l) && l in d.licenses
  {
    var (d, l) := Linked(db, c, env).value;
    if db.codes[c].license.None? {
      SameActs(db, d);
      FreshLicenseUnused(db, l);
      LinkActs(db, d, c);
    }
  }

  /**
   * Activations and codes untouched, licenses at most in status, devices only added: soundness is
   * then a matter of tokens.
   */
  lemma CarryOver(db: Db, d: Db)
    requires Sound(db) && d.acts == db.acts && d.codes == db.codes && d.products == db.products
             && db.devices <= d.devices
    requires d.licenses.Keys == db.licenses.Keys
    requires forall l :: l in db.licenses ==>
               d.licenses[l].product == db.licenses[l].product
                 && d.licenses[l].deviceLimit == db.licenses[l].deviceLimit
    requires TokensOk(d)
    ensures Sound(d)
  {
  }

  lemma FinishKeeps(db: Db, a: Id, env: Env)
    requires Sound(db) && a in db.acts && Finish(db, a, env).Ok?
    ensures Sound(Finish(db, a, env).value.0)
  {
    CarryOver(db, Finish(db, a, env).value.0);
  }

  lemma DeviceKeeps(db: Db, device: Digest)
    requires Sound(db)
    ensures Sound(db.(devices := db.devices + {device}))
  {
  }

  lemma NewRowByCode(acts: Rows, n: Id, act: Activation, k: CodeHash)
    requires n !in acts && !act.unbound
    ensures |RowsOfCode(acts[n := act], k)| == |RowsOfCode(acts, k)| + (if k == act.code then 1 else 0)
  {
    if k == act.code {
      assert RowsOfCode(acts[n := act], k) == RowsOfCode(acts, k) + {n};
    } else {
      assert RowsOfCode(acts[n := act], k) == RowsOfCode(acts, k);
    }
  }

  lemma NewRowByLicense(acts: Rows, n: Id, act: Activation, k: Id)
    requires n !in acts && !act.unbound
    ensures |RowsOfLicense(acts[n := act], k)| == |RowsOfLicense(acts, k)| + (if k == act.license then 1 else 0)
  {
    if k == act.license {
      assert RowsOfLicense(acts[n := act], k) == RowsOfLicense(acts, k) + {n};
    } else {
      assert RowsOfLicense(acts[n := act], k) == RowsOfLicense(acts, k);
    }
  }

  lemma NewRowCounted(db: Db, n: Id, act: Activation)
    requires CodesOk(db) && n !in db.acts && act.code in db.codes && !act.unbound
    requires db.codes[act.code].count < db.codes[act.code].limit
    ensures CodesOk(WithActivation(db, n, act))
  {
    forall k
      ensures |ActiveByCode(WithActivation(db, n, act), k)| == |ActiveByCode(db, k)| + (if k == act.code then 1 else 0)
    {
      NewRowByCode(db.acts, n, act, k);
    }
  }

  lemma NewRowWithinLicense(db: Db, n: Id, act: Activation)
    requires LicensesOk(db) && n !in db.acts && act.code in db.codes && !act.unbound
    requires act.license in db.licenses && |ActiveByLicense(db, act.license)| < db.licenses[act.license].deviceLimit
    ensures LicensesOk(WithActivation(db, n, act))
  {
    forall k
      ensures |ActiveByLicense(WithActivation(db, n, act), k)|
              == |ActiveByLicense(db, k)| + (if k == act.license then 1 else 0)
    {
      NewRowByLicense(db.acts, n, act, k);
    }
  }

  lemma NewRowUnique(db: Db, n: Id, act: Activation)
    requires BindingsUnique(db) && KeysUnique(db) && n !in db.acts && act.code in db.codes && !act.unbound
    requires Bound(db, act.license, act.device) == {} && (act.key.Some? ==> Keyed(db, act.code, act.key.value) == {})
    ensures BindingsUnique(WithActivation(db, n, act)) && KeysUnique(WithActivation(db, n, act))
  {
    assert forall a :: a in db.acts ==> a !in Bound(db, act.license, act.device);
    assert act.key.Some? ==> forall a :: a in db.acts ==> a !in Keyed(db, act.code, act.key.value);
  }

  lemma NewRowLinked(db: Db, n: Id, act: Activation)
    requires ActsOk(db) && TokensOk(db) && n !in db.acts && act.code in db.codes
    requires db.codes[act.code].license == Some(act.license) && act.device in db.devices
    ensures ActsOk(WithActivation(db, n, act)) && TokensOk(WithActivation(db, n, act))
  {
  }

  lemma InsertKeeps(db: Db, r: Request, l: Id, env: Env)
    requires Sound(db) && r.code in db.codes && l in db.licenses && db.codes[r.code].license == Some(l)
    requires Sha256(r.machine) in db.devices && |ActiveByLicense(db, l)| < db.licenses[l].deviceLimit
    requires Insert(db, r, l, env).Ok?
    ensures Sound(Insert(db, r, l, env).value)
  {
    var act := Activation(l, Sha256(r.machine), r.code, r.key, env.signed.value, false);
    NewRowCounted(db, env.newActivation, act);
    NewRowWithinLicense(db, env.newActivation, act);
    NewRowUnique(db, env.newActivation, act);
    NewRowLinked(db, env.newActivation, act);
    assert Insert(db, r, l, env).value == WithActivation(db, env.newActivation, act);
  }

  lemma BindKeeps(db: Db, r: Request, l: Id, env: Env)
    requires Sound(db) && r.code in db.codes && l in db.licenses && db.codes[r.code].license == Some(l)
             && Sha256(r.machine) in db.devices
    ensures Bind(db, r, l, env).Ok? ==> Sound(Bind(db, r, l, env).value.0)
  {
    if Bind(db, r, l, env).Ok? {
      var existing := Bound(db, l, Sha256(r.machine));
      if existing != {} {
        forall a | a in existing && Finish(db, a, env).Ok? ensures Sound(Finish(db, a, env).value.0) {
          FinishKeeps(db, a, env);
        }
      } else {
        InsertKeeps(db, r, l, env);
        FinishKeeps(Insert(db, r, l, env).value, env.newActivation, env);
      }
    }
  }

  /** A committed activation keeps the ledger sound; an error leaves it untouched. */
  lemma ActivateKeeps(db: Db, r: Request, env: Env)
    requires Sound(db)
    ensures Sound(AfterActivate(db, r, env))
    ensures Transact(db, r, env).Err? ==> AfterActivate(db, r, env) == db
  {
    if Transact(db, r, env).Ok? {
      LinkKeeps(db, r.code, env);
      var (d, l) := Linked(db, r.code, env).value;
      RedeemKeeps(d, r, l, env);
    }
  }

  lemma RedeemKeeps(db: Db, r: Request, l: Id, env: Env)
    requires Sound(db) && r.code in db.codes && l in db.licenses && db.codes[r.code].license == Some(l)
    ensures Redeem(db, r, l, env).Ok? ==> Sound(Redeem(db, r, l, env).value.0)
  {
    if r.key.Some? && Keyed(db, r.code, r.key.value) != {} {
      forall a | a in Keyed(db, r.code, r.key.value) && Finish(db, a, env).Ok?
        ensures Sound(Finish(db, a, env).value.0)
      {
        FinishKeeps(db, a, env);
      }
    } else {
      DeviceKeeps(db, Sha256(r.machine));
      BindKeeps(db.(devices := db.devices + {Sha256(r.machine)}), r, l, env);
    }
  }

  // ---- unbind and administration keep it ----

  lemma Partition(db: Db, rows: set<Id>, c: CodeHash)
    requires forall a :: a in rows ==> a in db.acts && !db.acts[a].unbound
    ensures |ActiveByCode(UnbindRows(db, rows, []), c)| == |ActiveByCode(db, c)| - |OfCode(db, rows, c)|
  {
    var d := UnbindRows(db, rows, []);
    assert ActiveByCode(db, c) == ActiveByCode(d, c) + OfCode(db, rows, c);
    assert ActiveByCode(d, c) !! OfCode(db, rows, c);
  }

  lemma UnbindCounts(db: Db, rows: set<Id>, order: seq<Id>)
    requires Sound(db) && forall a :: a in rows ==> a in db.acts && !db.acts[a].unbound
    ensures CodesOk(UnbindRows(db, rows, order)) && LicensesOk(UnbindRows(db, rows, order))
  {
    var d := UnbindRows(db, rows, order);
    forall c | c in d.codes ensures d.codes[c].count == |ActiveByCode(d, c)| <= d.codes[c].limit {
      Partition(db, rows, c);
      assert ActiveByCode(d, c) == ActiveByCode(UnbindRows(db, rows, []), c);
    }
    forall l | l in d.licenses ensures |ActiveByLicense(d, l)| <= d.licenses[l].deviceLimit {
      SubsetSize(ActiveByLicense(d, l), ActiveByLicense(db, l));
    }
  }

  /**
   * Unbinding any set of active rows keeps the ledger sound: counts fall with the rows and no token
   * of theirs stays alive.
   */
  lemma UnbindKeeps(db: Db, rows: set<Id>, order: seq<Id>)
    requires Sound(db) && forall a :: a in rows ==> a in db.acts && !db.acts[a].unbound
    ensures Sound(UnbindRows(db, rows, order))
    ensures forall t :: t in db.tokens && db.tokens[t].activation in rows ==>
              UnbindRows(db, rows, order).tokens[t].revoked
  {
    UnbindCounts(db, rows, order);
    UnbindLinks(db, rows, order);
    UnbindTokens(db, rows, order);
  }

  lemma UnbindLinks(db: Db, rows: set<Id>, order: seq<Id>)
    requires ActsOk(db) && BindingsUnique(db) && KeysUnique(db)
    ensures ActsOk(UnbindRows(db, rows, order)) && BindingsUnique(UnbindRows(db, rows, order))
            && KeysUnique(UnbindRows(db, rows, order))
  {
  }

  lemma UnbindTokens(db: Db, rows: set<Id>, order: seq<Id>)
    requires TokensOk(db)
    ensures TokensOk(UnbindRows(db, rows, order))
    ensures forall t :: t in db.tokens && db.tokens[t].activation in rows ==>
              UnbindRows(db, rows, order).tokens[t].revoked
  {
  }

  lemma CreateCodesKeeps(db: Db, product: Id, license: Option<Id>, limit: nat, expires: Option<int>,
      hashes: seq<CodeHash>)
    requires Sound(db) && CreateCodes(db, product, license, limit, expires, hashes).Ok?
    ensures Sound(CreateCodes(db, product, license, limit, expires, hashes).value)
  {
    var d := CreateCodes(db, product, license, limit, expires, hashes).value;
    forall c | c in d.codes ensures |ActiveByCode(d, c)| == d.codes[c].count {
      assert ActiveByCode(d, c) == ActiveByCode(db, c);
      if c !in db.codes {
        assert ActiveByCode(db, c) == {};
      }
    }
    forall l | l in d.licenses ensures ActiveByLicense(d, l) == ActiveByLicense(db, l) {
    }
  }

  lemma CreateLicenseKeeps(db: Db, id: Id, kind: LicenseKind, l: License, now: int, clock: int)
    requires Sound(db) && CreateLicense(db, id, kind, l, now, clock).Ok?
    ensures Sound(CreateLicense(db, id, kind, l, now, clock).value)
  {
    var d := CreateLicense(db, id, kind, l, now, clock).value;
    SameActs(db, d);
    assert ActiveByLicense(db, id) == {} by {
      forall a | a in db.acts ensures db.acts[a].license != id {
        assert db.codes[db.acts[a].code].license == Some(db.acts[a].license);
      }
    }
  }

  lemma UpdateLicenseKeeps(db: Db, id: Id, status: LicenseStatus, order: seq<Id>)
    requires Sound(db)
    ensures Sound(UpdateLicense(db, id, status, order))
  {
    CarryOver(db, UpdateLicense(db, id, status, order));
  }

  // ---- conservation ----

  /** The sum of the counts of a set of codes. */
  ghost function TotalCount(db: Db, cs: set<CodeHash>): int
    requires cs <= db.codes.Keys
  {
    if cs == {} then 0 else
    var c :| c in cs;
    db.codes[c].count + TotalCount(db, cs - {c})
  }

  function CodesOf(db: Db, l: Id): set<CodeHash> {
    set c | c in db.codes && db.codes[c].license == Some(l)
  }

  function ActiveByCodes(db: Db, cs: set<CodeHash>): set<Id> {
    set a | a in db.acts && !db.acts[a].unbound && db.acts[a].code in cs
  }

  lemma {:induction false} TotalIsActive(db: Db, cs: set<CodeHash>)
    requires CodesOk(db) && cs <= db.codes.Keys
    ensures TotalCount(db, cs) == |ActiveByCodes(db, cs)|
  {
    if cs == {} {
      assert ActiveByCodes(db, cs) == {};
    } else {
      var c :| c in cs && TotalCount(db, cs) == db.codes[c].count + TotalCount(db, cs - {c});
      TotalIsActive(db, cs - {c});
      assert ActiveByCodes(db, cs) == ActiveByCodes(db, cs - {c}) + ActiveByCode(db, c);
      assert ActiveByCodes(db, cs - {c}) !! ActiveByCode(db, c);
    }
  }

  /** Conservation: a license's codes together count exactly its active devices, and never more than its limit. */
  lemma Conservation(db: Db, l: Id)
    requires Sound(db) && l in db.licenses
    ensures CodesOf(db, l) <= db.codes.Keys
    ensures TotalCount(db, CodesOf(db, l)) == |ActiveByLicense(db, l)| <= db.licenses[l].deviceLimit
  {
    assert ActiveByCodes(db, CodesOf(db, l)) == ActiveByLicense(db, l) by {
      forall a | a in db.acts ensures db.acts[a].code in CodesOf(db, l) <==> db.acts[a].license == l {
        assert db.codes[db.acts[a].code].license == Some(db.acts[a].license);
      }
    }
    TotalIsActive(db, CodesOf(db, l));
  }
}
