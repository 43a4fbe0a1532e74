/**
 * Activation and unbinding as transactions that interleave statement by statement. A statement
 * reads committed rows, takes row locks and keeps them until its transaction ends; writes are
 * private until the commit. The atomic handlers of the ledger are what such a run amounts to.
 */
module Transactions {
  import opened Bytes
  import opened Sets
  import opened Crypto
  import opened Ledger
  import opened LedgerLaws
  import opened LedgerStore

  datatype Lock = OnCode(code: CodeHash) | OnLicense(license: Id) | OnRow(row: Id)

  /** The code and license rows an activation holds; made says that it inserted the license itself. */
  datatype Grip = Grip(code: Code, license: Id, made: bool, terms: License)

  datatype Reached =
    | Validated
    | NoKey
    | KeyRow(keyed: Id)
    | BoundRow(bound: Id)
    | NoBinding
    | Room
    | Inserted

  /** How far an activation has come, with what it has read. */
  datatype Stage =
    | Begun
    | Coded(code: Code)
    | Joined(joined: Code, license: Id, made: bool)
    | Held(grip: Grip, reached: Reached)

  datatype Progress = Onward(stage: Stage) | Answer(error: Error) | Done(db: Db, activated: Activated)

  // ---- the statements of activate ----

  function NewTerms(code: Code, env: Env): License {
    License(code.product, None, Live, env.now, None, code.limit)
  }

  function FromBegun(db: Db, r: Request, env: Env): Progress {
    if !WellFormed(r) then Answer(InvalidActivation)
    else if !env.admitted then Answer(RateLimited)
    else if !CodeUsable(db, r.code, env.now) then Answer(InvalidCode)
    else if db.products[db.codes[r.code].product] != r.product then Answer(ProductMismatch)
    else Onward(Coded(db.codes[r.code]))
  }

  function FromCoded(db: Db, env: Env, code: Code): Progress {
    if code.license.Some? then Onward(Joined(code, code.license.value, false))
    else if env.newLicense in db.licenses then Answer(Internal)
    else Onward(Joined(code, env.newLicense, true))
  }

  function FromJoined(db: Db, env: Env, code: Code, l: Id, made: bool): Progress {
    if !made && l !in db.licenses then Answer(Internal) else
    var terms := if made then NewTerms(code, env) else db.licenses[l];
    if terms.product != code.product then Answer(ProductMismatch)
    else if LicenseRefusal(terms, env.now).Some? then Answer(LicenseRefusal(terms, env.now).value)
    else Onward(Held(Grip(code, l, made, terms), Validated))
  }

  ghost function FromValidated(db: Db, r: Request, g: Grip): Progress {
    if r.key.Some? && Keyed(db, r.code, r.key.value) != {} then
      var a :| a in Keyed(db, r.code, r.key.value);
      if db.acts[a].device != Sha256(r.machine) then Answer(IdempotencyMismatch)
      else if db.acts[a].unbound then Answer(ActivationInactive)
      else Onward(Held(g, KeyRow(a)))
    else Onward(Held(g, NoKey))
  }

  ghost function FromNoKey(db: Db, r: Request, g: Grip): Progress {
    if Bound(db, g.license, Sha256(r.machine)) != {} then
      var a :| a in Bound(db, g.license, Sha256(r.machine));
      Onward(Held(g, BoundRow(a)))
    else if g.code.count >= g.code.limit then Answer(ActivationLimit)
    else Onward(Held(g, NoBinding))
  }

  function FromNoBinding(db: Db, g: Grip): Progress {
    if |ActiveByLicense(db, g.license)| >= g.terms.deviceLimit then Answer(DeviceLimit) else Onward(Held(g, Room))
  }

  function FromRoom(db: Db, r: Request, env: Env, g: Grip): Progress {
    if env.signed.None? then Answer(Internal)
    else if ViolatesUnique(db, r, g.license, env) then Answer(ActivationConflict)
    else Onward(Held(g, Inserted))
  }

  /** The committed rows with the transaction's own license and link. */
  function Base(db: Db, r: Request, g: Grip): Db {
    if g.made then db.(licenses := db.licenses[g.license := g.terms],
      codes := db.codes[r.code := g.code.(license := Some(g.license))]) else db
  }

  function Seen(db: Db, r: Request): Db { db.(devices := db.devices + {Sha256(r.machine)}) }

  /** finish_activation and the commit. */
  function Finishing(own: Db, a: Id, env: Env): Progress {
    if a !in own.acts then Answer(Internal) else
    match Finish(own, a, env)
    case Err(e) => Answer(e)
    case Ok((d, x)) => Done(d, x)
  }

  ghost function Advance(db: Db, r: Request, env: Env, stage: Stage): Progress {
    match stage
    case Begun => FromBegun(db, r, env)
    case Coded(code) => FromCoded(db, env, code)
    case Joined(code, l, made) => FromJoined(db, env, code, l, made)
    case Held(g, Validated) => FromValidated(db, r, g)
    case Held(g, NoKey) => FromNoKey(db, r, g)
    case Held(g, NoBinding) => FromNoBinding(db, g)
    case Held(g, Room) => FromRoom(db, r, env, g)
    case Held(g, KeyRow(a)) => Finishing(Base(db, r, g), a, env)
    case Held(g, BoundRow(a)) => Finishing(Seen(Base(db, r, g), r), a, env)
    case Held(g, Inserted) =>
      if r.code !in db.codes || env.signed.None? then Answer(Internal)
      else Finishing(WithActivation(Seen(Base(db, r, g), r), env.newActivation,
        Activation(g.license, Sha256(r.machine), r.code, r.key, env.signed.value, false)), env.newActivation, env)
  }

  // ---- what was read stays true ----

  predicate CodeFacts(db: Db, r: Request, env: Env, code: Code) {
    && WellFormed(r) && env.admitted && CodeUsable(db, r.code, env.now)
    && db.codes[r.code] == code && db.products[code.product] == r.product
  }

  predicate JoinFacts(db: Db, env: Env, code: Code, l: Id, made: bool) {
    if made then code.license.None? && l == env.newLicense && l !in db.licenses else code.license == Some(l)
  }

  predicate LicenseFacts(db: Db, env: Env, g: Grip) {
    && (if g.made then g.terms == NewTerms(g.code, env)
        else g.license in db.licenses && db.licenses[g.license] == g.terms)
    && g.terms.product == g.code.product && LicenseRefusal(g.terms, env.now).None?
  }

  predicate KeyFree(db: Db, r: Request) {
    r.key.Some? ==> Keyed(db, r.code, r.key.value) == {}
  }

  predicate Unbindable(db: Db, r: Request, g: Grip) {
    KeyFree(db, r) && Bound(db, g.license, Sha256(r.machine)) == {} && g.code.count < g.code.limit
  }

  predicate HasRoom(db: Db, r: Request, g: Grip) {
    Unbindable(db, r, g) && |ActiveByLicense(db, g.license)| < g.terms.deviceLimit
  }

  predicate ReachedFacts(db: Db, r: Request, env: Env, g: Grip, reached: Reached) {
    match reached
    case Validated => true
    case NoKey => KeyFree(db, r)
    case KeyRow(a) => r.key.Some? && a in Keyed(db, r.code, r.key.value) && !db.acts[a].unbound
      && db.acts[a].device == Sha256(r.machine)
    case BoundRow(a) => KeyFree(db, r) && a in Bound(db, g.license, Sha256(r.machine))
    case NoBinding => Unbindable(db, r, g)
    case Room => HasRoom(db, r, g)
    case Inserted => HasRoom(db, r, g) && env.signed.Some? && env.newActivation !in db.acts
  }

  predicate HeldFacts(db: Db, r: Request, env: Env, g: Grip) {
    CodeFacts(db, r, env, g.code) && JoinFacts(db, env, g.code, g.license, g.made) && LicenseFacts(db, env, g)
  }

  predicate Facts(db: Db, r: Request, env: Env, stage: Stage) {
    match stage
    case Begun => true
    case Coded(code) => CodeFacts(db, r, env, code)
    case Joined(code, l, made) => CodeFacts(db, r, env, code) && JoinFacts(db, env, code, l, made)
    case Held(g, reached) => HeldFacts(db, r, env, g) && ReachedFacts(db, r, env, g, reached)
  }

  /** The rows an activation keeps locked. */
  function StageLocks(r: Request, env: Env, stage: Stage): set<Lock> {
    match stage
    case Begun => {}
    case Coded(_) => {OnCode(r.code)}
    case Joined(_, l, made) => if made then {OnCode(r.code), OnLicense(l)} else {OnCode(r.code)}
    case Held(g, reached) =>
      {OnCode(r.code), OnLicense(g.license)}
      + (match reached case KeyRow(a) => {OnRow(a)} case BoundRow(a) => {OnRow(a)} case Inserted =>
        {OnRow(env.newActivation)} case _ => {})
  }

  // ---- each answer is the atomic handler's answer at that moment ----

  lemma CodedRest(db: Db, r: Request, env: Env, code: Code)
    requires CodeFacts(db, r, env, code)
    ensures Transact(db, r, env)
            == (match Linked(db, r.code, env)
                case Err(e) => Err(e)
                case Ok((d, l)) =>
                  if l !in d.licenses then Err(Internal)
                  else if d.licenses[l].product != code.product then Err(ProductMismatch)
                  else if LicenseRefusal(d.licenses[l], env.now).Some?
                    then Err(LicenseRefusal(d.licenses[l], env.now).value)
                  else Redeem(d, r, l, env))
  {
  }

  lemma JoinedRest(db: Db, r: Request, env: Env, code: Code, l: Id, made: bool)
    requires Sound(db) && CodeFacts(db, r, env, code) && JoinFacts(db, env, code, l, made)
    ensures made || l in db.licenses
    ensures var terms := if made then NewTerms(code, env) else db.licenses[l];
            Linked(db, r.code, env) == Ok((Base(db, r, Grip(code, l, made, terms)), l))
  {
  }

  lemma HeldRest(db: Db, r: Request, env: Env, g: Grip)
    requires Sound(db) && HeldFacts(db, r, env, g)
    ensures var base := Base(db, r, g);
            && r.code in base.codes && g.license in base.licenses && base.licenses[g.license] == g.terms
            && base.codes[r.code] == g.code.(license := base.codes[r.code].license)
            && base.acts == db.acts
            && Sound(base)
            && Transact(db, r, env) == Redeem(base, r, g.license, env)
  {
    JoinedRest(db, r, env, g.code, g.license, g.made);
    CodedRest(db, r, env, g.code);
    LinkKeeps(db, r.code, env);
  }

  /** What a statement's outcome says about the atomic handler run at that moment. */
  ghost predicate Agrees(db: Db, r: Request, env: Env, p: Progress) {
    match p
    case Onward(stage) => Facts(db, r, env, stage)
    case Answer(e) => Transact(db, r, env) == Err(e)
    case Done(d, x) => Transact(db, r, env) == Ok((d, x))
  }

  lemma EarlyAgrees(db: Db, r: Request, env: Env, stage: Stage)
    requires Sound(db) && Facts(db, r, env, stage) && !stage.Held?
    ensures Agrees(db, r, env, Advance(db, r, env, stage))
  {
  }

  lemma ValidatedAgrees(db: Db, r: Request, env: Env, g: Grip)
    requires Sound(db) && HeldFacts(db, r, env, g)
    ensures Agrees(db, r, env, FromValidated(db, r, g))
  {
  }

  /** With the key free, what remains is a binding on the own rows with the device in place. */
  lemma KeylessRest(db: Db, r: Request, env: Env, g: Grip)
    requires Sound(db) && HeldFacts(db, r, env, g) && KeyFree(db, r)
    ensures var own := Seen(Base(db, r, g), r);
            && r.code in own.codes && g.license in own.licenses && own.acts == db.acts
            && own.licenses[g.license] == g.terms && own.codes[r.code].count == g.code.count
            && own.codes[r.code].limit == g.code.limit
            && Transact(db, r, env) == Bind(own, r, g.license, env)
  {
  }

  lemma SameQueries(db: Db, d: Db)
    requires d.acts == db.acts
    ensures forall l, m :: Bound(d, l, m) == Bound(db, l, m)
    ensures forall c, k :: Keyed(d, c, k) == Keyed(db, c, k)
    ensures forall l :: ActiveByLicense(d, l) == ActiveByLicense(db, l)
  {
  }

  lemma NoKeyAgrees(db: Db, r: Request, env: Env, g: Grip)
    requires Sound(db) && HeldFacts(db, r, env, g) && KeyFree(db, r)
    ensures Agrees(db, r, env, FromNoKey(db, r, g))
  {
    KeylessRest(db, r, env, g);
    SameQueries(db, Seen(Base(db, r, g), r));
  }

  lemma NoBindingAgrees(db: Db, r: Request, env: Env, g: Grip)
    requires Sound(db) && HeldFacts(db, r, env, g) && Unbindable(db, r, g)
    ensures Agrees(db, r, env, FromNoBinding(db, g))
  {
    KeylessRest(db, r, env, g);
    SameQueries(db, Seen(Base(db, r, g), r));
  }

  /** With room under both limits, what remains is the insert and the finish. */
  lemma RoomRest(db: Db, r: Request, env: Env, g: Grip)
    requires Sound(db) && HeldFacts(db, r, env, g) && HasRoom(db, r, g)
    ensures var own := Seen(Base(db, r, g), r);
            && r.code in own.codes && own.acts == db.acts
            && Transact(db, r, env)
                  == (match Insert(own, r, g.license, env) case Err(e) => Err(e) case Ok(d) =>
                    Finish(d, env.newActivation, env))
            && own.codes[r.code].count + 1 <= own.codes[r.code].limit
  {
  }

  lemma RoomAgrees(db: Db, r: Request, env: Env, g: Grip)
    requires Sound(db) && HeldFacts(db, r, env, g) && HasRoom(db, r, g)
    ensures Agrees(db, r, env, FromRoom(db, r, env, g))
  {
    RoomRest(db, r, env, g);
    SameQueries(db, Seen(Base(db, r, g), r));
  }

  lemma KeyRowAgrees(db: Db, r: Request, env: Env, g: Grip, a: Id)
    requires Sound(db) && HeldFacts(db, r, env, g) && ReachedFacts(db, r, env, g, KeyRow(a))
    ensures Agrees(db, r, env, Finishing(Base(db, r, g), a, env))
  {
    HeldRest(db, r, env, g);
    KeyedSingleton(db, r.code, r.key.value, a);
    SameQueries(db, Base(db, r, g));
  }

  lemma BoundRowAgrees(db: Db, r: Request, env: Env, g: Grip, a: Id)
    requires Sound(db) && HeldFacts(db, r, env, g) && ReachedFacts(db, r, env, g, BoundRow(a))
    ensures Agrees(db, r, env, Finishing(Seen(Base(db, r, g), r), a, env))
  {
    KeylessRest(db, r, env, g);
    BoundSingleton(db, g.license, Sha256(r.machine), a);
    SameQueries(db, Seen(Base(db, r, g), r));
  }

  lemma InsertedAgrees(db: Db, r: Request, env: Env, g: Grip)
    requires Sound(db) && HeldFacts(db, r, env, g) && ReachedFacts(db, r, env, g, Inserted)
    ensures Agrees(db, r, env, Advance(db, r, env, Held(g, Inserted)))
  {
    RoomRest(db, r, env, g);
    SameQueries(db, Seen(Base(db, r, g), r));
  }

  /**
   * Every statement of an activation either reads further facts, or answers exactly what the
   * atomic handler would answer on the rows committed at that moment.
   */
  lemma AdvanceIsAtomic(db: Db, r: Request, env: Env, stage: Stage)
    requires Sound(db) && Facts(db, r, env, stage)
    ensures Agrees(db, r, env, Advance(db, r, env, stage))
  {
    match stage
    case Held(g, Validated) => ValidatedAgrees(db, r, env, g);
    case Held(g, NoKey) => NoKeyAgrees(db, r, env, g);
    case Held(g, NoBinding) => NoBindingAgrees(db, r, env, g);
    case Held(g, Room) => RoomAgrees(db, r, env, g);
    case Held(g, KeyRow(a)) => KeyRowAgrees(db, r, env, g, a);
    case Held(g, BoundRow(a)) => BoundRowAgrees(db, r, env, g, a);
    case Held(g, Inserted) => InsertedAgrees(db, r, env, g);
    case _ => EarlyAgrees(db, r, env, stage);
  }

  // ---- a commit changes only rows its transaction locks ----

  ghost predicate TouchesCodes(db: Db, d: Db, locks: set<Lock>) {
    && d.products == db.products
    && forall c :: c in db.codes ==> c in d.codes && (OnCode(c) in locks || d.codes[c] == db.codes[c])
  }

  ghost predicate TouchesLicenses(db: Db, d: Db, locks: set<Lock>) {
    && (forall l :: l in db.licenses ==>
          l in d.licenses && d.licenses[l].user == db.licenses[l].user
            && (OnLicense(l) in locks || d.licenses[l] == db.licenses[l]))
    && (forall l :: l in d.licenses ==> l in db.licenses || OnLicense(l) in locks)
  }

  /** A row may only be unbound, by whoever locks it; a new one needs its code and license locked as well. */
  ghost predicate TouchesRows(db: Db, d: Db, locks: set<Lock>) {
    && (forall a :: a in db.acts ==>
          && a in d.acts
          && (d.acts[a] == db.acts[a] || (OnRow(a) in locks && d.acts[a] == db.acts[a].(unbound := true))))
    && (forall a :: a in d.acts ==>
          a in db.acts
            || (OnRow(a) in locks && OnCode(d.acts[a].code) in locks && OnLicense(d.acts[a].license) in locks))
  }

  ghost predicate TouchesTokens(db: Db, d: Db, locks: set<Lock>) {
    && (forall t :: t in db.tokens ==> && t in d.tokens && d.tokens[t].activation == db.tokens[t].activation
                                       && (OnRow(db.tokens[t].activation) in locks || d.tokens[t] == db.tokens[t]))
    && (forall t :: t in d.tokens ==> t in db.tokens || OnRow(d.tokens[t].activation) in locks)
  }

  ghost predicate Touches(db: Db, d: Db, locks: set<Lock>) {
    TouchesCodes(db, d, locks) && TouchesLicenses(db, d, locks) && TouchesRows(db, d, locks)
      && TouchesTokens(db, d, locks)
  }

  // ---- so what others have read stays true ----

  lemma CodeFactsStable(db: Db, d: Db, locks: set<Lock>, r: Request, env: Env, code: Code)
    requires CodeFacts(db, r, env, code) && TouchesCodes(db, d, locks) && OnCode(r.code) !in locks
    ensures CodeFacts(d, r, env, code)
  {
  }

  lemma LicenseFactsStable(db: Db, d: Db, locks: set<Lock>, env: Env, g: Grip)
    requires JoinFacts(db, env, g.code, g.license, g.made) && LicenseFacts(db, env, g)
             && TouchesLicenses(db, d, locks) && OnLicense(g.license) !in locks
    ensures JoinFacts(d, env, g.code, g.license, g.made) && LicenseFacts(d, env, g)
  {
  }

  lemma KeyFreeStable(db: Db, d: Db, locks: set<Lock>, r: Request)
    requires KeyFree(db, r) && TouchesRows(db, d, locks) && OnCode(r.code) !in locks
    ensures KeyFree(d, r)
  {
  }

  /** Nobody binds a device to a locked license; others can only unbind. */
  lemma BindingsShrink(db: Db, d: Db, locks: set<Lock>, l: Id, device: Digest)
    requires TouchesRows(db, d, locks) && OnLicense(l) !in locks
    ensures Bound(d, l, device) <= Bound(db, l, device)
    ensures |ActiveByLicense(d, l)| <= |ActiveByLicense(db, l)|
  {
    assert ActiveByLicense(d, l) <= ActiveByLicense(db, l);
    SubsetSize(ActiveByLicense(d, l), ActiveByLicense(db, l));
  }

  lemma ReachedStable(db: Db, d: Db, locks: set<Lock>, r: Request, env: Env, g: Grip, reached: Reached)
    requires ReachedFacts(db, r, env, g, reached) && TouchesRows(db, d, locks)
             && locks !! StageLocks(r, env, Held(g, reached))
    ensures ReachedFacts(d, r, env, g, reached)
  {
    assert OnCode(r.code) !in locks && OnLicense(g.license) !in locks;
    BindingsShrink(db, d, locks, g.license, Sha256(r.machine));
    if KeyFree(db, r) {
      KeyFreeStable(db, d, locks, r);
    }
    match reached
    case KeyRow(a) => assert OnRow(a) !in locks;
    case BoundRow(a) => assert OnRow(a) !in locks;
    case Inserted => assert OnRow(env.newActivation) !in locks;
    case _ =>
  }

  lemma FactsStable(db: Db, d: Db, locks: set<Lock>, r: Request, env: Env, stage: Stage)
    requires Facts(db, r, env, stage) && Touches(db, d, locks) && locks !! StageLocks(r, env, stage)
    ensures Facts(d, r, env, stage)
  {
    match stage
    case Begun =>
    case Coded(code) =>
      assert OnCode(r.code) !in locks;
      CodeFactsStable(db, d, locks, r, env, code);
    case Joined(code, l, made) =>
      assert OnCode(r.code) !in locks && (made ==> OnLicense(l) !in locks);
      CodeFactsStable(db, d, locks, r, env, code);
    case Held(g, reached) =>
      assert OnCode(r.code) !in locks && OnLicense(g.license) !in locks;
      CodeFactsStable(db, d, locks, r, env, g.code);
      LicenseFactsStable(db, d, locks, env, g);
      ReachedStable(db, d, locks, r, env, g, reached);
  }

  // ---- what an activation's commit touches ----

  lemma FinishingTouches(db: Db, own: Db, a: Id, env: Env, locks: set<Lock>)
    requires Touches(db, own, locks) && own.tokens == db.tokens && OnRow(a) in locks && Finishing(own, a, env).Done?
    ensures Touches(db, Finishing(own, a, env).db, locks)
  {
  }

  lemma BaseTouches(db: Db, r: Request, env: Env, g: Grip, locks: set<Lock>)
    requires HeldFacts(db, r, env, g) && OnCode(r.code) in locks && OnLicense(g.license) in locks
    ensures Touches(db, Base(db, r, g), locks) && Base(db, r, g).tokens == db.tokens && Base(db, r, g).acts == db.acts
  {
  }

  lemma InsertedTouches(db: Db, own: Db, n: Id, act: Activation, locks: set<Lock>)
    requires Touches(db, own, locks) && own.tokens == db.tokens && own.acts == db.acts && n !in db.acts
             && act.code in own.codes
    requires OnRow(n) in locks && OnCode(act.code) in locks && OnLicense(act.license) in locks
    ensures Touches(db, WithActivation(own, n, act), locks) && WithActivation(own, n, act).tokens == db.tokens
  {
  }

  lemma DoneTouches(db: Db, r: Request, env: Env, stage: Stage)
    requires Facts(db, r, env, stage) && Advance(db, r, env, stage).Done?
    ensures Touches(db, Advance(db, r, env, stage).db, StageLocks(r, env, stage))
  {
    var locks := StageLocks(r, env, stage);
    var g := stage.grip;
    BaseTouches(db, r, env, g, locks);
    var base := Base(db, r, g);
    assert Touches(db, Seen(base, r), locks);
    match stage.reached
    case KeyRow(a) => FinishingTouches(db, base, a, env, locks);
    case BoundRow(a) => FinishingTouches(db, Seen(base, r), a, env, locks);
    case Inserted =>
      var act := Activation(g.license, Sha256(r.machine), r.code, r.key, env.signed.value, false);
      InsertedTouches(db, Seen(base, r), env.newActivation, act, locks);
      FinishingTouches(db, WithActivation(Seen(base, r), env.newActivation, act), env.newActivation, env, locks);
  }

  // ---- unbinding, row by row ----

  /** rows: marked and locked; of these the first settled ones have their tokens and code counts read under lock. */
  datatype Unbinding = Unbinding(user: Id, device: Digest, rows: seq<Id>, settled: nat, revoked: set<Id>,
      counts: map<CodeHash, int>)

  function LiveTokens(db: Db, rows: set<Id>): set<Id> {
    set t | t in db.tokens && db.tokens[t].activation in rows && !db.tokens[t].revoked
  }

  function CodesTouched(db: Db, rows: set<Id>): set<CodeHash> {
    set a | a in rows && a in db.acts :: db.acts[a].code
  }

  predicate RowsFacts(db: Db, u: Unbinding) {
    && u.settled <= |u.rows|
    && (forall i, j :: 0 <= i < j < |u.rows| ==> u.rows[i] != u.rows[j])
    && (forall a :: a in u.rows ==> a in Matching(db, u.user, u.device))
  }

  function SettledRows(u: Unbinding): set<Id>
    requires u.settled <= |u.rows|
  {
    RowSet(u.rows[..u.settled])
  }

  predicate SettledFacts(db: Db, u: Unbinding)
    requires u.settled <= |u.rows|
  {
    && u.revoked == LiveTokens(db, SettledRows(u))
    && u.counts.Keys == CodesTouched(db, SettledRows(u))
    && forall c :: c in u.counts ==> c in db.codes && u.counts[c] == db.codes[c].count - |OfCode(db, SettledRows(u), c)|
  }

  predicate UnbindFacts(db: Db, u: Unbinding) { RowsFacts(db, u) && SettledFacts(db, u) }

  function UnbindLocks(u: Unbinding): set<Lock> {
    (set a | a in u.rows :: OnRow(a)) + (set c | c in u.counts :: OnCode(c))
  }

  function MarkRow(u: Unbinding, a: Id): Unbinding { u.(rows := u.rows + [a]) }

  /** The two updates for the next row: its tokens, and its code's count as it stands under lock. */
  function SettleNext(db: Db, u: Unbinding): Unbinding
    requires u.settled < |u.rows| && u.rows[u.settled] in db.acts && db.acts[u.rows[u.settled]].code in db.codes
  {
    var a := u.rows[u.settled];
    var c := db.acts[a].code;
    u.(settled := u.settled + 1, revoked := u.revoked + LiveTokens(db, {a}),
       counts := u.counts[c := (if c in u.counts then u.counts[c] else db.codes[c].count) - 1])
  }

  function UnbindWrite(db: Db, u: Unbinding): Db {
    db.(acts := map a | a in db.acts :: if a in u.rows then db.acts[a].(unbound := true) else db.acts[a],
        tokens := map t | t in db.tokens :: if t in u.revoked then db.tokens[t].(revoked := true) else db.tokens[t],
        codes := map c | c in db.codes :: if c in u.counts then db.codes[c].(count := u.counts[c]) else db.codes[c],
        outbox := db.outbox + UnboundEvents(u.rows))
  }

  lemma MarkKeeps(db: Db, u: Unbinding, a: Id)
    requires UnbindFacts(db, u) && a in Matching(db, u.user, u.device) && a !in u.rows
    ensures UnbindFacts(db, MarkRow(u, a))
  {
    var v := MarkRow(u, a);
    assert v.rows[..v.settled] == u.rows[..u.settled];
    forall i, j | 0 <= i < j < |v.rows| ensures v.rows[i] != v.rows[j] {
      if j == |u.rows| {
        assert v.rows[i] in u.rows;
      }
    }
  }

  lemma SettledOneMore(db: Db, u: Unbinding)
    requires RowsFacts(db, u) && u.settled < |u.rows|
    ensures u.rows[u.settled] in db.acts && u.rows[u.settled] !in u.rows[..u.settled]
    ensures u.rows[..u.settled + 1] == u.rows[..u.settled] + [u.rows[u.settled]]
    ensures RowSet(u.rows[..u.settled + 1]) == RowSet(u.rows[..u.settled]) + {u.rows[u.settled]}
  {
    var a := u.rows[u.settled];
    assert a in u.rows;
    assert u.rows[..u.settled + 1] == u.rows[..u.settled] + [a];
  }

  lemma SettleCounts(db: Db, u: Unbinding, c: CodeHash)
    requires UnbindFacts(db, u) && u.settled < |u.rows| && ActsOk(db) && u.rows[u.settled] in db.acts
    requires c in SettleNext(db, u).counts
    ensures c in db.codes
            && SettleNext(db, u).counts[c] == db.codes[c].count - |OfCode(db, SettledRows(SettleNext(db, u)), c)|
  {
    var a := u.rows[u.settled];
    SettledOneMore(db, u);
    OneMoreOfCode(db, u.rows[..u.settled], a, c);
    if c !in u.counts {
      assert c == db.acts[a].code;
      assert c !in CodesTouched(db, SettledRows(u));
      assert OfCode(db, SettledRows(u), c) == {};
    }
  }

  lemma SettleKeeps(db: Db, u: Unbinding)
    requires UnbindFacts(db, u) && u.settled < |u.rows| && ActsOk(db)
    ensures u.rows[u.settled] in db.acts && UnbindFacts(db, SettleNext(db, u))
  {
    SettledOneMore(db, u);
    SettleSets(db, u);
    var v := SettleNext(db, u);
    forall c | c in v.counts
      ensures c in db.codes && v.counts[c] == db.codes[c].count - |OfCode(db, SettledRows(v), c)|
    {
      SettleCounts(db, u, c);
    }
  }

  lemma SettleSets(db: Db, u: Unbinding)
    requires UnbindFacts(db, u) && u.settled < |u.rows| && ActsOk(db) && u.rows[u.settled] in db.acts
    ensures var v := SettleNext(db, u);
            v.revoked == LiveTokens(db, SettledRows(v)) && v.counts.Keys == CodesTouched(db, SettledRows(v))
  {
    SettledOneMore(db, u);
    var a, rows := u.rows[u.settled], SettledRows(u);
    assert LiveTokens(db, rows + {a}) == LiveTokens(db, rows) + LiveTokens(db, {a});
    assert CodesTouched(db, rows + {a}) == CodesTouched(db, rows) + {db.acts[a].code};
  }

  /** Once every row is settled, the buffered writes are the atomic unbind of those rows. */
  lemma UnbindIsAtomic(db: Db, u: Unbinding)
    requires UnbindFacts(db, u) && u.settled == |u.rows|
    ensures Legal(db, UnbindTxn(u.user, u.device, RowSet(u.rows), u.rows))
    ensures UnbindWrite(db, u) == Commit(db, UnbindTxn(u.user, u.device, RowSet(u.rows), u.rows))
  {
    assert u.rows[..u.settled] == u.rows;
    var d := UnbindRows(db, RowSet(u.rows), u.rows);
    WrittenCodes(db, u);
    assert UnbindWrite(db, u).tokens == d.tokens;
    assert UnbindWrite(db, u).acts == d.acts;
  }

  lemma WrittenCodes(db: Db, u: Unbinding)
    requires UnbindFacts(db, u) && u.settled == |u.rows|
    ensures UnbindWrite(db, u).codes == UnbindRows(db, RowSet(u.rows), u.rows).codes
  {
    forall c | c in db.codes ensures UnbindWrite(db, u).codes[c] == UnbindRows(db, RowSet(u.rows), u.rows).codes[c] {
      WrittenCode(db, u, c);
    }
  }

  lemma WrittenCode(db: Db, u: Unbinding, c: CodeHash)
    requires UnbindFacts(db, u) && u.settled == |u.rows| && c in db.codes
    ensures (if c in u.counts then u.counts[c] else db.codes[c].count)
            == db.codes[c].count - |OfCode(db, RowSet(u.rows), c)|
  {
    assert u.rows[..u.settled] == u.rows;
    if c !in u.counts {
      assert c !in CodesTouched(db, RowSet(u.rows));
      assert OfCode(db, RowSet(u.rows), c) == {};
    }
  }

  lemma UnbindTouches(db: Db, u: Unbinding)
    requires UnbindFacts(db, u) && u.settled == |u.rows|
    ensures Touches(db, UnbindWrite(db, u), UnbindLocks(u))
  {
    assert u.rows[..u.settled] == u.rows;
  }

  lemma RowsStable(db: Db, d: Db, locks: set<Lock>, u: Unbinding)
    requires RowsFacts(db, u) && TouchesRows(db, d, locks) && TouchesLicenses(db, d, locks) && locks !! UnbindLocks(u)
    ensures RowsFacts(d, u) && forall a :: a in u.rows ==> a in db.acts && a in d.acts && d.acts[a] == db.acts[a]
  {
  }

  lemma LiveTokensStable(db: Db, d: Db, locks: set<Lock>, rows: set<Id>)
    requires TouchesTokens(db, d, locks) && forall a :: a in rows ==> OnRow(a) !in locks
    ensures LiveTokens(d, rows) == LiveTokens(db, rows)
  {
  }

  lemma CodesTouchedStable(db: Db, d: Db, rows: set<Id>)
    requires forall a :: a in rows ==> a in db.acts && a in d.acts && d.acts[a] == db.acts[a]
    ensures CodesTouched(d, rows) == CodesTouched(db, rows)
    ensures forall c :: OfCode(d, rows, c) == OfCode(db, rows, c)
  {
  }

  lemma SettledStable(db: Db, d: Db, locks: set<Lock>, u: Unbinding)
    requires RowsFacts(db, u) && SettledFacts(db, u) && locks !! UnbindLocks(u)
    requires TouchesCodes(db, d, locks) && TouchesTokens(db, d, locks) && forall a :: a in u.rows ==>
               a in db.acts && a in d.acts && d.acts[a] == db.acts[a]
    ensures SettledFacts(d, u)
  {
    var rows := SettledRows(u);
    forall a | a in rows ensures OnRow(a) !in locks && a in u.rows {
      assert a in u.rows;
      assert OnRow(a) in UnbindLocks(u);
    }
    LiveTokensStable(db, d, locks, rows);
    CodesTouchedStable(db, d, rows);
    forall c | c in u.counts ensures c in d.codes && d.codes[c] == db.codes[c] {
      assert OnCode(c) in UnbindLocks(u);
    }
  }

  // ---- the system ----

  datatype Tx = Activate(request: Request, env: Env, stage: Stage) | Unbind(work: Unbinding)

  function Locks(tx: Tx): set<Lock> {
    match tx
    case Activate(r, env, stage) => StageLocks(r, env, stage)
    case Unbind(u) => UnbindLocks(u)
  }

  predicate TxFacts(db: Db, tx: Tx) {
    match tx
    case Activate(r, env, stage) => Facts(db, r, env, stage)
    case Unbind(u) => UnbindFacts(db, u)
  }

  /** The committed rows and the transactions under way. */
  datatype System = System(db: Db, txs: map<nat, Tx>)

  datatype Action =
    | Begin(i: nat, tx: Tx)
    | Proceed(i: nat)
    | Refuse(i: nat, error: Error)
    | Grant(i: nat, activated: Activated)
    | Mark(i: nat, row: Id)
    | Settle(i: nat)
    | Release(i: nat)
    | Abort(i: nat)
    | Administer(txn: Txn)

  predicate Initial(tx: Tx) {
    match tx
    case Activate(_, _, stage) => stage == Begun
    case Unbind(u) => u.rows == [] && u.settled == 0 && u.revoked == {} && u.counts == map[]
  }

  /** The row an administrative transaction changes. */
  function AdminLocks(t: Txn): set<Lock> {
    match t
    case LicenseTxn(id, _, _, _, _) => {OnLicense(id)}
    case StatusTxn(id, _, _) => {OnLicense(id)}
    case _ => {}
  }

  predicate Free(s: System, locks: set<Lock>, own: nat) {
    forall j :: j in s.txs && j != own ==> locks !! Locks(s.txs[j])
  }

  /** Nobody else holds any of the locks. */
  predicate Unheld(s: System, locks: set<Lock>) {
    forall j :: j in s.txs ==> locks !! Locks(s.txs[j])
  }

  ghost predicate Next(s: System, action: Action, s': System) {
    match action
    case Begin(i, tx) => i !in s.txs && Initial(tx) && s' == s.(txs := s.txs[i := tx])
    case Proceed(i) =>
      && i in s.txs && s.txs[i].Activate?
      && var tx := s.txs[i];
         var p := Advance(s.db, tx.request, tx.env, tx.stage);
         p.Onward? && Free(s, StageLocks(tx.request, tx.env, p.stage), i)
           && s' == s.(txs := s.txs[i := tx.(stage := p.stage)])
    case Refuse(i, e) =>
      && i in s.txs && s.txs[i].Activate?
      && Advance(s.db, s.txs[i].request, s.txs[i].env, s.txs[i].stage) == Answer(e)
      && s' == s.(txs := s.txs - {i})
    case Grant(i, x) =>
      && i in s.txs && s.txs[i].Activate?
      && Advance(s.db, s.txs[i].request, s.txs[i].env, s.txs[i].stage) == Done(s'.db, x)
      && s'.txs == s.txs - {i}
    case Mark(i, a) =>
      && i in s.txs && s.txs[i].Unbind?
      && var u := s.txs[i].work;
         u.settled == 0 && a !in u.rows && a in Matching(s.db, u.user, u.device) && Free(s, {OnRow(a)}, i)
         && s' == s.(txs := s.txs[i := Unbind(MarkRow(u, a))])
    case Settle(i) =>
      && i in s.txs && s.txs[i].Unbind?
      && var u := s.txs[i].work;
         u.settled < |u.rows| && u.rows[u.settled] in s.db.acts && s.db.acts[u.rows[u.settled]].code in s.db.codes
         && Free(s, {OnCode(s.db.acts[u.rows[u.settled]].code)}, i)
         && s' == s.(txs := s.txs[i := Unbind(SettleNext(s.db, u))])
    case Release(i) =>
      && i in s.txs && s.txs[i].Unbind?
      && s.txs[i].work.rows != [] && s.txs[i].work.settled == |s.txs[i].work.rows|
      && s' == System(UnbindWrite(s.db, s.txs[i].work), s.txs - {i})
    case Abort(i) => i in s.txs && s' == s.(txs := s.txs - {i})
    case Administer(t) =>
      && (t.CodesTxn? || t.LicenseTxn? || t.StatusTxn?) && Legal(s.db, t) && Unheld(s, AdminLocks(t))
      && s' == s.(db := Commit(s.db, t))
  }

  predicate Exclusive(s: System) {
    forall i, j :: i in s.txs && j in s.txs && i != j ==> Locks(s.txs[i]) !! Locks(s.txs[j])
  }

  predicate AllFacts(db: Db, txs: map<nat, Tx>) {
    forall i :: i in txs ==> TxFacts(db, txs[i])
  }

  predicate Invariant(s: System) {
    Sound(s.db) && Exclusive(s) && AllFacts(s.db, s.txs)
  }

  lemma TxStable(db: Db, d: Db, locks: set<Lock>, tx: Tx)
    requires TxFacts(db, tx) && Touches(db, d, locks) && locks !! Locks(tx)
    ensures TxFacts(d, tx)
  {
    match tx
    case Activate(r, env, stage) => FactsStable(db, d, locks, r, env, stage);
    case Unbind(u) =>
      RowsStable(db, d, locks, u);
      SettledStable(db, d, locks, u);
  }

  /** A commit of one transaction leaves what the others have read true. */
  lemma OthersStable(s: System, d: Db, locks: set<Lock>, rest: map<nat, Tx>)
    requires AllFacts(s.db, s.txs) && Touches(s.db, d, locks)
    requires forall j :: j in rest ==> j in s.txs && rest[j] == s.txs[j] && locks !! Locks(s.txs[j])
    ensures AllFacts(d, rest)
  {
    forall j | j in rest ensures TxFacts(d, rest[j]) {
      TxStable(s.db, d, locks, s.txs[j]);
    }
  }

  lemma CodesTouch(db: Db, t: Txn)
    requires t.CodesTxn?
    ensures Touches(db, Commit(db, t), {})
  {
  }

  lemma LicenseTouches(db: Db, t: Txn)
    requires t.LicenseTxn?
    ensures Touches(db, Commit(db, t), {OnLicense(t.id)})
  {
  }

  lemma StatusTouches(db: Db, t: Txn)
    requires t.StatusTxn?
    ensures Touches(db, Commit(db, t), {OnLicense(t.target)})
  {
  }

  lemma AdminTouches(db: Db, t: Txn)
    requires t.CodesTxn? || t.LicenseTxn? || t.StatusTxn?
    ensures Touches(db, Commit(db, t), AdminLocks(t))
  {
    match t
    case CodesTxn(_, _, _, _, _) => CodesTouch(db, t);
    case LicenseTxn(_, _, _, _, _) => LicenseTouches(db, t);
    case StatusTxn(_, _, _) => StatusTouches(db, t);
  }

  // ---- every step ----

  /** The atomic transaction that an action commits, if it commits one. */
  function Committed(s: System, action: Action): Option<Txn> {
    match action
    case Grant(i, _) =>
      if i in s.txs && s.txs[i].Activate? then Some(ActivateTxn(s.txs[i].request, s.txs[i].env)) else None
    case Release(i) =>
      if i in s.txs && s.txs[i].Unbind? then
        var u := s.txs[i].work;
        Some(UnbindTxn(u.user, u.device, RowSet(u.rows), u.rows))
      else None
    case Administer(t) => Some(t)
    case _ => None
  }

  /** What a step does to the committed rows: nothing, or that one legal atomic transaction. */
  ghost predicate Serial(s: System, action: Action, s': System) {
    match Committed(s, action)
    case None => s'.db == s.db
    case Some(t) => Legal(s.db, t) && s'.db == Commit(s.db, t)
  }

  /** The answers are those of the atomic handler on the rows committed at that moment. */
  ghost predicate AnswersRight(s: System, action: Action, s': System) {
    && (action.Refuse? && action.i in s.txs && s.txs[action.i].Activate? ==>
          Transact(s.db, s.txs[action.i].request, s.txs[action.i].env) == Err(action.error) && s'.db == s.db)
    && (action.Grant? && action.i in s.txs && s.txs[action.i].Activate? ==>
          Transact(s.db, s.txs[action.i].request, s.txs[action.i].env) == Ok((s'.db, action.activated)))
  }

  lemma GrantStep(s: System, i: nat, x: Activated, s': System)
    requires Invariant(s) && Next(s, Grant(i, x), s')
    ensures Invariant(s') && Serial(s, Grant(i, x), s') && AnswersRight(s, Grant(i, x), s')
  {
    var tx := s.txs[i];
    var t := ActivateTxn(tx.request, tx.env);
    AdvanceIsAtomic(s.db, tx.request, tx.env, tx.stage);
    assert Legal(s.db, t) && s'.db == Commit(s.db, t);
    CommitKeeps(s.db, t);
    DoneTouches(s.db, tx.request, tx.env, tx.stage);
    OthersStable(s, s'.db, Locks(tx), s'.txs);
  }

  lemma ReleaseStep(s: System, i: nat, s': System)
    requires Invariant(s) && Next(s, Release(i), s')
    ensures Invariant(s') && Serial(s, Release(i), s')
  {
    var u := s.txs[i].work;
    var t := UnbindTxn(u.user, u.device, RowSet(u.rows), u.rows);
    UnbindIsAtomic(s.db, u);
    assert Legal(s.db, t) && s'.db == Commit(s.db, t);
    CommitKeeps(s.db, t);
    UnbindTouches(s.db, u);
    OthersStable(s, s'.db, Locks(s.txs[i]), s'.txs);
  }

  lemma AdminStep(s: System, t: Txn, s': System)
    requires Invariant(s) && Next(s, Administer(t), s')
    ensures Invariant(s') && Serial(s, Administer(t), s')
  {
    CommitKeeps(s.db, t);
    AdminTouches(s.db, t);
    OthersStable(s, s'.db, AdminLocks(t), s'.txs);
  }

  /** One transaction moves on, the rows stay. */
  lemma MoveStep(s: System, i: nat, tx: Tx, s': System)
    requires Invariant(s) && s' == s.(txs := s.txs[i := tx]) && TxFacts(s.db, tx)
    requires forall l, j :: l in Locks(tx) && j in s.txs && j != i ==> l !in Locks(s.txs[j])
    ensures Invariant(s')
  {
  }

  lemma SettleLocks(db: Db, u: Unbinding)
    requires u.settled < |u.rows| && u.rows[u.settled] in db.acts && db.acts[u.rows[u.settled]].code in db.codes
    ensures UnbindLocks(SettleNext(db, u)) == UnbindLocks(u) + {OnCode(db.acts[u.rows[u.settled]].code)}
  {
  }

  lemma MarkLocks(u: Unbinding, a: Id)
    ensures UnbindLocks(MarkRow(u, a)) == UnbindLocks(u) + {OnRow(a)}
  {
  }

  lemma InitialStep(s: System, i: nat, tx: Tx, s': System)
    requires Invariant(s) && Next(s, Begin(i, tx), s')
    ensures Invariant(s')
  {
    assert Locks(tx) == {};
    if tx.Unbind? {
      assert tx.work.rows[..0] == [];
      assert RowSet([]) == {};
    }
    MoveStep(s, i, tx, s');
  }

  lemma UnbindingStep(s: System, i: nat, a: Id, s': System)
    requires Invariant(s) && (Next(s, Mark(i, a), s') || Next(s, Settle(i), s'))
    ensures Invariant(s') && s'.db == s.db
  {
    var u := s.txs[i].work;
    if Next(s, Mark(i, a), s') {
      MarkKeeps(s.db, u, a);
      MarkLocks(u, a);
      MoveStep(s, i, Unbind(MarkRow(u, a)), s');
    } else {
      SettleKeeps(s.db, u);
      SettleLocks(s.db, u);
      MoveStep(s, i, Unbind(SettleNext(s.db, u)), s');
    }
  }

  lemma ProceedStep(s: System, i: nat, s': System)
    requires Invariant(s) && Next(s, Proceed(i), s')
    ensures Invariant(s')
  {
    var tx := s.txs[i];
    AdvanceIsAtomic(s.db, tx.request, tx.env, tx.stage);
    MoveStep(s, i, s'.txs[i], s');
  }

  /**
   * Every step keeps the invariant, changes the ledger as one atomic transaction or not at all, and
   * answers as the atomic handler would.
   */
  lemma StepSerial(s: System, action: Action, s': System)
    requires Invariant(s) && Next(s, action, s')
    ensures Invariant(s') && Serial(s, action, s') && AnswersRight(s, action, s')
  {
    match action
    case Begin(i, tx) => InitialStep(s, i, tx, s');
    case Proceed(i) => ProceedStep(s, i, s');
    case Refuse(i, e) => AdvanceIsAtomic(s.db, s.txs[i].request, s.txs[i].env, s.txs[i].stage);
    case Grant(i, x) => GrantStep(s, i, x, s');
    case Mark(i, a) => UnbindingStep(s, i, a, s');
    case Settle(i) => UnbindingStep(s, i, 0, s');
    case Release(i) => ReleaseStep(s, i, s');
    case Abort(i) =>
    case Administer(t) => AdminStep(s, t, s');
  }

  // ---- runs ----

  ghost predicate Interleaving(run: seq<System>, actions: seq<Action>) {
    && |run| == |actions| + 1
    && Sound(run[0].db) && run[0].txs == map[]
    && forall i :: 0 <= i < |actions| ==> Next(run[i], actions[i], run[i + 1])
  }

  lemma {:induction false} InterleavingInvariant(run: seq<System>, actions: seq<Action>, n: nat)
    requires Interleaving(run, actions) && n < |run|
    ensures Invariant(run[n])
  {
    if n > 0 {
      InterleavingInvariant(run, actions, n - 1);
      StepSerial(run[n - 1], actions[n - 1], run[n - 1 + 1]);
    }
  }

  lemma OneMoreTxn(dbs: seq<Db>, txns: seq<Txn>, t: Txn) returns (longer: seq<Db>, more: seq<Txn>)
    requires LedgerRun(dbs, txns) && Legal(dbs[|txns|], t)
    ensures LedgerRun(longer, more) && longer[0] == dbs[0] && |more| == |txns| + 1
            && longer[|more|] == Commit(dbs[|txns|], t)
  {
    longer, more := dbs + [Commit(dbs[|txns|], t)], txns + [t];
    forall i | 0 <= i < |more| ensures Legal(longer[i], more[i]) && longer[i + 1] == Commit(longer[i], more[i]) {
      if i < |txns| {
        assert longer[i] == dbs[i] && longer[i + 1] == dbs[i + 1] && more[i] == txns[i];
      }
    }
  }

  lemma LastStep(run: seq<System>, actions: seq<Action>, n: nat)
    requires Interleaving(run, actions) && 0 < n < |run|
    ensures Serial(run[n - 1], actions[n - 1], run[n])
  {
    InterleavingInvariant(run, actions, n - 1);
    StepSerial(run[n - 1], actions[n - 1], run[n - 1 + 1]);
  }

  /** Whatever the interleaving, the committed rows are those of a run of atomic transactions. */
  lemma {:induction false} InterleavingIsSerial(run: seq<System>, actions: seq<Action>, n: nat)
      returns (dbs: seq<Db>, txns: seq<Txn>)
    requires Interleaving(run, actions) && n < |run|
    ensures LedgerRun(dbs, txns) && dbs[0] == run[0].db && dbs[|txns|] == run[n].db && |txns| <= n
  {
    if n == 0 {
      dbs, txns := [run[0].db], [];
    } else {
      dbs, txns := InterleavingIsSerial(run, actions, n - 1);
      LastStep(run, actions, n);
      var t := Committed(run[n - 1], actions[n - 1]);
      if t.Some? {
        dbs, txns := OneMoreTxn(dbs, txns, t.value);
      }
    }
  }

  lemma StepLater(s: System, action: Action, s': System)
    requires Serial(s, action, s')
    ensures Later(s.db, s'.db)
  {
    var t := Committed(s, action);
    if t.Some? {
      CommitLater(s.db, t.value);
    }
  }

  function Ledgers(run: seq<System>): seq<Db> { seq(|run|, i requires 0 <= i < |run| => run[i].db) }

  lemma InterleavedLater(run: seq<System>, actions: seq<Action>, m: nat, n: nat)
    requires Interleaving(run, actions) && m <= n < |run|
    ensures Later(run[m].db, run[n].db)
  {
    var dbs := Ledgers(run);
    forall i | 0 <= i < |dbs| - 1 ensures Later(dbs[i], dbs[i + 1]) {
      NextLater(run, actions, i);
    }
    RunLater(dbs, m, n);
  }

  lemma NextLater(run: seq<System>, actions: seq<Action>, i: nat)
    requires Interleaving(run, actions) && i < |actions|
    ensures Later(run[i].db, run[i + 1].db)
  {
    LastStep(run, actions, i + 1);
    StepLater(run[i], actions[i], run[i + 1]);
  }

  /**
   * The whole conservation law in every reachable state of every interleaving, with a code's
   * license, once set, unchanged ever after.
   */
  lemma InterleavedConservation(run: seq<System>, actions: seq<Action>, m: nat, n: nat, c: CodeHash, l: Id,
      device: Digest)
    requires Interleaving(run, actions) && m <= n < |run| && c in run[m].db.codes && l in run[n].db.licenses
    ensures var db := run[n].db;
            && c in db.codes && 0 <= db.codes[c].count == |ActiveByCode(db, c)| <= db.codes[c].limit
            && (run[m].db.codes[c].license.Some? ==> db.codes[c].license == run[m].db.codes[c].license)
            && CodesOf(db, l) <= db.codes.Keys
            && TotalCount(db, CodesOf(db, l)) == |ActiveByLicense(db, l)| <= db.licenses[l].deviceLimit
            && |Bound(db, l, device)| <= 1
            && TokensOk(db)
  {
    InterleavedLater(run, actions, m, n);
    var dbs, txns := InterleavingIsSerial(run, actions, n);
    ActivationConservation(dbs, txns, |txns|, |txns|, c, l, device);
    InterleavingInvariant(run, actions, n);
  }

  /** No administrator gives the license of c to another code during the steps from m to n. */
  ghost predicate LeftAlone(run: seq<System>, actions: seq<Action>, m: nat, n: nat, c: CodeHash)
    requires |run| == |actions| + 1 && m <= n < |run|
  {
    forall i :: m <= i < n && actions[i].Administer? ==> LeavesAlone(run[i].db, actions[i].txn, c)
  }

  ghost predicate EachSelfMade(dbs: seq<Db>, m: nat, n: nat, c: CodeHash)
    requires m <= n < |dbs|
  {
    forall i :: m <= i < n ==> SelfMade(dbs[i], c) ==> SelfMade(dbs[i + 1], c)
  }

  lemma {:induction false} StaysSelfMade(dbs: seq<Db>, m: nat, n: nat, c: CodeHash)
    requires m <= n < |dbs| && EachSelfMade(dbs, m, n, c) && SelfMade(dbs[m], c)
    ensures SelfMade(dbs[n], c)
    decreases n - m
  {
    if m < n {
      StaysSelfMade(dbs, m, n - 1, c);
      assert SelfMade(dbs[n - 1 + 1], c);
    }
  }

  lemma InterleavedSelfMade(run: seq<System>, actions: seq<Action>, m: nat, n: nat, c: CodeHash)
    requires Interleaving(run, actions) && m <= n < |run| && SelfMade(run[m].db, c) && LeftAlone(run, actions, m, n, c)
    ensures SelfMade(run[n].db, c)
  {
    var dbs := Ledgers(run);
    forall i | m <= i < n && SelfMade(dbs[i], c) ensures SelfMade(dbs[i + 1], c) {
      assert actions[i].Administer? ==> LeavesAlone(run[i].db, actions[i].txn, c);
      NextSelfMade(run, actions, i, c);
    }
    StaysSelfMade(dbs, m, n, c);
  }

  lemma NextSelfMade(run: seq<System>, actions: seq<Action>, i: nat, c: CodeHash)
    requires Interleaving(run, actions) && i < |actions| && SelfMade(run[i].db, c)
    requires actions[i].Administer? ==> LeavesAlone(run[i].db, actions[i].txn, c)
    ensures SelfMade(run[i + 1].db, c)
  {
    InterleavingInvariant(run, actions, i);
    LastStep(run, actions, i + 1);
    StepSelfMade(run[i], actions[i], run[i + 1], c);
  }

  lemma StepSelfMade(s: System, action: Action, s': System, c: CodeHash)
    requires Sound(s.db) && Serial(s, action, s') && SelfMade(s.db, c)
             && (action.Administer? ==> LeavesAlone(s.db, action.txn, c))
    ensures SelfMade(s'.db, c)
  {
    var t := Committed(s, action);
    if t.Some? {
      CommitSelfMade(s.db, t.value, c);
    }
  }

  /**
   * However requests interleave, a code whose auto-created license no other code is given is never
   * refused with the device limit.
   */
  lemma InterleavedNeverDeviceLimited(run: seq<System>, actions: seq<Action>, m: nat, n: nat)
    requires Interleaving(run, actions) && m <= n < |actions| && actions[n].Refuse?
    requires actions[n].i in run[n].txs && run[n].txs[actions[n].i].Activate?
    requires var c := run[n].txs[actions[n].i].request.code; SelfMade(run[m].db, c) && LeftAlone(run, actions, m, n, c)
    ensures actions[n].error != DeviceLimit
  {
    var tx := run[n].txs[actions[n].i];
    InterleavedSelfMade(run, actions, m, n, tx.request.code);
    InterleavingInvariant(run, actions, n);
    StepSerial(run[n], actions[n], run[n + 1]);
    NotDeviceLimited(run[n].db, tx.request, tx.env);
  }

  /** Only the insert can conflict, and there only the primary key. */
  lemma AdvanceConflictIff(db: Db, r: Request, env: Env, stage: Stage)
    requires Facts(db, r, env, stage)
    ensures Advance(db, r, env, stage) == Answer(ActivationConflict)
       <==> stage.Held? && stage.reached == Room && env.signed.Some? && env.newActivation in db.acts
  {
  }

  /**
   * However requests interleave, one is refused with ACTIVATION_CONFLICT exactly at its insert,
   * when the id it drew is that of a committed activation: the lookups under lock leave the two
   * other unique indexes nothing to catch.
   */
  lemma InterleavedConflictIff(run: seq<System>, actions: seq<Action>, n: nat)
    requires Interleaving(run, actions) && n < |actions| && actions[n].Refuse?
    ensures actions[n].i in run[n].txs && run[n].txs[actions[n].i].Activate?
    ensures var tx := run[n].txs[actions[n].i];
            actions[n].error == ActivationConflict
            <==> && tx.stage.Held? && tx.stage.reached == Room && tx.env.signed.Some?
                 && tx.env.newActivation in run[n].db.acts
  {
    InterleavingInvariant(run, actions, n);
    assert Next(run[n], actions[n], run[n + 1]);
    var tx := run[n].txs[actions[n].i];
    AdvanceConflictIff(run[n].db, tx.request, tx.env, tx.stage);
  }

  /** However requests interleave, granting a repeated code and key only adds one token for the stored row. */
  lemma InterleavedReplay(run: seq<System>, actions: seq<Action>, n: nat, a: Id)
    requires Interleaving(run, actions) && n < |actions| && actions[n].Grant? && actions[n].i in run[n].txs
             && run[n].txs[actions[n].i].Activate?
    requires var tx := run[n].txs[actions[n].i];
             tx.request.key.Some? && a in Keyed(run[n].db, tx.request.code, tx.request.key.value)
    ensures var tx := run[n].txs[actions[n].i];
            && actions[n].activated == Activated(run[n].db.acts[a].blob, tx.env.newToken)
            && run[n + 1].db
                  == run[n].db.(tokens := run[n].db.tokens[tx.env.newToken := Token(a, tx.env.tokenExpires, false)])
  {
    InterleavingInvariant(run, actions, n);
    var tx := run[n].txs[actions[n].i];
    StepSerial(run[n], actions[n], run[n + 1]);
    Replay(run[n].db, tx.request, tx.env, a);
  }
}
