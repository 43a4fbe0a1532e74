/** Laws of the ledger over every run of committed transactions. */
module LedgerLaws {
  import opened Bytes
  import opened Crypto
  import opened Ledger

  // ---- replay ----

  lemma KeyedSingleton(db: Db, c: CodeHash, key: Bytes, a: Id)
    requires KeysUnique(db) && a in Keyed(db, c, key)
    ensures Keyed(db, c, key) == {a}
  {
  }

  lemma BoundSingleton(db: Db, l: Id, device: Digest, a: Id)
    requires BindingsUnique(db) && a in Bound(db, l, device)
    ensures Bound(db, l, device) == {a}
  {
  }

  /**
   * Once a row exists for a code and idempotency key, a request with that code and key either
   * fails with the ledger unchanged, or came from the row's own device while the row is bound,
   * returns the row's stored license and adds exactly one token for it. It never creates an
   * activation and never moves a counter.
   */
  lemma Replay(db: Db, r: Request, env: Env, a: Id)
    requires Sound(db) && r.key.Some? && a in Keyed(db, r.code, r.key.value)
    ensures match Transact(db, r, env)
            case Err(_) => AfterActivate(db, r, env) == db
            case Ok((d, done)) =>
              && done == Activated(db.acts[a].blob, env.newToken)
              && env.newToken !in db.tokens
              && d == db.(tokens := db.tokens[env.newToken := Token(a, env.tokenExpires, false)])
              && db.acts[a].device == Sha256(r.machine) && !db.acts[a].unbound
  {
    KeyedSingleton(db, r.code, r.key.value, a);
  }

  // ---- when the insert conflicts ----

  /** The license a code leads to: its own, or the one the request would create. */
  function LicenseFor(db: Db, c: CodeHash, env: Env): Id
    requires c in db.codes
  {
    if db.codes[c].license.Some? then db.codes[c].license.value else env.newLicense
  }

  /** Its row, or the row that would be created if the drawn id is free. */
  function TermsFor(db: Db, c: CodeHash, env: Env): Option<License>
    requires c in db.codes
  {
    var code, l := db.codes[c], LicenseFor(db, c, env);
    if code.license.Some? then (if l in db.licenses then Some(db.licenses[l]) else None)
    else if l in db.licenses then None
    else Some(License(code.product, None, Live, env.now, None, code.limit))
  }

  /** A request that no check turns away before the insert. */
  predicate ReachesInsert(db: Db, r: Request, env: Env) {
    && WellFormed(r) && env.admitted && CodeUsable(db, r.code, env.now)
    && var code, l, terms := db.codes[r.code], LicenseFor(db, r.code, env), TermsFor(db, r.code, env);
       && db.products[code.product] == r.product
       && terms.Some? && terms.value.product == code.product && LicenseRefusal(terms.value, env.now).None?
       && (r.key.Some? ==> Keyed(db, r.code, r.key.value) == {})
       && Bound(db, l, Sha256(r.machine)) == {}
       && code.count < code.limit && |ActiveByLicense(db, l)| < terms.value.deviceLimit
       && env.signed.Some?
  }

  lemma BindConflictIff(db: Db, r: Request, l: Id, env: Env)
    requires r.code in db.codes && l in db.licenses && (r.key.Some? ==> Keyed(db, r.code, r.key.value) == {})
    ensures Bind(db, r, l, env) == Err(ActivationConflict)
       <==> && Bound(db, l, Sha256(r.machine)) == {} && db.codes[r.code].count < db.codes[r.code].limit
            && |ActiveByLicense(db, l)| < db.licenses[l].deviceLimit && env.signed.Some? && env.newActivation in db.acts
  {
    forall d: Db, a | a in d.acts ensures Finish(d, a, env) != Err(ActivationConflict) {
    }
  }

  lemma RedeemConflictIff(db: Db, r: Request, l: Id, env: Env)
    requires r.code in db.codes && l in db.licenses
    ensures Redeem(db, r, l, env) == Err(ActivationConflict)
       <==> && (r.key.Some? ==> Keyed(db, r.code, r.key.value) == {})
            && Bound(db, l, Sha256(r.machine)) == {} && db.codes[r.code].count < db.codes[r.code].limit
            && |ActiveByLicense(db, l)| < db.licenses[l].deviceLimit && env.signed.Some? && env.newActivation in db.acts
  {
    var seen := db.(devices := db.devices + {Sha256(r.machine)});
    SameActs(db, seen);
    if r.key.Some? ==> Keyed(db, r.code, r.key.value) == {} {
      assert r.key.Some? ==> Keyed(seen, r.code, r.key.value) == {};
      assert Bound(seen, l, Sha256(r.machine)) == Bound(db, l, Sha256(r.machine));
      BindConflictIff(seen, r, l, env);
    } else {
      forall a | a in db.acts ensures Finish(db, a, env) != Err(ActivationConflict) {
      }
    }
  }

  /**
   * A request is refused with ACTIVATION_CONFLICT exactly when it reaches the insert with an
   * activation id that exists already: of the three unique indexes only the primary key can
   * fire, because the lookups before the insert exclude what the other two guard against.
   */
  lemma ConflictIff(db: Db, r: Request, env: Env)
    ensures Transact(db, r, env) == Err(ActivationConflict) <==>
              ReachesInsert(db, r, env) && env.newActivation in db.acts
    ensures ReachesInsert(db, r, env) ==>
              (ViolatesUnique(db, r, LicenseFor(db, r.code, env), env) <==> env.newActivation in db.acts)
  {
    if WellFormed(r) && env.admitted && CodeUsable(db, r.code, env.now) && Linked(db, r.code, env).Ok? {
      var (d, l) := Linked(db, r.code, env).value;
      SameActs(db, d);
      if l in d.licenses {
        assert TermsFor(db, r.code, env) == Some(d.licenses[l]);
        assert Bound(d, l, Sha256(r.machine)) == Bound(db, l, Sha256(r.machine));
        assert r.key.Some? ==> Keyed(d, r.code, r.key.value) == Keyed(db, r.code, r.key.value);
        RedeemConflictIff(d, r, l, env);
      }
    }
  }

  /** A sound ledger with one activation, and a fresh code whose request draws that activation's id. */
  function TakenId(): Db {
    Db(map[0 := [1]],
       map[[7] := Code(0, None, 1, 0, None, false), [8] := Code(0, Some(1), 1, 1, None, false)],
       map[1 := License(0, None, Live, 0, None, 1)], {Sha256([9])},
       map[5 := Activation(1, Sha256([9]), [8], None, [], false)], map[], [])
  }

  lemma TakenIdSound()
    ensures Sound(TakenId())
  {
    var db := TakenId();
    assert [7] != [8] by { assert [7][0] == 7 && [8][0] == 8; }
    assert ActiveByCode(db, [7]) == {} && ActiveByCode(db, [8]) == {5} && ActiveByLicense(db, 1) == {5};
  }

  lemma TakenIdConflicts(token: Id)
    ensures Sound(TakenId())
    ensures Transact(TakenId(), Request(1, [1], [7], [3], None), Env(true, 0, 0, 2, 5, token, 0, Some([])))
            == Err(ActivationConflict)
  {
    TakenIdSound();
    var db, r, env := TakenId(), Request(1, [1], [7], [3], None), Env(true, 0, 0, 2, 5, token, 0, Some([]));
    assert [7] != [8] by { assert [7][0] == 7 && [8][0] == 8; }
    assert Bound(db, 2, Sha256(r.machine)) == {} && ActiveByLicense(db, 2) == {};
    ConflictIff(db, r, env);
  }

  // ---- a license reached only through the code that created it ----

  /** Unlinked, or the only code of a license whose device limit is the code's own limit. */
  ghost predicate SelfMade(db: Db, c: CodeHash) {
    && c in db.codes && db.codes[c].limit > 0
    && (db.codes[c].license.Some? ==>
          var l := db.codes[c].license.value;
          l in db.licenses && db.licenses[l].deviceLimit == db.codes[c].limit && CodesOf(db, l) == {c})
  }

  lemma SelfMadeCount(db: Db, c: CodeHash)
    requires Sound(db) && SelfMade(db, c) && db.codes[c].license.Some?
    ensures |ActiveByLicense(db, db.codes[c].license.value)| == db.codes[c].count
  {
    var l := db.codes[c].license.value;
    assert ActiveByLicense(db, l) == ActiveByCode(db, c) by {
      forall a | a in db.acts ensures db.acts[a].license == l <==> db.acts[a].code == c {
        assert db.codes[db.acts[a].code].license == Some(db.acts[a].license);
        if db.acts[a].license == l {
          assert db.acts[a].code in CodesOf(db, l);
        }
      }
    }
  }

  lemma LinkSelfMade(db: Db, c: CodeHash, env: Env)
    requires Sound(db) && SelfMade(db, c) && Linked(db, c, env).Ok?
    ensures SelfMade(Linked(db, c, env).value.0, c)
  {
  }

  lemma RedeemNotDeviceLimited(db: Db, r: Request, l: Id, env: Env)
    requires r.code in db.codes && l in db.licenses
             && (db.codes[r.code].count >= db.codes[r.code].limit
                   || |ActiveByLicense(db, l)| < db.licenses[l].deviceLimit)
    ensures Redeem(db, r, l, env) != Err(DeviceLimit)
  {
  }

  /** Such a code is never refused for the device limit: its own limit is reached first. */
  lemma NotDeviceLimited(db: Db, r: Request, env: Env)
    requires Sound(db) && SelfMade(db, r.code)
    ensures Transact(db, r, env) != Err(DeviceLimit)
  {
    if WellFormed(r) && env.admitted && CodeUsable(db, r.code, env.now) && Linked(db, r.code, env).Ok? {
      LinkKeeps(db, r.code, env);
      LinkSelfMade(db, r.code, env);
      var (d, l) := Linked(db, r.code, env).value;
      SelfMadeCount(d, r.code);
      RedeemNotDeviceLimited(d, r, l, env);
    }
  }

  // ---- runs ----

  /** rows: the rows an unbind removes; all that match when nothing runs beside it. */
  datatype Txn =
    | ActivateTxn(request: Request, env: Env)
    | UnbindTxn(user: Id, device: Digest, rows: set<Id>, order: seq<Id>)
    | CodesTxn(product: Id, license: Option<Id>, limit: nat, expires: Option<int>, hashes: seq<CodeHash>)
    | LicenseTxn(id: Id, kind: LicenseKind, row: License, now: int, clock: int)
    | StatusTxn(target: Id, status: LicenseStatus, order: seq<Id>)

  ghost predicate Legal(db: Db, t: Txn) {
    && (t.UnbindTxn? ==> t.rows <= Matching(db, t.user, t.device) && Lists(t.order, t.rows))
    && (t.StatusTxn? ==> Lists(t.order, ActiveByLicense(db, t.target)))
  }

  ghost function Commit(db: Db, t: Txn): Db {
    match t
    case ActivateTxn(r, env) => AfterActivate(db, r, env)
    case UnbindTxn(_, _, rows, order) => UnbindRows(db, rows, order)
    case CodesTxn(p, l, limit, expires, hashes) =>
      (match CreateCodes(db, p, l, limit, expires, hashes) case Ok(d) => d case Err(_) => db)
    case LicenseTxn(id, kind, l, now, clock) =>
      (match CreateLicense(db, id, kind, l, now, clock) case Ok(d) => d case Err(_) => db)
    case StatusTxn(id, status, order) => UpdateLicense(db, id, status, order)
  }

  lemma CommitKeeps(db: Db, t: Txn)
    requires Sound(db) && Legal(db, t)
    ensures Sound(Commit(db, t))
  {
    match t
    case ActivateTxn(r, env) => ActivateKeeps(db, r, env);
    case UnbindTxn(_, _, rows, order) => UnbindKeeps(db, rows, order);
    case CodesTxn(p, l, limit, expires, hashes) =>
      if CreateCodes(db, p, l, limit, expires, hashes).Ok? {
        CreateCodesKeeps(db, p, l, limit, expires, hashes);
      }
    case LicenseTxn(id, kind, l, now, clock) =>
      if CreateLicense(db, id, kind, l, now, clock).Ok? {
        CreateLicenseKeeps(db, id, kind, l, now, clock);
      }
    case StatusTxn(id, status, order) => UpdateLicenseKeeps(db, id, status, order);
  }

  /** Codes stay, a link once made stays, a row once unbound stays unbound, and a token once revoked stays revoked. */
  ghost predicate Later(db: Db, d: Db) {
    && (forall c :: c in db.codes ==> && c in d.codes && d.codes[c].limit == db.codes[c].limit
                                      && (db.codes[c].license.Some? ==> d.codes[c].license == db.codes[c].license))
    && (forall l :: l in db.licenses ==> l in d.licenses && d.licenses[l].deviceLimit == db.licenses[l].deviceLimit)
    && (forall a :: a in db.acts ==>
          a in d.acts && d.acts[a] == db.acts[a].(unbound := d.acts[a].unbound)
            && (db.acts[a].unbound ==> d.acts[a].unbound))
    && (forall t :: t in db.tokens ==>
          t in d.tokens && d.tokens[t].activation == db.tokens[t].activation
            && (db.tokens[t].revoked ==> d.tokens[t].revoked))
  }

  lemma FinishLater(db: Db, a: Id, env: Env)
    requires a in db.acts && Finish(db, a, env).Ok?
    ensures Later(db, Finish(db, a, env).value.0)
    ensures Finish(db, a, env).value.0 == db.(tokens := Finish(db, a, env).value.0.tokens)
  {
  }

  lemma InsertLater(db: Db, r: Request, l: Id, env: Env)
    requires r.code in db.codes && Insert(db, r, l, env).Ok?
    ensures Later(db, Insert(db, r, l, env).value)
  {
  }

  lemma BindLater(db: Db, r: Request, l: Id, env: Env)
    requires r.code in db.codes && l in db.licenses && Bind(db, r, l, env).Ok?
    ensures Later(db, Bind(db, r, l, env).value.0)
  {
    var existing := Bound(db, l, Sha256(r.machine));
    if existing != {} {
      forall a | a in existing && Finish(db, a, env).Ok? ensures Later(db, Finish(db, a, env).value.0) {
        FinishLater(db, a, env);
      }
    } else {
      InsertLater(db, r, l, env);
      FinishLater(Insert(db, r, l, env).value, env.newActivation, env);
    }
  }

  lemma RedeemLater(db: Db, r: Request, l: Id, env: Env)
    requires r.code in db.codes && l in db.licenses && Redeem(db, r, l, env).Ok?
    ensures Later(db, Redeem(db, r, l, env).value.0)
  {
    if r.key.Some? && Keyed(db, r.code, r.key.value) != {} {
      forall a | a in Keyed(db, r.code, r.key.value) && Finish(db, a, env).Ok?
        ensures Later(db, Finish(db, a, env).value.0)
      {
        FinishLater(db, a, env);
      }
    } else {
      BindLater(db.(devices := db.devices + {Sha256(r.machine)}), r, l, env);
    }
  }

  lemma ActivateLater(db: Db, r: Request, env: Env)
    ensures Later(db, AfterActivate(db, r, env))
  {
    if Transact(db, r, env).Ok? {
      var (d, l) := Linked(db, r.code, env).value;
      assert Later(db, d);
      RedeemLater(d, r, l, env);
    }
  }

  lemma CommitLater(db: Db, t: Txn)
    ensures Later(db, Commit(db, t))
  {
    match t
    case ActivateTxn(r, env) => ActivateLater(db, r, env);
    case _ =>
  }

  ghost predicate LedgerRun(run: seq<Db>, txns: seq<Txn>) {
    && |run| == |txns| + 1
    && Sound(run[0])
    && forall i :: 0 <= i < |txns| ==> Legal(run[i], txns[i]) && run[i + 1] == Commit(run[i], txns[i])
  }

  lemma EmptySound(products: map<Id, Bytes>)
    ensures Sound(Db(products, map[], map[], {}, map[], map[], []))
  {
  }

  lemma {:induction false} RunSound(run: seq<Db>, txns: seq<Txn>, n: nat)
    requires LedgerRun(run, txns) && n < |run|
    ensures Sound(run[n])
  {
    if n > 0 {
      RunSound(run, txns, n - 1);
      CommitKeeps(run[n - 1], txns[n - 1]);
    }
  }

  lemma LaterTransitive(a: Db, b: Db, c: Db)
    requires Later(a, b) && Later(b, c)
    ensures Later(a, c)
  {
  }

  ghost predicate EachLater(run: seq<Db>) {
    forall i :: 0 <= i < |run| - 1 ==> Later(run[i], run[i + 1])
  }

  lemma RunEachLater(run: seq<Db>, txns: seq<Txn>)
    requires LedgerRun(run, txns)
    ensures EachLater(run)
  {
    forall i | 0 <= i < |run| - 1 ensures Later(run[i], run[i + 1]) {
      CommitLater(run[i], txns[i]);
    }
  }

  lemma {:induction false} RunLater(run: seq<Db>, m: nat, n: nat)
    requires EachLater(run) && m <= n < |run|
    ensures Later(run[m], run[n])
    decreases n - m
  {
    if m < n {
      RunLater(run, m, n - 1);
      assert Later(run[n - 1], run[n - 1 + 1]);
      LaterTransitive(run[m], run[n - 1], run[n]);
    }
  }

  /**
   * In every reachable committed state each code counts exactly its bound activations within
   * its limit, each license's codes together count exactly its active devices within the
   * license's limit, a device is bound to a license at most once, an unbound activation has no
   * live token; and a code's license, once set, never changes.
   */
  lemma ActivationConservation(run: seq<Db>, txns: seq<Txn>, m: nat, n: nat, c: CodeHash, l: Id, device: Digest)
    requires LedgerRun(run, txns) && m <= n < |run| && c in run[m].codes && l in run[n].licenses
    ensures c in run[n].codes && 0 <= run[n].codes[c].count == |ActiveByCode(run[n], c)| <= run[n].codes[c].limit
    ensures run[m].codes[c].license.Some? ==> run[n].codes[c].license == run[m].codes[c].license
    ensures CodesOf(run[n], l) <= run[n].codes.Keys
    ensures TotalCount(run[n], CodesOf(run[n], l)) == |ActiveByLicense(run[n], l)| <= run[n].licenses[l].deviceLimit
    ensures |Bound(run[n], l, device)| <= 1
    ensures forall t :: t in run[n].tokens ==> run[n].tokens[t].activation in run[n].acts
                                               && (run[n].acts[run[n].tokens[t].activation].unbound ==>
                                                     run[n].tokens[t].revoked)
  {
    RunSound(run, txns, n);
    RunEachLater(run, txns);
    RunLater(run, m, n);
    Conservation(run[n], l);
    if Bound(run[n], l, device) != {} {
      var a :| a in Bound(run[n], l, device);
      BoundSingleton(run[n], l, device, a);
    }
  }

  // ---- the self-made license over runs ----

  /** No administrator adds a code to the license of c. */
  ghost predicate LeavesAlone(db: Db, t: Txn, c: CodeHash) {
    t.CodesTxn? && t.license.Some? && c in db.codes ==> t.license != db.codes[c].license
  }

  /** What an activation does to links: nothing, or one fresh link of its own code. */
  ghost predicate LinksOnly(db: Db, d: Db, c: CodeHash, env: Env) {
    && d.codes.Keys == db.codes.Keys
    && (forall k :: k in db.codes ==>
          d.codes[k].license == db.codes[k].license
            || (k == c && db.codes[k].license.None? && d.codes[k].license == Some(env.newLicense)
                  && env.newLicense !in db.licenses))
    && (c in db.codes && db.codes[c].license.None? && d.codes[c].license.Some? ==>
          env.newLicense in d.licenses && d.licenses[env.newLicense].deviceLimit == db.codes[c].limit)
  }

  lemma RedeemLinks(db: Db, r: Request, l: Id, env: Env)
    requires r.code in db.codes && l in db.licenses && Redeem(db, r, l, env).Ok?
    ensures var d := Redeem(db, r, l, env).value.0;
            && d.licenses == db.licenses && d.codes.Keys == db.codes.Keys
            && forall k :: k in db.codes ==> d.codes[k].license == db.codes[k].license
  {
    forall e: Db, a | a in e.acts && Finish(e, a, env).Ok?
      ensures Finish(e, a, env).value.0 == e.(tokens := Finish(e, a, env).value.0.tokens)
    {
    }
  }

  lemma ActivateLinks(db: Db, r: Request, env: Env)
    ensures LinksOnly(db, AfterActivate(db, r, env), r.code, env)
  {
    if Transact(db, r, env).Ok? {
      var (d, l) := Linked(db, r.code, env).value;
      RedeemLinks(d, r, l, env);
    }
  }

  lemma ActivatedSelfMade(db: Db, d: Db, c: CodeHash, own: CodeHash, env: Env)
    requires CodesOk(db) && SelfMade(db, c) && Later(db, d) && LinksOnly(db, d, own, env)
    ensures SelfMade(d, c)
  {
  }

  /** A ledger whose links are those of before, plus new codes that do not name the license of c. */
  lemma AdministeredSelfMade(db: Db, d: Db, c: CodeHash)
    requires SelfMade(db, c) && Later(db, d) && c in d.codes && d.codes[c].license == db.codes[c].license
    requires forall k :: k in d.codes && d.codes[k].license.Some? && d.codes[k].license == db.codes[c].license ==>
               k in db.codes && db.codes[k].license == d.codes[k].license
    ensures SelfMade(d, c)
  {
  }

  lemma CommitSelfMade(db: Db, t: Txn, c: CodeHash)
    requires Sound(db) && SelfMade(db, c) && LeavesAlone(db, t, c)
    ensures SelfMade(Commit(db, t), c)
  {
    CommitLater(db, t);
    match t
    case ActivateTxn(r, env) =>
      ActivateLinks(db, r, env);
      ActivatedSelfMade(db, AfterActivate(db, r, env), c, r.code, env);
    case _ =>
      AdministeredSelfMade(db, Commit(db, t), c);
  }

  lemma {:induction false} RunSelfMade(run: seq<Db>, txns: seq<Txn>, m: nat, n: nat, c: CodeHash)
    requires LedgerRun(run, txns) && m <= n < |run| && SelfMade(run[m], c)
    requires forall i :: m <= i < n ==> LeavesAlone(run[i], txns[i], c)
    ensures SelfMade(run[n], c)
    decreases n - m
  {
    if m < n {
      RunSelfMade(run, txns, m, n - 1, c);
      RunSound(run, txns, n - 1);
      CommitSelfMade(run[n - 1], txns[n - 1], c);
    }
  }

  /**
   * Over a whole run: a code that started unlinked, whose license no other code is ever given, is
   * never refused with the device limit.
   */
  lemma NeverDeviceLimited(run: seq<Db>, txns: seq<Txn>, m: nat, n: nat, r: Request, env: Env)
    requires LedgerRun(run, txns) && m <= n < |run| && SelfMade(run[m], r.code)
    requires forall i :: m <= i < n ==> LeavesAlone(run[i], txns[i], r.code)
    ensures Transact(run[n], r, env) != Err(DeviceLimit)
  {
    RunSelfMade(run, txns, m, n, r.code);
    RunSound(run, txns, n);
    NotDeviceLimited(run[n], r, env);
  }
}
