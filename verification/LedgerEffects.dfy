/** What the other handlers change, row by row and field by field, and how long a revocation holds. */
module LedgerEffects {
  import opened Bytes
  import opened Crypto
  import opened Ledger
  import opened LedgerLaws
  import opened ActivationRules

  // ---- unbinding ----

  /** A bound row of the device, under a license that belongs to the user. */
  predicate Owns(db: Db, user: Id, device: Digest, a: Id) {
    && a in db.acts && db.acts[a].unbound == false && db.acts[a].device == device
    && db.acts[a].license in db.licenses && db.licenses[db.acts[a].license].user == Some(user)
  }

  lemma OwnedRows(db: Db, user: Id, device: Digest, a: Id)
    ensures a in Matching(db, user, device) <==> Owns(db, user, device, a)
  {
  }

  /** The bound rows of a code that the user has on the device. */
  function OwnedOfCode(db: Db, user: Id, device: Digest, c: CodeHash): set<Id> {
    set a | a in db.acts && Owns(db, user, device, a) && db.acts[a].code == c
  }

  /**
   * Nobody's rows change but the owner's on that device: these are unbound, their tokens revoked,
   * their codes lowered, each announced once.
   */
  lemma UnbindExact(db: Db, user: Id, device: Digest, order: seq<Id>)
    requires Lists(order, Matching(db, user, device))
    ensures var d := UnbindRows(db, Matching(db, user, device), order);
            && d.acts.Keys == db.acts.Keys && d.tokens.Keys == db.tokens.Keys && d.codes.Keys == db.codes.Keys
            && (forall a :: a in db.acts ==>
                  d.acts[a] == db.acts[a].(unbound := db.acts[a].unbound || Owns(db, user, device, a)))
            && (forall a :: a in db.acts ==> (d.acts[a].unbound != db.acts[a].unbound <==> Owns(db, user, device, a)))
            && (forall t :: t in db.tokens ==>
                  d.tokens[t]
                    == db.tokens[t].(revoked := db.tokens[t].revoked
                      || Owns(db, user, device, db.tokens[t].activation)))
            && (forall c :: c in db.codes ==>
                  d.codes[c] == db.codes[c].(count := db.codes[c].count - |OwnedOfCode(db, user, device, c)|))
            && d.licenses == db.licenses && d.devices == db.devices && d.products == db.products
            && |d.outbox| == |db.outbox| + |order| && d.outbox[..|db.outbox|] == db.outbox
            && forall i :: 0 <= i < |order| ==> d.outbox[|db.outbox| + i] == Event(DeviceUnbound, order[i])
    ensures order == [] <==> forall a :: a in db.acts ==> !Owns(db, user, device, a)
  {
    UnbindRowsExact(db, user, device, order);
    UnbindCodesExact(db, user, device, order);
    if order != [] {
      OwnedRows(db, user, device, order[0]);
    } else {
      forall a | a in db.acts ensures !Owns(db, user, device, a) {
        OwnedRows(db, user, device, a);
      }
    }
  }

  lemma UnbindRowsExact(db: Db, user: Id, device: Digest, order: seq<Id>)
    ensures var d := UnbindRows(db, Matching(db, user, device), order);
            && d.acts.Keys == db.acts.Keys && d.tokens.Keys == db.tokens.Keys
            && (forall a :: a in db.acts ==>
                  d.acts[a] == db.acts[a].(unbound := db.acts[a].unbound || Owns(db, user, device, a)))
            && (forall t :: t in db.tokens ==>
                  d.tokens[t]
                  == db.tokens[t].(revoked := db.tokens[t].revoked || Owns(db, user, device, db.tokens[t].activation)))
  {
  }

  lemma UnbindCodesExact(db: Db, user: Id, device: Digest, order: seq<Id>)
    ensures var d := UnbindRows(db, Matching(db, user, device), order);
            && d.codes.Keys == db.codes.Keys
            && (forall c :: c in db.codes ==>
                  d.codes[c] == db.codes[c].(count := db.codes[c].count - |OwnedOfCode(db, user, device, c)|))
  {
    forall c ensures OfCode(db, Matching(db, user, device), c) == OwnedOfCode(db, user, device, c) {
    }
  }

  // ---- a license's status ----

  /** The new status, nothing else, and one event for each bound row of the license. */
  lemma StatusExact(db: Db, id: Id, status: LicenseStatus, order: seq<Id>)
    requires id in db.licenses && Legal(db, StatusTxn(id, status, order))
    ensures var d := Commit(db, StatusTxn(id, status, order));
            && d.licenses == db.licenses[id := db.licenses[id].(status := status)] && d.licenses[id].status == status
            && d.codes == db.codes && d.acts == db.acts && d.tokens == db.tokens && d.devices == db.devices
            && d.products == db.products
            && |d.outbox| == |db.outbox| + |order| && d.outbox[..|db.outbox|] == db.outbox
            && (forall i :: 0 <= i < |order| ==>
                  d.outbox[|db.outbox| + i]
                    == Event(if status == Revoked then LicenseRevoked else LicenseUpdated, order[i]))
    ensures forall a :: a in order <==> a in db.acts && db.acts[a].unbound == false && db.acts[a].license == id
    ensures forall i, j :: 0 <= i < j < |order| ==> order[i] != order[j]
  {
    forall a
      ensures a in ActiveByLicense(db, id) <==> a in db.acts && db.acts[a].unbound == false && db.acts[a].license == id
    {
    }
  }

  /** While a license is revoked no code of it activates, and a request that lacks nothing else is told so. */
  lemma RevokedRefuses(db: Db, r: Request, env: Env, l: Id)
    requires Sound(db) && r.code in db.codes && db.codes[r.code].license == Some(l) && db.licenses[l].status == Revoked
    ensures Transact(db, r, env).Err?
    ensures Addressed(db, r, env) ==> Transact(db, r, env) == Err(LicenseRevokedError)
  {
    EarlyRefusals(db, r, env);
    if Addressed(db, r, env) {
      LicenseRefusals(db, r, env, l, db.licenses[l]);
    }
  }

  lemma ActivateKeepsLicenses(db: Db, r: Request, env: Env, l: Id)
    requires l in db.licenses
    ensures l in AfterActivate(db, r, env).licenses && AfterActivate(db, r, env).licenses[l] == db.licenses[l]
  {
    if Transact(db, r, env).Ok? {
      var (d, m) := Linked(db, r.code, env).value;
      RedeemLinks(d, r, m, env);
    }
  }

  /** Only a status change of that license changes its row. */
  lemma LicenseKept(db: Db, t: Txn, l: Id)
    requires l in db.licenses && !(t.StatusTxn? && t.target == l)
    ensures l in Commit(db, t).licenses && Commit(db, t).licenses[l] == db.licenses[l]
  {
    if t.ActivateTxn? {
      ActivateKeepsLicenses(db, t.request, t.env, l);
    }
  }

  ghost predicate KeptAt(db: Db, d: Db, l: Id) {
    l in db.licenses ==> l in d.licenses && d.licenses[l] == db.licenses[l]
  }

  /** A license row over a stretch of tables in which each step keeps it. */
  lemma {:induction false} LicenseLasts(dbs: seq<Db>, m: nat, n: nat, l: Id)
    requires m <= n < |dbs| && l in dbs[m].licenses && forall i :: m <= i < n ==> KeptAt(dbs[i], dbs[i + 1], l)
    ensures l in dbs[n].licenses && dbs[n].licenses[l] == dbs[m].licenses[l]
    decreases n - m
  {
    if m < n {
      LicenseLasts(dbs, m, n - 1, l);
      assert KeptAt(dbs[n - 1], dbs[n - 1 + 1], l);
    }
  }

  /**
   * Over every run: from the commit of a revocation until the next status change of that license,
   * every request with a code of it is refused, as revoked if nothing else is wrong with it.
   */
  lemma RevocationHolds(run: seq<Db>, txns: seq<Txn>, m: nat, n: nat, l: Id, r: Request, env: Env)
    requires LedgerRun(run, txns) && m < n < |run| && txns[m].StatusTxn? && txns[m].target == l
             && txns[m].status == Revoked
    requires l in run[m].licenses && forall i :: m < i < n ==> !(txns[i].StatusTxn? && txns[i].target == l)
    requires r.code in run[n].codes && run[n].codes[r.code].license == Some(l)
    ensures Transact(run[n], r, env).Err?
    ensures Addressed(run[n], r, env) ==> Transact(run[n], r, env) == Err(LicenseRevokedError)
  {
    RevokedNext(run, txns, m, l);
    forall i | m + 1 <= i < n ensures KeptAt(run[i], run[i + 1], l) {
      NextKept(run, txns, i, l);
    }
    LicenseLasts(run, m + 1, n, l);
    RunSound(run, txns, n);
    RevokedRefuses(run[n], r, env, l);
  }

  lemma RevokedNext(run: seq<Db>, txns: seq<Txn>, m: nat, l: Id)
    requires LedgerRun(run, txns) && m < |txns| && txns[m].StatusTxn? && txns[m].target == l && l in run[m].licenses
    ensures l in run[m + 1].licenses && run[m + 1].licenses[l].status == txns[m].status
  {
    StatusExact(run[m], l, txns[m].status, txns[m].order);
  }

  lemma NextKept(run: seq<Db>, txns: seq<Txn>, i: nat, l: Id)
    requires LedgerRun(run, txns) && i < |txns| && !(txns[i].StatusTxn? && txns[i].target == l)
    ensures KeptAt(run[i], run[i + 1], l)
  {
    if l in run[i].licenses {
      LicenseKept(run[i], txns[i], l);
    }
  }

  // ---- creation ----

  /**
   * The codes asked for, each with the product, link, limit and expiry given, unused and enabled;
   * nothing else changes.
   */
  lemma CodesExact(db: Db, product: Id, license: Option<Id>, limit: nat, expires: Option<int>, hashes: seq<CodeHash>)
    ensures CreateCodes(db, product, license, limit, expires, hashes).Ok? <==>
              && 1 <= |hashes| <= 100 && 1 <= limit <= 10000 && product in db.products
              && (license.Some? ==> license.value in db.licenses && db.licenses[license.value].product == product)
              && (forall i :: 0 <= i < |hashes| ==> hashes[i] !in db.codes)
              && (forall i, j :: 0 <= i < j < |hashes| ==> hashes[i] != hashes[j])
    ensures CreateCodes(db, product, license, limit, expires, hashes).Ok? ==>
              var d := CreateCodes(db, product, license, limit, expires, hashes).value;
              && (forall h :: h in hashes ==>
                    && h in d.codes && d.codes[h].product == product && d.codes[h].license == license
                    && d.codes[h].limit == limit
                    && d.codes[h].count == 0 && d.codes[h].expires == expires && d.codes[h].disabled == false)
              && (forall c :: c in d.codes <==> c in db.codes || c in hashes)
              && (forall c :: c in db.codes ==> d.codes[c] == db.codes[c])
              && d == db.(codes := d.codes)
  {
    if CreateCodes(db, product, license, limit, expires, hashes).Ok? {
      forall h | h in hashes ensures h !in db.codes {
        var i :| 0 <= i < |hashes| && hashes[i] == h;
      }
    }
  }

  /** The license asked for, live from now on; a permanent one never expires and any other still has to. */
  lemma LicenseExact(db: Db, id: Id, kind: LicenseKind, l: License, now: int, clock: int)
    ensures CreateLicense(db, id, kind, l, now, clock).Ok? <==>
              && kind != UnknownKind && 1 <= l.deviceLimit <= 10000 && id !in db.licenses && l.product in db.products
              && (kind == PermanentKind ==> l.expires == None)
              && (kind != PermanentKind ==> l.expires.Some? && clock < l.expires.value && now < l.expires.value)
    ensures CreateLicense(db, id, kind, l, now, clock).Ok? ==>
              CreateLicense(db, id, kind, l, now, clock).value
              == db.(licenses := db.licenses[id := License(l.product, l.user, Live, now, l.expires, l.deviceLimit)])
  {
  }
}
