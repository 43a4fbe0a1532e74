/** The handlers as they run: tables updated statement by statement, rolled back on every error. */
module LedgerStore {
  import opened Bytes
  import opened Crypto
  import opened Ledger
  import opened LedgerLaws
  import opened LedgerEffects

  /** The rows of a sequence, as a set. */
  function RowSet(order: seq<Id>): set<Id> { set a | a in order }

  /** The tables after the per-row loop of an unbind has handled the rows done so far. */
  ghost function Handled(db: Db, rows: set<Id>, done: seq<Id>): Db {
    var u := UnbindRows(db, RowSet(done), done);
    u.(acts := Marked(db.acts, rows))
  }

  function Marked(acts: Rows, rows: set<Id>): Rows {
    map a | a in acts :: if a in rows then acts[a].(unbound := true) else acts[a]
  }

  function Revoking(tokens: map<Id, Token>, a: Id): map<Id, Token> {
    map t | t in tokens :: if tokens[t].activation == a then tokens[t].(revoked := true) else tokens[t]
  }

  function Lowered(codes: map<CodeHash, Code>, c: CodeHash): map<CodeHash, Code>
    requires c in codes
  {
    codes[c := codes[c].(count := codes[c].count - 1)]
  }

  lemma OneMoreOfCode(db: Db, done: seq<Id>, a: Id, c: CodeHash)
    requires a in db.acts && a !in done
    ensures |OfCode(db, RowSet(done + [a]), c)|
            == |OfCode(db, RowSet(done), c)| + (if db.acts[a].code == c then 1 else 0)
  {
    if db.acts[a].code == c {
      assert OfCode(db, RowSet(done + [a]), c) == OfCode(db, RowSet(done), c) + {a};
    } else {
      assert OfCode(db, RowSet(done + [a]), c) == OfCode(db, RowSet(done), c);
    }
  }

  lemma OneMoreLowered(db: Db, rows: set<Id>, done: seq<Id>, a: Id)
    requires a in db.acts && a !in done && db.acts[a].code in db.codes
    ensures Handled(db, rows, done + [a]).codes == Lowered(Handled(db, rows, done).codes, db.acts[a].code)
  {
    var before, after := Handled(db, rows, done).codes, Handled(db, rows, done + [a]).codes;
    forall c | c in db.codes ensures after[c] == Lowered(before, db.acts[a].code)[c] {
      OneMoreOfCode(db, done, a, c);
    }
  }

  lemma OneMoreRevoked(db: Db, rows: set<Id>, done: seq<Id>, a: Id)
    ensures Handled(db, rows, done + [a]).tokens == Revoking(Handled(db, rows, done).tokens, a)
  {
  }

  /** One row's share of an unbind. */
  function Settled(db: Db, a: Id): Db
    requires a in db.acts && db.acts[a].code in db.codes
  {
    db.(tokens := Revoking(db.tokens, a), codes := Lowered(db.codes, db.acts[a].code),
        outbox := db.outbox + [Event(DeviceUnbound, a)])
  }

  lemma OneMoreRow(db: Db, rows: set<Id>, done: seq<Id>, a: Id)
    requires a in db.acts && a !in done && db.acts[a].code in db.codes
    ensures a in Handled(db, rows, done).acts && Handled(db, rows, done).acts[a].code in Handled(db, rows, done).codes
    ensures Handled(db, rows, done + [a]) == Settled(Handled(db, rows, done), a)
  {
    OneMoreLowered(db, rows, done, a);
    OneMoreRevoked(db, rows, done, a);
    assert UnboundEvents(done + [a]) == UnboundEvents(done) + [Event(DeviceUnbound, a)];
    assert Handled(db, rows, done + [a]).outbox == Handled(db, rows, done).outbox + [Event(DeviceUnbound, a)];
  }

  ghost predicate Coded(db: Db, order: seq<Id>) {
    forall a :: a in order ==> a in db.acts && db.acts[a].code in db.codes
  }

  function SettledAll(db: Db, order: seq<Id>): (d: Db)
    requires Coded(db, order)
    ensures d.acts == db.acts && d.codes.Keys == db.codes.Keys && d.products == db.products
  {
    if order == [] then db
    else
      var last := order[|order| - 1];
      assert last in order;
      Settled(SettledAll(db, order[..|order| - 1]), last)
  }

  /** Row by row in any order is the unbind of the whole set at once. */
  lemma {:induction false} SettlingIsUnbinding(db: Db, rows: set<Id>, order: seq<Id>)
    requires Coded(db, order) && forall i, j :: 0 <= i < j < |order| ==> order[i] != order[j]
    ensures Coded(Handled(db, rows, []), order)
    ensures SettledAll(Handled(db, rows, []), order) == Handled(db, rows, order)
  {
    if order != [] {
      var done, a := order[..|order| - 1], order[|order| - 1];
      SettlingIsUnbinding(db, rows, done);
      assert a in order;
      assert order == done + [a];
      OneMoreRow(db, rows, done, a);
    }
  }

  lemma NoRowsHandled(db: Db, rows: set<Id>)
    ensures Handled(db, rows, []) == db.(acts := Marked(db.acts, rows))
  {
  }

  lemma AllHandled(db: Db, rows: set<Id>, order: seq<Id>)
    requires Lists(order, rows)
    ensures Handled(db, rows, order) == UnbindRows(db, rows, order)
  {
    assert RowSet(order) == rows;
  }

  predicate Distinct(hashes: seq<CodeHash>) {
    forall i, j :: 0 <= i < j < |hashes| ==> hashes[i] != hashes[j]
  }

  function Added(codes: map<CodeHash, Code>, hashes: seq<CodeHash>, row: Code): map<CodeHash, Code> {
    map c | c in codes.Keys + (set h | h in hashes) :: if c in codes then codes[c] else row
  }

  /** Distinct hashes, none of them taken. */
  predicate Fits(codes: map<CodeHash, Code>, hashes: seq<CodeHash>) {
    Distinct(hashes) && forall h :: h in hashes ==> h !in codes
  }

  lemma NoneAdded(codes: map<CodeHash, Code>, hashes: seq<CodeHash>, row: Code)
    ensures Added(codes, hashes[..0], row) == codes
  {
  }

  lemma AddedOne(codes: map<CodeHash, Code>, hashes: seq<CodeHash>, i: nat, row: Code)
    requires i < |hashes| && Fits(codes, hashes[..i])
    ensures var before := Added(codes, hashes[..i], row);
            && (hashes[i] !in before ==>
                  Fits(codes, hashes[..i + 1]) && Added(codes, hashes[..i + 1], row) == before[hashes[i] := row])
            && (hashes[i] in before ==> !Fits(codes, hashes))
  {
    assert hashes[..i + 1] == hashes[..i] + [hashes[i]];
    assert hashes[i] in Added(codes, hashes[..i], row) <==> hashes[i] in codes || hashes[i] in hashes[..i];
    assert hashes[i] in hashes;
  }

  /** The rows after an unbind, whether or not it found any. */
  lemma RowsExact(db: Db, d: Db, user: Id, device: Digest, order: seq<Id>)
    requires Lists(order, Matching(db, user, device))
    requires d == if order == [] then db else UnbindRows(db, Matching(db, user, device), order)
    ensures forall a :: a in db.acts ==>
              && a in d.acts && d.acts[a] == db.acts[a].(unbound := d.acts[a].unbound)
              && (d.acts[a].unbound != db.acts[a].unbound <==> Owns(db, user, device, a))
    ensures order == [] <==> forall a :: a in db.acts ==> !Owns(db, user, device, a)
    ensures order == [] <==> Matching(db, user, device) == {}
  {
    UnbindExact(db, user, device, order);
    if order != [] {
      assert order[0] in Matching(db, user, device);
    } else {
      assert forall a :: a !in Matching(db, user, device);
    }
  }

  class Store {
    const products: map<Id, Bytes>
    var codes: map<CodeHash, Code>
    var licenses: map<Id, License>
    var devices: set<Digest>
    var acts: map<Id, Activation>
    var tokens: map<Id, Token>
    var outbox: seq<Event>

    constructor (products: map<Id, Bytes>)
      ensures View() == Db(products, map[], map[], {}, map[], map[], [])
    {
      this.products := products;
      codes, licenses, devices, acts, tokens, outbox := map[], map[], {}, map[], map[], [];
    }

    function View(): Db
      reads this
    {
      Db(products, codes, licenses, devices, acts, tokens, outbox)
    }

    method Rollback(saved: Db)
      requires saved.products == products
      modifies this
      ensures View() == saved
    {
      codes, licenses, devices, acts, tokens, outbox :=
        saved.codes, saved.licenses, saved.devices, saved.acts, saved.tokens, saved.outbox;
    }

    method FindKeyed(c: CodeHash, key: Bytes) returns (found: Option<Id>)
      ensures found.Some? ==> found.value in Keyed(View(), c, key)
      ensures found.None? ==> Keyed(View(), c, key) == {}
    {
      var rest := acts.Keys;
      while rest != {}
        invariant rest <= acts.Keys
        invariant forall a :: a in Keyed(View(), c, key) ==> a in rest
        decreases rest
      {
        var a :| a in rest;
        if acts[a].code == c && acts[a].key == Some(key) { return Some(a); }
        rest := rest - {a};
      }
      return None;
    }

    method FindBound(l: Id, device: Digest) returns (found: Option<Id>)
      ensures found.Some? ==> found.value in Bound(View(), l, device)
      ensures found.None? ==> Bound(View(), l, device) == {}
    {
      var rest := acts.Keys;
      while rest != {}
        invariant rest <= acts.Keys
        invariant forall a :: a in Bound(View(), l, device) ==> a in rest
        decreases rest
      {
        var a :| a in rest;
        if !acts[a].unbound && acts[a].license == l && acts[a].device == device { return Some(a); }
        rest := rest - {a};
      }
      return None;
    }

    method CountActive(l: Id) returns (n: nat)
      ensures n == |ActiveByLicense(View(), l)|
    {
      n := 0;
      var rest := acts.Keys;
      ghost var seen: set<Id> := {};
      while rest != {}
        invariant rest <= acts.Keys
        invariant seen == set a | a in acts && a !in rest && !acts[a].unbound && acts[a].license == l
        invariant n == |seen|
        decreases rest
      {
        var a :| a in rest;
        rest := rest - {a};
        if !acts[a].unbound && acts[a].license == l {
          seen := seen + {a};
          n := n + 1;
        }
      }
      assert seen == ActiveByLicense(View(), l);
    }

    /** finish_activation, inside the transaction that began at saved. */
    method FinishActivation(a: Id, env: Env, saved: Db) returns (r: Result<Activated>)
      requires a in acts && saved.products == products
      modifies this
      ensures match Finish(old(View()), a, env)
              case Ok((d, x)) => View() == d && r == Ok(x)
              case Err(e) => View() == saved && r == Err(e)
    {
      if acts[a].license !in licenses {
        Rollback(saved);
        return Err(Internal);
      }
      if acts[a].unbound {
        Rollback(saved);
        return Err(ActivationInactive);
      }
      var refusal := LicenseRefusal(licenses[acts[a].license], env.clock);
      if refusal.Some? {
        Rollback(saved);
        return Err(refusal.value);
      }
      if env.newToken in tokens {
        Rollback(saved);
        return Err(Internal);
      }
      tokens := tokens[env.newToken := Token(a, env.tokenExpires, false)];
      return Ok(Activated(acts[a].blob, env.newToken));
    }

    /** The part of activate that follows the license checks. */
    method RedeemCode(r: Request, l: Id, env: Env, saved: Db) returns (res: Result<Activated>)
      requires r.code in codes && l in licenses && saved.products == products
      requires KeysUnique(View()) && BindingsUnique(View())
      requires |ActiveByCode(View(), r.code)| == codes[r.code].count
      modifies this
      ensures match Redeem(old(View()), r, l, env)
              case Ok((d, x)) => View() == d && res == Ok(x)
              case Err(e) => View() == saved && res == Err(e)
    {
      var machine := Sha256(r.machine);
      if r.key.Some? {
        var row := FindKeyed(r.code, r.key.value);
        if row.Some? {
          KeyedSingleton(View(), r.code, r.key.value, row.value);
          if acts[row.value].device != machine {
            Rollback(saved);
            return Err(IdempotencyMismatch);
          }
          if acts[row.value].unbound {
            Rollback(saved);
            return Err(ActivationInactive);
          }
          res := FinishActivation(row.value, env, saved);
          return;
        }
      }
      devices := devices + {machine};
      assert View() == old(View()).(devices := old(devices) + {machine});
      res := BindDevice(r, l, env, saved);
    }

    /** Reuse the device's binding, or insert one within both limits. */
    method BindDevice(r: Request, l: Id, env: Env, saved: Db) returns (res: Result<Activated>)
      requires r.code in codes && l in licenses && saved.products == products
      requires BindingsUnique(View())
      modifies this
      ensures match Bind(old(View()), r, l, env)
              case Ok((d, x)) => View() == d && res == Ok(x)
              case Err(e) => View() == saved && res == Err(e)
    {
      var machine := Sha256(r.machine);
      var bound := FindBound(l, machine);
      if bound.Some? {
        BoundSingleton(View(), l, machine, bound.value);
        res := FinishActivation(bound.value, env, saved);
        return;
      }
      if codes[r.code].count >= codes[r.code].limit {
        Rollback(saved);
        return Err(ActivationLimit);
      }
      var active := CountActive(l);
      if active >= licenses[l].deviceLimit {
        Rollback(saved);
        return Err(DeviceLimit);
      }
      if env.signed.None? {
        Rollback(saved);
        return Err(Internal);
      }
      if env.newActivation in acts {
        Rollback(saved);
        return Err(ActivationConflict);
      }
      if r.key.Some? {
        var taken := FindKeyed(r.code, r.key.value);
        if taken.Some? {
          Rollback(saved);
          return Err(ActivationConflict);
        }
      }
      acts := acts[env.newActivation := Activation(l, machine, r.code, r.key, env.signed.value, false)];
      codes := codes[r.code := codes[r.code].(count := codes[r.code].count + 1)];
      assert Insert(old(View()), r, l, env) == Ok(View());
      res := FinishActivation(env.newActivation, env, saved);
    }

    /** The license of the code, created and linked on first use. */
    method JoinLicense(c: CodeHash, env: Env) returns (r: Result<Id>)
      requires c in codes
      modifies this
      ensures match Linked(old(View()), c, env)
              case Ok((d, l)) => View() == d && r == Ok(l)
              case Err(e) => View() == old(View()) && r == Err(e)
    {
      var code := codes[c];
      if code.license.Some? { return Ok(code.license.value); }
      if env.newLicense in licenses { return Err(Internal); }
      licenses := licenses[env.newLicense := License(code.product, None, Live, env.now, None, code.limit)];
      codes := codes[c := code.(license := Some(env.newLicense))];
      return Ok(env.newLicense);
    }

    /** activate. */
    method Activate(r: Request, env: Env) returns (res: Result<Activated>)
      requires Sound(View())
      modifies this
      ensures Sound(View())
      ensures View() == AfterActivate(old(View()), r, env)
      ensures match Transact(old(View()), r, env)
              case Ok((_, x)) => res == Ok(x)
              case Err(e) => res == Err(e)
    {
      ActivateKeeps(View(), r, env);
      if r.version != 1 || r.machine == [] || |r.machine| > 1024
        || (r.key.Some? && (r.key.value == [] || |r.key.value| > 200)) {
        return Err(InvalidActivation);
      }
      if !env.admitted { return Err(RateLimited); }
      if !CodeUsable(View(), r.code, env.now) { return Err(InvalidCode); }
      if products[codes[r.code].product] != r.product { return Err(ProductMismatch); }
      res := WithLicense(r, env);
    }

    /** The rest of activate, with the code in hand. */
    method WithLicense(r: Request, env: Env) returns (res: Result<Activated>)
      requires Sound(View()) && r.code in codes
      modifies this
      ensures match Linked(old(View()), r.code, env)
              case Err(e) => View() == old(View()) && res == Err(e)
              case Ok((d, l)) =>
                && l in d.licenses && d.licenses[l].product == old(codes)[r.code].product
                && match LicenseRefusal(d.licenses[l], env.now)
                   case Some(e) => View() == old(View()) && res == Err(e)
                   case None =>
                     match Redeem(d, r, l, env)
                     case Ok((after, x)) => View() == after && res == Ok(x)
                     case Err(e) => View() == old(View()) && res == Err(e)
    {
      var saved := View();
      var linked := JoinLicense(r.code, env);
      if linked.Err? { return Err(linked.error); }
      var l := linked.value;
      LinkKeeps(saved, r.code, env);
      assert licenses[l].product == codes[r.code].product;
      var refusal := LicenseRefusal(licenses[l], env.now);
      if refusal.Some? {
        Rollback(saved);
        return Err(refusal.value);
      }
      res := RedeemCode(r, l, env, saved);
    }

    /** The rows of the owner on the device, in the order the table gives them. */
    method FindMatching(user: Id, device: Digest) returns (order: seq<Id>)
      ensures Lists(order, Matching(View(), user, device))
    {
      ghost var rows := Matching(View(), user, device);
      order := [];
      var rest := acts.Keys;
      while rest != {}
        invariant rest <= acts.Keys
        invariant forall a :: a in order <==> a in rows && a !in rest
        invariant forall i, j :: 0 <= i < j < |order| ==> order[i] != order[j]
        decreases rest
      {
        var a :| a in rest;
        rest := rest - {a};
        if !acts[a].unbound && acts[a].device == device && acts[a].license in licenses
          && licenses[acts[a].license].user == Some(user) {
          order := order + [a];
        }
      }
    }

    method MarkRows(order: seq<Id>, ghost rows: set<Id>)
      requires Lists(order, rows)
      modifies this
      ensures View() == Handled(old(View()), rows, [])
    {
      NoRowsHandled(View(), rows);
      assert RowSet(order) == rows;
      acts := Marked(acts, RowSet(order));
    }

    method SettleRow(a: Id)
      requires a in acts && acts[a].code in codes
      modifies this
      ensures View() == Settled(old(View()), a)
    {
      tokens := Revoking(tokens, a);
      codes := Lowered(codes, acts[a].code);
      outbox := outbox + [Event(DeviceUnbound, a)];
    }

    /** Per row: revoke its tokens, lower its code, announce it. */
    method SettleRows(order: seq<Id>)
      requires Coded(View(), order)
      modifies this
      ensures View() == SettledAll(old(View()), order)
    {
      var i := 0;
      while i < |order|
        invariant 0 <= i <= |order|
        invariant View() == SettledAll(old(View()), order[..i])
      {
        assert order[i] in order;
        assert order[..i + 1][..i] == order[..i];
        SettleRow(order[i]);
        i := i + 1;
      }
      assert order[..i] == order;
    }

    /** Mark the rows found, then settle them one by one. */
    method UnbindFound(user: Id, device: Digest) returns (order: seq<Id>)
      requires Sound(View())
      modifies this
      ensures Sound(View()) && Lists(order, Matching(old(View()), user, device))
      ensures View() == if order == [] then old(View())
              else UnbindRows(old(View()), Matching(old(View()), user, device), order)
    {
      ghost var db := View();
      ghost var rows := Matching(db, user, device);
      order := FindMatching(user, device);
      if order == [] { return; }
      MarkRows(order, rows);
      SettlingIsUnbinding(db, rows, order);
      SettleRows(order);
      AllHandled(db, rows, order);
      UnbindKeeps(db, rows, order);
    }

    /** unbind_device: the user's bound rows of the device and no others. */
    method UnbindDevice(user: Id, device: Digest) returns (r: Result<seq<Id>>)
      requires Sound(View())
      modifies this
      ensures Sound(View())
      ensures r.Err? ==> View() == old(View()) && r.error == NotFound && Matching(old(View()), user, device) == {}
      ensures r.Ok? ==> && r.value != [] && Lists(r.value, Matching(old(View()), user, device))
                        && View() == UnbindRows(old(View()), Matching(old(View()), user, device), r.value)
      ensures forall a :: a in old(acts) ==>
                && a in acts && acts[a] == old(acts)[a].(unbound := acts[a].unbound)
                && (acts[a].unbound != old(acts)[a].unbound <==>
                      && old(acts)[a].unbound == false && old(acts)[a].device == device
                      && old(acts)[a].license in old(licenses)
                      && old(licenses)[old(acts)[a].license].user == Some(user))
      ensures r == Err(NotFound) <==>
                forall a :: a in old(acts) ==>
                  || old(acts)[a].unbound || old(acts)[a].device != device
                  || old(acts)[a].license !in old(licenses) || old(licenses)[old(acts)[a].license].user != Some(user)
    {
      ghost var db := View();
      var order := UnbindFound(user, device);
      RowsExact(db, View(), user, device, order);
      if order == [] { return Err(NotFound); }
      return Ok(order);
    }

    /** admin_create_codes: one insert per code, the first clash undoing them all. */
    method CreateBatch(product: Id, license: Option<Id>, limit: nat, expires: Option<int>, hashes: seq<CodeHash>)
        returns (r: Result<seq<CodeHash>>)
      modifies this
      ensures match CreateCodes(old(View()), product, license, limit, expires, hashes)
              case Ok(d) => View() == d && r == Ok(hashes)
              case Err(e) => View() == old(View()) && r == Err(e)
      ensures old(Sound(View())) ==> Sound(View())
    {
      ghost var made := CreateCodes(View(), product, license, limit, expires, hashes);
      if old(Sound(View())) && made.Ok? {
        CreateCodesKeeps(View(), product, license, limit, expires, hashes);
      }
      if |hashes| == 0 || |hashes| > 100 { return Err(BadRequest); }
      if limit < 1 || limit > 10000 { return Err(BadRequest); }
      if license.Some?
        && (license.value !in licenses || licenses[license.value].product != product) { return Err(ProductMismatch); }
      if made.Ok? {
        forall h | h in hashes ensures h !in codes {
          var i :| 0 <= i < |hashes| && hashes[i] == h;
        }
      }
      r := InsertBatch(product, license, limit, expires, hashes);
    }

    /** One insert; a missing product or a taken hash refuses it. */
    method InsertCode(hash: CodeHash, row: Code) returns (ok: bool)
      modifies this
      ensures ok <==> row.product in products && hash !in old(codes)
      ensures View() == if ok then old(View()).(codes := old(codes)[hash := row]) else old(View())
    {
      ok := row.product in products && hash !in codes;
      if ok { codes := codes[hash := row]; }
    }

    method InsertBatch(product: Id, license: Option<Id>, limit: nat, expires: Option<int>, hashes: seq<CodeHash>)
        returns (r: Result<seq<CodeHash>>)
      requires 0 < |hashes|
      modifies this
      ensures r == (if product in products && Fits(old(codes), hashes) then Ok(hashes) else Err(Internal))
      ensures r.Ok? ==>
                var row := Code(product, license, limit, 0, expires, false);
                View() == old(View()).(codes := Added(old(codes), hashes, row))
      ensures r.Err? ==> View() == old(View())
    {
      var saved := View();
      var row := Code(product, license, limit, 0, expires, false);
      r := InsertEach(row, hashes);
      if r.Err? { Rollback(saved); }
    }

    /** The loop over the codes; what a clash leaves behind is for the caller to undo. */
    method InsertEach(row: Code, hashes: seq<CodeHash>) returns (r: Result<seq<CodeHash>>)
      requires 0 < |hashes|
      modifies this
      ensures r == (if row.product in products && Fits(old(codes), hashes) then Ok(hashes) else Err(Internal))
      ensures r.Ok? ==> View() == old(View()).(codes := Added(old(codes), hashes, row))
    {
      ghost var db := View();
      NoneAdded(codes, hashes, row);
      var i := 0;
      while i < |hashes|
        invariant 0 <= i <= |hashes|
        invariant View() == db.(codes := Added(db.codes, hashes[..i], row))
        invariant Fits(db.codes, hashes[..i]) && (i > 0 ==> row.product in products)
      {
        AddedOne(db.codes, hashes, i, row);
        var ok := InsertCode(hashes[i], row);
        if !ok { return Err(Internal); }
        i := i + 1;
      }
      assert hashes[..i] == hashes;
      return Ok(hashes);
    }
  }
}
