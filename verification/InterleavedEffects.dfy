/** Unbinding and revocation in every interleaving, in the fields of the rows. */
module InterleavedEffects {
  import opened Bytes
  import opened Ledger
  import opened LedgerLaws
  import opened Transactions
  import ActivationRules
  import LedgerEffects

  /**
   * In every interleaving, the rows that an unbind changes are exactly those it had locked, each
   * of them a bound row of its device under a license of its user; they are unbound and their
   * tokens revoked, and no other row or token changes.
   */
  lemma ReleaseChangesOwned(run: seq<System>, actions: seq<Action>, n: nat, a: Id, t: Id)
    requires Interleaving(run, actions) && n < |actions| && actions[n].Release?
    ensures actions[n].i in run[n].txs && run[n].txs[actions[n].i].Unbind?
    ensures var db, d, u := run[n].db, run[n + 1].db, run[n].txs[actions[n].i].work;
            && (a in db.acts ==>
                  && a in d.acts && d.acts[a] == db.acts[a].(unbound := d.acts[a].unbound)
                  && (d.acts[a].unbound != db.acts[a].unbound <==> a in u.rows))
            && (a in u.rows ==>
                  && a in db.acts && db.acts[a].unbound == false && db.acts[a].device == u.device
                  && db.acts[a].license in db.licenses && db.licenses[db.acts[a].license].user == Some(u.user))
            && (t in db.tokens ==>
                  t in d.tokens
                    && d.tokens[t]
                          == db.tokens[t].(revoked := db.tokens[t].revoked || db.tokens[t].activation in u.rows))
  {
    InterleavingInvariant(run, actions, n);
    assert Next(run[n], actions[n], run[n + 1]);
    var u := run[n].txs[actions[n].i].work;
    ReleasedFields(run[n].db, u, a, t);
  }

  lemma ReleasedFields(db: Db, u: Unbinding, a: Id, t: Id)
    requires UnbindFacts(db, u) && u.settled == |u.rows|
    ensures var d := UnbindWrite(db, u);
            && (a in db.acts ==>
                  && a in d.acts && d.acts[a] == db.acts[a].(unbound := d.acts[a].unbound)
                  && (d.acts[a].unbound != db.acts[a].unbound <==> a in u.rows))
            && (a in u.rows ==>
                  && a in db.acts && db.acts[a].unbound == false && db.acts[a].device == u.device
                  && db.acts[a].license in db.licenses && db.licenses[db.acts[a].license].user == Some(u.user))
            && (t in db.tokens ==>
                  t in d.tokens
                    && d.tokens[t]
                          == db.tokens[t].(revoked := db.tokens[t].revoked || db.tokens[t].activation in u.rows))
  {
    if a in u.rows {
      LedgerEffects.OwnedRows(db, u.user, u.device, a);
    }
    assert u.rows[..u.settled] == u.rows;
  }

  // ---- revocation ----

  ghost predicate ChangesStatus(action: Action, l: Id) {
    action.Administer? && action.txn.StatusTxn? && action.txn.target == l
  }

  lemma StepKept(run: seq<System>, actions: seq<Action>, i: nat, l: Id)
    requires Interleaving(run, actions) && i < |actions| && !ChangesStatus(actions[i], l)
    ensures LedgerEffects.KeptAt(run[i].db, run[i + 1].db, l)
  {
    LastStep(run, actions, i + 1);
    var t := Committed(run[i], actions[i]);
    if l in run[i].db.licenses && t.Some? {
      LedgerEffects.LicenseKept(run[i].db, t.value, l);
    }
  }

  lemma RevokedNow(run: seq<System>, actions: seq<Action>, m: nat, n: nat, l: Id)
    requires Interleaving(run, actions) && m < n < |run| && ChangesStatus(actions[m], l)
             && actions[m].txn.status == Revoked
    requires l in run[m].db.licenses && forall i :: m < i < n ==> !ChangesStatus(actions[i], l)
    ensures l in run[n].db.licenses && run[n].db.licenses[l].status == Revoked
  {
    LastStep(run, actions, m + 1);
    LedgerEffects.StatusExact(run[m].db, l, Revoked, actions[m].txn.order);
    var dbs := Ledgers(run);
    forall i | m + 1 <= i < n ensures LedgerEffects.KeptAt(dbs[i], dbs[i + 1], l) {
      StepKept(run, actions, i, l);
    }
    LedgerEffects.LicenseLasts(dbs, m + 1, n, l);
  }

  /**
   * In every interleaving: between a revocation and the next status change of that license no
   * request with a code of it is granted, and one that is refused although nothing else is wrong
   * with it is told that the license is revoked.
   */
  lemma InterleavedRevocation(run: seq<System>, actions: seq<Action>, m: nat, n: nat, l: Id)
    requires Interleaving(run, actions) && m < n < |actions| && ChangesStatus(actions[m], l)
             && actions[m].txn.status == Revoked
    requires l in run[m].db.licenses && forall i :: m < i < n ==> !ChangesStatus(actions[i], l)
    requires (actions[n].Grant? || actions[n].Refuse?) && actions[n].i in run[n].txs
             && run[n].txs[actions[n].i].Activate?
    requires var c := run[n].txs[actions[n].i].request.code;
             c in run[n].db.codes && run[n].db.codes[c].license == Some(l)
    ensures actions[n].Refuse?
    ensures var tx := run[n].txs[actions[n].i];
            ActivationRules.Addressed(run[n].db, tx.request, tx.env) ==> actions[n].error == LicenseRevokedError
  {
    var tx := run[n].txs[actions[n].i];
    RevokedNow(run, actions, m, n, l);
    InterleavingInvariant(run, actions, n);
    StepSerial(run[n], actions[n], run[n + 1]);
    LedgerEffects.RevokedRefuses(run[n].db, tx.request, tx.env, l);
  }
}
