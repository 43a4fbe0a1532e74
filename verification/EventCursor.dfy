/**
 * The event socket of an activation: a cursor over the outbox that is read in batches while
 * the token is authorised, and once more, for the parting topics only, when it no longer is.
 */
module EventCursor {

  datatype Row = Row(id: nat, aggregate: nat, topic: string)

  /** The rows a query sees, in id order. */
  type Table = seq<Row>

  const BATCH: nat := 100
  const TOPICS: set<string> := {"license.updated", "license.revoked", "device.unbound", "features.changed"}
  const PARTING: set<string> := {"license.revoked", "device.unbound"}

  predicate Sorted(rows: Table) {
    && (forall i :: 0 <= i < |rows| ==> rows[i].id > 0)
    && (forall i, j :: 0 <= i < j < |rows| ==> rows[i].id < rows[j].id)
  }

  function Select(table: Table, aggregate: nat, after: nat, topics: set<string>): Table {
    if table == [] then []
    else
      var rest := Select(table[1..], aggregate, after, topics);
      if table[0].aggregate == aggregate && table[0].id > after
        && table[0].topic in topics then [table[0]] + rest else rest
  }

  function Take(rows: Table, n: nat): Table { if |rows| <= n then rows else rows[..n] }

  function Batch(table: Table, aggregate: nat, after: nat, topics: set<string>): Table {
    Take(Select(table, aggregate, after, topics), BATCH)
  }

  /** Everything the activation is ever to be told, as far as it is visible. */
  function Matches(table: Table, aggregate: nat): Table { Select(table, aggregate, 0, TOPICS) }

  // ---- the socket ----

  datatype Socket = Socket(live: bool, last: nat, delivered: Table)

  /** sends: how many sends of this turn succeed before one fails. */
  datatype Turn =
    | Incoming(closes: bool)
    | Tick(authorized: bool, queried: bool, sends: nat, ping: bool)

  function Step(s: Socket, aggregate: nat, turn: Turn, table: Table): Socket {
    if !s.live then s
    else
      match turn
      case Incoming(closes) => s.(live := !closes)
      case Tick(authorized, queried, sends, ping) =>
        var rows := if queried then Batch(table, aggregate, s.last, if authorized then TOPICS else PARTING) else [];
        var sent := Take(rows, sends);
        if !authorized then Socket(false, s.last, s.delivered + sent)
        else if sends < |rows| then Socket(false, rows[sends].id, s.delivered + sent)
        else Socket(ping, if rows == [] then s.last else rows[|rows| - 1].id, s.delivered + rows)
  }

  class EventSocket {
    const aggregate: nat
    var live: bool
    var last: nat
    var delivered: Table

    constructor (aggregate: nat)
      ensures this.aggregate == aggregate && View() == Socket(true, 0, [])
    {
      this.aggregate := aggregate;
      live, last, delivered := true, 0, [];
    }

    function View(): Socket
      reads this
    {
      Socket(live, last, delivered)
    }

    /** Send the rows in turn, moving the cursor before each send when asked to. */
    method SendRows(rows: Table, track: bool, sends: nat) returns (ok: bool)
      requires live
      modifies this
      ensures ok <==> |rows| <= sends
      ensures delivered == old(delivered) + Take(rows, sends) && live
      ensures last == if !track || rows == [] then old(last) else if ok then rows[|rows| - 1].id else rows[sends].id
    {
      var i := 0;
      while i < |rows|
        invariant 0 <= i <= |rows| && i <= sends && live
        invariant delivered == old(delivered) + rows[..i]
        invariant last == if !track || i == 0 then old(last) else rows[i - 1].id
      {
        if track { last := rows[i].id; }
        if i == sends { return false; }
        delivered := delivered + [rows[i]];
        assert rows[..i + 1] == rows[..i] + [rows[i]];
        i := i + 1;
      }
      assert rows[..i] == rows;
      return true;
    }

    /** One turn of the loop. */
    method Serve(turn: Turn, table: Table)
      modifies this
      ensures View() == Step(old(View()), aggregate, turn, table)
    {
      if !live { return; }
      match turn
      case Incoming(closes) =>
        live := !closes;
      case Tick(authorized, queried, sends, ping) =>
        var rows := [];
        if queried {
          rows := Batch(table, aggregate, last, if authorized then TOPICS else PARTING);
        }
        var ok := SendRows(rows, authorized, sends);
        live := authorized && ok && ping;
    }
  }

  // ---- sorted rows ----

  lemma {:induction false} Selected(table: Table, aggregate: nat, after: nat, topics: set<string>, r: Row)
    ensures r in Select(table, aggregate, after, topics) <==>
              r in table && r.aggregate == aggregate && r.id > after && r.topic in topics
  {
    if table != [] {
      Selected(table[1..], aggregate, after, topics, r);
    }
  }

  lemma {:induction false} SelectSorted(table: Table, aggregate: nat, after: nat, topics: set<string>)
    requires Sorted(table)
    ensures Sorted(Select(table, aggregate, after, topics))
  {
    if table != [] {
      SelectSorted(table[1..], aggregate, after, topics);
      var rest := Select(table[1..], aggregate, after, topics);
      forall i | 0 <= i < |rest| ensures rest[i].id > table[0].id {
        Selected(table[1..], aggregate, after, topics, rest[i]);
        assert rest[i] in table[1..];
      }
    }
  }

  lemma EmptyIff(rows: Table)
    ensures rows == [] <==> forall r :: r !in rows
  {
    assert rows == [] || rows[0] in rows;
  }

  /** Sorted rows are determined by which rows they are. */
  lemma {:induction false} SameSorted(a: Table, b: Table)
    requires Sorted(a) && Sorted(b) && forall r :: r in a <==> r in b
    ensures a == b
  {
    EmptyIff(a);
    EmptyIff(b);
    if a != [] {
      assert a[0] in b && b[0] in a;
      assert a[0] == b[0];
      forall r ensures r in a[1..] <==> r in b[1..] {
        assert r in a <==> r in b;
        assert r in a[1..] <==> r in a && r != a[0];
        assert r in b[1..] <==> r in b && r != b[0];
      }
      SameSorted(a[1..], b[1..]);
      assert a == [a[0]] + a[1..] && b == [b[0]] + b[1..];
    }
  }

  lemma PrefixSorted(rows: Table, n: nat)
    requires Sorted(rows)
    ensures Sorted(Take(rows, n)) && forall r :: r in Take(rows, n) ==> r in rows
  {
  }

  lemma AppendSorted(a: Table, b: Table, last: nat)
    requires Sorted(a) && Sorted(b) && (forall r :: r in a ==> r.id <= last) && (forall r :: r in b ==> r.id > last)
    ensures Sorted(a + b)
  {
  }

  lemma BatchFacts(table: Table, aggregate: nat, after: nat, topics: set<string>)
    requires Sorted(table)
    ensures var rows := Batch(table, aggregate, after, topics);
            Sorted(rows) && forall r :: r in rows ==>
              r in table && r.aggregate == aggregate && r.id > after && r.topic in topics
  {
    var all := Select(table, aggregate, after, topics);
    SelectSorted(table, aggregate, after, topics);
    PrefixSorted(all, BATCH);
    forall r | r in Batch(table, aggregate, after, topics)
      ensures r in table && r.aggregate == aggregate && r.id > after && r.topic in topics
    {
      Selected(table, aggregate, after, topics, r);
    }
  }

  // ---- delivery is strictly increasing, whatever becomes visible when ----

  /** While live the cursor stands on the last delivered row. */
  predicate Tracks(s: Socket) {
    && Sorted(s.delivered)
    && (s.live ==> s.last == if s.delivered == [] then 0 else s.delivered[|s.delivered| - 1].id)
  }

  lemma CursorCovers(s: Socket)
    requires Tracks(s) && s.live
    ensures forall r :: r in s.delivered ==> 0 < r.id <= s.last
  {
  }

  lemma StepTracks(s: Socket, aggregate: nat, turn: Turn, table: Table)
    requires Tracks(s) && Sorted(table)
    ensures Tracks(Step(s, aggregate, turn, table))
  {
    if s.live && turn.Tick? && turn.queried {
      var topics := if turn.authorized then TOPICS else PARTING;
      BatchFacts(table, aggregate, s.last, topics);
      var rows := Batch(table, aggregate, s.last, topics);
      CursorCovers(s);
      PrefixSorted(rows, turn.sends);
      AppendSorted(s.delivered, Take(rows, turn.sends), s.last);
      AppendSorted(s.delivered, rows, s.last);
    }
  }

  /** A socket's turns with the table each of them sees; rows are never removed. */
  ghost predicate Run(states: seq<Socket>, aggregate: nat, turns: seq<Turn>, tables: seq<Table>) {
    && |states| == |turns| + 1 && |tables| == |turns|
    && states[0] == Socket(true, 0, [])
    && (forall i :: 0 <= i < |tables| ==> Sorted(tables[i]))
    && (forall i :: 0 <= i < |turns| ==> states[i + 1] == Step(states[i], aggregate, turns[i], tables[i]))
  }

  ghost predicate Grows(tables: seq<Table>, present: Table) {
    forall i, r :: 0 <= i < |tables| && r in tables[i] ==> r in present
  }

  lemma {:induction false} RunTracks(states: seq<Socket>, aggregate: nat, turns: seq<Turn>, tables: seq<Table>, n: nat)
    requires Run(states, aggregate, turns, tables) && n < |states|
    ensures Tracks(states[n])
  {
    if n > 0 {
      RunTracks(states, aggregate, turns, tables, n - 1);
      StepTracks(states[n - 1], aggregate, turns[n - 1], tables[n - 1]);
    }
  }

  /** On one socket the delivered ids are strictly increasing, the farewell batch included. */
  lemma DeliveryIncreasing(states: seq<Socket>, aggregate: nat, turns: seq<Turn>, tables: seq<Table>, n: nat, i: nat,
      j: nat)
    requires Run(states, aggregate, turns, tables) && n < |states| && i < j < |states[n].delivered|
    ensures states[n].delivered[i].id < states[n].delivered[j].id
  {
    RunTracks(states, aggregate, turns, tables, n);
  }

  // ---- no gap exactly when no row shows up behind the cursor ----

  /** What one turn of a socket that stays live does: the rows up to the new cursor, all of them. */
  lemma LiveStep(s: Socket, aggregate: nat, turn: Turn, table: Table, r: Row)
    requires Tracks(s) && Sorted(table) && Step(s, aggregate, turn, table).live
    ensures var t := Step(s, aggregate, turn, table);
            && s.live && s.last <= t.last
            && (r in t.delivered <==> r in s.delivered || (r in Matches(table, aggregate) && s.last < r.id <= t.last))
  {
    var t := Step(s, aggregate, turn, table);
    Selected(table, aggregate, 0, TOPICS, r);
    if turn.Tick? && turn.queried {
      BatchFacts(table, aggregate, s.last, TOPICS);
      Selected(table, aggregate, s.last, TOPICS, r);
      SelectSorted(table, aggregate, s.last, TOPICS);
      BatchUpTo(Select(table, aggregate, s.last, TOPICS), BATCH, r);
    }
  }

  lemma BatchUpTo(rows: Table, n: nat, r: Row)
    requires Sorted(rows) && n > 0
    ensures var some := Take(rows, n);
            r in some <==> r in rows && r.id <= (if some == [] then 0 else some[|some| - 1].id)
  {
  }

  /** A matching row of the present table that the i-th turn's cursor passed before it was visible. */
  ghost predicate Overtaken(states: seq<Socket>, aggregate: nat, tables: seq<Table>, present: Table, i: nat, r: Row)
    requires i < |tables| && |states| == |tables| + 1
  {
    r in Matches(present, aggregate) && r !in tables[i] && states[i].last < r.id <= states[i + 1].last
  }

  lemma {:induction false} DeliveredRows(states: seq<Socket>, aggregate: nat, turns: seq<Turn>, tables: seq<Table>,
      n: nat, r: Row)
    requires Run(states, aggregate, turns, tables) && n < |states| && states[n].live
    ensures r in states[n].delivered ==> exists i :: 0 <= i < n && r in Matches(tables[i], aggregate)
    ensures 0 < r.id <= states[n].last ==>
              exists i :: 0 <= i < n && states[i].last < r.id <= states[i + 1].last
                && (r in states[n].delivered <==> r in Matches(tables[i], aggregate))
  {
    if n > 0 {
      var s := states[n - 1];
      RunTracks(states, aggregate, turns, tables, n - 1);
      LiveStep(s, aggregate, turns[n - 1], tables[n - 1], r);
      DeliveredRows(states, aggregate, turns, tables, n - 1, r);
      CursorCovers(s);
    }
  }

  predicate IsPrefix(a: Table, b: Table) {
    |a| <= |b| && a == b[..|a|]
  }

  lemma PrefixMissesNone(a: Table, b: Table, last: nat, r: Row)
    requires Sorted(b) && IsPrefix(a, b) && last == (if a == [] then 0 else a[|a| - 1].id) && r in b && r.id <= last
    ensures r in a
  {
  }

  lemma MissingNoneIsPrefix(a: Table, b: Table, last: nat)
    requires Sorted(a) && Sorted(b) && (forall r :: r in a ==> r in b) && last == if a == [] then 0 else a[|a| - 1].id
    requires forall r :: r in b && r.id <= last ==> r in a
    ensures IsPrefix(a, b)
  {
    var k := Below(b, last);
    forall r ensures r in a <==> r in b[..k] {
      if r in a {
        var i :| 0 <= i < |a| && a[i] == r;
        var j :| 0 <= j < |b| && b[j] == r;
      }
      if r in b[..k] {
        var j :| 0 <= j < k && b[j] == r;
        assert b[j] in b;
      }
    }
    SameSorted(a, b[..k]);
  }

  /** Sorted rows taken from sorted rows are a prefix exactly when they miss none up to their last. */
  lemma PrefixIff(a: Table, b: Table, last: nat)
    requires Sorted(a) && Sorted(b) && (forall r :: r in a ==> r in b) && last == if a == [] then 0 else a[|a| - 1].id
    ensures IsPrefix(a, b) <==> forall r :: r in b && r.id <= last ==> r in a
  {
    if IsPrefix(a, b) {
      forall r | r in b && r.id <= last ensures r in a {
        PrefixMissesNone(a, b, last, r);
      }
    }
    if forall r :: r in b && r.id <= last ==> r in a {
      MissingNoneIsPrefix(a, b, last);
    }
  }

  /** How many of the sorted rows have ids up to last. */
  function Below(b: Table, last: nat): (k: nat)
    requires Sorted(b)
    ensures k <= |b| && forall i :: 0 <= i < |b| ==> (b[i].id <= last <==> i < k)
  {
    if b == [] || b[0].id > last then 0
    else
      assert forall i :: 0 <= i < |b[1..]| ==> b[1..][i] == b[i + 1];
      1 + Below(b[1..], last)
  }

  /**
   * While authorised, what was delivered is a prefix of the activation's visible rows, with no
   * gap and no repeat, exactly when no row became visible after the cursor had passed its id.
   */
  lemma NoGapIff(states: seq<Socket>, aggregate: nat, turns: seq<Turn>, tables: seq<Table>, present: Table)
    requires Run(states, aggregate, turns, tables) && states[|turns|].live && Sorted(present) && Grows(tables, present)
    ensures IsPrefix(states[|turns|].delivered, Matches(present, aggregate))
            <==> forall i, r :: 0 <= i < |turns| ==> !Overtaken(states, aggregate, tables, present, i, r)
  {
    var n := |turns|;
    var delivered, all := states[n].delivered, Matches(present, aggregate);
    RunTracks(states, aggregate, turns, tables, n);
    SelectSorted(present, aggregate, 0, TOPICS);
    forall r | r in delivered ensures r in all {
      DeliveredVisible(states, aggregate, turns, tables, present, r);
    }
    PrefixIff(delivered, all, states[n].last);
    if forall i, r :: 0 <= i < n ==> !Overtaken(states, aggregate, tables, present, i, r) {
      forall r | r in all && r.id <= states[n].last ensures r in delivered {
        Selected(present, aggregate, 0, TOPICS, r);
        DeliveredRows(states, aggregate, turns, tables, n, r);
        var i :| 0 <= i < n && states[i].last < r.id <= states[i + 1].last
          && (r in states[n].delivered <==> r in Matches(tables[i], aggregate));
        assert !Overtaken(states, aggregate, tables, present, i, r);
        Selected(tables[i], aggregate, 0, TOPICS, r);
      }
    }
    if IsPrefix(delivered, all) {
      forall i, r | 0 <= i < n ensures !Overtaken(states, aggregate, tables, present, i, r) {
        NotOvertaken(states, aggregate, turns, tables, present, i, r);
      }
    }
  }

  lemma DeliveredVisible(states: seq<Socket>, aggregate: nat, turns: seq<Turn>, tables: seq<Table>, present: Table,
      r: Row)
    requires Run(states, aggregate, turns, tables) && states[|turns|].live && Grows(tables, present)
             && r in states[|turns|].delivered
    ensures r in Matches(present, aggregate)
  {
    DeliveredRows(states, aggregate, turns, tables, |turns|, r);
    var i :| 0 <= i < |turns| && r in Matches(tables[i], aggregate);
    RunTracks(states, aggregate, turns, tables, |turns|);
    CursorCovers(states[|turns|]);
    Selected(tables[i], aggregate, 0, TOPICS, r);
    Selected(present, aggregate, 0, TOPICS, r);
  }

  lemma {:induction false} CursorAdvances(states: seq<Socket>, aggregate: nat, turns: seq<Turn>, tables: seq<Table>,
      i: nat, n: nat)
    requires Run(states, aggregate, turns, tables) && i <= n < |states| && states[n].live
    ensures states[i].last <= states[n].last && states[i].live
    decreases n - i
  {
    if i < n {
      RunTracks(states, aggregate, turns, tables, n - 1);
      LiveStep(states[n - 1], aggregate, turns[n - 1], tables[n - 1], Row(0, 0, ""));
      CursorAdvances(states, aggregate, turns, tables, i, n - 1);
    }
  }

  lemma NotOvertaken(states: seq<Socket>, aggregate: nat, turns: seq<Turn>, tables: seq<Table>, present: Table,
      i: nat, r: Row)
    requires Run(states, aggregate, turns, tables) && states[|turns|].live && i < |turns|
    requires r in Matches(present, aggregate) && r.id <= states[|turns|].last ==> r in states[|turns|].delivered
    ensures !Overtaken(states, aggregate, tables, present, i, r)
  {
    var n := |turns|;
    if Overtaken(states, aggregate, tables, present, i, r) {
      CursorAdvances(states, aggregate, turns, tables, i + 1, n);
      DeliveredRows(states, aggregate, turns, tables, n, r);
      var k :| 0 <= k < n && states[k].last < r.id <= states[k + 1].last
        && (r in states[n].delivered <==> r in Matches(tables[k], aggregate));
      CursorAdvances(states, aggregate, turns, tables, k + 1, n);
      if k < i {
        CursorAdvances(states, aggregate, turns, tables, k + 1, i);
      } else if i < k {
        CursorAdvances(states, aggregate, turns, tables, i + 1, k);
      }
      Selected(tables[i], aggregate, 0, TOPICS, r);
    }
  }

  // ---- rows that become visible in id order ----

  ghost predicate InIdOrder(tables: seq<Table>, present: Table) {
    forall i :: 0 <= i < |tables| ==> IsPrefix(tables[i], present)
  }

  /** While authorised and rows become visible in id order, delivery has no gap. */
  lemma NoGapInIdOrder(states: seq<Socket>, aggregate: nat, turns: seq<Turn>, tables: seq<Table>, present: Table)
    requires Run(states, aggregate, turns, tables) && states[|turns|].live && Sorted(present)
             && InIdOrder(tables, present)
    ensures IsPrefix(states[|turns|].delivered, Matches(present, aggregate))
  {
    forall i, r | 0 <= i < |turns| ensures !Overtaken(states, aggregate, tables, present, i, r) {
      CursorAdvances(states, aggregate, turns, tables, i + 1, |turns|);
      RunTracks(states, aggregate, turns, tables, i);
      CursorInTable(states[i], aggregate, turns[i], tables[i]);
      Selected(present, aggregate, 0, TOPICS, r);
      assert IsPrefix(tables[i], present);
    }
    NoGapIff(states, aggregate, turns, tables, present);
  }

  lemma CursorInTable(s: Socket, aggregate: nat, turn: Turn, table: Table)
    requires Tracks(s) && Sorted(table) && Step(s, aggregate, turn, table).live
    ensures var t := Step(s, aggregate, turn, table); t.last == s.last || exists r :: r in table && r.id == t.last
  {
    if s.live && turn.Tick? && turn.queried {
      BatchFacts(table, aggregate, s.last, TOPICS);
      var rows := Batch(table, aggregate, s.last, TOPICS);
      assert rows == [] || rows[|rows| - 1] in rows;
    }
  }

  /** Each successful turn then moves the prefix on by a whole batch, or to the end. */
  lemma BatchProgress(states: seq<Socket>, aggregate: nat, turns: seq<Turn>, tables: seq<Table>, turn: Turn,
      table: Table)
    requires Run(states, aggregate, turns, tables) && states[|turns|].live && Sorted(table) && InIdOrder(tables, table)
    requires turn.Tick? && turn.authorized && turn.queried && turn.sends >= 100
    ensures var all := Matches(table, aggregate);
            Step(states[|turns|], aggregate, turn, table).delivered == Take(all, |states[|turns|].delivered| + 100)
  {
    var s := states[|turns|];
    var all := Matches(table, aggregate);
    NoGapInIdOrder(states, aggregate, turns, tables, table);
    RunTracks(states, aggregate, turns, tables, |turns|);
    RestIsTail(s, aggregate, table);
    var k := |s.delivered|;
    assert all == all[..k] + all[k..];
    assert Take(all, k + BATCH) == all[..k] + Take(all[k..], BATCH);
  }

  /** Past the cursor is exactly what follows the delivered prefix. */
  lemma BeyondPrefix(s: Socket, all: Table, r: Row)
    requires Tracks(s) && s.live && Sorted(all) && IsPrefix(s.delivered, all)
    ensures r in all && r.id > s.last <==> r in all[|s.delivered|..]
  {
    var k := |s.delivered|;
    assert k > 0 ==> all[k - 1] == s.delivered[k - 1];
    if r in all && r.id > s.last {
      var i :| 0 <= i < |all| && all[i] == r;
      assert i >= k && all[k..][i - k] == r;
    }
    if r in all[k..] {
      var i :| k <= i < |all| && all[i] == r;
    }
  }

  lemma RestIsTail(s: Socket, aggregate: nat, table: Table)
    requires Tracks(s) && s.live && Sorted(table) && IsPrefix(s.delivered, Matches(table, aggregate))
    ensures Select(table, aggregate, s.last, TOPICS) == Matches(table, aggregate)[|s.delivered|..]
  {
    var all, k := Matches(table, aggregate), |s.delivered|;
    var rest := Select(table, aggregate, s.last, TOPICS);
    SelectSorted(table, aggregate, 0, TOPICS);
    SelectSorted(table, aggregate, s.last, TOPICS);
    forall r ensures r in rest <==> r in all[k..] {
      Selected(table, aggregate, 0, TOPICS, r);
      Selected(table, aggregate, s.last, TOPICS, r);
      BeyondPrefix(s, all, r);
    }
    SameSorted(rest, all[k..]);
  }

  /** The parting batch: the revocations and unbindings still undelivered, the first hundred of them, then closed. */
  lemma Farewell(states: seq<Socket>, aggregate: nat, turns: seq<Turn>, tables: seq<Table>, turn: Turn, table: Table,
      r: Row)
    requires Run(states, aggregate, turns, tables) && states[|turns|].live && Sorted(table) && InIdOrder(tables, table)
    requires turn.Tick? && !turn.authorized && turn.queried && turn.sends >= 100
    requires |Select(table, aggregate, states[|turns|].last, PARTING)| <= 100
    ensures var t := Step(states[|turns|], aggregate, turn, table);
            && !t.live
            && (r in table && r.aggregate == aggregate
                  && (r.topic == "license.revoked" || r.topic == "device.unbound") ==>
                  r in t.delivered)
  {
    var s := states[|turns|];
    NoGapInIdOrder(states, aggregate, turns, tables, table);
    RunTracks(states, aggregate, turns, tables, |turns|);
    RestIsTail(s, aggregate, table);
    var all, k := Matches(table, aggregate), |s.delivered|;
    if r in table && r.aggregate == aggregate && r.topic in PARTING {
      Selected(table, aggregate, 0, TOPICS, r);
      assert r in all;
      Selected(table, aggregate, s.last, TOPICS, r);
      Selected(table, aggregate, s.last, PARTING, r);
      assert all == s.delivered + all[k..];
    }
  }

  /** A row that shows up behind the cursor is never delivered: ids are drawn before commits are ordered. */
  lemma GapExample(aggregate: nat)
    ensures var late, early := Row(1, aggregate, "license.updated"), Row(2, aggregate, "license.revoked");
            var tick := Tick(true, true, BATCH, true);
            var first := Step(Socket(true, 0, []), aggregate, tick, [early]);
            var second := Step(first, aggregate, tick, [late, early]);
            second.live && second.delivered == [early] && !IsPrefix(second.delivered, Matches([late, early], aggregate))
  {
    var late, early := Row(1, aggregate, "license.updated"), Row(2, aggregate, "license.revoked");
    assert [early][1..] == [] && [late, early][1..] == [early];
    assert Select([early], aggregate, 0, TOPICS) == [early];
    assert Select([early], aggregate, 2, TOPICS) == [];
    assert Select([late, early], aggregate, 2, TOPICS) == [];
    assert Matches([late, early], aggregate) == [late, early];
  }

  /** The rows an activation is told about: its own, with one of four topics. */
  lemma MatchesIff(table: Table, aggregate: nat, r: Row)
    requires Sorted(table)
    ensures r in Matches(table, aggregate) <==>
              && r in table && r.aggregate == aggregate
              && (r.topic == "license.updated" || r.topic == "license.revoked" || r.topic == "device.unbound"
                    || r.topic == "features.changed")
  {
    Selected(table, aggregate, 0, TOPICS, r);
    if r in table {
      var i :| 0 <= i < |table| && table[i] == r;
    }
  }

  /**
   * Whatever is sent is one of the activation's own rows; once it is no longer authorised, only
   * revocations and unbindings.
   */
  lemma SentTopics(s: Socket, aggregate: nat, turn: Turn, table: Table, r: Row)
    requires Sorted(table) && r in Step(s, aggregate, turn, table).delivered && r !in s.delivered
    ensures s.live && turn.Tick? && turn.queried && r in Matches(table, aggregate) && r.id > s.last
    ensures !turn.authorized ==> r.topic == "license.revoked" || r.topic == "device.unbound"
  {
    BatchFacts(table, aggregate, s.last, if turn.authorized then TOPICS else PARTING);
    MatchesIff(table, aggregate, r);
  }

  /**
   * A socket stays live exactly while nobody closes it, it is authorised, and every send of the
   * turn, the ping last, succeeds.
   */
  lemma LiveIff(s: Socket, aggregate: nat, turn: Turn, table: Table)
    ensures Step(s, aggregate, turn, table).live <==>
              && s.live
              && match turn
                 case Incoming(closes) => !closes
                 case Tick(authorized, queried, sends, ping) =>
                   authorized && ping && (queried ==> |Batch(table, aggregate, s.last, TOPICS)| <= sends)
  {
  }
}
