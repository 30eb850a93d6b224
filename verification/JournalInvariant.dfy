/** What every step of the journal keeps: keys, the ledger, and the agreement of flights with their rows. */
module JournalInvariant {
  import opened Common
  import opened JournalRows
  import opened JournalModel

  ghost predicate Keyed(db: Store) {
    && WellKeyed(db.queue)
    && Ordered(db.totals)
    && (forall r :: r in db.queue ==> r.birth < db.births && r.bytes <= MAX_EVENT_BYTES)
  }

  /** The cached counters of every target agree with its rows. */
  ghost predicate LedgerAgrees(db: Store) {
    && (forall t: string :: LedgerOf(db, t))
    && TotalBytes(db.totals) == Sum(db.queue, AllBytes)
  }

  ghost predicate LedgerOf(db: Store, target: string) {
    var total := Lookup(db.totals, target);
    && total.pending == Sum(db.queue, Pending(target))
    && total.bytes == Sum(db.queue, Bytes(target))
    && total.retrying == Sum(db.queue, Retrying(target))
  }

  /** The row in the store while its write is not settled. */
  function Stored(f: Flight): Row {
    if f.phase.Writing? then f.row.(inWrite := true) else f.row
  }

  function FlightBytes(flights: seq<Flight>): nat {
    if flights == [] then 0 else flights[0].row.bytes + FlightBytes(flights[1..])
  }

  ghost predicate FlightsDistinct(flights: seq<Flight>, nextToken: nat) {
    && (forall i :: 0 <= i < |flights| ==> flights[i].token < nextToken)
    && (forall i, j :: 0 <= i < j < |flights| ==> flights[i].token != flights[j].token)
    && (forall i, j :: 0 <= i < j < |flights| ==> flights[i].row.id != flights[j].row.id)
  }

  /** Every unsettled flight finds its row, pending and unchanged but for the mark, in the queue. */
  ghost predicate RowsPresent(flights: seq<Flight>, q: seq<Row>) {
    forall i :: 0 <= i < |flights| && !flights[i].phase.Settled? ==>
      Stored(flights[i]) in q && !flights[i].row.confirmed
  }

  ghost predicate FlightsAgree(s: State) {
    && FlightsDistinct(s.flights, s.nextToken)
    && RowsPresent(s.flights, s.db.queue)
    && s.activeBytes == FlightBytes(s.flights)
  }

  ghost predicate Inv(s: State) {
    Keyed(s.db) && LedgerAgrees(s.db) && FlightsAgree(s)
  }

  // The store.

  lemma SameKeySameRow(q: seq<Row>, a: Row, b: Row)
    requires WellKeyed(q) && a in q && b in q && a.key == b.key
    ensures a == b
  {
    var i :| 0 <= i < |q| && q[i] == a;
    var j :| 0 <= j < |q| && q[j] == b;
    assert i == j;
  }

  lemma InsertKeyed(db: Store, e: Entry)
    requires Keyed(db) && !HasId(db.queue, e.id) && EntryBytes(e) <= MAX_EVENT_BYTES
    ensures WellKeyed(Insert(db, e).queue)
    ensures forall r :: r in Insert(db, e).queue ==> r.birth < db.births + 1 && r.bytes <= MAX_EVENT_BYTES
  {
    forall k | 0 <= k < |db.queue| ensures db.queue[k].birth < db.births {
      assert db.queue[k] in db.queue;
    }
    AppendWellKeyed(db.queue, NewRow(db, e));
  }

  lemma InsertLedger(db: Store, e: Entry)
    requires Ordered(db.totals) && LedgerAgrees(db)
    ensures Ordered(Insert(db, e).totals) && LedgerAgrees(Insert(db, e))
  {
    var next := Insert(db, e);
    var row := NewRow(db, e);
    var total := Lookup(db.totals, e.table);
    var put := total.(pending := total.pending + 1, bytes := total.bytes + EntryBytes(e));
    PutOrdered(db.totals, put);
    forall t: string ensures LedgerOf(next, t) {
      assert LedgerOf(db, t);
      PutLookup(db.totals, put, t);
      SumAppend(db.queue, [row], Pending(t));
      SumAppend(db.queue, [row], Bytes(t));
      SumAppend(db.queue, [row], Retrying(t));
    }
    SumAppend(db.queue, [row], AllBytes);
    PutLookup(db.totals, put, e.table);
  }

  lemma ObserveKeeps(db: Store, topic: string, target: string)
    requires Keyed(db) && LedgerAgrees(db)
    ensures var next := Observe(db, topic, target);
            next.Some? ==> Keyed(next.value) && LedgerAgrees(next.value)
  {
    var next := Observe(db, topic, target);
    if next.Some? {
      forall t: string ensures LedgerOf(next.value, t) {
        assert LedgerOf(db, t);
      }
    }
  }

  lemma AdmitOneKeeps(limits: Limits, db: Store, s: Submission)
    requires Keyed(db) && LedgerAgrees(db)
    ensures var next := AdmitOne(limits, db, s);
            next.Some? ==> Keyed(next.value) && LedgerAgrees(next.value)
  {
    ObserveKeeps(db, s.entry.topic, s.entry.table);
    var seen := Observe(db, s.entry.topic, s.entry.table);
    if ValidEnvelope(s.entry) && seen.Some? && !HasId(seen.value.queue, s.entry.id)
       && !Exhausted(limits, seen.value, s) {
      InsertKeyed(seen.value, s.entry);
      InsertLedger(seen.value, s.entry);
    }
  }

  lemma {:induction false} AdmitAllKeeps(limits: Limits, db: Store, batch: seq<Submission>)
    requires Keyed(db) && LedgerAgrees(db)
    ensures var next := AdmitAll(limits, db, batch);
            next.Some? ==> Keyed(next.value) && LedgerAgrees(next.value)
    decreases |batch|
  {
    if batch != [] {
      AdmitOneKeeps(limits, db, batch[0]);
      var next := AdmitOne(limits, db, batch[0]);
      if next.Some? {
        AdmitAllKeeps(limits, next.value, batch[1..]);
      }
    }
  }

  lemma UpdateKeyed(db: Store, i: nat, row: Row)
    requires Keyed(db) && i < |db.queue|
    requires row.key == db.queue[i].key && row.id == db.queue[i].id && row.birth == db.queue[i].birth
    requires row.bytes <= db.queue[i].bytes
    ensures Keyed(db.(queue := db.queue[i := row]))
  {
    assert db.queue[i] in db.queue;
    forall r | r in db.queue[i := row] ensures r.birth < db.births && r.bytes <= MAX_EVENT_BYTES {
      if r != row {
        assert r in db.queue;
      }
    }
    UpdateWellKeyed(db.queue, i, row);
  }

  /** One row changes and the counters of its target move by the same amounts. */
  lemma UpdateLedger(db: Store, i: nat, row: Row, total: Total)
    requires Ordered(db.totals) && LedgerAgrees(db)
    requires i < |db.queue| && row.target == db.queue[i].target == total.target
    requires var was, now, t := db.queue[i], Lookup(db.totals, total.target), total.target;
             && total.pending == now.pending - Weight(Pending(t), was) + Weight(Pending(t), row)
             && total.bytes == now.bytes - Weight(Bytes(t), was) + Weight(Bytes(t), row)
             && total.retrying == now.retrying - Weight(Retrying(t), was) + Weight(Retrying(t), row)
    ensures Ordered(Put(db.totals, total))
    ensures LedgerAgrees(db.(queue := db.queue[i := row], totals := Put(db.totals, total)))
  {
    var next := db.(queue := db.queue[i := row], totals := Put(db.totals, total));
    PutOrdered(db.totals, total);
    forall t: string ensures LedgerOf(next, t) {
      assert LedgerOf(db, t);
      PutLookup(db.totals, total, t);
      SumUpdate(db.queue, i, row, Pending(t));
      SumUpdate(db.queue, i, row, Bytes(t));
      SumUpdate(db.queue, i, row, Retrying(t));
    }
    SumUpdate(db.queue, i, row, AllBytes);
    PutLookup(db.totals, total, total.target);
  }

  lemma MarkLedger(db: Store, i: nat)
    requires LedgerAgrees(db) && i < |db.queue|
    ensures LedgerAgrees(db.(queue := db.queue[i := db.queue[i].(inWrite := true)]))
  {
    var row := db.queue[i].(inWrite := true);
    var next := db.(queue := db.queue[i := row]);
    forall t: string ensures LedgerOf(next, t) {
      assert LedgerOf(db, t);
      SumUpdate(db.queue, i, row, Pending(t));
      SumUpdate(db.queue, i, row, Bytes(t));
      SumUpdate(db.queue, i, row, Retrying(t));
    }
    SumUpdate(db.queue, i, row, AllBytes);
  }

  /** Only receipts are dropped. */
  ghost predicate OnlyConfirmed(q: seq<Row>, dropped: set<nat>) {
    forall r :: r in q && r.key in dropped ==> r.confirmed
  }

  lemma DropKeeps(db: Store, dropped: set<nat>)
    requires Keyed(db) && LedgerAgrees(db) && OnlyConfirmed(db.queue, dropped)
    ensures var next := db.(queue := Keep(db.queue, dropped));
            Keyed(next) && LedgerAgrees(next)
  {
    var next := db.(queue := Keep(db.queue, dropped));
    KeepWellKeyed(db.queue, dropped);
    KeepMembers(db.queue, dropped);
    forall t: string ensures LedgerOf(next, t) {
      assert LedgerOf(db, t);
      SumKeep(db.queue, dropped, Pending(t));
      SumKeep(db.queue, dropped, Bytes(t));
      SumKeep(db.queue, dropped, Retrying(t));
    }
    SumKeep(db.queue, dropped, AllBytes);
  }

  lemma DroppedAreConfirmed(q: seq<Row>, ids: seq<string>, key: string)
    requires WellKeyed(q)
    ensures OnlyConfirmed(q, Acknowledged(q, ids))
    ensures OnlyConfirmed(q, AcknowledgedLegacy(q, key))
    ensures OnlyConfirmed(q, Expired(q))
  {
    forall r | r in q && (r.key in Acknowledged(q, ids) || r.key in AcknowledgedLegacy(q, key) || r.key in Expired(q))
      ensures r.confirmed
    {
      var x :| x in q && x.key == r.key && x.confirmed;
      SameKeySameRow(q, r, x);
    }
  }

  // Recovery.

  lemma {:induction false} RecoverSums(q: seq<Row>, t: string)
    ensures Sum(RecoverRows(q), Pending(t)) == Sum(q, Pending(t))
    ensures Sum(RecoverRows(q), Bytes(t)) == Sum(q, Bytes(t))
    ensures Sum(RecoverRows(q), AllBytes) == Sum(q, AllBytes)
    ensures Sum(RecoverRows(q), Retrying(t)) == Sum(q, Retrying(t)) + Sum(q, Interrupted(t))
  {
    if q != [] {
      RecoverSums(q[1..], t);
      assert RecoverRows(q)[1..] == RecoverRows(q[1..]);
    }
  }

  lemma {:induction false} RecoverLookup(ts: seq<Total>, q: seq<Row>, t: string)
    ensures var was, now := Lookup(ts, t), Lookup(RecoverTotals(ts, q), t);
            && now.pending == was.pending && now.bytes == was.bytes
            && (Listed(ts, t) ==> now.retrying == was.retrying + Sum(q, Interrupted(t)))
            && (!Listed(ts, t) ==> was == now == Total(t, 0, 0, 0, 0))
    ensures TotalBytes(RecoverTotals(ts, q)) == TotalBytes(ts)
  {
    if ts != [] {
      RecoverLookup(ts[1..], q, t);
      var r := RecoverTotals(ts, q);
      assert r[1..] == RecoverTotals(ts[1..], q);
      if ts[0].target != t && Listed(ts, t) {
        var i :| 0 <= i < |ts| && ts[i].target == t;
        assert ts[1..][i - 1].target == t;
      }
    }
  }

  lemma RecoverWellKeyed(q: seq<Row>)
    requires WellKeyed(q)
    ensures WellKeyed(RecoverRows(q))
  {
    var r := RecoverRows(q);
    assert forall i :: 0 <= i < |q| ==> r[i].key == q[i].key && r[i].id == q[i].id && r[i].birth == q[i].birth;
  }

  lemma RecoveredKeyed(db: Store)
    requires Keyed(db)
    ensures Keyed(Recovered(db))
  {
    var next := Recovered(db);
    RecoverWellKeyed(db.queue);
    forall r | r in next.queue ensures r.birth < db.births && r.bytes <= MAX_EVENT_BYTES {
      var i :| 0 <= i < |next.queue| && next.queue[i] == r;
      assert db.queue[i] in db.queue;
    }
  }

  lemma RecoveredLedger(db: Store)
    requires LedgerAgrees(db)
    ensures LedgerAgrees(Recovered(db))
  {
    var next := Recovered(db);
    forall t: string ensures LedgerOf(next, t) {
      assert LedgerOf(db, t);
      RecoverSums(db.queue, t);
      RecoverLookup(db.totals, db.queue, t);
      SumDominated(db.queue, Interrupted(t), Pending(t));
    }
    RecoverSums(db.queue, "");
    RecoverLookup(db.totals, db.queue, "");
  }

  // Flights.

  lemma {:induction false} FlightBytesAppend(a: seq<Flight>, b: seq<Flight>)
    ensures FlightBytes(a + b) == FlightBytes(a) + FlightBytes(b)
  {
    if a == [] {
      assert a + b == b;
    } else {
      assert (a + b)[1..] == a[1..] + b;
      FlightBytesAppend(a[1..], b);
    }
  }

  lemma {:induction false} FlightBytesSetPhase(flights: seq<Flight>, i: nat, phase: Phase)
    requires i < |flights|
    ensures FlightBytes(SetPhase(flights, i, phase)) == FlightBytes(flights)
  {
    if i == 0 {
      assert SetPhase(flights, 0, phase)[1..] == flights[1..];
    } else {
      FlightBytesSetPhase(flights[1..], i - 1, phase);
      assert SetPhase(flights, i, phase)[1..] == SetPhase(flights[1..], i - 1, phase);
    }
  }

  lemma FlightBytesRemove(flights: seq<Flight>, i: nat)
    requires i < |flights|
    ensures FlightBytes(flights[..i] + flights[i + 1..]) == FlightBytes(flights) - flights[i].row.bytes
  {
    FlightBytesAppend(flights[..i], flights[i + 1..]);
    FlightBytesAppend(flights[..i], flights[i..]);
    assert flights == flights[..i] + flights[i..];
    assert flights[i..][1..] == flights[i + 1..];
  }

  lemma SetPhaseKeeps(flights: seq<Flight>, i: nat, phase: Phase, nextToken: nat)
    requires i < |flights| && FlightsDistinct(flights, nextToken)
    ensures FlightsDistinct(SetPhase(flights, i, phase), nextToken)
    ensures FlightBytes(SetPhase(flights, i, phase)) == FlightBytes(flights)
  {
    FlightBytesSetPhase(flights, i, phase);
  }

  lemma SettleKeepsRows(flights: seq<Flight>, i: nat, q: seq<Row>)
    requires i < |flights| && RowsPresent(flights, q)
    ensures RowsPresent(SetPhase(flights, i, Settled), q)
  {
  }

  lemma StoredAt(s: State, i: nat) returns (k: nat)
    requires Inv(s) && i < |s.flights| && !s.flights[i].phase.Settled?
    ensures k < |s.db.queue| && Find(s.db.queue, s.flights[i].row.key) == Some(k)
    ensures s.db.queue[k] == Stored(s.flights[i]) && !s.db.queue[k].confirmed
  {
    k :| 0 <= k < |s.db.queue| && s.db.queue[k] == Stored(s.flights[i]);
    ReplaceAt(s.db.queue, k, s.flights[i].row);
  }

  /** A flight settles or starts writing: its own row may change, the rows of the others do not. */
  lemma PhaseKeepsRows(flights: seq<Flight>, i: nat, phase: Phase, nextToken: nat, q: seq<Row>, k: nat, row: Row)
    requires WellKeyed(q) && FlightsDistinct(flights, nextToken) && RowsPresent(flights, q)
    requires i < |flights| && !flights[i].phase.Settled?
    requires k < |q| && q[k] == Stored(flights[i])
    requires phase.Settled? || (phase.Writing? && row == flights[i].row.(inWrite := true))
    ensures RowsPresent(SetPhase(flights, i, phase), q[k := row])
  {
    var next := SetPhase(flights, i, phase);
    forall j | 0 <= j < |next| && !next[j].phase.Settled?
      ensures Stored(next[j]) in q[k := row] && !next[j].row.confirmed
    {
      if j == i {
        assert q[k := row][k] == row;
      } else {
        var n :| 0 <= n < |q| && q[n] == Stored(flights[j]);
        assert flights[i].row.id != flights[j].row.id;
        assert q[k := row][n] == Stored(next[j]);
      }
    }
  }

  lemma BeginKeeps(s: State, token: nat, sqliteOk: bool)
    requires Inv(s)
    ensures Inv(Begin(s, token, sqliteOk))
  {
    var c := Current(s, token, Installed);
    if c.Some? {
      var i := c.value;
      if sqliteOk {
        SetPhaseKeeps(s.flights, i, Writing, s.nextToken);
        var k := StoredAt(s, i);
        MarkLedger(s.db, k);
        UpdateKeyed(s.db, k, s.db.queue[k].(inWrite := true));
        PhaseKeepsRows(s.flights, i, Writing, s.nextToken, s.db.queue, k, s.flights[i].row.(inWrite := true));
      } else {
        SetPhaseKeeps(s.flights, i, Settled, s.nextToken);
        SettleKeepsRows(s.flights, i, s.db.queue);
      }
    }
  }

  lemma ConfirmStores(s: State, i: nat, k: nat, row: Row)
    requires Inv(s) && i < |s.flights| && s.flights[i].phase.Writing?
    requires k < |s.db.queue| && Find(s.db.queue, s.flights[i].row.key) == Some(k)
    requires s.db.queue[k] == Stored(s.flights[i]) && !s.db.queue[k].confirmed
    requires row == s.db.queue[k].(confirmed := true, payload := "", bytes := 0, inWrite := false)
    ensures var db := ConfirmRow(s.db, s.flights[i].row);
            Keyed(db) && LedgerAgrees(db) && db.queue == s.db.queue[k := row]
  {
    var flown := s.flights[i].row;
    var total := Lookup(s.db.totals, flown.target);
    UpdateKeyed(s.db, k, row);
    UpdateLedger(s.db, k, row, total.(pending := total.pending - 1, bytes := total.bytes - s.db.queue[k].bytes,
                                     retrying := total.retrying - if flown.attempts > 0 then 1 else 0));
  }

  lemma ConfirmKeeps(s: State, i: nat)
    requires Inv(s) && i < |s.flights| && s.flights[i].phase.Writing?
    ensures var db := ConfirmRow(s.db, s.flights[i].row);
            Keyed(db) && LedgerAgrees(db) && RowsPresent(SetPhase(s.flights, i, Settled), db.queue)
  {
    var k := StoredAt(s, i);
    var row := s.db.queue[k].(confirmed := true, payload := "", bytes := 0, inWrite := false);
    ConfirmStores(s, i, k, row);
    PhaseKeepsRows(s.flights, i, Settled, s.nextToken, s.db.queue, k, row);
  }

  lemma SucceedKeeps(s: State, token: nat, sqliteOk: bool)
    requires Inv(s)
    ensures Inv(Succeed(s, token, sqliteOk))
  {
    var c := Current(s, token, Writing);
    if c.Some? {
      SetPhaseKeeps(s.flights, c.value, Settled, s.nextToken);
      if sqliteOk {
        ConfirmKeeps(s, c.value);
      } else {
        SettleKeepsRows(s.flights, c.value, s.db.queue);
      }
    }
  }

  lemma DelayStores(limits: Limits, s: State, i: nat, now: int, k: nat, row: Row)
    requires Inv(s) && i < |s.flights| && s.flights[i].phase.Writing?
    requires k < |s.db.queue| && Find(s.db.queue, s.flights[i].row.key) == Some(k)
    requires s.db.queue[k] == Stored(s.flights[i]) && !s.db.queue[k].confirmed
    requires row == s.db.queue[k].(attempts := s.db.queue[k].attempts + 1, inWrite := false,
                                   retryAt := now + RetryDelay(limits, s.flights[i].row.attempts))
    ensures var db := DelayRow(limits, s.db, s.flights[i].row, now);
            Keyed(db) && LedgerAgrees(db) && db.queue == s.db.queue[k := row]
  {
    var flown := s.flights[i].row;
    var total := Lookup(s.db.totals, flown.target);
    UpdateKeyed(s.db, k, row);
    UpdateLedger(s.db, k, row, total.(failures := total.failures + 1,
                                     retrying := total.retrying + if flown.attempts == 0 then 1 else 0));
  }

  lemma DelayKeeps(limits: Limits, s: State, i: nat, now: int)
    requires Inv(s) && i < |s.flights| && s.flights[i].phase.Writing?
    ensures var db := DelayRow(limits, s.db, s.flights[i].row, now);
            Keyed(db) && LedgerAgrees(db) && RowsPresent(SetPhase(s.flights, i, Settled), db.queue)
  {
    var k := StoredAt(s, i);
    var row := s.db.queue[k].(attempts := s.db.queue[k].attempts + 1, inWrite := false,
                              retryAt := now + RetryDelay(limits, s.flights[i].row.attempts));
    DelayStores(limits, s, i, now, k, row);
    PhaseKeepsRows(s.flights, i, Settled, s.nextToken, s.db.queue, k, row);
  }

  lemma FailKeeps(limits: Limits, s: State, token: nat, now: int, sqliteOk: bool)
    requires Inv(s)
    ensures Inv(Fail(limits, s, token, now, sqliteOk))
  {
    var c := Current(s, token, Writing);
    if c.Some? {
      SetPhaseKeeps(s.flights, c.value, Settled, s.nextToken);
      if sqliteOk {
        DelayKeeps(limits, s, c.value, now);
      } else {
        SettleKeepsRows(s.flights, c.value, s.db.queue);
      }
    }
  }

  lemma RemoveKeeps(flights: seq<Flight>, i: nat, nextToken: nat, q: seq<Row>)
    requires i < |flights| && FlightsDistinct(flights, nextToken) && RowsPresent(flights, q)
    ensures FlightsDistinct(flights[..i] + flights[i + 1..], nextToken)
    ensures RowsPresent(flights[..i] + flights[i + 1..], q)
  {
    var rest := flights[..i] + flights[i + 1..];
    assert forall j :: 0 <= j < |rest| ==> rest[j] == if j < i then flights[j] else flights[j + 1];
  }

  lemma FinishKeeps(s: State, token: nat)
    requires Inv(s)
    ensures Inv(Finish(s, token))
  {
    var c := Current(s, token, Settled);
    if c.Some? {
      FlightBytesRemove(s.flights, c.value);
      RemoveKeeps(s.flights, c.value, s.nextToken, s.db.queue);
    }
  }

  lemma DropInvKeeps(s: State, dropped: set<nat>)
    requires Inv(s) && OnlyConfirmed(s.db.queue, dropped)
    ensures Inv(Drop(s, dropped))
  {
    DropKeeps(s.db, dropped);
    KeepMembers(s.db.queue, dropped);
    assert RowsPresent(s.flights, Keep(s.db.queue, dropped));
  }

  lemma {:induction false} PendingRowsMembers(q: seq<Row>, target: string)
    ensures forall r :: r in PendingRows(q, target) <==> r in q && !r.confirmed && r.target == target
  {
    if q != [] {
      PendingRowsMembers(q[1..], target);
      assert q == [q[0]] + q[1..];
    }
  }

  lemma LaunchKeeps(s: State, row: Row)
    requires Inv(s) && row in s.db.queue && !row.confirmed && !InFlight(s.flights, row.id)
    ensures Inv(Launch(s, row))
  {
    FlightBytesAppend(s.flights, [Flight(s.nextToken, row, Installed)]);
  }

  lemma {:induction false} StartRowsKeeps(limits: Limits, s: State, rows: seq<Row>, now: int, room: nat)
    requires Inv(s) && forall r :: r in rows ==> r in s.db.queue && !r.confirmed
    ensures Inv(StartRows(limits, s, rows, now, room))
    ensures StartRows(limits, s, rows, now, room).db == s.db
    decreases |rows|
  {
    if rows != [] {
      assert rows[0] in rows;
      assert forall r :: r in rows[1..] ==> r in rows;
      if InFlight(s.flights, rows[0].id) {
        StartRowsKeeps(limits, s, rows[1..], now, room);
      } else if !MustWait(limits, s, rows[0], now, room) {
        LaunchKeeps(s, rows[0]);
        StartRowsKeeps(limits, Launch(s, rows[0]), rows[1..], now, room - 1);
      }
    }
  }

  lemma WindowMembers(q: seq<Row>, target: string)
    ensures forall r :: r in Window(q, target) ==> r in q && !r.confirmed && r.target == target
  {
    PendingRowsMembers(q, target);
    assert forall r :: r in Window(q, target) ==> r in PendingRows(q, target);
  }

  /** Rows stay where they are while new ones are admitted. */
  lemma {:induction false} AdmitAllExtends(limits: Limits, db: Store, batch: seq<Submission>)
    ensures var next := AdmitAll(limits, db, batch);
            next.Some? ==> |db.queue| <= |next.value.queue| && db.queue == next.value.queue[..|db.queue|]
    decreases |batch|
  {
    if batch != [] {
      var next := AdmitOne(limits, db, batch[0]);
      if next.Some? {
        assert |db.queue| <= |next.value.queue| && db.queue == next.value.queue[..|db.queue|];
        AdmitAllExtends(limits, next.value, batch[1..]);
        var last := AdmitAll(limits, next.value, batch[1..]);
        if last.Some? {
          assert db.queue == last.value.queue[..|next.value.queue|][..|db.queue|];
        }
      }
    }
  }

  lemma AdmitKeeps(limits: Limits, s: State, batch: seq<Submission>, sqliteOk: bool, mirrorOk: bool)
    requires Inv(s)
    ensures Inv(Admit(limits, s, batch, sqliteOk, mirrorOk))
  {
    AdmitAllKeeps(limits, s.db, batch);
    AdmitAllExtends(limits, s.db, batch);
    var next := AdmitAll(limits, s.db, batch);
    if next.Some? {
      assert forall r :: r in s.db.queue ==> r in next.value.queue[..|s.db.queue|] && r in next.value.queue;
      assert RowsPresent(s.flights, next.value.queue);
    }
  }

  lemma PolicyKeeps(s: State, db: Store)
    requires Inv(s) && db.queue == s.db.queue && db.totals == s.db.totals && db.births == s.db.births
    ensures Keyed(db) && LedgerAgrees(db)
    ensures FlightsAgree(s.(db := db))
  {
    forall t: string ensures LedgerOf(db, t) {
      assert LedgerOf(s.db, t);
    }
  }

  /** Nothing but policy, policy file, command log and control flags differs. */
  ghost predicate SameData(s: State, next: State) {
    && next.db.queue == s.db.queue && next.db.totals == s.db.totals && next.db.births == s.db.births
    && next.db.observations == s.db.observations
    && next.flights == s.flights && next.activeBytes == s.activeBytes && next.nextToken == s.nextToken
    && next.log == s.log && next.closed == s.closed
  }

  lemma ExecuteFrame(s: State, request: Request, actor: string, env: CommandEnv)
    ensures SameData(s, Execute(s, request, actor, env).0)
  {
  }

  /** A command touches neither rows nor flights. */
  lemma CommandFrame(s: State, request: Request, actor: string, env: CommandEnv)
    ensures SameData(s, Command(s, request, actor, env).0)
  {
    ExecuteFrame(Probed(s, env), request, actor, env);
  }

  lemma {:induction false} StartRowsDb(limits: Limits, s: State, rows: seq<Row>, now: int, room: nat)
    ensures StartRows(limits, s, rows, now, room).db == s.db
    ensures StartRows(limits, s, rows, now, room).portable == s.portable
    ensures StartRows(limits, s, rows, now, room).cursor == s.cursor
    decreases |rows|
  {
    if rows != [] {
      if InFlight(s.flights, rows[0].id) {
        StartRowsDb(limits, s, rows[1..], now, room);
      } else if !MustWait(limits, s, rows[0], now, room) {
        StartRowsDb(limits, Launch(s, rows[0]), rows[1..], now, room - 1);
      }
    }
  }

  predicate DropsReceipts(step: Step) {
    step.DoAcknowledge? || step.DoAcknowledgeLegacy? || step.DoTrim?
  }

  predicate WorksFlight(step: Step) {
    step.DoTryHead? || step.DoBegin? || step.DoSucceed? || step.DoFail?
  }

  /** The other steps leave the queue and the history alone. */
  lemma RestFrame(limits: Limits, s: State, step: Step)
    requires !step.DoAdmit? && !DropsReceipts(step) && !WorksFlight(step) && !step.DoReopen?
    ensures var next := Next(limits, s, step);
            && next.db.queue == s.db.queue && next.db.births == s.db.births && next.log == s.log
            && (!step.DoFinish? ==> next.flights == s.flights)
  {
    if step.DoCommand? {
      CommandFrame(s, step.request, step.actor, step.env);
    }
  }

  lemma CommandKeeps(s: State, request: Request, actor: string, env: CommandEnv)
    requires Inv(s)
    ensures Inv(Command(s, request, actor, env).0)
  {
    CommandFrame(s, request, actor, env);
    PolicyKeeps(s, Command(s, request, actor, env).0.db);
  }

  lemma ReopenKeeps(s: State, mirrorOk: bool)
    requires Inv(s)
    ensures Inv(Reopen(s, mirrorOk))
  {
    RecoveredKeyed(s.db);
    RecoveredLedger(s.db);
  }

  lemma WriteKeepsInv(limits: Limits, s: State, step: Step)
    requires Inv(s)
    requires step.DoTryHead? || step.DoBegin? || step.DoSucceed? || step.DoFail? || step.DoFinish?
    ensures Inv(Next(limits, s, step))
  {
    match step
    case DoTryHead(target, room, now, canReplay) =>
      WindowMembers(s.db.queue, target);
      StartRowsKeeps(limits, s, Window(s.db.queue, target), now, room);
    case DoBegin(token, markOk) => BeginKeeps(s, token, markOk);
    case DoSucceed(token, recordOk) => SucceedKeeps(s, token, recordOk);
    case DoFail(token, at, delayOk) => FailKeeps(limits, s, token, at, delayOk);
    case DoFinish(token) => FinishKeeps(s, token);
  }

  /** These steps drop confirmed rows and touch nothing else. */
  lemma DropStep(limits: Limits, s: State, step: Step) returns (dropped: set<nat>)
    requires WellKeyed(s.db.queue) && DropsReceipts(step)
    ensures OnlyConfirmed(s.db.queue, dropped) && Next(limits, s, step) == Drop(s, dropped)
  {
    match step
    case DoAcknowledge(ids) =>
      dropped := Acknowledged(s.db.queue, ids);
      DroppedAreConfirmed(s.db.queue, ids, "");
    case DoAcknowledgeLegacy(key) =>
      dropped := AcknowledgedLegacy(s.db.queue, key);
      DroppedAreConfirmed(s.db.queue, [], key);
    case DoTrim =>
      dropped := Expired(s.db.queue);
      DroppedAreConfirmed(s.db.queue, [], "");
  }

  lemma ReceiptKeepsInv(limits: Limits, s: State, step: Step)
    requires Inv(s)
    requires DropsReceipts(step)
    ensures Inv(Next(limits, s, step))
  {
    var dropped := DropStep(limits, s, step);
    DropInvKeeps(s, dropped);
  }

  lemma ImportKeepsInv(s: State, policy: Policy, saveOk: bool, mirrorOk: bool)
    requires Inv(s)
    ensures Inv(ImportPolicy(s, policy, saveOk, mirrorOk))
  {
    PolicyKeeps(s, s.db.(policy := policy));
  }

  lemma NextKeepsInv(limits: Limits, s: State, step: Step)
    requires Inv(s)
    ensures Inv(Next(limits, s, step))
  {
    match step
    case DoAdmit(batch, admitOk, mirrored) => AdmitKeeps(limits, s, batch, admitOk, mirrored);
    case DoTryHead(_, _, _, _) => WriteKeepsInv(limits, s, step);
    case DoBegin(_, _) => WriteKeepsInv(limits, s, step);
    case DoSucceed(_, _) => WriteKeepsInv(limits, s, step);
    case DoFail(_, _, _) => WriteKeepsInv(limits, s, step);
    case DoFinish(_) => WriteKeepsInv(limits, s, step);
    case DoAcknowledge(_) => ReceiptKeepsInv(limits, s, step);
    case DoAcknowledgeLegacy(_) => ReceiptKeepsInv(limits, s, step);
    case DoTrim => ReceiptKeepsInv(limits, s, step);
    case DoCommand(request, actor, env) => CommandKeeps(s, request, actor, env);
    case DoImport(policy, saveOk, copyOk) => ImportKeepsInv(s, policy, saveOk, copyOk);
    case DoReopen(mirrorOk) => ReopenKeeps(s, mirrorOk);
    case DoMoveCursor(_) =>
    case DoDrained =>
    case DoSetGlobalPaused(_, _) =>
    case DoFileArrived(_) =>
    case DoFault =>
    case DoClose =>
  }

  /** Every reachable state satisfies the invariant; in particular the ledger agrees through crash and reopen. */
  lemma {:induction false} RunKeepsInv(limits: Limits, s: State, steps: seq<Step>)
    requires Inv(s)
    ensures Inv(Run(limits, s, steps))
    decreases |steps|
  {
    if steps != [] {
      NextKeepsInv(limits, s, steps[0]);
      RunKeepsInv(limits, Next(limits, s, steps[0]), steps[1..]);
    }
  }
}
