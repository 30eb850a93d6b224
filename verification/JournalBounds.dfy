/** Capacity, flight limits, and the order in which the rows of a target are started. */
module JournalBounds {
  import opened JournalRows
  import opened JournalModel
  import opened JournalInvariant

  /** The admission limits, said of the rows themselves. */
  ghost predicate WithinCapacity(limits: Limits, db: Store) {
    && 2 * Sum(db.queue, AllBytes) <= limits.maxBytes
    && forall t: string :: Sum(db.queue, Pending(t)) <= limits.maxPendingPerTarget
  }

  ghost predicate WithinFlight(limits: Limits, s: State) {
    |s.flights| <= limits.maxInFlight && s.activeBytes <= limits.maxInFlightBytes
  }

  lemma InsertWithin(limits: Limits, db: Store, s: Submission)
    requires Keyed(db) && LedgerAgrees(db) && WithinCapacity(limits, db)
    requires !HasId(db.queue, s.entry.id) && !Exhausted(limits, db, s)
    ensures WithinCapacity(limits, Insert(db, s.entry))
  {
    var row := NewRow(db, s.entry);
    SumAppend(db.queue, [row], AllBytes);
    forall t: string ensures Sum(db.queue + [row], Pending(t)) <= limits.maxPendingPerTarget {
      assert LedgerOf(db, t);
      SumAppend(db.queue, [row], Pending(t));
    }
  }

  lemma {:induction false} AdmitAllWithin(limits: Limits, db: Store, batch: seq<Submission>)
    requires Keyed(db) && LedgerAgrees(db) && WithinCapacity(limits, db)
    ensures var next := AdmitAll(limits, db, batch);
            next.Some? ==> WithinCapacity(limits, next.value)
    decreases |batch|
  {
    if batch != [] {
      AdmitOneKeeps(limits, db, batch[0]);
      var next := AdmitOne(limits, db, batch[0]);
      if next.Some? {
        AdmitOneWithin(limits, db, batch[0]);
        AdmitAllWithin(limits, next.value, batch[1..]);
      }
    }
  }

  lemma AdmitOneWithin(limits: Limits, db: Store, s: Submission)
    requires Keyed(db) && LedgerAgrees(db) && WithinCapacity(limits, db)
    ensures var next := AdmitOne(limits, db, s);
            next.Some? ==> WithinCapacity(limits, next.value)
  {
    ObserveKeeps(db, s.entry.topic, s.entry.table);
    var seen := Observe(db, s.entry.topic, s.entry.table);
    if ValidEnvelope(s.entry) && seen.Some? && !HasId(seen.value.queue, s.entry.id)
       && !Exhausted(limits, seen.value, s) {
      InsertWithin(limits, seen.value, s);
    }
  }

  /** Outside admission no counter of pending work grows. */
  ghost predicate NoMoreWork(q: seq<Row>, next: seq<Row>) {
    && Sum(next, AllBytes) <= Sum(q, AllBytes)
    && forall t: string :: Sum(next, Pending(t)) <= Sum(q, Pending(t))
  }

  lemma UpdateNoMore(q: seq<Row>, i: nat, row: Row)
    requires i < |q| && row.target == q[i].target && row.bytes <= q[i].bytes
    requires q[i].confirmed ==> row.confirmed
    ensures NoMoreWork(q, q[i := row])
  {
    SumUpdate(q, i, row, AllBytes);
    forall t: string ensures Sum(q[i := row], Pending(t)) <= Sum(q, Pending(t)) {
      SumUpdate(q, i, row, Pending(t));
    }
  }

  lemma DropNoMore(q: seq<Row>, dropped: set<nat>)
    requires OnlyConfirmed(q, dropped)
    ensures NoMoreWork(q, Keep(q, dropped))
  {
    SumKeep(q, dropped, AllBytes);
    forall t: string ensures Sum(Keep(q, dropped), Pending(t)) <= Sum(q, Pending(t)) {
      SumKeep(q, dropped, Pending(t));
    }
  }

  lemma RecoverNoMore(q: seq<Row>)
    ensures NoMoreWork(q, RecoverRows(q))
  {
    RecoverSums(q, "");
    forall t: string ensures Sum(RecoverRows(q), Pending(t)) <= Sum(q, Pending(t)) {
      RecoverSums(q, t);
    }
  }

  lemma BeginNoMore(s: State, token: nat, sqliteOk: bool)
    requires Inv(s)
    ensures NoMoreWork(s.db.queue, Begin(s, token, sqliteOk).db.queue)
  {
    var c := Current(s, token, Installed);
    if c.Some? {
      var k := StoredAt(s, c.value);
      UpdateNoMore(s.db.queue, k, s.db.queue[k].(inWrite := true));
    }
  }

  lemma SucceedNoMore(s: State, token: nat, sqliteOk: bool)
    requires Inv(s)
    ensures NoMoreWork(s.db.queue, Succeed(s, token, sqliteOk).db.queue)
  {
    var c := Current(s, token, Writing);
    if c.Some? {
      var k := StoredAt(s, c.value);
      UpdateNoMore(s.db.queue, k, s.db.queue[k].(confirmed := true, payload := "", bytes := 0, inWrite := false));
    }
  }

  lemma FailNoMore(limits: Limits, s: State, token: nat, now: int, sqliteOk: bool)
    requires Inv(s)
    ensures NoMoreWork(s.db.queue, Fail(limits, s, token, now, sqliteOk).db.queue)
  {
    var c := Current(s, token, Writing);
    if c.Some? {
      var k := StoredAt(s, c.value);
      UpdateNoMore(s.db.queue, k, s.db.queue[k].(attempts := s.db.queue[k].attempts + 1, inWrite := false,
        retryAt := now + RetryDelay(limits, s.flights[c.value].row.attempts)));
    }
  }

  lemma FlightStepNoMore(limits: Limits, s: State, step: Step)
    requires Inv(s) && WorksFlight(step)
    ensures NoMoreWork(s.db.queue, Next(limits, s, step).db.queue)
  {
    match step
    case DoTryHead(target, room, now, _) => StartRowsDb(limits, s, Window(s.db.queue, target), now, room);
    case DoBegin(token, markOk) => BeginNoMore(s, token, markOk);
    case DoSucceed(token, recordOk) => SucceedNoMore(s, token, recordOk);
    case DoFail(token, at, delayOk) => FailNoMore(limits, s, token, at, delayOk);
  }

  lemma OtherNoMore(limits: Limits, s: State, step: Step)
    requires Inv(s) && !step.DoAdmit?
    ensures NoMoreWork(s.db.queue, Next(limits, s, step).db.queue)
  {
    if DropsReceipts(step) {
      var dropped := DropStep(limits, s, step);
      DropNoMore(s.db.queue, dropped);
    } else if WorksFlight(step) {
      FlightStepNoMore(limits, s, step);
    } else if step.DoReopen? {
      RecoverNoMore(s.db.queue);
    } else {
      RestFrame(limits, s, step);
    }
  }

  lemma NextWithinCapacity(limits: Limits, s: State, step: Step)
    requires Inv(s) && WithinCapacity(limits, s.db)
    ensures WithinCapacity(limits, Next(limits, s, step).db)
  {
    if step.DoAdmit? {
      AdmitAllWithin(limits, s.db, step.batch);
    } else {
      OtherNoMore(limits, s, step);
      forall t: string
        ensures Sum(Next(limits, s, step).db.queue, Pending(t)) <= limits.maxPendingPerTarget
      {
        assert Sum(s.db.queue, Pending(t)) <= limits.maxPendingPerTarget;
      }
    }
  }

  // Flights.

  lemma {:induction false} StartRowsWithin(limits: Limits, s: State, rows: seq<Row>, now: int, room: nat)
    requires WithinFlight(limits, s)
    ensures WithinFlight(limits, StartRows(limits, s, rows, now, room))
    decreases |rows|
  {
    if rows != [] {
      if InFlight(s.flights, rows[0].id) {
        StartRowsWithin(limits, s, rows[1..], now, room);
      } else if !MustWait(limits, s, rows[0], now, room) {
        StartRowsWithin(limits, Launch(s, rows[0]), rows[1..], now, room - 1);
      }
    }
  }

  lemma NextWithinFlight(limits: Limits, s: State, step: Step)
    requires WithinFlight(limits, s)
    ensures WithinFlight(limits, Next(limits, s, step))
  {
    match step
    case DoTryHead(target, room, now, _) => StartRowsWithin(limits, s, Window(s.db.queue, target), now, room);
    case DoCommand(request, actor, env) => CommandFrame(s, request, actor, env);
    case _ =>
  }

  /** Under fixed limits every reachable state is within the admission and flight limits, whatever happens. */
  lemma {:induction false} RunWithinLimits(limits: Limits, s: State, steps: seq<Step>)
    requires Inv(s) && WithinCapacity(limits, s.db) && WithinFlight(limits, s)
    ensures WithinCapacity(limits, Run(limits, s, steps).db) && WithinFlight(limits, Run(limits, s, steps))
    decreases |steps|
  {
    if steps != [] {
      NextKeepsInv(limits, s, steps[0]);
      NextWithinCapacity(limits, s, steps[0]);
      NextWithinFlight(limits, s, steps[0]);
      RunWithinLimits(limits, Next(limits, s, steps[0]), steps[1..]);
    }
  }

  // Order.

  /** The selected rows are in key order, and no pending row below one of them is left out. */
  lemma {:induction false} PendingRowsOrdered(q: seq<Row>, target: string)
    requires WellKeyed(q)
    ensures forall i, j :: 0 <= i < j < |PendingRows(q, target)| ==>
              PendingRows(q, target)[i].key < PendingRows(q, target)[j].key
  {
    if q != [] {
      TailWellKeyed(q);
      PendingRowsOrdered(q[1..], target);
      PendingRowsMembers(q[1..], target);
      var rest := PendingRows(q[1..], target);
      assert forall k :: 0 <= k < |rest| ==> rest[k] in rest;
    }
  }

  lemma WindowComplete(q: seq<Row>, target: string, n: nat, r: Row)
    requires WellKeyed(q) && n < |Window(q, target)|
    requires r in q && !r.confirmed && r.target == target && r.key < Window(q, target)[n].key
    ensures exists k :: 0 <= k < n && Window(q, target)[k] == r
  {
    PendingRowsMembers(q, target);
    PendingRowsOrdered(q, target);
    var rows := PendingRows(q, target);
    var k :| 0 <= k < |rows| && rows[k] == r;
    assert k < n;
    assert Window(q, target)[k] == r;
  }

  ghost predicate FlownBefore(flights: seq<Flight>, j: nat, id: string) {
    exists i :: 0 <= i < j && i < |flights| && flights[i].row.id == id
  }

  /** The flight carries a row of the window, and every earlier row of the window was in flight before it. */
  ghost predicate InTurn(flights: seq<Flight>, j: nat, window: seq<Row>, p: nat)
    requires j < |flights|
  {
    exists n :: p <= n < |window| && flights[j].row == window[n]
             && forall k :: 0 <= k < n ==> FlownBefore(flights, j, window[k].id)
  }

  /** Started flights follow the old ones, and every row skipped or started earlier was already in flight. */
  lemma {:induction false} StartRowsOrder(
    limits: Limits, s: State, window: seq<Row>, p: nat, now: int, room: nat)
    requires p <= |window|
    requires forall k :: 0 <= k < p ==> InFlight(s.flights, window[k].id)
    ensures var next := StartRows(limits, s, window[p..], now, room);
            && s.flights <= next.flights
            && forall j :: |s.flights| <= j < |next.flights| ==> InTurn(next.flights, j, window, p)
    decreases |window| - p
  {
    if p < |window| {
      var row := window[p];
      assert window[p..][1..] == window[p + 1..];
      if InFlight(s.flights, row.id) {
        StartRowsOrder(limits, s, window, p + 1, now, room);
        LaterTurns(StartRows(limits, s, window[p + 1..], now, room).flights, |s.flights|, window, p, p + 1);
      } else if !MustWait(limits, s, row, now, room) {
        var s1 := Launch(s, row);
        LaunchedInFlight(s, row, window, p);
        StartRowsOrder(limits, s1, window, p + 1, now, room - 1);
        var next := StartRows(limits, s1, window[p + 1..], now, room - 1).flights;
        LaterTurns(next, |s1.flights|, window, p, p + 1);
        FirstTurn(s, next, window, p);
      }
    }
  }

  lemma LaterTurns(flights: seq<Flight>, from: nat, window: seq<Row>, p: nat, next: nat)
    requires next == p + 1 && forall j :: from <= j < |flights| ==> InTurn(flights, j, window, next)
    ensures forall j :: from <= j < |flights| ==> InTurn(flights, j, window, p)
  {
    forall j | from <= j < |flights| ensures InTurn(flights, j, window, p) {
      assert InTurn(flights, j, window, next);
      var n :| next <= n < |window| && flights[j].row == window[n]
               && forall k :: 0 <= k < n ==> FlownBefore(flights, j, window[k].id);
    }
  }

  lemma FirstTurn(s: State, next: seq<Flight>, window: seq<Row>, p: nat)
    requires p < |window| && Launch(s, window[p]).flights <= next
    requires forall k :: 0 <= k < p ==> InFlight(s.flights, window[k].id)
    ensures InTurn(next, |s.flights|, window, p)
  {
    var flights := Launch(s, window[p]).flights;
    assert next[|s.flights|] == flights[|s.flights|];
    forall k | 0 <= k < p ensures FlownBefore(next, |s.flights|, window[k].id) {
      var i :| 0 <= i < |s.flights| && s.flights[i].row.id == window[k].id;
      assert next[i] == flights[i] == s.flights[i];
    }
  }

  lemma LaunchedInFlight(s: State, row: Row, window: seq<Row>, p: nat)
    requires p < |window| && window[p] == row
    requires forall k :: 0 <= k < p ==> InFlight(s.flights, window[k].id)
    ensures forall k :: 0 <= k <= p ==> InFlight(Launch(s, row).flights, window[k].id)
  {
    var flights := Launch(s, row).flights;
    forall k | 0 <= k <= p ensures InFlight(flights, window[k].id) {
      if k < p {
        var i :| 0 <= i < |s.flights| && s.flights[i].row.id == window[k].id;
        assert flights[i].row.id == window[k].id;
      } else {
        assert flights[|s.flights|].row.id == row.id;
      }
    }
  }

  lemma HeadsInOrder(limits: Limits, s: State, target: string, room: nat, now: int, j: nat, r: Row)
    requires WellKeyed(s.db.queue)
    requires var next := StartRows(limits, s, Window(s.db.queue, target), now, room);
             && |s.flights| <= j < |next.flights|
             && r in s.db.queue && !r.confirmed
             && r.target == next.flights[j].row.target && r.key < next.flights[j].row.key
    ensures FlownBefore(StartRows(limits, s, Window(s.db.queue, target), now, room).flights, j, r.id)
  {
    var window := Window(s.db.queue, target);
    assert window[0..] == window;
    StartRowsOrder(limits, s, window, 0, now, room);
    var next := StartRows(limits, s, window, now, room);
    assert InTurn(next.flights, j, window, 0);
    var n :| 0 <= n < |window| && next.flights[j].row == window[n]
             && forall k :: 0 <= k < n ==> FlownBefore(next.flights, j, window[k].id);
    WindowMembers(s.db.queue, target);
    assert window[n] in window;
    WindowComplete(s.db.queue, target, n, r);
  }

  /** A row is started only after every pending row of its target with a lower key is in flight. */
  lemma StartsInOrder(limits: Limits, s: State, step: Step, j: nat, r: Row)
    requires Inv(s) && |s.flights| <= j < |Next(limits, s, step).flights|
    requires r in s.db.queue && !r.confirmed
    requires var f := Next(limits, s, step).flights[j]; r.target == f.row.target && r.key < f.row.key
    ensures FlownBefore(Next(limits, s, step).flights, j, r.id)
  {
    OnlyTryHeadStarts(limits, s, step);
    HeadsInOrder(limits, s, step.target, step.room, step.now, j, r);
  }

  lemma OnlyTryHeadStarts(limits: Limits, s: State, step: Step)
    ensures |Next(limits, s, step).flights| > |s.flights| ==> step.DoTryHead? && MayWrite(s, step.target, step.canReplay)
  {
    if step.DoCommand? {
      CommandFrame(s, step.request, step.actor, step.env);
    }
  }

  /** A due head row always fits when nothing is in flight, if the limits admit one event of the largest size. */
  lemma HeadFits(limits: Limits, s: State, target: string, room: nat, now: int)
    requires Inv(s) && s.flights == [] && MayWrite(s, target, true)
    requires limits.maxInFlight >= 1 && limits.maxInFlightBytes >= MAX_EVENT_BYTES
    requires Window(s.db.queue, target) != [] && Window(s.db.queue, target)[0].retryAt <= now && room >= 1
    ensures var next := TryHead(limits, s, target, room, now, true);
            |next.flights| >= 1 && next.flights[0].row == Window(s.db.queue, target)[0]
  {
    var window := Window(s.db.queue, target);
    WindowMembers(s.db.queue, target);
    assert window[0] in window;
    var s1 := Launch(s, window[0]);
    LaunchedInFlight(s, window[0], window, 0);
    StartRowsOrder(limits, s1, window, 1, now, room - 1);
    assert StartRows(limits, s, window, now, room) == StartRows(limits, s1, window[1..], now, room - 1);
  }

  /** The default limits are such limits. */
  lemma DefaultHeadFits(s: State, target: string, room: nat, now: int)
    requires Inv(s) && s.flights == [] && MayWrite(s, target, true)
    requires Window(s.db.queue, target) != [] && Window(s.db.queue, target)[0].retryAt <= now && room >= 1
    ensures |TryHead(DEFAULT_LIMITS, s, target, room, now, true).flights| >= 1
  {
    HeadFits(DEFAULT_LIMITS, s, target, room, now);
  }
}
