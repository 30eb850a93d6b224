/** Every admitted row is settled exactly once, and what reaches the destination is what is settled. */
module BatcherSettlement {
  import opened Common
  import opened BatcherModel

  // Reading the history.

  function TakenIds(log: seq<Event>): seq<nat> {
    if log == [] then []
    else TakenIds(log[..|log| - 1]) + if log[|log| - 1].Taken? then log[|log| - 1].ids else []
  }

  /** The rows of the latest batch. */
  function LastTaken(log: seq<Event>): seq<nat> {
    if log == [] then []
    else if log[|log| - 1].Taken? then log[|log| - 1].ids
    else LastTaken(log[..|log| - 1])
  }

  function SettledIds(log: seq<Event>): seq<nat> {
    if log == [] then []
    else
      var e := log[|log| - 1];
      SettledIds(log[..|log| - 1]) + if e.Resolved? then [e.id] else if e.Rejected? then [e.id] else []
  }

  function CountRejected(log: seq<Event>): nat {
    if log == [] then 0 else CountRejected(log[..|log| - 1]) + if log[|log| - 1].Rejected? then 1 else 0
  }

  function RejectedIds(log: seq<Event>): set<nat> {
    if log == [] then {}
    else RejectedIds(log[..|log| - 1]) + if log[|log| - 1].Rejected? then {log[|log| - 1].id} else {}
  }

  /** The ids without those that are out, in their order. */
  function Survivors(ids: seq<nat>, out: set<nat>): seq<nat> {
    if ids == [] then []
    else if ids[0] in out then Survivors(ids[1..], out)
    else [ids[0]] + Survivors(ids[1..], out)
  }

  function UpTo(n: nat): (r: seq<nat>)
    ensures |r| == n && forall i :: 0 <= i < n ==> r[i] == i
  {
    seq(n, i => i)
  }

  /** The rows of the running flush that are not settled yet. */
  function Unsettled(s: State): seq<Row> {
    if s.flight.Some? && !s.flight.value.stage.Over? then s.flight.value.rows else []
  }

  // What the history promises.

  /** A flush carries whole rows only: those of its batch that were not rejected before, in the order they came. */
  ghost predicate ExactFlush(log: seq<Event>, j: nat)
    requires j < |log|
  {
    log[j].Flushed? ==> log[j].buffer == Wholes(Survivors(LastTaken(log[..j]), RejectedIds(log[..j]))) && log[j].buffer != []
  }

  /** A flush that was sent is followed by the resolutions of exactly its rows. */
  ghost predicate SentResolves(log: seq<Event>, j: nat)
    requires j < |log|
  {
    log[j].Flushed? && log[j].outcome.Sent? ==>
      && j + |log[j].buffer| < |log|
      && forall m :: 0 <= m < |log[j].buffer| ==> log[j + 1 + m] == Resolved(log[j].buffer[m].id)
  }

  /** There is no other resolution. */
  ghost predicate ResolvedWasSent(log: seq<Event>, j: nat)
    requires j < |log|
  {
    log[j].Resolved? ==>
      exists i :: 0 <= i < j && log[i].Flushed? && log[i].outcome.Sent? && j <= i + |log[i].buffer|
  }

  ghost predicate Truthful(log: seq<Event>) {
    forall j :: 0 <= j < |log| ==> ExactFlush(log, j) && SentResolves(log, j) && ResolvedWasSent(log, j)
  }

  // The invariant.

  /** Every admitted row is pending, carried by the flush, or settled; batches leave the queue from the front. */
  ghost predicate Books(log: seq<Event>, pending: seq<nat>, carried: seq<nat>, admitted: nat) {
    && TakenIds(log) + pending == UpTo(admitted)
    && multiset(SettledIds(log)) + multiset(carried) == multiset(TakenIds(log))
  }

  ghost predicate Accounted(s: State) {
    Books(s.log, Ids(s.pending), Ids(Unsettled(s)), s.admitted)
  }

  ghost predicate BufferHolds(buffer: seq<Mark>, f: Flight) {
    match f.stage
    case Writing(k) => k < |f.rows| && buffer == Wholes(Ids(f.rows)[..k])
    case Sending => f.rows != [] && buffer == Wholes(Ids(f.rows))
    case _ => true
  }

  /** The flush is of the latest batch; it carries those of its rows that were not rejected, and the buffer those that
      were written. */
  ghost predicate Carried(s: State) {
    s.flight.Some? ==>
      var f := s.flight.value;
      && LastTaken(s.log) == Ids(f.batch)
      && (!f.stage.Over? ==> Ids(f.rows) == Survivors(LastTaken(s.log), RejectedIds(s.log)) && BufferHolds(s.buffer, f))
  }

  ghost predicate Settling(s: State) {
    Accounted(s) && Carried(s) && Truthful(s.log) && s.counters.rejectedRows == CountRejected(s.log)
  }

  // Lists.

  predicate Ascending(ids: seq<nat>) {
    forall i, j :: 0 <= i < j < |ids| ==> ids[i] < ids[j]
  }

  lemma Split(log: seq<Event>, e: Event)
    ensures (log + [e])[..|log|] == log && (log + [e])[|log|] == e && |log + [e]| == |log| + 1
  {
  }

  lemma AppendReads(log: seq<Event>, e: Event)
    ensures TakenIds(log + [e]) == if e.Taken? then TakenIds(log) + e.ids else TakenIds(log)
    ensures LastTaken(log + [e]) == if e.Taken? then e.ids else LastTaken(log)
    ensures SettledIds(log + [e]) == if e.Resolved? || e.Rejected? then SettledIds(log) + [e.id] else SettledIds(log)
    ensures CountRejected(log + [e]) == CountRejected(log) + if e.Rejected? then 1 else 0
    ensures RejectedIds(log + [e]) == if e.Rejected? then RejectedIds(log) + {e.id} else RejectedIds(log)
  {
    Split(log, e);
  }

  lemma LastSettlement(log: seq<Event>, rows: seq<Row>, ok: bool)
    requires rows != []
    ensures var n := |rows| - 1;
            log + Settlements(rows, ok) == log + Settlements(rows[..n], ok) + [Settlement(rows[n], ok)]
  {
    var n := |rows| - 1;
    assert Settlements(rows, ok) == Settlements(rows[..n], ok) + [Settlement(rows[n], ok)];
  }

  /** A run of settlements takes nothing. */
  lemma {:induction false} SettlementsTakeNothing(log: seq<Event>, rows: seq<Row>, ok: bool)
    ensures TakenIds(log + Settlements(rows, ok)) == TakenIds(log)
    ensures CountRejected(log + Settlements(rows, ok)) == CountRejected(log) + if ok then 0 else |rows|
    ensures LastTaken(log + Settlements(rows, ok)) == LastTaken(log)
  {
    if rows == [] {
      assert log + Settlements(rows, ok) == log;
    } else {
      var n := |rows| - 1;
      SettlementsTakeNothing(log, rows[..n], ok);
      LastSettlement(log, rows, ok);
      AppendReads(log + Settlements(rows[..n], ok), Settlement(rows[n], ok));
    }
  }

  /** A run of settlements settles its rows. */
  lemma {:induction false} SettlementsSettle(log: seq<Event>, rows: seq<Row>, ok: bool)
    ensures SettledIds(log + Settlements(rows, ok)) == SettledIds(log) + Ids(rows)
  {
    if rows == [] {
      assert log + Settlements(rows, ok) == log;
    } else {
      var n := |rows| - 1;
      SettlementsSettle(log, rows[..n], ok);
      LastSettlement(log, rows, ok);
      AppendReads(log + Settlements(rows[..n], ok), Settlement(rows[n], ok));
      LastId(SettledIds(log), rows);
    }
  }

  lemma LastId(ids: seq<nat>, rows: seq<Row>)
    requires rows != []
    ensures var n := |rows| - 1;
            ids + Ids(rows) == ids + Ids(rows[..n]) + [rows[n].id]
  {
  }

  // Survivors.

  lemma {:induction false} SurvivorsAre(ids: seq<nat>, out: set<nat>, x: nat)
    ensures x in Survivors(ids, out) <==> x in ids && x !in out
  {
    if ids != [] {
      SurvivorsAre(ids[1..], out, x);
      assert x in ids <==> x == ids[0] || x in ids[1..];
    }
  }

  lemma {:induction false} SurvivorsIgnore(ids: seq<nat>, out: set<nat>, x: nat)
    requires x !in ids
    ensures Survivors(ids, out + {x}) == Survivors(ids, out)
  {
    if ids != [] {
      SurvivorsIgnore(ids[1..], out, x);
    }
  }

  lemma {:induction false} AllSurvive(ids: seq<nat>, out: set<nat>)
    requires forall x :: x in ids ==> x !in out
    ensures Survivors(ids, out) == ids
  {
    if ids != [] {
      AllSurvive(ids[1..], out);
      assert ids[0] in ids;
      assert ids == [ids[0]] + ids[1..];
    }
  }

  /** Rejecting one survivor removes just that one. */
  lemma {:induction false} SurvivorsDrop(ids: seq<nat>, out: set<nat>, k: nat)
    requires Ascending(ids) && k < |Survivors(ids, out)|
    ensures var all := Survivors(ids, out);
            Survivors(ids, out + {all[k]}) == all[..k] + all[k + 1..]
  {
    var all, rest := Survivors(ids, out), Survivors(ids[1..], out);
    if ids[0] in out {
      SurvivorsDrop(ids[1..], out, k);
    } else if k == 0 {
      SurvivorsIgnore(ids[1..], out, ids[0]);
    } else {
      SurvivorsDrop(ids[1..], out, k - 1);
      SurvivorsAre(ids[1..], out, rest[k - 1]);
      assert all[k] == rest[k - 1] && ids[0] < rest[k - 1];
      assert all[..k] + all[k + 1..] == [ids[0]] + (rest[..k - 1] + rest[k..]);
    }
  }

  // Where ids come from.

  lemma {:induction false} RejectedIsSettled(log: seq<Event>, x: nat)
    requires x in RejectedIds(log)
    ensures x in SettledIds(log)
  {
    if log[|log| - 1] != Rejected(x) {
      RejectedIsSettled(log[..|log| - 1], x);
    }
  }

  lemma {:induction false} RejectedIsIn(log: seq<Event>, i: nat)
    requires i < |log| && log[i].Rejected?
    ensures log[i].id in RejectedIds(log)
  {
    if i < |log| - 1 {
      RejectedIsIn(log[..|log| - 1], i);
    }
  }

  lemma {:induction false} LastIsTaken(log: seq<Event>) returns (p: nat)
    ensures p + |LastTaken(log)| <= |TakenIds(log)| && TakenIds(log)[p..p + |LastTaken(log)|] == LastTaken(log)
  {
    if log == [] {
      p := 0;
    } else if log[|log| - 1].Taken? {
      p := |TakenIds(log[..|log| - 1])|;
    } else {
      p := LastIsTaken(log[..|log| - 1]);
    }
  }

  lemma LastAscends(log: seq<Event>, pending: seq<nat>, admitted: nat)
    requires TakenIds(log) + pending == UpTo(admitted)
    ensures Ascending(LastTaken(log))
  {
    var p := LastIsTaken(log);
    var all, last := TakenIds(log), LastTaken(log);
    forall i | 0 <= i < |all| ensures all[i] == i {
      assert (all + pending)[i] == i;
    }
    forall i | 0 <= i < |last| ensures last[i] == p + i {
      assert last[i] == all[p..p + |last|][i] == all[p + i];
    }
  }

  /** A pending row was never rejected. */
  lemma PendingNotRejected(log: seq<Event>, pending: seq<nat>, carried: seq<nat>, admitted: nat, i: nat)
    requires Books(log, pending, carried, admitted) && i < |pending|
    ensures pending[i] !in RejectedIds(log)
  {
    var all, x := TakenIds(log), pending[i];
    assert x == (all + pending)[|all| + i] == |all| + i;
    if x in RejectedIds(log) {
      RejectedIsSettled(log, x);
      SettledIsTaken(log, pending, carried, admitted, x);
      assert false;
    }
  }

  lemma SettledIsTaken(log: seq<Event>, pending: seq<nat>, carried: seq<nat>, admitted: nat, x: nat)
    requires Books(log, pending, carried, admitted) && x in SettledIds(log)
    ensures x < |TakenIds(log)|
  {
    var all := TakenIds(log);
    assert x in multiset(SettledIds(log));
    assert x in multiset(all);
    var k :| 0 <= k < |all| && all[k] == x;
    assert (all + pending)[k] == k;
  }

  // What each kind of event does to the books.

  lemma Associate(a: seq<nat>, b: seq<nat>, c: seq<nat>)
    ensures a + (b + c) == (a + b) + c
  {
  }

  lemma BothCount(a: seq<nat>, b: seq<nat>)
    ensures multiset(a + b) == multiset(a) + multiset(b)
  {
  }

  lemma BooksTake(log: seq<Event>, batch: seq<nat>, rest: seq<nat>, admitted: nat)
    requires Books(log, batch + rest, [], admitted)
    ensures Books(log + [Taken(batch)], rest, batch, admitted)
  {
    AppendReads(log, Taken(batch));
    Associate(TakenIds(log), batch, rest);
    BothCount(TakenIds(log), batch);
  }

  lemma BooksAdmit(log: seq<Event>, pending: seq<nat>, carried: seq<nat>, admitted: nat)
    requires Books(log, pending, carried, admitted)
    ensures Books(log, pending + [admitted], carried, admitted + 1)
  {
    assert UpTo(admitted + 1) == UpTo(admitted) + [admitted];
    Associate(TakenIds(log), pending, [admitted]);
  }

  lemma RemoveOne(all: seq<nat>, k: nat)
    requires k < |all|
    ensures multiset(all[..k] + all[k + 1..]) + multiset([all[k]]) == multiset(all)
  {
    var a, b := all[..k], all[k + 1..];
    assert all == a + ([all[k]] + b);
    BothCount(a, [all[k]] + b);
    BothCount([all[k]], b);
    BothCount(a, b);
  }

  lemma BooksReject(log: seq<Event>, pending: seq<nat>, carried: seq<nat>, admitted: nat, k: nat)
    requires Books(log, pending, carried, admitted) && k < |carried|
    ensures Books(log + [Rejected(carried[k])], pending, carried[..k] + carried[k + 1..], admitted)
  {
    AppendReads(log, Rejected(carried[k]));
    RemoveOne(carried, k);
    BothCount(SettledIds(log), [carried[k]]);
  }

  lemma BooksFlushed(log: seq<Event>, pending: seq<nat>, carried: seq<nat>, admitted: nat, e: Event)
    requires Books(log, pending, carried, admitted) && e.Flushed?
    ensures Books(log + [e], pending, carried, admitted)
  {
    AppendReads(log, e);
  }

  lemma BooksSettle(log: seq<Event>, pending: seq<nat>, rows: seq<Row>, admitted: nat, ok: bool)
    requires Books(log, pending, Ids(rows), admitted)
    ensures Books(log + Settlements(rows, ok), pending, [], admitted)
  {
    SettlementsTakeNothing(log, rows, ok);
    SettlementsSettle(log, rows, ok);
    BothCount(SettledIds(log), Ids(rows));
  }

  // Steps.

  lemma LogPrefix(log: seq<Event>, more: seq<Event>, j: nat)
    requires j < |log|
    ensures (log + more)[..j] == log[..j] && (log + more)[j] == log[j]
  {
  }

  /** What the history says of earlier events stays true. */
  lemma TruthStays(log: seq<Event>, more: seq<Event>)
    requires Truthful(log)
    ensures forall j :: 0 <= j < |log| ==>
              ExactFlush(log + more, j) && SentResolves(log + more, j) && ResolvedWasSent(log + more, j)
  {
    forall j | 0 <= j < |log|
      ensures ExactFlush(log + more, j) && SentResolves(log + more, j) && ResolvedWasSent(log + more, j)
    {
      LogPrefix(log, more, j);
      assert ExactFlush(log, j) && SentResolves(log, j) && ResolvedWasSent(log, j);
    }
  }

  lemma TruthOfOne(log: seq<Event>, e: Event)
    requires Truthful(log) && (e.Taken? || e.Rejected?)
    ensures Truthful(log + [e])
  {
    TruthStays(log, [e]);
    Split(log, e);
  }

  /** No row of a new batch was rejected before. */
  lemma BatchSurvives(log: seq<Event>, batch: seq<nat>, rest: seq<nat>, carried: seq<nat>, admitted: nat)
    requires Books(log, batch + rest, carried, admitted)
    ensures LastTaken(log + [Taken(batch)]) == batch == Survivors(batch, RejectedIds(log + [Taken(batch)]))
  {
    AppendReads(log, Taken(batch));
    forall x | x in batch ensures x !in RejectedIds(log) {
      var i :| 0 <= i < |batch| && batch[i] == x;
      assert (batch + rest)[i] == x;
      PendingNotRejected(log, batch + rest, carried, admitted, i);
    }
    AllSurvive(batch, RejectedIds(log));
  }

  lemma TakenCarried(s: State)
    requires Accounted(s) && s.flight.None? && s.pending != [] && s.config.maxRows >= 1
    ensures Carried(FlushPending(s))
  {
    var next := FlushPending(s);
    var batch, rest := Ids(next.flight.value.batch), Ids(next.pending);
    assert Ids(s.pending) == batch + rest;
    BatchSurvives(s.log, batch, rest, Ids(Unsettled(s)), s.admitted);
  }

  lemma TakenAccounted(s: State)
    requires Accounted(s) && s.flight.None? && s.pending != [] && s.config.maxRows >= 1
    ensures Accounted(FlushPending(s))
  {
    var next := FlushPending(s);
    var batch, rest := next.flight.value.batch, next.pending;
    assert Ids(s.pending) == Ids(batch) + Ids(rest);
    assert Ids(Unsettled(s)) == [];
    BooksTake(s.log, Ids(batch), Ids(rest), s.admitted);
  }

  lemma FlushPendingSettles(s: State)
    requires Settling(s) && s.config.maxRows >= 1
    ensures Settling(FlushPending(s))
  {
    if s.flight.None? && s.pending != [] {
      TakenCarried(s);
      TakenAccounted(s);
      var e := Taken(Ids(FlushPending(s).flight.value.batch));
      AppendReads(s.log, e);
      TruthOfOne(s.log, e);
    }
  }

  lemma ScheduleSettles(s: State)
    requires Settling(s) && s.config.maxRows >= 1
    ensures Settling(Schedule(s))
  {
    if |s.pending| >= s.config.maxRows {
      FlushPendingSettles(s);
    }
  }

  /** The state that a new row is scheduled in. */
  function Joined(s: State, row: Row): State {
    s.(pending := s.pending + [row], deadline := Sooner(s.deadline, row.flushAt), admitted := s.admitted + 1)
  }

  lemma JoinedSettles(s: State, row: Row)
    requires Settling(s) && row.id == s.admitted
    ensures Settling(Joined(s, row))
  {
    assert Ids(s.pending + [row]) == Ids(s.pending) + [s.admitted];
    BooksAdmit(s.log, Ids(s.pending), Ids(Unsettled(s)), s.admitted);
  }

  lemma EnqueueSettles(s: State, hint: Hint)
    requires Settling(s) && s.config.maxRows >= 1
    ensures Settling(Enqueue(s, hint))
  {
    if Answer(s, hint).Admitted? {
      var row := NewRow(s, hint);
      JoinedSettles(s, row);
      ScheduleSettles(Joined(s, row));
      assert Enqueue(s, hint) == Schedule(Joined(s, row));
    }
  }

  lemma ConfigureSettles(s: State, given: GivenConfig)
    requires Settling(s)
    ensures Settling(Configure(s, given))
  {
    var config := Resolve(given);
    var rows := ShortenAll(s.pending, config);
    assert Ids(rows) == Ids(s.pending);
    ScheduleSettles(s.(config := config, timer := None, pending := rows, deadline := Earliest(rows)));
  }

  lemma ResetSettles(s: State)
    requires Settling(s)
    ensures Settling(Reset(s))
  {
    if At(s, Resetting) {
      assert Ids(Unsettled(Reset(s))) == Ids(Unsettled(s));
      assert s.flight.value.rows != [] ==> Wholes(Ids(s.flight.value.rows)[..0]) == [];
    }
  }

  predicate InWriting(s: State) {
    s.flight.Some? && s.flight.value.stage.Writing? && s.flight.value.stage.next < |s.flight.value.rows|
  }

  lemma WrittenCarried(s: State)
    requires Carried(s) && InWriting(s)
    ensures Carried(Write(s, true))
  {
    var ids, k := Ids(s.flight.value.rows), s.flight.value.stage.next;
    assert Wholes(ids[..k + 1]) == Wholes(ids[..k]) + [Whole(ids[k])];
    assert k + 1 == |ids| ==> ids[..k + 1] == ids;
  }

  lemma PoisonAccounted(s: State)
    requires Accounted(s) && InWriting(s)
    ensures Accounted(Write(s, false))
  {
    var f, k := s.flight.value, s.flight.value.stage.next;
    var ids := Ids(f.rows);
    WithoutId(f.rows, k);
    BooksReject(s.log, Ids(s.pending), ids, s.admitted, k);
    var next := Write(s, false);
    assert next.log == s.log + [Rejected(ids[k])] && Unsettled(next) == Without(f.rows, k);
  }

  lemma PoisonSurvivors(log: seq<Event>, ids: seq<nat>, k: nat)
    requires Ascending(LastTaken(log)) && ids == Survivors(LastTaken(log), RejectedIds(log)) && k < |ids|
    ensures var next := log + [Rejected(ids[k])];
            LastTaken(next) == LastTaken(log) && Survivors(LastTaken(next), RejectedIds(next)) == ids[..k] + ids[k + 1..]
  {
    AppendReads(log, Rejected(ids[k]));
    SurvivorsDrop(LastTaken(log), RejectedIds(log), k);
  }

  lemma WithoutId(rows: seq<Row>, k: nat)
    requires k < |rows|
    ensures Ids(Without(rows, k)) == Ids(rows)[..k] + Ids(rows)[k + 1..]
  {
  }

  lemma PoisonCarried(s: State)
    requires Ascending(LastTaken(s.log)) && Carried(s) && InWriting(s)
    ensures Carried(Write(s, false))
  {
    var f, k := s.flight.value, s.flight.value.stage.next;
    PoisonSurvivors(s.log, Ids(f.rows), k);
    WithoutId(f.rows, k);
  }

  lemma PoisonTruthful(s: State)
    requires Truthful(s.log) && s.counters.rejectedRows == CountRejected(s.log) && InWriting(s)
    ensures Truthful(Write(s, false).log) && Write(s, false).counters.rejectedRows == CountRejected(Write(s, false).log)
  {
    var e := Rejected(s.flight.value.rows[s.flight.value.stage.next].id);
    AppendReads(s.log, e);
    TruthOfOne(s.log, e);
  }

  lemma WriteSettles(s: State, ok: bool)
    requires Settling(s)
    ensures Settling(Write(s, ok))
  {
    if InWriting(s) {
      if ok {
        WrittenCarried(s);
      } else {
        PoisonAccounted(s);
        LastAscends(s.log, Ids(s.pending), s.admitted);
        PoisonCarried(s);
        PoisonTruthful(s);
      }
    }
  }

  /** A sent flush and its resolutions, after any history. */
  lemma SentBlock(log: seq<Event>, rows: seq<Row>, next: seq<Event>)
    requires next == log + [Flushed(Wholes(Ids(rows)), Sent)] + Settlements(rows, true)
    ensures SentResolves(next, |log|)
    ensures forall j :: |log| < j < |next| ==> !next[j].Flushed? && ResolvedWasSent(next, j)
  {
    var n := |log|;
    forall j | n < j < |next| ensures next[j] == Resolved(rows[j - n - 1].id) && ResolvedWasSent(next, j) {
      assert next[j] == Settlements(rows, true)[j - n - 1];
      assert next[n].Flushed? && next[n].outcome.Sent? && j <= n + |next[n].buffer|;
    }
  }

  /** The events of a flush that was sent. */
  lemma TruthOfSent(log: seq<Event>, rows: seq<Row>)
    requires Truthful(log) && rows != [] && Ids(rows) == Survivors(LastTaken(log), RejectedIds(log))
    ensures Truthful(log + [Flushed(Wholes(Ids(rows)), Sent)] + Settlements(rows, true))
  {
    var more := [Flushed(Wholes(Ids(rows)), Sent)] + Settlements(rows, true);
    var next := log + more;
    TruthStays(log, more);
    assert next == log + [Flushed(Wholes(Ids(rows)), Sent)] + Settlements(rows, true);
    assert next[..|log|] == log && next[|log|] == more[0];
    SentBlock(log, rows, next);
  }

  lemma TruthOfFailed(log: seq<Event>, rows: seq<Row>, settled: seq<Row>, retryable: bool)
    requires Truthful(log) && rows != [] && Ids(rows) == Survivors(LastTaken(log), RejectedIds(log))
    ensures Truthful(log + [Flushed(Wholes(Ids(rows)), Failed(retryable))] + Settlements(settled, false))
  {
    hide Survivors, LastTaken, RejectedIds, Wholes, Ids;
    var b := Wholes(Ids(rows));
    var more := [Flushed(b, Failed(retryable))] + Settlements(settled, false);
    var next := log + more;
    TruthStays(log, more);
    assert next == log + [Flushed(b, Failed(retryable))] + Settlements(settled, false);
    var n := |log|;
    assert next[..n] == log && next[n] == more[0];
    forall j | n < j < |next| ensures next[j].Rejected? {
      assert next[j] == more[j - n] == Settlements(settled, false)[j - n - 1];
    }
  }

  lemma SentSettles(s: State)
    requires Settling(s) && At(s, Sending)
    ensures Settling(Flush(s, Sent))
  {
    var rows, e := s.flight.value.rows, Flushed(s.buffer, Sent);
    AppendReads(s.log, e);
    BooksFlushed(s.log, Ids(s.pending), Ids(rows), s.admitted, e);
    BooksSettle(s.log + [e], Ids(s.pending), rows, s.admitted, true);
    SettlementsTakeNothing(s.log + [e], rows, true);
    TruthOfSent(s.log, rows);
    NoneLeft(Flush(s, Sent));
  }

  lemma NoneLeft(s: State)
    requires At(s, Over)
    ensures Ids(Unsettled(s)) == []
  {
  }

  lemma FailedBooks(s: State, retryable: bool)
    requires Accounted(s) && At(s, Sending) && s.counters.rejectedRows == CountRejected(s.log)
    ensures var log := s.log + [Flushed(s.buffer, Failed(retryable))] + Settlements(s.flight.value.rows, false);
            && Books(log, Ids(s.pending), [], s.admitted) && LastTaken(log) == LastTaken(s.log)
            && CountRejected(log) == s.counters.rejectedRows + |s.flight.value.rows|
  {
    var rows, e := s.flight.value.rows, Flushed(s.buffer, Failed(retryable));
    AppendReads(s.log, e);
    BooksFlushed(s.log, Ids(s.pending), Ids(rows), s.admitted, e);
    BooksSettle(s.log + [e], Ids(s.pending), rows, s.admitted, false);
    SettlementsTakeNothing(s.log + [e], rows, false);
  }

  lemma FailedSettles(s: State, retryable: bool)
    requires Settling(s) && At(s, Sending) && (s.flight.value.attempt >= ATTEMPTS || !retryable)
    ensures Settling(Flush(s, Failed(retryable)))
  {
    FailedBooks(s, retryable);
    TruthOfFailed(s.log, s.flight.value.rows, s.flight.value.rows, retryable);
    NoneLeft(Flush(s, Failed(retryable)));
  }

  lemma RetryCarried(s: State)
    requires Carried(s) && At(s, Sending) && s.flight.value.attempt < ATTEMPTS
    ensures Carried(Flush(s, Failed(true)))
  {
    AppendReads(s.log, Flushed(s.buffer, Failed(true)));
  }

  lemma RetryTruthful(s: State)
    requires Truthful(s.log) && Carried(s) && At(s, Sending)
    ensures Truthful(s.log + [Flushed(s.buffer, Failed(true))])
  {
    TruthOfFailed(s.log, s.flight.value.rows, [], true);
    assert s.log + [Flushed(s.buffer, Failed(true))] + Settlements([], false) == s.log + [Flushed(s.buffer, Failed(true))];
  }

  lemma RetrySettles(s: State)
    requires Settling(s) && At(s, Sending) && s.flight.value.attempt < ATTEMPTS
    ensures Settling(Flush(s, Failed(true)))
  {
    var rows, e := s.flight.value.rows, Flushed(s.buffer, Failed(true));
    var next := Flush(s, Failed(true));
    RetryCarried(s);
    RetryTruthful(s);
    BooksFlushed(s.log, Ids(s.pending), Ids(rows), s.admitted, e);
    AppendReads(s.log, e);
    assert next.log == s.log + [e] && next.pending == s.pending && Unsettled(next) == rows;
  }

  lemma FlushSettles(s: State, outcome: Outcome)
    requires Settling(s)
    ensures Settling(Flush(s, outcome))
  {
    if At(s, Sending) {
      if outcome.Sent? {
        SentSettles(s);
      } else if s.flight.value.attempt < ATTEMPTS && outcome.retryable {
        RetrySettles(s);
      } else {
        FailedSettles(s, outcome.retryable);
      }
    }
  }

  lemma FinishSettles(s: State)
    requires Settling(s) && s.config.maxRows >= 1
    ensures Settling(Finish(s))
  {
    if At(s, Over) {
      ScheduleSettles(s.(flight := None, flushingRows := 0, flushingSince := None));
    }
  }

  lemma TimerSettles(s: State)
    requires Settling(s) && s.config.maxRows >= 1
    ensures Settling(TimerFires(s))
  {
    FlushPendingSettles(s.(timer := None));
  }

  lemma CloseSettles(s: State)
    requires Settling(s) && s.config.maxRows >= 1
    ensures Settling(Close(s))
  {
    FlushPendingSettles(s.(closed := true, timer := None));
  }

  lemma WaitSettles(s: State, elapsed: Duration)
    requires Settling(s)
    ensures Settling(s.(clock := s.clock + elapsed))
  {
  }

  /** No step leaves the batcher without room for a row. */
  lemma NextConfig(s: State, step: Step)
    requires s.config.maxRows >= 1
    ensures Next(s, step).config.maxRows >= 1
  {
  }

  lemma NextSettles(s: State, step: Step)
    requires Settling(s) && s.config.maxRows >= 1
    ensures Settling(Next(s, step))
  {
    match step
    case DoEnqueue(hint) => EnqueueSettles(s, hint);
    case DoConfigure(given) => ConfigureSettles(s, given);
    case DoTimer => TimerSettles(s);
    case DoReset => ResetSettles(s);
    case DoWrite(ok) => WriteSettles(s, ok);
    case DoFlush(outcome) => FlushSettles(s, outcome);
    case DoFinish => FinishSettles(s);
    case DoClose => CloseSettles(s);
    case DoWait(elapsed) => WaitSettles(s, elapsed);
  }

  lemma {:induction false} RunSettles(s: State, steps: seq<Step>)
    requires Settling(s) && s.config.maxRows >= 1
    ensures Settling(Run(s, steps))
    decreases |steps|
  {
    if steps != [] {
      NextSettles(s, steps[0]);
      NextConfig(s, steps[0]);
      RunSettles(Next(s, steps[0]), steps[1..]);
    }
  }

  // The results.

  lemma Combined(log: seq<Event>, pending: seq<nat>, carried: seq<nat>, admitted: nat)
    requires Books(log, pending, carried, admitted)
    ensures multiset(SettledIds(log)) + multiset(carried) + multiset(pending) == multiset(UpTo(admitted))
  {
    BothCount(TakenIds(log), pending);
  }

  lemma CreatedSettles(given: GivenConfig)
    ensures Settling(Created(given)) && Created(given).config.maxRows >= 1
  {
    assert UpTo(0) == [];
  }

  /** In every run each admitted row is in exactly one place: settled once, carried by the flush, or pending. */
  lemma SettledExactlyOnce(given: GivenConfig, steps: seq<Step>)
    ensures var s := Run(Created(given), steps);
            && multiset(SettledIds(s.log)) + multiset(Ids(Unsettled(s))) + multiset(Ids(s.pending))
               == multiset(UpTo(s.admitted))
            && s.counters.rejectedRows == CountRejected(s.log)
  {
    CreatedSettles(given);
    RunSettles(Created(given), steps);
    var s := Run(Created(given), steps);
    Combined(s.log, Ids(s.pending), Ids(Unsettled(s)), s.admitted);
  }

  /** With nothing waiting and no flush running, as after a drain, every row that was ever admitted is settled. */
  lemma DrainedIsSettled(given: GivenConfig, steps: seq<Step>)
    requires Run(Created(given), steps).pending == [] && Run(Created(given), steps).flight == None
    ensures var s := Run(Created(given), steps);
            |SettledIds(s.log)| == s.admitted && forall id :: id in SettledIds(s.log) <==> 0 <= id < s.admitted
  {
    SettledExactlyOnce(given, steps);
    var s := Run(Created(given), steps);
    assert Ids(Unsettled(s)) == [] && Ids(s.pending) == [];
    SameElements(SettledIds(s.log), s.admitted);
  }

  lemma SameElements(ids: seq<nat>, n: nat)
    requires multiset(ids) == multiset(UpTo(n))
    ensures |ids| == n && forall id :: id in ids <==> 0 <= id < n
  {
    assert |multiset(ids)| == |ids| && |multiset(UpTo(n))| == n;
    forall id: nat ensures id in ids <==> 0 <= id < n {
      assert id in ids <==> id in multiset(ids);
      assert id in UpTo(n) <==> id in multiset(UpTo(n));
      if id < n {
        assert UpTo(n)[id] == id;
      }
    }
  }

  /** A closed batcher admits nothing. */
  lemma {:induction false} ClosedStaysClosed(s: State, steps: seq<Step>)
    requires s.closed
    ensures Run(s, steps).closed && Run(s, steps).admitted == s.admitted
    decreases |steps|
  {
    if steps != [] {
      ClosedStaysClosed(Next(s, steps[0]), steps[1..]);
    }
  }

  /** In every run a row resolves only by a flush that was sent with it, and each flush held whole rows only: those of
      its own batch, in the order they came, without any that was rejected before. */
  lemma ResolvedRowsWereSent(given: GivenConfig, steps: seq<Step>, j: nat)
    requires j < |Run(Created(given), steps).log|
    ensures ExactFlush(Run(Created(given), steps).log, j)
    ensures var log := Run(Created(given), steps).log;
            log[j].Resolved? ==>
              exists i :: 0 <= i < j && log[i].Flushed? && log[i].outcome.Sent? && Whole(log[j].id) in log[i].buffer
    ensures var log := Run(Created(given), steps).log;
            log[j].Flushed? && log[j].outcome.Sent? ==>
              forall m :: 0 <= m < |log[j].buffer| ==> Resolved(log[j].buffer[m].id) in log
  {
    CreatedSettles(given);
    RunSettles(Created(given), steps);
    var log := Run(Created(given), steps).log;
    assert ExactFlush(log, j) && SentResolves(log, j) && ResolvedWasSent(log, j);
    if log[j].Resolved? {
      var i :| 0 <= i < j && log[i].Flushed? && log[i].outcome.Sent? && j <= i + |log[i].buffer|;
      assert SentResolves(log, i) && ExactFlush(log, i);
      var m := j - i - 1;
      assert log[i + 1 + m] == Resolved(log[i].buffer[m].id);
      assert log[i].buffer[m] in log[i].buffer;
    }
  }

  /** A row that was rejected is in no later flush. */
  lemma PoisonStaysOut(given: GivenConfig, steps: seq<Step>, i: nat, j: nat)
    requires i < j < |Run(Created(given), steps).log|
    requires Run(Created(given), steps).log[i].Rejected? && Run(Created(given), steps).log[j].Flushed?
    ensures var log := Run(Created(given), steps).log;
            Whole(log[i].id) !in log[j].buffer && Torn(log[i].id) !in log[j].buffer
  {
    var log := Run(Created(given), steps).log;
    ResolvedRowsWereSent(given, steps, j);
    RejectedIsIn(log[..j], i);
    SurvivorsAre(LastTaken(log[..j]), RejectedIds(log[..j]), log[i].id);
  }
}
