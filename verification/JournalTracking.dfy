/** One journal id with a legacy key, followed through every step: how often its delivery is recorded. */
module JournalTracking {
  import opened Common
  import opened JournalRows
  import opened JournalModel
  import opened JournalInvariant
  import opened JournalPause
  import opened JournalReceipts

  /** Recorded deliveries under this id. */
  function Deliveries(log: seq<Event>, id: string): nat {
    if log == [] then 0
    else (if log[0].Delivered? && log[0].recorded && log[0].id == id then 1 else 0) + Deliveries(log[1..], id)
  }

  lemma {:induction false} DeliveriesAppend(log: seq<Event>, e: Event, id: string)
    ensures Deliveries(log + [e], id)
         == Deliveries(log, id) + if e.Delivered? && e.recorded && e.id == id then 1 else 0
  {
    if log == [] {
      assert log + [e] == [e] && [e][1..] == [];
    } else {
      assert (log + [e])[1..] == log[1..] + [e];
      DeliveriesAppend(log[1..], e, id);
    }
  }

  ghost predicate RowTracked(r: Row, key: string, count: nat) {
    && r.legacyKey == Some(key)
    && (r.confirmed ==> count == 1)
    && (!r.confirmed ==> count == 0)
  }

  /** At most one recorded delivery. `done` says that the submitter will not come back: until then a recorded
      delivery leaves its receipt, so that a repeated submission finds it. */
  ghost predicate Tracked(s: State, id: string, key: string, done: bool) {
    var count := Deliveries(s.log, id);
    && count <= 1
    && (forall r :: r in s.db.queue && r.id == id ==> RowTracked(r, key, count))
    && (done ==> count == 1)
    && (!done && count == 1 ==> HasReceipt(s.db.queue, id, key))
  }

  /** A step of others: it neither submits the id nor acknowledges its key while the submitter may come back. */
  predicate Unrelated(step: Step, id: string, key: string, done: bool) {
    match step
    case DoAdmit(batch, _, _) => forall i :: 0 <= i < |batch| ==> batch[i].entry.id != id
    case DoAcknowledgeLegacy(k) => done || k != key
    case _ => true
  }

  /** Every row with the id comes from the old queue or is new, pending and in the batch. */
  lemma {:induction false} AdmitAllRows(limits: Limits, db: Store, batch: seq<Submission>, id: string)
    ensures var next := AdmitAll(limits, db, batch);
            next.Some? ==> forall r :: r in next.value.queue && r.id == id ==>
              r in db.queue
              || (!HasId(db.queue, id) && !r.confirmed
                  && exists i :: 0 <= i < |batch| && batch[i].entry.id == id && r.legacyKey == batch[i].entry.legacyKey)
    decreases |batch|
  {
    if batch != [] {
      var one := AdmitOne(limits, db, batch[0]);
      if one.Some? {
        AdmitAllRows(limits, one.value, batch[1..], id);
        AdmitOneRows(limits, db, batch[0], id);
        var next := AdmitAll(limits, one.value, batch[1..]);
        if next.Some? {
          forall r | r in next.value.queue && r.id == id && r !in db.queue
            ensures !HasId(db.queue, id) && !r.confirmed
              && exists i :: 0 <= i < |batch| && batch[i].entry.id == id && r.legacyKey == batch[i].entry.legacyKey
          {
            if r in one.value.queue {
              assert batch[0].entry.id == id;
            } else {
              var i :| 0 <= i < |batch[1..]| && batch[1..][i].entry.id == id
                       && r.legacyKey == batch[1..][i].entry.legacyKey;
              assert batch[i + 1].entry.id == id;
            }
          }
        }
      }
    }
  }

  lemma AdmitOneRows(limits: Limits, db: Store, s: Submission, id: string)
    ensures var next := AdmitOne(limits, db, s);
            next.Some? ==>
              && (forall r :: r in next.value.queue && r.id == id ==>
                    r in db.queue
                    || (!HasId(db.queue, id) && !r.confirmed && s.entry.id == id && r.legacyKey == s.entry.legacyKey))
              && (HasId(db.queue, id) ==> HasId(next.value.queue, id))
  {
    var seen := Observe(db, s.entry.topic, s.entry.table);
    if ValidEnvelope(s.entry) && seen.Some? && !HasId(seen.value.queue, s.entry.id)
       && !Exhausted(limits, seen.value, s) && HasId(db.queue, id) {
      var k :| 0 <= k < |db.queue| && db.queue[k].id == id;
      assert Insert(seen.value, s.entry).queue[k].id == id;
    }
  }

  lemma AdmitTracked(limits: Limits, s: State, batch: seq<Submission>, ok: bool, mirrorOk: bool,
                     id: string, key: string, done: bool)
    requires Tracked(s, id, key, done)
    requires forall i :: 0 <= i < |batch| && batch[i].entry.id == id ==>
               !done && batch[i].entry.legacyKey == Some(key)
    ensures Tracked(Admit(limits, s, batch, ok, mirrorOk), id, key, done)
  {
    var next := AdmitAll(limits, s.db, batch);
    if next.Some? {
      AdmitAllRows(limits, s.db, batch, id);
      AdmitAllExtends(limits, s.db, batch);
      var count := Deliveries(s.log, id);
      if !done && count == 1 {
        ExtensionKeepsReceipt(s.db.queue, next.value.queue, id, key);
        ReceiptIsId(s.db.queue, id, key);
      }
    }
  }

  lemma ReceiptIsId(q: seq<Row>, id: string, key: string)
    requires HasReceipt(q, id, key)
    ensures HasId(q, id)
  {
    var r :| r in q && r.confirmed && r.id == id && r.legacyKey == Some(key);
    var k :| 0 <= k < |q| && q[k] == r;
  }

  lemma UpdateTracked(s: State, next: State, k: nat, row: Row, id: string, key: string, done: bool)
    requires Inv(s) && Tracked(s, id, key, done)
    requires k < |s.db.queue| && !s.db.queue[k].confirmed && next.db.queue == s.db.queue[k := row]
    requires row.id == s.db.queue[k].id && row.legacyKey == s.db.queue[k].legacyKey
    requires Deliveries(next.log, id)
          == Deliveries(s.log, id) + if row.confirmed && row.id == id then 1 else 0
    ensures Tracked(next, id, key, done)
  {
    var q := s.db.queue;
    assert q[k] in q;
    if q[k].id == id {
      assert RowTracked(q[k], key, Deliveries(s.log, id));
      assert next.db.queue[k] == row && row in next.db.queue;
    }
    forall r | r in next.db.queue && r.id == id ensures RowTracked(r, key, Deliveries(next.log, id)) {
      var n :| 0 <= n < |q| && next.db.queue[n] == r;
      if n != k {
        assert q[n] in q && q[n].id != q[k].id;
      }
    }
    if !done && Deliveries(s.log, id) == 1 {
      UpdateKeepsReceipt(q, k, row, id, key);
    }
  }

  lemma BeginTracked(s: State, token: nat, ok: bool, id: string, key: string, done: bool)
    requires Inv(s) && Tracked(s, id, key, done)
    ensures Tracked(Begin(s, token, ok), id, key, done)
  {
    var c := Current(s, token, Installed);
    if c.Some? && ok {
      var k := StoredAt(s, c.value);
      var next := Begin(s, token, ok);
      DeliveriesAppend(s.log, next.log[|s.log|], id);
      UpdateTracked(s, next, k, s.db.queue[k].(inWrite := true), id, key, done);
    }
  }

  lemma SucceedTracked(s: State, token: nat, ok: bool, id: string, key: string, done: bool)
    requires Inv(s) && Tracked(s, id, key, done)
    ensures Tracked(Succeed(s, token, ok), id, key, done)
  {
    var c := Current(s, token, Writing);
    if c.Some? {
      var k := StoredAt(s, c.value);
      var next := Succeed(s, token, ok);
      DeliveriesAppend(s.log, next.log[|s.log|], id);
      if ok {
        UpdateTracked(s, next, k, s.db.queue[k].(confirmed := true, payload := "", bytes := 0, inWrite := false),
                      id, key, done);
      }
    }
  }

  lemma FailTracked(limits: Limits, s: State, token: nat, now: int, ok: bool, id: string, key: string, done: bool)
    requires Inv(s) && Tracked(s, id, key, done)
    ensures Tracked(Fail(limits, s, token, now, ok), id, key, done)
  {
    var c := Current(s, token, Writing);
    if c.Some? && ok {
      var k := StoredAt(s, c.value);
      UpdateTracked(s, Fail(limits, s, token, now, ok), k,
        s.db.queue[k].(attempts := s.db.queue[k].attempts + 1, inWrite := false,
                       retryAt := now + RetryDelay(limits, s.flights[c.value].row.attempts)), id, key, done);
    }
  }

  lemma DropTracked(s: State, dropped: set<nat>, id: string, key: string, done: bool)
    requires Tracked(s, id, key, done)
    requires done || forall r :: r in s.db.queue && r.confirmed && r.legacyKey == Some(key) ==> r.key !in dropped
    ensures Tracked(Drop(s, dropped), id, key, done)
  {
    KeepMembers(s.db.queue, dropped);
    if !done && Deliveries(s.log, id) == 1 {
      KeepsReceipt(s.db.queue, dropped, id, key);
    }
  }

  lemma RecoverTracked(s: State, mirrorOk: bool, id: string, key: string, done: bool)
    requires Tracked(s, id, key, done)
    ensures Tracked(Reopen(s, mirrorOk), id, key, done)
  {
    var q := RecoverRows(s.db.queue);
    forall r | r in q && r.id == id ensures RowTracked(r, key, Deliveries(s.log, id)) {
      var n :| 0 <= n < |q| && q[n] == r;
      assert s.db.queue[n] in s.db.queue;
    }
    if !done && Deliveries(s.log, id) == 1 {
      RecoverKeepsReceipt(s.db.queue, id, key);
    }
  }

  lemma TryHeadTracked(limits: Limits, s: State, step: Step, id: string, key: string, done: bool)
    requires Tracked(s, id, key, done) && step.DoTryHead?
    ensures Tracked(Next(limits, s, step), id, key, done)
  {
    StartRowsFlights(limits, s, Window(s.db.queue, step.target), step.now, step.room);
    StartRowsDb(limits, s, Window(s.db.queue, step.target), step.now, step.room);
  }

  lemma DropStepTracked(limits: Limits, s: State, step: Step, id: string, key: string, done: bool)
    requires Inv(s) && Tracked(s, id, key, done) && Unrelated(step, id, key, done) && DropsReceipts(step)
    ensures Tracked(Next(limits, s, step), id, key, done)
  {
    match step
    case DoAcknowledge(ids) =>
      NotDropped(s.db.queue, ids, key + "x", key);
      DropTracked(s, Acknowledged(s.db.queue, ids), id, key, done);
    case DoAcknowledgeLegacy(other) =>
      if other != key {
        NotDropped(s.db.queue, [], other, key);
      }
      DropTracked(s, AcknowledgedLegacy(s.db.queue, other), id, key, done);
    case DoTrim =>
      NotDropped(s.db.queue, [], key + "x", key);
      DropTracked(s, Expired(s.db.queue), id, key, done);
  }

  /** Every step that others take keeps at most one recorded delivery and, while it is needed, its receipt. */
  lemma NextTracked(limits: Limits, s: State, step: Step, id: string, key: string, done: bool)
    requires Inv(s) && Tracked(s, id, key, done) && Unrelated(step, id, key, done)
    ensures Tracked(Next(limits, s, step), id, key, done)
  {
    if DropsReceipts(step) {
      DropStepTracked(limits, s, step, id, key, done);
    } else {
      match step
      case DoAdmit(batch, ok, mirrorOk) => AdmitTracked(limits, s, batch, ok, mirrorOk, id, key, done);
      case DoTryHead(_, _, _, _) => TryHeadTracked(limits, s, step, id, key, done);
      case DoBegin(token, ok) => BeginTracked(s, token, ok, id, key, done);
      case DoSucceed(token, ok) => SucceedTracked(s, token, ok, id, key, done);
      case DoFail(token, at, ok) => FailTracked(limits, s, token, at, ok, id, key, done);
      case DoReopen(mirrorOk) => RecoverTracked(s, mirrorOk, id, key, done);
      case _ => RestFrame(limits, s, step);
    }
  }

  /** A confirmed row under the id means exactly one recorded delivery. */
  lemma ConfirmedOnce(s: State, id: string, key: string, done: bool)
    requires Tracked(s, id, key, done) && IsConfirmed(s.db.queue, id)
    ensures Deliveries(s.log, id) == 1
  {
    var n :| 0 <= n < |s.db.queue| && s.db.queue[n].id == id && s.db.queue[n].confirmed;
    assert s.db.queue[n] in s.db.queue;
  }
}
