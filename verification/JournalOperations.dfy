/** What single operations of the journal do to its rows and flights: admission, the outcomes of a write, and the removal
    of receipts. */
module JournalOperations {
  import opened Common
  import opened JournalRows
  import opened TextOrders
  import opened JournalModel
  import opened JournalInvariant
  import TopicFilters

  // Admission.

  /** The schema of an envelope. */
  predicate WellFormed(e: Entry) {
    && 1 <= |Units(e.table)| <= 255 && (forall k :: 0 <= k < |e.table| ==> e.table[k] as int >= 32)
    && 1 <= |Units(e.id)| <= 200
    && |Units(e.topic)| <= 4096
  }

  predicate Extends(rule: Rule, topic: string) {
    rule.selector.TopicFilter? && TopicFilters.Matches(rule.selector.filter, topic)
  }

  /** The pair was observed before, or both budgets leave room for it. */
  ghost predicate Observable(db: Store, topic: string, target: string) {
    || (topic, target) in db.observations
    || (|db.observations| < 100000
        && forall k :: 0 <= k < |db.policy.rules| && Extends(db.policy.rules[k], topic) ==>
             |db.policy.rules[k].tables + {target}| <= 10000)
  }

  /** The part has room: beside the pending bytes of all tables, twice over, the pending rows of its own, and on disk. */
  ghost predicate HasRoom(limits: Limits, db: Store, s: Submission) {
    var bytes := Utf8Length(s.entry.payload) + Utf8Length(s.entry.topic) + 512;
    && bytes <= 16 * 1024 * 1024
    && 2 * (Sum(db.queue, AllBytes) + bytes) <= limits.maxBytes
    && Sum(db.queue, Pending(s.entry.table)) < limits.maxPendingPerTarget
    && s.diskFree >= limits.reserveBytes + bytes
  }

  /** The size of a text is that of its encoding. */
  lemma {:induction false} Utf8Means(s: string)
    ensures Utf8Length(s) == |Utf8(s)|
  {
    if s != "" {
      Utf8Means(s[1..]);
    }
  }

  lemma EmptyUnits(s: string)
    ensures |Units(s)| == 0 <==> s == ""
  {
  }

  lemma EnvelopeMeans(e: Entry)
    ensures ValidEnvelope(e) <==> WellFormed(e)
  {
    EmptyUnits(e.id);
    assert forall k :: 0 <= k < |e.table| ==> e.table[k] in e.table;
  }

  lemma ExtendedInSchema(policy: Policy, topic: string, target: string)
    requires InSchema(policy)
    ensures InSchema(policy.(rules := ExtendRules(policy.rules, topic, target))) <==>
              forall k :: 0 <= k < |policy.rules| && Extends(policy.rules[k], topic) ==>
                |policy.rules[k].tables + {target}| <= 10000
  {
    var more := ExtendRules(policy.rules, topic, target);
    forall k | 0 <= k < |policy.rules|
      ensures |more[k].tables| <= 10000 <==> (Extends(policy.rules[k], topic) ==> |policy.rules[k].tables + {target}| <= 10000)
    {
      assert more[k] == ExtendRule(policy.rules[k], topic, target);
    }
  }

  lemma ObserveExactly(db: Store, topic: string, target: string)
    requires InSchema(db.policy)
    ensures var next := Observe(db, topic, target);
            && (next.Some? <==> Observable(db, topic, target))
            && (next.Some? ==> next.value.queue == db.queue && next.value.totals == db.totals
                               && next.value.births == db.births && next.value.commands == db.commands
                               && next.value.observations == db.observations + {(topic, target)})
  {
    ExtendedInSchema(db.policy, topic, target);
    if (topic, target) in db.observations {
      assert db.observations + {(topic, target)} == db.observations;
    }
  }

  /** The row of an admitted part. */
  predicate IsNewRow(r: Row, e: Entry, births: nat) {
    && r.id == e.id && r.target == e.table && r.topic == e.topic && r.payload == e.payload && r.legacyKey == e.legacyKey
    && !r.confirmed && r.attempts == 0 && r.retryAt == 0 && !r.inWrite && r.birth == births
    && r.bytes == Utf8Length(e.payload) + Utf8Length(e.topic) + 512
  }

  /** A part is admitted exactly if it is well formed, its pair can be observed, and it is stored already or has room.
      Only one that is not stored adds a row, behind all others. */
  lemma AdmissionExactly(limits: Limits, db: Store, s: Submission)
    requires Keyed(db) && LedgerAgrees(db) && InSchema(db.policy)
    ensures var next, e := AdmitOne(limits, db, s), s.entry;
            && (next.Some? <==> WellFormed(e) && Observable(db, e.topic, e.table)
                                && (HasId(db.queue, e.id) || HasRoom(limits, db, s)))
            && (next.Some? && HasId(db.queue, e.id) ==> next.value.queue == db.queue)
            && (next.Some? && !HasId(db.queue, e.id) ==>
                  |next.value.queue| == |db.queue| + 1 && next.value.queue[..|db.queue|] == db.queue
                  && IsNewRow(next.value.queue[|db.queue|], e, db.births))
  {
    EnvelopeMeans(s.entry);
    ObserveExactly(db, s.entry.topic, s.entry.table);
    assert LedgerOf(db, s.entry.table);
  }

  /** A batch is admitted part by part, and as a whole or not at all. */
  lemma {:induction false} AdmitAllSnoc(limits: Limits, db: Store, batch: seq<Submission>, s: Submission)
    ensures AdmitAll(limits, db, []) == Some(db)
    ensures var before := AdmitAll(limits, db, batch);
            AdmitAll(limits, db, batch + [s]) == if before.None? then None else AdmitOne(limits, before.value, s)
    decreases |batch|
  {
    if batch == [] {
      assert [s][1..] == [] && [] + [s] == [s];
      var one := AdmitOne(limits, db, s);
      assert one.Some? ==> AdmitAll(limits, one.value, [s][1..]) == one;
    } else {
      assert (batch + [s])[1..] == batch[1..] + [s];
      var one := AdmitOne(limits, db, batch[0]);
      if one.Some? {
        AdmitAllSnoc(limits, one.value, batch[1..], s);
      }
    }
  }

  /** What a submission leaves: nothing of a closed journal; a fault and the store as it was when a part is refused or
      the transaction fails; else the store with the batch, and a fault only when changed rules could not be mirrored. */
  lemma SubmissionExactly(limits: Limits, s: State, batch: seq<Submission>, admitOk: bool, mirrored: bool)
    ensures var next, db := Next(limits, s, DoAdmit(batch, admitOk, mirrored)), AdmitAll(limits, s.db, batch);
            && (s.closed ==> next == s)
            && (!s.closed && (db.None? || !admitOk) ==> next == s.(storageError := true))
            && (!s.closed && db.Some? && admitOk ==>
                  var changed := db.value.policy != s.db.policy;
                  && next.db == db.value
                  && (next.storageError <==> changed && !mirrored)
                  && next.portable == (if changed && mirrored then Mirror(s.globalPaused, db.value.policy) else s.portable)
                  && next.flights == s.flights && next.log == s.log)
  {
  }

  // The outcomes of a write.

  /** The flight with the token is in this phase. */
  ghost predicate IsAt(s: State, i: nat, token: nat, phase: Phase) {
    i < |s.flights| && s.flights[i].token == token && s.flights[i].phase == phase
  }

  lemma CurrentIs(s: State, i: nat, token: nat, phase: Phase)
    requires Inv(s) && IsAt(s, i, token, phase)
    ensures Current(s, token, phase) == Some(i)
  {
    var at := FlightAt(s.flights, token);
    if at.None? {
      assert false;
    }
  }

  /** A section whose write is not in the phase that it expects does nothing. */
  lemma StaleSections(limits: Limits, s: State, token: nat, at: int, ok: bool)
    ensures (forall i :: !IsAt(s, i, token, Installed)) ==> Next(limits, s, DoBegin(token, ok)) == s
    ensures (forall i :: !IsAt(s, i, token, Writing)) ==>
              Next(limits, s, DoSucceed(token, ok)) == s && Next(limits, s, DoFail(token, at, ok)) == s
    ensures (forall i :: !IsAt(s, i, token, Settled)) ==> Next(limits, s, DoFinish(token)) == s
  {
    forall phase: Phase ensures Current(s, token, phase).None? || IsAt(s, Current(s, token, phase).value, token, phase) {
    }
  }

  /** One row of the store differs. */
  ghost predicate Rewritten(s: State, next: State, was: Row, row: Row) {
    && |next.db.queue| == |s.db.queue| && was in s.db.queue
    && forall k :: 0 <= k < |s.db.queue| ==> next.db.queue[k] == if s.db.queue[k] == was then row else s.db.queue[k]
  }

  lemma RewrittenAt(s: State, next: State, k: nat, row: Row)
    requires WellKeyed(s.db.queue) && k < |s.db.queue| && next.db.queue == s.db.queue[k := row]
    ensures Rewritten(s, next, s.db.queue[k], row)
  {
    forall j | 0 <= j < |s.db.queue| ensures s.db.queue[j] == s.db.queue[k] ==> j == k {
      assert j != k ==> s.db.queue[j].key != s.db.queue[k].key;
    }
  }

  /** A write that begins marks its row and hands it over; if the row cannot be marked the write is over, with a fault. */
  lemma BeginExactly(s: State, i: nat, token: nat, markOk: bool)
    requires Inv(s) && IsAt(s, i, token, Installed)
    ensures var next, row := Begin(s, token, markOk), s.flights[i].row;
            if markOk then
              && Rewritten(s, next, row, row.(inWrite := true))
              && next.flights == s.flights[i := Flight(token, row, Writing)]
              && next.log == s.log + [Handed(token, row.birth, row.id, row.target)]
              && next.storageError == s.storageError
            else
              next == s.(storageError := true, flights := s.flights[i := Flight(token, row, Settled)])
  {
    CurrentIs(s, i, token, Installed);
    var k := StoredAt(s, i);
    RewrittenAt(s, Begin(s, token, markOk), k, if markOk then s.db.queue[k].(inWrite := true) else s.db.queue[k]);
  }

  /** A write that succeeded confirms its row, which gives up its payload and its bytes; if that cannot be recorded the
      row stays pending, with a fault. */
  lemma SucceedExactly(s: State, i: nat, token: nat, recordOk: bool)
    requires Inv(s) && IsAt(s, i, token, Writing)
    ensures var next, row := Succeed(s, token, recordOk), s.flights[i].row;
            && next.flights == s.flights[i := Flight(token, row, Settled)]
            && next.log == s.log + [Delivered(row.birth, row.id, recordOk)]
            && (recordOk ==> Rewritten(s, next, row.(inWrite := true), row.(confirmed := true, payload := "", bytes := 0,
                                                                           inWrite := false))
                             && next.storageError == s.storageError)
            && (!recordOk ==> next.db == s.db && next.storageError)
  {
    CurrentIs(s, i, token, Writing);
    var k := StoredAt(s, i);
    RewrittenAt(s, Succeed(s, token, true), k,
      s.db.queue[k].(confirmed := true, payload := "", bytes := 0, inWrite := false));
  }

  /** A write that failed counts one more attempt and delays its row; if that cannot be stored the row keeps its mark,
      with a fault. */
  lemma FailExactly(limits: Limits, s: State, i: nat, token: nat, now: int, delayOk: bool)
    requires Inv(s) && IsAt(s, i, token, Writing)
    ensures var next, row := Fail(limits, s, token, now, delayOk), s.flights[i].row;
            && next.flights == s.flights[i := Flight(token, row, Settled)] && next.log == s.log
            && (delayOk ==>
                  && Rewritten(s, next, row.(inWrite := true),
                               row.(attempts := row.attempts + 1, inWrite := false,
                                    retryAt := now + RetryDelay(limits, row.attempts)))
                  && next.storageError == s.storageError)
            && (!delayOk ==> next.db == s.db && next.storageError)
  {
    CurrentIs(s, i, token, Writing);
    var k := StoredAt(s, i);
    RewrittenAt(s, Fail(limits, s, token, now, true), k,
      s.db.queue[k].(attempts := s.db.queue[k].attempts + 1, inWrite := false,
                     retryAt := now + RetryDelay(limits, s.flights[i].row.attempts)));
  }

  lemma ConfirmedFailures(db: Store, row: Row, target: string)
    requires Ordered(db.totals)
    ensures Lookup(ConfirmRow(db, row).totals, target).failures == Lookup(db.totals, target).failures
  {
    var i := Find(db.queue, row.key);
    if i.Some? {
      var total := Lookup(db.totals, row.target);
      PutLookup(db.totals, total.(pending := total.pending - 1, bytes := total.bytes - db.queue[i.value].bytes,
                                  retrying := total.retrying - if row.attempts > 0 then 1 else 0), target);
    }
  }

  lemma DelayedFailures(limits: Limits, db: Store, row: Row, now: int, target: string)
    requires Ordered(db.totals) && Find(db.queue, row.key).Some?
    ensures Lookup(DelayRow(limits, db, row, now).totals, target).failures
         == Lookup(db.totals, target).failures + if target == row.target then 1 else 0
  {
    var total := Lookup(db.totals, row.target);
    PutLookup(db.totals, total.(failures := total.failures + 1,
                                retrying := total.retrying + if row.attempts == 0 then 1 else 0), target);
  }

  /** The failures of a table are counted one by one, and by nothing else. */
  lemma FailuresExactly(limits: Limits, s: State, i: nat, token: nat, now: int, ok: bool, target: string)
    requires Inv(s) && IsAt(s, i, token, Writing)
    ensures Lookup(Fail(limits, s, token, now, ok).db.totals, target).failures
         == Lookup(s.db.totals, target).failures + if ok && target == s.flights[i].row.target then 1 else 0
    ensures Lookup(Succeed(s, token, ok).db.totals, target).failures == Lookup(s.db.totals, target).failures
  {
    CurrentIs(s, i, token, Writing);
    var k := StoredAt(s, i);
    DelayedFailures(limits, s.db, s.flights[i].row, now, target);
    ConfirmedFailures(s.db, s.flights[i].row, target);
  }

  /** The delay starts at the configured time, doubles with each of the first five attempts, and is at most 30 s. */
  lemma DelayDoubles(limits: Limits, attempts: nat)
    ensures RetryDelay(limits, 0) == Min(30000, limits.retryMs)
    ensures attempts < 5 ==> RetryDelay(limits, attempts + 1) == Min(30000, 2 * RetryDelay(limits, attempts))
    ensures attempts >= 5 ==> RetryDelay(limits, attempts) == RetryDelay(limits, 5)
  {
    var p := Power2(attempts);
    assert Power2(attempts + 1) == 2 * p;
    assert limits.retryMs * (2 * p) == 2 * (limits.retryMs * p);
    assert Power2(0) == 1;
  }

  /** A settled write returns its place and its bytes. */
  lemma FinishExactly(s: State, i: nat, token: nat)
    requires Inv(s) && IsAt(s, i, token, Settled)
    ensures Finish(s, token)
         == s.(flights := Without(s.flights, i), activeBytes := s.activeBytes - s.flights[i].row.bytes)
  {
    CurrentIs(s, i, token, Settled);
  }

  // Receipts.

  ghost predicate Dropped(s: State, next: State, gone: set<Row>) {
    && next == s.(db := s.db.(queue := next.db.queue)) && WellKeyed(next.db.queue)
    && forall r :: r in next.db.queue <==> r in s.db.queue && r !in gone
  }

  lemma DropMeans(s: State, dropped: set<nat>, gone: set<Row>)
    requires WellKeyed(s.db.queue) && forall r :: r in s.db.queue ==> (r.key in dropped <==> r in gone)
    ensures Dropped(s, Drop(s, dropped), gone)
  {
    KeepMembers(s.db.queue, dropped);
    KeepWellKeyed(s.db.queue, dropped);
  }

  lemma KeysOf(q: seq<Row>, gone: set<Row>, dropped: set<nat>)
    requires WellKeyed(q) && (forall g :: g in gone ==> g in q) && dropped == set g | g in gone :: g.key
    ensures forall r :: r in q ==> (r.key in dropped <==> r in gone)
  {
    forall r | r in q ensures r.key in dropped <==> r in gone {
      if r.key in dropped {
        var g :| g in gone && g.key == r.key;
        SameKeySameRow(q, g, r);
      }
    }
  }

  ghost function ReceiptsOf(q: seq<Row>, ids: seq<string>): set<Row> {
    set r | r in q && r.confirmed && r.legacyKey == None && r.id in ids
  }

  ghost function LegacyReceipts(q: seq<Row>, key: string): set<Row> {
    set r | r in q && r.confirmed && r.legacyKey == Some(key)
  }

  lemma ReceiptKeys(q: seq<Row>, ids: seq<string>, key: string)
    requires WellKeyed(q)
    ensures forall r :: r in q ==> (r.key in Acknowledged(q, ids) <==> r in ReceiptsOf(q, ids))
    ensures forall r :: r in q ==> (r.key in AcknowledgedLegacy(q, key) <==> r in LegacyReceipts(q, key))
  {
    KeysOf(q, ReceiptsOf(q, ids), Acknowledged(q, ids));
    KeysOf(q, LegacyReceipts(q, key), AcknowledgedLegacy(q, key));
  }

  /** Acknowledging ids removes exactly their confirmed rows without a legacy key. */
  lemma AcknowledgeExactly(limits: Limits, s: State, ids: seq<string>)
    requires Inv(s)
    ensures Dropped(s, Next(limits, s, DoAcknowledge(ids)), ReceiptsOf(s.db.queue, ids))
  {
    ReceiptKeys(s.db.queue, ids, "");
    DropMeans(s, Acknowledged(s.db.queue, ids), ReceiptsOf(s.db.queue, ids));
  }

  /** Acknowledging a legacy key removes exactly the confirmed rows under it. */
  lemma AcknowledgeLegacyExactly(limits: Limits, s: State, key: string)
    requires Inv(s)
    ensures Dropped(s, Next(limits, s, DoAcknowledgeLegacy(key)), LegacyReceipts(s.db.queue, key))
  {
    ReceiptKeys(s.db.queue, [], key);
    DropMeans(s, AcknowledgedLegacy(s.db.queue, key), LegacyReceipts(s.db.queue, key));
  }

  ghost function Newer(q: seq<Row>, key: nat): set<Row> {
    set x | x in q && x.confirmed && x.legacyKey == None && x.key > key
  }

  lemma NewerHead(head: Row, tail: seq<Row>, key: nat)
    requires forall r :: r in tail ==> head.key < r.key
    ensures |Newer([head] + tail, key)| == Weight(NewerReceipts(key), head) + |Newer(tail, key)|
  {
    assert head !in Newer(tail, key);
    assert Newer([head] + tail, key) == Newer(tail, key) + if IsReceipt(head) && head.key > key then {head} else {};
  }

  lemma {:induction false} NewerCount(q: seq<Row>, key: nat)
    requires WellKeyed(q)
    ensures Sum(q, NewerReceipts(key)) == |Newer(q, key)|
  {
    if q != [] {
      var head, tail := q[0], q[1..];
      TailWellKeyed(q);
      NewerCount(tail, key);
      NewerHead(head, tail, key);
      assert [head] + tail == q;
    }
  }

  /** Those that 10000 newer ones follow. */
  ghost function Outdated(q: seq<Row>): set<Row> {
    set r | r in q && r.confirmed && r.legacyKey == None && |Newer(q, r.key)| >= 10000
  }

  lemma OutdatedKeys(q: seq<Row>)
    requires WellKeyed(q)
    ensures forall r :: r in q ==> (r.key in Expired(q) <==> r in Outdated(q))
  {
    forall r | r in q ensures Sum(q, NewerReceipts(r.key)) == |Newer(q, r.key)| {
      NewerCount(q, r.key);
    }
    KeysOf(q, Outdated(q), Expired(q));
  }

  /** Trimming removes exactly the receipts without a legacy key that 10000 newer ones of them follow. */
  lemma TrimExactly(limits: Limits, s: State)
    requires Inv(s)
    ensures Dropped(s, Next(limits, s, DoTrim), Outdated(s.db.queue))
  {
    OutdatedKeys(s.db.queue);
    DropMeans(s, Expired(s.db.queue), Outdated(s.db.queue));
  }

  // Handover and recovery.

  /** A policy is imported exactly into an open journal without faults, pauses, writes under way and pending rows, if it
      has no rules and the journal has the same one or none of its own. */
  lemma ImportExactly(limits: Limits, s: State, policy: Policy, saveOk: bool, copyOk: bool)
    ensures var next := Next(limits, s, DoImport(policy, saveOk, copyOk));
            var allowed := !s.closed && !s.storageError && !s.globalPaused && s.flights == []
                           && s.db.policy.rules == [] && policy.rules == []
                           && (s.db.policy == policy || s.db.policy.revision == 0)
                           && forall r :: r in s.db.queue ==> r.confirmed;
            && (!allowed ==> next == s)
            && (allowed && !saveOk ==> next == s.(storageError := true))
            && (allowed && saveOk ==>
                  next == s.(db := s.db.(policy := policy), portable := if copyOk then None else s.portable,
                             storageError := !copyOk))
  {
    if i :| 0 <= i < |s.db.queue| && !s.db.queue[i].confirmed {
      assert s.db.queue[i] in s.db.queue;
    }
  }

  /** A new journal takes over the policy that was carried to it, with its file; it is open and holds nothing. */
  lemma CreatedExactly(portable: Option<Policy>)
    ensures var s := Created(portable);
            && s.db.queue == [] && s.db.totals == [] && s.db.observations == {} && s.db.commands == [] && s.db.births == 0
            && s.db.policy == (if portable.Some? then portable.value else Policy(0, []))
            && s.portable == (if s.db.policy.rules == [] then None else Some(s.db.policy))
            && s.flights == [] && s.activeBytes == 0 && s.log == [] && s.cursor == ""
            && !s.storageError && !s.globalPaused && !s.closed && !s.policyBusy
  {
  }

  /** The steps that set one thing each: the cursor, the end of a draining command, a fault, the close; and the policy file
      that a failed mirroring had put in place. */
  lemma FlagsExactly(limits: Limits, s: State, name: string, flag: bool)
    ensures Next(limits, s, DoMoveCursor(name)) == s.(cursor := name)
    ensures Next(limits, s, DoDrained) == s.(policyBusy := false)
    ensures Next(limits, s, DoFault) == s.(storageError := true) && Next(limits, s, DoClose) == s.(closed := true)
    ensures Next(limits, s, DoFileArrived(flag))
         == if s.closed || !s.storageError then s
            else s.(portable := if !flag && s.db.policy.rules == [] then None else Some(s.db.policy))
  {
  }

  /** The global flag is taken over with its file, which is absent exactly while nothing is paused; it stays, with a fault,
      if the file cannot be written. */
  lemma GlobalPauseExactly(limits: Limits, s: State, paused: bool, fileOk: bool)
    ensures var next := Next(limits, s, DoSetGlobalPaused(paused, fileOk));
            && (s.closed ==> next == s)
            && (!s.closed && !fileOk ==> next == s.(storageError := true))
            && (!s.closed && fileOk ==>
                  next == s.(globalPaused := paused,
                             portable := if !paused && s.db.policy.rules == [] then None else Some(s.db.policy)))
  {
  }

  /** A restart counts one more attempt for each write that it interrupted, and nothing else about a row changes; no
      write is under way. */
  lemma ReopenExactly(limits: Limits, s: State, mirrorOk: bool)
    ensures var next := Next(limits, s, DoReopen(mirrorOk));
            && |next.db.queue| == |s.db.queue|
            && (forall k :: 0 <= k < |s.db.queue| ==>
                  var r := s.db.queue[k];
                  next.db.queue[k] == if r.inWrite && !r.confirmed then r.(attempts := r.attempts + 1, inWrite := false) else r)
            && next.db.policy == s.db.policy && next.db.commands == s.db.commands
            && next.db.observations == s.db.observations && next.db.births == s.db.births
            && next.flights == [] && next.activeBytes == 0 && next.log == s.log
            && !next.storageError && !next.globalPaused && !next.policyBusy
            && (next.closed <==> !mirrorOk || Refused(s))
            && next.portable == (if next.closed then s.portable
                                 else if s.db.policy.rules == [] then None else Some(s.db.policy))
  {
  }
}
