/** What the steps of the journal keep of its parts: place, identity, and content until the delivery is recorded. */
module JournalParts {
  import opened JournalRows
  import opened JournalModel
  import opened JournalInvariant

  /** The row is the same part: with its payload while it is pending, and pending only if it was. */
  predicate Continues(was: Row, r: Row) {
    && r.id == was.id && r.target == was.target && r.topic == was.topic && r.legacyKey == was.legacyKey
    && (!r.confirmed ==> !was.confirmed && r.payload == was.payload)
  }

  ghost predicate SameParts(q: seq<Row>, next: seq<Row>) {
    |next| == |q| && forall i :: 0 <= i < |q| ==> Continues(q[i], next[i])
  }

  lemma MarkParts(q: seq<Row>, key: nat)
    ensures SameParts(q, MarkWriting(q, key))
  {
  }

  lemma ConfirmParts(db: Store, row: Row)
    ensures SameParts(db.queue, ConfirmRow(db, row).queue) && ConfirmRow(db, row).observations == db.observations
  {
  }

  lemma DelayParts(limits: Limits, db: Store, row: Row, now: int)
    ensures var next := DelayRow(limits, db, row, now);
            SameParts(db.queue, next.queue) && next.observations == db.observations
  {
  }

  lemma BeginParts(s: State, token: nat, sqliteOk: bool)
    ensures var next := Begin(s, token, sqliteOk).db;
            SameParts(s.db.queue, next.queue) && next.observations == s.db.observations
  {
    var i := Current(s, token, Installed);
    if i.Some? {
      MarkParts(s.db.queue, s.flights[i.value].row.key);
    }
  }

  lemma SucceedParts(s: State, token: nat, sqliteOk: bool)
    ensures var next := Succeed(s, token, sqliteOk).db;
            SameParts(s.db.queue, next.queue) && next.observations == s.db.observations
  {
    var i := Current(s, token, Writing);
    if i.Some? {
      ConfirmParts(s.db, s.flights[i.value].row);
    }
  }

  lemma FailParts(limits: Limits, s: State, token: nat, now: int, sqliteOk: bool)
    ensures var next := Fail(limits, s, token, now, sqliteOk).db;
            SameParts(s.db.queue, next.queue) && next.observations == s.db.observations
  {
    var i := Current(s, token, Writing);
    if i.Some? {
      DelayParts(limits, s.db, s.flights[i.value].row, now);
    }
  }

  lemma WriteParts(limits: Limits, s: State, step: Step)
    requires WorksFlight(step)
    ensures var next := Next(limits, s, step).db;
            SameParts(s.db.queue, next.queue) && next.observations == s.db.observations
  {
    match step
    case DoTryHead(target, room, now, _) => StartRowsDb(limits, s, Window(s.db.queue, target), now, room);
    case DoBegin(token, markOk) => BeginParts(s, token, markOk);
    case DoSucceed(token, recordOk) => SucceedParts(s, token, recordOk);
    case DoFail(token, at, delayOk) => FailParts(limits, s, token, at, delayOk);
  }

  lemma RestParts(limits: Limits, s: State, step: Step)
    requires !step.DoAdmit? && !DropsReceipts(step) && !WorksFlight(step)
    ensures var next := Next(limits, s, step).db;
            SameParts(s.db.queue, next.queue) && next.observations == s.db.observations
  {
    if step.DoCommand? {
      CommandFrame(s, step.request, step.actor, step.env);
    }
  }
}
