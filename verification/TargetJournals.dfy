/** The journal as the program has it: one object whose methods are the code sections between awaits. Each method is
    proved against the state machine of JournalModel and keeps its invariants. */
module TargetJournals {
  import opened Common
  import opened JournalRows
  import M = JournalModel
  import opened JournalInvariant
  import opened JournalReceipts
  import opened ReplayFairness

  // Specifications of the methods that make several steps.

  /** tryHead for one target after the other. */
  function Heads(limits: M.Limits, s: M.State, targets: seq<string>, now: int, canReplay: bool): M.State
    decreases |targets|
  {
    if targets == [] then s
    else Heads(limits, M.TryHead(limits, s, targets[0], 1, now, canReplay), targets[1..], now, canReplay)
  }

  function DistinctTables(batch: seq<M.Submission>, seen: seq<string>): seq<string> {
    if batch == [] then seen
    else if batch[0].entry.table in seen then DistinctTables(batch[1..], seen)
    else DistinctTables(batch[1..], seen + [batch[0].entry.table])
  }

  ghost predicate Once(all: seq<string>) {
    forall i, j :: 0 <= i < j < |all| ==> all[i] != all[j]
  }

  ghost predicate Names(batch: seq<M.Submission>, table: string) {
    exists i :: 0 <= i < |batch| && batch[i].entry.table == table
  }

  lemma NamesFirst(batch: seq<M.Submission>, table: string)
    requires batch != []
    ensures Names(batch, table) <==> batch[0].entry.table == table || Names(batch[1..], table)
  {
    if i :| 0 <= i < |batch| && batch[i].entry.table == table && i > 0 {
      assert batch[1..][i - 1].entry.table == table;
    }
    if i :| 0 <= i < |batch[1..]| && batch[1..][i].entry.table == table {
      assert batch[i + 1].entry.table == table;
    }
  }

  /** The tables of the batch, each once in the order of their first appearance, and those seen before in front. */
  lemma {:induction false} DistinctTablesMeans(batch: seq<M.Submission>, seen: seq<string>)
    requires Once(seen)
    ensures var tables := DistinctTables(batch, seen);
            Once(tables) && seen <= tables && forall t :: t in tables <==> t in seen || Names(batch, t)
    ensures forall n :: 0 <= n <= |batch| ==> DistinctTables(batch[..n], seen) <= DistinctTables(batch, seen)
    decreases |batch|
  {
    if batch != [] {
      var table := batch[0].entry.table;
      DistinctTablesMeans(batch[1..], if table in seen then seen else seen + [table]);
      forall n | 0 < n <= |batch| ensures DistinctTables(batch[..n], seen) <= DistinctTables(batch, seen) {
        assert batch[..n][1..] == batch[1..][..n - 1];
      }
      forall t: string ensures Names(batch, t) <==> table == t || Names(batch[1..], t) {
        NamesFirst(batch, t);
      }
    }
  }

  predicate Accepted(limits: M.Limits, s: M.State, batch: seq<M.Submission>, sqliteOk: bool, mirrorOk: bool) {
    && !s.closed && sqliteOk
    && var next := M.AdmitAll(limits, s.db, batch);
       next.Some? && (next.value.policy == s.db.policy || mirrorOk)
  }

  /** The visits of a replay pass: the cursor moves to each target in turn. */
  function Visits(limits: M.Limits, s: M.State, targets: seq<string>, share: nat, now: int, canReplay: bool): M.State
    decreases |targets|
  {
    if targets == [] then s
    else
      var moved := s.(cursor := targets[0]);
      Visits(limits, M.TryHead(limits, moved, targets[0], share, now, canReplay), targets[1..], share, now, canReplay)
  }

  lemma {:induction false} VisitsCursor(
    limits: M.Limits, s: M.State, targets: seq<string>, share: nat, now: int, canReplay: bool)
    ensures Visits(limits, s, targets, share, now, canReplay).cursor
         == if targets == [] then s.cursor else targets[|targets| - 1]
    decreases |targets|
  {
    if targets != [] {
      var moved := s.(cursor := targets[0]);
      StartRowsDb(limits, moved, M.Window(moved.db.queue, targets[0]), now, share);
      VisitsCursor(
        limits, M.TryHead(limits, moved, targets[0], share, now, canReplay), targets[1..], share, now, canReplay);
    }
  }

  lemma {:induction false} HeadsAreARun(
    limits: M.Limits, s: M.State, targets: seq<string>, now: int, canReplay: bool)
    returns (steps: seq<M.Step>)
    ensures Heads(limits, s, targets, now, canReplay) == M.Run(limits, s, steps)
    ensures |steps| == |targets|
    ensures forall i :: 0 <= i < |steps| ==> steps[i] == M.DoTryHead(targets[i], 1, now, canReplay)
    decreases |targets|
  {
    if targets == [] {
      steps := [];
    } else {
      var rest := HeadsAreARun(limits, M.TryHead(limits, s, targets[0], 1, now, canReplay), targets[1..], now, canReplay);
      steps := [M.DoTryHead(targets[0], 1, now, canReplay)] + rest;
      assert steps[1..] == rest;
    }
  }

  lemma {:induction false} VisitsAreARun(
    limits: M.Limits, s: M.State, targets: seq<string>, share: nat, now: int, canReplay: bool)
    ensures Visits(limits, s, targets, share, now, canReplay)
         == M.Run(limits, s, PassSteps(targets, share, now, canReplay))
    ensures CursorMoves(PassSteps(targets, share, now, canReplay)) == targets
    decreases |targets|
  {
    PassMoves(targets, share, now, canReplay);
    if targets != [] {
      var move, head := M.DoMoveCursor(targets[0]), M.DoTryHead(targets[0], share, now, canReplay);
      var rest := PassSteps(targets[1..], share, now, canReplay);
      VisitsAreARun(limits, M.Next(limits, M.Next(limits, s, move), head), targets[1..], share, now, canReplay);
      assert ([move, head] + rest)[1..] == [head] + rest && ([head] + rest)[1..] == rest;
    }
  }

  // Deleting receipts one id at a time.

  lemma {:induction false} KeepTwice(q: seq<Row>, a: set<nat>, b: set<nat>)
    ensures Keep(Keep(q, a), b) == Keep(q, a + b)
  {
    if q != [] {
      KeepTwice(q[1..], a, b);
      if q[0].key !in a {
        assert ([q[0]] + Keep(q[1..], a))[1..] == Keep(q[1..], a);
      }
    }
  }

  lemma AcknowledgeOneMore(q: seq<Row>, ids: seq<string>, id: string)
    requires WellKeyed(q)
    ensures var some := Keep(q, M.Acknowledged(q, ids));
            Keep(some, M.Acknowledged(some, [id])) == Keep(q, M.Acknowledged(q, ids + [id]))
  {
    var a := M.Acknowledged(q, ids);
    var some := Keep(q, a);
    KeepMembers(q, a);
    KeepTwice(q, a, M.Acknowledged(some, [id]));
    forall k | k in M.Acknowledged(q, ids + [id]) ensures k in a + M.Acknowledged(some, [id]) {
      var r :| r in q && r.id in ids + [id] && IsReceipt(r) && r.key == k;
      if r.id !in ids && k !in a {
        assert r in some;
      }
    }
    assert a + M.Acknowledged(some, [id]) == M.Acknowledged(q, ids + [id]);
  }

  class TargetJournal {
    const limits: M.Limits
    var db: M.Store
    var policy: M.Policy
    var portable: Option<M.Policy>
    var flights: seq<M.Flight>
    var activeBytes: int
    var nextToken: nat
    var cursor: string
    var storageError: bool
    var globalPaused: bool
    var closed: bool
    var policyBusy: bool
    ghost var log: seq<M.Event>

    ghost function State(): M.State
      reads this
    {
      M.State(db, portable, flights, activeBytes, nextToken, cursor, storageError, globalPaused, closed, policyBusy, log)
    }

    /** The policy in memory is the stored one. What else holds follows from State() being a state of the machine:
        each method takes the machine from its old state to a successor. */
    ghost predicate Valid()
      reads this
    {
      policy == db.policy
    }

    /** The first construction in an empty directory. */
    constructor Create(limits: M.Limits, portable: Option<M.Policy>)
      ensures Valid() && State() == M.Created(portable) && this.limits == limits
    {
      var initial := if portable.Some? then portable.value else M.Policy(0, []);
      this.limits := limits;
      db := M.Store([], [], {}, initial, [], 0);
      policy := initial;
      this.portable := M.Mirror(false, initial);
      flights, activeBytes, nextToken, cursor := [], 0, 0, "";
      storageError, globalPaused, closed, policyBusy, log := false, false, false, false, [];
    }

    /** Construction over the files that an earlier process left behind. */
    constructor Open(
      limits: M.Limits, files: M.Store, portable: Option<M.Policy>, mirrorOk: bool, nextToken: nat,
      ghost before: M.State)
      requires before.db == files && before.portable == portable && before.nextToken == nextToken
      ensures Valid() && State() == M.Reopen(before, mirrorOk) && this.limits == limits
    {
      this.limits := limits;
      db := M.Recovered(files);
      policy := files.policy;
      flights, activeBytes, cursor := [], 0, "";
      this.nextToken := nextToken;
      storageError, globalPaused, policyBusy, log := false, false, false, before.log;
      if M.Conflict(portable, files.policy) || !mirrorOk {
        this.portable := portable;
        closed := true;
      } else {
        this.portable := M.Mirror(false, files.policy);
        closed := false;
      }
      new;
    }

    method Observe(topic: string, target: string) returns (ok: bool)
      requires Valid()
      modifies this`db, this`policy
      ensures Valid()
      ensures match M.Observe(old(db), topic, target)
              case None => !ok && db == old(db)
              case Some(next) => ok && db == next
    {
      if (topic, target) in db.observations {
        return true;
      }
      if |db.observations| >= M.OBSERVATION_BUDGET {
        return false;
      }
      var rules := M.ExtendRules(policy.rules, topic, target);
      if rules != policy.rules {
        if !M.InSchema(policy.(rules := rules)) {
          return false;
        }
        policy := policy.(rules := rules);
      }
      db := db.(observations := db.observations + {(topic, target)}, policy := policy);
      return true;
    }

    method AdmitEntry(s: M.Submission) returns (ok: bool)
      requires Valid()
      modifies this`db, this`policy
      ensures ok ==> Valid()
      ensures match M.AdmitOne(limits, old(db), s)
              case None => !ok
              case Some(next) => ok && db == next
    {
      if !M.ValidEnvelope(s.entry) {
        return false;
      }
      ok := Observe(s.entry.topic, s.entry.table);
      if !ok || HasId(db.queue, s.entry.id) {
        return;
      }
      var bytes := M.EntryBytes(s.entry);
      var total := Lookup(db.totals, s.entry.table);
      if bytes > M.MAX_EVENT_BYTES || 2 * (TotalBytes(db.totals) + bytes) > limits.maxBytes
         || total.pending >= limits.maxPendingPerTarget || s.diskFree < limits.reserveBytes + bytes {
        return false;
      }
      var row := M.NewRow(db, s.entry);
      db := db.(queue := db.queue + [row], births := db.births + 1);
      db := db.(totals := Put(db.totals, total.(pending := total.pending + 1, bytes := total.bytes + bytes)));
    }

    /** BEGIN, the admission loop, COMMIT or ROLLBACK: a failed admission restores the store and the policy. */
    method AdmitTransaction(batch: seq<M.Submission>, sqliteOk: bool) returns (ok: bool)
      requires Valid()
      modifies this`db, this`policy
      ensures Valid()
      ensures match (if sqliteOk then M.AdmitAll(limits, old(db), batch) else None)
              case None => !ok && db == old(db)
              case Some(next) => ok && db == next
    {
      var storedBefore, policyBefore := db, policy;
      ok := sqliteOk;
      var i := 0;
      while ok && i < |batch|
        invariant i <= |batch|
        invariant ok ==> Valid() && sqliteOk
        invariant ok ==> M.AdmitAll(limits, storedBefore, batch) == M.AdmitAll(limits, db, batch[i..])
        invariant !ok ==> !sqliteOk || M.AdmitAll(limits, storedBefore, batch) == None
      {
        assert batch[i..][1..] == batch[i + 1..];
        ok := AdmitEntry(batch[i]);
        i := i + 1;
      }
      if !ok {
        db, policy := storedBefore, policyBefore;
      }
    }

    /** The transaction of submit and the mirroring of the policy: all parts are admitted, or nothing changes but
        the fault. */
    method Admit(batch: seq<M.Submission>, sqliteOk: bool, mirrorOk: bool) returns (ok: bool)
      requires Valid()
      modifies this
      ensures Valid() && State() == M.Admit(limits, old(State()), batch, sqliteOk, mirrorOk)
      ensures ok == Accepted(limits, old(State()), batch, sqliteOk, mirrorOk)
    {
      if closed {
        return false;
      }
      var policyBefore := policy;
      ok := AdmitTransaction(batch, sqliteOk);
      if !ok {
        storageError := true;
        return;
      }
      if policy != policyBefore {
        if !mirrorOk {
          storageError := true;
          return false;
        }
        portable := M.Mirror(globalPaused, policy);
      }
      storageError := false;
    }

    method StartWrite(row: Row)
      modifies this`flights, this`activeBytes, this`nextToken
      ensures State() == M.Launch(old(State()), row)
    {
      activeBytes := activeBytes + row.bytes;
      flights := flights + [M.Flight(nextToken, row, M.Installed)];
      nextToken := nextToken + 1;
    }

    /** The loop of tryHead over the window of pending rows. */
    method TryHead(target: string, batch: nat, now: int, canReplay: bool)
      requires Valid()
      modifies this`flights, this`activeBytes, this`nextToken
      ensures Valid() && State() == M.TryHead(limits, old(State()), target, batch, now, canReplay)
    {
      if closed || M.IsPaused(policy, target) || storageError || !canReplay {
        return;
      }
      var rows := M.Window(db.queue, target);
      var selected, i := 0, 0;
      while i < |rows|
        invariant selected <= batch && i <= |rows|
        invariant M.StartRows(limits, old(State()), rows, now, batch)
               == M.StartRows(limits, State(), rows[i..], now, batch - selected)
        invariant State() == old(State()).(flights := flights, activeBytes := activeBytes, nextToken := nextToken)
      {
        assert rows[i..][1..] == rows[i + 1..];
        var row := rows[i];
        if !M.InFlight(flights, row.id) {
          if row.retryAt > now || selected >= batch || |flights| >= limits.maxInFlight
             || activeBytes + row.bytes > limits.maxInFlightBytes {
            break;
          }
          StartWrite(row);
          selected := selected + 1;
        }
        i := i + 1;
      }
    }

    /** submit up to its first await. */
    method Submit(batch: seq<M.Submission>, sqliteOk: bool, mirrorOk: bool, now: int, canReplay: bool)
      returns (ok: bool)
      requires Valid()
      modifies this
      ensures Valid() && ok == Accepted(limits, old(State()), batch, sqliteOk, mirrorOk)
      ensures var admitted := M.Admit(limits, old(State()), batch, sqliteOk, mirrorOk);
              State() == if ok then Heads(limits, admitted, DistinctTables(batch, []), now, canReplay) else admitted
    {
      ok := Admit(batch, sqliteOk, mirrorOk);
      if !ok {
        return;
      }
      ghost var admitted := State();
      var tables: seq<string> := [];
      for i := 0 to |batch|
        invariant DistinctTables(batch, []) == DistinctTables(batch[i..], tables)
        invariant Valid() && State() == admitted
      {
        assert batch[i..][1..] == batch[i + 1..];
        if batch[i].entry.table !in tables {
          tables := tables + [batch[i].entry.table];
        }
      }
      for i := 0 to |tables|
        invariant Valid()
        invariant Heads(limits, admitted, tables, now, canReplay)
               == Heads(limits, State(), tables[i..], now, canReplay)
      {
        assert tables[i..][1..] == tables[i + 1..];
        TryHead(tables[i], 1, now, canReplay);
      }
    }

    /** The last statement of submit: true only if every part is confirmed, and then every part was written. */
    method AllWritten(batch: seq<M.Submission>) returns (written: bool)
      requires History(State())
      ensures written <==> forall i :: 0 <= i < |batch| ==> IsConfirmed(db.queue, batch[i].entry.id)
      ensures written ==> forall i :: 0 <= i < |batch| ==> WasWritten(State(), batch[i].entry.id)
    {
      for k := 0 to |batch|
        invariant forall i :: 0 <= i < k ==> IsConfirmed(db.queue, batch[i].entry.id)
      {
        if !IsConfirmed(db.queue, batch[k].entry.id) {
          return false;
        }
      }
      forall i | 0 <= i < |batch| ensures WasWritten(State(), batch[i].entry.id) {
        assert IsConfirmed(db.queue, batch[i].entry.id);
        ConfirmedWereWritten(State(), batch[i].entry.id);
      }
      return true;
    }

    method BeginWrite(token: nat, sqliteOk: bool)
      requires Valid()
      modifies this
      ensures Valid() && State() == M.Begin(old(State()), token, sqliteOk)
    {
      var current := M.FlightAt(flights, token);
      if current.None? || flights[current.value].phase != M.Installed {
        return;
      }
      var i := current.value;
      var row := flights[i].row;
      if !sqliteOk {
        storageError := true;
        flights := M.SetPhase(flights, i, M.Settled);
        return;
      }
      db := db.(queue := M.MarkWriting(db.queue, row.key));
      flights := M.SetPhase(flights, i, M.Writing);
      log := log + [M.Handed(token, row.birth, row.id, row.target)];
    }

    method WriteSucceeded(token: nat, sqliteOk: bool)
      requires Valid()
      modifies this
      ensures Valid() && State() == M.Succeed(old(State()), token, sqliteOk)
    {
      var current := M.FlightAt(flights, token);
      if current.None? || flights[current.value].phase != M.Writing {
        return;
      }
      var i := current.value;
      var row := flights[i].row;
      if sqliteOk {
        db := M.ConfirmRow(db, row);
      } else {
        storageError := true;
      }
      flights := M.SetPhase(flights, i, M.Settled);
      log := log + [M.Delivered(row.birth, row.id, sqliteOk)];
    }

    method WriteFailed(token: nat, now: int, sqliteOk: bool)
      requires Valid()
      modifies this
      ensures Valid() && State() == M.Fail(limits, old(State()), token, now, sqliteOk)
    {
      var current := M.FlightAt(flights, token);
      if current.None? || flights[current.value].phase != M.Writing {
        return;
      }
      var i := current.value;
      if sqliteOk {
        db := M.DelayRow(limits, db, flights[i].row, now);
      } else {
        storageError := true;
      }
      flights := M.SetPhase(flights, i, M.Settled);
    }

    method WriteFinished(token: nat)
      requires Valid()
      modifies this
      ensures Valid() && State() == M.Finish(old(State()), token)
    {
      var current := M.FlightAt(flights, token);
      if current.None? || flights[current.value].phase != M.Settled {
        return;
      }
      var i := current.value;
      activeBytes := activeBytes - flights[i].row.bytes;
      flights := flights[..i] + flights[i + 1..];
    }

    /** One DELETE per id; together they drop exactly the live receipts of these ids. */
    method Acknowledge(ids: seq<string>)
      requires Valid() && WellKeyed(db.queue)
      modifies this`db
      ensures Valid() && State() == M.Drop(old(State()), M.Acknowledged(old(db).queue, ids))
    {
      ghost var q := db.queue;
      KeepNone(q);
      assert M.Acknowledged(q, []) == {};
      for i := 0 to |ids|
        invariant db == old(db).(queue := Keep(q, M.Acknowledged(q, ids[..i])))
      {
        assert ids[..i + 1] == ids[..i] + [ids[i]];
        AcknowledgeOneMore(q, ids[..i], ids[i]);
        db := db.(queue := Keep(db.queue, M.Acknowledged(db.queue, [ids[i]])));
      }
      assert ids[..|ids|] == ids;
    }

    method AcknowledgeLegacy(key: string)
      requires Valid()
      modifies this`db
      ensures Valid() && State() == M.Drop(old(State()), M.AcknowledgedLegacy(old(db).queue, key))
    {
      db := db.(queue := Keep(db.queue, M.AcknowledgedLegacy(db.queue, key)));
    }

    /** A pause of everything: the flag is taken back when the policy file cannot be written. */
    method SetGlobalPaused(paused: bool, mirrorOk: bool)
      requires Valid()
      modifies this
      ensures Valid() && State() == M.SetGlobalPaused(old(State()), paused, mirrorOk)
    {
      if closed {
        return;
      }
      var previous := globalPaused;
      globalPaused := paused;
      if mirrorOk {
        portable := M.Mirror(globalPaused, policy);
      } else {
        globalPaused := previous;
        storageError := true;
      }
    }

    /** importPolicy after its validation: a drained journal without rules takes over a policy without rules. */
    method ImportPolicy(value: M.Policy, saveOk: bool, mirrorOk: bool)
      requires Valid()
      modifies this
      ensures Valid() && State() == M.ImportPolicy(old(State()), value, saveOk, mirrorOk)
    {
      if closed || globalPaused || policy.rules != [] || value.rules != []
         || (value != policy && policy.revision != 0)
         || storageError || |flights| > 0 || M.HasPending(db.queue) {
        return;
      }
      if !saveOk {
        storageError := true;
        return;
      }
      db := db.(policy := value);
      policy := value;
      if mirrorOk {
        portable := M.Mirror(globalPaused, policy);
      } else {
        storageError := true;
      }
    }

    method Boundary() returns (boundary: M.Boundary)
      requires Valid()
      ensures boundary == M.BoundaryOf(State())
    {
      if policy.rules == [] {
        return M.Boundary(M.Running, 0);
      }
      var inFlight := 0;
      for i := 0 to |flights|
        invariant M.CoveredFlights(policy, flights) == inFlight + M.CoveredFlights(policy, flights[i..])
      {
        assert flights[i..][1..] == flights[i + 1..];
        if M.IsPaused(policy, flights[i].row.target) {
          inFlight := inFlight + 1;
        }
      }
      var failed := false;
      for i := 0 to |db.totals|
        invariant failed <==>
                  exists k :: 0 <= k < i && db.totals[k].retrying > 0 && M.IsPaused(policy, db.totals[k].target)
      {
        if db.totals[i].retrying > 0 && M.IsPaused(policy, db.totals[i].target) {
          failed := true;
        }
      }
      boundary := M.Boundary(if inFlight > 0 then M.Draining else if failed then M.Uncertain else M.Paused, inFlight);
    }

    method Decide(request: M.Request, actor: string) returns (ruling: M.Ruling)
      requires Valid()
      ensures ruling == M.Decide(State(), request, actor)
    {
      var rules := policy.rules;
      if request.Pause? {
        if |rules| >= M.RULE_LIMIT {
          return M.Denied(409);
        }
        var tables := M.Evaluate(request.selector, db.observations);
        return M.Granted(rules + [M.Rule(request.id, request.selector, request.reason, actor, tables)]);
      }
      var at := M.RuleAt(rules, request.pauseId);
      if at.None? {
        return M.Denied(404);
      }
      var boundary := Boundary();
      if boundary.inFlight > 0 || (boundary.phase == M.Uncertain && !request.confirmUnknown) {
        return M.Denied(409);
      }
      return M.Granted(rules[..at.value] + rules[at.value + 1..]);
    }

    /** The transaction that stores policy and receipt, and the mirroring after it. */
    method Commit(request: M.Request, actor: string, rules: seq<M.Rule>, env: M.CommandEnv) returns (reply: M.Reply)
      requires Valid()
      modifies this
      ensures Valid() && (State(), reply) == M.Commit(old(State()), request, actor, rules, env)
    {
      var next := M.Policy(policy.revision + 1, rules);
      var response := M.Response(request.id, actor, request.reason, policy.revision + 1,
                                 if request.Pause? then request.id else request.pauseId);
      if !env.commitOk || !M.InSchema(next) {
        storageError := true;
        return M.Faulted;
      }
      db := db.(policy := next, commands := db.commands + [M.Receipt(request, actor, response)]);
      policy := next;
      if !env.mirrorOk {
        storageError := true;
        return M.Faulted;
      }
      portable := M.Mirror(globalPaused, policy);
      policyBusy := request.Pause?;
      return M.Accepted(response);
    }

    method Answer(request: M.Request, actor: string, env: M.CommandEnv) returns (reply: M.Reply)
      requires Valid()
      modifies this
      ensures Valid() && (State(), reply) == M.Answer(old(State()), request, actor, env)
    {
      var prior := M.ReceiptFor(db.commands, request.id);
      if prior.Some? {
        if prior.value.actor != actor || prior.value.request != request {
          return M.Rejected(409);
        }
        return M.Recorded(prior.value.response);
      }
      if policyBusy || request.expected != policy.revision {
        return M.Rejected(409);
      }
      var ruling := Decide(request, actor);
      if ruling.Denied? {
        return M.Rejected(ruling.status);
      }
      reply := Commit(request, actor, ruling.rules, env);
    }

    /** command up to its first await; the requests are those that pass the request schema. */
    method Command(request: M.Request, actor: string, env: M.CommandEnv) returns (reply: M.Reply)
      requires Valid()
      modifies this
      ensures Valid() && (State(), reply) == M.Command(old(State()), request, actor, env)
    {
      if actor == "" || M.Utf16Length(actor) > 200 {
        return M.Rejected(403);
      }
      if closed {
        return M.Rejected(503);
      }
      if storageError {
        if !env.probeOk {
          return M.Faulted;
        }
        portable := M.Mirror(globalPaused, policy);
        storageError := false;
      }
      reply := Answer(request, actor, env);
    }

    /** The workers of a pass take the targets one by one. */
    method VisitAll(visited: seq<string>, share: nat, now: int, canReplay: bool)
      requires Valid()
      modifies this`cursor, this`flights, this`activeBytes, this`nextToken
      ensures State() == Visits(limits, old(State()), visited, share, now, canReplay)
    {
      for index := 0 to |visited|
        invariant Visits(limits, old(State()), visited, share, now, canReplay)
               == Visits(limits, State(), visited[index..], share, now, canReplay)
      {
        assert visited[index..][1..] == visited[index + 1..];
        assert visited[index..][0] == visited[index];
        cursor := visited[index];
        TryHead(visited[index], share, now, canReplay);
      }
      assert visited[|visited|..] == [];
    }

    /** A replay pass whose visits are not interrupted: every visited target is tried in fair order, the cursor ends
        at the last one, and receipts beyond the newest ones are deleted. */
    method ReplayPass(batch: nat, now: int, canReplay: bool)
      requires Valid() && batch >= 1
      modifies this
      ensures Valid()
      ensures var s := old(State());
              var targets := M.ReplayTargets(s.db.policy, s.db.totals);
              if s.closed || !canReplay || targets == [] then State() == s
              else
                var visited := Visited(targets, s.cursor, batch);
                var end := Visits(limits, s, visited, Max(1, batch / |visited|), now, canReplay);
                State() == M.Drop(end, M.Expired(end.db.queue))
                && cursor == CursorAfter(targets, s.cursor, batch)
    {
      var targets := M.ReplayTargets(policy, db.totals);
      if closed || !canReplay || targets == [] {
        return;
      }
      var fair := M.FairOrder(targets, cursor);
      var count := Min(batch, |fair|);
      var visited := fair[..count];
      ghost var s := State();
      var share := Max(1, batch / count);
      VisitsCursor(limits, s, visited, share, now, canReplay);
      VisitAll(visited, share, now, canReplay);
      db := db.(queue := Keep(db.queue, M.Expired(db.queue)));
    }
  }

  lemma {:induction false} KeepNone(q: seq<Row>)
    ensures Keep(q, {}) == q
  {
    if q != [] {
      KeepNone(q[1..]);
    }
  }
}
