/** The target journal as a state machine. One function per code section that runs without yielding; what SQLite,
    the file system, the clock and the destination answer is a parameter of the step. */
module JournalModel {
  import opened Common
  import opened JournalRows
  import opened TextOrders
  import TopicFilters

  // Data.

  datatype Limits = Limits(
    maxBytes: nat, reserveBytes: nat, maxPendingPerTarget: nat, retryMs: nat, maxInFlight: nat, maxInFlightBytes: nat)

  const MEBIBYTE: nat := 1024 * 1024
  const MAX_EVENT_BYTES: nat := 16 * MEBIBYTE
  const OBSERVATION_BUDGET: nat := 100000
  const RULE_LIMIT: nat := 64
  const TABLE_LIMIT: nat := 10000
  const RETAINED_RECEIPTS: nat := 10000
  const HEAD_WINDOW: nat := 1024

  const DEFAULT_LIMITS: Limits :=
    Limits(1024 * MEBIBYTE, 64 * MEBIBYTE, 1000000, 1000, 512, 16 * MEBIBYTE)

  datatype Selector = Tables(tables: set<string>) | TopicFilter(filter: string)

  datatype Rule = Rule(id: string, selector: Selector, reason: string, actor: string, tables: set<string>)

  datatype Policy = Policy(revision: nat, rules: seq<Rule>)

  datatype Request =
    | Pause(id: string, expected: nat, selector: Selector, reason: string)
    | Resume(id: string, expected: nat, pauseId: string, reason: string, confirmUnknown: bool)

  datatype Response = Response(id: string, actor: string, reason: string, revision: nat, pauseId: string)

  /** A row of `commands`. The stored hash is injective, so the request itself stands for it. */
  datatype Receipt = Receipt(request: Request, actor: string, response: Response)

  datatype Reply = Rejected(status: nat) | Recorded(recorded: Response) | Accepted(accepted: Response) | Faulted

  datatype Entry = Entry(id: string, table: string, topic: string, payload: string, legacyKey: Option<string>)

  /** An entry together with the free disk space read while it is admitted. */
  datatype Submission = Submission(entry: Entry, diskFree: nat)

  /** What SQLite holds. `births` counts admissions and exists for the history only. */
  datatype Store = Store(
    queue: seq<Row>, totals: seq<Total>, observations: set<(string, string)>, policy: Policy,
    commands: seq<Receipt>, births: nat)

  /** A promise of `jobs` and `active`: installed, then writing, then settled until its `finally` runs. */
  datatype Phase = Installed | Writing | Settled
  datatype Flight = Flight(token: nat, row: Row, phase: Phase)

  /** What the destination saw. */
  datatype Event =
    | Handed(token: nat, birth: nat, id: string, target: string)
    | Delivered(birth: nat, id: string, recorded: bool)

  datatype State = State(
    db: Store, portable: Option<Policy>, flights: seq<Flight>, activeBytes: int, nextToken: nat, cursor: string,
    storageError: bool, globalPaused: bool, closed: bool, policyBusy: bool, log: seq<Event>)

  // Text sizes.

  function Utf8Length(s: string): nat {
    if s == "" then 0
    else
      var c := s[0] as int;
      (if c < 0x80 then 1 else if c < 0x800 then 2 else if c < 0x1_0000 then 3 else 4) + Utf8Length(s[1..])
  }

  function Utf16Length(s: string): nat {
    |Units(s)|
  }

  // Pause rules.

  predicate IsPaused(policy: Policy, target: string) {
    exists i :: 0 <= i < |policy.rules| && target in policy.rules[i].tables
  }

  /** The tables a selector stands for under the observations made so far. */
  function Evaluate(selector: Selector, observations: set<(string, string)>): set<string> {
    match selector
    case Tables(tables) => tables
    case TopicFilter(filter) => set o | o in observations && TopicFilters.Matches(filter, o.0) :: o.1
  }

  function ExtendRule(rule: Rule, topic: string, target: string): Rule {
    if rule.selector.TopicFilter? && TopicFilters.Matches(rule.selector.filter, topic)
    then rule.(tables := rule.tables + {target})
    else rule
  }

  function ExtendRules(rules: seq<Rule>, topic: string, target: string): (r: seq<Rule>)
    ensures |r| == |rules|
    ensures forall i :: 0 <= i < |r| ==> r[i] == ExtendRule(rules[i], topic, target)
  {
    if rules == [] then []
    else [ExtendRule(rules[0], topic, target)] + ExtendRules(rules[1..], topic, target)
  }

  predicate InSchema(policy: Policy) {
    && |policy.rules| <= RULE_LIMIT
    && forall i :: 0 <= i < |policy.rules| ==> |policy.rules[i].tables| <= TABLE_LIMIT
  }

  /** The file that mirrors the policy: absent while nothing is paused. */
  function Mirror(globalPaused: bool, policy: Policy): Option<Policy> {
    if !globalPaused && policy.rules == [] then None else Some(policy)
  }

  // Admission.

  function Observe(db: Store, topic: string, target: string): Option<Store> {
    if (topic, target) in db.observations then Some(db)
    else if |db.observations| >= OBSERVATION_BUDGET then None
    else
      var policy := db.policy.(rules := ExtendRules(db.policy.rules, topic, target));
      if policy == db.policy || InSchema(policy)
      then Some(db.(observations := db.observations + {(topic, target)}, policy := policy))
      else None
  }

  predicate ValidTable(table: string) {
    1 <= Utf16Length(table) <= 255 && forall c :: c in table ==> c as int > 0x1f
  }

  predicate ValidEnvelope(e: Entry) {
    && ValidTable(e.table)
    && e.id != "" && Utf16Length(e.id) <= 200
    && Utf16Length(e.topic) <= 4096
  }

  function EntryBytes(e: Entry): nat {
    Utf8Length(e.payload) + Utf8Length(e.topic) + 512
  }

  predicate Exhausted(limits: Limits, db: Store, s: Submission) {
    var bytes := EntryBytes(s.entry);
    || bytes > MAX_EVENT_BYTES
    || 2 * (TotalBytes(db.totals) + bytes) > limits.maxBytes
    || Lookup(db.totals, s.entry.table).pending >= limits.maxPendingPerTarget
    || s.diskFree < limits.reserveBytes + bytes
  }

  function NewRow(db: Store, e: Entry): Row {
    Row(NextSeq(db.queue), e.id, e.table, e.topic, e.payload, e.legacyKey, false, 0, EntryBytes(e), 0, false, db.births)
  }

  function Insert(db: Store, e: Entry): Store {
    var total := Lookup(db.totals, e.table);
    db.(queue := db.queue + [NewRow(db, e)],
        totals := Put(db.totals, total.(pending := total.pending + 1, bytes := total.bytes + EntryBytes(e))),
        births := db.births + 1)
  }

  /** One pass of the admission loop; None is an exception, which rolls the transaction back. */
  function AdmitOne(limits: Limits, db: Store, s: Submission): Option<Store> {
    if !ValidEnvelope(s.entry) then None
    else match Observe(db, s.entry.topic, s.entry.table)
      case None => None
      case Some(seen) =>
        if HasId(seen.queue, s.entry.id) then Some(seen)
        else if Exhausted(limits, seen, s) then None
        else Some(Insert(seen, s.entry))
  }

  function AdmitAll(limits: Limits, db: Store, batch: seq<Submission>): Option<Store>
    decreases |batch|
  {
    if batch == [] then Some(db)
    else match AdmitOne(limits, db, batch[0])
      case None => None
      case Some(next) => AdmitAll(limits, next, batch[1..])
  }

  function Admit(limits: Limits, s: State, batch: seq<Submission>, sqliteOk: bool, mirrorOk: bool): State {
    if s.closed then s
    else match (if sqliteOk then AdmitAll(limits, s.db, batch) else None)
      case None => s.(storageError := true)
      case Some(db) =>
        if db.policy == s.db.policy then s.(db := db, storageError := false)
        else if mirrorOk then s.(db := db, portable := Mirror(s.globalPaused, db.policy), storageError := false)
        else s.(db := db, storageError := true)
  }

  // Writes.

  predicate InFlight(flights: seq<Flight>, id: string) {
    exists i :: 0 <= i < |flights| && flights[i].row.id == id
  }

  function PendingRows(q: seq<Row>, target: string): seq<Row> {
    if q == [] then []
    else if !q[0].confirmed && q[0].target == target then [q[0]] + PendingRows(q[1..], target)
    else PendingRows(q[1..], target)
  }

  function Window(q: seq<Row>, target: string): seq<Row> {
    var rows := PendingRows(q, target);
    if |rows| <= HEAD_WINDOW then rows else rows[..HEAD_WINDOW]
  }

  function Launch(s: State, row: Row): State {
    s.(flights := s.flights + [Flight(s.nextToken, row, Installed)],
       activeBytes := s.activeBytes + row.bytes,
       nextToken := s.nextToken + 1)
  }

  predicate MustWait(limits: Limits, s: State, row: Row, now: int, room: nat) {
    || row.retryAt > now
    || room == 0
    || |s.flights| >= limits.maxInFlight
    || s.activeBytes + row.bytes > limits.maxInFlightBytes
  }

  function StartRows(limits: Limits, s: State, rows: seq<Row>, now: int, room: nat): State
    decreases |rows|
  {
    if rows == [] then s
    else if InFlight(s.flights, rows[0].id) then StartRows(limits, s, rows[1..], now, room)
    else if MustWait(limits, s, rows[0], now, room) then s
    else StartRows(limits, Launch(s, rows[0]), rows[1..], now, room - 1)
  }

  predicate MayWrite(s: State, target: string, canReplay: bool) {
    !s.closed && !IsPaused(s.db.policy, target) && !s.storageError && canReplay
  }

  function TryHead(limits: Limits, s: State, target: string, room: nat, now: int, canReplay: bool): State {
    if MayWrite(s, target, canReplay) then StartRows(limits, s, Window(s.db.queue, target), now, room) else s
  }

  function FlightAt(flights: seq<Flight>, token: nat): (i: Option<nat>)
    ensures i.Some? ==> i.value < |flights| && flights[i.value].token == token
    ensures i.None? ==> forall k :: 0 <= k < |flights| ==> flights[k].token != token
  {
    if flights == [] then None
    else if flights[0].token == token then Some(0)
    else match FlightAt(flights[1..], token)
      case None => None
      case Some(k) => Some(k + 1)
  }

  /** The flight a microtask belongs to, when it is in the phase that the microtask expects. */
  function Current(s: State, token: nat, phase: Phase): (i: Option<nat>)
    ensures i.Some? ==> i.value < |s.flights| && s.flights[i.value].token == token && s.flights[i.value].phase == phase
  {
    match FlightAt(s.flights, token)
    case None => None
    case Some(i) => if s.flights[i].phase == phase then Some(i) else None
  }

  function SetPhase(flights: seq<Flight>, i: nat, phase: Phase): seq<Flight>
    requires i < |flights|
  {
    flights[i := flights[i].(phase := phase)]
  }

  function MarkWriting(q: seq<Row>, key: nat): seq<Row> {
    match Find(q, key)
    case None => q
    case Some(i) => q[i := q[i].(inWrite := true)]
  }

  /** The deferred microtask of startWrite: mark the row, then hand it to the destination. */
  function Begin(s: State, token: nat, sqliteOk: bool): State {
    match Current(s, token, Installed)
    case None => s
    case Some(i) =>
      var row := s.flights[i].row;
      if sqliteOk then
        s.(db := s.db.(queue := MarkWriting(s.db.queue, row.key)),
           flights := SetPhase(s.flights, i, Writing),
           log := s.log + [Handed(token, row.birth, row.id, row.target)])
      else s.(storageError := true, flights := SetPhase(s.flights, i, Settled))
  }

  function ConfirmRow(db: Store, flown: Row): Store {
    match Find(db.queue, flown.key)
    case None => db
    case Some(i) =>
      var total := Lookup(db.totals, flown.target);
      db.(totals := Put(db.totals, total.(pending := total.pending - 1,
                                          bytes := total.bytes - db.queue[i].bytes,
                                          retrying := total.retrying - if flown.attempts > 0 then 1 else 0)),
          queue := db.queue[i := db.queue[i].(confirmed := true, payload := "", bytes := 0, inWrite := false)])
  }

  /** The destination accepted the write. */
  function Succeed(s: State, token: nat, sqliteOk: bool): State {
    match Current(s, token, Writing)
    case None => s
    case Some(i) =>
      var row := s.flights[i].row;
      s.(db := if sqliteOk then ConfirmRow(s.db, row) else s.db,
         storageError := s.storageError || !sqliteOk,
         flights := SetPhase(s.flights, i, Settled),
         log := s.log + [Delivered(row.birth, row.id, sqliteOk)])
  }

  function Power2(n: nat): nat {
    if n == 0 then 1 else 2 * Power2(n - 1)
  }

  function RetryDelay(limits: Limits, attempts: nat): nat {
    Min(30000, limits.retryMs * Power2(Min(attempts, 5)))
  }

  function DelayRow(limits: Limits, db: Store, flown: Row, now: int): Store {
    match Find(db.queue, flown.key)
    case None => db
    case Some(i) =>
      var total := Lookup(db.totals, flown.target);
      var row := db.queue[i];
      db.(totals := Put(db.totals, total.(failures := total.failures + 1,
                                          retrying := total.retrying + if flown.attempts == 0 then 1 else 0)),
          queue := db.queue[i := row.(attempts := row.attempts + 1, inWrite := false,
                                      retryAt := now + RetryDelay(limits, flown.attempts))])
  }

  /** The write failed, or its outcome is unknown. */
  function Fail(limits: Limits, s: State, token: nat, now: int, sqliteOk: bool): State {
    match Current(s, token, Writing)
    case None => s
    case Some(i) =>
      s.(db := if sqliteOk then DelayRow(limits, s.db, s.flights[i].row, now) else s.db,
         storageError := s.storageError || !sqliteOk,
         flights := SetPhase(s.flights, i, Settled))
  }

  /** The `finally` of a write. */
  function Finish(s: State, token: nat): State {
    match Current(s, token, Settled)
    case None => s
    case Some(i) =>
      s.(flights := s.flights[..i] + s.flights[i + 1..], activeBytes := s.activeBytes - s.flights[i].row.bytes)
  }

  // Replay.

  /** SELECT target FROM totals WHERE pending > 0 ORDER BY target, without the paused ones. */
  function ReplayTargets(policy: Policy, totals: seq<Total>): seq<string> {
    if totals == [] then []
    else if totals[0].pending > 0 && !IsPaused(policy, totals[0].target)
    then [totals[0].target] + ReplayTargets(policy, totals[1..])
    else ReplayTargets(policy, totals[1..])
  }

  /** The first target behind the cursor. The targets come in the order of SQLite; the program compares in its own. */
  function SplitAt(targets: seq<string>, cursor: string): (i: nat)
    ensures i <= |targets|
    ensures forall k :: 0 <= k < i ==> !Less16(cursor, targets[k])
    ensures i < |targets| ==> Less16(cursor, targets[i])
  {
    if targets == [] then 0
    else if Less16(cursor, targets[0]) then 0
    else 1 + SplitAt(targets[1..], cursor)
  }

  /** The targets of a pass, beginning behind the cursor. */
  function FairOrder(targets: seq<string>, cursor: string): (fair: seq<string>)
    ensures |fair| == |targets|
  {
    var split := SplitAt(targets, cursor);
    targets[split..] + targets[..split]
  }

  // Receipts.

  function Drop(s: State, dropped: set<nat>): State {
    s.(db := s.db.(queue := Keep(s.db.queue, dropped)))
  }

  function Acknowledged(q: seq<Row>, ids: seq<string>): set<nat> {
    set r | r in q && r.id in ids && IsReceipt(r) :: r.key
  }

  function AcknowledgedLegacy(q: seq<Row>, key: string): set<nat> {
    set r | r in q && r.legacyKey == Some(key) && r.confirmed :: r.key
  }

  /** Receipts beyond the newest RETAINED_RECEIPTS. */
  function Expired(q: seq<Row>): set<nat> {
    set r | r in q && IsReceipt(r) && Sum(q, NewerReceipts(r.key)) >= RETAINED_RECEIPTS :: r.key
  }

  // Control.

  datatype BoundaryPhase = Running | Draining | Uncertain | Paused
  datatype Boundary = Boundary(phase: BoundaryPhase, inFlight: nat)

  function CoveredFlights(policy: Policy, flights: seq<Flight>): nat {
    if flights == [] then 0
    else (if IsPaused(policy, flights[0].row.target) then 1 else 0) + CoveredFlights(policy, flights[1..])
  }

  predicate CoveredRetry(policy: Policy, totals: seq<Total>) {
    exists i :: 0 <= i < |totals| && totals[i].retrying > 0 && IsPaused(policy, totals[i].target)
  }

  function BoundaryOf(s: State): Boundary {
    if s.db.policy.rules == [] then Boundary(Running, 0)
    else
      var inFlight := CoveredFlights(s.db.policy, s.flights);
      Boundary(if inFlight > 0 then Draining else if CoveredRetry(s.db.policy, s.db.totals) then Uncertain else Paused,
               inFlight)
  }

  function ReceiptFor(commands: seq<Receipt>, id: string): (r: Option<Receipt>)
    ensures r.Some? ==> r.value in commands && r.value.request.id == id
    ensures r.None? ==> forall c :: c in commands ==> c.request.id != id
  {
    if commands == [] then None
    else if commands[0].request.id == id then Some(commands[0])
    else ReceiptFor(commands[1..], id)
  }

  function RuleAt(rules: seq<Rule>, id: string): (i: Option<nat>)
    ensures i.Some? ==> i.value < |rules| && rules[i.value].id == id
    ensures i.Some? ==> forall k :: 0 <= k < i.value ==> rules[k].id != id
    ensures i.None? ==> forall k :: 0 <= k < |rules| ==> rules[k].id != id
  {
    if rules == [] then None
    else if rules[0].id == id then Some(0)
    else match RuleAt(rules[1..], id)
      case None => None
      case Some(k) => Some(k + 1)
  }

  datatype Ruling = Denied(status: nat) | Granted(rules: seq<Rule>)

  function Decide(s: State, request: Request, actor: string): Ruling {
    var rules := s.db.policy.rules;
    match request
    case Pause(id, _, selector, reason) =>
      if |rules| >= RULE_LIMIT then Denied(409)
      else Granted(rules + [Rule(id, selector, reason, actor, Evaluate(selector, s.db.observations))])
    case Resume(_, _, pauseId, _, confirmUnknown) =>
      match RuleAt(rules, pauseId)
      case None => Denied(404)
      case Some(i) =>
        if BoundaryOf(s).inFlight > 0 then Denied(409)
        else if BoundaryOf(s).phase == Uncertain && !confirmUnknown then Denied(409)
        else Granted(rules[..i] + rules[i + 1..])
  }

  function ResponseTo(s: State, request: Request, actor: string): Response {
    Response(request.id, actor, request.reason, s.db.policy.revision + 1,
             if request.Pause? then request.id else request.pauseId)
  }

  /** Which of the durable operations of a command succeed. */
  datatype CommandEnv = CommandEnv(probeOk: bool, commitOk: bool, mirrorOk: bool)

  function Commit(s: State, request: Request, actor: string, rules: seq<Rule>, env: CommandEnv): (State, Reply) {
    var response := ResponseTo(s, request, actor);
    var policy := Policy(response.revision, rules);
    var db := s.db.(policy := policy, commands := s.db.commands + [Receipt(request, actor, response)]);
    if !env.commitOk || !InSchema(policy) then (s.(storageError := true), Faulted)
    else if !env.mirrorOk then (s.(db := db, storageError := true), Faulted)
    else (s.(db := db, portable := Mirror(s.globalPaused, policy), policyBusy := request.Pause?), Accepted(response))
  }

  /** The storage probe that lets control commands clear a storage fault. */
  function Probed(s: State, env: CommandEnv): State {
    if s.storageError && env.probeOk
    then s.(portable := Mirror(s.globalPaused, s.db.policy), storageError := false)
    else s
  }

  /** A request that nothing recorded answers yet. */
  function Execute(s: State, request: Request, actor: string, env: CommandEnv): (State, Reply) {
    if s.policyBusy || request.expected != s.db.policy.revision then (s, Rejected(409))
    else match Decide(s, request, actor)
      case Denied(status) => (s, Rejected(status))
      case Granted(rules) => Commit(s, request, actor, rules, env)
  }

  function Answer(s: State, request: Request, actor: string, env: CommandEnv): (State, Reply) {
    match ReceiptFor(s.db.commands, request.id)
    case None => Execute(s, request, actor, env)
    case Some(prior) =>
      (s, if prior.actor != actor || prior.request != request then Rejected(409) else Recorded(prior.response))
  }

  function Command(s: State, request: Request, actor: string, env: CommandEnv): (State, Reply) {
    if actor == "" || Utf16Length(actor) > 200 then (s, Rejected(403))
    else if s.closed then (s, Rejected(503))
    else if Probed(s, env).storageError then (s, Faulted)
    else Answer(Probed(s, env), request, actor, env)
  }

  function SetGlobalPaused(s: State, paused: bool, mirrorOk: bool): State {
    if s.closed then s
    else if mirrorOk then s.(globalPaused := paused, portable := Mirror(paused, s.db.policy))
    else s.(storageError := true)
  }

  /** The mirroring that failed last had put its file in place, and only syncing the directory failed. */
  function FileArrived(s: State, paused: bool): State {
    if s.storageError && !s.closed then s.(portable := Mirror(paused, s.db.policy)) else s
  }

  predicate HasPending(q: seq<Row>) {
    exists i :: 0 <= i < |q| && !q[i].confirmed
  }

  predicate MayImport(s: State, policy: Policy) {
    && !s.closed && !s.globalPaused && s.db.policy.rules == [] && policy.rules == []
    && (policy == s.db.policy || s.db.policy.revision == 0)
    && !s.storageError && s.flights == [] && !HasPending(s.db.queue)
  }

  function ImportPolicy(s: State, policy: Policy, saveOk: bool, mirrorOk: bool): State {
    if !MayImport(s, policy) then s
    else if !saveOk then s.(storageError := true)
    else if !mirrorOk then s.(db := s.db.(policy := policy), storageError := true)
    else s.(db := s.db.(policy := policy), portable := Mirror(s.globalPaused, policy))
  }

  // Opening.

  function RecoverRow(r: Row): Row {
    if !r.confirmed && r.inWrite then r.(attempts := r.attempts + 1, inWrite := false) else r
  }

  function RecoverRows(q: seq<Row>): (r: seq<Row>)
    ensures |r| == |q| && forall i :: 0 <= i < |q| ==> r[i] == RecoverRow(q[i])
  {
    if q == [] then [] else [RecoverRow(q[0])] + RecoverRows(q[1..])
  }

  function RecoverTotals(ts: seq<Total>, q: seq<Row>): (r: seq<Total>)
    ensures |r| == |ts|
    ensures forall i :: 0 <= i < |ts| ==>
              r[i] == ts[i].(retrying := ts[i].retrying + Sum(q, Interrupted(ts[i].target)))
  {
    if ts == [] then []
    else [ts[0].(retrying := ts[0].retrying + Sum(q, Interrupted(ts[0].target)))] + RecoverTotals(ts[1..], q)
  }

  /** The recovery transaction of the constructor. */
  function Recovered(db: Store): Store {
    db.(queue := RecoverRows(db.queue), totals := RecoverTotals(db.totals, db.queue))
  }

  /** The stored policy and the mirrored file disagree in a way that needs a review. */
  predicate Conflict(portable: Option<Policy>, policy: Policy) {
    && portable.Some?
    && (portable.value.revision > policy.revision
        || (portable.value.revision == policy.revision && portable.value != policy))
  }

  predicate Refused(s: State) {
    Conflict(s.portable, s.db.policy)
  }

  /** The process ends at any point, with nothing but the files kept, and the journal is constructed again. A
      construction that fails leaves a journal that does nothing. */
  function Reopen(s: State, mirrorOk: bool): State {
    var db := Recovered(s.db);
    var failed := Refused(s) || !mirrorOk;
    State(db, if failed then s.portable else Mirror(false, db.policy), [], 0, s.nextToken, "", false, false, failed,
          false, s.log)
  }

  /** The first construction, over an empty store and a policy file that may have been carried here. */
  function Created(portable: Option<Policy>): State {
    var policy := if portable.Some? then portable.value else Policy(0, []);
    State(Store([], [], {}, policy, [], 0), Mirror(false, policy), [], 0, 0, "", false, false, false, false, [])
  }

  // Runs.

  datatype Step =
    | DoAdmit(batch: seq<Submission>, admitOk: bool, mirrored: bool)
    | DoTryHead(target: string, room: nat, now: int, canReplay: bool)
    | DoBegin(token: nat, markOk: bool)
    | DoSucceed(token: nat, recordOk: bool)
    | DoFail(token: nat, at: int, delayOk: bool)
    | DoFinish(token: nat)
    | DoAcknowledge(ids: seq<string>)
    | DoAcknowledgeLegacy(key: string)
    | DoTrim
    | DoMoveCursor(name: string)
    | DoCommand(request: Request, actor: string, env: CommandEnv)
    | DoDrained
    | DoSetGlobalPaused(paused: bool, fileOk: bool)
    | DoFileArrived(flag: bool)
    | DoImport(policy: Policy, saveOk: bool, copyOk: bool)
    | DoFault
    | DoClose
    | DoReopen(mirrorOk: bool)

  function Next(limits: Limits, s: State, step: Step): State {
    match step
    case DoAdmit(batch, admitOk, mirrored) => Admit(limits, s, batch, admitOk, mirrored)
    case DoTryHead(target, room, now, canReplay) => TryHead(limits, s, target, room, now, canReplay)
    case DoBegin(token, markOk) => Begin(s, token, markOk)
    case DoSucceed(token, recordOk) => Succeed(s, token, recordOk)
    case DoFail(token, at, delayOk) => Fail(limits, s, token, at, delayOk)
    case DoFinish(token) => Finish(s, token)
    case DoAcknowledge(ids) => Drop(s, Acknowledged(s.db.queue, ids))
    case DoAcknowledgeLegacy(key) => Drop(s, AcknowledgedLegacy(s.db.queue, key))
    case DoTrim => Drop(s, Expired(s.db.queue))
    case DoMoveCursor(name) => s.(cursor := name)
    case DoCommand(request, actor, env) => Command(s, request, actor, env).0
    case DoDrained => s.(policyBusy := false)
    case DoSetGlobalPaused(paused, fileOk) => SetGlobalPaused(s, paused, fileOk)
    case DoFileArrived(flag) => FileArrived(s, flag)
    case DoImport(policy, saveOk, copyOk) => ImportPolicy(s, policy, saveOk, copyOk)
    case DoFault => s.(storageError := true)
    case DoClose => s.(closed := true)
    case DoReopen(mirrorOk) => Reopen(s, mirrorOk)
  }

  function Run(limits: Limits, s: State, steps: seq<Step>): State
    decreases |steps|
  {
    if steps == [] then s else Run(limits, Next(limits, s, steps[0]), steps[1..])
  }
}
