/** Pauses: a barrier for writes, ended only by resuming the last covering rule, and closed under observation. */
module JournalPause {
  import opened Common
  import opened JournalRows
  import opened JournalModel
  import opened JournalInvariant
  import TopicFilters

  /** Tokens of installed flights of a target: the only ones that can still reach the destination. */
  ghost function Waiting(s: State, target: string): set<nat> {
    set i | 0 <= i < |s.flights| && s.flights[i].row.target == target && s.flights[i].phase.Installed?
      :: s.flights[i].token
  }

  /** What the destination is handed for the target in the log from position `from` on. */
  ghost predicate HandedOnlyFrom(log: seq<Event>, from: nat, target: string, tokens: set<nat>) {
    forall k :: from <= k < |log| && log[k].Handed? && log[k].target == target ==> log[k].token in tokens
  }

  lemma {:induction false} StartRowsFlights(limits: Limits, s: State, rows: seq<Row>, now: int, room: nat)
    ensures var next := StartRows(limits, s, rows, now, room);
            && s.flights <= next.flights && next.log == s.log
            && forall j :: |s.flights| <= j < |next.flights| ==> next.flights[j].row in rows
    decreases |rows|
  {
    if rows != [] {
      if InFlight(s.flights, rows[0].id) {
        StartRowsFlights(limits, s, rows[1..], now, room);
      } else if !MustWait(limits, s, rows[0], now, room) {
        var s1 := Launch(s, rows[0]);
        StartRowsFlights(limits, s1, rows[1..], now, room - 1);
        var next := StartRows(limits, s1, rows[1..], now, room - 1);
        assert next.flights[|s.flights|] == s1.flights[|s.flights|];
      }
    }
  }

  lemma TryHeadBarred(limits: Limits, s: State, name: string, room: nat, now: int, canReplay: bool, target: string)
    requires IsPaused(s.db.policy, target)
    ensures Waiting(TryHead(limits, s, name, room, now, canReplay), target) <= Waiting(s, target)
    ensures TryHead(limits, s, name, room, now, canReplay).log == s.log
  {
    if MayWrite(s, name, canReplay) {
      StartRowsFlights(limits, s, Window(s.db.queue, name), now, room);
      WindowMembers(s.db.queue, name);
      var next := TryHead(limits, s, name, room, now, canReplay);
      forall token | token in Waiting(next, target) ensures token in Waiting(s, target) {
        var i :| 0 <= i < |next.flights| && next.flights[i].row.target == target
                 && next.flights[i].phase.Installed? && next.flights[i].token == token;
        assert i < |s.flights|;
        assert next.flights[i] == s.flights[i];
      }
    }
  }

  lemma PhaseBarred(s: State, next: State, i: nat, phase: Phase, target: string)
    requires i < |s.flights| && !phase.Installed? && next.flights == SetPhase(s.flights, i, phase)
    ensures Waiting(next, target) <= Waiting(s, target)
  {
  }

  lemma FinishBarred(s: State, token: nat, target: string)
    ensures Waiting(Finish(s, token), target) <= Waiting(s, target)
  {
    var c := Current(s, token, Settled);
    if c.Some? {
      var rest := Finish(s, token).flights;
      assert forall j :: 0 <= j < |rest| ==> rest[j] == if j < c.value then s.flights[j] else s.flights[j + 1];
    }
  }

  ghost predicate Barred(s: State, next: State, target: string) {
    && Waiting(next, target) <= Waiting(s, target)
    && s.log <= next.log
    && HandedOnlyFrom(next.log, |s.log|, target, Waiting(s, target))
  }

  lemma BeginBarred(s: State, token: nat, sqliteOk: bool, target: string)
    ensures Barred(s, Begin(s, token, sqliteOk), target)
  {
    var c := Current(s, token, Installed);
    if c.Some? {
      PhaseBarred(s, Begin(s, token, sqliteOk), c.value, if sqliteOk then Writing else Settled, target);
    }
  }

  lemma SettleBarred(limits: Limits, s: State, token: nat, now: int, sqliteOk: bool, target: string)
    ensures Barred(s, Succeed(s, token, sqliteOk), target)
    ensures Barred(s, Fail(limits, s, token, now, sqliteOk), target)
  {
    var c := Current(s, token, Writing);
    if c.Some? {
      PhaseBarred(s, Succeed(s, token, sqliteOk), c.value, Settled, target);
      PhaseBarred(s, Fail(limits, s, token, now, sqliteOk), c.value, Settled, target);
    }
  }

  /** One step from a state in which the target is paused: no installed flight is added, and whatever is handed
      over was installed before. */
  lemma NextBarred(limits: Limits, s: State, step: Step, target: string)
    requires IsPaused(s.db.policy, target)
    ensures Barred(s, Next(limits, s, step), target)
  {
    match step
    case DoTryHead(name, room, now, canReplay) => TryHeadBarred(limits, s, name, room, now, canReplay, target);
    case DoBegin(token, markOk) => BeginBarred(s, token, markOk, target);
    case DoSucceed(token, recordOk) => SettleBarred(limits, s, token, 0, recordOk, target);
    case DoFail(token, at, delayOk) => SettleBarred(limits, s, token, at, delayOk, target);
    case DoFinish(token) => FinishBarred(s, token, target);
    case DoCommand(request, actor, env) => CommandFrame(s, request, actor, env);
    case _ =>
  }

  // The end of a pause.

  lemma {:induction false} AdmitAllPolicy(limits: Limits, db: Store, batch: seq<Submission>, target: string)
    requires IsPaused(db.policy, target)
    ensures var next := AdmitAll(limits, db, batch);
            next.Some? ==> IsPaused(next.value.policy, target)
    decreases |batch|
  {
    if batch != [] {
      var next := AdmitOne(limits, db, batch[0]);
      if next.Some? {
        var i :| 0 <= i < |db.policy.rules| && target in db.policy.rules[i].tables;
        assert |next.value.policy.rules| == |db.policy.rules| && target in next.value.policy.rules[i].tables;
        AdmitAllPolicy(limits, next.value, batch[1..], target);
      }
    }
  }

  /** The command takes away exactly this rule, and no other rule covers the target. */
  ghost predicate ResumesLastCover(s: State, step: Step, target: string) {
    && step.DoCommand? && step.request.Resume?
    && var rules, i := s.db.policy.rules, RuleAt(s.db.policy.rules, step.request.pauseId);
       && i.Some? && target in rules[i.value].tables
       && forall k :: 0 <= k < |rules| && k != i.value ==> target !in rules[k].tables
  }

  /** What a command can do to the rules. */
  lemma ExecuteRules(s: State, request: Request, actor: string, env: CommandEnv)
    ensures var rules, next := s.db.policy.rules, Execute(s, request, actor, env).0.db.policy.rules;
            next != rules ==>
              match request
              case Pause(id, _, selector, reason) =>
                next == rules + [Rule(id, selector, reason, actor, Evaluate(selector, s.db.observations))]
              case Resume(_, _, pauseId, _, _) =>
                var at := RuleAt(rules, pauseId);
                at.Some? && next == rules[..at.value] + rules[at.value + 1..]
  {
  }

  lemma MorePauses(rules: seq<Rule>, next: seq<Rule>, target: string)
    requires rules <= next && IsPaused(Policy(0, rules), target)
    ensures IsPaused(Policy(0, next), target)
  {
    var i :| 0 <= i < |rules| && target in rules[i].tables;
    assert next[i] == rules[i];
  }

  lemma ExecuteEndsPause(s: State, request: Request, actor: string, env: CommandEnv, target: string)
    requires IsPaused(s.db.policy, target)
    requires !IsPaused(Execute(s, request, actor, env).0.db.policy, target)
    ensures ResumesLastCover(s, DoCommand(request, actor, env), target)
  {
    var rules := s.db.policy.rules;
    var next := Execute(s, request, actor, env).0.db.policy.rules;
    ExecuteRules(s, request, actor, env);
    if request.Pause? {
      MorePauses(rules, next, target);
    } else {
      var at := RuleAt(rules, request.pauseId);
      assert at.Some? && next == rules[..at.value] + rules[at.value + 1..];
      forall k | 0 <= k < |rules| && k != at.value ensures target !in rules[k].tables {
        assert rules[k] == if k < at.value then next[k] else next[k - 1];
      }
    }
  }

  /** Over all steps, reopening included, a table stops being paused only when its last covering rule is resumed. */
  lemma PauseEndsOnlyByResume(limits: Limits, s: State, step: Step, target: string)
    requires IsPaused(s.db.policy, target) && !IsPaused(Next(limits, s, step).db.policy, target)
    ensures ResumesLastCover(s, step, target)
  {
    match step
    case DoAdmit(batch, _, _) => AdmitAllPolicy(limits, s.db, batch, target);
    case DoTryHead(name, room, now, _) => StartRowsDb(limits, s, Window(s.db.queue, name), now, room);
    case DoCommand(request, actor, env) => ExecuteEndsPause(Probed(s, env), request, actor, env, target);
    case _ =>
  }

  /** Only admission, commands and imports touch what the pause rules depend on. */
  lemma PolicyFrame(limits: Limits, s: State, step: Step)
    requires !step.DoAdmit? && !step.DoCommand? && !step.DoImport?
    ensures var next := Next(limits, s, step).db;
            next.policy == s.db.policy && next.commands == s.db.commands && next.observations == s.db.observations
  {
    if step.DoTryHead? {
      StartRowsDb(limits, s, Window(s.db.queue, step.target), step.now, step.room);
    }
  }

  /** No step of the run resumes the last rule that covers the target. */
  ghost predicate NeverUncovered(limits: Limits, s: State, steps: seq<Step>, target: string)
    decreases |steps|
  {
    steps != [] ==>
      && !ResumesLastCover(s, steps[0], target)
      && NeverUncovered(limits, Next(limits, s, steps[0]), steps[1..], target)
  }

  /** The barrier: once a table is paused, and until its last covering rule is resumed, it stays paused and the only
      writes handed to the destination are those installed at that moment, whatever is submitted, replayed, failed,
      restarted or commanded meanwhile. */
  lemma {:induction false} PauseBarrier(limits: Limits, s: State, steps: seq<Step>, target: string)
    requires IsPaused(s.db.policy, target) && NeverUncovered(limits, s, steps, target)
    ensures var next := Run(limits, s, steps);
            IsPaused(next.db.policy, target) && Barred(s, next, target)
    decreases |steps|
  {
    if steps != [] {
      var s1 := Next(limits, s, steps[0]);
      NextBarred(limits, s, steps[0], target);
      if !IsPaused(s1.db.policy, target) {
        PauseEndsOnlyByResume(limits, s, steps[0], target);
      }
      PauseBarrier(limits, s1, steps[1..], target);
      var next := Run(limits, s1, steps[1..]);
      forall k | |s.log| <= k < |next.log| && next.log[k].Handed? && next.log[k].target == target
        ensures next.log[k].token in Waiting(s, target)
      {
        if k < |s1.log| {
          assert next.log[k] == s1.log[k];
        }
      }
    }
  }

  // Closure of branch pauses.

  /** The cached tables of a rule are what its selector stands for. */
  predicate IsEvaluated(rule: Rule, observations: set<(string, string)>) {
    rule.tables == Evaluate(rule.selector, observations)
  }

  /** What a rule that was carried here has become: a filter adds what it stands for under the observations made since. */
  function Grown(rule: Rule, observations: set<(string, string)>): Rule {
    if rule.selector.TopicFilter? then rule.(tables := rule.tables + Evaluate(rule.selector, observations)) else rule
  }

  ghost predicate IsGrown(rule: Rule, carried: seq<Rule>, observations: set<(string, string)>) {
    exists c :: c in carried && rule == Grown(c, observations)
  }

  /** Every rule is one or the other. */
  ghost predicate Closed(db: Store, carried: seq<Rule>) {
    forall i :: 0 <= i < |db.policy.rules| ==>
      IsEvaluated(db.policy.rules[i], db.observations) || IsGrown(db.policy.rules[i], carried, db.observations)
  }

  lemma ExtendedRule(rule: Rule, carried: seq<Rule>, observations: set<(string, string)>, topic: string, target: string)
    requires IsEvaluated(rule, observations) || IsGrown(rule, carried, observations)
    ensures var next, seen := ExtendRule(rule, topic, target), observations + {(topic, target)};
            IsEvaluated(next, seen) || IsGrown(next, carried, seen)
  {
    var next, seen := ExtendRule(rule, topic, target), observations + {(topic, target)};
    if rule.selector.TopicFilter? {
      EvaluateObserved(rule.selector.filter, observations, topic, target);
    }
    if !IsEvaluated(rule, observations) {
      var c :| c in carried && rule == Grown(c, observations);
      assert next.tables == Grown(c, seen).tables;
      assert next == Grown(c, seen);
    }
  }

  lemma ObserveClosed(db: Store, carried: seq<Rule>, topic: string, target: string)
    requires Closed(db, carried)
    ensures var next := Observe(db, topic, target);
            next.Some? ==> && Closed(next.value, carried)
                           && next.value.observations == db.observations + {(topic, target)}
  {
    var seen := db.observations + {(topic, target)};
    assert (topic, target) in db.observations ==> seen == db.observations;
    forall i | 0 <= i < |db.policy.rules|
      ensures var next := ExtendRule(db.policy.rules[i], topic, target);
              IsEvaluated(next, seen) || IsGrown(next, carried, seen)
    {
      ExtendedRule(db.policy.rules[i], carried, db.observations, topic, target);
    }
  }

  lemma EvaluateObserved(filter: string, observations: set<(string, string)>, topic: string, target: string)
    ensures Evaluate(TopicFilter(filter), observations + {(topic, target)})
         == Evaluate(TopicFilter(filter), observations)
            + if TopicFilters.Matches(filter, topic) then {target} else {}
  {
    var more := observations + {(topic, target)};
    if TopicFilters.Matches(filter, topic) {
      assert (topic, target) in more;
      assert target in Evaluate(TopicFilter(filter), more);
    }
    forall t | t in Evaluate(TopicFilter(filter), observations) ensures t in Evaluate(TopicFilter(filter), more) {
      var o :| o in observations && TopicFilters.Matches(filter, o.0) && o.1 == t;
      assert o in more;
    }
  }

  ghost function Observed(batch: seq<Submission>): set<(string, string)> {
    set s | s in batch :: (s.entry.topic, s.entry.table)
  }

  /** Admission observes every entry, keeps the rules closed, and so pauses a newly matching table at once. */
  lemma {:induction false} AdmitAllClosed(limits: Limits, db: Store, carried: seq<Rule>, batch: seq<Submission>)
    requires Closed(db, carried)
    ensures var next := AdmitAll(limits, db, batch);
            next.Some? ==> Closed(next.value, carried) && next.value.observations == db.observations + Observed(batch)
    decreases |batch|
  {
    if batch != [] {
      ObserveClosed(db, carried, batch[0].entry.topic, batch[0].entry.table);
      var next := AdmitOne(limits, db, batch[0]);
      if next.Some? {
        AdmitAllClosed(limits, next.value, carried, batch[1..]);
        assert Observed(batch) == {(batch[0].entry.topic, batch[0].entry.table)} + Observed(batch[1..]) by {
          assert batch == [batch[0]] + batch[1..];
        }
      }
    }
  }

  lemma ExecuteClosed(s: State, carried: seq<Rule>, request: Request, actor: string, env: CommandEnv)
    requires Closed(s.db, carried)
    ensures Closed(Execute(s, request, actor, env).0.db, carried)
  {
    var rules, next := s.db.policy.rules, Execute(s, request, actor, env).0.db;
    ExecuteRules(s, request, actor, env);
    if next.policy.rules != rules && request.Resume? {
      var at := RuleAt(rules, request.pauseId);
      assert at.Some? && next.policy.rules == rules[..at.value] + rules[at.value + 1..];
      forall k | 0 <= k < |next.policy.rules| ensures next.policy.rules[k] == rules[if k < at.value then k else k + 1] {
      }
    }
  }

  lemma NextClosed(limits: Limits, s: State, carried: seq<Rule>, step: Step)
    requires Closed(s.db, carried)
    ensures Closed(Next(limits, s, step).db, carried)
  {
    match step
    case DoAdmit(batch, _, _) => AdmitAllClosed(limits, s.db, carried, batch);
    case DoCommand(request, actor, env) => ExecuteClosed(Probed(s, env), carried, request, actor, env);
    case DoImport(_, _, _) =>
    case _ => PolicyFrame(limits, s, step);
  }

  lemma {:induction false} RunClosed(limits: Limits, s: State, carried: seq<Rule>, steps: seq<Step>)
    requires Closed(s.db, carried)
    ensures Closed(Run(limits, s, steps).db, carried)
    decreases |steps|
  {
    if steps != [] {
      NextClosed(limits, s, carried, steps[0]);
      RunClosed(limits, Next(limits, s, steps[0]), carried, steps[1..]);
    }
  }

  function CarriedRules(portable: Option<Policy>): seq<Rule> {
    if portable.Some? then portable.value.rules else []
  }

  /** The filter matches a topic that was ever observed for the table. */
  ghost predicate WasObserved(filter: string, target: string, observations: set<(string, string)>) {
    exists o :: o in observations && o.1 == target && TopicFilters.Matches(filter, o.0)
  }

  /** The simple definition: the rule names the table, or its filter matches a topic observed for it. */
  ghost predicate Names(rule: Rule, target: string, observations: set<(string, string)>) {
    match rule.selector
    case Tables(tables) => target in tables
    case TopicFilter(filter) => WasObserved(filter, target, observations)
  }

  /** A rule covers the table by its own selector, or as it was carried here, or by what its filter has met since. */
  ghost predicate Covers(rule: Rule, carried: seq<Rule>, target: string, observations: set<(string, string)>) {
    || (IsEvaluated(rule, observations) && Names(rule, target, observations))
    || exists c :: c in carried && rule == Grown(c, observations)
                   && (target in c.tables || (c.selector.TopicFilter? && Names(c, target, observations)))
  }

  lemma CoversExactly(rule: Rule, carried: seq<Rule>, target: string, observations: set<(string, string)>)
    requires IsEvaluated(rule, observations) || IsGrown(rule, carried, observations)
    ensures Covers(rule, carried, target, observations) <==> target in rule.tables
  {
    if target in rule.tables && !IsEvaluated(rule, observations) {
      var c :| c in carried && rule == Grown(c, observations);
    }
  }

  /** isPaused decides that definition in every run, from any policy that was carried here. */
  lemma PausedMeans(limits: Limits, portable: Option<Policy>, steps: seq<Step>, target: string)
    ensures var db := Run(limits, Created(portable), steps).db;
            IsPaused(db.policy, target) <==>
              exists i :: 0 <= i < |db.policy.rules|
                          && Covers(db.policy.rules[i], CarriedRules(portable), target, db.observations)
  {
    var carried, db := CarriedRules(portable), Run(limits, Created(portable), steps).db;
    CarriedClosed(portable);
    RunClosed(limits, Created(portable), carried, steps);
    forall i | 0 <= i < |db.policy.rules|
      ensures Covers(db.policy.rules[i], carried, target, db.observations) <==> target in db.policy.rules[i].tables
    {
      CoversExactly(db.policy.rules[i], carried, target, db.observations);
    }
  }

  lemma CarriedClosed(portable: Option<Policy>)
    ensures Closed(Created(portable).db, CarriedRules(portable))
  {
    var rules := CarriedRules(portable);
    forall i | 0 <= i < |rules| ensures IsGrown(rules[i], rules, {}) {
      assert rules[i] in rules;
      assert rules[i].selector.TopicFilter? ==> Evaluate(rules[i].selector, {}) == {};
      assert Grown(rules[i], {}) == rules[i];
    }
  }
}
