/** The command log: what it determines, and why a retried request is harmless. */
module JournalCommands {
  import opened Common
  import opened JournalModel
  import opened JournalPause

  ghost predicate PausedBy(commands: seq<Receipt>, id: string) {
    exists k :: 0 <= k < |commands| && commands[k].request.Pause? && commands[k].request.id == id
  }

  ghost predicate ResumedBy(commands: seq<Receipt>, id: string) {
    exists k :: 0 <= k < |commands| && commands[k].request.Resume? && commands[k].request.pauseId == id
  }

  ghost predicate InForce(rules: seq<Rule>, id: string) {
    exists k :: 0 <= k < |rules| && rules[k].id == id
  }

  /** The rule carries what its accepted pause asked for. */
  ghost predicate FromLog(commands: seq<Receipt>, rule: Rule) {
    exists k :: 0 <= k < |commands| && commands[k].actor == rule.actor
      && commands[k].request.Pause? && commands[k].request.id == rule.id
      && commands[k].request.selector == rule.selector && commands[k].request.reason == rule.reason
  }

  ghost predicate LogDistinct(db: Store) {
    && (forall i, j :: 0 <= i < j < |db.commands| ==> db.commands[i].request.id != db.commands[j].request.id)
    && (forall i, j :: 0 <= i < j < |db.policy.rules| ==> db.policy.rules[i].id != db.policy.rules[j].id)
  }

  /** The rules are exactly the accepted pauses that no accepted command has resumed. */
  ghost predicate RulesFollowLog(db: Store) {
    && (forall id: string :: InForce(db.policy.rules, id) <==> PausedBy(db.commands, id) && !ResumedBy(db.commands, id))
    && (forall id: string :: ResumedBy(db.commands, id) ==> PausedBy(db.commands, id))
    && (forall k :: 0 <= k < |db.policy.rules| ==> FromLog(db.commands, db.policy.rules[k]))
  }

  lemma LogAppend(commands: seq<Receipt>, c: Receipt, id: string)
    ensures PausedBy(commands + [c], id) <==> PausedBy(commands, id) || (c.request.Pause? && c.request.id == id)
    ensures ResumedBy(commands + [c], id) <==> ResumedBy(commands, id) || (c.request.Resume? && c.request.pauseId == id)
  {
    var more := commands + [c];
    assert more[|commands|] == c;
    if PausedBy(commands, id) {
      var k :| 0 <= k < |commands| && commands[k].request.Pause? && commands[k].request.id == id;
      assert more[k] == commands[k];
    }
    if ResumedBy(commands, id) {
      var k :| 0 <= k < |commands| && commands[k].request.Resume? && commands[k].request.pauseId == id;
      assert more[k] == commands[k];
    }
  }

  lemma FromLogAppend(commands: seq<Receipt>, c: Receipt, rule: Rule)
    requires FromLog(commands, rule)
    ensures FromLog(commands + [c], rule)
  {
    var k :| 0 <= k < |commands| && commands[k].actor == rule.actor
      && commands[k].request.Pause? && commands[k].request.id == rule.id
      && commands[k].request.selector == rule.selector && commands[k].request.reason == rule.reason;
    assert (commands + [c])[k] == commands[k];
  }

  lemma NewId(commands: seq<Receipt>, id: string)
    requires ReceiptFor(commands, id) == None
    ensures !PausedBy(commands, id)
    ensures forall k :: 0 <= k < |commands| ==> commands[k].request.id != id
  {
    forall k | 0 <= k < |commands| ensures commands[k].request.id != id {
      assert commands[k] in commands;
    }
  }

  lemma PauseFollows(db: Store, next: Store, c: Receipt, rule: Rule)
    requires LogDistinct(db) && RulesFollowLog(db) && ReceiptFor(db.commands, c.request.id) == None
    requires c.request.Pause? && rule.id == c.request.id && rule.selector == c.request.selector
    requires rule.reason == c.request.reason && rule.actor == c.actor
    requires next.commands == db.commands + [c] && next.policy.rules == db.policy.rules + [rule]
    ensures RulesFollowLog(next)
  {
    var rules, more := db.policy.rules, next.policy.rules;
    NewId(db.commands, rule.id);
    assert !InForce(rules, rule.id);
    forall id: string
      ensures InForce(more, id) <==> PausedBy(next.commands, id) && !ResumedBy(next.commands, id)
      ensures ResumedBy(next.commands, id) ==> PausedBy(next.commands, id)
    {
      LogAppend(db.commands, c, id);
      assert more[|rules|] == rule;
      if InForce(rules, id) {
        var k :| 0 <= k < |rules| && rules[k].id == id;
        assert more[k].id == id;
      }
      assert ResumedBy(db.commands, id) ==> PausedBy(db.commands, id);
    }
    forall k | 0 <= k < |more| ensures FromLog(next.commands, more[k]) {
      if k < |rules| {
        FromLogAppend(db.commands, c, rules[k]);
      } else {
        assert next.commands[|db.commands|] == c;
      }
    }
  }

  lemma ResumeFollows(db: Store, next: Store, c: Receipt, at: nat)
    requires LogDistinct(db) && RulesFollowLog(db) && ReceiptFor(db.commands, c.request.id) == None
    requires c.request.Resume? && at < |db.policy.rules| && db.policy.rules[at].id == c.request.pauseId
    requires next.commands == db.commands + [c]
    requires next.policy.rules == db.policy.rules[..at] + db.policy.rules[at + 1..]
    ensures RulesFollowLog(next)
  {
    var rules, rest := db.policy.rules, next.policy.rules;
    NewId(db.commands, c.request.id);
    RemovedRule(rules, at);
    assert InForce(rules, rules[at].id);
    forall id: string
      ensures InForce(rest, id) <==> PausedBy(next.commands, id) && !ResumedBy(next.commands, id)
      ensures ResumedBy(next.commands, id) ==> PausedBy(next.commands, id)
    {
      LogAppend(db.commands, c, id);
      assert ResumedBy(db.commands, id) ==> PausedBy(db.commands, id);
    }
    forall k | 0 <= k < |rest| ensures FromLog(next.commands, rest[k]) {
      assert rest[k] == rules[if k < at then k else k + 1];
      FromLogAppend(db.commands, c, rest[k]);
    }
  }

  /** Taking out a rule with a unique id takes out that id only. */
  lemma RemovedRule(rules: seq<Rule>, at: nat)
    requires at < |rules| && forall i, j :: 0 <= i < j < |rules| ==> rules[i].id != rules[j].id
    ensures var rest := rules[..at] + rules[at + 1..];
            && (forall id: string :: InForce(rest, id) <==> InForce(rules, id) && id != rules[at].id)
            && (forall i, j :: 0 <= i < j < |rest| ==> rest[i].id != rest[j].id)
  {
    var rest := rules[..at] + rules[at + 1..];
    assert forall k :: 0 <= k < |rest| ==> rest[k] == rules[if k < at then k else k + 1];
    forall id: string | InForce(rules, id) && id != rules[at].id ensures InForce(rest, id) {
      var k :| 0 <= k < |rules| && rules[k].id == id;
      assert rest[if k < at then k else k - 1].id == id;
    }
  }

  lemma ExecuteDistinct(s: State, request: Request, actor: string, env: CommandEnv)
    requires LogDistinct(s.db) && ReceiptFor(s.db.commands, request.id) == None
    requires !InForce(s.db.policy.rules, request.id)
    ensures LogDistinct(Execute(s, request, actor, env).0.db)
  {
    ExecuteLogs(s, request, actor, env);
    NewId(s.db.commands, request.id);
    if request.Resume? && Execute(s, request, actor, env).0.db != s.db {
      RemovedRule(s.db.policy.rules, RuleAt(s.db.policy.rules, request.pauseId).value);
    }
  }

  lemma ExecuteFollows(s: State, request: Request, actor: string, env: CommandEnv)
    requires LogDistinct(s.db) && RulesFollowLog(s.db) && ReceiptFor(s.db.commands, request.id) == None
    ensures LogDistinct(Execute(s, request, actor, env).0.db) && RulesFollowLog(Execute(s, request, actor, env).0.db)
  {
    var next := Execute(s, request, actor, env).0;
    ExecuteLogs(s, request, actor, env);
    NewId(s.db.commands, request.id);
    ExecuteDistinct(s, request, actor, env);
    if next.db != s.db {
      var c := next.db.commands[|s.db.commands|];
      if request.Pause? {
        PauseFollows(s.db, next.db, c, next.db.policy.rules[|s.db.policy.rules|]);
      } else {
        ResumeFollows(s.db, next.db, c, RuleAt(s.db.policy.rules, request.pauseId).value);
      }
    }
  }

  /** An executed command changes the store by recording itself and its rules together, one revision further. */
  lemma ExecuteLogs(s: State, request: Request, actor: string, env: CommandEnv)
    ensures var next := Execute(s, request, actor, env).0.db;
            next != s.db ==>
              && next.commands == s.db.commands + [Receipt(request, actor, ResponseTo(s, request, actor))]
              && next.policy.revision == s.db.policy.revision + 1
              && var rules := s.db.policy.rules;
                 match request
                 case Pause(id, _, selector, reason) =>
                   next.policy.rules == rules + [Rule(id, selector, reason, actor, Evaluate(selector, s.db.observations))]
                 case Resume(_, _, pauseId, _, _) =>
                   var at := RuleAt(rules, pauseId);
                   at.Some? && next.policy.rules == rules[..at.value] + rules[at.value + 1..]
  {
  }

  /** Observation changes the tables of rules only. */
  ghost predicate SameRules(a: seq<Rule>, b: seq<Rule>) {
    |a| == |b| && forall k :: 0 <= k < |a| ==> a[k].(tables := {}) == b[k].(tables := {})
  }

  lemma {:induction false} AdmitAllRules(limits: Limits, db: Store, batch: seq<Submission>)
    ensures var next := AdmitAll(limits, db, batch);
            next.Some? ==>
              && SameRules(db.policy.rules, next.value.policy.rules)
              && next.value.policy.revision == db.policy.revision && next.value.commands == db.commands
    decreases |batch|
  {
    if batch != [] {
      var one := AdmitOne(limits, db, batch[0]);
      if one.Some? {
        assert SameRules(db.policy.rules, one.value.policy.rules);
        AdmitAllRules(limits, one.value, batch[1..]);
      }
    }
  }

  lemma SameRulesFollow(db: Store, next: Store)
    requires LogDistinct(db) && RulesFollowLog(db)
    requires SameRules(db.policy.rules, next.policy.rules) && next.commands == db.commands
    ensures LogDistinct(next) && RulesFollowLog(next)
  {
    var rules, more := db.policy.rules, next.policy.rules;
    assert forall k :: 0 <= k < |rules| ==>
      rules[k].id == more[k].id && rules[k].selector == more[k].selector
      && rules[k].reason == more[k].reason && rules[k].actor == more[k].actor;
    forall id: string
      ensures InForce(more, id) <==> PausedBy(next.commands, id) && !ResumedBy(next.commands, id)
    {
      if InForce(rules, id) {
        var k :| 0 <= k < |rules| && rules[k].id == id;
        assert more[k].id == id;
      }
      assert InForce(rules, id) <==> PausedBy(db.commands, id) && !ResumedBy(db.commands, id);
    }
    forall k | 0 <= k < |more| ensures FromLog(next.commands, more[k]) {
      assert FromLog(db.commands, rules[k]);
    }
  }

  lemma CommandFollows(s: State, request: Request, actor: string, env: CommandEnv)
    requires LogDistinct(s.db) && RulesFollowLog(s.db)
    ensures LogDistinct(Command(s, request, actor, env).0.db) && RulesFollowLog(Command(s, request, actor, env).0.db)
  {
    if ReceiptFor(s.db.commands, request.id).None? {
      ExecuteFollows(Probed(s, env), request, actor, env);
    }
  }

  lemma OtherFollows(limits: Limits, s: State, step: Step)
    requires LogDistinct(s.db) && RulesFollowLog(s.db)
    requires !step.DoAdmit? && !step.DoCommand? && !step.DoImport?
    ensures LogDistinct(Next(limits, s, step).db) && RulesFollowLog(Next(limits, s, step).db)
  {
    PolicyFrame(limits, s, step);
    SameRulesFollow(s.db, Next(limits, s, step).db);
  }

  lemma NextFollows(limits: Limits, s: State, step: Step)
    requires LogDistinct(s.db) && RulesFollowLog(s.db)
    ensures LogDistinct(Next(limits, s, step).db) && RulesFollowLog(Next(limits, s, step).db)
  {
    match step
    case DoCommand(request, actor, env) => CommandFollows(s, request, actor, env);
    case DoAdmit(batch, _, _) =>
      AdmitAllRules(limits, s.db, batch);
      SameRulesFollow(s.db, Next(limits, s, step).db);
    case DoImport(_, _, _) => SameRulesFollow(s.db, Next(limits, s, step).db);
    case _ => OtherFollows(limits, s, step);
  }

  /** In every run from an empty journal the rules in force are the accepted pauses not yet resumed. */
  lemma {:induction false} RunFollows(limits: Limits, s: State, steps: seq<Step>)
    requires LogDistinct(s.db) && RulesFollowLog(s.db)
    ensures LogDistinct(Run(limits, s, steps).db) && RulesFollowLog(Run(limits, s, steps).db)
    decreases |steps|
  {
    if steps != [] {
      NextFollows(limits, s, steps[0]);
      RunFollows(limits, Next(limits, s, steps[0]), steps[1..]);
    }
  }

  // Revisions and retries.

  lemma CommandLogs(s: State, request: Request, actor: string, env: CommandEnv)
    ensures var next := Command(s, request, actor, env).0.db;
            && s.db.commands <= next.commands
            && next.policy.revision - s.db.policy.revision == |next.commands| - |s.db.commands|
  {
    ExecuteLogs(Probed(s, env), request, actor, env);
  }

  lemma NextLogs(limits: Limits, s: State, step: Step)
    ensures var next := Next(limits, s, step).db;
            && s.db.commands <= next.commands
            && (!step.DoImport? ==>
                  next.policy.revision - s.db.policy.revision == |next.commands| - |s.db.commands|)
  {
    match step
    case DoCommand(request, actor, env) => CommandLogs(s, request, actor, env);
    case DoAdmit(batch, _, _) => AdmitAllRules(limits, s.db, batch);
    case DoImport(_, _, _) =>
    case _ => PolicyFrame(limits, s, step);
  }

  /** Between policy imports the revision counts the accepted commands, and nothing is ever taken out of the log. */
  lemma {:induction false} RevisionCountsCommands(limits: Limits, s: State, steps: seq<Step>)
    ensures s.db.commands <= Run(limits, s, steps).db.commands
    ensures (forall i :: 0 <= i < |steps| ==> !steps[i].DoImport?) ==>
              var next := Run(limits, s, steps).db;
              next.policy.revision == s.db.policy.revision + |next.commands| - |s.db.commands|
    decreases |steps|
  {
    if steps != [] {
      NextLogs(limits, s, steps[0]);
      RevisionCountsCommands(limits, Next(limits, s, steps[0]), steps[1..]);
    }
  }

  lemma {:induction false} ReceiptForPrefix(commands: seq<Receipt>, more: seq<Receipt>, id: string)
    requires commands <= more && ReceiptFor(commands, id).Some?
    ensures ReceiptFor(more, id) == ReceiptFor(commands, id)
  {
    if commands[0].request.id != id {
      assert commands[1..] <= more[1..];
      ReceiptForPrefix(commands[1..], more[1..], id);
    }
  }

  /** Once a request is recorded, retrying it after any further run, crashes included, can only return the recorded
      response or be turned away; the store is not touched and no second operation takes place. */
  lemma RetryIsHarmless(
    limits: Limits, s: State, steps: seq<Step>, request: Request, actor: string, receipt: Receipt, env: CommandEnv)
    requires ReceiptFor(s.db.commands, request.id) == Some(receipt)
    ensures var later := Run(limits, s, steps);
            var (next, reply) := Command(later, request, actor, env);
            && next.db == later.db
            && (reply.Recorded? ==> reply.recorded == receipt.response)
            && !reply.Accepted?
            && ((receipt.request == request && receipt.actor == actor && actor != "" && Utf16Length(actor) <= 200
                 && !later.closed && !later.storageError) ==> reply == Recorded(receipt.response))
  {
    RevisionCountsCommands(limits, s, steps);
    ReceiptForPrefix(s.db.commands, Run(limits, s, steps).db.commands, request.id);
  }

  /** The receipt and the policy commit together: whatever the reply says, either both are stored or neither is. */
  lemma CommandIsAtomic(s: State, request: Request, actor: string, env: CommandEnv)
    ensures var (next, reply) := Command(s, request, actor, env);
            && (reply.Accepted? ==> next.db != s.db)
            && (next.db != s.db ==>
                  && next.db.policy.revision == s.db.policy.revision + 1
                  && (ReceiptFor(next.db.commands, request.id) ==
                        Some(Receipt(request, actor, ResponseTo(s, request, actor)))))
  {
    hide Execute, ReceiptFor;
    if ReceiptFor(s.db.commands, request.id).None? {
      ExecuteIsAtomic(Probed(s, env), request, actor, env);
    }
  }

  lemma ExecuteIsAtomic(s: State, request: Request, actor: string, env: CommandEnv)
    requires ReceiptFor(s.db.commands, request.id).None?
    ensures var (next, reply) := Execute(s, request, actor, env);
            && (reply.Accepted? ==> next.db != s.db)
            && (next.db != s.db ==>
                  && next.db.policy.revision == s.db.policy.revision + 1
                  && (ReceiptFor(next.db.commands, request.id) ==
                        Some(Receipt(request, actor, ResponseTo(s, request, actor)))))
  {
    ExecuteLogs(s, request, actor, env);
    ReceiptForNew(s.db.commands, Receipt(request, actor, ResponseTo(s, request, actor)));
  }

  lemma {:induction false} ReceiptForNew(commands: seq<Receipt>, c: Receipt)
    requires ReceiptFor(commands, c.request.id).None?
    ensures ReceiptFor(commands + [c], c.request.id) == Some(c)
  {
    if commands != [] {
      assert (commands + [c])[1..] == commands[1..] + [c];
      ReceiptForNew(commands[1..], c);
    }
  }
}
