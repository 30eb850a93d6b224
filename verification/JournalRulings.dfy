/** How a pause command is answered, said of rules, flights and rows. */
module JournalRulings {
  import opened Common
  import opened JournalRows
  import opened JournalModel
  import opened JournalInvariant
  import opened JournalPause
  import opened JournalBoundary

  // The policy document stays within its limits.

  lemma {:induction false} AdmitAllInSchema(limits: Limits, db: Store, batch: seq<Submission>)
    requires InSchema(db.policy)
    ensures var next := AdmitAll(limits, db, batch);
            next.Some? ==> InSchema(next.value.policy)
    decreases |batch|
  {
    if batch != [] {
      var next := AdmitOne(limits, db, batch[0]);
      if next.Some? {
        AdmitAllInSchema(limits, next.value, batch[1..]);
      }
    }
  }

  lemma FewerRulesInSchema(rules: seq<Rule>, i: nat)
    requires i < |rules| && InSchema(Policy(0, rules))
    ensures InSchema(Policy(0, rules[..i] + rules[i + 1..]))
  {
    var rest := rules[..i] + rules[i + 1..];
    assert forall k :: 0 <= k < |rest| ==> rest[k] == rules[if k < i then k else k + 1];
  }

  lemma MoreRulesInSchema(rules: seq<Rule>, rule: Rule)
    requires InSchema(Policy(0, rules))
    ensures InSchema(Policy(0, rules + [rule])) <==> |rules| < 64 && |rule.tables| <= 10000
  {
    assert (rules + [rule])[|rules|] == rule;
  }

  lemma ExecuteInSchema(s: State, request: Request, actor: string, env: CommandEnv)
    requires InSchema(s.db.policy)
    ensures InSchema(Execute(s, request, actor, env).0.db.policy)
  {
  }

  lemma NextInSchema(limits: Limits, s: State, step: Step)
    requires InSchema(s.db.policy)
    ensures InSchema(Next(limits, s, step).db.policy)
  {
    match step
    case DoAdmit(batch, _, _) => AdmitAllInSchema(limits, s.db, batch);
    case DoCommand(request, actor, env) => ExecuteInSchema(Probed(s, env), request, actor, env);
    case DoImport(_, _, _) =>
    case _ => PolicyFrame(limits, s, step);
  }

  /** In every run the stored policy document has at most 64 rules of at most 10000 tables, if the carried one had. */
  lemma {:induction false} RunInSchema(limits: Limits, s: State, steps: seq<Step>)
    requires InSchema(s.db.policy)
    ensures InSchema(Run(limits, s, steps).db.policy)
    decreases |steps|
  {
    if steps != [] {
      NextInSchema(limits, s, steps[0]);
      RunInSchema(limits, Next(limits, s, steps[0]), steps[1..]);
    }
  }

  // The boundary.

  /** A write to a covered table is installed or running. */
  ghost predicate WritesCovered(s: State) {
    exists i :: 0 <= i < |s.flights| && IsPaused(s.db.policy, s.flights[i].row.target)
  }

  /** A covered table has a pending row whose write was attempted before. */
  ghost predicate OutcomeUnknown(s: State) {
    exists r :: CoveredPending(s, r) && r.attempts > 0
  }

  ghost function CoveredPlaces(s: State): set<nat> {
    set i | 0 <= i < |s.flights| && IsPaused(s.db.policy, s.flights[i].row.target)
  }

  ghost function CoveredBelow(policy: Policy, flights: seq<Flight>, n: nat): set<nat>
    requires n <= |flights|
  {
    set i | |flights| - n <= i < |flights| && IsPaused(policy, flights[i].row.target)
  }

  lemma {:induction false} CoveredCount(policy: Policy, flights: seq<Flight>, n: nat)
    requires n <= |flights|
    ensures CoveredFlights(policy, flights[|flights| - n..]) == |CoveredBelow(policy, flights, n)|
  {
    if n > 0 {
      var i := |flights| - n;
      CoveredCount(policy, flights, n - 1);
      assert flights[i..][1..] == flights[i + 1..] && flights[i..][0] == flights[i];
      var rest := CoveredBelow(policy, flights, n - 1);
      assert CoveredBelow(policy, flights, n) == rest + if IsPaused(policy, flights[i].row.target) then {i} else {};
      assert i !in rest;
    }
  }

  lemma RetryMeans(s: State)
    requires Inv(s)
    ensures CoveredRetry(s.db.policy, s.db.totals) <==> OutcomeUnknown(s)
  {
    if r :| CoveredPending(s, r) && r.attempts > 0 {
      RetriesShow(s.db, r);
    }
    if CoveredRetry(s.db.policy, s.db.totals) {
      var ts := s.db.totals;
      var i :| 0 <= i < |ts| && ts[i].retrying > 0 && IsPaused(s.db.policy, ts[i].target);
      RetryWitness(s, i);
    }
  }

  lemma RetryWitness(s: State, i: nat)
    requires Inv(s) && i < |s.db.totals| && s.db.totals[i].retrying > 0
    requires IsPaused(s.db.policy, s.db.totals[i].target)
    ensures OutcomeUnknown(s)
  {
    var target := s.db.totals[i].target;
    assert LedgerOf(s.db, target);
    TotalAt(s.db.totals, i);
    var k := SumWitness(s.db.queue, Retrying(target));
    assert s.db.queue[k] in s.db.queue;
    assert CoveredPending(s, s.db.queue[k]);
  }

  lemma {:induction false} TotalAt(ts: seq<Total>, i: nat)
    requires Ordered(ts) && i < |ts|
    ensures Lookup(ts, ts[i].target) == ts[i]
  {
    if i > 0 {
      LessIrreflexive(ts[0].target);
      assert Less(ts[0].target, ts[i].target);
      TotalAt(ts[1..], i - 1);
    }
  }

  /** What the boundary reports: nothing is paused; writes to covered tables are under way, and how many; none is, but
      the outcome of an earlier one is unknown; or neither. */
  lemma BoundaryMeans(s: State)
    requires Inv(s)
    ensures var b := BoundaryOf(s);
            && (b.phase == Running <==> s.db.policy.rules == [])
            && (b.phase == Draining <==> WritesCovered(s))
            && (b.phase == Uncertain <==> !WritesCovered(s) && OutcomeUnknown(s))
            && b.inFlight == |CoveredPlaces(s)|
  {
    CoveredFlightsMeans(s.db.policy, s.flights);
    CoveredCount(s.db.policy, s.flights, |s.flights|);
    assert s.flights[0..] == s.flights;
    assert CoveredBelow(s.db.policy, s.flights, |s.flights|) == CoveredPlaces(s);
    RetryMeans(s);
    if s.db.policy.rules == [] {
      assert CoveredPlaces(s) == {};
    }
  }

  // Answers.

  /** The request reaches its ruling: the operator is named, the journal is open, a fault can be cleared, and nothing
      was recorded under its id. */
  ghost predicate Heard(s: State, request: Request, actor: string, env: CommandEnv) {
    && actor != "" && Utf16Length(actor) <= 200 && !s.closed && (s.storageError ==> env.probeOk)
    && forall c :: c in s.db.commands ==> c.request.id != request.id
  }

  /** No command drains, and the request names the revision in force. */
  predicate InTime(s: State, request: Request) {
    !s.policyBusy && request.expected == s.db.policy.revision
  }

  ghost predicate HasRule(s: State, id: string) {
    exists k :: 0 <= k < |s.db.policy.rules| && s.db.policy.rules[k].id == id
  }

  lemma ProbedSame(s: State, env: CommandEnv)
    requires Inv(s)
    ensures var p := Probed(s, env);
            Inv(p) && p.db == s.db && p.flights == s.flights && p.policyBusy == s.policyBusy && p.closed == s.closed
  {
  }

  lemma HeardAnswers(s: State, request: Request, actor: string, env: CommandEnv)
    requires Heard(s, request, actor, env)
    ensures Command(s, request, actor, env) == Execute(Probed(s, env), request, actor, env)
  {
  }

  lemma ResumeRuled(s: State, request: Request, actor: string)
    requires Inv(s) && request.Resume?
    ensures var ruling := Decide(s, request, actor);
            && (!HasRule(s, request.pauseId) <==> ruling == Denied(404))
            && (HasRule(s, request.pauseId) && (WritesCovered(s) || (OutcomeUnknown(s) && !request.confirmUnknown))
                <==> ruling == Denied(409))
            && (ruling.Granted? && InSchema(s.db.policy) ==> InSchema(Policy(0, ruling.rules)))
  {
    BoundaryMeans(s);
    CoveredNone(s);
    var at := RuleAt(s.db.policy.rules, request.pauseId);
    if at.Some? && InSchema(s.db.policy) {
      FewerRulesInSchema(s.db.policy.rules, at.value);
    }
  }

  lemma CoveredNone(s: State)
    ensures WritesCovered(s) <==> |CoveredPlaces(s)| > 0
  {
    if i :| 0 <= i < |s.flights| && IsPaused(s.db.policy, s.flights[i].row.target) {
      assert i in CoveredPlaces(s);
    }
    if |CoveredPlaces(s)| > 0 {
      var i :| i in CoveredPlaces(s);
    }
  }

  /** A resume that is heard: its conditions, and the status of each refusal. A faulted store leaves it unanswered. */
  lemma ResumeExactly(s: State, request: Request, actor: string, env: CommandEnv)
    requires Inv(s) && InSchema(s.db.policy) && request.Resume? && Heard(s, request, actor, env)
    ensures var reply := Command(s, request, actor, env).1;
            var granted := InTime(s, request) && HasRule(s, request.pauseId) && !WritesCovered(s)
                           && (request.confirmUnknown || !OutcomeUnknown(s));
            && (reply.Accepted? <==> granted && env.commitOk && env.mirrorOk)
            && (reply == Faulted <==> granted && !(env.commitOk && env.mirrorOk))
            && (reply == Rejected(404) <==> InTime(s, request) && !HasRule(s, request.pauseId))
            && (reply == Rejected(409) <==> !granted && (InTime(s, request) ==> HasRule(s, request.pauseId)))
            && (reply.Accepted? ==> reply.accepted == Response(request.id, actor, request.reason,
                                                              s.db.policy.revision + 1, request.pauseId))
  {
    ProbedSame(s, env);
    HeardAnswers(s, request, actor, env);
    ResumeRuled(Probed(s, env), request, actor);
  }

  /** A pause that is heard: fewer than 64 rules are in force, and the tables of the new one fit the document. */
  lemma PauseExactly(s: State, request: Request, actor: string, env: CommandEnv)
    requires Inv(s) && InSchema(s.db.policy) && request.Pause? && Heard(s, request, actor, env)
    ensures var reply := Command(s, request, actor, env).1;
            var granted := InTime(s, request) && |s.db.policy.rules| < 64;
            var stored := env.commitOk && env.mirrorOk && |Evaluate(request.selector, s.db.observations)| <= 10000;
            && (reply.Accepted? <==> granted && stored)
            && (reply == Faulted <==> granted && !stored)
            && (reply == Rejected(409) <==> !granted)
            && (reply.Accepted? ==> reply.accepted == Response(request.id, actor, request.reason,
                                                              s.db.policy.revision + 1, request.id))
  {
    ProbedSame(s, env);
    HeardAnswers(s, request, actor, env);
    MoreRulesInSchema(s.db.policy.rules, Rule(request.id, request.selector, request.reason, actor,
                                              Evaluate(request.selector, s.db.observations)));
  }

  /** What an accepted command leaves: the rule appended or the first one with the id taken out, the next revision, the
      receipt, and a policy file that says so; rows and flights stay. */
  lemma AcceptedEffects(s: State, request: Request, actor: string, env: CommandEnv)
    requires Heard(s, request, actor, env) && Command(s, request, actor, env).1.Accepted?
    ensures var next, response := Command(s, request, actor, env).0, Command(s, request, actor, env).1.accepted;
            var rules := s.db.policy.rules;
            && next.db == s.db.(policy := Policy(s.db.policy.revision + 1, next.db.policy.rules),
                                commands := s.db.commands + [Receipt(request, actor, response)])
            && next.portable == (if next.db.policy.rules == [] && !s.globalPaused then None else Some(next.db.policy))
            && next.flights == s.flights && next.log == s.log && !next.storageError
            && (next.policyBusy <==> request.Pause?)
            && match request
               case Pause(id, _, selector, reason) =>
                 next.db.policy.rules == rules + [Rule(id, selector, reason, actor, Evaluate(selector, s.db.observations))]
               case Resume(_, _, pauseId, _, _) =>
                 exists k :: 0 <= k < |rules| && rules[k].id == pauseId && (forall j :: 0 <= j < k ==> rules[j].id != pauseId)
                   && next.db.policy.rules == rules[..k] + rules[k + 1..]
  {
    HeardAnswers(s, request, actor, env);
  }

  /** Only the policy file could not be written. */
  ghost predicate StoredUnmirrored(db: Store, next: Store, request: Request) {
    && next == db.(policy := Policy(db.policy.revision + 1, next.policy.rules), commands := next.commands)
    && |next.commands| == |db.commands| + 1 && next.commands[..|db.commands|] == db.commands
    && next.commands[|db.commands|].request == request
    && next.commands[|db.commands|].response.revision == db.policy.revision + 1
  }

  lemma ExecuteFaulted(s: State, request: Request, actor: string, env: CommandEnv)
    requires Execute(s, request, actor, env).1 == Faulted
    ensures var next := Execute(s, request, actor, env).0;
            && next == s.(db := next.db, storageError := true)
            && (next.db == s.db || (env.commitOk && !env.mirrorOk && StoredUnmirrored(s.db, next.db, request)))
            && (next.db == s.db ==> !env.commitOk || !InSchema(Policy(0, RulesAfter(s, request, actor))))
  {
  }

  /** What a granted command leaves that fails: a fault and the store as it was, or, if only the policy file could not be
      written, the new policy and the receipt with a fault and the old file. */
  lemma FaultedEffects(s: State, request: Request, actor: string, env: CommandEnv)
    requires Heard(s, request, actor, env) && Command(s, request, actor, env).1 == Faulted
    ensures var next := Command(s, request, actor, env).0;
            && next.storageError && next.flights == s.flights && next.log == s.log && next.policyBusy == s.policyBusy
            && (!s.storageError ==> next.portable == s.portable)
            && (next.db == s.db || (env.commitOk && !env.mirrorOk && StoredUnmirrored(s.db, next.db, request)))
            && (next.db == s.db ==> !env.commitOk || !InSchema(Policy(0, RulesAfter(s, request, actor))))
  {
    HeardAnswers(s, request, actor, env);
    ExecuteFaulted(Probed(s, env), request, actor, env);
  }

  /** The rules that a granted request asks for. */
  function RulesAfter(s: State, request: Request, actor: string): seq<Rule> {
    var rules := s.db.policy.rules;
    match request
    case Pause(id, _, selector, reason) =>
      rules + [Rule(id, selector, reason, actor, Evaluate(selector, s.db.observations))]
    case Resume(_, _, pauseId, _, _) =>
      match RuleAt(rules, pauseId)
      case None => rules
      case Some(k) => rules[..k] + rules[k + 1..]
  }

  /** A heard request that is refused changes nothing, except that a fault is cleared and the policy file written anew. */
  lemma RejectedEffects(s: State, request: Request, actor: string, env: CommandEnv)
    requires Heard(s, request, actor, env) && Command(s, request, actor, env).1.Rejected?
    ensures Command(s, request, actor, env).0
         == if s.storageError
            then s.(storageError := false,
                    portable := if !s.globalPaused && s.db.policy.rules == [] then None else Some(s.db.policy))
            else s
  {
    HeardAnswers(s, request, actor, env);
  }

  /** What is refused before: an unnamed operator, a closed journal, and a fault that stays. */
  lemma RefusedExactly(s: State, request: Request, actor: string, env: CommandEnv)
    ensures var (next, reply) := Command(s, request, actor, env);
            var named := actor != "" && Utf16Length(actor) <= 200;
            && (!named <==> reply == Rejected(403))
            && (named && s.closed <==> reply == Rejected(503))
            && (named && !s.closed && s.storageError && !env.probeOk ==> reply == Faulted)
            && (!named || s.closed || (s.storageError && !env.probeOk) ==> next == s)
  {
  }

  /** A request whose id is on record changes nothing, and is answered by the record or, if it is another, refused. */
  lemma OnRecord(s: State, request: Request, actor: string, env: CommandEnv, c: Receipt)
    requires actor != "" && Utf16Length(actor) <= 200 && !s.closed && (s.storageError ==> env.probeOk)
    requires c in s.db.commands && c.request.id == request.id
    requires forall d :: d in s.db.commands && d.request.id == request.id ==> d == c
    ensures var (next, reply) := Command(s, request, actor, env);
            next.db == s.db
            && reply == if c.actor == actor && c.request == request then Recorded(c.response) else Rejected(409)
  {
    var prior := ReceiptFor(s.db.commands, request.id);
    assert prior == Some(c);
  }
}
