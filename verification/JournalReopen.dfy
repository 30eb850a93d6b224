/** When a journal can be opened again after a crash. */
module JournalReopen {
  import opened Common
  import opened JournalModel
  import opened JournalInvariant
  import opened JournalCommands
  import TopicFilters

  /** Admission commits an extension of the rules, but the process ends (or the file system fails) before the policy
      file, which has the same revision, is written. */
  ghost predicate UnmirroredExtension(limits: Limits, s: State, step: Step) {
    && step.DoAdmit? && step.admitOk && !step.mirrored && !s.closed
    && s.portable.Some? && s.portable.value.revision == s.db.policy.revision
    && var next := AdmitAll(limits, s.db, step.batch);
       next.Some? && next.value.policy != s.db.policy
  }

  /** From a state that could be reopened, exactly an unmirrored extension leads to one that cannot. */
  lemma RefusalExactly(limits: Limits, s: State, step: Step)
    requires !Refused(s)
    ensures Refused(Next(limits, s, step)) <==> UnmirroredExtension(limits, s, step)
  {
    match step
    case DoAdmit(batch, _, _) => AdmitAllRules(limits, s.db, batch);
    case DoTryHead(name, room, now, _) => StartRowsDb(limits, s, Window(s.db.queue, name), now, room);
    case DoCommand(request, actor, env) => CommandReopens(s, request, actor, env);
    case _ =>
  }

  lemma CommandReopens(s: State, request: Request, actor: string, env: CommandEnv)
    requires !Refused(s)
    ensures !Refused(Command(s, request, actor, env).0)
  {
    var s1 := Probed(s, env);
    ExecuteLogs(s1, request, actor, env);
  }

  ghost predicate AlwaysMirrored(limits: Limits, s: State, steps: seq<Step>)
    decreases |steps|
  {
    steps != [] ==>
      !UnmirroredExtension(limits, s, steps[0]) && AlwaysMirrored(limits, Next(limits, s, steps[0]), steps[1..])
  }

  /** Unless such an extension happens, the journal reopens after a crash at any point, with its rules. */
  lemma {:induction false} ReopensAfterAnyRun(limits: Limits, s: State, steps: seq<Step>)
    requires !Refused(s) && AlwaysMirrored(limits, s, steps)
    ensures var end := Run(limits, s, steps);
            !Refused(end) && !Reopen(end, true).closed && Reopen(end, true).db.policy == end.db.policy
    decreases |steps|
  {
    if steps != [] {
      RefusalExactly(limits, s, steps[0]);
      ReopensAfterAnyRun(limits, Next(limits, s, steps[0]), steps[1..]);
    }
  }

  // The refusal is reachable.

  const BRANCH_PAUSE: Request := Pause("p", 0, TopicFilter("x"), "r")
  const BRANCH_ENTRY: Entry := Entry("e", "t", "x", "", None)

  /** A branch is paused, then a matching table is first seen and the process ends before the file is written. */
  lemma RefusalHappens(env: CommandEnv)
    requires env == CommandEnv(true, true, true)
    ensures var paused := Next(DEFAULT_LIMITS, Created(None), DoCommand(BRANCH_PAUSE, "a", env));
            var batch := [Submission(BRANCH_ENTRY, DEFAULT_LIMITS.reserveBytes + 1000)];
            Refused(Next(DEFAULT_LIMITS, paused, DoAdmit(batch, true, false)))
  {
    var created := Created(None);
    var rule := Rule("p", TopicFilter("x"), "r", "a", {});
    assert "a"[1..] == "";
    assert Evaluate(TopicFilter("x"), {}) == {};
    assert Decide(created, BRANCH_PAUSE, "a") == Granted([rule]);
    var paused := Next(DEFAULT_LIMITS, created, DoCommand(BRANCH_PAUSE, "a", env));
    assert paused.db.policy == Policy(1, [rule]) && paused.portable == Some(Policy(1, [rule]));
    BranchAdmit(paused, rule);
  }

  lemma BranchAdmit(paused: State, rule: Rule)
    requires paused.db == Store([], [], {}, Policy(1, [rule]), paused.db.commands, 0)
    requires rule == Rule("p", TopicFilter("x"), "r", "a", {})
    requires paused.portable == Some(Policy(1, [rule])) && !paused.closed
    ensures var batch := [Submission(BRANCH_ENTRY, DEFAULT_LIMITS.reserveBytes + 1000)];
            Refused(Next(DEFAULT_LIMITS, paused, DoAdmit(batch, true, false)))
  {
    var batch := [Submission(BRANCH_ENTRY, DEFAULT_LIMITS.reserveBytes + 1000)];
    assert "x"[1..] == "" && "t"[1..] == "" && "e"[1..] == "";
    TopicFilters.SplitSlashFree("x");
    assert TopicFilters.Matches("x", "x") by {
      assert ["x"][1..] == [];
    }
    var extended := rule.(tables := {"t"});
    assert ExtendRule(rule, "x", "t") == extended by {
      assert rule.tables + {"t"} == {"t"};
    }
    assert ExtendRules([rule], "x", "t") == [extended];
    var seen := paused.db.(observations := {("x", "t")}, policy := Policy(1, [extended]));
    assert paused.db.observations + {("x", "t")} == {("x", "t")};
    assert Observe(paused.db, "x", "t") == Some(seen);
    assert EntryBytes(BRANCH_ENTRY) == 513;
    assert AdmitOne(DEFAULT_LIMITS, paused.db, batch[0]) == Some(Insert(seen, BRANCH_ENTRY));
    assert batch[1..] == [];
    assert AdmitAll(DEFAULT_LIMITS, paused.db, batch) == Some(Insert(seen, BRANCH_ENTRY));
    assert "t" in extended.tables;
  }
}
