/** Exactly when replay is fair, for every batch: runs that starve a target where the program can leave one out. */
module ReplayStarvation {
  import opened Common
  import opened JournalRows
  import opened TextOrders
  import opened JournalModel
  import opened JournalInvariant
  import opened ObservationBudget
  import opened ReplayFairness
  import opened ReplaySkips

  /** Whatever the orders: a pass with a batch for all names, or for all tables that a journal can hold, visits every
      target that waits. */
  lemma WholePassVisits(limits: Limits, s: State, turn: Turn, batch: nat, target: string, names: set<string>)
    requires Inv(s) && HoldsObserved(s.db) && AwaitedPass(limits, s, turn, batch, target, names)
    requires batch >= |names| || batch >= OBSERVATION_BUDGET
    ensures target in CursorMoves(turn.pass)
  {
    var targets := AwaitedTargets(limits, s, turn, batch, target, names);
    RunHolds(limits, s, turn.idle);
    WaitingWithinBudget(StartOf(limits, s, turn), targets);
    DistinctSize(targets, names);
    FairMembers(targets, s.cursor);
    assert Visited(targets, s.cursor, batch) == FairOrder(targets, s.cursor);
  }

  // Starvation.

  lemma {:induction false} PassLeavesStore(limits: Limits, s: State, steps: seq<Step>)
    requires forall i :: 0 <= i < |steps| ==> steps[i].DoMoveCursor? || steps[i].DoTryHead?
    ensures Run(limits, s, steps).db == s.db
    decreases |steps|
  {
    if steps != [] {
      if steps[0].DoTryHead? {
        StartRowsDb(limits, s, Window(s.db.queue, steps[0].target), steps[0].now, steps[0].room);
      }
      PassLeavesStore(limits, Next(limits, s, steps[0]), steps[1..]);
    }
  }

  function TargetsOf(s: State): seq<string> {
    ReplayTargets(s.db.policy, s.db.totals)
  }

  /** A pass of the present targets would leave the cursor where it is. */
  predicate Stuck(s: State, batch: nat) {
    TargetsOf(s) != [] && batch >= 1 && CursorAfter(TargetsOf(s), s.cursor, batch) == s.cursor
  }

  function StuckTurn(s: State, batch: nat): Turn
    requires Stuck(s, batch)
  {
    var visited := Visited(TargetsOf(s), s.cursor, batch);
    Turn([], PassSteps(visited, Max(1, batch / |visited|), 0, true))
  }

  lemma StuckPass(limits: Limits, s: State, batch: nat)
    requires Stuck(s, batch)
    ensures var end := EndOf(limits, s, StuckTurn(s, batch));
            end.db == s.db && end.cursor == s.cursor && FullPass(limits, s, StuckTurn(s, batch), batch)
  {
    var turn := StuckTurn(s, batch);
    var visited := Visited(TargetsOf(s), s.cursor, batch);
    PassMoves(visited, Max(1, batch / |visited|), 0, true);
    PassLeavesStore(limits, s, turn.pass);
    CursorFrame(limits, s, turn.pass);
  }

  lemma {:induction false} StuckAt(limits: Limits, s: State, batch: nat, turns: seq<Turn>, k: nat)
    requires Stuck(s, batch) && k <= |turns| && forall i :: 0 <= i < |turns| ==> turns[i] == StuckTurn(s, batch)
    ensures var now := StateAt(limits, s, turns, k);
            now.db == s.db && now.cursor == s.cursor
  {
    if k > 0 {
      StuckAt(limits, s, batch, turns, k - 1);
      StuckPass(limits, StateAt(limits, s, turns, k - 1), batch);
    }
  }

  /** From there any number of passes can follow that visit the same targets and no others, while all targets wait. */
  lemma StuckPassesStarve(limits: Limits, s: State, batch: nat, target: string, names: set<string>, n: nat)
    returns (turns: seq<Turn>)
    requires Inv(s) && Stuck(s, batch) && target in TargetsOf(s) && forall t :: t in TargetsOf(s) ==> t in names
    ensures |turns| == n && AwaitedPasses(limits, s, turns, batch, target, names)
    ensures forall k :: 0 <= k < n ==> CursorMoves(turns[k].pass) == Visited(TargetsOf(s), s.cursor, batch)
  {
    var turn, visited := StuckTurn(s, batch), Visited(TargetsOf(s), s.cursor, batch);
    turns := seq(n, _ => turn);
    PassMoves(visited, Max(1, batch / |visited|), 0, true);
    forall k | 0 <= k < n ensures AwaitedAt(limits, s, turns, batch, target, names, k) {
      StuckAwaits(limits, s, batch, turns, target, names, k);
    }
  }

  lemma StuckAwaits(limits: Limits, s: State, batch: nat, turns: seq<Turn>, target: string, names: set<string>, k: nat)
    requires Inv(s) && Stuck(s, batch) && target in TargetsOf(s) && forall t :: t in TargetsOf(s) ==> t in names
    requires k < |turns| && forall i :: 0 <= i < |turns| ==> turns[i] == StuckTurn(s, batch)
    ensures AwaitedAt(limits, s, turns, batch, target, names, k)
  {
    var now := StateAt(limits, s, turns, k);
    StuckAt(limits, s, batch, turns, k);
    StuckPass(limits, now, batch);
    forall t: string ensures Waits(now, t) <==> t in TargetsOf(s) {
      WaitingTargets(s, t);
    }
  }

  // A run to a given set of waiting targets.

  /** The id of the k-th part. */
  function IdOf(k: nat): string
    requires k < OBSERVATION_BUDGET
  {
    [(k / 1000 + 1) as char, (k % 1000 + 1) as char]
  }

  lemma IdValid(k: nat)
    requires k < OBSERVATION_BUDGET
    ensures IdOf(k) != "" && Utf16Length(IdOf(k)) == 2
    ensures forall m: nat :: m < OBSERVATION_BUDGET && IdOf(m) == IdOf(k) ==> m == k
  {
    var id := IdOf(k);
    assert id[1..][1..] == "";
    assert Units(id) == UnitsOf(id[0]) + Units(id[1..]) && Units(id[1..]) == UnitsOf(id[1]) + Units("");
    forall m: nat | m < OBSERVATION_BUDGET && IdOf(m) == id ensures m == k {
      assert IdOf(m)[0] == id[0] && IdOf(m)[1] == id[1];
    }
  }

  function Part(k: nat, table: string): Submission
    requires k < OBSERVATION_BUDGET
  {
    Submission(Entry(IdOf(k), table, "", "", None), DEFAULT_LIMITS.reserveBytes + 1000)
  }

  /** One part for each of the tables. */
  function Parts(tables: seq<string>): seq<Step>
    requires |tables| <= OBSERVATION_BUDGET
  {
    if tables == [] then []
    else
      var n := |tables| - 1;
      Parts(tables[..n]) + [DoAdmit([Part(n, tables[n])], true, true)]
  }

  /** What the store holds then. */
  ghost predicate HoldsParts(db: Store, tables: seq<string>)
    requires |tables| <= OBSERVATION_BUDGET
  {
    && db.policy == Policy(0, []) && |db.observations| <= |tables| && TotalBytes(db.totals) == 512 * |tables|
    && |db.queue| == |tables|
    && forall i :: 0 <= i < |tables| ==>
         db.queue[i].id == IdOf(i) && db.queue[i].target == tables[i] && !db.queue[i].confirmed
  }

  lemma {:induction false} SumAtMost(q: seq<Row>, target: string)
    ensures Sum(q, Pending(target)) <= |q|
  {
    if q != [] {
      SumAtMost(q[1..], target);
    }
  }

  lemma PartObserved(db: Store, tables: seq<string>, table: string)
    requires |tables| < OBSERVATION_BUDGET && HoldsParts(db, tables)
    ensures Observe(db, "", table) == Some(db.(observations := db.observations + {("", table)}))
    ensures |db.observations + {("", table)}| <= |tables| + 1
  {
    if ("", table) in db.observations {
      assert db.observations + {("", table)} == db.observations;
    }
  }

  lemma PartFits(db: Store, tables: seq<string>, table: string)
    requires |tables| < OBSERVATION_BUDGET && HoldsParts(db, tables) && LedgerAgrees(db)
    ensures EntryBytes(Part(|tables|, table).entry) == 512
    ensures !Exhausted(DEFAULT_LIMITS, db, Part(|tables|, table))
    ensures !HasId(db.queue, Part(|tables|, table).entry.id)
  {
    IdValid(|tables|);
    assert LedgerOf(db, table);
    SumAtMost(db.queue, table);
  }

  lemma PartInserted(db: Store, tables: seq<string>, table: string)
    requires |tables| < OBSERVATION_BUDGET && Ordered(db.totals) && EntryBytes(Part(|tables|, table).entry) == 512
    requires db.policy == Policy(0, []) && |db.observations| <= |tables| + 1 && TotalBytes(db.totals) == 512 * |tables|
    requires |db.queue| == |tables|
    requires forall i :: 0 <= i < |tables| ==>
               db.queue[i].id == IdOf(i) && db.queue[i].target == tables[i] && !db.queue[i].confirmed
    ensures HoldsParts(Insert(db, Part(|tables|, table).entry), tables + [table])
  {
    var entry := Part(|tables|, table).entry;
    var total := Lookup(db.totals, table);
    PutLookup(db.totals, total.(pending := total.pending + 1, bytes := total.bytes + 512), table);
    assert Insert(db, entry).queue == db.queue + [NewRow(db, entry)];
  }

  lemma PartAdmitted(db: Store, tables: seq<string>, table: string)
    requires |tables| < OBSERVATION_BUDGET && ValidTable(table) && HoldsParts(db, tables) && Keyed(db) && LedgerAgrees(db)
    ensures var next := AdmitOne(DEFAULT_LIMITS, db, Part(|tables|, table));
            next.Some? && HoldsParts(next.value, tables + [table])
  {
    var seen := db.(observations := db.observations + {("", table)});
    IdValid(|tables|);
    PartObserved(db, tables, table);
    PartFits(db, tables, table);
    PartInserted(seen, tables, table);
  }

  lemma {:induction false} RunSnoc(limits: Limits, s: State, steps: seq<Step>, step: Step)
    ensures Run(limits, s, steps + [step]) == Next(limits, Run(limits, s, steps), step)
    decreases |steps|
  {
    if steps == [] {
      assert [step][1..] == [] && [] + [step] == [step];
    } else {
      assert (steps + [step])[1..] == steps[1..] + [step];
      RunSnoc(limits, Next(limits, s, steps[0]), steps[1..], step);
    }
  }

  lemma AdmittedAlone(limits: Limits, s: State, part: Submission)
    requires !s.closed && AdmitOne(limits, s.db, part).Some?
    requires AdmitOne(limits, s.db, part).value.policy == s.db.policy
    ensures var next := Next(limits, s, DoAdmit([part], true, true));
            next == s.(db := AdmitOne(limits, s.db, part).value, storageError := false)
  {
    var db := AdmitOne(limits, s.db, part).value;
    assert [part][1..] == [];
    assert AdmitAll(limits, s.db, [part]) == AdmitAll(limits, db, []);
  }

  lemma OneMorePart(s: State, tables: seq<string>, table: string)
    requires |tables| < OBSERVATION_BUDGET && ValidTable(table) && Inv(s) && !s.closed && HoldsParts(s.db, tables)
    ensures var next := Next(DEFAULT_LIMITS, s, DoAdmit([Part(|tables|, table)], true, true));
            !next.closed && HoldsParts(next.db, tables + [table])
  {
    PartAdmitted(s.db, tables, table);
    AdmittedAlone(DEFAULT_LIMITS, s, Part(|tables|, table));
  }

  ghost predicate Filled(s: State, tables: seq<string>)
    requires |tables| <= OBSERVATION_BUDGET
  {
    Inv(s) && !s.closed && HoldsParts(s.db, tables)
  }

  lemma PartsSnoc(tables: seq<string>, table: string)
    requires |tables| < OBSERVATION_BUDGET
    ensures Parts(tables + [table]) == Parts(tables) + [DoAdmit([Part(|tables|, table)], true, true)]
  {
    assert (tables + [table])[..|tables|] == tables;
  }

  lemma FilledMore(empty: State, tables: seq<string>, table: string)
    requires |tables| < OBSERVATION_BUDGET && ValidTable(table)
    requires Filled(Run(DEFAULT_LIMITS, empty, Parts(tables)), tables)
    ensures Filled(Run(DEFAULT_LIMITS, empty, Parts(tables + [table])), tables + [table])
  {
    var s, step := Run(DEFAULT_LIMITS, empty, Parts(tables)), DoAdmit([Part(|tables|, table)], true, true);
    OneMorePart(s, tables, table);
    NextKeepsInv(DEFAULT_LIMITS, s, step);
    PartsSnoc(tables, table);
    RunSnoc(DEFAULT_LIMITS, empty, Parts(tables), step);
  }

  lemma LastOff(tables: seq<string>) returns (fewer: seq<string>, last: string)
    requires tables != [] && forall t :: t in tables ==> ValidTable(t)
    ensures tables == fewer + [last] && ValidTable(last) && forall t :: t in fewer ==> ValidTable(t)
  {
    fewer, last := tables[..|tables| - 1], tables[|tables| - 1];
    assert last in tables;
  }

  lemma {:induction false} PartsAdmitted(empty: State, tables: seq<string>)
    requires |tables| <= OBSERVATION_BUDGET && forall t :: t in tables ==> ValidTable(t)
    requires Filled(empty, [])
    ensures Filled(Run(DEFAULT_LIMITS, empty, Parts(tables)), tables)
    decreases |tables|
  {
    if tables != [] {
      var fewer, last := LastOff(tables);
      PartsAdmitted(empty, fewer);
      FilledMore(empty, fewer, last);
    }
  }

  lemma {:induction false} SameAscending(a: seq<string>, b: seq<string>)
    requires Ascending(a) && Ascending(b) && forall t :: t in a <==> t in b
    ensures a == b
  {
    assert b != [] ==> b[0] in b;
    if a != [] {
      assert a[0] in b;
      FirstOfBoth(a, b);
      forall t ensures t in a[1..] <==> t in b[1..] {
        TailMembers(a, t);
        TailMembers(b, t);
      }
      SameAscending(a[1..], b[1..]);
      assert a == [a[0]] + a[1..] && b == [b[0]] + b[1..];
    }
  }

  lemma FirstOfBoth(a: seq<string>, b: seq<string>)
    requires Ascending(a) && Ascending(b) && a != [] && b != [] && forall t :: t in a <==> t in b
    ensures a[0] == b[0]
  {
    assert a[0] in b && b[0] in a;
    var i :| 0 <= i < |b| && b[i] == a[0];
    var k :| 0 <= k < |a| && a[k] == b[0];
    if i > 0 && k > 0 {
      LessAsymmetric(a[0], b[0]);
    }
  }

  lemma TailMembers(a: seq<string>, t: string)
    requires Ascending(a) && a != []
    ensures t in a[1..] <==> t in a && t != a[0]
  {
    LessIrreflexive(a[0]);
    assert a == [a[0]] + a[1..];
  }

  lemma PartsWait(s: State, tables: seq<string>)
    requires |tables| <= OBSERVATION_BUDGET && Ascending(tables) && Filled(s, tables)
    ensures TargetsOf(s) == tables
  {
    forall t: string ensures t in TargetsOf(s) <==> t in tables {
      WaitingTargets(s, t);
      if t in tables {
        var i :| 0 <= i < |tables| && tables[i] == t;
        assert s.db.queue[i] in s.db.queue;
      }
    }
    ReplayTargetsMeaning(s.db.policy, s.db.totals);
    SameAscending(TargetsOf(s), tables);
  }

  /** A pass over targets that the program skips one of ends where it began, and leaves that one out. */
  lemma SkipIsStuck(targets: seq<string>, i: nat)
    requires |targets| >= 2 && Ascending(targets) && i < |targets| && Skips(targets, i)
    ensures CursorAfter(targets, targets[i], |targets| - 1) == targets[i]
    ensures targets[Around(i + 1, |targets|)] !in Visited(targets, targets[i], |targets| - 1)
  {
    var n, missed := |targets|, Around(i + 1, |targets|);
    var visited := Visited(targets, targets[i], n - 1);
    FairAt(targets, targets[i], n - 2);
    forall k | 0 <= k < n - 1 ensures visited[k] != targets[missed] {
      FairAt(targets, targets[i], k);
      if visited[k] == targets[missed] {
        SamePlace(targets, Place(SplitAt(targets, targets[i]), n, k), missed);
        assert false;
      }
    }
  }

  /** Such a pass is next. */
  ghost predicate AboutToSkip(s: State, targets: seq<string>, i: nat) {
    && Inv(s) && i < |targets| && s.cursor == targets[i] && TargetsOf(s) == targets && Stuck(s, |targets| - 1)
    && targets[Around(i + 1, |targets|)] !in Visited(targets, targets[i], |targets| - 1)
  }

  lemma SkipIsNext(s: State, targets: seq<string>, i: nat)
    requires |targets| >= 2 && Ascending(targets) && i < |targets| && Skips(targets, i)
    requires Inv(s) && TargetsOf(s) == targets && s.cursor == targets[i]
    ensures AboutToSkip(s, targets, i)
  {
    SkipIsStuck(targets, i);
  }

  lemma Moved(limits: Limits, s: State, name: string)
    requires Inv(s)
    ensures Next(limits, s, DoMoveCursor(name)) == s.(cursor := name) && Inv(s.(cursor := name))
  {
    NextKeepsInv(limits, s, DoMoveCursor(name));
  }

  lemma ReachSkip(empty: State, targets: seq<string>, i: nat) returns (before: seq<Step>)
    requires 2 <= |targets| <= OBSERVATION_BUDGET && Ascending(targets) && i < |targets| && Skips(targets, i)
    requires (forall t :: t in targets ==> ValidTable(t)) && Filled(empty, [])
    ensures AboutToSkip(Run(DEFAULT_LIMITS, empty, before), targets, i)
  {
    var s := Run(DEFAULT_LIMITS, empty, Parts(targets));
    before := Parts(targets) + [DoMoveCursor(targets[i])];
    PartsAdmitted(empty, targets);
    PartsWait(s, targets);
    Moved(DEFAULT_LIMITS, s, targets[i]);
    RunSnoc(DEFAULT_LIMITS, empty, Parts(targets), DoMoveCursor(targets[i]));
    SkipIsNext(s.(cursor := targets[i]), targets, i);
  }

  /** The passes visit the others, and the one that is left out waits through all of them. */
  ghost predicate Starves(limits: Limits, s: State, turns: seq<Turn>, targets: seq<string>, i: nat, names: set<string>)
    requires i < |targets| && |targets| >= 2
  {
    var batch, missed := |targets| - 1, targets[Around(i + 1, |targets|)];
    && AwaitedPasses(limits, s, turns, batch, missed, names)
    && forall k :: 0 <= k < |turns| ==>
         CursorMoves(turns[k].pass) == Visited(targets, targets[i], batch) && missed !in CursorMoves(turns[k].pass)
  }

  lemma StuckStarves(limits: Limits, s: State, targets: seq<string>, i: nat, names: set<string>, count: nat)
    returns (turns: seq<Turn>)
    requires |targets| >= 2 && AboutToSkip(s, targets, i) && forall t :: t in targets ==> t in names
    ensures |turns| == count && Starves(limits, s, turns, targets, i, names)
  {
    var missed := targets[Around(i + 1, |targets|)];
    assert missed in targets;
    turns := StuckPassesStarve(limits, s, |targets| - 1, missed, names, count);
  }

  /** Where one of batch + 1 targets can be left out: after a part for each of them was admitted to an empty journal, and
      with the cursor there, any number of passes leaves it out. */
  lemma SkippedStarves(targets: seq<string>, i: nat, names: set<string>, count: nat)
    returns (before: seq<Step>, turns: seq<Turn>)
    requires 2 <= |targets| <= OBSERVATION_BUDGET && SkipsAmong(names, targets, i)
    requires forall t :: t in targets ==> ValidTable(t)
    ensures |turns| == count
         && Starves(DEFAULT_LIMITS, Run(DEFAULT_LIMITS, Created(None), before), turns, targets, i, names)
  {
    before := ReachSkip(Created(None), targets, i);
    turns := StuckStarves(DEFAULT_LIMITS, Run(DEFAULT_LIMITS, Created(None), before), targets, i, names, count);
  }

  /** From every reachable state, a target that waits through so many passes over these names is visited. */
  ghost predicate FairWithin(names: set<string>, batch: nat, count: nat) {
    forall limits, portable, before, turns, target ::
      turns != [] && |turns| >= count
      && AwaitedPasses(limits, Run(limits, Created(portable), before), turns, batch, target, names)
      ==> EverVisited(turns, target)
  }

  /** Names none of which can be left out: as many passes as there are names. */
  lemma FairWhen(names: set<string>, batch: nat)
    requires batch >= 1 && (batch >= OBSERVATION_BUDGET || !CanSkip(names, batch))
    ensures FairWithin(names, batch, |names|)
  {
    forall limits, portable, before, turns, target |
      turns != [] && |turns| >= |names|
      && AwaitedPasses(limits, Run(limits, Created(portable), before), turns, batch, target, names)
      ensures EverVisited(turns, target)
    {
      var s := Run(limits, Created(portable), before);
      RunKeepsInv(limits, Created(portable), before);
      if CanSkip(names, batch) {
        assert AwaitedAt(limits, s, turns, batch, target, names, 0);
        RunHolds(limits, Created(portable), before);
        WholePassVisits(limits, s, turns[0], batch, target, names);
      } else {
        NoSkipIsFair(limits, s, turns, batch, target, names);
      }
    }
  }

  lemma UnfairAfter(targets: seq<string>, i: nat, names: set<string>, count: nat)
    requires 2 <= |targets| <= OBSERVATION_BUDGET && SkipsAmong(names, targets, i)
    requires forall t :: t in targets ==> ValidTable(t)
    ensures !FairWithin(names, |targets| - 1, count)
  {
    var before, turns := SkippedStarves(targets, i, names, count + 1);
    assert !EverVisited(turns, targets[Around(i + 1, |targets|)]);
  }

  /** For every batch and all names that tables may have: some number of passes is enough in every run exactly if none
      of the names can be left out, or no more targets than the batch can ever wait. */
  lemma FairExactly(names: set<string>, batch: nat)
    requires batch >= 1 && forall n :: n in names ==> ValidTable(n)
    ensures (exists count: nat :: FairWithin(names, batch, count))
       <==> batch >= OBSERVATION_BUDGET || !CanSkip(names, batch)
  {
    if batch >= OBSERVATION_BUDGET || !CanSkip(names, batch) {
      FairWhen(names, batch);
    } else {
      var targets, i :| |targets| == batch + 1 && SkipsAmong(names, targets, i);
      forall count: nat ensures !FairWithin(names, batch, count) {
        UnfairAfter(targets, i, names, count);
      }
    }
  }

  /** The smallest case: a full-width letter and an emoji, with a batch of one. */
  lemma FullWidthStarves(a: string, b: string, n: nat) returns (before: seq<Step>, turns: seq<Turn>)
    requires a == "\U{FF21}" && b == "\U{1F600}"
    ensures |turns| == n
    ensures AwaitedPasses(DEFAULT_LIMITS, Run(DEFAULT_LIMITS, Created(None), before), turns, 1, b, {a, b})
    ensures forall k :: 0 <= k < n ==> b !in CursorMoves(turns[k].pass)
  {
    assert a[1..] == "" && b[1..] == "";
    assert Units(a) == UnitsOf(a[0]) + Units("") && Units(b) == UnitsOf(b[0]) + Units("");
    assert Swapped(a, b);
    OrdersDiffer(a, b);
    Less16Asymmetric(b, a);
    Less16Irreflexive(a);
    var targets := [a, b];
    SplitIs(targets, a, 2);
    before, turns := SkippedStarves(targets, 0, {a, b}, n);
  }
}
