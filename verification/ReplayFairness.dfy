/** Replay passes visit every waiting target in time. */
module ReplayFairness {
  import opened Common
  import opened JournalRows
  import opened TextOrders
  import opened JournalModel
  import opened JournalInvariant

  /** In the order of SQLite. */
  ghost predicate Ascending(names: seq<string>) {
    forall i, j :: 0 <= i < j < |names| ==> Less(names[i], names[j])
  }

  /** In the order that the program compares the cursor in. */
  ghost predicate Ascending16(names: seq<string>) {
    forall i, j :: 0 <= i < j < |names| ==> Less16(names[i], names[j])
  }

  /** The names that one pass visits, in order. */
  function Visited(targets: seq<string>, cursor: string, batch: nat): seq<string> {
    FairOrder(targets, cursor)[..Min(batch, |targets|)]
  }

  function CursorAfter(targets: seq<string>, cursor: string, batch: nat): string {
    var visited := Visited(targets, cursor, batch);
    if visited == [] then cursor else visited[|visited| - 1]
  }

  lemma {:induction false} ReplayTargetsMeaning(policy: Policy, totals: seq<Total>)
    requires Ordered(totals)
    ensures Ascending(ReplayTargets(policy, totals))
    ensures forall t :: t in ReplayTargets(policy, totals) <==>
              exists i :: 0 <= i < |totals| && totals[i].target == t && totals[i].pending > 0 && !IsPaused(policy, t)
  {
    if totals != [] {
      ReplayTargetsMeaning(policy, totals[1..]);
      var rest := ReplayTargets(policy, totals[1..]);
      forall t
        ensures (exists i :: 0 <= i < |totals| && totals[i].target == t && totals[i].pending > 0 && !IsPaused(policy, t))
          <==> (totals[0].target == t && totals[0].pending > 0 && !IsPaused(policy, t)) || t in rest
      {
        if i :| 0 <= i < |totals| && totals[i].target == t && totals[i].pending > 0 && !IsPaused(policy, t) {
          if i > 0 {
            assert totals[1..][i - 1] == totals[i];
          }
        }
      }
      forall k | 0 <= k < |rest| ensures Less(totals[0].target, rest[k]) {
        assert rest[k] in rest;
      }
    }
  }

  /** Some row of the target is to be written, and no rule covers it. */
  ghost predicate Waits(s: State, target: string) {
    !IsPaused(s.db.policy, target) && exists r :: r in s.db.queue && !r.confirmed && r.target == target
  }

  /** Which targets a pass considers: those with a pending row that no rule covers. */
  lemma WaitingTargets(s: State, target: string)
    requires Inv(s)
    ensures target in ReplayTargets(s.db.policy, s.db.totals) <==> Waits(s, target)
  {
    ReplayTargetsMeaning(s.db.policy, s.db.totals);
    assert LedgerOf(s.db, target);
    LookupMember(s.db.totals, target);
    if r :| r in s.db.queue && !r.confirmed && r.target == target {
      var k :| 0 <= k < |s.db.queue| && s.db.queue[k] == r;
      SumBounds(s.db.queue, k, Pending(target));
      var i :| 0 <= i < |s.db.totals| && s.db.totals[i] == Lookup(s.db.totals, target);
    }
    if i :| 0 <= i < |s.db.totals| && s.db.totals[i].target == target && s.db.totals[i].pending > 0 {
      LookupAt(s.db.totals, i);
      var k := SumWitness(s.db.queue, Pending(target));
      assert s.db.queue[k] in s.db.queue;
    }
  }

  lemma {:induction false} LookupAt(ts: seq<Total>, i: nat)
    requires Ordered(ts) && i < |ts|
    ensures Lookup(ts, ts[i].target) == ts[i]
  {
    if i > 0 {
      LessIrreflexive(ts[0].target);
      assert Less(ts[0].target, ts[i].target);
      LookupAt(ts[1..], i - 1);
    }
  }

  // The measure: names on the way from the cursor to the target, going around.

  predicate OnTheWay(cursor: string, name: string, target: string) {
    if Less16(cursor, target) then Less16(cursor, name) && !Less16(target, name)
    else Less16(cursor, name) || !Less16(target, name)
  }

  ghost function Ahead(names: set<string>, cursor: string, target: string): set<string> {
    set n | n in names && OnTheWay(cursor, n, target)
  }

  lemma OnTheWayShrinks(cursor: string, middle: string, name: string, target: string)
    requires OnTheWay(cursor, middle, target) && middle != target && OnTheWay(middle, name, target)
    ensures OnTheWay(cursor, name, target)
    ensures !OnTheWay(cursor, name, middle)
  {
    Less16Total(cursor, target);
    Less16Total(middle, target);
    Less16Total(cursor, middle);
    Less16Total(name, middle);
    Less16Total(name, target);
    Less16Total(cursor, name);
    Less16Irreflexive(middle);
    Less16Irreflexive(name);
    forall a, b, c | Less16(a, b) && Less16(b, c)
      && a in {cursor, middle, name, target} && b in {cursor, middle, name, target}
      && c in {cursor, middle, name, target}
      ensures Less16(a, c)
    {
      Less16Transitive(a, b, c);
    }
    forall a, b | Less16(a, b) && Less16(b, a) ensures false {
      Less16Asymmetric(a, b);
    }
  }

  /** In fair order, a name comes earlier exactly if it lies on the way to the later ones. */
  lemma FairOrderOnTheWay(targets: seq<string>, cursor: string, k: nat, m: nat)
    requires Ascending16(targets) && k <= m < |targets|
    ensures OnTheWay(cursor, FairOrder(targets, cursor)[k], FairOrder(targets, cursor)[m])
    ensures k < m ==> FairOrder(targets, cursor)[k] != FairOrder(targets, cursor)[m]
  {
    var fair, split := FairOrder(targets, cursor), SplitAt(targets, cursor);
    var n := |targets| - split;
    var a, b := if k < n then split + k else k - n, if m < n then split + m else m - n;
    assert fair[k] == targets[a] && fair[m] == targets[b];
    Less16Total(targets[a], targets[b]);
    Less16Irreflexive(targets[b]);
    if a < b {
      Less16Asymmetric(targets[a], targets[b]);
    } else if b < a {
      Less16Asymmetric(targets[b], targets[a]);
    }
    if k < n {
      BehindCursor(targets, cursor, a);
    }
    if m < n {
      BehindCursor(targets, cursor, b);
    }
  }

  lemma BehindCursor(targets: seq<string>, cursor: string, i: nat)
    requires Ascending16(targets) && SplitAt(targets, cursor) <= i < |targets|
    ensures Less16(cursor, targets[i])
  {
    var split := SplitAt(targets, cursor);
    if split < i {
      Less16Transitive(cursor, targets[split], targets[i]);
    }
  }

  lemma FairMembers(targets: seq<string>, cursor: string)
    ensures forall t :: t in targets <==> t in FairOrder(targets, cursor)
  {
    var split := SplitAt(targets, cursor);
    assert targets == targets[..split] + targets[split..];
  }

  function Seen(targets: seq<string>, cursor: string, count: nat): set<string>
    requires count <= |targets|
  {
    set k | 0 <= k < count :: FairOrder(targets, cursor)[k]
  }

  lemma SeenAhead(names: set<string>, targets: seq<string>, cursor: string, count: nat, m: nat)
    requires Ascending16(targets) && count <= m < |targets| && forall t :: t in targets ==> t in names
    ensures Seen(targets, cursor, count) <= Ahead(names, cursor, FairOrder(targets, cursor)[m])
  {
    var fair := FairOrder(targets, cursor);
    FairMembers(targets, cursor);
    forall k | 0 <= k < count ensures fair[k] in Ahead(names, cursor, fair[m]) {
      FairOrderOnTheWay(targets, cursor, k, m);
      assert fair[k] in fair;
    }
  }

  /** A pass that does not visit the target uses its whole batch on names on the way to it. */
  lemma PassProgress(names: set<string>, targets: seq<string>, cursor: string, batch: nat, target: string)
    requires Ascending16(targets) && target in targets && (forall t :: t in targets ==> t in names)
    requires batch >= 1 && target !in Visited(targets, cursor, batch)
    ensures |Ahead(names, CursorAfter(targets, cursor, batch), target)| + batch <= |Ahead(names, cursor, target)|
  {
    var m := Missed(targets, cursor, batch, target);
    var after := CursorAfter(targets, cursor, batch);
    var seen := Seen(targets, cursor, batch);
    FairOrderOnTheWay(targets, cursor, batch - 1, m);
    SeenAhead(names, targets, cursor, batch, m);
    forall n | n in Ahead(names, after, target) ensures n in Ahead(names, cursor, target) && n !in seen {
      OnTheWayShrinks(cursor, after, n, target);
      if n in seen {
        var k :| 0 <= k < batch && FairOrder(targets, cursor)[k] == n;
        FairOrderOnTheWay(targets, cursor, k, batch - 1);
      }
    }
    SeenSize(targets, cursor, batch);
    Disjoint(Ahead(names, after, target), seen, Ahead(names, cursor, target));
  }

  lemma Missed(targets: seq<string>, cursor: string, batch: nat, target: string) returns (m: nat)
    requires target in targets && batch >= 1 && target !in Visited(targets, cursor, batch)
    ensures batch <= m < |targets| && FairOrder(targets, cursor)[m] == target
    ensures CursorAfter(targets, cursor, batch) == FairOrder(targets, cursor)[batch - 1]
  {
    var fair, visited := FairOrder(targets, cursor), Visited(targets, cursor, batch);
    FairMembers(targets, cursor);
    m :| 0 <= m < |fair| && fair[m] == target;
    assert forall i :: 0 <= i < |visited| ==> visited[i] == fair[i] && visited[i] != target;
  }

  lemma {:induction false} SeenSize(targets: seq<string>, cursor: string, count: nat)
    requires Ascending16(targets) && count <= |targets|
    ensures |Seen(targets, cursor, count)| == count
  {
    if count > 0 {
      SeenSize(targets, cursor, count - 1);
      SeenMore(targets, cursor, count);
    }
  }

  lemma SeenMore(targets: seq<string>, cursor: string, count: nat)
    requires Ascending16(targets) && 1 <= count <= |targets|
    ensures Seen(targets, cursor, count) == Seen(targets, cursor, count - 1) + {FairOrder(targets, cursor)[count - 1]}
    ensures FairOrder(targets, cursor)[count - 1] !in Seen(targets, cursor, count - 1)
  {
    forall k | 0 <= k < count - 1 ensures FairOrder(targets, cursor)[k] != FairOrder(targets, cursor)[count - 1] {
      FairOrderOnTheWay(targets, cursor, k, count - 1);
    }
  }

  lemma Disjoint(a: set<string>, b: set<string>, whole: set<string>)
    requires a <= whole && b <= whole && a !! b
    ensures |a| + |b| <= |whole|
  {
    assert |a + b| == |a| + |b|;
    SubsetSize(a + b, whole);
  }

  // Passes in a run.

  /** The names that the steps move the cursor to, in order. */
  function CursorMoves(steps: seq<Step>): seq<string> {
    if steps == [] then [] else MoveOf(steps[0]) + CursorMoves(steps[1..])
  }

  function MoveOf(step: Step): seq<string> {
    if step.DoMoveCursor? then [step.name] else []
  }

  lemma CursorStep(limits: Limits, s: State, step: Step)
    requires !step.DoReopen?
    ensures Next(limits, s, step).cursor == if step.DoMoveCursor? then step.name else s.cursor
  {
    if step.DoTryHead? {
      StartRowsDb(limits, s, Window(s.db.queue, step.target), step.now, step.room);
    }
  }

  lemma LastMove(steps: seq<Step>)
    requires steps != []
    ensures var moves, rest := CursorMoves(steps), CursorMoves(steps[1..]);
            && (rest == [] ==> moves == MoveOf(steps[0]))
            && (rest != [] ==> moves != [] && moves[|moves| - 1] == rest[|rest| - 1])
  {
    LastOf(MoveOf(steps[0]), CursorMoves(steps[1..]));
  }

  lemma LastOf(a: seq<string>, b: seq<string>)
    ensures b == [] ==> a + b == a
    ensures b != [] ==> (a + b)[|a + b| - 1] == b[|b| - 1]
  {
  }

  /** Within one process nothing but a replay pass touches the cursor. */
  lemma {:induction false} CursorFrame(limits: Limits, s: State, steps: seq<Step>)
    requires forall i :: 0 <= i < |steps| ==> !steps[i].DoReopen?
    ensures var moves := CursorMoves(steps);
            Run(limits, s, steps).cursor == if moves == [] then s.cursor else moves[|moves| - 1]
    decreases |steps|
  {
    if steps != [] {
      CursorStep(limits, s, steps[0]);
      CursorFrame(limits, Next(limits, s, steps[0]), steps[1..]);
      LastMove(steps);
    }
  }

  /** The visits of a pass: the cursor moves and the head of the target is started. */
  function PassSteps(visited: seq<string>, share: nat, now: int, canReplay: bool): seq<Step> {
    if visited == [] then []
    else [DoMoveCursor(visited[0]), DoTryHead(visited[0], share, now, canReplay)]
         + PassSteps(visited[1..], share, now, canReplay)
  }

  lemma {:induction false} PassMoves(visited: seq<string>, share: nat, now: int, canReplay: bool)
    ensures var steps := PassSteps(visited, share, now, canReplay);
            CursorMoves(steps) == visited && forall i :: 0 <= i < |steps| ==> steps[i].DoMoveCursor? || steps[i].DoTryHead?
  {
    if visited != [] {
      PassMoves(visited[1..], share, now, canReplay);
      var steps, rest := PassSteps(visited, share, now, canReplay), PassSteps(visited[1..], share, now, canReplay);
      assert steps[1..] == [DoTryHead(visited[0], share, now, canReplay)] + rest && steps[1..][1..] == rest;
    }
  }

  /** What happens up to the start of a pass, and what happens while it is under way, its own steps among them. */
  datatype Turn = Turn(idle: seq<Step>, pass: seq<Step>)

  predicate OneProcess(turn: Turn) {
    && (forall i :: 0 <= i < |turn.idle| ==> !turn.idle[i].DoReopen?)
    && (forall i :: 0 <= i < |turn.pass| ==> !turn.pass[i].DoReopen?)
  }

  function StartOf(limits: Limits, s: State, turn: Turn): State {
    Run(limits, s, turn.idle)
  }

  function EndOf(limits: Limits, s: State, turn: Turn): State {
    Run(limits, StartOf(limits, s, turn), turn.pass)
  }

  /** A pass in full: its moves are the names that its start selects, whatever other steps fall between them. */
  ghost predicate FullPass(limits: Limits, s: State, turn: Turn, batch: nat) {
    var start := StartOf(limits, s, turn);
    && OneProcess(turn) && CursorMoves(turn.idle) == []
    && CursorMoves(turn.pass) == Visited(ReplayTargets(start.db.policy, start.db.totals), start.cursor, batch)
  }

  /** A full pass that the target waits for, with all that wait among the names. */
  ghost predicate AwaitedPass(
    limits: Limits, s: State, turn: Turn, batch: nat, target: string, names: set<string>)
  {
    var start := StartOf(limits, s, turn);
    FullPass(limits, s, turn, batch) && Waits(start, target) && forall t: string :: Waits(start, t) ==> t in names
  }

  function StateAt(limits: Limits, s: State, turns: seq<Turn>, k: nat): State
    requires k <= |turns|
  {
    if k == 0 then s else EndOf(limits, StateAt(limits, s, turns, k - 1), turns[k - 1])
  }

  ghost predicate AwaitedAt(
    limits: Limits, s: State, turns: seq<Turn>, batch: nat, target: string, names: set<string>, k: nat)
    requires k < |turns|
  {
    AwaitedPass(limits, StateAt(limits, s, turns, k), turns[k], batch, target, names)
  }

  /** A run made of such passes. */
  ghost predicate AwaitedPasses(
    limits: Limits, s: State, turns: seq<Turn>, batch: nat, target: string, names: set<string>)
  {
    forall k :: 0 <= k < |turns| ==> AwaitedAt(limits, s, turns, batch, target, names, k)
  }

  lemma AgreedOrder(targets: seq<string>, names: set<string>)
    requires Ascending(targets) && OrdersAgree(names) && forall t :: t in targets ==> t in names
    ensures Ascending16(targets)
  {
    forall i, j | 0 <= i < j < |targets| ensures Less16(targets[i], targets[j]) {
      assert targets[i] in names && targets[j] in names;
    }
  }

  /** What an awaited pass visits, and where it leaves the cursor. */
  lemma AwaitedTargets(
    limits: Limits, s: State, turn: Turn, batch: nat, target: string, names: set<string>) returns (targets: seq<string>)
    requires Inv(s) && AwaitedPass(limits, s, turn, batch, target, names)
    ensures Ascending(targets) && target in targets && forall t :: t in targets ==> t in names
    ensures forall t :: t in targets ==> Waits(StartOf(limits, s, turn), t)
    ensures CursorMoves(turn.pass) == Visited(targets, s.cursor, batch)
    ensures EndOf(limits, s, turn).cursor == CursorAfter(targets, s.cursor, batch)
  {
    var start := StartOf(limits, s, turn);
    targets := ReplayTargets(start.db.policy, start.db.totals);
    RunKeepsInv(limits, s, turn.idle);
    forall t: string ensures t in targets <==> Waits(start, t) {
      WaitingTargets(start, t);
    }
    ReplayTargetsMeaning(start.db.policy, start.db.totals);
    CursorFrame(limits, s, turn.idle);
    CursorFrame(limits, start, turn.pass);
  }

  lemma TurnProgress(limits: Limits, s: State, turn: Turn, batch: nat, target: string, names: set<string>)
    requires Inv(s) && AwaitedPass(limits, s, turn, batch, target, names) && batch >= 1 && OrdersAgree(names)
    ensures target in names
    ensures target in CursorMoves(turn.pass)
            || |Ahead(names, EndOf(limits, s, turn).cursor, target)| + batch <= |Ahead(names, s.cursor, target)|
  {
    var targets := AwaitedTargets(limits, s, turn, batch, target, names);
    AgreedOrder(targets, names);
    if target !in CursorMoves(turn.pass) {
      PassProgress(names, targets, s.cursor, batch, target);
    }
  }

  lemma {:induction false} InvAt(limits: Limits, s: State, turns: seq<Turn>, k: nat)
    requires Inv(s) && k <= |turns|
    ensures Inv(StateAt(limits, s, turns, k))
  {
    if k > 0 {
      var before := StateAt(limits, s, turns, k - 1);
      InvAt(limits, s, turns, k - 1);
      RunKeepsInv(limits, before, turns[k - 1].idle);
      RunKeepsInv(limits, StartOf(limits, before, turns[k - 1]), turns[k - 1].pass);
    }
  }

  ghost function Distance(names: set<string>, s: State, target: string): nat {
    |Ahead(names, s.cursor, target)|
  }

  lemma PassShortens(
    limits: Limits, s: State, turns: seq<Turn>, batch: nat, target: string, names: set<string>, k: nat)
    requires Inv(s) && AwaitedPasses(limits, s, turns, batch, target, names) && batch >= 1 && k < |turns|
    requires OrdersAgree(names)
    ensures target in names
    ensures target in CursorMoves(turns[k].pass)
            || Distance(names, StateAt(limits, s, turns, k + 1), target) + batch
               <= Distance(names, StateAt(limits, s, turns, k), target)
  {
    InvAt(limits, s, turns, k);
    assert AwaitedAt(limits, s, turns, batch, target, names, k);
    TurnProgress(limits, StateAt(limits, s, turns, k), turns[k], batch, target, names);
  }

  lemma {:induction false} DistanceFalls(
    limits: Limits, s: State, turns: seq<Turn>, batch: nat, target: string, names: set<string>, k: nat)
    requires Inv(s) && AwaitedPasses(limits, s, turns, batch, target, names) && batch >= 1 && k <= |turns|
    requires OrdersAgree(names)
    requires forall i :: 0 <= i < k ==> target !in CursorMoves(turns[i].pass)
    ensures Distance(names, StateAt(limits, s, turns, k), target) + k * batch <= Distance(names, s, target)
    ensures k > 0 ==> target in names
  {
    if k > 0 {
      DistanceFalls(limits, s, turns, batch, target, names, k - 1);
      PassShortens(limits, s, turns, batch, target, names, k - 1);
      OneMore(k, batch);
    }
  }

  lemma OneMore(k: nat, batch: nat)
    requires k > 0
    ensures k * batch == (k - 1) * batch + batch
  {
  }

  lemma DistanceBounds(names: set<string>, s: State, target: string)
    ensures Distance(names, s, target) <= |names| && (target in names ==> Distance(names, s, target) > 0)
  {
    Less16Irreflexive(target);
    Less16Total(s.cursor, target);
    assert target in names ==> target in Ahead(names, s.cursor, target);
    SubsetSize(Ahead(names, s.cursor, target), names);
  }

  ghost predicate EverVisited(turns: seq<Turn>, target: string) {
    exists k :: 0 <= k < |turns| && target in CursorMoves(turns[k].pass)
  }

  /** Fairness, in every run of one process: among N names that both orders agree on, a target that waits is visited
      within ceil(N / batch) passes, wherever the cursor is, whichever other targets come and go, and whatever other
      steps fall between the passes and into them. */
  lemma ReplayIsFair(limits: Limits, s: State, turns: seq<Turn>, batch: nat, target: string, names: set<string>)
    requires Inv(s) && AwaitedPasses(limits, s, turns, batch, target, names) && OrdersAgree(names)
    requires batch >= 1 && turns != [] && |turns| >= (|names| + batch - 1) / batch
    ensures EverVisited(turns, target)
  {
    if forall k :: 0 <= k < |turns| ==> target !in CursorMoves(turns[k].pass) {
      DistanceFalls(limits, s, turns, batch, target, names, |turns|);
      DistanceBounds(names, s, target);
      DistanceBounds(names, StateAt(limits, s, turns, |turns|), target);
      CeilingTimes(|names|, batch, |turns|);
      assert false;
    }
  }

  lemma CeilingTimes(n: nat, batch: nat, k: nat)
    requires batch >= 1 && k >= (n + batch - 1) / batch
    ensures k * batch >= n
  {
    var c := (n + batch - 1) / batch;
    assert c * batch >= n;
    assert k * batch >= c * batch;
  }
}
