/** Which names replay can leave out, for any batch: the program orders the targets by code points and compares the
    cursor by UTF-16 units, so that behind some names it may go on with the one after the next. */
module ReplaySkips {
  import opened Common
  import opened TextOrders
  import opened JournalModel
  import opened JournalInvariant
  import opened ReplayFairness

  /** Going around: the place `k`, at most one round too far. */
  function Around(k: nat, n: nat): nat {
    if k < n then k else k - n
  }

  /** Behind the name at `i` the program does not go on with the next of these targets but with the one after it. */
  predicate Skips(targets: seq<string>, i: nat)
    requires i < |targets|
  {
    Around(SplitAt(targets, targets[i]), |targets|) == Around(i + 2, |targets|)
  }

  ghost predicate SkipsAmong(names: set<string>, targets: seq<string>, i: nat) {
    Ascending(targets) && (forall t :: t in targets ==> t in names) && i < |targets| && Skips(targets, i)
  }

  /** Some batch + 1 of the names are such targets. */
  ghost predicate CanSkip(names: set<string>, batch: nat) {
    exists targets: seq<string>, i: nat :: |targets| == batch + 1 && SkipsAmong(names, targets, i)
  }

  // When names cannot be left out.

  lemma {:induction false} DistinctSize(targets: seq<string>, names: set<string>)
    requires Ascending(targets) && forall t :: t in targets ==> t in names
    ensures |targets| <= |names|
  {
    if targets != [] {
      var n := |targets| - 1;
      forall t | t in targets[..n] ensures t in names - {targets[n]} {
        var i :| 0 <= i < n && targets[i] == t;
        LessIrreflexive(t);
      }
      assert targets[n] in names;
      DistinctSize(targets[..n], names - {targets[n]});
    }
  }

  /** Not among names that the two orders agree on, and not with a batch for all names. */
  lemma NeverSkips(names: set<string>, batch: nat)
    requires batch >= 1 && (OrdersAgree(names) || batch >= |names|)
    ensures !CanSkip(names, batch)
  {
    if CanSkip(names, batch) {
      var targets, i :| |targets| == batch + 1 && SkipsAmong(names, targets, i);
      DistinctSize(targets, names);
      AgreedOrder(targets, names);
      AgreedSplit(targets, i);
      assert false;
    }
  }

  lemma AgreedSplit(targets: seq<string>, i: nat)
    requires Ascending16(targets) && i < |targets|
    ensures SplitAt(targets, targets[i]) == i + 1
  {
    var split, name := SplitAt(targets, targets[i]), targets[i];
    if split == i {
      Less16Irreflexive(name);
      assert false;
    } else if split < i {
      Less16Asymmetric(targets[split], name);
      assert false;
    }
  }

  /** With a batch of one: exactly if the two orders disagree on some names. */
  lemma BatchOfOne(names: set<string>)
    ensures CanSkip(names, 1) <==> !OrdersAgree(names)
  {
    if a, b :| a in names && b in names && Less(a, b) && !Less16(a, b) {
      var targets := [a, b];
      Less16Irreflexive(a);
      assert SplitAt(targets, a) == 2;
      assert SkipsAmong(names, targets, 0);
    }
    if OrdersAgree(names) {
      NeverSkips(names, 1);
    }
  }

  /** With any batch: if one name is behind the greatest in UTF-16 units, and that one ends a full window, as when an
      emoji is the last of 64 names and a full-width letter the 65th. */
  lemma GreatestLastSkips(names: set<string>, targets: seq<string>)
    requires |targets| >= 2 && Ascending(targets) && forall t :: t in targets ==> t in names
    requires forall t :: t in targets ==> !Less16(targets[|targets| - 2], t)
    ensures CanSkip(names, |targets| - 1)
  {
    var i := |targets| - 2;
    assert forall k :: 0 <= k < |targets| ==> targets[k] in targets;
    assert SplitAt(targets, targets[i]) == |targets|;
    assert SkipsAmong(names, targets, i);
  }

  // Otherwise every pass brings the cursor nearer to the target, going around in code point order.

  predicate Between(cursor: string, name: string, target: string) {
    if Less(cursor, target) then Less(cursor, name) && !Less(target, name)
    else Less(cursor, name) || !Less(target, name)
  }

  ghost function Left(names: set<string>, cursor: string, target: string): set<string> {
    set n | n in names && Between(cursor, n, target)
  }

  lemma LeftShrinks(names: set<string>, cursor: string, middle: string, target: string)
    requires middle in names && middle != target && Between(cursor, middle, target)
    ensures |Left(names, middle, target)| < |Left(names, cursor, target)|
  {
    forall n | n in Left(names, middle, target) ensures n in Left(names, cursor, target) - {middle} {
      BetweenTransitive(cursor, middle, n, target);
    }
    SubsetSize(Left(names, middle, target), Left(names, cursor, target) - {middle});
  }

  lemma BetweenTransitive(cursor: string, middle: string, name: string, target: string)
    requires Between(cursor, middle, target) && middle != target && Between(middle, name, target)
    ensures Between(cursor, name, target) && name != middle
  {
    LessTotal(middle, target);
    LessTotal(cursor, target);
    LessIrreflexive(middle);
    forall a, b, c | Less(a, b) && Less(b, c)
      && a in {cursor, middle, name, target} && b in {cursor, middle, name, target}
      && c in {cursor, middle, name, target}
      ensures Less(a, c)
    {
      LessTransitive(a, b, c);
    }
    forall a, b | Less(a, b) && Less(b, a) ensures false {
      LessAsymmetric(a, b);
    }
  }

  lemma LeftBounds(names: set<string>, cursor: string, target: string)
    requires cursor in names && target in names && cursor != target
    ensures 0 < |Left(names, cursor, target)| < |names|
  {
    LessIrreflexive(cursor);
    LessIrreflexive(target);
    LessTotal(cursor, target);
    assert target in Left(names, cursor, target);
    assert cursor !in Left(names, cursor, target) by {
      if Less(target, cursor) { LessAsymmetric(target, cursor); }
    }
    SubsetSize(Left(names, cursor, target), names - {cursor});
  }

  // Of a pass that does not, the targets that it visited before its last, the cursor and the missed target would skip.

  lemma Joined(a: seq<string>, b: seq<string>)
    requires Ascending(a) && Ascending(b) && (a == [] || b == [] || Less(a[|a| - 1], b[0]))
    ensures Ascending(a + b)
  {
    forall i, j | 0 <= i < |a| && 0 <= j < |b| ensures Less(a[i], b[j]) {
      if i < |a| - 1 {
        LessTransitive(a[i], a[|a| - 1], b[0]);
      }
      if j > 0 {
        LessTransitive(a[i], b[0], b[j]);
      }
    }
  }

  lemma Merged(low: seq<string>, cursor: string, target: string, high: seq<string>)
    requires Ascending(low) && Ascending(high) && Less(cursor, target)
    requires (low == [] || Less(low[|low| - 1], cursor)) && (high == [] || Less(target, high[0]))
    ensures Ascending(low + [cursor, target] + high)
  {
    Joined(low, [cursor, target]);
    Joined(low + [cursor, target], high);
  }

  /** What the program finds behind the cursor. */
  lemma SplitIs(targets: seq<string>, cursor: string, k: nat)
    requires k <= |targets| && (forall i :: 0 <= i < k ==> !Less16(cursor, targets[i]))
    requires k < |targets| ==> Less16(cursor, targets[k])
    ensures SplitAt(targets, cursor) == k
  {
  }

  /** The cursor and the target are the last two, and the program goes on at the first. */
  lemma LastTwoSkip(names: set<string>, low: seq<string>, cursor: string, target: string)
    requires Ascending(low) && low != [] && Less(low[|low| - 1], cursor) && Less(cursor, target)
    requires cursor in names && target in names && forall t :: t in low ==> t in names
    requires Less16(cursor, low[0])
    ensures CanSkip(names, |low| + 1)
  {
    var targets, i := low + [cursor, target], |low|;
    Joined(low, [cursor, target]);
    assert targets[0] == low[0] && targets[i] == cursor;
    SplitIs(targets, cursor, 0);
    assert SkipsAmong(names, targets, i);
  }

  /** The target follows the cursor, and the program goes on behind it. */
  lemma NextTwoSkip(names: set<string>, low: seq<string>, cursor: string, target: string, high: seq<string>)
    requires Ascending(low) && Ascending(high) && Less(cursor, target)
    requires (low == [] || Less(low[|low| - 1], cursor)) && (high == [] || Less(target, high[0]))
    requires cursor in names && target in names
    requires (forall t :: t in low ==> t in names && !Less16(cursor, t)) && forall t :: t in high ==> t in names
    requires !Less16(cursor, target) && (high == [] || Less16(cursor, high[0]))
    ensures CanSkip(names, |low| + 1 + |high|)
  {
    var targets, i := low + [cursor, target] + high, |low|;
    Merged(low, cursor, target, high);
    assert targets[i] == cursor && (high != [] ==> targets[i + 2] == high[0]);
    forall k | 0 <= k < i + 2 ensures !Less16(cursor, targets[k]) {
      Less16Irreflexive(cursor);
      assert targets[k] == if k < i then low[k] else if k == i then cursor else target;
      assert k < i ==> low[k] in low;
    }
    SplitIs(targets, cursor, i + 2);
    assert SkipsAmong(names, targets, i);
  }

  /** The target is the first and the cursor the last, and the program goes on behind the target. */
  lemma LastAndFirstSkip(names: set<string>, target: string, high: seq<string>, cursor: string)
    requires Ascending(high) && high != [] && Less(target, high[0]) && Less(high[|high| - 1], cursor)
    requires cursor in names && target in names && forall t :: t in high ==> t in names
    requires !Less16(cursor, target) && Less16(cursor, high[0])
    ensures CanSkip(names, |high| + 1)
  {
    var targets, i := [target] + high + [cursor], |high| + 1;
    Joined([target], high);
    Joined([target] + high, [cursor]);
    assert targets[0] == target && targets[1] == high[0] && targets[i] == cursor;
    SplitIs(targets, cursor, 1);
    assert SkipsAmong(names, targets, i);
  }

  lemma Slice(targets: seq<string>, from: nat, to: nat) returns (part: seq<string>)
    requires Ascending(targets) && from <= to <= |targets|
    ensures Ascending(part) && |part| == to - from
    ensures forall t :: t in part ==> t in targets && exists k :: from <= k < to && targets[k] == t
    ensures part != [] ==> part[0] == targets[from] && part[|part| - 1] == targets[to - 1]
  {
    part := targets[from..to];
    forall t | t in part ensures t in targets && exists k :: from <= k < to && targets[k] == t {
      var i :| 0 <= i < |part| && part[i] == t;
      assert targets[from + i] == t;
    }
  }

  /** What lies before the last name of the window lies before the cursor. */
  lemma BelowCursor(name: string, after: string, cursor: string)
    requires Less(name, after) && !Less(cursor, after)
    ensures Less(name, cursor)
  {
    LessTotal(cursor, after);
    if after != cursor {
      LessTransitive(name, after, cursor);
    }
  }

  /** Where the name at place `k` of the fair order stands among the targets. */
  function Place(s: nat, n: nat, k: nat): nat {
    if s + k < n then s + k else s + k - n
  }

  lemma FairAt(targets: seq<string>, cursor: string, k: nat)
    requires k < |targets|
    ensures var at := Place(SplitAt(targets, cursor), |targets|, k);
            at < |targets| && FairOrder(targets, cursor)[k] == targets[at]
  {
  }

  lemma SamePlace(targets: seq<string>, i: nat, j: nat)
    requires Ascending(targets) && i < |targets| && j < |targets| && targets[i] == targets[j]
    ensures i == j
  {
    LessIrreflexive(targets[i]);
  }

  /** Where a window ends that leaves out the target at `p`. */
  lemma WindowEnd(targets: seq<string>, cursor: string, batch: nat, p: nat) returns (m: nat)
    requires Ascending(targets) && p < |targets| && batch >= 1 && targets[p] !in Visited(targets, cursor, batch)
    ensures var s, n := SplitAt(targets, cursor), |targets|;
            && batch <= m < n && p == Place(s, n, m)
            && CursorAfter(targets, cursor, batch) == targets[Place(s, n, batch - 1)]
  {
    m := Missed(targets, cursor, batch, targets[p]);
    FairAt(targets, cursor, m);
    FairAt(targets, cursor, batch - 1);
    SamePlace(targets, Place(SplitAt(targets, cursor), |targets|, m), p);
  }

  lemma NotBetween(cursor: string, name: string, target: string)
    requires !Between(cursor, name, target) && cursor != target
    ensures Less(name, target) ==> Less(cursor, target)
    ensures Less(cursor, name) ==> Less(cursor, target) && Less(target, name)
    ensures Less(cursor, target) || Less(target, cursor)
  {
    LessTotal(cursor, target);
    if Less(name, target) {
      LessAsymmetric(name, target);
    }
  }

  lemma PassComesNearer(names: set<string>, targets: seq<string>, cursor: string, batch: nat, p: nat)
    requires Ascending(targets) && p < |targets| && cursor in names && cursor != targets[p]
    requires (forall t :: t in targets ==> t in names) && batch >= 2 && !CanSkip(names, batch)
    requires targets[p] !in Visited(targets, cursor, batch)
    ensures Between(cursor, CursorAfter(targets, cursor, batch), targets[p])
  {
    var s, n, target, after := SplitAt(targets, cursor), |targets|, targets[p], CursorAfter(targets, cursor, batch);
    var m := WindowEnd(targets, cursor, batch, p);
    if !Between(cursor, after, target) {
      NotBetween(cursor, after, target);
      if m < n - s {
        LessAsymmetric(after, target);
        WindowBefore(names, targets, cursor, batch, p, s);
      } else if batch <= n - s && Less(cursor, target) {
        WindowBeyond(names, targets, cursor, batch, p, s);
      } else if batch <= n - s {
        WindowBehind(names, targets, cursor, batch, p, s);
      } else {
        LessAsymmetric(after, target);
        WindowAround(names, targets, cursor, p, s, batch - 1 - (n - s));
      }
      assert false;
    }
  }

  lemma WindowBefore(names: set<string>, targets: seq<string>, cursor: string, batch: nat, p: nat, s: nat)
    requires Ascending(targets) && p < |targets| && cursor in names && batch >= 2
    requires forall t :: t in targets ==> t in names
    requires s + batch <= p && Less16(cursor, targets[s])
    requires Less(cursor, targets[p]) && !Less(cursor, targets[s + batch - 1])
    ensures CanSkip(names, batch)
  {
    var target := targets[p];
    var low := Slice(targets, s, s + batch - 1);
    BelowCursor(targets[s + batch - 2], targets[s + batch - 1], cursor);
    LastTwoSkip(names, low, cursor, target);
  }

  lemma WindowBehind(names: set<string>, targets: seq<string>, cursor: string, batch: nat, p: nat, s: nat)
    requires Ascending(targets) && p < s && s + batch <= |targets| && cursor in names && batch >= 2
    requires forall t :: t in targets ==> t in names
    requires !Less16(cursor, targets[p]) && Less16(cursor, targets[s])
    requires Less(targets[p], cursor) && !Less(cursor, targets[s + batch - 1])
    ensures CanSkip(names, batch)
  {
    var target := targets[p];
    var high := Slice(targets, s, s + batch - 1);
    BelowCursor(targets[s + batch - 2], targets[s + batch - 1], cursor);
    LastAndFirstSkip(names, target, high, cursor);
  }

  lemma WindowBeyond(names: set<string>, targets: seq<string>, cursor: string, batch: nat, p: nat, s: nat)
    requires Ascending(targets) && p < s && s + batch <= |targets| && cursor in names && batch >= 2
    requires forall t :: t in targets ==> t in names
    requires !Less16(cursor, targets[p]) && Less16(cursor, targets[s]) && Less(cursor, targets[p])
    ensures CanSkip(names, batch)
  {
    var target := targets[p];
    var high := Slice(targets, s, s + batch - 1);
    NextTwoSkip(names, [], cursor, target, high);
  }

  lemma WindowAround(names: set<string>, targets: seq<string>, cursor: string, p: nat, s: nat, e: nat)
    requires Ascending(targets) && e < p < s <= |targets| && cursor in names
    requires forall t :: t in targets ==> t in names
    requires forall k :: 0 <= k < s ==> !Less16(cursor, targets[k])
    requires s < |targets| ==> Less16(cursor, targets[s])
    requires Less(cursor, targets[p]) && !Less(cursor, targets[e])
    ensures CanSkip(names, e + 1 + |targets| - s)
  {
    var target := targets[p];
    var low := Slice(targets, 0, e);
    var high := Slice(targets, s, |targets|);
    if e > 0 {
      BelowCursor(targets[e - 1], targets[e], cursor);
    }
    NextTwoSkip(names, low, cursor, target, high);
  }

  // Runs.

  lemma TurnNearer(limits: Limits, s: State, turn: Turn, batch: nat, target: string, names: set<string>)
    requires Inv(s) && AwaitedPass(limits, s, turn, batch, target, names) && batch >= 2 && !CanSkip(names, batch)
    requires target !in CursorMoves(turn.pass)
    ensures var end := EndOf(limits, s, turn);
            && target in names && end.cursor in names && end.cursor != target
            && (s.cursor in names && s.cursor != target ==> Between(s.cursor, end.cursor, target))
  {
    var targets := AwaitedTargets(limits, s, turn, batch, target, names);
    LastVisited(targets, s.cursor, batch, target);
    var p :| 0 <= p < |targets| && targets[p] == target;
    if s.cursor in names && s.cursor != target {
      PassComesNearer(names, targets, s.cursor, batch, p);
    }
  }

  lemma LastVisited(targets: seq<string>, cursor: string, batch: nat, target: string)
    requires target in targets && batch >= 1 && target !in Visited(targets, cursor, batch)
    ensures CursorAfter(targets, cursor, batch) in targets && CursorAfter(targets, cursor, batch) != target
  {
    FairMembers(targets, cursor);
    var visited := Visited(targets, cursor, batch);
    assert visited[|visited| - 1] in visited && visited[|visited| - 1] in FairOrder(targets, cursor);
  }

  lemma PassLeaves(
    limits: Limits, s: State, turns: seq<Turn>, batch: nat, target: string, names: set<string>, k: nat)
    requires Inv(s) && AwaitedPasses(limits, s, turns, batch, target, names) && batch >= 2 && !CanSkip(names, batch)
    requires k < |turns| && target !in CursorMoves(turns[k].pass)
    ensures var before, after := StateAt(limits, s, turns, k).cursor, StateAt(limits, s, turns, k + 1).cursor;
            && target in names && after in names && after != target
            && (before in names && before != target ==> Between(before, after, target))
  {
    InvAt(limits, s, turns, k);
    assert AwaitedAt(limits, s, turns, batch, target, names, k);
    TurnNearer(limits, StateAt(limits, s, turns, k), turns[k], batch, target, names);
  }

  /** After `k` passes without it, so many names are no longer between the cursor and the target. */
  lemma {:induction false} LeftFalls(
    limits: Limits, s: State, turns: seq<Turn>, batch: nat, target: string, names: set<string>, k: nat)
    requires Inv(s) && AwaitedPasses(limits, s, turns, batch, target, names) && batch >= 2 && !CanSkip(names, batch)
    requires 1 <= k <= |turns| && forall i :: 0 <= i < k ==> target !in CursorMoves(turns[i].pass)
    ensures var cursor := StateAt(limits, s, turns, k).cursor;
            && target in names && cursor in names && cursor != target
            && |Left(names, cursor, target)| + k <= |names|
  {
    var before, after := StateAt(limits, s, turns, k - 1).cursor, StateAt(limits, s, turns, k).cursor;
    PassLeaves(limits, s, turns, batch, target, names, k - 1);
    LeftBounds(names, after, target);
    if k > 1 {
      LeftFalls(limits, s, turns, batch, target, names, k - 1);
      LeftShrinks(names, before, after, target);
    }
  }

  /** Names none of which can be left out, with any batch: in every run of one process, a target that waits is visited
      within as many passes as there are names. */
  lemma NoSkipIsFair(limits: Limits, s: State, turns: seq<Turn>, batch: nat, target: string, names: set<string>)
    requires Inv(s) && AwaitedPasses(limits, s, turns, batch, target, names) && batch >= 1 && !CanSkip(names, batch)
    requires turns != [] && |turns| >= |names|
    ensures EverVisited(turns, target)
  {
    if batch == 1 {
      BatchOfOne(names);
      ReplayIsFair(limits, s, turns, batch, target, names);
    } else if forall k :: 0 <= k < |turns| ==> target !in CursorMoves(turns[k].pass) {
      LeftFalls(limits, s, turns, batch, target, names, |turns|);
      LeftBounds(names, StateAt(limits, s, turns, |turns|).cursor, target);
      assert false;
    }
  }
}
