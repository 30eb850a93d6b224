/** Which rows a head starts: in turn, as many as there is room for, and no fewer. */
module JournalStarts {
  import opened JournalRows
  import opened JournalModel
  import opened JournalInvariant
  import opened JournalBounds

  /** Pending rows of the target before the row. */
  ghost function Earlier(q: seq<Row>, target: string, r: Row): set<Row> {
    set x | x in q && !x.confirmed && x.target == target && x.key < r.key
  }

  /** Among the first 1024 pending rows of the target. */
  ghost predicate InReach(q: seq<Row>, target: string, r: Row) {
    r in q && !r.confirmed && r.target == target && |Earlier(q, target, r)| < HEAD_WINDOW
  }

  /** The row is not due, or has no place beside the flights. */
  predicate Unfit(limits: Limits, s: State, r: Row, now: int) {
    r.retryAt > now || |s.flights| >= limits.maxInFlight || s.activeBytes + r.bytes > limits.maxInFlightBytes
  }

  /** The first row in reach that is not in flight is such a row. */
  ghost predicate Halted(limits: Limits, s: State, target: string, now: int) {
    exists r :: InReach(s.db.queue, target, r) && !InFlight(s.flights, r.id) && Unfit(limits, s, r, now)
      && forall x :: x in Earlier(s.db.queue, target, r) ==> InFlight(s.flights, x.id)
  }

  // The window.

  function Firsts(rows: seq<Row>, n: nat): set<Row>
    requires n <= |rows|
  {
    set i | 0 <= i < n :: rows[i]
  }

  lemma {:induction false} FirstsSize(rows: seq<Row>, n: nat)
    requires n <= |rows| && forall i, j :: 0 <= i < j < |rows| ==> rows[i].key < rows[j].key
    ensures |Firsts(rows, n)| == n
  {
    if n > 0 {
      FirstsSize(rows, n - 1);
      assert Firsts(rows, n) == Firsts(rows, n - 1) + {rows[n - 1]};
      assert rows[n - 1] !in Firsts(rows, n - 1);
    }
  }

  lemma EarlierRows(q: seq<Row>, target: string, i: nat)
    requires WellKeyed(q) && i < |PendingRows(q, target)|
    ensures var rows := PendingRows(q, target);
            Earlier(q, target, rows[i]) == Firsts(rows, i) && |Earlier(q, target, rows[i])| == i
  {
    var rows := PendingRows(q, target);
    PendingRowsMembers(q, target);
    PendingRowsOrdered(q, target);
    FirstsSize(rows, i);
    forall x ensures x in Earlier(q, target, rows[i]) <==> x in Firsts(rows, i) {
      if x in Earlier(q, target, rows[i]) {
        var k :| 0 <= k < |rows| && rows[k] == x;
        assert k < i;
      }
      if x in Firsts(rows, i) {
        var k :| 0 <= k < i && rows[k] == x;
        assert rows[k] in rows;
      }
    }
  }

  lemma WindowReach(q: seq<Row>, target: string, r: Row)
    requires WellKeyed(q)
    ensures r in Window(q, target) <==> InReach(q, target, r)
  {
    var rows, window := PendingRows(q, target), Window(q, target);
    PendingRowsMembers(q, target);
    assert forall x :: x in window ==> x in rows;
    if r in rows {
      var i :| 0 <= i < |rows| && rows[i] == r;
      EarlierRows(q, target, i);
      if i < |window| {
        assert window[i] == r;
      }
      if r in window {
        var k :| 0 <= k < |window| && window[k] == r;
        PendingRowsOrdered(q, target);
        assert rows[k] == rows[i];
        assert k == i;
      }
    }
  }

  // The scan.

  lemma {:induction false} ScanStops(limits: Limits, s: State, window: seq<Row>, p: nat, now: int, room: nat)
    requires p <= |window| && forall k :: 0 <= k < p ==> InFlight(s.flights, window[k].id)
    ensures var next := StartRows(limits, s, window[p..], now, room);
            && |s.flights| <= |next.flights| <= |s.flights| + room
            && (|next.flights| == |s.flights| + room
                || (forall k :: 0 <= k < |window| ==> InFlight(next.flights, window[k].id))
                || StopsAt(limits, next, window, now))
    decreases |window| - p
  {
    if p < |window| {
      var row := window[p];
      assert window[p..][1..] == window[p + 1..];
      if InFlight(s.flights, row.id) {
        ScanStops(limits, s, window, p + 1, now, room);
      } else if MustWait(limits, s, row, now, room) {
        assert room == 0 || StopsAtRow(limits, s, window, now, p);
      } else {
        LaunchedInFlight(s, row, window, p);
        ScanStops(limits, Launch(s, row), window, p + 1, now, room - 1);
      }
    }
  }

  ghost predicate StopsAtRow(limits: Limits, s: State, window: seq<Row>, now: int, n: nat)
    requires n < |window|
  {
    && !InFlight(s.flights, window[n].id) && Unfit(limits, s, window[n], now)
    && forall k :: 0 <= k < n ==> InFlight(s.flights, window[k].id)
  }

  ghost predicate StopsAt(limits: Limits, s: State, window: seq<Row>, now: int) {
    exists n :: 0 <= n < |window| && StopsAtRow(limits, s, window, now, n)
  }

  lemma StopIsHalt(limits: Limits, s: State, target: string, now: int)
    requires WellKeyed(s.db.queue) && StopsAt(limits, s, Window(s.db.queue, target), now)
    ensures Halted(limits, s, target, now)
  {
    var q, window, rows := s.db.queue, Window(s.db.queue, target), PendingRows(s.db.queue, target);
    var n :| 0 <= n < |window| && StopsAtRow(limits, s, window, now, n);
    assert window[n] in window && rows[n] == window[n];
    WindowReach(q, target, window[n]);
    EarlierRows(q, target, n);
    forall x | x in Earlier(q, target, window[n]) ensures InFlight(s.flights, x.id) {
      var k :| 0 <= k < n && rows[k] == x;
      assert window[k] == x;
    }
  }

  /** A head goes on until it has started as many rows as it may, or every row in reach is in flight, or the first one
      that is not must wait. */
  lemma HeadsComplete(limits: Limits, s: State, target: string, room: nat, now: int)
    requires Inv(s) && !s.closed && !s.storageError && !IsPaused(s.db.policy, target)
    ensures var next := Next(limits, s, DoTryHead(target, room, now, true));
            || |next.flights| == |s.flights| + room
            || (forall r :: InReach(s.db.queue, target, r) ==> InFlight(next.flights, r.id))
            || Halted(limits, next, target, now)
  {
    var window := Window(s.db.queue, target);
    var next := StartRows(limits, s, window, now, room);
    assert window[0..] == window;
    ScanStops(limits, s, window, 0, now, room);
    StartRowsDb(limits, s, window, now, room);
    if StopsAt(limits, next, window, now) {
      StopIsHalt(limits, next, target, now);
    } else if |next.flights| != |s.flights| + room {
      forall r | InReach(s.db.queue, target, r) ensures InFlight(next.flights, r.id) {
        WindowReach(s.db.queue, target, r);
        var k :| 0 <= k < |window| && window[k] == r;
      }
    }
  }

  lemma {:induction false} StartedFlights(limits: Limits, s: State, rows: seq<Row>, now: int, room: nat)
    ensures var next := StartRows(limits, s, rows, now, room);
            && s.flights <= next.flights && |next.flights| <= |s.flights| + room
            && next.(flights := s.flights, activeBytes := s.activeBytes, nextToken := s.nextToken) == s
            && forall j :: |s.flights| <= j < |next.flights| ==> Started(next.flights[j], rows, now)
    decreases |rows|
  {
    if rows != [] {
      assert forall f: Flight :: Started(f, rows[1..], now) ==> Started(f, rows, now);
      if InFlight(s.flights, rows[0].id) {
        StartedFlights(limits, s, rows[1..], now, room);
      } else if !MustWait(limits, s, rows[0], now, room) {
        var s1 := Launch(s, rows[0]);
        StartedFlights(limits, s1, rows[1..], now, room - 1);
        var next := StartRows(limits, s1, rows[1..], now, room - 1);
        assert next.flights[|s.flights|] == s1.flights[|s.flights|];
      }
    }
  }

  predicate Started(f: Flight, rows: seq<Row>, now: int) {
    f.phase.Installed? && f.row in rows && f.row.retryAt <= now
  }

  /** What a head does at most: nothing for a target that may not write; else it installs writes of stored rows of the
      target that are pending, in reach and due, no more than it may, and touches nothing else. */
  lemma HeadsSound(limits: Limits, s: State, target: string, room: nat, now: int, canReplay: bool)
    requires Inv(s)
    ensures var next := Next(limits, s, DoTryHead(target, room, now, canReplay));
            && (s.closed || s.storageError || IsPaused(s.db.policy, target) || !canReplay ==> next == s)
            && s.flights <= next.flights && |next.flights| <= |s.flights| + room
            && next.(flights := s.flights, activeBytes := s.activeBytes, nextToken := s.nextToken) == s
            && forall j :: |s.flights| <= j < |next.flights| ==>
                 var f := next.flights[j];
                 f.phase.Installed? && f.row.retryAt <= now && InReach(s.db.queue, target, f.row)
  {
    var window := Window(s.db.queue, target);
    StartedFlights(limits, s, window, now, room);
    forall r | r in window ensures InReach(s.db.queue, target, r) {
      WindowReach(s.db.queue, target, r);
    }
  }
}
