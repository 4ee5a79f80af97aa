/** The daily T-30 monitor (`monitor_t30_lock`): it locks every configured, approved sitting
    whose date is at most thirty days ahead, in date order, and one failure must not stop it. */
module LockMonitor {
  import opened Wrappers
  import opened SittingLifecycle
  import opened SittingLaws

  const T30_LOCK_OFFSET_DAYS: int := 30

  /** The candidate query. */
  predicate Due(s: Sitting, today: int) {
    && s.status == Configured && s.approvedAt.Some?
    && DayOf(s.fields, SittingDate) <= today + T30_LOCK_OFFSET_DAYS
  }

  const WHY: string := "Automatic T-30 lock"

  /** What one run does to one sitting. */
  function Monitored(s: Sitting, today: int, now: int): Sitting {
    if Due(s, today) then Next(s, Lock(None, WHY, now)) else s
  }

  datatype Failure = Failure(ref: string, error: Error)

  // ----- the query's order -----

  predicate Distinct(order: seq<nat>) {
    forall i, j :: 0 <= i < j < |order| ==> order[i] != order[j]
  }

  predicate InRange(order: seq<nat>, rows: seq<Sitting>) {
    forall k :: 0 <= k < |order| ==> order[k] < |rows|
  }

  predicate ByDate(order: seq<nat>, rows: seq<Sitting>)
    requires InRange(order, rows)
  {
    forall i, j :: 0 <= i < j < |order| ==>
      DayOf(rows[order[i]].fields, SittingDate) <= DayOf(rows[order[j]].fields, SittingDate)
  }

  function InsertByDate(i: nat, order: seq<nat>, rows: seq<Sitting>): (r: seq<nat>)
    requires i < |rows| && InRange(order, rows)
    ensures InRange(r, rows) && forall k :: k in r <==> k == i || k in order
  {
    if order == [] || DayOf(rows[i].fields, SittingDate) < DayOf(rows[order[0]].fields, SittingDate) then
      [i] + order
    else
      [order[0]] + InsertByDate(i, order[1..], rows)
  }

  lemma {:induction false} InsertKeepsDistinct(i: nat, order: seq<nat>, rows: seq<Sitting>)
    requires i < |rows| && InRange(order, rows) && Distinct(order) && i !in order
    ensures Distinct(InsertByDate(i, order, rows))
  {
    if order != [] && DayOf(rows[i].fields, SittingDate) >= DayOf(rows[order[0]].fields, SittingDate) {
      InsertKeepsDistinct(i, order[1..], rows);
      assert order[0] !in InsertByDate(i, order[1..], rows);
    }
  }

  lemma {:induction false} InsertKeepsByDate(i: nat, order: seq<nat>, rows: seq<Sitting>)
    requires i < |rows| && InRange(order, rows) && ByDate(order, rows)
    ensures ByDate(InsertByDate(i, order, rows), rows)
  {
    if order != [] && DayOf(rows[i].fields, SittingDate) >= DayOf(rows[order[0]].fields, SittingDate) {
      InsertKeepsByDate(i, order[1..], rows);
      var rest := InsertByDate(i, order[1..], rows);
      forall j | 0 <= j < |rest|
        ensures DayOf(rows[order[0]].fields, SittingDate) <= DayOf(rows[rest[j]].fields, SittingDate)
      {
        assert rest[j] in rest;
      }
    }
  }

  /** The positions of the due rows among the first `n`, ordered by sitting date. */
  function DueOrder(rows: seq<Sitting>, n: nat, today: int): (r: seq<nat>)
    requires n <= |rows|
    ensures InRange(r, rows) && forall k :: k in r <==> 0 <= k < n && Due(rows[k], today)
  {
    if n == 0 then []
    else if Due(rows[n - 1], today) then InsertByDate(n - 1, DueOrder(rows, n - 1, today), rows)
    else DueOrder(rows, n - 1, today)
  }

  /** The query lists each due row once, earliest sitting date first. */
  lemma {:induction false} DueOrderIsSorted(rows: seq<Sitting>, n: nat, today: int)
    requires n <= |rows|
    ensures Distinct(DueOrder(rows, n, today)) && ByDate(DueOrder(rows, n, today), rows)
  {
    hide Due, InsertByDate, DayOf;
    if n > 0 {
      DueOrderIsSorted(rows, n - 1, today);
      if Due(rows[n - 1], today) {
        InsertKeepsDistinct(n - 1, DueOrder(rows, n - 1, today), rows);
        InsertKeepsByDate(n - 1, DueOrder(rows, n - 1, today), rows);
      }
    }
  }

  /** The rows of the table, as the query reads them. */
  function Rows(table: seq<SittingRecord>): (rows: seq<Sitting>)
    reads set r | r in table
    ensures |rows| == |table| && forall i :: 0 <= i < |table| ==> rows[i] == table[i].Row()
  {
    seq(|table|, i requires 0 <= i < |table| reads set r | r in table => table[i].Row())
  }

  /** The refs that the first `n` candidates add to the list of locked sittings, in their order. */
  function LockedRefs(rows: seq<Sitting>, order: seq<nat>, n: nat, now: int): seq<string>
    requires n <= |order| && InRange(order, rows)
  {
    if n == 0 then []
    else
      LockedRefs(rows, order, n - 1, now)
      + if Step(rows[order[n - 1]], Lock(None, WHY, now)).Ok? then [rows[order[n - 1]].ref] else []
  }

  /** The failures that the first `n` candidates add, in their order. */
  function Failures(rows: seq<Sitting>, order: seq<nat>, n: nat, now: int): seq<Failure>
    requires n <= |order| && InRange(order, rows)
  {
    if n == 0 then []
    else
      var s := rows[order[n - 1]];
      Failures(rows, order, n - 1, now)
      + match Step(s, Lock(None, WHY, now))
        case Ok(_) => []
        case Err(e) => [Failure(s.ref, e)]
  }

  function RefsOf(rows: seq<Sitting>, order: seq<nat>): (refs: seq<string>)
    requires InRange(order, rows)
    ensures |refs| == |order| && forall k :: 0 <= k < |order| ==> refs[k] == rows[order[k]].ref
  {
    seq(|order|, k requires 0 <= k < |order| => rows[order[k]].ref)
  }

  predicate AllReachable(rows: seq<Sitting>) {
    forall i :: 0 <= i < |rows| ==> Inv(rows[i])
  }

  /** The monitor: each candidate is locked or its failure noted, and the loop goes on. The two
      lists name every candidate once, in date order. */
  method MonitorT30Lock(table: seq<SittingRecord>, today: int, now: int)
    returns (locked: seq<string>, errored: seq<Failure>)
    requires forall i, j :: 0 <= i < j < |table| ==> table[i] != table[j]
    modifies set r | r in table
    ensures forall i :: 0 <= i < |table| ==> table[i].Row() == Monitored(old(table[i].Row()), today, now)
    ensures var rows := old(Rows(table));
            var order := DueOrder(rows, |rows|, today);
            locked == LockedRefs(rows, order, |order|, now) && errored == Failures(rows, order, |order|, now)
  {
    hide Step, Inv, Next, ByDate, DueOrder, LockedRefs, Failures;
    var rows := Rows(table);
    var candidates := DueOrder(rows, |rows|, today);
    DueOrderIsSorted(rows, |rows|, today);
    locked, errored := [], [];
    NoCandidates(rows, candidates, now);
    for k := 0 to |candidates|
      invariant locked == LockedRefs(rows, candidates, k, now) && errored == Failures(rows, candidates, k, now)
      invariant forall i :: 0 <= i < |table| ==>
        table[i].Row() == if i in candidates[..k] then Next(rows[i], Lock(None, WHY, now)) else rows[i]
    {
      var i := candidates[k];
      assert i in candidates && i !in candidates[..k];
      assert candidates[..k + 1] == candidates[..k] + [i];
      OneCandidate(rows, candidates, k, now);
      var error := table[i].LockSitting(None, WHY, now);
      if error.None? {
        locked := locked + [table[i].ref];
      } else {
        errored := errored + [Failure(table[i].ref, error.value)];
      }
    }
    assert candidates[..|candidates|] == candidates;
  }

  lemma NoCandidates(rows: seq<Sitting>, order: seq<nat>, now: int)
    requires InRange(order, rows)
    ensures LockedRefs(rows, order, 0, now) == [] && Failures(rows, order, 0, now) == []
  {
  }

  /** What one more candidate adds to the two lists. */
  lemma OneCandidate(rows: seq<Sitting>, order: seq<nat>, k: nat, now: int)
    requires k < |order| && InRange(order, rows)
    ensures var s := rows[order[k]];
            var error := Raised(Step(s, Lock(None, WHY, now)));
            && LockedRefs(rows, order, k + 1, now)
               == LockedRefs(rows, order, k, now) + (if error.None? then [s.ref] else [])
            && Failures(rows, order, k + 1, now)
               == Failures(rows, order, k, now) + (if error.None? then [] else [Failure(s.ref, error.value)])
  {
    hide Step;
  }

  // ----- what a run achieves -----

  /** EXACTLY THE DUE. On reachable sittings a run locks exactly the due ones, fails on none, and
      leaves all others as they are. */
  lemma RunLocksExactlyDue(s: Sitting, today: int, now: int)
    requires Inv(s)
    ensures Due(s, today) ==>
              Step(s, Lock(None, WHY, now)).Ok? && Monitored(s, today, now).status == Locked
              && Monitored(s, today, now).lockedAt == Some(now)
    ensures !Due(s, today) ==> Monitored(s, today, now) == s
    ensures Inv(Monitored(s, today, now))
  {
    if Due(s, today) {
      ConfiguredIsLockable(s, None, WHY, now);
      StepKeepsInv(s, Lock(None, WHY, now));
    }
  }

  lemma {:induction false} DueAllLock(rows: seq<Sitting>, order: seq<nat>, n: nat, today: int, now: int)
    requires AllReachable(rows) && n <= |order| && InRange(order, rows)
    requires forall k :: 0 <= k < |order| ==> Due(rows[order[k]], today)
    ensures LockedRefs(rows, order, n, now) == RefsOf(rows, order)[..n] && Failures(rows, order, n, now) == []
  {
    hide Step, Inv, Due;
    if n > 0 {
      DueAllLock(rows, order, n - 1, today, now);
      assert Inv(rows[order[n - 1]]) && Due(rows[order[n - 1]], today);
      RunLocksExactlyDue(rows[order[n - 1]], today, now);
    }
  }

  /** THE REPORT. On reachable sittings a run reports exactly the refs of the due ones, earliest
      sitting date first, as locked, and no failure. */
  lemma ReportListsDue(rows: seq<Sitting>, today: int, now: int)
    requires AllReachable(rows)
    ensures var order := DueOrder(rows, |rows|, today);
            && LockedRefs(rows, order, |order|, now) == RefsOf(rows, order)
            && Failures(rows, order, |order|, now) == []
            && Distinct(order) && ByDate(order, rows)
            && forall i :: 0 <= i < |rows| ==> (Due(rows[i], today) <==> i in order)
  {
    var order := DueOrder(rows, |rows|, today);
    DueOrderIsSorted(rows, |rows|, today);
    hide Step, Inv, Due, LockedRefs, Failures, DueOrder, ByDate;
    forall k | 0 <= k < |order| ensures Due(rows[order[k]], today) {
      assert order[k] in order;
    }
    DueAllLock(rows, order, |order|, today, now);
  }

  /** IDEMPOTENCE. A second run on the same day finds nothing due and changes nothing. */
  lemma SecondRunIsIdle(s: Sitting, today: int, now: int, later: int)
    requires Inv(s)
    ensures !Due(Monitored(s, today, now), today)
    ensures Monitored(Monitored(s, today, now), today, later) == Monitored(s, today, now)
  {
    RunLocksExactlyDue(s, today, now);
  }

  /** The table after one run. */
  function MonitoredRows(rows: seq<Sitting>, today: int, now: int): (after: seq<Sitting>)
    ensures |after| == |rows| && forall i :: 0 <= i < |rows| ==> after[i] == Monitored(rows[i], today, now)
  {
    seq(|rows|, i requires 0 <= i < |rows| => Monitored(rows[i], today, now))
  }

  lemma {:induction false} NoneDue(rows: seq<Sitting>, n: nat, today: int)
    requires n <= |rows| && forall i :: 0 <= i < |rows| ==> !Due(rows[i], today)
    ensures DueOrder(rows, n, today) == []
  {
    hide Due;
    if n > 0 {
      NoneDue(rows, n - 1, today);
    }
  }

  /** THE SECOND RUN. On reachable sittings a second run on the same day has no candidate, reports two
      empty lists, and leaves the table as it is. */
  lemma SecondRunReportsNothing(rows: seq<Sitting>, today: int, now: int, later: int)
    requires AllReachable(rows)
    ensures var after := MonitoredRows(rows, today, now);
            var order := DueOrder(after, |after|, today);
            && order == [] && LockedRefs(after, order, |order|, later) == []
            && Failures(after, order, |order|, later) == []
            && MonitoredRows(after, today, later) == after
  {
    hide Inv, Due, Monitored, DueOrder;
    var after := MonitoredRows(rows, today, now);
    forall i | 0 <= i < |rows|
      ensures !Due(after[i], today) && Monitored(after[i], today, later) == after[i]
    {
      assert Inv(rows[i]);
      SecondRunIsIdle(rows[i], today, now, later);
    }
    NoneDue(after, |after|, today);
  }

  /** THIRTY DAYS. A run locks an unlocked, reachable sitting if and only if it is configured and approved
      and its date is at most thirty days after today; it then stamps the moment of the run. */
  lemma LocksThirtyDaysAhead(s: Sitting, today: int, now: int)
    requires Inv(s) && !IsLocked(s.status)
    ensures Monitored(s, today, now).status == Locked
       <==> s.status == Configured && s.approvedAt.Some? && DayOf(s.fields, SittingDate) - today <= 30
    ensures Monitored(s, today, now).status == Locked ==>
              var t := Monitored(s, today, now);
              && t.lockedAt == Some(now) && t.fields == s.fields && t.papers == s.papers && |t.events| == 1
              && t.events[0] == AutoLock(None, "Automatic T-30 lock", Live(t))
    ensures Monitored(s, today, now).status != Locked ==> Monitored(s, today, now) == s
  {
    assert ConfigurationOk(s) && HistoryOk(s);
    if Due(s, today) {
      ConfiguredIsLockable(s, None, WHY, now);
      LockLeaves(s, now);
    }
    hide Ready, ConfigurationOk, HistoryOk, Step, Next, Live;
  }

  lemma LockLeaves(s: Sitting, now: int)
    requires s.status == Configured && s.events == [] && Step(s, Lock(None, WHY, now)).Ok?
    ensures var t := Next(s, Lock(None, WHY, now));
            && t.status == Locked && t.lockedAt == Some(now) && t.fields == s.fields && t.papers == s.papers
            && |t.events| == 1 && t.events[0] == AutoLock(None, "Automatic T-30 lock", Live(t))
  {
    hide Ready;
  }
}
