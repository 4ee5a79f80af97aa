/** Runs of the audit log: events are recorded, days are anchored, and the notary's receipts come
    back, on one clock that never runs backwards. What the stored anchors are worth later. */
module AnchorRuns {
  import opened Wrappers
  import opened AuditChain

  datatype Audit = Audit(rows: seq<Row>, anchors: map<int, Anchor>)

  /** One call and the moment it is served. A receipt is the notary's reply about a stored anchor. */
  datatype Call =
    | Log(at: int, action: string, hasOldState: bool, id: nat, eventId: nat, payload: string)
    | AnchorDay(at: int, day: int)
    | Receipt(at: int, day: int, receipt: string)

  function Next(h: HashFn, s: Audit, c: Call): Audit {
    match c
    case Log(at, action, hasOldState, id, eventId, payload) =>
      if action in STATE_CHANGE_ACTIONS && !hasOldState then s
      else s.(rows := Appended(h, s.rows, id, eventId, payload, at))
    case AnchorDay(_, day) => s.(anchors := Anchored(s.rows, s.anchors, day))
    case Receipt(_, day, receipt) =>
      if day in s.anchors then s.(anchors := s.anchors[day := s.anchors[day].(receipt := receipt)]) else s
  }

  function After(h: HashFn, calls: seq<Call>, n: nat): Audit
    requires n <= |calls|
  {
    if n == 0 then Audit([], map[]) else Next(h, After(h, calls, n - 1), calls[n - 1])
  }

  predicate OnOneClock(calls: seq<Call>) {
    forall i, j :: 0 <= i < j < |calls| ==> calls[i].at <= calls[j].at
  }

  // ----- the log over a run -----

  lemma {:induction false} RowsGrow(h: HashFn, calls: seq<Call>, m: nat, n: nat)
    requires m <= n <= |calls|
    ensures After(h, calls, m).rows <= After(h, calls, n).rows
    decreases n
  {
    hide Next;
    if m < n {
      RowsGrow(h, calls, m, n - 1);
      OneCallRows(h, After(h, calls, n - 1), calls[n - 1]);
    }
  }

  /** The log stays one chain, and its rows carry the clock's order. */
  lemma {:induction false} RunKeepsLog(h: HashFn, calls: seq<Call>, n: nat)
    requires OnOneClock(calls) && n <= |calls|
    ensures ChainOk(h, After(h, calls, n).rows) && InOrder(After(h, calls, n).rows)
    ensures forall i :: 0 <= i < |After(h, calls, n).rows| ==>
              n > 0 && After(h, calls, n).rows[i].createdAt <= calls[n - 1].at
  {
    hide ChainOk;
    if n == 0 {
      EmptyChain(h);
    } else {
      RunKeepsLog(h, calls, n - 1);
      var rows := After(h, calls, n - 1).rows;
      var c := calls[n - 1];
      if c.Log? {
        AppendKeepsChain(h, rows, Row(c.id, c.eventId, c.payload, c.at, h(Head(rows) + c.payload)));
      }
    }
  }

  lemma EmptyChain(h: HashFn)
    ensures ChainOk(h, [])
  {
  }

  /** A call leaves the rows alone, or adds one of its own moment. */
  lemma OneCallRows(h: HashFn, s: Audit, c: Call)
    ensures var rows := Next(h, s, c).rows;
            rows == s.rows || (|rows| == |s.rows| + 1 && s.rows <= rows && rows[|s.rows|].createdAt == c.at)
  {
  }

  /** Rows that come after call `m` are not older than it. */
  lemma {:induction false} LaterRowsAreLater(h: HashFn, calls: seq<Call>, m: nat, n: nat)
    requires OnOneClock(calls) && m <= n <= |calls| && m < |calls|
    ensures |After(h, calls, m).rows| <= |After(h, calls, n).rows|
    ensures forall i :: |After(h, calls, m).rows| <= i < |After(h, calls, n).rows| ==>
              After(h, calls, n).rows[i].createdAt >= calls[m].at
    decreases n
  {
    hide Next;
    if m < n {
      LaterRowsAreLater(h, calls, m, n - 1);
      OneCallRows(h, After(h, calls, n - 1), calls[n - 1]);
    }
  }

  // ----- the anchor table over a run -----

  /** The last of the first `n` calls that anchored the day, or -1. */
  function LastAnchoring(calls: seq<Call>, n: nat, day: int): (k: int)
    requires n <= |calls|
    ensures -1 <= k < n && (k >= 0 ==> calls[k].AnchorDay? && calls[k].day == day)
  {
    if n == 0 then -1
    else if calls[n - 1].AnchorDay? && calls[n - 1].day == day then n - 1
    else LastAnchoring(calls, n - 1, day)
  }

  /** The receipt that came last for the stored anchor of the day, or none. */
  function LastReceipt(calls: seq<Call>, n: nat, day: int): string
    requires n <= |calls|
  {
    if n == 0 then ""
    else if calls[n - 1].Receipt? && calls[n - 1].day == day && LastAnchoring(calls, n - 1, day) >= 0
    then calls[n - 1].receipt
    else LastReceipt(calls, n - 1, day)
  }

  /** What the table holds: for each day ever anchored, the anchor of the log as it was when the day
      was anchored last, with the receipt that came last. Anchoring again keeps the receipt. */
  lemma {:induction false} TableHoldsLast(h: HashFn, calls: seq<Call>, n: nat, day: int)
    requires n <= |calls|
    ensures var k := LastAnchoring(calls, n, day);
            if k < 0 then day !in After(h, calls, n).anchors && LastReceipt(calls, n, day) == ""
            else
              && day in After(h, calls, n).anchors
              && After(h, calls, n).anchors[day] == AnchorOf(After(h, calls, k).rows, day, LastReceipt(calls, n, day))
  {
    hide HeadIndex, PreviousIndex, CountWithin, HashAt, EventAt, Appended;
    if n > 0 {
      TableHoldsLast(h, calls, n - 1, day);
    }
  }

  lemma {:induction false} CountGrows(rows: seq<Row>, m: nat, n: nat, from: int, to: int)
    requires m <= n <= |rows|
    ensures CountWithin(rows, m, from, to) <= CountWithin(rows, n, from, to)
    decreases n
  {
    if m < n {
      CountGrows(rows, m, n - 1, from, to);
    }
  }

  /** A row of the day that the anchor did not see changes its count. */
  lemma MissedRowCounts(rows: seq<Row>, all: seq<Row>, i: nat, day: int, receipt: string)
    requires rows <= all && |rows| <= i < |all| && DayStart(day) <= all[i].createdAt < DayStart(day + 1)
    ensures AnchorOf(all, day, receipt).count > AnchorOf(rows, day, receipt).count
  {
    var from, to := DayStart(day), DayStart(day + 1);
    SamePrefix(rows, all, |rows|, from, to);
    CountGrows(all, |rows|, i, from, to);
    CountGrows(all, i + 1, |all|, from, to);
    assert CountWithin(all, i + 1, from, to) == CountWithin(all, i, from, to) + 1;
    hide CountWithin, HeadIndex, PreviousIndex;
  }

  /** STORED ANCHORS, EXACTLY. In every run the stored anchor of a day, taken last once the day had
      begun, is the anchor of the log as it is now, receipt included, if and only if no event of the
      day was recorded after it was taken. */
  lemma StoredAnchorIff(h: HashFn, calls: seq<Call>, n: nat, day: int)
    requires OnOneClock(calls) && n <= |calls|
    requires LastAnchoring(calls, n, day) >= 0 && calls[LastAnchoring(calls, n, day)].at >= DayStart(day)
    ensures day in After(h, calls, n).anchors
    ensures var seen, now := After(h, calls, LastAnchoring(calls, n, day)).rows, After(h, calls, n);
            now.anchors[day] == AnchorOf(now.rows, day, LastReceipt(calls, n, day))
            <==> forall i :: |seen| <= i < |now.rows| ==> now.rows[i].createdAt >= DayStart(day + 1)
  {
    hide After, AnchorOf, LastAnchoring, LastReceipt;
    var k, receipt := LastAnchoring(calls, n, day), LastReceipt(calls, n, day);
    var seen, rows := After(h, calls, k).rows, After(h, calls, n).rows;
    TableHoldsLast(h, calls, n, day);
    RowsGrow(h, calls, k, n);
    LaterRowsAreLater(h, calls, k, n);
    if i :| |seen| <= i < |rows| && rows[i].createdAt < DayStart(day + 1) {
      MissedRowCounts(seen, rows, i, day, receipt);
    } else {
      var more := rows[|seen|..];
      assert rows == seen + more;
      forall i | 0 <= i < |more| ensures more[i].createdAt >= DayStart(day + 1) {
        assert more[i] == rows[|seen| + i];
      }
      ReanchorIsStable(seen, more, day, receipt);
    }
  }

  /** The day's last anchoring came when the day was over. */
  predicate AnchoredClosed(calls: seq<Call>, n: nat, day: int)
    requires n <= |calls|
  {
    LastAnchoring(calls, n, day) >= 0 && calls[LastAnchoring(calls, n, day)].at >= DayStart(day + 1)
  }

  /** A stored anchor taken after its day closed stays the anchor of the whole log, receipt included,
      and its hash stays the chain value over exactly the events before the end of that day. */
  lemma ClosedAnchorsStay(h: HashFn, calls: seq<Call>, n: nat, day: int)
    requires OnOneClock(calls) && n <= |calls| && AnchoredClosed(calls, n, day)
    ensures var now := After(h, calls, n);
            && day in now.anchors
            && now.anchors[day] == AnchorOf(now.rows, day, LastReceipt(calls, n, day))
            && Before(now.rows, |now.rows|, DayStart(day + 1)) <= |now.rows|
            && now.anchors[day].headHash
               == Chain(h, Payloads(now.rows), Before(now.rows, |now.rows|, DayStart(day + 1)))
  {
    hide After, AnchorOf, LastAnchoring, LastReceipt, Chain, Before;
    LaterRowsAreLater(h, calls, LastAnchoring(calls, n, day), n);
    StoredAnchorIff(h, calls, n, day);
    RunKeepsLog(h, calls, n);
    AnchorIsChainValue(h, After(h, calls, n).rows, day, LastReceipt(calls, n, day));
  }

  /** Stored anchors of closed days compose: folding the events between onto the earlier one gives the
      later one. */
  lemma StoredAnchorsCompose(h: HashFn, calls: seq<Call>, n: nat, day: int, later: int)
    requires OnOneClock(calls) && n <= |calls| && day <= later
    requires AnchoredClosed(calls, n, day) && AnchoredClosed(calls, n, later)
    ensures var now := After(h, calls, n);
            var lo := Before(now.rows, |now.rows|, DayStart(day + 1));
            var hi := Before(now.rows, |now.rows|, DayStart(later + 1));
            && day in now.anchors && later in now.anchors && lo <= hi <= |now.rows|
            && Fold(h, now.anchors[day].headHash, Payloads(now.rows), lo, hi) == now.anchors[later].headHash
  {
    hide After, AnchoredClosed, Fold, Before;
    var rows := After(h, calls, n).rows;
    ClosedAnchorsStay(h, calls, n, day);
    ClosedAnchorsStay(h, calls, n, later);
    RunKeepsLog(h, calls, n);
    AnchorsCompose(h, rows, day, later, "");
    HeadIgnoresReceipt(rows, day, LastReceipt(calls, n, day));
    HeadIgnoresReceipt(rows, later, LastReceipt(calls, n, later));
  }

  lemma HeadIgnoresReceipt(rows: seq<Row>, day: int, receipt: string)
    ensures AnchorOf(rows, day, receipt).headHash == AnchorOf(rows, day, "").headHash
  {
  }

  /** Day 0 anchored at second 10, and an event at second 20. */
  function EarlyRun(): (calls: seq<Call>)
    ensures |calls| == 2
  {
    [AnchorDay(10, 0), Log(20, "SITTING_LOCKED", true, 1, 1, "{}")]
  }

  /** The stored anchor of an unfinished day goes stale. */
  lemma EarlyAnchorGoesStale(h: HashFn)
    ensures var now := After(h, EarlyRun(), 2);
            && OnOneClock(EarlyRun()) && 0 in now.anchors
            && now.anchors[0] != AnchorOf(now.rows, 0, LastReceipt(EarlyRun(), 2, 0))
  {
    var calls := EarlyRun();
    assert LastAnchoring(calls, 1, 0) == 0 && LastAnchoring(calls, 2, 0) == 0;
    assert After(h, calls, 0).rows == [];
    assert After(h, calls, 1).rows == [];
    assert |After(h, calls, 2).rows| == 1 && After(h, calls, 2).rows[0].createdAt == 20;
    hide After, AnchorOf, LastAnchoring, LastReceipt;
    StoredAnchorIff(h, calls, 2, 0);
  }
}
