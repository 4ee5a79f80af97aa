/** The append-only audit log and its daily anchors. The hash is any function from strings to
    64-character digests: nothing is assumed about collisions. The serialised payload of an
    event is taken as a value. */
module AuditChain {
  import opened Wrappers

  type HashFn = string -> string

  const DIGEST_LENGTH: nat := 64

  const GENESIS: string := "0000000000000000000000000000000000000000000000000000000000000000"

  ghost predicate IsDigest(h: HashFn) {
    forall x: string :: |h(x)| == DIGEST_LENGTH
  }

  /** Folding the payloads p[lo..hi) onto a starting chain value. */
  function Fold(h: HashFn, start: string, p: seq<string>, lo: nat, hi: nat): string
    requires lo <= hi <= |p|
    decreases hi - lo
  {
    if lo == hi then start else h(Fold(h, start, p, lo, hi - 1) + p[hi - 1])
  }

  /** The chain value after the first `n` events of the log. */
  function Chain(h: HashFn, p: seq<string>, n: nat): string
    requires n <= |p|
  {
    Fold(h, GENESIS, p, 0, n)
  }

  /** The string that is hashed for event `i`. */
  function HashInput(h: HashFn, p: seq<string>, i: nat): string
    requires i < |p|
  {
    Chain(h, p, i) + p[i]
  }

  lemma {:induction false} FoldComposes(h: HashFn, start: string, p: seq<string>, lo: nat, mid: nat, hi: nat)
    requires lo <= mid <= hi <= |p|
    ensures Fold(h, Fold(h, start, p, lo, mid), p, mid, hi) == Fold(h, start, p, lo, hi)
    decreases hi
  {
    if mid < hi {
      FoldComposes(h, start, p, lo, mid, hi - 1);
    }
  }

  lemma {:induction false} FoldReadsOnly(h: HashFn, start: string, p: seq<string>, q: seq<string>, lo: nat, hi: nat)
    requires lo <= hi <= |p| && hi <= |q| && forall i :: lo <= i < hi ==> p[i] == q[i]
    ensures Fold(h, start, p, lo, hi) == Fold(h, start, q, lo, hi)
    decreases hi
  {
    if lo < hi {
      FoldReadsOnly(h, start, p, q, lo, hi - 1);
    }
  }

  lemma ChainLength(h: HashFn, p: seq<string>, n: nat)
    requires IsDigest(h) && n <= |p|
    ensures |Chain(h, p, n)| == DIGEST_LENGTH
  {
  }

  // ----- tamper evidence -----

  /** What two different logs with one head hash give away: two different inputs with equal hash,
      one from each log, or an input of one of them that hashes to the genesis value. */
  datatype Evidence = Collision(i: nat, j: nat) | GenesisPreimage(inFirst: bool, k: nat)

  predicate Collides(h: HashFn, x: string, y: string) {
    x != y && h(x) == h(y)
  }

  predicate HashesToGenesis(h: HashFn, x: string) {
    h(x) == GENESIS
  }

  predicate Proves(h: HashFn, a: seq<string>, b: seq<string>, e: Evidence) {
    if e.Collision? then
      e.i < |a| && e.j < |b| && Collides(h, HashInput(h, a, e.i), HashInput(h, b, e.j))
    else if e.inFirst then
      e.k < |a| && HashesToGenesis(h, HashInput(h, a, e.k))
    else
      e.k < |b| && HashesToGenesis(h, HashInput(h, b, e.k))
  }

  /** The fixed length of the first part makes the concatenation readable in one way only. */
  lemma SplitAtDigest(x: string, p: string, y: string, q: string)
    requires |x| == |y| && x + p == y + q
    ensures x == y && p == q
  {
    assert (x + p)[..|x|] == x && (y + q)[..|y|] == y;
    assert (x + p)[|x|..] == p && (y + q)[|y|..] == q;
  }

  /** TAMPER EVIDENCE, with no assumption on the hash but its length: from any two different
      payload logs with the same head hash, concrete evidence is found. */
  lemma {:induction false} FindEvidence(h: HashFn, a: seq<string>, m: nat, b: seq<string>, n: nat) returns (e: Evidence)
    requires IsDigest(h) && m <= |a| && n <= |b|
    requires a[..m] != b[..n] && Chain(h, a, m) == Chain(h, b, n)
    ensures Proves(h, a, b, e)
    decreases m
  {
    if m == 0 {
      e := GenesisPreimage(false, n - 1);
    } else if n == 0 {
      e := GenesisPreimage(true, m - 1);
    } else if HashInput(h, a, m - 1) != HashInput(h, b, n - 1) {
      e := Collision(m - 1, n - 1);
    } else {
      ChainLength(h, a, m - 1);
      ChainLength(h, b, n - 1);
      SplitAtDigest(Chain(h, a, m - 1), a[m - 1], Chain(h, b, n - 1), b[n - 1]);
      assert a[..m] == a[..m - 1] + [a[m - 1]] && b[..n] == b[..n - 1] + [b[n - 1]];
      e := FindEvidence(h, a, m - 1, b, n - 1);
    }
  }

  // ----- the log -----

  datatype Row = Row(id: nat, eventId: nat, payload: string, createdAt: int, chainHash: string)

  function Payloads(rows: seq<Row>): (p: seq<string>)
    ensures |p| == |rows| && forall i :: 0 <= i < |rows| ==> p[i] == rows[i].payload
  {
    seq(|rows|, i requires 0 <= i < |rows| => rows[i].payload)
  }

  /** Every stored hash is the chain value of the log up to and including its row. */
  predicate ChainOk(h: HashFn, rows: seq<Row>) {
    forall i :: 0 <= i < |rows| ==> rows[i].chainHash == Chain(h, Payloads(rows), i + 1)
  }

  /** Two consistent stored logs that end in the same hash either hold the same payloads or
      yield evidence. In particular no stored payload can be changed, dropped, inserted or
      moved while the last hash is kept. */
  lemma SameHeadSameLog(h: HashFn, a: seq<Row>, b: seq<Row>) returns (e: Evidence)
    requires IsDigest(h) && ChainOk(h, a) && ChainOk(h, b) && a != [] && b != []
    requires a[|a| - 1].chainHash == b[|b| - 1].chainHash
    ensures Payloads(a) == Payloads(b) || Proves(h, Payloads(a), Payloads(b), e)
  {
    var p, q := Payloads(a), Payloads(b);
    assert p[..|p|] == p && q[..|q|] == q;
    if p != q {
      e := FindEvidence(h, p, |p|, q, |q|);
    } else {
      e := GenesisPreimage(true, 0);
    }
  }

  const STATE_CHANGE_ACTIONS: set<string> := {
    "USER_UPDATED", "USER_DEACTIVATED", "ROLE_ASSIGNED", "ROLE_REVOKED",
    "ROLE_PERMISSIONS_UPDATED", "ROLE_ASSIGNMENT_APPROVED",
    "ROLE_ASSIGNMENT_REJECTED", "DASHBOARD_PANEL_UPDATED",
    "BULK_IMPORT", "PROFILE_UPDATED"
  }

  datatype RecordError = MissingOldState

  function Head(rows: seq<Row>): string {
    if rows == [] then GENESIS else rows[|rows| - 1].chainHash
  }

  /** Appending a row leaves the chain values of the rows before it. */
  lemma ChainIgnoresLater(h: HashFn, rows: seq<Row>, row: Row, n: nat)
    requires n <= |rows|
    ensures Chain(h, Payloads(rows + [row]), n) == Chain(h, Payloads(rows), n)
  {
    FoldReadsOnly(h, GENESIS, Payloads(rows), Payloads(rows + [row]), 0, n);
  }

  lemma HeadIsChain(h: HashFn, rows: seq<Row>)
    requires ChainOk(h, rows)
    ensures Head(rows) == Chain(h, Payloads(rows), |rows|)
  {
  }

  lemma ChainUnfolds(h: HashFn, p: seq<string>, n: nat)
    requires 0 < n <= |p|
    ensures Chain(h, p, n) == h(Chain(h, p, n - 1) + p[n - 1])
  {
  }

  lemma AppendKeepsChain(h: HashFn, rows: seq<Row>, row: Row)
    requires ChainOk(h, rows) && row.chainHash == h(Head(rows) + row.payload)
    ensures ChainOk(h, rows + [row])
  {
    hide Chain, Head;
    var more := rows + [row];
    HeadIsChain(h, rows);
    ChainUnfolds(h, Payloads(more), |more|);
    ChainIgnoresLater(h, rows, row, |rows|);
    forall i | 0 <= i < |rows| ensures more[i].chainHash == Chain(h, Payloads(more), i + 1) {
      ChainIgnoresLater(h, rows, row, i + 1);
    }
  }

  // ----- daily anchors -----

  const DAY: int := 86400

  function DayStart(day: int): int { day * DAY }

  datatype Anchor = Anchor(headEvent: Option<nat>, headHash: string, count: nat, receipt: string)

  /** The last of the first `n` rows, in id order, created in [from, to); -1 when there is none. */
  function LastWithin(rows: seq<Row>, n: nat, from: int, to: int): (i: int)
    requires n <= |rows|
    ensures -1 <= i < n
    ensures i >= 0 ==> from <= rows[i].createdAt < to
    ensures forall j :: i < j < n ==> !(from <= rows[j].createdAt < to)
  {
    if n == 0 then -1
    else if from <= rows[n - 1].createdAt < to then n - 1
    else LastWithin(rows, n - 1, from, to)
  }

  function LastBefore(rows: seq<Row>, n: nat, to: int): (i: int)
    requires n <= |rows|
    ensures -1 <= i < n
    ensures i >= 0 ==> rows[i].createdAt < to
    ensures forall j :: i < j < n ==> rows[j].createdAt >= to
  {
    if n == 0 then -1 else if rows[n - 1].createdAt < to then n - 1 else LastBefore(rows, n - 1, to)
  }

  function CountWithin(rows: seq<Row>, n: nat, from: int, to: int): nat
    requires n <= |rows|
  {
    if n == 0 then 0
    else CountWithin(rows, n - 1, from, to) + if from <= rows[n - 1].createdAt < to then 1 else 0
  }

  function HeadIndex(rows: seq<Row>, day: int): int {
    LastWithin(rows, |rows|, DayStart(day), DayStart(day + 1))
  }

  function PreviousIndex(rows: seq<Row>, day: int): int {
    LastBefore(rows, |rows|, DayStart(day))
  }

  function HashAt(rows: seq<Row>, i: int): string
    requires -1 <= i < |rows|
  {
    if i >= 0 then rows[i].chainHash else GENESIS
  }

  function EventAt(rows: seq<Row>, i: int): Option<nat>
    requires -1 <= i < |rows|
  {
    if i >= 0 then Some(rows[i].eventId) else None
  }

  /** The anchor of a day: the day's last hash; without events, the last hash before the day;
      without any earlier event, the genesis value. */
  function AnchorOf(rows: seq<Row>, day: int, receipt: string): Anchor {
    Anchor(EventAt(rows, HeadIndex(rows, day)),
           if HeadIndex(rows, day) >= 0 then HashAt(rows, HeadIndex(rows, day))
           else HashAt(rows, PreviousIndex(rows, day)),
           CountWithin(rows, |rows|, DayStart(day), DayStart(day + 1)),
           receipt)
  }

  /** The log with one more linked row. */
  function Appended(h: HashFn, rows: seq<Row>, id: nat, eventId: nat, payload: string, createdAt: int): seq<Row> {
    rows + [Row(id, eventId, payload, createdAt, h(Head(rows) + payload))]
  }

  function ReceiptOf(anchors: map<int, Anchor>, day: int): string {
    if day in anchors then anchors[day].receipt else ""
  }

  /** The anchor table after anchoring a day: a new row, or a rewritten one that keeps its receipt. */
  function Anchored(rows: seq<Row>, anchors: map<int, Anchor>, day: int): map<int, Anchor> {
    anchors[day := AnchorOf(rows, day, ReceiptOf(anchors, day))]
  }

  class AuditLog {
    const h: HashFn
    var rows: seq<Row>
    var anchors: map<int, Anchor>

    ghost predicate Valid()
      reads this
    {
      ChainOk(h, rows)
    }

    constructor (h: HashFn)
      ensures Valid() && this.h == h && rows == [] && anchors == map[]
    {
      this.h := h;
      rows := [];
      anchors := map[];
    }

    /** `AuditEvent.record`: link the new row to the last one and append it. */
    method Record(action: string, hasOldState: bool, id: nat, eventId: nat, payload: string, createdAt: int)
      returns (r: Result<Row, RecordError>)
      requires Valid()
      modifies this`rows
      ensures Valid()
      ensures r.Err? <==> action in STATE_CHANGE_ACTIONS && !hasOldState
      ensures r.Err? ==> rows == old(rows)
      ensures r.Ok? ==> rows == old(rows) + [r.value]
      ensures r.Ok? ==> rows == Appended(h, old(rows), id, eventId, payload, createdAt)
      ensures r.Ok? ==> r.value == Row(id, eventId, payload, createdAt, Chain(h, Payloads(rows), |rows|))
    {
      if action in STATE_CHANGE_ACTIONS && !hasOldState {
        return Err(MissingOldState);
      }
      var previous := GENESIS;
      if |rows| > 0 {
        previous := rows[|rows| - 1].chainHash;
      }
      var row := Row(id, eventId, payload, createdAt, h(previous + payload));
      AppendKeepsChain(h, rows, row);
      rows := rows + [row];
      return Ok(row);
    }

    /** `daily_hash_anchor`: write or rewrite the anchor row of one day, keeping its receipt. */
    method DailyHashAnchor(day: int)
      modifies this`anchors
      ensures anchors == Anchored(rows, old(anchors), day)
    {
      var from, to := DayStart(day), DayStart(day + 1);
      var head := LastWithin(rows, |rows|, from, to);
      var count := CountWithin(rows, |rows|, from, to);
      var previous := LastBefore(rows, |rows|, from);
      var headHash := GENESIS;
      var headEvent := None;
      if head >= 0 {
        headHash, headEvent := rows[head].chainHash, Some(rows[head].eventId);
      } else if previous >= 0 {
        headHash := rows[previous].chainHash;
      }
      var receipt := "";
      if day in anchors {
        receipt := anchors[day].receipt;
      }
      anchors := anchors[day := Anchor(headEvent, headHash, count, receipt)];
    }
  }

  // ----- anchors are checkpoints of one chain -----

  /** The clock assumption: created_at never decreases with the id. */
  predicate InOrder(rows: seq<Row>) {
    forall i, j :: 0 <= i < j < |rows| ==> rows[i].createdAt <= rows[j].createdAt
  }

  /** How many rows were created before a moment. */
  function Before(rows: seq<Row>, n: nat, t: int): nat
    requires n <= |rows|
  {
    if n == 0 then 0 else Before(rows, n - 1, t) + if rows[n - 1].createdAt < t then 1 else 0
  }

  /** In order, the rows created before a moment are a prefix of the log. */
  lemma {:induction false} BeforeIsPrefix(rows: seq<Row>, n: nat, t: int)
    requires InOrder(rows) && n <= |rows|
    ensures Before(rows, n, t) <= n
    ensures forall i :: 0 <= i < n ==> (i < Before(rows, n, t) <==> rows[i].createdAt < t)
  {
    if n > 0 {
      BeforeIsPrefix(rows, n - 1, t);
    }
  }

  /** The row an anchor takes its hash from: -1 for the genesis value. */
  function AnchorIndex(rows: seq<Row>, day: int): int {
    if HeadIndex(rows, day) >= 0 then HeadIndex(rows, day) else PreviousIndex(rows, day)
  }

  lemma AnchorIndexIsLast(rows: seq<Row>, day: int)
    requires InOrder(rows)
    ensures -1 <= AnchorIndex(rows, day) < |rows|
    ensures AnchorIndex(rows, day) + 1 == Before(rows, |rows|, DayStart(day + 1))
  {
    var to, i := DayStart(day + 1), AnchorIndex(rows, day);
    BeforeIsPrefix(rows, |rows|, to);
    forall j | i < j < |rows| ensures rows[j].createdAt >= to {
      assert HeadIndex(rows, day) >= 0 ==> rows[j].createdAt >= rows[i].createdAt;
    }
    if i + 1 < |rows| {
      assert rows[i + 1].createdAt >= to;
    }
  }

  /** THE CHECKPOINT. The anchor of a day is the chain value over exactly the events created
      before the end of that day. */
  lemma AnchorIsChainValue(h: HashFn, rows: seq<Row>, day: int, receipt: string)
    requires ChainOk(h, rows) && InOrder(rows)
    ensures Before(rows, |rows|, DayStart(day + 1)) <= |rows|
    ensures AnchorOf(rows, day, receipt).headHash
         == Chain(h, Payloads(rows), Before(rows, |rows|, DayStart(day + 1)))
  {
    hide *;
    AnchorIndexIsLast(rows, day);
    ChainAt(h, rows, AnchorIndex(rows, day));
    AnchorReadsHash(rows, day, receipt);
  }

  lemma ChainAt(h: HashFn, rows: seq<Row>, i: int)
    requires ChainOk(h, rows) && -1 <= i < |rows|
    ensures HashAt(rows, i) == Chain(h, Payloads(rows), i + 1)
  {
  }

  lemma AnchorReadsHash(rows: seq<Row>, day: int, receipt: string)
    ensures AnchorOf(rows, day, receipt).headHash == HashAt(rows, AnchorIndex(rows, day))
  {
  }

  /** A later anchor is the earlier one with the events of the days between folded onto it. */
  lemma AnchorsCompose(h: HashFn, rows: seq<Row>, day: int, later: int, receipt: string)
    requires ChainOk(h, rows) && InOrder(rows) && day <= later
    ensures var m, n := Before(rows, |rows|, DayStart(day + 1)), Before(rows, |rows|, DayStart(later + 1));
            m <= n <= |rows|
            && Fold(h, AnchorOf(rows, day, receipt).headHash, Payloads(rows), m, n)
               == AnchorOf(rows, later, receipt).headHash
  {
    BeforeGrows(rows, |rows|, DayStart(day + 1), DayStart(later + 1));
    AnchorIsChainValue(h, rows, day, receipt);
    AnchorIsChainValue(h, rows, later, receipt);
    FoldComposes(h, GENESIS, Payloads(rows), 0, Before(rows, |rows|, DayStart(day + 1)),
                 Before(rows, |rows|, DayStart(later + 1)));
  }

  lemma {:induction false} BeforeGrows(rows: seq<Row>, n: nat, t: int, u: int)
    requires n <= |rows| && t <= u
    ensures Before(rows, n, t) <= Before(rows, n, u) <= n
  {
    if n > 0 {
      BeforeGrows(rows, n - 1, t, u);
    }
  }

  lemma {:induction false} CountIsDifference(rows: seq<Row>, n: nat, from: int, to: int)
    requires n <= |rows| && from <= to
    ensures CountWithin(rows, n, from, to) == Before(rows, n, to) - Before(rows, n, from)
  {
    if n > 0 {
      CountIsDifference(rows, n - 1, from, to);
    }
  }

  /** A day has no head event exactly when it has no events, and then its anchor carries the
      anchor of the day before forward. */
  lemma EmptyDayCarriesForward(h: HashFn, rows: seq<Row>, day: int, receipt: string)
    requires ChainOk(h, rows) && InOrder(rows)
    ensures var today, yesterday := AnchorOf(rows, day, receipt), AnchorOf(rows, day - 1, receipt);
            && (today.count == 0 <==> today.headEvent.None?)
            && (today.count == 0 ==> today.headHash == yesterday.headHash)
  {
    var from, to := DayStart(day), DayStart(day + 1);
    AnchorIsChainValue(h, rows, day, receipt);
    AnchorIsChainValue(h, rows, day - 1, receipt);
    CountIsDifference(rows, |rows|, from, to);
    BeforeIsPrefix(rows, |rows|, from);
    BeforeIsPrefix(rows, |rows|, to);
    var head := LastWithin(rows, |rows|, from, to);
    if head >= 0 {
      assert head < Before(rows, |rows|, to);
      assert !(head < Before(rows, |rows|, from));
    }
  }

  function CountOverDays(rows: seq<Row>, first: int, days: nat, receipt: string): nat {
    if days == 0 then 0
    else CountOverDays(rows, first, days - 1, receipt) + AnchorOf(rows, first + days - 1, receipt).count
  }

  lemma {:induction false} BeforeExtremes(rows: seq<Row>, n: nat, t: int)
    requires n <= |rows|
    ensures (forall i :: 0 <= i < n ==> rows[i].createdAt < t) ==> Before(rows, n, t) == n
    ensures (forall i :: 0 <= i < n ==> rows[i].createdAt >= t) ==> Before(rows, n, t) == 0
  {
    if n > 0 {
      BeforeExtremes(rows, n - 1, t);
    }
  }

  /** The event counts of consecutive anchors add up to the events between their ends. */
  lemma {:induction false} CountsAddUp(rows: seq<Row>, first: int, days: nat, receipt: string)
    ensures CountOverDays(rows, first, days, receipt)
         == Before(rows, |rows|, DayStart(first + days)) - Before(rows, |rows|, DayStart(first))
  {
    hide Before, CountWithin, HeadIndex, PreviousIndex, HashAt, EventAt;
    if days > 0 {
      CountsAddUp(rows, first, days - 1, receipt);
      CountIsDifference(rows, |rows|, DayStart(first + days - 1), DayStart(first + days));
    }
  }

  /** Days that span the log count every event once. */
  lemma CountsSpanLog(rows: seq<Row>, first: int, days: nat, receipt: string)
    requires forall i :: 0 <= i < |rows| ==> DayStart(first) <= rows[i].createdAt < DayStart(first + days)
    ensures CountOverDays(rows, first, days, receipt) == |rows|
  {
    CountsAddUp(rows, first, days, receipt);
    BeforeExtremes(rows, |rows|, DayStart(first));
    BeforeExtremes(rows, |rows|, DayStart(first + days));
    hide *;
  }

  lemma {:induction false} LaterRowsIgnored(rows: seq<Row>, more: seq<Row>, n: nat, from: int, to: int)
    requires |rows| <= n <= |rows + more|
    requires forall i :: 0 <= i < |more| ==> more[i].createdAt >= to
    ensures LastWithin(rows + more, n, from, to) == LastWithin(rows, |rows|, from, to)
    ensures CountWithin(rows + more, n, from, to) == CountWithin(rows, |rows|, from, to)
    ensures LastBefore(rows + more, n, to) == LastBefore(rows, |rows|, to)
  {
    if n > |rows| {
      assert (rows + more)[n - 1] == more[n - 1 - |rows|];
      LaterRowsIgnored(rows, more, n - 1, from, to);
    } else {
      SamePrefix(rows, rows + more, n, from, to);
    }
  }

  lemma {:induction false} SamePrefix(a: seq<Row>, b: seq<Row>, n: nat, from: int, to: int)
    requires n <= |a| && n <= |b| && forall i :: 0 <= i < n ==> a[i] == b[i]
    ensures LastWithin(a, n, from, to) == LastWithin(b, n, from, to)
    ensures CountWithin(a, n, from, to) == CountWithin(b, n, from, to)
    ensures LastBefore(a, n, to) == LastBefore(b, n, to)
  {
    if n > 0 {
      SamePrefix(a, b, n - 1, from, to);
    }
  }

  /** Anchoring a closed day again, after any later events, changes nothing. */
  lemma ReanchorIsStable(rows: seq<Row>, more: seq<Row>, day: int, receipt: string)
    requires forall i :: 0 <= i < |more| ==> more[i].createdAt >= DayStart(day + 1)
    ensures AnchorOf(rows + more, day, receipt) == AnchorOf(rows, day, receipt)
  {
    LaterRowsIgnored(rows, more, |rows + more|, DayStart(day), DayStart(day + 1));
    LaterRowsIgnored(rows, more, |rows + more|, DayStart(day - 1), DayStart(day));
  }

  // ----- anchors and refusals in plain numbers -----

  /** The anchor of a day, counted in seconds: its event is that of the last row created from second
      86400 * day on and before 86400 * (day + 1), its hash that row's; without such a row it has no
      event, and the hash of the last row before, or sixty-four zeros. */
  lemma AnchorInSeconds(rows: seq<Row>, day: int, receipt: string)
    ensures var a := AnchorOf(rows, day, receipt);
            && a.receipt == receipt
            && (a.headEvent.Some? ==>
                  exists i :: 0 <= i < |rows| && LastOfDay(rows, i, day) && a.headEvent == Some(rows[i].eventId)
                              && a.headHash == rows[i].chainHash)
            && (a.headEvent.None? ==>
                  && (forall i :: 0 <= i < |rows| ==> !OnDay(rows[i], day))
                  && ((exists i :: 0 <= i < |rows| && LastBeforeDay(rows, i, day) && a.headHash == rows[i].chainHash)
                      || ((forall i :: 0 <= i < |rows| ==> rows[i].createdAt >= 86400 * day)
                          && a.headHash == "0000000000000000000000000000000000000000000000000000000000000000")))
  {
    var head, previous := HeadIndex(rows, day), PreviousIndex(rows, day);
    if head >= 0 {
      assert LastOfDay(rows, head, day);
    } else if previous >= 0 {
      assert LastBeforeDay(rows, previous, day);
    }
    hide CountWithin, LastWithin, LastBefore;
  }

  predicate OnDay(row: Row, day: int) {
    86400 * day <= row.createdAt < 86400 * (day + 1)
  }

  predicate LastOfDay(rows: seq<Row>, i: nat, day: int) {
    i < |rows| && OnDay(rows[i], day) && forall j :: i < j < |rows| ==> !OnDay(rows[j], day)
  }

  predicate LastBeforeDay(rows: seq<Row>, i: nat, day: int) {
    i < |rows| && rows[i].createdAt < 86400 * day && forall j :: i < j < |rows| ==> rows[j].createdAt >= 86400 * day
  }

  function DayRows(rows: seq<Row>, n: nat, day: int): set<nat>
    requires n <= |rows|
  {
    set i | 0 <= i < n && OnDay(rows[i], day)
  }

  /** Its count is the number of rows created on that day. */
  lemma {:induction false} AnchorCounts(rows: seq<Row>, n: nat, day: int)
    requires n <= |rows|
    ensures CountWithin(rows, n, DayStart(day), DayStart(day + 1)) == |DayRows(rows, n, day)|
  {
    if n > 0 {
      AnchorCounts(rows, n - 1, day);
      if OnDay(rows[n - 1], day) {
        assert DayRows(rows, n, day) == DayRows(rows, n - 1, day) + {n - 1};
      } else {
        assert DayRows(rows, n, day) == DayRows(rows, n - 1, day);
      }
    } else {
      assert DayRows(rows, 0, day) == {};
    }
  }

  /** The ten actions that need the old state. */
  lemma StateChanges(action: string)
    ensures action in STATE_CHANGE_ACTIONS <==>
              || action == "USER_UPDATED" || action == "USER_DEACTIVATED" || action == "ROLE_ASSIGNED"
              || action == "ROLE_REVOKED" || action == "ROLE_PERMISSIONS_UPDATED"
              || action == "ROLE_ASSIGNMENT_APPROVED" || action == "ROLE_ASSIGNMENT_REJECTED"
              || action == "DASHBOARD_PANEL_UPDATED" || action == "BULK_IMPORT" || action == "PROFILE_UPDATED"
  {
  }
}
