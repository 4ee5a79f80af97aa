/** What the two paper constructors write, and exactly when they write it: the paper's columns, the
    usage and access rows, and the usage history as the ledger of all papers ever built. */
module PaperRecords {
  import opened Wrappers
  import opened Decimals
  import opened Selector
  import opened SelectorLaws
  import opened PaperRules
  import opened PaperConstruction
  import opened PaperLaws
  import W = ItemWorkflow

  // ----- the items of a paper -----

  /** The ids of the primary and of the first `n` variants, in order. */
  function PaperIds(p: Paper, n: nat): seq<nat>
    requires n <= |p.variants|
  {
    if n == 0 then p.itemIds else PaperIds(p, n - 1) + p.variants[n - 1].itemIds
  }

  function AllOf(p: Paper): seq<nat> { PaperIds(p, |p.variants|) }

  lemma {:induction false} PaperIdsMembers(p: Paper, n: nat)
    requires n <= |p.variants|
    ensures forall id :: id in PaperIds(p, n) <==>
              id in p.itemIds || exists v :: 0 <= v < n && id in p.variants[v].itemIds
  {
    if n > 0 {
      PaperIdsMembers(p, n - 1);
    }
  }

  lemma {:induction false} PickedArePaper(b: Bank, req: RuleRequest, selections: seq<Selection>, n: nat)
    requires 0 < n <= |selections|
    ensures PickedIds(selections, n) == PaperIds(RulePaper(b, req, selections), n - 1)
  {
    var p := RulePaper(b, req, selections);
    if n > 1 {
      PickedArePaper(b, req, selections, n - 1);
      assert p.variants[n - 2].itemIds == IdSeq(selections[n - 1].items);
    } else {
      assert PickedIds(selections, 1) == [] + IdSeq(selections[0].items);
    }
  }

  // ----- what one call writes -----

  /** Rows `from` and on of the two tables are those of the ids, in order. */
  predicate Recorded(usage: seq<Usage>, accesses: seq<Access>, from: nat, fromAccess: nat, ids: seq<nat>,
                     sitting: string, user: nat, now: int)
  {
    && |usage| == from + |ids| && |accesses| == fromAccess + |ids|
    && (forall k :: 0 <= k < |ids| ==> usage[from + k] == Usage(ids[k], sitting, now))
    && (forall k :: 0 <= k < |ids| ==> accesses[fromAccess + k] == Access(ids[k], user))
  }

  lemma CommitWrites(b: Bank, p: Paper, ids: seq<nat>, user: nat, now: int)
    ensures var t := Committed(b, p, ids, user, now);
            && t.items == b.items && t.papers == b.papers + [p] && b.usage <= t.usage && b.accesses <= t.accesses
            && Recorded(t.usage, t.accesses, |b.usage|, |b.accesses|, ids, p.sitting, user, now)
  {
    hide UsageRows, AccessRows;
    var t := Committed(b, p, ids, user, now);
    forall k | 0 <= k < |ids|
      ensures t.usage[|b.usage| + k] == Usage(ids[k], p.sitting, now)
      ensures t.accesses[|b.accesses| + k] == Access(ids[k], user)
    {
      assert t.usage[|b.usage| + k] == UsageRows(ids, p.sitting, now)[k];
      assert t.accesses[|b.accesses| + k] == AccessRows(ids, user)[k];
    }
  }

  /** A successful manual call: the request's columns, and one row of each kind per requested item for
      the requested sitting, in order. */
  lemma ManualWrites(cfg: Settings, b: Bank, req: ManualRequest, user: nat, recent: seq<string>, now: int)
    requires Manual(cfg, b, req, user, recent, now).Ok?
    ensures var t := Manual(cfg, b, req, user, recent, now).value;
            && t.items == b.items && b.papers <= t.papers && |t.papers| == |b.papers| + 1
            && b.usage <= t.usage && b.accesses <= t.accesses
            && Recorded(t.usage, t.accesses, |b.usage|, |b.accesses|, req.itemIds, req.sitting, user, now)
            && var p := t.papers[|b.papers|];
               && p.sitting == req.sitting && p.subject == req.subject && p.mode == req.mode
               && p.totalMarks == req.total && p.timeLimit == req.timeLimit && p.itemIds == req.itemIds
               && p.sections == req.sections && p.variants == [] && p.blueprintRef == req.blueprintRef
               && p.origin.Constructed? && p.usedBefore == |b.usage|
  {
    hide ManualRefusal, Committed, Recorded;
    CommitWrites(b, ManualPaper(b, req), req.itemIds, user, now);
  }

  /** A successful generation: the request's columns, variants numbered from 2 with the marks of their
      own items, and one row of each kind per item of the primary and then of each variant. */
  lemma RuleBasedWrites(cfg: Settings, b: Bank, req: RuleRequest, user: nat, pool: seq<nat>, now: int)
    requires RuleBased(cfg, b, req, user, pool, now).Ok?
    ensures var t := RuleBased(cfg, b, req, user, pool, now).value;
            && t.items == b.items && b.papers <= t.papers && |t.papers| == |b.papers| + 1
            && b.usage <= t.usage && b.accesses <= t.accesses
            && var p := t.papers[|b.papers|];
               && Recorded(t.usage, t.accesses, |b.usage|, |b.accesses|, AllOf(p), req.sitting, user, now)
               && p.sitting == req.sitting && p.subject == req.subject && p.mode == req.mode
               && p.totalMarks == req.total && p.timeLimit == req.timeLimit
               && p.sections == [] && p.blueprintRef == req.blueprintRef
               && p.origin.Generated? && p.usedBefore == |b.usage|
               && |p.variants| == VariantCount(req) - 1
               && forall v :: 0 <= v < |p.variants| ==> p.variants[v].no == v + 2
  {
    hide PickSets, Select, Committed, Recorded, PickedIds, PaperIds;
    var p := PickSets(cfg, Views(b.items, pool), req, VariantCount(req)).value;
    PickedArePaper(b, req, p.selections, |p.selections|);
    CommitWrites(b, RulePaper(b, req, p.selections), PickedIds(p.selections, |p.selections|), user, now);
  }

  // ----- the ledger -----

  /** The number of rows that the first `n` papers account for. */
  function EndOf(papers: seq<Paper>, n: nat): nat
    requires n <= |papers|
  {
    if n == 0 then 0 else EndOf(papers, n - 1) + |AllOf(papers[n - 1])|
  }

  /** The rows name the ids in order, under one sitting. */
  predicate Lists(rows: seq<Usage>, ids: seq<nat>, sitting: string) {
    |rows| == |ids| && forall k :: 0 <= k < |ids| ==> rows[k].itemId == ids[k] && rows[k].sitting == sitting
  }

  predicate ListsAccess(rows: seq<Access>, ids: seq<nat>) {
    |rows| == |ids| && forall k :: 0 <= k < |ids| ==> rows[k].itemId == ids[k]
  }

  /** The rows of a paper: its items in order, with its sitting. */
  predicate Entered(b: Bank, p: Paper, from: nat) {
    var to := from + |AllOf(p)|;
    && p.usedBefore == from && to <= |b.usage| && to <= |b.accesses|
    && Lists(b.usage[from..to], AllOf(p), p.sitting) && ListsAccess(b.accesses[from..to], AllOf(p))
  }

  /** The usage history and the access log list the items of all papers, paper after paper, each under
      its paper's sitting, and nothing else. */
  predicate Ledger(b: Bank) {
    && |b.usage| == |b.accesses| == EndOf(b.papers, |b.papers|)
    && forall i :: 0 <= i < |b.papers| ==> Entered(b, b.papers[i], EndOf(b.papers, i))
  }

  lemma {:induction false} EndOfPrefix(papers: seq<Paper>, more: seq<Paper>, n: nat)
    requires papers <= more && n <= |papers|
    ensures EndOf(more, n) == EndOf(papers, n)
  {
    hide AllOf;
    if n > 0 {
      EndOfPrefix(papers, more, n - 1);
    }
  }

  lemma {:induction false} EndsGrow(papers: seq<Paper>, m: nat, n: nat)
    requires m <= n <= |papers|
    ensures EndOf(papers, m) <= EndOf(papers, n)
    decreases n
  {
    hide AllOf;
    if m < n {
      EndsGrow(papers, m, n - 1);
    }
  }

  lemma LaterRowsKeepEntry(b: Bank, t: Bank, p: Paper, from: nat)
    requires b.usage <= t.usage && b.accesses <= t.accesses && Entered(b, p, from)
    ensures Entered(t, p, from)
  {
    hide AllOf, Lists, ListsAccess;
    var to := from + |AllOf(p)|;
    assert t.usage[from..to] == b.usage[from..to];
    assert t.accesses[from..to] == b.accesses[from..to];
  }

  lemma OneMorePaper(b: Bank, t: Bank, p: Paper, user: nat, now: int)
    requires Ledger(b) && t.papers == b.papers + [p] && b.usage <= t.usage && b.accesses <= t.accesses
    requires p.usedBefore == |b.usage|
    requires Recorded(t.usage, t.accesses, |b.usage|, |b.accesses|, AllOf(p), p.sitting, user, now)
    ensures Ledger(t)
  {
    hide AllOf, Recorded, Entered, EndOf;
    var n := |b.papers|;
    assert t.papers[n] == p && b.papers <= t.papers;
    EndOfPrefix(b.papers, t.papers, n);
    EndOfNext(t.papers, n);
    NewEntry(b, t, p, user, now);
    RowsAreCounted(t, |b.usage|, |b.accesses|, p, user, now);
    forall i | 0 <= i < |t.papers| ensures Entered(t, t.papers[i], EndOf(t.papers, i)) {
      if i < n {
        OldEntryStays(b, t, i);
      }
    }
  }

  lemma EndOfNext(papers: seq<Paper>, n: nat)
    requires n < |papers|
    ensures EndOf(papers, n + 1) == EndOf(papers, n) + |AllOf(papers[n])|
  {
  }

  lemma OldEntryStays(b: Bank, t: Bank, i: nat)
    requires Ledger(b) && b.papers <= t.papers && b.usage <= t.usage && b.accesses <= t.accesses && i < |b.papers|
    ensures Entered(t, t.papers[i], EndOf(t.papers, i))
  {
    hide AllOf, Entered, EndOf;
    EndOfPrefix(b.papers, t.papers, i);
    LaterRowsKeepEntry(b, t, b.papers[i], EndOf(b.papers, i));
  }

  lemma NewEntry(b: Bank, t: Bank, p: Paper, user: nat, now: int)
    requires |b.usage| == |b.accesses| && p.usedBefore == |b.usage|
    requires Recorded(t.usage, t.accesses, |b.usage|, |b.accesses|, AllOf(p), p.sitting, user, now)
    ensures Entered(t, p, |b.usage|)
  {
    hide AllOf;
    var from, ids := |b.usage|, AllOf(p);
    var rows, logged := t.usage[from..from + |ids|], t.accesses[from..from + |ids|];
    forall k | 0 <= k < |ids|
      ensures rows[k].itemId == ids[k] && rows[k].sitting == p.sitting && logged[k].itemId == ids[k]
    {
      assert rows[k] == t.usage[from + k] && logged[k] == t.accesses[from + k];
    }
  }

  lemma RowsAreCounted(t: Bank, from: nat, fromAccess: nat, p: Paper, user: nat, now: int)
    requires Recorded(t.usage, t.accesses, from, fromAccess, AllOf(p), p.sitting, user, now)
    ensures |t.usage| == from + |AllOf(p)| && |t.accesses| == fromAccess + |AllOf(p)|
  {
  }

  lemma StepKeepsLedger(cfg: Settings, b: Bank, op: BankOp)
    requires Ledger(b)
    ensures Ledger(BankNext(cfg, b, op))
  {
    hide Ledger, Recorded, Manual, RuleBased, W.Next, W.Create;
    match op
    case MakeManual(req, user, recent, now) =>
      if Manual(cfg, b, req, user, recent, now).Ok? {
        ManualWrites(cfg, b, req, user, recent, now);
        var t := Manual(cfg, b, req, user, recent, now).value;
        assert t.papers == b.papers + [t.papers[|b.papers|]];
        OneMorePaper(b, t, t.papers[|b.papers|], user, now);
      }
    case MakeRuleBased(req, user, recent, pool, now) =>
      if RuleBased(cfg, b, req, user, pool, now).Ok? {
        RuleBasedWrites(cfg, b, req, user, pool, now);
        var t := RuleBased(cfg, b, req, user, pool, now).value;
        assert t.papers == b.papers + [t.papers[|b.papers|]];
        OneMorePaper(b, t, t.papers[|b.papers|], user, now);
      }
    case _ =>
      SameTables(b, BankNext(cfg, b, op));
  }

  lemma SameTables(b: Bank, t: Bank)
    requires Ledger(b) && t == b.(items := t.items)
    ensures Ledger(t)
  {
    hide AllOf;
    forall i | 0 <= i < |t.papers| ensures Entered(t, t.papers[i], EndOf(t.papers, i)) {
      assert t.papers == b.papers && t.usage == b.usage && t.accesses == b.accesses;
      LaterRowsKeepEntry(b, t, b.papers[i], EndOf(b.papers, i));
    }
  }

  /** THE LEDGER. In every reachable state of the bank the usage history lists exactly the items of
      the papers built so far, each row under the sitting of its paper. */
  lemma {:induction false} UsageIsLedger(cfg: Settings, ops: seq<BankOp>, n: nat)
    requires n <= |ops|
    ensures Ledger(BankAfter(cfg, ops, n))
  {
    hide BankNext, Ledger;
    if n == 0 {
      EmptyLedger();
    } else {
      UsageIsLedger(cfg, ops, n - 1);
      StepKeepsLedger(cfg, BankAfter(cfg, ops, n - 1), ops[n - 1]);
    }
  }

  lemma EmptyLedger()
    ensures Ledger(Bank(map[], [], [], []))
  {
  }

  /** Row `k` of an entry. */
  lemma EntryRow(b: Bank, i: nat, k: nat)
    requires Ledger(b) && i < |b.papers| && k < |AllOf(b.papers[i])|
    ensures var row := EndOf(b.papers, i) + k;
            && b.papers[i].usedBefore <= row < |b.usage|
            && b.usage[row].itemId == AllOf(b.papers[i])[k] && b.usage[row].sitting == b.papers[i].sitting
  {
    hide AllOf, EndOf;
    var from, ids := EndOf(b.papers, i), AllOf(b.papers[i]);
    assert Entered(b, b.papers[i], from);
    assert b.usage[from..from + |ids|][k] == b.usage[from + k];
  }

  lemma UsedIsListed(p: Paper, id: nat)
    ensures UsesItem(p, id) <==> id in AllOf(p)
  {
    PaperIdsMembers(p, |p.variants|);
  }

  /** Every item of a reachable paper, primary or variant, has a usage row under the paper's sitting,
      written by the call that built the paper. */
  lemma EveryItemIsRecorded(cfg: Settings, ops: seq<BankOp>, i: nat, id: nat) returns (row: nat)
    requires i < |BankAfter(cfg, ops, |ops|).papers| && UsesItem(BankAfter(cfg, ops, |ops|).papers[i], id)
    ensures var b := BankAfter(cfg, ops, |ops|);
            && b.papers[i].usedBefore <= row < |b.usage|
            && b.usage[row].itemId == id && b.usage[row].sitting == b.papers[i].sitting
  {
    hide *;
    var b := BankAfter(cfg, ops, |ops|);
    UsageIsLedger(cfg, ops, |ops|);
    UsedIsListed(b.papers[i], id);
    var k :| 0 <= k < |AllOf(b.papers[i])| && AllOf(b.papers[i])[k] == id;
    EntryRow(b, i, k);
    row := EndOf(b.papers, i) + k;
  }

  /** Every usage row of a reachable bank comes from a paper for that sitting that uses that item. */
  lemma EveryRowHasPaper(cfg: Settings, ops: seq<BankOp>, row: nat) returns (i: nat)
    requires row < |BankAfter(cfg, ops, |ops|).usage|
    ensures var b := BankAfter(cfg, ops, |ops|);
            && i < |b.papers| && UsesItem(b.papers[i], b.usage[row].itemId)
            && b.usage[row].sitting == b.papers[i].sitting
  {
    hide *;
    var b := BankAfter(cfg, ops, |ops|);
    UsageIsLedger(cfg, ops, |ops|);
    LedgerLength(b);
    i := RowOwner(b.papers, |b.papers|, row);
    var k := row - EndOf(b.papers, i);
    EntryRow(b, i, k);
    assert AllOf(b.papers[i])[k] in AllOf(b.papers[i]);
    UsedIsListed(b.papers[i], b.usage[row].itemId);
  }

  lemma LedgerLength(b: Bank)
    requires Ledger(b)
    ensures |b.usage| == EndOf(b.papers, |b.papers|)
  {
  }

  lemma {:induction false} RowOwner(papers: seq<Paper>, n: nat, row: nat) returns (i: nat)
    requires n <= |papers| && row < EndOf(papers, n)
    ensures i < n && EndOf(papers, i) <= row < EndOf(papers, i) + |AllOf(papers[i])|
  {
    hide AllOf;
    if row >= EndOf(papers, n - 1) {
      i := n - 1;
    } else {
      i := RowOwner(papers, n - 1, row);
    }
  }

  // ----- exactly when a manual paper is built -----

  /** The items' marks for the topic reach its rounded share, less the tolerance. */
  predicate Reaches(cfg: Settings, items: seq<Candidate>, share: Share, total: int) {
    (if share.key == "" then 0 else MarksFor(items, Slot(ByTopic, share.key)))
    >= RoundHalfUp(total as real * share.pct / 100.0) - cfg.tolerance
  }

  /** Every topic of a known blueprint reaches its share. */
  predicate Covers(cfg: Settings, items: seq<Candidate>, ref: string, total: int) {
    ref != "" && ref in cfg.catalogue ==>
      forall share :: share in cfg.catalogue[ref].topics ==> Reaches(cfg, items, share, total)
  }

  lemma ReachesIsCovered(cfg: Settings, items: seq<Candidate>, share: Share, total: int)
    ensures TopicCovered(cfg, items, share, total) <==> Reaches(cfg, items, share, total)
  {
    hide MarksFor, RoundHalfUp;
    assert Target(total, share.pct) == RoundHalfUp(total as real * share.pct / 100.0);
  }

  lemma CoversIsOk(cfg: Settings, items: seq<Candidate>, ref: string, total: int)
    ensures Covers(cfg, items, ref, total) <==> BlueprintOk(cfg, items, ref, total)
  {
    hide TopicCovered, Reaches;
    if ref != "" && ref in cfg.catalogue {
      var topics := cfg.catalogue[ref].topics;
      forall k | 0 <= k < |topics|
        ensures topics[k] in topics
        ensures TopicCovered(cfg, items, topics[k], total) <==> Reaches(cfg, items, topics[k], total)
      {
        ReachesIsCovered(cfg, items, topics[k], total);
      }
    }
  }

  /** The items exist and are locked for use. */
  predicate Locked(items: map<nat, W.Item>, ids: seq<nat>) {
    forall k :: 0 <= k < |ids| ==> ids[k] in items && items[ids[k]].status == W.LockedForUse
  }

  /** No item has a usage row in one of these sittings. */
  predicate Rested(usage: seq<Usage>, ids: seq<nat>, recent: seq<string>) {
    forall r, k :: 0 <= r < |usage| && 0 <= k < |ids| ==>
      usage[r].itemId != ids[k] || usage[r].sitting !in recent
  }

  /** The marks of the first `n` items; an item without marks carries none. */
  function MarksSum(items: seq<Candidate>, n: nat): int
    requires n <= |items|
  {
    if n == 0 then 0
    else MarksSum(items, n - 1) + match items[n - 1].marks case None => 0 case Some(marks) => marks
  }

  /** The minutes of the first `n` items; an item without a time takes none. */
  function Minutes(items: seq<Candidate>, n: nat): int
    requires n <= |items|
  {
    if n == 0 then 0
    else Minutes(items, n - 1) + match items[n - 1].time case None => 0 case Some(time) => time
  }

  lemma {:induction false} TimeAppend(a: seq<Candidate>, b: seq<Candidate>)
    ensures TotalTime(a + b) == TotalTime(a) + TotalTime(b)
  {
    if a == [] {
      assert a + b == b;
    } else {
      TimeAppend(a[1..], b);
      assert (a + b)[1..] == a[1..] + b;
    }
  }

  lemma OneItemSums(c: Candidate)
    ensures TotalMarks([c]) == match c.marks case None => 0 case Some(marks) => marks
    ensures TotalTime([c]) == match c.time case None => 0 case Some(time) => time
  {
    assert TotalMarks([c][1..]) == 0 && TotalTime([c][1..]) == 0;
  }

  lemma {:induction false} SumsUpTo(items: seq<Candidate>, n: nat)
    requires n <= |items|
    ensures TotalMarks(items[..n]) == MarksSum(items, n) && TotalTime(items[..n]) == Minutes(items, n)
  {
    if n > 0 {
      SumsUpTo(items, n - 1);
      hide TotalMarks, TotalTime;
      var c := items[n - 1];
      assert items[..n] == items[..n - 1] + [c];
      TotalMarksAppend(items[..n - 1], [c]);
      TimeAppend(items[..n - 1], [c]);
      OneItemSums(c);
    }
  }

  lemma SumsAreTotals(items: seq<Candidate>)
    ensures TotalMarks(items) == MarksSum(items, |items|) && TotalTime(items) == Minutes(items, |items|)
  {
    hide *;
    SumsUpTo(items, |items|);
    assert items[..|items|] == items;
  }

  /** How many sections the blueprint asks for. */
  function SectionsAsked(cfg: Settings, ref: string): nat {
    if ref !in cfg.catalogue then 0 else cfg.catalogue[ref].sections
  }

  /** MANUAL PAPERS, EXACTLY. A manual paper is built if and only if its items are distinct, all locked
      for use, sum exactly to the total, carry the subject, fit the time limit, cover the blueprint, are
      partitioned by the sections, and are none of them used in a recent sitting. */
  lemma ManualSucceedsIff(cfg: Settings, b: Bank, req: ManualRequest, user: nat, recent: seq<string>, now: int)
    ensures var items := Views(b.items, req.itemIds);
            Manual(cfg, b, req, user, recent, now).Ok?
            <==> && NoRepeats(req.itemIds) && Locked(b.items, req.itemIds)
                 && MarksSum(items, |items|) == req.total
                 && (forall k :: 0 <= k < |items| ==> items[k].subject == Some(req.subject))
                 && Minutes(items, |items|) <= req.timeLimit
                 && Covers(cfg, items, req.blueprintRef, req.total)
                 && SectionsPartition(items, req.sections, SectionsAsked(cfg, req.blueprintRef))
                 && Rested(b.usage, req.itemIds, recent)
  {
    var items := Views(b.items, req.itemIds);
    SumsAreTotals(items);
    assert SectionsAsked(cfg, req.blueprintRef) == DeclaredSections(cfg, req.blueprintRef);
    CoversIsOk(cfg, items, req.blueprintRef, req.total);
    SectionsAcceptedIff(items, req.sections, DeclaredSections(cfg, req.blueprintRef));
    LockedIsAvailable(b.items, req.itemIds);
    RestedIsUnused(b.usage, req.itemIds, recent);
    hide NoRepeats, Locked, AllAvailable, TotalMarks, TotalTime, Covers, BlueprintOk, SectionsPartition, Fault, Rested,
         NoneUsedIn, Views, DeclaredSections, SectionsAsked, MarksSum, Minutes;
  }

  lemma LockedIsAvailable(items: map<nat, W.Item>, ids: seq<nat>)
    ensures Locked(items, ids) <==> AllAvailable(items, ids)
  {
    if AllAvailable(items, ids) {
      forall k | 0 <= k < |ids| ensures ids[k] in items && items[ids[k]].status == W.LockedForUse {
        assert Available(items, ids[k]);
      }
    }
  }

  lemma RestedIsUnused(usage: seq<Usage>, ids: seq<nat>, recent: seq<string>)
    ensures Rested(usage, ids, recent) <==> NoneUsedIn(usage, ids, recent)
  {
    if NoneUsedIn(usage, ids, recent) {
      forall r, k | 0 <= r < |usage| && 0 <= k < |ids| && usage[r].itemId == ids[k]
        ensures usage[r].sitting !in recent
      {
        assert !UsedIn(usage, ids[k], recent);
      }
    }
  }

  /** The error of a refused manual paper names a rule that fails, and all rules before it hold. */
  lemma ManualErrorIsFirst(cfg: Settings, b: Bank, req: ManualRequest, user: nat, recent: seq<string>, now: int)
    requires Manual(cfg, b, req, user, recent, now).Err?
    ensures var e := Manual(cfg, b, req, user, recent, now).error;
            var items := Views(b.items, req.itemIds);
            && (e.DuplicateItems? <==> !NoRepeats(req.itemIds))
            && (e.ItemsUnavailable? <==> NoRepeats(req.itemIds) && !Locked(b.items, req.itemIds))
            && (e.MarksMismatch? ==> Locked(b.items, req.itemIds) && TotalMarks(items) != req.total)
            && (e.SubjectMismatch? ==>
                  TotalMarks(items) == req.total
                  && exists k :: 0 <= k < |items| && items[k].subject != Some(req.subject))
            && (e.TimeExceeded? ==> AllOfSubject(items, req.subject) && TotalTime(items) > req.timeLimit)
            && (e.BlueprintUnmet? ==>
                  TotalTime(items) <= req.timeLimit && !Covers(cfg, items, req.blueprintRef, req.total))
            && (e.BadSections? ==>
                  && Covers(cfg, items, req.blueprintRef, req.total)
                  && Fault(items, req.sections, DeclaredSections(cfg, req.blueprintRef)) == Some(e.fault))
            && (e.InCooldown? ==>
                  && SectionsPartition(items, req.sections, DeclaredSections(cfg, req.blueprintRef))
                  && !Rested(b.usage, req.itemIds, recent))
            && !e.PercentagesOff? && !e.BadVariantCount? && !e.ConstraintsUnmet? && !e.ToleranceExceeded?
  {
    var items := Views(b.items, req.itemIds);
    CoversIsOk(cfg, items, req.blueprintRef, req.total);
    SectionsAcceptedIff(items, req.sections, DeclaredSections(cfg, req.blueprintRef));
    LockedIsAvailable(b.items, req.itemIds);
    RestedIsUnused(b.usage, req.itemIds, recent);
    hide NoRepeats, Locked, AllAvailable, TotalMarks, TotalTime, Covers, BlueprintOk, SectionsPartition, Fault, Rested,
         NoneUsedIn, Views, DeclaredSections;
  }

  // ----- exactly when a paper is generated -----

  /** The ids that the first `n` selections use up. */
  function UsedUp(selections: seq<Selection>, n: nat): set<nat>
    requires n <= |selections|
  {
    set k, i | 0 <= k < n && 0 <= i < |selections[k].items| :: selections[k].items[i].id
  }

  /** A selection that passes all checks. */
  predicate Accepted(cfg: Settings, req: RuleRequest, s: Selection) {
    && s.shortfalls == []
    && -cfg.tolerance <= MarksSum(s.items, |s.items|) - req.total <= cfg.tolerance
    && Covers(cfg, s.items, req.blueprintRef, req.total)
    && Minutes(s.items, |s.items|) <= req.timeLimit
  }

  /** Each selection is made from the pool without the items of the ones before it, and accepted. */
  predicate Chained(cfg: Settings, pool: seq<Candidate>, req: RuleRequest, selections: seq<Selection>) {
    forall k :: 0 <= k < |selections| ==> Link(cfg, pool, req, selections, k)
  }

  predicate Link(cfg: Settings, pool: seq<Candidate>, req: RuleRequest, selections: seq<Selection>, k: nat)
    requires k < |selections|
  {
    && selections[k] == Select(pool, req.diffs, req.topics, req.total, UsedUp(selections, k))
    && Accepted(cfg, req, selections[k])
  }

  lemma AcceptedIff(cfg: Settings, pool: seq<Candidate>, req: RuleRequest, used: set<nat>, primary: bool)
    ensures var s := Select(pool, req.diffs, req.topics, req.total, used);
            SelectionRefusal(cfg, req, s, primary).None? <==> Accepted(cfg, req, s)
  {
    var s := Select(pool, req.diffs, req.topics, req.total, used);
    assert s.marks == TotalMarks(s.items);
    hide Select, TotalMarks, TotalTime, MarksSum, Minutes, Covers, BlueprintOk;
    SumsAreTotals(s.items);
    CoversIsOk(cfg, s.items, req.blueprintRef, req.total);
  }

  /** The error for a refused selection names the first check that fails: messages first; then, for the
      primary, coverage, time and marks, and for a variant marks, coverage and time. */
  lemma RefusalIsFirst(cfg: Settings, pool: seq<Candidate>, req: RuleRequest, used: set<nat>, primary: bool)
    requires SelectionRefusal(cfg, req, Select(pool, req.diffs, req.topics, req.total, used), primary).Some?
    ensures var s := Select(pool, req.diffs, req.topics, req.total, used);
            var e := SelectionRefusal(cfg, req, s, primary).value;
            var off := !(-cfg.tolerance <= MarksSum(s.items, |s.items|) - req.total <= cfg.tolerance);
            var bare := !Covers(cfg, s.items, req.blueprintRef, req.total);
            var late := Minutes(s.items, |s.items|) > req.timeLimit;
            && (e.ConstraintsUnmet? <==> s.shortfalls != [])
            && (s.shortfalls == [] ==>
                  && (e.ToleranceExceeded? <==> off && (primary ==> !bare && !late))
                  && (e.BlueprintUnmet? <==> bare && (!primary ==> !off))
                  && (e.TimeExceeded? <==> late && !bare && (!primary ==> !off)))
  {
    var s := Select(pool, req.diffs, req.topics, req.total, used);
    assert s.marks == TotalMarks(s.items);
    hide Select, TotalMarks, TotalTime, MarksSum, Minutes, Covers, BlueprintOk;
    SumsAreTotals(s.items);
    CoversIsOk(cfg, s.items, req.blueprintRef, req.total);
  }

  lemma UsedUpGrows(selections: seq<Selection>, s: Selection, n: nat)
    requires n <= |selections|
    ensures UsedUp(selections + [s], n) == UsedUp(selections, n)
    ensures UsedUp(selections + [s], |selections| + 1) == UsedUp(selections, |selections|) + Ids(s.items)
  {
    var more := selections + [s];
    forall x | x in UsedUp(selections, |selections|) ensures x in UsedUp(more, |selections| + 1) {
      var k, i :| 0 <= k < |selections| && 0 <= i < |selections[k].items| && selections[k].items[i].id == x;
      assert more[k] == selections[k];
    }
    forall x | x in Ids(s.items) ensures x in UsedUp(more, |selections| + 1) {
      var i :| 0 <= i < |s.items| && s.items[i].id == x;
      assert more[|selections|].items[i].id == x;
    }
    forall x | x in UsedUp(selections, n) ensures x in UsedUp(more, n) {
      var k, i :| 0 <= k < n && 0 <= i < |selections[k].items| && selections[k].items[i].id == x;
      assert more[k] == selections[k];
    }
  }

  lemma {:induction false} PickedIsChain(cfg: Settings, pool: seq<Candidate>, req: RuleRequest, n: nat)
    requires PickSets(cfg, pool, req, n).Ok?
    ensures var p := PickSets(cfg, pool, req, n).value;
            Chained(cfg, pool, req, p.selections) && p.used == UsedUp(p.selections, n)
  {
    hide Select, SelectionRefusal, Accepted, Ids, UsedUp;
    if n == 0 {
      NothingUsedUp();
    } else {
      PickedIsChain(cfg, pool, req, n - 1);
      var p := PickSets(cfg, pool, req, n - 1).value;
      var s := Select(pool, req.diffs, req.topics, req.total, p.used);
      AcceptedIff(cfg, pool, req, p.used, n == 1);
      ChainGrows(cfg, pool, req, p.selections, s);
    }
  }

  lemma NothingUsedUp()
    ensures UsedUp([], 0) == {}
  {
  }

  lemma ChainGrows(cfg: Settings, pool: seq<Candidate>, req: RuleRequest, selections: seq<Selection>, s: Selection)
    requires Chained(cfg, pool, req, selections) && Accepted(cfg, req, s)
    requires s == Select(pool, req.diffs, req.topics, req.total, UsedUp(selections, |selections|))
    ensures Chained(cfg, pool, req, selections + [s])
    ensures UsedUp(selections + [s], |selections| + 1) == UsedUp(selections, |selections|) + Ids(s.items)
  {
    hide Select, Accepted, Ids, UsedUp;
    var more := selections + [s];
    UsedUpGrows(selections, s, |selections|);
    forall k | 0 <= k < |more| ensures Link(cfg, pool, req, more, k) {
      if k < |selections| {
        assert Link(cfg, pool, req, selections, k);
        UsedUpGrows(selections, s, k);
      }
    }
  }

  lemma {:induction false} ChainIsPicked(cfg: Settings, pool: seq<Candidate>, req: RuleRequest,
                                         selections: seq<Selection>)
    requires Chained(cfg, pool, req, selections)
    ensures PickSets(cfg, pool, req, |selections|) == Ok(Picked(selections, UsedUp(selections, |selections|)))
    decreases |selections|
  {
    hide Select, SelectionRefusal, Accepted, Ids, UsedUp;
    if selections == [] {
      NothingUsedUp();
    } else {
      var n := |selections| - 1;
      var front, s := selections[..n], selections[n];
      assert selections == front + [s];
      assert Link(cfg, pool, req, selections, n);
      forall k | 0 <= k < n ensures Link(cfg, pool, req, front, k) {
        assert Link(cfg, pool, req, selections, k);
        UsedUpGrows(front, s, k);
      }
      ChainIsPicked(cfg, pool, req, front);
      UsedUpGrows(front, s, n);
      AcceptedIff(cfg, pool, req, UsedUp(front, n), n == 0);
    }
  }

  /** GENERATION, EXACTLY. A paper is generated if and only if both distributions sum to 100 within a
      tenth, the number of variants is not negative (none counts as one), and selecting again and again
      from what is left of the pool yields that many accepted selections; these are then the primary
      and the variants. */
  lemma RuleBasedSucceedsIff(cfg: Settings, b: Bank, req: RuleRequest, user: nat, pool: seq<nat>, now: int)
    ensures RuleBased(cfg, b, req, user, pool, now).Ok?
       <==> && -0.1 <= PctSum(req.diffs) - 100.0 <= 0.1 && -0.1 <= PctSum(req.topics) - 100.0 <= 0.1
            && req.variants >= 0
            && exists selections: seq<Selection> ::
                 && |selections| == (if req.variants == 0 then 1 else req.variants)
                 && Chained(cfg, Views(b.items, pool), req, selections)
  {
    hide PickSets, Chained, Views;
    var vs := Views(b.items, pool);
    if VariantCount(req) >= 1 {
      if PickSets(cfg, vs, req, VariantCount(req)).Ok? {
        PickedIsChain(cfg, vs, req, VariantCount(req));
      }
      forall selections: seq<Selection> | |selections| == VariantCount(req) && Chained(cfg, vs, req, selections)
        ensures PickSets(cfg, vs, req, VariantCount(req)).Ok?
      {
        ChainIsPicked(cfg, vs, req, selections);
      }
    }
  }

  lemma {:induction false} FirstRefusal(cfg: Settings, pool: seq<Candidate>, req: RuleRequest, n: nat)
    returns (selections: seq<Selection>)
    requires PickSets(cfg, pool, req, n).Err?
    ensures |selections| < n && Chained(cfg, pool, req, selections)
    ensures var s := Select(pool, req.diffs, req.topics, req.total, UsedUp(selections, |selections|));
            SelectionRefusal(cfg, req, s, selections == []) == Some(PickSets(cfg, pool, req, n).error)
  {
    hide Select, SelectionRefusal, Chained, Ids, UsedUp;
    if PickSets(cfg, pool, req, n - 1).Err? {
      selections := FirstRefusal(cfg, pool, req, n - 1);
    } else {
      PickedIsChain(cfg, pool, req, n - 1);
      selections := PickSets(cfg, pool, req, n - 1).value.selections;
    }
  }

  /** A refused generation names the distribution that does not add up, a negative number of variants, or
      the refusal of the first selection that is not accepted. */
  lemma GenerationErrorIsFirst(cfg: Settings, b: Bank, req: RuleRequest, user: nat, pool: seq<nat>, now: int)
    returns (selections: seq<Selection>)
    requires RuleBased(cfg, b, req, user, pool, now).Err?
    ensures var e := RuleBased(cfg, b, req, user, pool, now).error;
            var sums := -0.1 <= PctSum(req.diffs) - 100.0 <= 0.1 && -0.1 <= PctSum(req.topics) - 100.0 <= 0.1;
            if !sums then e == PercentagesOff
            else if req.variants < 0 then e == BadVariantCount
            else
              && Chained(cfg, Views(b.items, pool), req, selections)
              && |selections| < (if req.variants == 0 then 1 else req.variants)
              && var used := UsedUp(selections, |selections|);
                 var s := Select(Views(b.items, pool), req.diffs, req.topics, req.total, used);
                 SelectionRefusal(cfg, req, s, selections == []) == Some(e)
  {
    hide PickSets, Chained, Views, Select, SelectionRefusal, UsedUp;
    selections := [];
    if SumsToHundred(req.diffs) && SumsToHundred(req.topics) && VariantCount(req) >= 1 {
      selections := FirstRefusal(cfg, Views(b.items, pool), req, VariantCount(req));
    }
  }

  /** What is generated from such selections. */
  lemma ChainIsGenerated(cfg: Settings, b: Bank, req: RuleRequest, user: nat, pool: seq<nat>, now: int,
                         selections: seq<Selection>)
    requires RuleBased(cfg, b, req, user, pool, now).Ok?
    requires |selections| == (if req.variants == 0 then 1 else req.variants)
    requires Chained(cfg, Views(b.items, pool), req, selections)
    ensures var t := RuleBased(cfg, b, req, user, pool, now).value;
            && |t.papers| == |b.papers| + 1
            && var p := t.papers[|b.papers|];
               && |p.variants| == |selections| - 1
               && p.itemIds == IdSeq(selections[0].items)
               && forall v :: 0 <= v < |p.variants| ==>
                    p.variants[v] == Variant(v + 2, IdSeq(selections[v + 1].items), TotalMarks(selections[v + 1].items))
  {
    hide PickSets, Views, TotalMarks;
    ChainIsPicked(cfg, Views(b.items, pool), req, selections);
    forall k | 0 <= k < |selections| ensures selections[k].marks == TotalMarks(selections[k].items) {
      assert Link(cfg, Views(b.items, pool), req, selections, k);
    }
    hide Chained;
  }

  // ----- what a section fault says -----

  predicate Twice(ids: seq<nat>, id: nat) {
    exists i, j :: 0 <= i < j < |ids| && ids[i] == id && ids[j] == id
  }

  lemma {:induction false} BadIdIsTrue(items: seq<Candidate>, read: seq<nat>, ids: seq<nat>, n: nat)
    requires n <= |ids|
    ensures match FirstBadId(items, read, ids, n)
            case None => true
            case Some(RepeatedItem(id)) => Twice(read + ids, id)
            case Some(ForeignItem(id)) => id in ids && forall c :: c in items ==> c.id != id
            case _ => false
  {
    hide Twice;
    if n > 0 {
      BadIdIsTrue(items, read, ids, n - 1);
      if ids[n - 1] in IdSet(read + ids[..n - 1]) {
        ReadTwice(read, ids, n);
      }
    }
  }

  lemma ReadTwice(read: seq<nat>, ids: seq<nat>, n: nat)
    requires 0 < n <= |ids| && ids[n - 1] in IdSet(read + ids[..n - 1])
    ensures Twice(read + ids, ids[n - 1])
  {
    var before := read + ids[..n - 1];
    var i :| 0 <= i < |before| && before[i] == ids[n - 1];
    assert (read + ids)[i] == ids[n - 1] && (read + ids)[|read| + n - 1] == ids[n - 1];
  }

  /** A faulty section is empty, or its marks differ from those of its items, or it holds an id that
      was read before or is foreign, as the error says. */
  lemma SectionFaultIsTrue(items: seq<Candidate>, sections: seq<Section>, k: nat)
    requires k < |sections|
    ensures match SectionFault(items, sections, k)
            case None => SectionOk(items, sections[k])
            case Some(EmptySection(index)) => index == k + 1 && sections[k].itemIds == []
            case Some(SectionMarksMismatch(index)) =>
              && index == k + 1 && sections[k].marks.Some?
              && sections[k].marks.value != MarksOfIds(items, sections[k].itemIds)
            case Some(RepeatedItem(id)) => Twice(AllIds(sections, k) + sections[k].itemIds, id)
            case Some(ForeignItem(id)) => id in sections[k].itemIds && forall c :: c in items ==> c.id != id
            case _ => false
  {
    var read, ids := AllIds(sections, k), sections[k].itemIds;
    BadIdIsTrue(items, read, ids, |ids|);
    hide Twice, AllIds, FirstBadId;
  }
}
