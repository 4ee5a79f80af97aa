/** What paper construction guarantees: sound variants, papers that stay true in every later
    state of the bank, and cool-down spacing over whole runs. */
module PaperLaws {
  import opened Wrappers
  import opened Decimals
  import opened Selector
  import opened SelectorLaws
  import opened PaperRules
  import opened PaperConstruction
  import W = ItemWorkflow
  import IL = ItemLaws

  // ----- generated selections -----

  /** What is demanded of one selection of a generated paper. */
  ghost predicate SelectionSound(cfg: Settings, pool: seq<Candidate>, req: RuleRequest, s: Selection) {
    && DistinctIds(s.items) && (forall c :: c in s.items ==> c in pool)
    && s.marks == TotalMarks(s.items) && WithinTolerance(cfg, s.marks, req.total)
    && TotalTime(s.items) <= req.timeLimit
    && BlueprintOk(cfg, s.items, req.blueprintRef, req.total)
    && (forall slot :: slot in Slots(req.diffs, req.topics) ==>
          MarksFor(s.items, slot) >= SlotTarget(slot, req.diffs, req.topics, req.total))
  }

  lemma AcceptedIsSound(cfg: Settings, pool: seq<Candidate>, req: RuleRequest, used: set<nat>, primary: bool)
    requires ValidInput(pool, req.diffs, req.topics) && DistinctIds(pool)
    requires SelectionRefusal(cfg, req, Select(pool, req.diffs, req.topics, req.total, used), primary).None?
    ensures var s := Select(pool, req.diffs, req.topics, req.total, used);
            SelectionSound(cfg, pool, req, s) && Ids(s.items) !! used
  {
    var s := Select(pool, req.diffs, req.topics, req.total, used);
    SelectionIsDistinct(pool, req.diffs, req.topics, req.total, used);
    forall slot | slot in Slots(req.diffs, req.topics)
      ensures MarksFor(s.items, slot) >= SlotTarget(slot, req.diffs, req.topics, req.total)
    {
      SuccessMeetsTargets(pool, req.diffs, req.topics, req.total, used, slot);
    }
    assert s.marks == TotalMarks(s.items);
    hide Select, MarksFor, SlotTarget, BlueprintOk, TotalTime, TotalMarks;
  }

  ghost predicate PickedSound(cfg: Settings, pool: seq<Candidate>, req: RuleRequest, p: Picked) {
    && (forall i :: 0 <= i < |p.selections| ==>
          SelectionSound(cfg, pool, req, p.selections[i]) && Ids(p.selections[i].items) <= p.used)
    && (forall i, j :: 0 <= i < j < |p.selections| ==>
          Ids(p.selections[i].items) !! Ids(p.selections[j].items))
  }

  /** GENERATION IS SOUND. In every successful call the primary and all variants are free of
      duplicates, pairwise disjoint, drawn from the pool, and each meets every difficulty and
      topic target, the blueprint, the tolerance and the time limit. */
  lemma {:induction false} GenerationIsSound(cfg: Settings, pool: seq<Candidate>, req: RuleRequest, k: nat)
    requires ValidInput(pool, req.diffs, req.topics) && DistinctIds(pool)
    requires PickSets(cfg, pool, req, k).Ok?
    ensures PickedSound(cfg, pool, req, PickSets(cfg, pool, req, k).value)
  {
    hide Select, SelectionRefusal, SelectionSound, PickedSound, Ids, ValidInput, DistinctIds;
    if k == 0 {
      NothingPicked(cfg, pool, req);
    } else {
      GenerationIsSound(cfg, pool, req, k - 1);
      var p := PickSets(cfg, pool, req, k - 1).value;
      var s := Select(pool, req.diffs, req.topics, req.total, p.used);
      AcceptedIsSound(cfg, pool, req, p.used, k == 1);
      ExtendPicked(cfg, pool, req, p, s);
    }
  }

  lemma NothingPicked(cfg: Settings, pool: seq<Candidate>, req: RuleRequest)
    ensures PickedSound(cfg, pool, req, Picked([], {}))
  {
  }

  lemma ExtendPicked(cfg: Settings, pool: seq<Candidate>, req: RuleRequest, p: Picked, s: Selection)
    requires PickedSound(cfg, pool, req, p) && SelectionSound(cfg, pool, req, s) && Ids(s.items) !! p.used
    ensures PickedSound(cfg, pool, req, Picked(p.selections + [s], p.used + Ids(s.items)))
  {
    hide SelectionSound, Ids;
    var q := Picked(p.selections + [s], p.used + Ids(s.items));
    forall i, j | 0 <= i < j < |q.selections|
      ensures Ids(q.selections[i].items) !! Ids(q.selections[j].items)
    {
      if j == |p.selections| {
        assert Ids(p.selections[i].items) <= p.used;
      }
    }
  }

  /** A primary is short exactly of what the eligible pool cannot supply: the call is refused for
      its constraints if and only if some target exceeds the marks of the eligible items. */
  lemma PrimaryIsShortIff(cfg: Settings, pool: seq<Candidate>, req: RuleRequest)
    requires ValidInput(pool, req.diffs, req.topics)
    ensures SelectionRefusal(cfg, req, Select(pool, req.diffs, req.topics, req.total, {}), true)
            == Some(ConstraintsUnmet)
       <==> exists slot :: slot in Slots(req.diffs, req.topics)
              && Lacks(pool, req.diffs, req.topics, req.total, {}, slot)
  {
    hide Select, Lacks, Slots, BlueprintOk, TotalTime;
    SelectionFailsIff(pool, req.diffs, req.topics, req.total, {});
  }

  // ----- usage accounting -----

  function CountUsage(rows: seq<Usage>, n: nat, id: nat): nat
    requires n <= |rows|
  {
    if n == 0 then 0 else CountUsage(rows, n - 1, id) + if rows[n - 1].itemId == id then 1 else 0
  }

  function CountAccess(rows: seq<Access>, n: nat, id: nat): nat
    requires n <= |rows|
  {
    if n == 0 then 0 else CountAccess(rows, n - 1, id) + if rows[n - 1].itemId == id then 1 else 0
  }

  lemma {:induction false} OneRowEach(ids: seq<nat>, sitting: string, user: nat, now: int, n: nat, id: nat)
    requires NoRepeats(ids) && n <= |ids|
    ensures CountUsage(UsageRows(ids, sitting, now), n, id) == if id in ids[..n] then 1 else 0
    ensures CountAccess(AccessRows(ids, user), n, id) == if id in ids[..n] then 1 else 0
  {
    if n > 0 {
      OneRowEach(ids, sitting, user, now, n - 1, id);
      assert ids[..n] == ids[..n - 1] + [ids[n - 1]];
      assert ids[n - 1] !in ids[..n - 1];
    }
  }

  lemma ConcatDistinct(a: seq<nat>, b: seq<nat>)
    requires NoRepeats(a) && NoRepeats(b) && IdSet(a) !! IdSet(b)
    ensures NoRepeats(a + b)
  {
    forall i, j | 0 <= i < j < |a + b| ensures (a + b)[i] != (a + b)[j] {
      if i < |a| <= j {
        assert a[i] in IdSet(a) && b[j - |a|] in IdSet(b);
      }
    }
  }

  lemma IdSetConcat(a: seq<nat>, b: seq<nat>)
    ensures IdSet(a + b) == IdSet(a) + IdSet(b)
  {
    forall x | x in IdSet(a) + IdSet(b) ensures x in IdSet(a + b) {
      if x in IdSet(a) {
        var i :| 0 <= i < |a| && a[i] == x;
        assert (a + b)[i] == x;
      } else {
        var i :| 0 <= i < |b| && b[i] == x;
        assert (a + b)[|a| + i] == x;
      }
    }
  }

  lemma SeqOfDistinct(items: seq<Candidate>)
    requires DistinctIds(items)
    ensures NoRepeats(IdSeq(items)) && IdSet(IdSeq(items)) == Ids(items)
  {
    forall x | x in Ids(items) ensures x in IdSet(IdSeq(items)) {
      var i :| 0 <= i < |items| && items[i].id == x;
      assert IdSeq(items)[i] == x;
    }
  }

  /** All ids of a generated paper, primary and variants together, are distinct. */
  lemma {:induction false} PickedIdsDistinct(cfg: Settings, pool: seq<Candidate>, req: RuleRequest, p: Picked, n: nat)
    requires PickedSound(cfg, pool, req, p) && n <= |p.selections|
    ensures NoRepeats(PickedIds(p.selections, n))
    ensures forall i :: n <= i < |p.selections| ==> IdSet(PickedIds(p.selections, n)) !! Ids(p.selections[i].items)
  {
    hide BlueprintOk, MarksFor, SlotTarget, TotalTime, TotalMarks;
    if n > 0 {
      PickedIdsDistinct(cfg, pool, req, p, n - 1);
      var items := p.selections[n - 1].items;
      SeqOfDistinct(items);
      ConcatDistinct(PickedIds(p.selections, n - 1), IdSeq(items));
      IdSetConcat(PickedIds(p.selections, n - 1), IdSeq(items));
      hide Ids, IdSet, NoRepeats;
      forall i | n <= i < |p.selections| ensures Ids(items) !! Ids(p.selections[i].items) {
        assert Ids(p.selections[n - 1].items) !! Ids(p.selections[i].items);
      }
    }
  }

  /** The rows a successful call appends: exactly one usage row and one access row per item used. */
  lemma OneRowPerItem(b: Bank, p: Paper, ids: seq<nat>, user: nat, now: int, id: nat)
    requires NoRepeats(ids)
    ensures var t := Committed(b, p, ids, user, now);
            && b.usage <= t.usage && b.accesses <= t.accesses
            && CountUsage(t.usage[|b.usage|..], |ids|, id) == (if id in ids then 1 else 0)
            && CountAccess(t.accesses[|b.accesses|..], |ids|, id) == (if id in ids then 1 else 0)
            && |t.usage| == |b.usage| + |ids| && |t.accesses| == |b.accesses| + |ids|
            && (forall k :: 0 <= k < |ids| ==> t.usage[|b.usage|..][k] == Usage(ids[k], p.sitting, now))
            && (forall k :: 0 <= k < |ids| ==> t.accesses[|b.accesses|..][k] == Access(ids[k], user))
  {
    OneRowEach(ids, p.sitting, user, now, |ids|, id);
    assert ids[..|ids|] == ids;
    var t := Committed(b, p, ids, user, now);
    assert t.usage[|b.usage|..] == UsageRows(ids, p.sitting, now);
    assert t.accesses[|b.accesses|..] == AccessRows(ids, user);
  }

  // ----- papers in the bank -----

  /** The item set of a paper or variant, judged by the items as they are now. */
  predicate SetTrue(items: map<nat, W.Item>, ids: seq<nat>, total: int, slack: int, timeLimit: int) {
    && NoRepeats(ids) && AllAvailable(items, ids)
    && Abs(TotalMarks(Views(items, ids)) - total) <= slack
    && TotalTime(Views(items, ids)) <= timeLimit
  }

  predicate VariantsTrue(cfg: Settings, items: map<nat, W.Item>, p: Paper) {
    forall i :: 0 <= i < |p.variants| ==>
      SetTrue(items, p.variants[i].itemIds, p.totalMarks, cfg.tolerance, p.timeLimit)
  }

  predicate VariantsDisjoint(p: Paper) {
    && (forall i :: 0 <= i < |p.variants| ==> IdSet(p.itemIds) !! IdSet(p.variants[i].itemIds))
    && (forall i, j :: 0 <= i < j < |p.variants| ==>
          IdSet(p.variants[i].itemIds) !! IdSet(p.variants[j].itemIds))
  }

  /** A manual paper's sections hold each of its items once, with the marks they declare. */
  predicate SectionsTrue(cfg: Settings, items: map<nat, W.Item>, p: Paper) {
    p.origin.Constructed? ==>
      SectionsPartition(Views(items, p.itemIds), p.sections, DeclaredSections(cfg, p.blueprintRef))
  }

  /** A manual paper holds its marks exactly, a generated one and its variants within tolerance. */
  predicate PaperTrue(cfg: Settings, items: map<nat, W.Item>, p: Paper) {
    && SetTrue(items, p.itemIds, p.totalMarks, if p.origin.Constructed? then 0 else cfg.tolerance, p.timeLimit)
    && VariantsTrue(cfg, items, p) && VariantsDisjoint(p) && SectionsTrue(cfg, items, p)
    && (p.origin.Constructed? ==> p.variants == [])
  }

  predicate UsesItem(p: Paper, id: nat) {
    id in p.itemIds || exists i :: 0 <= i < |p.variants| && id in p.variants[i].itemIds
  }

  /** Every earlier use of one of the paper's items in another sitting is far enough back. */
  ghost predicate PaperSpaced(cfg: Settings, usage: seq<Usage>, p: Paper) {
    && p.sitting != "" && p.usedBefore <= |usage|
    && forall i :: 0 <= i < p.usedBefore && UsesItem(p, usage[i].itemId) && usage[i].sitting != p.sitting ==>
         Spaced(usage[..p.usedBefore], p.sitting, usage[i].sitting, cfg.cooldown)
  }

  ghost predicate ItemsOk(items: map<nat, W.Item>) {
    forall id :: id in items ==> IL.Inv(items[id])
  }

  ghost predicate BankInv(cfg: Settings, b: Bank) {
    && ItemsOk(b.items)
    && (forall i :: 0 <= i < |b.papers| ==> PaperTrue(cfg, b.items, b.papers[i]))
    && (forall i :: 0 <= i < |b.papers| ==> PaperSpaced(cfg, b.usage, b.papers[i]))
  }

  // ----- locked items keep papers true -----

  /** No locked item is lost, unlocked, or changed in anything but its tags. */
  predicate Frozen(a: map<nat, W.Item>, b: map<nat, W.Item>) {
    forall id :: id in a && a[id].status == W.LockedForUse ==> id in b && IL.SameButTags(a[id], b[id])
  }

  predicate SameNumbers(a: seq<Candidate>, b: seq<Candidate>) {
    |a| == |b| && forall i :: 0 <= i < |a| ==> Worth(a[i]) == Worth(b[i]) && TimeOf(a[i]) == TimeOf(b[i])
  }

  lemma {:induction false} SameNumbersSameTotals(a: seq<Candidate>, b: seq<Candidate>)
    requires SameNumbers(a, b)
    ensures TotalMarks(a) == TotalMarks(b) && TotalTime(a) == TotalTime(b)
  {
    if a != [] {
      assert SameNumbers(a[1..], b[1..]);
      SameNumbersSameTotals(a[1..], b[1..]);
    }
  }

  lemma FrozenKeepsSet(a: map<nat, W.Item>, b: map<nat, W.Item>, ids: seq<nat>, total: int, slack: int, timeLimit: int)
    requires Frozen(a, b) && SetTrue(a, ids, total, slack, timeLimit)
    ensures SetTrue(b, ids, total, slack, timeLimit)
  {
    forall i | 0 <= i < |ids| ensures Available(b, ids[i]) {
      assert Available(a, ids[i]);
    }
    SameNumbersSameTotals(Views(a, ids), Views(b, ids));
  }

  predicate SameIds(a: seq<Candidate>, b: seq<Candidate>) {
    |a| == |b| && forall i :: 0 <= i < |a| ==> a[i].id == b[i].id
  }

  lemma {:induction false} SameMarksOfId(a: seq<Candidate>, b: seq<Candidate>, id: nat)
    requires SameNumbers(a, b) && SameIds(a, b)
    ensures MarksOfId(a, id) == MarksOfId(b, id)
  {
    if a != [] {
      assert SameNumbers(a[1..], b[1..]) && SameIds(a[1..], b[1..]);
      SameMarksOfId(a[1..], b[1..], id);
    }
  }

  lemma {:induction false} SameMarksOfIds(a: seq<Candidate>, b: seq<Candidate>, ids: seq<nat>)
    requires SameNumbers(a, b) && SameIds(a, b)
    ensures MarksOfIds(a, ids) == MarksOfIds(b, ids)
  {
    if ids != [] {
      SameMarksOfId(a, b, ids[0]);
      SameMarksOfIds(a, b, ids[1..]);
    }
  }

  lemma SameSections(a: seq<Candidate>, b: seq<Candidate>, sections: seq<Section>, declared: nat)
    requires SameNumbers(a, b) && SameIds(a, b) && SectionsPartition(a, sections, declared)
    ensures SectionsPartition(b, sections, declared)
  {
    forall k | 0 <= k < |sections| ensures MarksOfIds(a, sections[k].itemIds) == MarksOfIds(b, sections[k].itemIds) {
      SameMarksOfIds(a, b, sections[k].itemIds);
    }
    assert Ids(a) == Ids(b);
    hide MarksOfIds, NoRepeats, IdSet, Ids, AllIds;
  }

  lemma FrozenKeepsSections(cfg: Settings, a: map<nat, W.Item>, b: map<nat, W.Item>, p: Paper)
    requires Frozen(a, b) && AllAvailable(a, p.itemIds) && SectionsTrue(cfg, a, p)
    ensures SectionsTrue(cfg, b, p)
  {
    var va, vb := Views(a, p.itemIds), Views(b, p.itemIds);
    forall i | 0 <= i < |p.itemIds|
      ensures Worth(va[i]) == Worth(vb[i]) && TimeOf(va[i]) == TimeOf(vb[i]) && va[i].id == vb[i].id
    {
      assert Available(a, p.itemIds[i]);
    }
    if p.origin.Constructed? {
      SameSections(va, vb, p.sections, DeclaredSections(cfg, p.blueprintRef));
    }
  }

  lemma FrozenKeepsPaper(cfg: Settings, a: map<nat, W.Item>, b: map<nat, W.Item>, p: Paper)
    requires Frozen(a, b) && PaperTrue(cfg, a, p)
    ensures PaperTrue(cfg, b, p)
  {
    assert AllAvailable(a, p.itemIds);
    hide SetTrue, Frozen, SectionsTrue, AllAvailable;
    FrozenKeepsSections(cfg, a, b, p);
    FrozenKeepsSet(a, b, p.itemIds, p.totalMarks, if p.origin.Constructed? then 0 else cfg.tolerance, p.timeLimit);
    forall i | 0 <= i < |p.variants|
      ensures SetTrue(b, p.variants[i].itemIds, p.totalMarks, cfg.tolerance, p.timeLimit)
    {
      FrozenKeepsSet(a, b, p.variants[i].itemIds, p.totalMarks, cfg.tolerance, p.timeLimit);
    }
  }

  lemma LaterUsageKeepsSpacing(cfg: Settings, usage: seq<Usage>, more: seq<Usage>, p: Paper)
    requires PaperSpaced(cfg, usage, p)
    ensures PaperSpaced(cfg, usage + more, p)
  {
    assert (usage + more)[..p.usedBefore] == usage[..p.usedBefore];
  }

  // ----- what the constructors add -----

  lemma ManualIsTrue(cfg: Settings, b: Bank, req: ManualRequest, recent: seq<string>)
    requires ManualRefusal(cfg, b, req, recent).None?
    ensures PaperTrue(cfg, b.items, ManualPaper(b, req))
  {
    SectionsAcceptedIff(Views(b.items, req.itemIds), req.sections, DeclaredSections(cfg, req.blueprintRef));
    hide SectionsPartition, Fault, BlueprintOk, TotalMarks, TotalTime;
  }

  lemma NotCooledIsSpaced(cfg: Settings, b: Bank, p: Paper, recent: seq<string>)
    requires IsRecent(b.usage, cfg.cooldown, p.sitting, recent) && p.sitting != "" && p.usedBefore == |b.usage|
    requires forall id :: UsesItem(p, id) ==> id !in CooledItems(b.usage, recent)
    ensures PaperSpaced(cfg, b.usage, p)
  {
    assert b.usage[..|b.usage|] == b.usage;
    forall i | 0 <= i < p.usedBefore && UsesItem(p, b.usage[i].itemId) && b.usage[i].sitting != p.sitting
      ensures Spaced(b.usage, p.sitting, b.usage[i].sitting, cfg.cooldown)
    {
      CooldownSpaces(b.usage, cfg.cooldown, p.sitting, recent, i);
    }
  }

  lemma ManualIsSpaced(cfg: Settings, b: Bank, req: ManualRequest, recent: seq<string>)
    requires req.sitting != "" && IsRecent(b.usage, cfg.cooldown, req.sitting, recent)
    requires ManualRefusal(cfg, b, req, recent).None?
    ensures PaperSpaced(cfg, b.usage, ManualPaper(b, req))
  {
    var p := ManualPaper(b, req);
    assert NoneUsedIn(b.usage, req.itemIds, recent);
    forall id | UsesItem(p, id) ensures id !in CooledItems(b.usage, recent) {
      ChecksAgree(b.usage, recent, id);
      var k :| 0 <= k < |req.itemIds| && req.itemIds[k] == id;
    }
    NotCooledIsSpaced(cfg, b, p, recent);
  }

  // ----- rule-based papers -----

  /** The pool rows are distinct, and worth something because locked items are. */
  lemma PoolIsValid(items: map<nat, W.Item>, subject: string, cooled: set<nat>, pool: seq<nat>,
                    diffs: Distribution, topics: Distribution)
    requires ItemsOk(items) && IsPool(items, subject, cooled, pool)
    requires DistinctKeys(diffs) && DistinctKeys(topics) && NonNegativeShares(diffs) && NonNegativeShares(topics)
    ensures ValidInput(Views(items, pool), diffs, topics) && DistinctIds(Views(items, pool))
  {
    var vs := Views(items, pool);
    forall c | c in vs ensures Worth(c) >= 0 {
      var i :| 0 <= i < |vs| && vs[i] == c;
      assert InPool(items, subject, cooled, pool[i]);
      var m, n := IL.LockedWasEarned(items[pool[i]]);
    }
    forall i | 0 <= i < |pool| ensures vs[i].id == pool[i] {
      assert InPool(items, subject, cooled, pool[i]);
    }
  }

  /** A selection from the pool lists rows of the bank, none of them cooled down. */
  lemma SelectionFromBank(items: map<nat, W.Item>, subject: string, cooled: set<nat>, pool: seq<nat>, s: seq<Candidate>)
    requires IsPool(items, subject, cooled, pool)
    requires forall c :: c in s ==> c in Views(items, pool)
    ensures AllAvailable(items, IdSeq(s)) && Views(items, IdSeq(s)) == s
    ensures forall id :: id in IdSeq(s) ==> id !in cooled
    ensures forall i :: 0 <= i < |s| ==> s[i].subject == Some(subject)
  {
    var ids := IdSeq(s);
    forall i | 0 <= i < |s|
      ensures Available(items, ids[i]) && ViewOf(items, ids[i]) == s[i] && ids[i] !in cooled
      ensures s[i].subject == Some(subject)
    {
      assert s[i] in Views(items, pool);
      var k :| 0 <= k < |pool| && Views(items, pool)[k] == s[i];
      assert InPool(items, subject, cooled, pool[k]);
    }
  }

  lemma SelectionIsTrue(cfg: Settings, items: map<nat, W.Item>, pool: seq<nat>, cooled: set<nat>, req: RuleRequest,
                        s: Selection)
    requires IsPool(items, req.subject, cooled, pool)
    requires SelectionSound(cfg, Views(items, pool), req, s)
    ensures SetTrue(items, IdSeq(s.items), req.total, cfg.tolerance, req.timeLimit)
    ensures forall id :: id in IdSeq(s.items) ==> id !in cooled
    ensures IdSet(IdSeq(s.items)) == Ids(s.items)
  {
    SelectionFromBank(items, req.subject, cooled, pool, s.items);
    SeqOfDistinct(s.items);
    hide TotalMarks, TotalTime, BlueprintOk, MarksFor, SlotTarget, NoRepeats, AllAvailable, IdSet, Ids;
  }

  lemma GeneratedIsTrue(cfg: Settings, b: Bank, req: RuleRequest, pool: seq<nat>, cooled: set<nat>, p: Picked)
    requires IsPool(b.items, req.subject, cooled, pool) && p.selections != []
    requires PickedSound(cfg, Views(b.items, pool), req, p)
    ensures PaperTrue(cfg, b.items, RulePaper(b, req, p.selections))
    ensures forall id :: UsesItem(RulePaper(b, req, p.selections), id) ==> id !in cooled
  {
    hide SetTrue, SelectionSound, IsPool, IdSet, Ids, Views;
    var paper := RulePaper(b, req, p.selections);
    forall i | 0 <= i < |p.selections|
      ensures SetTrue(b.items, IdSeq(p.selections[i].items), req.total, cfg.tolerance, req.timeLimit)
      ensures forall id :: id in IdSeq(p.selections[i].items) ==> id !in cooled
      ensures IdSet(IdSeq(p.selections[i].items)) == Ids(p.selections[i].items)
    {
      SelectionIsTrue(cfg, b.items, pool, cooled, req, p.selections[i]);
    }
  }

  /** The rows that `t` has on top of `b`: one usage row and one access row for each of `ids`. */
  predicate OneRowFor(b: Bank, t: Bank, ids: seq<nat>, id: nat) {
    && b.usage <= t.usage && |t.usage| == |b.usage| + |ids|
    && b.accesses <= t.accesses && |t.accesses| == |b.accesses| + |ids|
    && CountUsage(t.usage[|b.usage|..], |ids|, id) == (if id in ids then 1 else 0)
    && CountAccess(t.accesses[|b.accesses|..], |ids|, id) == (if id in ids then 1 else 0)
  }

  predicate FromPool(items: map<nat, W.Item>, subject: string, cooled: set<nat>, s: Selection) {
    forall i :: 0 <= i < |s.items| ==> InPool(items, subject, cooled, s.items[i].id)
  }

  lemma SelectionInPool(cfg: Settings, items: map<nat, W.Item>, pool: seq<nat>, cooled: set<nat>, req: RuleRequest,
                        s: Selection)
    requires IsPool(items, req.subject, cooled, pool)
    requires SelectionSound(cfg, Views(items, pool), req, s)
    ensures FromPool(items, req.subject, cooled, s)
  {
    hide TotalMarks, TotalTime, BlueprintOk, MarksFor, SlotTarget, DistinctIds;
    forall i | 0 <= i < |s.items| ensures InPool(items, req.subject, cooled, s.items[i].id) {
      assert s.items[i] in Views(items, pool);
      var k :| 0 <= k < |pool| && Views(items, pool)[k] == s.items[i];
      assert InPool(items, req.subject, cooled, pool[k]);
    }
  }

  /** THE WHOLE CALL. A successful generation adds one paper. Its primary and its variants are
      pairwise disjoint sound selections of locked items of the subject that are not cooled down,
      and every item used gets exactly one usage row and one access row. */
  lemma RuleBasedIsSound(cfg: Settings, b: Bank, req: RuleRequest, user: nat, recent: seq<string>, pool: seq<nat>,
                         now: int)
    requires ItemsOk(b.items) && Answered(cfg, b, MakeRuleBased(req, user, recent, pool, now))
    requires RuleBased(cfg, b, req, user, pool, now).Ok?
    ensures var t := RuleBased(cfg, b, req, user, pool, now).value;
            var p := PickSets(cfg, Views(b.items, pool), req, VariantCount(req)).value;
            var ids := PickedIds(p.selections, |p.selections|);
            && |p.selections| == VariantCount(req)
            && t.items == b.items && t.papers == b.papers + [RulePaper(b, req, p.selections)]
            && PickedSound(cfg, Views(b.items, pool), req, p)
            && (forall i :: 0 <= i < |p.selections| ==>
                  FromPool(b.items, req.subject, CooledItems(b.usage, recent), p.selections[i]))
            && (forall id :: OneRowFor(b, t, ids, id))
            && |t.usage[|b.usage|..]| == |t.accesses[|b.accesses|..]| == |ids|
            && (forall k :: 0 <= k < |ids| ==> t.usage[|b.usage|..][k] == Usage(ids[k], req.sitting, now))
            && (forall k :: 0 <= k < |ids| ==> t.accesses[|b.accesses|..][k] == Access(ids[k], user))
  {
    hide PickSets, IsRecent, IsPool, CooledItems, ItemsOk, Views, PickedSound, SelectionSound, FromPool, CountUsage,
         CountAccess, NoRepeats;
    var cooled := CooledItems(b.usage, recent);
    PoolIsValid(b.items, req.subject, cooled, pool, req.diffs, req.topics);
    GenerationIsSound(cfg, Views(b.items, pool), req, VariantCount(req));
    var p := PickSets(cfg, Views(b.items, pool), req, VariantCount(req)).value;
    PickedFromPool(cfg, b.items, pool, cooled, req, p);
    PickedIdsDistinct(cfg, Views(b.items, pool), req, p, |p.selections|);
    var ids := PickedIds(p.selections, |p.selections|);
    OneRowPerItem(b, RulePaper(b, req, p.selections), ids, user, now, 0);
    forall id ensures OneRowFor(b, RuleBased(cfg, b, req, user, pool, now).value, ids, id) {
      OneRowPerItem(b, RulePaper(b, req, p.selections), ids, user, now, id);
    }
  }

  lemma PickedFromPool(cfg: Settings, items: map<nat, W.Item>, pool: seq<nat>, cooled: set<nat>, req: RuleRequest,
                       p: Picked)
    requires IsPool(items, req.subject, cooled, pool) && PickedSound(cfg, Views(items, pool), req, p)
    ensures forall i :: 0 <= i < |p.selections| ==> FromPool(items, req.subject, cooled, p.selections[i])
  {
    hide SelectionSound, FromPool, IsPool, Ids, Views;
    forall i | 0 <= i < |p.selections| ensures FromPool(items, req.subject, cooled, p.selections[i]) {
      SelectionInPool(cfg, items, pool, cooled, req, p.selections[i]);
    }
  }

  // ----- runs of the bank -----

  datatype BankOp =
    | NewItem(id: nat, author: nat, data: W.DraftData, versionId: nat, schema: Option<nat>)
    | OnItem(id: nat, op: W.Op)
    | BulkRetag(ids: set<nat>, tags: W.Tags, permitted: bool, knownFields: bool)
    | MakeManual(manual: ManualRequest, user: nat, recent: seq<string>, now: int)
    | MakeRuleBased(rules: RuleRequest, user: nat, recent: seq<string>, pool: seq<nat>, now: int)

  function Retagged(items: map<nat, W.Item>, ids: set<nat>, tags: W.Tags): map<nat, W.Item> {
    map id | id in items :: if id in ids then W.Next(items[id], W.Retag(tags)) else items[id]
  }

  function BankNext(cfg: Settings, b: Bank, op: BankOp): Bank {
    match op
    case NewItem(id, author, data, versionId, schema) =>
      var r := W.Create(author, data, versionId, schema);
      if id in b.items || r.Err? then b else b.(items := b.items[id := r.value])
    case OnItem(id, o) =>
      if id in b.items then b.(items := b.items[id := W.Next(b.items[id], o)]) else b
    case BulkRetag(ids, tags, permitted, knownFields) =>
      if !permitted || !knownFields || ids * b.items.Keys == {} then b
      else b.(items := Retagged(b.items, ids, tags))
    case MakeManual(req, user, recent, now) => Settled(b, Manual(cfg, b, req, user, recent, now))
    case MakeRuleBased(req, user, recent, pool, now) => Settled(b, RuleBased(cfg, b, req, user, pool, now))
  }

  /** What the serializers demand of a request, and that the two query answers are answers. */
  predicate Answered(cfg: Settings, b: Bank, op: BankOp) {
    match op
    case NewItem(_, _, data, _, _) => IL.TypedData(data)
    case OnItem(_, o) => IL.TypedOp(o)
    case BulkRetag(_, _, _, _) => true
    case MakeManual(req, _, recent, _) =>
      req.sitting != "" && IsRecent(b.usage, cfg.cooldown, req.sitting, recent)
    case MakeRuleBased(req, _, recent, pool, _) =>
      && req.sitting != "" && DistinctKeys(req.diffs) && DistinctKeys(req.topics)
      && NonNegativeShares(req.diffs) && NonNegativeShares(req.topics)
      && IsRecent(b.usage, cfg.cooldown, req.sitting, recent)
      && IsPool(b.items, req.subject, CooledItems(b.usage, recent), pool)
  }

  lemma ItemStepFreezes(items: map<nat, W.Item>, id: nat, op: W.Op)
    requires id in items && ItemsOk(items) && IL.TypedOp(op)
    ensures ItemsOk(items[id := W.Next(items[id], op)]) && Frozen(items, items[id := W.Next(items[id], op)])
  {
    hide W.Next, IL.Inv, IL.TypedOp;
    IL.StepKeepsInv(items[id], op);
    if items[id].status == W.LockedForUse {
      IL.LockedStep(items[id], op);
    }
  }

  lemma RetagFreezes(items: map<nat, W.Item>, ids: set<nat>, tags: W.Tags)
    requires ItemsOk(items)
    ensures ItemsOk(Retagged(items, ids, tags)) && Frozen(items, Retagged(items, ids, tags))
  {
    hide W.Next, IL.Inv;
    forall id | id in items
      ensures IL.Inv(W.Next(items[id], W.Retag(tags)))
      ensures items[id].status == W.LockedForUse ==> IL.SameButTags(items[id], W.Next(items[id], W.Retag(tags)))
    {
      IL.StepKeepsInv(items[id], W.Retag(tags));
      if items[id].status == W.LockedForUse {
        IL.LockedStep(items[id], W.Retag(tags));
      }
    }
  }

  lemma NewItemFreezes(items: map<nat, W.Item>, id: nat, author: nat, data: W.DraftData, versionId: nat,
                       schema: Option<nat>)
    requires ItemsOk(items) && id !in items && IL.TypedData(data) && W.Create(author, data, versionId, schema).Ok?
    ensures var more := items[id := W.Create(author, data, versionId, schema).value];
            ItemsOk(more) && Frozen(items, more)
  {
    IL.CreateIsSane(author, data, versionId, schema);
    hide W.Create, IL.Inv;
  }

  lemma ItemOpsFreeze(cfg: Settings, b: Bank, op: BankOp)
    requires ItemsOk(b.items) && Answered(cfg, b, op) && !op.MakeManual? && !op.MakeRuleBased?
    ensures var t := BankNext(cfg, b, op);
            ItemsOk(t.items) && Frozen(b.items, t.items) && t.papers == b.papers && t.usage == b.usage
  {
    hide ItemsOk, W.Next, W.Create;
    match op
    case NewItem(id, author, data, versionId, schema) =>
      if id !in b.items && W.Create(author, data, versionId, schema).Ok? {
        NewItemFreezes(b.items, id, author, data, versionId, schema);
      }
    case OnItem(id, o) =>
      if id in b.items {
        ItemStepFreezes(b.items, id, o);
      }
    case BulkRetag(ids, tags, _, _) =>
      RetagFreezes(b.items, ids, tags);
  }

  lemma ItemOpsKeepInv(cfg: Settings, b: Bank, op: BankOp)
    requires BankInv(cfg, b) && Answered(cfg, b, op) && !op.MakeManual? && !op.MakeRuleBased?
    ensures BankInv(cfg, BankNext(cfg, b, op))
  {
    hide ItemsOk, Frozen, PaperTrue, PaperSpaced;
    var t := BankNext(cfg, b, op);
    ItemOpsFreeze(cfg, b, op);
    forall i | 0 <= i < |t.papers| ensures PaperTrue(cfg, t.items, t.papers[i]) {
      FrozenKeepsPaper(cfg, b.items, t.items, b.papers[i]);
    }
  }

  lemma CommitKeepsInv(cfg: Settings, b: Bank, p: Paper, ids: seq<nat>, user: nat, now: int)
    requires BankInv(cfg, b) && PaperTrue(cfg, b.items, p) && PaperSpaced(cfg, b.usage, p)
    ensures BankInv(cfg, Committed(b, p, ids, user, now))
  {
    hide ItemsOk, PaperTrue, PaperSpaced;
    var t := Committed(b, p, ids, user, now);
    forall i | 0 <= i < |t.papers| ensures PaperSpaced(cfg, t.usage, t.papers[i]) {
      LaterUsageKeepsSpacing(cfg, b.usage, UsageRows(ids, p.sitting, now), t.papers[i]);
    }
  }

  lemma ManualKeepsInv(cfg: Settings, b: Bank, req: ManualRequest, user: nat, recent: seq<string>, now: int)
    requires BankInv(cfg, b) && Answered(cfg, b, MakeManual(req, user, recent, now))
    ensures BankInv(cfg, Settled(b, Manual(cfg, b, req, user, recent, now)))
  {
    hide BankInv, ManualRefusal, IsRecent;
    if ManualRefusal(cfg, b, req, recent).None? {
      ManualIsTrue(cfg, b, req, recent);
      ManualIsSpaced(cfg, b, req, recent);
      CommitKeepsInv(cfg, b, ManualPaper(b, req), req.itemIds, user, now);
    }
  }

  lemma RuleBasedKeepsInv(cfg: Settings, b: Bank, req: RuleRequest, user: nat, recent: seq<string>, pool: seq<nat>,
                          now: int)
    requires BankInv(cfg, b) && Answered(cfg, b, MakeRuleBased(req, user, recent, pool, now))
    ensures BankInv(cfg, Settled(b, RuleBased(cfg, b, req, user, pool, now)))
  {
    assert ItemsOk(b.items);
    hide BankInv, PickSets, IsRecent, IsPool, CooledItems, ItemsOk, PickedSound, PaperTrue, PaperSpaced, Views;
    if RuleBased(cfg, b, req, user, pool, now).Ok? {
      var cooled := CooledItems(b.usage, recent);
      PoolIsValid(b.items, req.subject, cooled, pool, req.diffs, req.topics);
      GenerationIsSound(cfg, Views(b.items, pool), req, VariantCount(req));
      var p := PickSets(cfg, Views(b.items, pool), req, VariantCount(req)).value;
      GeneratedIsTrue(cfg, b, req, pool, cooled, p);
      NotCooledIsSpaced(cfg, b, RulePaper(b, req, p.selections), recent);
      CommitKeepsInv(cfg, b, RulePaper(b, req, p.selections), PickedIds(p.selections, |p.selections|), user, now);
    }
  }

  lemma BankStepKeepsInv(cfg: Settings, b: Bank, op: BankOp)
    requires BankInv(cfg, b) && Answered(cfg, b, op)
    ensures BankInv(cfg, BankNext(cfg, b, op))
  {
    hide BankInv, Manual, RuleBased;
    match op
    case MakeManual(req, user, recent, now) => ManualKeepsInv(cfg, b, req, user, recent, now);
    case MakeRuleBased(req, user, recent, pool, now) => RuleBasedKeepsInv(cfg, b, req, user, recent, pool, now);
    case _ => ItemOpsKeepInv(cfg, b, op);
  }

  function BankAfter(cfg: Settings, ops: seq<BankOp>, n: nat): Bank
    requires n <= |ops|
  {
    if n == 0 then Bank(map[], [], [], []) else BankNext(cfg, BankAfter(cfg, ops, n - 1), ops[n - 1])
  }

  predicate AllAnswered(cfg: Settings, ops: seq<BankOp>) {
    forall i :: 0 <= i < |ops| ==> Answered(cfg, BankAfter(cfg, ops, i), ops[i])
  }

  lemma EmptyBankOk(cfg: Settings)
    ensures BankInv(cfg, Bank(map[], [], [], []))
  {
  }

  /** PAPERS STAY TRUE. In every reachable state of the bank every manual paper's items sum exactly
      to its total, every generated paper and variant stays within tolerance, all stay within the
      time limit, all their items are locked, variants are disjoint, and every item of a paper
      that was used before in another sitting is separated from it by the cool-down. */
  lemma {:induction false} PapersStayTrue(cfg: Settings, ops: seq<BankOp>, n: nat)
    requires AllAnswered(cfg, ops) && n <= |ops|
    ensures BankInv(cfg, BankAfter(cfg, ops, n))
  {
    hide BankInv, BankNext, Answered;
    if n == 0 {
      EmptyBankOk(cfg);
    } else {
      PapersStayTrue(cfg, ops, n - 1);
      BankStepKeepsInv(cfg, BankAfter(cfg, ops, n - 1), ops[n - 1]);
    }
  }

  /** What the invariant says of one item set, spelled out. */
  predicate SetTold(items: map<nat, W.Item>, ids: seq<nat>, timeLimit: int) {
    && NoRepeats(ids) && AllAvailable(items, ids) && TotalTime(Views(items, ids)) <= timeLimit
  }

  /** What the invariant says of one paper, spelled out. */
  ghost predicate PaperTold(cfg: Settings, b: Bank, p: Paper) {
    && SetTold(b.items, p.itemIds, p.timeLimit)
    && (p.origin.Constructed? ==>
          && TotalMarks(Views(b.items, p.itemIds)) == p.totalMarks && p.variants == []
          && SectionsPartition(Views(b.items, p.itemIds), p.sections, DeclaredSections(cfg, p.blueprintRef)))
    && (p.origin.Generated? ==> Abs(TotalMarks(Views(b.items, p.itemIds)) - p.totalMarks) <= cfg.tolerance)
    && (forall i :: 0 <= i < |p.variants| ==>
          && SetTold(b.items, p.variants[i].itemIds, p.timeLimit)
          && Abs(TotalMarks(Views(b.items, p.variants[i].itemIds)) - p.totalMarks) <= cfg.tolerance
          && IdSet(p.itemIds) !! IdSet(p.variants[i].itemIds))
    && (forall i, j :: 0 <= i < j < |p.variants| ==>
          IdSet(p.variants[i].itemIds) !! IdSet(p.variants[j].itemIds))
    && PaperSpaced(cfg, b.usage, p)
  }

  /** The instance for one paper of a reachable state. */
  lemma ReachablePaper(cfg: Settings, ops: seq<BankOp>, i: nat)
    requires AllAnswered(cfg, ops) && i < |BankAfter(cfg, ops, |ops|).papers|
    ensures PaperTold(cfg, BankAfter(cfg, ops, |ops|), BankAfter(cfg, ops, |ops|).papers[i])
  {
    PapersStayTrue(cfg, ops, |ops|);
    PaperOfBank(cfg, BankAfter(cfg, ops, |ops|), i);
    hide *;
  }

  lemma PaperOfBank(cfg: Settings, b: Bank, i: nat)
    requires BankInv(cfg, b) && i < |b.papers|
    ensures PaperTold(cfg, b, b.papers[i])
  {
    hide TotalMarks, TotalTime, Spaced, IL.Inv;
    assert PaperTrue(cfg, b.items, b.papers[i]);
  }

  /** Every earlier use of one of the paper's items in another sitting is strictly far enough back. */
  ghost predicate PaperSpacedStrictly(cfg: Settings, usage: seq<Usage>, p: Paper) {
    && p.usedBefore <= |usage|
    && forall i :: 0 <= i < p.usedBefore && UsesItem(p, usage[i].itemId) && usage[i].sitting != p.sitting ==>
         SpacedStrictly(usage[..p.usedBefore], p.sitting, usage[i].sitting, cfg.cooldown)
  }

  /** STRICT SPACING OVER RUNS. When no two sittings are used at one moment, every item of a reachable
      paper that was used before in another sitting has the configured number of distinct sittings,
      other than both, with a strictly later latest use. */
  lemma SpacingIsStrict(cfg: Settings, ops: seq<BankOp>, i: nat)
    requires AllAnswered(cfg, ops) && i < |BankAfter(cfg, ops, |ops|).papers|
    requires ClockSeparates(BankAfter(cfg, ops, |ops|).usage)
    ensures PaperSpacedStrictly(cfg, BankAfter(cfg, ops, |ops|).usage, BankAfter(cfg, ops, |ops|).papers[i])
  {
    var b := BankAfter(cfg, ops, |ops|);
    ReachablePaper(cfg, ops, i);
    SpacedIsStrict(cfg, b.usage, b.papers[i]);
    hide BankAfter, PaperSpaced, PaperSpacedStrictly, ClockSeparates, AllAnswered;
  }

  lemma SpacedIsStrict(cfg: Settings, usage: seq<Usage>, p: Paper)
    requires PaperSpaced(cfg, usage, p) && ClockSeparates(usage)
    ensures PaperSpacedStrictly(cfg, usage, p)
  {
    hide Spaced, SpacedStrictly;
    var before := usage[..p.usedBefore];
    forall i | 0 <= i < p.usedBefore && UsesItem(p, usage[i].itemId) && usage[i].sitting != p.sitting
      ensures SpacedStrictly(before, p.sitting, usage[i].sitting, cfg.cooldown)
    {
      assert before[i] == usage[i];
      ClockMakesStrict(before, p.sitting, usage[i].sitting, cfg.cooldown);
    }
  }
}
