/** Manual and rule-based paper construction over the item bank. The bank's tables are the state;
    a call that raises leaves all of them as they were. */
module PaperConstruction {
  import opened Wrappers
  import opened Decimals
  import opened Selector
  import opened SelectorLaws
  import opened PaperRules
  import W = ItemWorkflow

  datatype ManualRequest = ManualRequest(itemIds: seq<nat>, sitting: string, subject: string, mode: string,
                                         total: int, timeLimit: int, blueprintRef: string, sections: seq<Section>)

  datatype RuleRequest = RuleRequest(sitting: string, subject: string, mode: string, total: int, timeLimit: int,
                                     diffs: Distribution, topics: Distribution, blueprintRef: string, variants: int)

  datatype Variant = Variant(no: nat, itemIds: seq<nat>, total: int)

  /** Which audit action the paper was created with. */
  datatype Origin = Constructed | Generated

  /** `usedBefore` notes how many usage rows existed when the paper was made. */
  datatype Paper = Paper(origin: Origin, sitting: string, subject: string, mode: string, totalMarks: int,
                         timeLimit: int, itemIds: seq<nat>, sections: seq<Section>, variants: seq<Variant>,
                         blueprintRef: string, usedBefore: nat)

  datatype Access = Access(itemId: nat, actor: nat)

  datatype Bank = Bank(items: map<nat, W.Item>, papers: seq<Paper>, usage: seq<Usage>, accesses: seq<Access>)

  datatype Error =
    | DuplicateItems | ItemsUnavailable | MarksMismatch | SubjectMismatch
    | TimeExceeded | BlueprintUnmet | BadSections(fault: SectionError) | InCooldown
    | PercentagesOff | BadVariantCount | ConstraintsUnmet | ToleranceExceeded

  // ----- rows as the constructors read them -----

  function View(id: nat, it: W.Item): Candidate {
    Candidate(id, W.TagOf(it.metadata.tags, W.Subject), W.TagOf(it.metadata.tags, W.Difficulty),
              W.TagOf(it.metadata.tags, W.Topic), it.metadata.marks, it.metadata.time)
  }

  function ViewOf(items: map<nat, W.Item>, id: nat): Candidate {
    if id in items then View(id, items[id]) else Candidate(id, None, None, None, None, None)
  }

  function Views(items: map<nat, W.Item>, ids: seq<nat>): (vs: seq<Candidate>)
    ensures |vs| == |ids| && forall i :: 0 <= i < |ids| ==> vs[i] == ViewOf(items, ids[i])
  {
    seq(|ids|, i requires 0 <= i < |ids| => ViewOf(items, ids[i]))
  }

  predicate Available(items: map<nat, W.Item>, id: nat) {
    id in items && items[id].status == W.LockedForUse
  }

  predicate AllAvailable(items: map<nat, W.Item>, ids: seq<nat>) {
    forall i :: 0 <= i < |ids| ==> Available(items, ids[i])
  }

  /** The pool filter: locked items of the subject that are not cooled down. */
  predicate InPool(items: map<nat, W.Item>, subject: string, cooled: set<nat>, id: nat) {
    Available(items, id) && W.TagOf(items[id].metadata.tags, W.Subject) == Some(subject) && id !in cooled
  }

  /** An answer of the pool query: each matching row once, in any order. */
  predicate IsPool(items: map<nat, W.Item>, subject: string, cooled: set<nat>, pool: seq<nat>) {
    && NoRepeats(pool)
    && (forall i :: 0 <= i < |pool| ==> InPool(items, subject, cooled, pool[i]))
    && (forall id :: id in items && InPool(items, subject, cooled, id) ==> id in pool)
  }

  function DeclaredSections(cfg: Settings, ref: string): nat {
    if ref in cfg.catalogue then cfg.catalogue[ref].sections else 0
  }

  function Abs(x: int): int { if x < 0 then -x else x }

  // ----- writing a paper -----

  function UsageRows(ids: seq<nat>, sitting: string, now: int): (rows: seq<Usage>)
    ensures |rows| == |ids| && forall i :: 0 <= i < |ids| ==> rows[i] == Usage(ids[i], sitting, now)
  {
    seq(|ids|, i requires 0 <= i < |ids| => Usage(ids[i], sitting, now))
  }

  function AccessRows(ids: seq<nat>, user: nat): (rows: seq<Access>)
    ensures |rows| == |ids| && forall i :: 0 <= i < |ids| ==> rows[i] == Access(ids[i], user)
  {
    seq(|ids|, i requires 0 <= i < |ids| => Access(ids[i], user))
  }

  function Committed(b: Bank, p: Paper, ids: seq<nat>, user: nat, now: int): Bank {
    b.(papers := b.papers + [p], usage := b.usage + UsageRows(ids, p.sitting, now),
       accesses := b.accesses + AccessRows(ids, user))
  }

  // ----- manual construction -----

  predicate AllOfSubject(items: seq<Candidate>, subject: string) {
    forall i :: 0 <= i < |items| ==> items[i].subject == Some(subject)
  }

  predicate NoneUsedIn(usage: seq<Usage>, ids: seq<nat>, recent: seq<string>) {
    forall i :: 0 <= i < |ids| ==> !UsedIn(usage, ids[i], recent)
  }

  /** The first reason to refuse, in the order of the service. */
  function ManualRefusal(cfg: Settings, b: Bank, req: ManualRequest, recent: seq<string>): Option<Error> {
    var items := Views(b.items, req.itemIds);
    if !NoRepeats(req.itemIds) then Some(DuplicateItems)
    else if !AllAvailable(b.items, req.itemIds) then Some(ItemsUnavailable)
    else if TotalMarks(items) != req.total then Some(MarksMismatch)
    else if !AllOfSubject(items, req.subject) then Some(SubjectMismatch)
    else if TotalTime(items) > req.timeLimit then Some(TimeExceeded)
    else if !BlueprintOk(cfg, items, req.blueprintRef, req.total) then Some(BlueprintUnmet)
    else if Fault(items, req.sections, DeclaredSections(cfg, req.blueprintRef)).Some?
    then Some(BadSections(Fault(items, req.sections, DeclaredSections(cfg, req.blueprintRef)).value))
    else if !NoneUsedIn(b.usage, req.itemIds, recent) then Some(InCooldown)
    else None
  }

  function ManualPaper(b: Bank, req: ManualRequest): Paper {
    Paper(Constructed, req.sitting, req.subject, req.mode, req.total, req.timeLimit, req.itemIds,
          req.sections, [], req.blueprintRef, |b.usage|)
  }

  function Manual(cfg: Settings, b: Bank, req: ManualRequest, user: nat, recent: seq<string>, now: int):
    Result<Bank, Error>
  {
    match ManualRefusal(cfg, b, req, recent)
    case Some(e) => Err(e)
    case None => Ok(Committed(b, ManualPaper(b, req), req.itemIds, user, now))
  }

  // ----- rule-based generation -----

  datatype Picked = Picked(selections: seq<Selection>, used: set<nat>)

  predicate WithinTolerance(cfg: Settings, marks: int, total: int) {
    Abs(marks - total) <= cfg.tolerance
  }

  /** Why a selection is refused; the primary checks its marks last, a variant first. */
  function SelectionRefusal(cfg: Settings, req: RuleRequest, s: Selection, primary: bool): Option<Error> {
    if s.shortfalls != [] then Some(ConstraintsUnmet)
    else if !primary && !WithinTolerance(cfg, s.marks, req.total) then Some(ToleranceExceeded)
    else if !BlueprintOk(cfg, s.items, req.blueprintRef, req.total) then Some(BlueprintUnmet)
    else if TotalTime(s.items) > req.timeLimit then Some(TimeExceeded)
    else if !WithinTolerance(cfg, s.marks, req.total) then Some(ToleranceExceeded)
    else None
  }

  /** The primary and the variants up to number `k`: each selection avoids the items used before. */
  function PickSets(cfg: Settings, pool: seq<Candidate>, req: RuleRequest, k: nat): (r: Result<Picked, Error>)
    ensures r.Ok? ==> |r.value.selections| == k
  {
    if k == 0 then Ok(Picked([], {}))
    else
      match PickSets(cfg, pool, req, k - 1)
      case Err(e) => Err(e)
      case Ok(p) =>
        var s := Select(pool, req.diffs, req.topics, req.total, p.used);
        match SelectionRefusal(cfg, req, s, k == 1)
        case Some(e) => Err(e)
        case None => Ok(Picked(p.selections + [s], p.used + Ids(s.items)))
  }

  function VariantCount(req: RuleRequest): int {
    if req.variants == 0 then 1 else req.variants
  }

  predicate SumsToHundred(d: Distribution) {
    -0.1 <= PctSum(d) - 100.0 <= 0.1
  }

  function VariantsOf(selections: seq<Selection>): (vs: seq<Variant>)
    requires selections != []
    ensures |vs| == |selections| - 1
    ensures forall i :: 0 <= i < |vs| ==>
              vs[i] == Variant(i + 2, IdSeq(selections[i + 1].items), selections[i + 1].marks)
  {
    seq(|selections| - 1, i requires 0 <= i < |selections| - 1 =>
      Variant(i + 2, IdSeq(selections[i + 1].items), selections[i + 1].marks))
  }

  /** All picked ids, the primary's first. */
  function PickedIds(selections: seq<Selection>, n: nat): seq<nat>
    requires n <= |selections|
  {
    if n == 0 then [] else PickedIds(selections, n - 1) + IdSeq(selections[n - 1].items)
  }

  function RulePaper(b: Bank, req: RuleRequest, selections: seq<Selection>): Paper
    requires selections != []
  {
    Paper(Generated, req.sitting, req.subject, req.mode, req.total, req.timeLimit, IdSeq(selections[0].items),
          [], VariantsOf(selections), req.blueprintRef, |b.usage|)
  }

  function RuleBased(cfg: Settings, b: Bank, req: RuleRequest, user: nat, pool: seq<nat>, now: int):
    Result<Bank, Error>
  {
    if !SumsToHundred(req.diffs) || !SumsToHundred(req.topics) then Err(PercentagesOff)
    else if VariantCount(req) < 1 then Err(BadVariantCount)
    else
      match PickSets(cfg, Views(b.items, pool), req, VariantCount(req))
      case Err(e) => Err(e)
      case Ok(p) =>
        Ok(Committed(b, RulePaper(b, req, p.selections), PickedIds(p.selections, |p.selections|), user, now))
  }

  function Settled(b: Bank, r: Result<Bank, Error>): Bank {
    if r.Ok? then r.value else b
  }

  function Raised(r: Result<Bank, Error>): Option<Error> {
    if r.Ok? then None else Some(r.error)
  }

  // ----- the bank itself -----

  class ItemBank {
    const cfg: Settings
    var items: map<nat, W.Item>
    var papers: seq<Paper>
    var usage: seq<Usage>
    var accesses: seq<Access>

    function State(): Bank
      reads this
    {
      Bank(items, papers, usage, accesses)
    }

    constructor (cfg: Settings)
      ensures this.cfg == cfg && State() == Bank(map[], [], [], [])
    {
      this.cfg := cfg;
      items, papers, usage, accesses := map[], [], [], [];
    }

    /** One usage row per item, then one vault-access row per item. */
    method LogUse(ids: seq<nat>, sitting: string, user: nat, now: int)
      modifies this`usage, this`accesses
      ensures usage == old(usage) + UsageRows(ids, sitting, now)
      ensures accesses == old(accesses) + AccessRows(ids, user)
    {
      for i := 0 to |ids|
        invariant usage == old(usage) + UsageRows(ids, sitting, now)[..i]
        invariant accesses == old(accesses)
      {
        usage := usage + [Usage(ids[i], sitting, now)];
      }
      for i := 0 to |ids|
        invariant usage == old(usage) + UsageRows(ids, sitting, now)
        invariant accesses == old(accesses) + AccessRows(ids, user)[..i]
      {
        accesses := accesses + [Access(ids[i], user)];
      }
    }

    /** The item-by-item cool-down check. */
    method FindCooled(ids: seq<nat>, recent: seq<string>) returns (found: bool)
      ensures found <==> !NoneUsedIn(usage, ids, recent)
    {
      for i := 0 to |ids|
        invariant forall k :: 0 <= k < i ==> !UsedIn(usage, ids[k], recent)
      {
        if UsedIn(usage, ids[i], recent) {
          return true;
        }
      }
      return false;
    }

    method CreateManualPaper(req: ManualRequest, user: nat, now: int)
      returns (error: Option<Error>, ghost recent: seq<string>)
      modifies this
      ensures IsRecent(old(usage), cfg.cooldown, req.sitting, recent)
      ensures State() == Settled(old(State()), Manual(cfg, old(State()), req, user, recent, now))
      ensures error == Raised(Manual(cfg, old(State()), req, user, recent, now))
      ensures error.None? ==> usage == old(usage) + UsageRows(req.itemIds, req.sitting, now)
      ensures error.None? ==> accesses == old(accesses) + AccessRows(req.itemIds, user)
    {
      hide SectionsPartition, Fault, BlueprintOk, IsRecent, NoneUsedIn, TotalMarks, TotalTime;
      var recentSittings := RecentSittings(usage, cfg.cooldown, req.sitting);
      recent := recentSittings;
      if !NoRepeats(req.itemIds) {
        return Some(DuplicateItems), recent;
      }
      if !AllAvailable(items, req.itemIds) {
        return Some(ItemsUnavailable), recent;
      }
      var chosen := Views(items, req.itemIds);
      if TotalMarks(chosen) != req.total {
        return Some(MarksMismatch), recent;
      }
      if !AllOfSubject(chosen, req.subject) {
        return Some(SubjectMismatch), recent;
      }
      if TotalTime(chosen) > req.timeLimit {
        return Some(TimeExceeded), recent;
      }
      var covered := ValidateBlueprint(cfg, chosen, req.blueprintRef, req.total);
      if !covered {
        return Some(BlueprintUnmet), recent;
      }
      var problem := ValidateSections(chosen, req.sections, DeclaredSections(cfg, req.blueprintRef));
      if problem.Some? {
        return Some(BadSections(problem.value)), recent;
      }
      var cooled := FindCooled(req.itemIds, recentSittings);
      if cooled {
        return Some(InCooldown), recent;
      }
      papers := papers + [Paper(Constructed, req.sitting, req.subject, req.mode, req.total, req.timeLimit,
                                req.itemIds, req.sections, [], req.blueprintRef, |usage|)];
      LogUse(req.itemIds, req.sitting, user, now);
      return None, recent;
    }

    /** The pool query. */
    method QueryPool(subject: string, cooled: set<nat>) returns (pool: seq<nat>)
      ensures IsPool(items, subject, cooled, pool)
    {
      pool := [];
      var rest := items.Keys;
      while rest != {}
        invariant rest <= items.Keys && NoRepeats(pool)
        invariant forall i :: 0 <= i < |pool| ==> InPool(items, subject, cooled, pool[i]) && pool[i] !in rest
        invariant forall id :: id in items.Keys - rest && InPool(items, subject, cooled, id) ==> id in pool
        decreases |rest|
      {
        var id :| id in rest;
        if InPool(items, subject, cooled, id) {
          pool := pool + [id];
        }
        rest := rest - {id};
      }
    }

    /** The checks on one selection, in the service's order. */
    method CheckSelection(req: RuleRequest, s: Selection, primary: bool) returns (error: Option<Error>)
      ensures error == SelectionRefusal(cfg, req, s, primary)
    {
      if s.shortfalls != [] {
        return Some(ConstraintsUnmet);
      }
      if !primary && !WithinTolerance(cfg, s.marks, req.total) {
        return Some(ToleranceExceeded);
      }
      var covered := ValidateBlueprint(cfg, s.items, req.blueprintRef, req.total);
      if !covered {
        return Some(BlueprintUnmet);
      }
      if TotalTime(s.items) > req.timeLimit {
        return Some(TimeExceeded);
      }
      if !WithinTolerance(cfg, s.marks, req.total) {
        return Some(ToleranceExceeded);
      }
      return None;
    }

    /** The primary, then the loop over variant numbers with a growing set of used ids. */
    method PickAll(req: RuleRequest, pool: seq<Candidate>, count: nat) returns (r: Result<Picked, Error>)
      ensures r == PickSets(cfg, pool, req, count)
    {
      hide SelectionRefusal, Select;
      var selections: seq<Selection> := [];
      var used: set<nat> := {};
      for k := 0 to count
        invariant PickSets(cfg, pool, req, k) == Ok(Picked(selections, used))
      {
        var s := SelectItemsForConstraints(pool, req.diffs, req.topics, req.total, used);
        var error := CheckSelection(req, s, k == 0);
        if error.Some? {
          FailureIsFinal(cfg, pool, req, k + 1, count);
          return Err(error.value);
        }
        selections := selections + [s];
        used := used + Ids(s.items);
      }
      return Ok(Picked(selections, used));
    }

    method GeneratePaperRuleBased(req: RuleRequest, user: nat, now: int)
      returns (error: Option<Error>, ghost recent: seq<string>, ghost pool: seq<nat>)
      modifies this
      ensures IsRecent(old(usage), cfg.cooldown, req.sitting, recent)
      ensures IsPool(old(items), req.subject, CooledItems(old(usage), recent), pool)
      ensures State() == Settled(old(State()), RuleBased(cfg, old(State()), req, user, pool, now))
      ensures error == Raised(RuleBased(cfg, old(State()), req, user, pool, now))
      ensures error.None? ==> old(usage) <= usage && old(accesses) <= accesses
      ensures error.None? ==> forall k :: |old(usage)| <= k < |usage| ==>
                usage[k].sitting == req.sitting && usage[k].at == now
      ensures error.None? ==> forall k :: |old(accesses)| <= k < |accesses| ==> accesses[k].actor == user
    {
      hide PickSets, IsRecent, IsPool, Select;
      var recentSittings := RecentSittings(usage, cfg.cooldown, req.sitting);
      var ids := QueryPool(req.subject, CooledItems(usage, recentSittings));
      recent, pool := recentSittings, ids;
      if !SumsToHundred(req.diffs) || !SumsToHundred(req.topics) {
        return Some(PercentagesOff), recent, pool;
      }
      var count := if req.variants == 0 then 1 else req.variants;
      if count < 1 {
        return Some(BadVariantCount), recent, pool;
      }
      var picked := PickAll(req, Views(items, ids), count);
      if picked.Err? {
        return Some(picked.error), recent, pool;
      }
      var selections := picked.value.selections;
      papers := papers + [RulePaper(State(), req, selections)];
      LogUse(PickedIds(selections, |selections|), req.sitting, user, now);
      return None, recent, pool;
    }
  }

  /** A refused selection refuses the whole call. */
  lemma {:induction false} FailureIsFinal(cfg: Settings, pool: seq<Candidate>, req: RuleRequest, k: nat, n: nat)
    requires k <= n && PickSets(cfg, pool, req, k).Err?
    ensures PickSets(cfg, pool, req, n) == PickSets(cfg, pool, req, k)
  {
    hide Select, SelectionRefusal, Ids;
    if k < n {
      FailureIsFinal(cfg, pool, req, k, n - 1);
    }
  }
}
