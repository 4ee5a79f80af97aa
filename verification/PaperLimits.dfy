/** What a bulk retag can undo: papers keep marks and time in every later state, but the topics and
    the subject of their locked items can still move. Over every run, exactly when a finished paper
    still covers its blueprint, and a run in which it does not. */
module PaperLimits {
  import opened Wrappers
  import opened Decimals
  import opened Selector
  import opened SelectorLaws
  import opened PaperRules
  import opened PaperConstruction
  import opened PaperLaws
  import W = ItemWorkflow
  import IL = ItemLaws

  // ----- one bulk retag -----

  /** The marks for a topic among the first `n` paper items that a retag of `ids` leaves alone. */
  function KeptMarks(items: map<nat, W.Item>, paper: seq<nat>, n: nat, ids: set<nat>, topic: string): int
    requires n <= |paper|
  {
    if n == 0 then 0
    else
      var c := ViewOf(items, paper[n - 1]);
      KeptMarks(items, paper, n - 1, ids, topic)
      + if paper[n - 1] !in ids && c.topic == Some(topic) then Worth(c) else 0
  }

  /** The marks of the first `n` paper items that it touches. */
  function TouchedMarks(items: map<nat, W.Item>, paper: seq<nat>, n: nat, ids: set<nat>): int
    requires n <= |paper|
  {
    if n == 0 then 0
    else
      TouchedMarks(items, paper, n - 1, ids)
      + if paper[n - 1] in ids then Worth(ViewOf(items, paper[n - 1])) else 0
  }

  /** What a retag of the topic leaves for a topic. */
  function RetaggedMarks(items: map<nat, W.Item>, paper: seq<nat>, ids: set<nat>, newTopic: Option<string>,
                         topic: string): int {
    if topic == "" then 0
    else KeptMarks(items, paper, |paper|, ids, topic)
         + if newTopic == Some(topic) then TouchedMarks(items, paper, |paper|, ids) else 0
  }

  lemma {:induction false} RetagMovesMarks(items: map<nat, W.Item>, paper: seq<nat>, n: nat, ids: set<nat>,
                                           tags: W.Tags, topic: string)
    requires n <= |paper| && W.Topic in tags && forall i :: 0 <= i < |paper| ==> paper[i] in items
    ensures MarksFor(Views(Retagged(items, ids, tags), paper)[..n], Slot(ByTopic, topic))
         == KeptMarks(items, paper, n, ids, topic)
            + if tags[W.Topic] == Some(topic) then TouchedMarks(items, paper, n, ids) else 0
  {
    var vs := Views(Retagged(items, ids, tags), paper);
    if n > 0 {
      RetagMovesMarks(items, paper, n - 1, ids, tags, topic);
      assert vs[..n] == vs[..n - 1] + [vs[n - 1]];
      MarksForAppend(vs[..n - 1], [vs[n - 1]], Slot(ByTopic, topic));
      RetagOne(items, ids, tags, paper[n - 1]);
      hide Retagged, ViewOf, Views;
    }
  }

  lemma RetagOne(items: map<nat, W.Item>, ids: set<nat>, tags: W.Tags, id: nat)
    requires id in items && W.Topic in tags
    ensures var a, b := ViewOf(items, id), ViewOf(Retagged(items, ids, tags), id);
            Worth(b) == Worth(a) && b.topic == if id in ids then tags[W.Topic] else a.topic
  {
  }

  /** COVERAGE AFTER A RETAG, EXACTLY. Papers keep marks and time whatever is retagged, but not their
      topic coverage: a paper still covers its blueprint after a bulk retag of the topic if and only
      if, for each topic asked, the items left alone carry enough for it, counting the touched ones
      for the new topic. */
  lemma RetagKeepsCoverageIff(cfg: Settings, items: map<nat, W.Item>, p: Paper, ids: set<nat>, tags: W.Tags)
    requires W.Topic in tags && AllAvailable(items, p.itemIds)
    ensures BlueprintOk(cfg, Views(Retagged(items, ids, tags), p.itemIds), p.blueprintRef, p.totalMarks)
       <==> (p.blueprintRef != "" && p.blueprintRef in cfg.catalogue ==>
               forall share :: share in cfg.catalogue[p.blueprintRef].topics ==>
                 RetaggedMarks(items, p.itemIds, ids, tags[W.Topic], share.key) + cfg.tolerance
                 >= Target(p.totalMarks, share.pct))
  {
    var vs := Views(Retagged(items, ids, tags), p.itemIds);
    assert vs[..|vs|] == vs;
    forall i | 0 <= i < |p.itemIds| ensures p.itemIds[i] in items {
      assert Available(items, p.itemIds[i]);
    }
    hide Views, Retagged, MarksFor, Target, KeptMarks, TouchedMarks;
    forall topic: string
      ensures TopicMarks(vs, topic) == RetaggedMarks(items, p.itemIds, ids, tags[W.Topic], topic)
    {
      RetagMovesMarks(items, p.itemIds, |p.itemIds|, ids, tags, topic);
    }
    hide TopicMarks, RetaggedMarks;
  }

  lemma {:induction false} NothingKept(items: map<nat, W.Item>, paper: seq<nat>, n: nat, ids: set<nat>, topic: string)
    requires n <= |paper| && forall i :: 0 <= i < |paper| ==> paper[i] in ids
    ensures KeptMarks(items, paper, n, ids, topic) == 0
  {
    if n > 0 {
      NothingKept(items, paper, n - 1, ids, topic);
    }
  }

  /** In any bank, retagging all items of a paper away from a topic whose target exceeds the tolerance
      leaves the paper short of its blueprint. */
  lemma RetagCanBreakCoverage(cfg: Settings, items: map<nat, W.Item>, p: Paper, tags: W.Tags, share: Share)
    requires AllAvailable(items, p.itemIds) && W.Topic in tags && tags[W.Topic] != Some(share.key)
    requires p.blueprintRef != "" && p.blueprintRef in cfg.catalogue
    requires share in cfg.catalogue[p.blueprintRef].topics && Target(p.totalMarks, share.pct) > cfg.tolerance
    ensures !BlueprintOk(cfg, Views(Retagged(items, IdSet(p.itemIds), tags), p.itemIds), p.blueprintRef, p.totalMarks)
  {
    RetagKeepsCoverageIff(cfg, items, p, IdSet(p.itemIds), tags);
    forall i | 0 <= i < |p.itemIds| ensures p.itemIds[i] in IdSet(p.itemIds) {
    }
    hide Views, Retagged, BlueprintOk, IdSet, Target;
    NothingKept(items, p.itemIds, |p.itemIds|, IdSet(p.itemIds), share.key);
    assert RetaggedMarks(items, p.itemIds, IdSet(p.itemIds), tags[W.Topic], share.key) == 0;
  }

  // ----- tags over runs -----

  function TagsOf(op: BankOp): W.Tags {
    if op.BulkRetag? then op.tags else if op.OnItem? && op.op.Retag? then op.op.tags else map[]
  }

  /** The call is an accepted retag that gives this item this tag. */
  predicate Retags(op: BankOp, id: nat, tag: W.Tag) {
    && tag in TagsOf(op)
    && ((op.OnItem? && op.id == id) || (op.BulkRetag? && op.permitted && op.knownFields && id in op.ids))
  }

  /** The tag that calls `m` to `n` leave on an item that carried `was`: the one given last. */
  function TagAfter(was: Option<string>, ops: seq<BankOp>, m: nat, n: nat, id: nat, tag: W.Tag): Option<string>
    requires m <= n <= |ops|
    decreases n
  {
    if n == m then was
    else if Retags(ops[n - 1], id, tag) then TagsOf(ops[n - 1])[tag]
    else TagAfter(was, ops, m, n - 1, id, tag)
  }

  function TagIn(items: map<nat, W.Item>, id: nat, tag: W.Tag): Option<string> {
    if id in items then W.TagOf(items[id].metadata.tags, tag) else None
  }

  lemma OneItemCallTags(it: W.Item, op: W.Op, tag: W.Tag)
    requires it.status == W.LockedForUse
    ensures var t := W.Next(it, op);
            && t.status == W.LockedForUse && t.metadata.marks == it.metadata.marks
            && W.TagOf(t.metadata.tags, tag)
               == if op.Retag? && tag in op.tags then op.tags[tag] else W.TagOf(it.metadata.tags, tag)
  {
    IL.LockedStep(it, op);
    if op.Retag? {
      assert W.Next(it, op).metadata.tags == it.metadata.tags + op.tags;
    }
    hide W.Next, W.Step;
  }

  /** One call moves a tag of a locked item exactly when it is an accepted retag of it. */
  lemma OneCallTags(cfg: Settings, b: Bank, op: BankOp, id: nat, tag: W.Tag)
    requires Available(b.items, id)
    ensures var items := BankNext(cfg, b, op).items;
            && Available(items, id) && Worth(ViewOf(items, id)) == Worth(ViewOf(b.items, id))
            && TagIn(items, id, tag) == if Retags(op, id, tag) then TagsOf(op)[tag] else TagIn(b.items, id, tag)
  {
    hide W.Next, W.Create, Manual, RuleBased;
    match op
    case OnItem(x, o) =>
      if x == id {
        OneItemCallTags(b.items[id], o, tag);
      }
    case BulkRetag(ids, tags, permitted, knownFields) =>
      if id in ids {
        assert id in ids * b.items.Keys;
        OneItemCallTags(b.items[id], W.Retag(tags), tag);
      }
    case NewItem(_, _, _, _, _) =>
    case MakeManual(req, user, recent, now) =>
      ConstructionKeepsItems(cfg, b, op);
    case MakeRuleBased(req, user, recent, pool, now) =>
      ConstructionKeepsItems(cfg, b, op);
  }

  lemma ConstructionKeepsItems(cfg: Settings, b: Bank, op: BankOp)
    requires op.MakeManual? || op.MakeRuleBased?
    ensures BankNext(cfg, b, op).items == b.items
  {
    hide ManualRefusal, PickSets;
  }

  /** Over any run a locked item stays locked, keeps its marks, and carries the tag given last. */
  lemma {:induction false} RunTags(cfg: Settings, ops: seq<BankOp>, m: nat, n: nat, id: nat, tag: W.Tag)
    requires m <= n <= |ops| && Available(BankAfter(cfg, ops, m).items, id)
    ensures var was, items := BankAfter(cfg, ops, m).items, BankAfter(cfg, ops, n).items;
            && Available(items, id) && Worth(ViewOf(items, id)) == Worth(ViewOf(was, id))
            && TagIn(items, id, tag) == TagAfter(TagIn(was, id, tag), ops, m, n, id, tag)
    decreases n
  {
    hide BankNext, Available, Retags, TagsOf;
    if m < n {
      RunTags(cfg, ops, m, n - 1, id, tag);
      OneCallTags(cfg, BankAfter(cfg, ops, n - 1), ops[n - 1], id, tag);
    }
  }

  // ----- coverage over runs -----

  /** The item set as it was, with the topics that calls `m` to `n` leave. */
  function Relabelled(items: map<nat, W.Item>, ids: seq<nat>, ops: seq<BankOp>, m: nat, n: nat): (vs: seq<Candidate>)
    requires m <= n <= |ops|
    ensures |vs| == |ids|
    ensures forall i :: 0 <= i < |ids| ==>
              vs[i] == ViewOf(items, ids[i]).(
                         topic := TagAfter(TagIn(items, ids[i], W.Topic), ops, m, n, ids[i], W.Topic))
  {
    seq(|ids|, i requires 0 <= i < |ids| =>
      ViewOf(items, ids[i]).(topic := TagAfter(TagIn(items, ids[i], W.Topic), ops, m, n, ids[i], W.Topic)))
  }

  predicate SameTopics(a: seq<Candidate>, b: seq<Candidate>) {
    |a| == |b| && forall i :: 0 <= i < |a| ==> a[i].topic == b[i].topic && Worth(a[i]) == Worth(b[i])
  }

  lemma {:induction false} SameTopicsSameMarks(a: seq<Candidate>, b: seq<Candidate>, topic: string)
    requires SameTopics(a, b)
    ensures MarksFor(a, Slot(ByTopic, topic)) == MarksFor(b, Slot(ByTopic, topic))
  {
    if a != [] {
      assert SameTopics(a[1..], b[1..]);
      SameTopicsSameMarks(a[1..], b[1..], topic);
    }
  }

  lemma SameTopicsSameCoverage(cfg: Settings, a: seq<Candidate>, b: seq<Candidate>, ref: string, total: int)
    requires SameTopics(a, b)
    ensures BlueprintOk(cfg, a, ref, total) <==> BlueprintOk(cfg, b, ref, total)
  {
    hide MarksFor, Target, SameTopics;
    forall topic: string ensures TopicMarks(a, topic) == TopicMarks(b, topic) {
      SameTopicsSameMarks(a, b, topic);
    }
    hide TopicMarks;
  }

  /** COVERAGE OVER RUNS, EXACTLY. After any run a set of locked items covers a blueprint if and only
      if it did at the start with each item under the topic given to it last. */
  lemma CoverageOverRunIff(cfg: Settings, ops: seq<BankOp>, m: nat, n: nat, ids: seq<nat>, ref: string, total: int)
    requires m <= n <= |ops| && AllAvailable(BankAfter(cfg, ops, m).items, ids)
    ensures BlueprintOk(cfg, Views(BankAfter(cfg, ops, n).items, ids), ref, total)
       <==> BlueprintOk(cfg, Relabelled(BankAfter(cfg, ops, m).items, ids, ops, m, n), ref, total)
  {
    hide BankAfter, TagAfter, BlueprintOk;
    var was, items := BankAfter(cfg, ops, m).items, BankAfter(cfg, ops, n).items;
    forall i | 0 <= i < |ids|
      ensures ViewOf(items, ids[i]).topic == TagAfter(TagIn(was, ids[i], W.Topic), ops, m, n, ids[i], W.Topic)
      ensures Worth(ViewOf(items, ids[i])) == Worth(ViewOf(was, ids[i]))
    {
      assert Available(was, ids[i]);
      RunTags(cfg, ops, m, n, ids[i], W.Topic);
    }
    SameTopicsSameCoverage(cfg, Views(items, ids), Relabelled(was, ids, ops, m, n), ref, total);
  }

  /** No call from `m` to `n` is an accepted retag that gives one of the items this tag. */
  predicate Untouched(ops: seq<BankOp>, m: nat, n: nat, ids: seq<nat>, tag: W.Tag)
    requires m <= n <= |ops|
  {
    forall i, k :: m <= i < n && 0 <= k < |ids| ==> !Retags(ops[i], ids[k], tag)
  }

  lemma {:induction false} UntouchedTag(was: Option<string>, ops: seq<BankOp>, m: nat, n: nat, id: nat, tag: W.Tag)
    requires m <= n <= |ops| && forall i :: m <= i < n ==> !Retags(ops[i], id, tag)
    ensures TagAfter(was, ops, m, n, id, tag) == was
    decreases n
  {
    if m < n {
      UntouchedTag(was, ops, m, n - 1, id, tag);
    }
  }

  /** Without such a retag, coverage does not move either way. */
  lemma UntouchedKeepsCoverage(cfg: Settings, ops: seq<BankOp>, m: nat, n: nat, ids: seq<nat>, ref: string, total: int)
    requires m <= n <= |ops| && AllAvailable(BankAfter(cfg, ops, m).items, ids)
    requires Untouched(ops, m, n, ids, W.Topic)
    ensures BlueprintOk(cfg, Views(BankAfter(cfg, ops, n).items, ids), ref, total)
       <==> BlueprintOk(cfg, Views(BankAfter(cfg, ops, m).items, ids), ref, total)
  {
    CoverageOverRunIff(cfg, ops, m, n, ids, ref, total);
    hide BankAfter, TagAfter, BlueprintOk, Retags;
    var was := BankAfter(cfg, ops, m).items;
    forall i | 0 <= i < |ids|
      ensures TagAfter(TagIn(was, ids[i], W.Topic), ops, m, n, ids[i], W.Topic) == ViewOf(was, ids[i]).topic
    {
      assert Available(was, ids[i]);
      UntouchedTag(TagIn(was, ids[i], W.Topic), ops, m, n, ids[i], W.Topic);
    }
    SameTopicsSameCoverage(cfg, Views(was, ids), Relabelled(was, ids, ops, m, n), ref, total);
  }

  // ----- from the moment a paper is built -----

  /** The paper and all its variants cover the blueprint. */
  predicate Covered(cfg: Settings, items: map<nat, W.Item>, p: Paper) {
    && BlueprintOk(cfg, Views(items, p.itemIds), p.blueprintRef, p.totalMarks)
    && forall k :: 0 <= k < |p.variants| ==>
         BlueprintOk(cfg, Views(items, p.variants[k].itemIds), p.blueprintRef, p.totalMarks)
  }

  /** The same, with each item under the topic that calls `m` to `n` leave on it. */
  predicate CoveredRelabelled(cfg: Settings, items: map<nat, W.Item>, p: Paper, ops: seq<BankOp>, m: nat, n: nat)
    requires m <= n <= |ops|
  {
    && BlueprintOk(cfg, Relabelled(items, p.itemIds, ops, m, n), p.blueprintRef, p.totalMarks)
    && forall k :: 0 <= k < |p.variants| ==>
         BlueprintOk(cfg, Relabelled(items, p.variants[k].itemIds, ops, m, n), p.blueprintRef, p.totalMarks)
  }

  lemma ManualIsCovered(cfg: Settings, b: Bank, req: ManualRequest, recent: seq<string>)
    requires ManualRefusal(cfg, b, req, recent).None?
    ensures Covered(cfg, b.items, ManualPaper(b, req))
  {
    hide BlueprintOk, TotalMarks, TotalTime, Fault;
  }

  lemma GeneratedIsCovered(cfg: Settings, b: Bank, req: RuleRequest, pool: seq<nat>, cooled: set<nat>, p: Picked)
    requires IsPool(b.items, req.subject, cooled, pool) && p.selections != []
    requires PickedSound(cfg, Views(b.items, pool), req, p)
    ensures Covered(cfg, b.items, RulePaper(b, req, p.selections))
  {
    hide BlueprintOk, IsPool, IdSet, Ids;
    forall k | 0 <= k < |p.selections|
      ensures BlueprintOk(cfg, Views(b.items, IdSeq(p.selections[k].items)), req.blueprintRef, req.total)
    {
      assert SelectionSound(cfg, Views(b.items, pool), req, p.selections[k]);
      SelectionFromBank(b.items, req.subject, cooled, pool, p.selections[k].items);
    }
    hide SelectionSound, Views;
  }

  /** A call adds at most one paper, at the end, and it covers its blueprint then. */
  lemma NewPaperIsCovered(cfg: Settings, b: Bank, op: BankOp)
    requires BankInv(cfg, b) && Answered(cfg, b, op)
    ensures var t := BankNext(cfg, b, op);
            t.papers == b.papers
            || (|t.papers| == |b.papers| + 1 && b.papers <= t.papers && t.items == b.items
                && Covered(cfg, t.items, t.papers[|b.papers|]))
  {
    assert ItemsOk(b.items);
    hide BankInv, ItemsOk, Covered, PickSets, IsRecent, IsPool, CooledItems, PickedSound, Views, W.Next, W.Create;
    match op
    case MakeManual(req, user, recent, now) =>
      if ManualRefusal(cfg, b, req, recent).None? {
        ManualIsCovered(cfg, b, req, recent);
      }
    case MakeRuleBased(req, user, recent, pool, now) =>
      if RuleBased(cfg, b, req, user, pool, now).Ok? {
        var cooled := CooledItems(b.usage, recent);
        PoolIsValid(b.items, req.subject, cooled, pool, req.diffs, req.topics);
        GenerationIsSound(cfg, Views(b.items, pool), req, VariantCount(req));
        var p := PickSets(cfg, Views(b.items, pool), req, VariantCount(req)).value;
        GeneratedIsCovered(cfg, b, req, pool, cooled, p);
      }
    case _ =>
  }

  /** Call `m` built paper `i`. */
  ghost predicate BuiltAt(cfg: Settings, ops: seq<BankOp>, m: nat, i: nat) {
    && m < |ops| && |BankAfter(cfg, ops, m).papers| == i < |BankAfter(cfg, ops, m + 1).papers|
    && Covered(cfg, BankAfter(cfg, ops, m + 1).items, BankAfter(cfg, ops, m + 1).papers[i])
  }

  lemma {:induction false} EveryPaperWasBuilt(cfg: Settings, ops: seq<BankOp>, n: nat, i: nat) returns (m: nat)
    requires AllAnswered(cfg, ops) && n <= |ops| && i < |BankAfter(cfg, ops, n).papers|
    ensures m < n && BuiltAt(cfg, ops, m, i)
    ensures BankAfter(cfg, ops, m + 1).papers[i] == BankAfter(cfg, ops, n).papers[i]
  {
    hide BankNext, BankInv, Answered, Covered;
    assert n > 0;
    PapersStayTrue(cfg, ops, n - 1);
    NewPaperIsCovered(cfg, BankAfter(cfg, ops, n - 1), ops[n - 1]);
    if i < |BankAfter(cfg, ops, n - 1).papers| {
      m := EveryPaperWasBuilt(cfg, ops, n - 1, i);
    } else {
      m := n - 1;
    }
  }

  lemma CoveredOverRunIff(cfg: Settings, ops: seq<BankOp>, m: nat, n: nat, p: Paper)
    requires m <= n <= |ops| && PaperTrue(cfg, BankAfter(cfg, ops, m).items, p)
    ensures Covered(cfg, BankAfter(cfg, ops, n).items, p)
       <==> CoveredRelabelled(cfg, BankAfter(cfg, ops, m).items, p, ops, m, n)
  {
    hide BankAfter, BlueprintOk, TotalMarks, TotalTime, SectionsTrue;
    CoverageOverRunIff(cfg, ops, m, n, p.itemIds, p.blueprintRef, p.totalMarks);
    forall k | 0 <= k < |p.variants|
      ensures BlueprintOk(cfg, Views(BankAfter(cfg, ops, n).items, p.variants[k].itemIds), p.blueprintRef, p.totalMarks)
         <==> BlueprintOk(cfg, Relabelled(BankAfter(cfg, ops, m).items, p.variants[k].itemIds, ops, m, n),
                          p.blueprintRef, p.totalMarks)
    {
      CoverageOverRunIff(cfg, ops, m, n, p.variants[k].itemIds, p.blueprintRef, p.totalMarks);
    }
    hide Views, Relabelled;
  }

  /** A FINISHED PAPER. Every paper of a reachable state was covered, variants included, by the call
      that built it. It is covered now if and only if its items of that moment cover the blueprint
      under the topics given to them last since then. */
  lemma PaperCoverageIff(cfg: Settings, ops: seq<BankOp>, n: nat, i: nat) returns (m: nat)
    requires AllAnswered(cfg, ops) && n <= |ops| && i < |BankAfter(cfg, ops, n).papers|
    ensures m < n && BuiltAt(cfg, ops, m, i)
    ensures BankAfter(cfg, ops, m + 1).papers[i] == BankAfter(cfg, ops, n).papers[i]
    ensures var p := BankAfter(cfg, ops, n).papers[i];
            Covered(cfg, BankAfter(cfg, ops, n).items, p)
            <==> CoveredRelabelled(cfg, BankAfter(cfg, ops, m + 1).items, p, ops, m + 1, n)
  {
    hide BankAfter, Covered, CoveredRelabelled, AllAnswered, PaperTrue, ItemsOk, PaperSpaced;
    m := EveryPaperWasBuilt(cfg, ops, n, i);
    PapersStayTrue(cfg, ops, m + 1);
    CoveredOverRunIff(cfg, ops, m + 1, n, BankAfter(cfg, ops, n).papers[i]);
  }

  lemma {:induction false} PapersOnlyGrow(cfg: Settings, ops: seq<BankOp>, m: nat, n: nat)
    requires AllAnswered(cfg, ops) && m <= n <= |ops|
    ensures BankAfter(cfg, ops, m).papers <= BankAfter(cfg, ops, n).papers
    decreases n
  {
    hide BankNext, BankInv, Answered, Covered;
    if m < n {
      PapersOnlyGrow(cfg, ops, m, n - 1);
      PapersStayTrue(cfg, ops, n - 1);
      NewPaperIsCovered(cfg, BankAfter(cfg, ops, n - 1), ops[n - 1]);
    }
  }

  predicate PaperUntouched(ops: seq<BankOp>, m: nat, n: nat, p: Paper)
    requires m <= n <= |ops|
  {
    && Untouched(ops, m, n, p.itemIds, W.Topic)
    && forall k :: 0 <= k < |p.variants| ==> Untouched(ops, m, n, p.variants[k].itemIds, W.Topic)
  }

  /** A paper covered in some reachable state stays covered over every answered run without an accepted
      topic retag of one of its items, and one that is not stays uncovered. */
  lemma UntouchedPaperStaysCovered(cfg: Settings, ops: seq<BankOp>, m: nat, n: nat, i: nat)
    requires AllAnswered(cfg, ops) && m <= n <= |ops| && i < |BankAfter(cfg, ops, m).papers|
    requires PaperUntouched(ops, m, n, BankAfter(cfg, ops, m).papers[i])
    ensures var p := BankAfter(cfg, ops, m).papers[i];
            && i < |BankAfter(cfg, ops, n).papers| && BankAfter(cfg, ops, n).papers[i] == p
            && (Covered(cfg, BankAfter(cfg, ops, m).items, p) <==> Covered(cfg, BankAfter(cfg, ops, n).items, p))
  {
    PapersOnlyGrow(cfg, ops, m, n);
    hide BankAfter, BlueprintOk, AllAnswered, Untouched, TotalMarks, TotalTime, SectionsTrue, ItemsOk, PaperSpaced;
    var p := BankAfter(cfg, ops, m).papers[i];
    PapersStayTrue(cfg, ops, m);
    assert PaperTrue(cfg, BankAfter(cfg, ops, m).items, p);
    UntouchedKeepsCoverage(cfg, ops, m, n, p.itemIds, p.blueprintRef, p.totalMarks);
    forall k | 0 <= k < |p.variants|
      ensures BlueprintOk(cfg, Views(BankAfter(cfg, ops, n).items, p.variants[k].itemIds), p.blueprintRef, p.totalMarks)
         <==> BlueprintOk(cfg, Views(BankAfter(cfg, ops, m).items, p.variants[k].itemIds), p.blueprintRef, p.totalMarks)
    {
      UntouchedKeepsCoverage(cfg, ops, m, n, p.variants[k].itemIds, p.blueprintRef, p.totalMarks);
    }
  }

  /** The subject likewise: after any run all items of a set carry it if and only if it is the subject
      given last to each of them. */
  lemma SubjectOverRunIff(cfg: Settings, ops: seq<BankOp>, m: nat, n: nat, ids: seq<nat>, subject: string)
    requires m <= n <= |ops| && AllAvailable(BankAfter(cfg, ops, m).items, ids)
    requires AllOfSubject(Views(BankAfter(cfg, ops, m).items, ids), subject)
    ensures AllOfSubject(Views(BankAfter(cfg, ops, n).items, ids), subject)
       <==> forall k :: 0 <= k < |ids| ==>
              TagAfter(Some(subject), ops, m, n, ids[k], W.Subject) == Some(subject)
  {
    hide BankAfter, TagAfter;
    var was, items := BankAfter(cfg, ops, m).items, BankAfter(cfg, ops, n).items;
    forall k | 0 <= k < |ids|
      ensures ViewOf(items, ids[k]).subject == TagAfter(Some(subject), ops, m, n, ids[k], W.Subject)
    {
      assert Available(was, ids[k]) && Views(was, ids)[k].subject == Some(subject);
      RunTags(cfg, ops, m, n, ids[k], W.Subject);
    }
    assert forall k :: 0 <= k < |ids| ==> Views(items, ids)[k] == ViewOf(items, ids[k]);
  }

  // ----- a run that breaks coverage -----

  function Draft(): W.DraftData {
    W.DraftData(map[W.Subject := Some("MATH"), W.Topic := Some("algebra"), W.Difficulty := Some("Easy"),
                    W.CognitiveLevel := Some("Recall"), W.Source := Some("new"), W.BlueprintRef := Some("BP")],
                Some(Some(100)), Some(Some(5)), Some("What is x?"), None)
  }

  function Words(): (ws: seq<string>)
    ensures |ws| == 30
  {
    seq(30, i => "sound")
  }

  /** The seven calls that bring the item from its first draft to the second approval. */
  function ItemCalls(): (ops: seq<W.Op>)
    ensures |ops| == 7
  {
    [W.Submit(1), W.Move(2, W.InReview, true, Some(3), true, false), W.Move(3, W.Reviewed, false, None, false, false),
     W.Move(1, W.Revised, false, None, false, false), W.Submit(1), W.CastVote(4, true, Words()),
     W.CastVote(5, true, Words())]
  }

  function BlueprintSettings(): Settings {
    Settings(3, 0, map["BP" := Blueprint([Share("algebra", 100.0)], 0)])
  }

  function PaperRequest(): ManualRequest {
    ManualRequest([1], "2026-MAY", "MATH", "cbt", 100, 60, "BP", [])
  }

  function GeometryRetag(): BankOp {
    BulkRetag({1}, map[W.Topic := Some("geometry")], true, true)
  }

  /** One item drafted and locked, one manual paper of it, one bulk retag. */
  function RetagRun(): (ops: seq<BankOp>)
    ensures |ops| == 10
  {
    [NewItem(1, 1, Draft(), 1, None),
     OnItem(1, ItemCalls()[0]), OnItem(1, ItemCalls()[1]), OnItem(1, ItemCalls()[2]), OnItem(1, ItemCalls()[3]),
     OnItem(1, ItemCalls()[4]), OnItem(1, ItemCalls()[5]), OnItem(1, ItemCalls()[6]),
     MakeManual(PaperRequest(), 9, [], 100), GeometryRetag()]
  }

  function FirstDraft(): W.Item {
    W.Item(1, W.Draft, W.Overlay(W.Metadata(map[], None, None), Draft()), Some(1), None,
           [W.Version(1, 1, "What is x?", [], W.Overlay(W.Metadata(map[], None, None), Draft()), None, 1)], [], [])
  }

  lemma StartsDrafted()
    ensures W.Create(1, Draft(), 1, None) == Ok(FirstDraft())
  {
  }

  lemma NotBlank(s: string)
    requires s != "" && !IsSpace(s[0])
    ensures !W.Blank(s)
  {
  }

  lemma DraftIsComplete()
    ensures W.HasMandatoryMetadata(FirstDraft().metadata)
  {
    var m := FirstDraft().metadata;
    forall t | t in W.ALL_TAGS ensures W.TagFilled(m, t) {
      assert W.TagOf(m.tags, t) == Draft().tags[t];
      NotBlank(Draft().tags[t].value);
    }
    hide W.TagFilled;
  }

  lemma OneItemCall(it: W.Item, ops: seq<W.Op>, k: nat)
    requires k < |ops|
    ensures IL.After(it, ops, k + 1) == W.Next(IL.After(it, ops, k), ops[k])
  {
  }

  /** Review: submitted, assigned, reviewed, revised and submitted to the panel. */
  lemma ItemReachesPanel()
    ensures var t := IL.After(FirstDraft(), ItemCalls(), 5);
            && t.status == W.ModerationPanel && t.metadata == FirstDraft().metadata && t.votes == []
  {
    DraftIsComplete();
    hide W.HasMandatoryMetadata, IL.After;
    var it, ops := FirstDraft(), ItemCalls();
    assert IL.After(it, ops, 0) == it by { StartOfCalls(it, ops); }
    OneItemCall(it, ops, 0);
    OneItemCall(it, ops, 1);
    OneItemCall(it, ops, 2);
    OneItemCall(it, ops, 3);
    OneItemCall(it, ops, 4);
  }

  lemma StartOfCalls(it: W.Item, ops: seq<W.Op>)
    ensures IL.After(it, ops, 0) == it
  {
  }

  lemma FirstVote(it: W.Item, p: nat, words: seq<string>)
    requires it.status == W.ModerationPanel && it.votes == [] && |words| >= 30
    ensures W.Next(it, W.CastVote(p, true, words)) == it.(votes := [W.Vote(p, true, words)])
  {
    assert it.votes + [W.Vote(p, true, words)] == [W.Vote(p, true, words)];
    assert W.CountVotes([W.Vote(p, true, words)], 0, true) == 0;
    assert W.CountVotes([W.Vote(p, true, words)], 0, false) == 0;
  }

  lemma SecondVote(it: W.Item, v: W.Vote, p: nat, words: seq<string>)
    requires it.status == W.ModerationPanel && it.votes == [v] && v.approves && v.panellist != p && |words| >= 30
    ensures var t := W.Next(it, W.CastVote(p, true, words));
            t.status == W.LockedForUse && t.metadata == it.metadata
  {
    var votes := [v] + [W.Vote(p, true, words)];
    assert W.CountVotes(votes, 0, true) == 0 && W.CountVotes(votes, 1, true) == 1 && W.CountVotes(votes, 2, true) == 2;
  }

  lemma ItemIsLocked()
    ensures var t := IL.After(FirstDraft(), ItemCalls(), 7);
            t.status == W.LockedForUse && t.metadata == FirstDraft().metadata
  {
    var it, ops := FirstDraft(), ItemCalls();
    ItemReachesPanel();
    assert ops[5] == W.CastVote(4, true, Words()) && ops[6] == W.CastVote(5, true, Words());
    hide IL.After, ItemCalls, FirstDraft, W.Next;
    OneItemCall(it, ops, 5);
    OneItemCall(it, ops, 6);
    FirstVote(IL.After(it, ops, 5), 4, Words());
    SecondVote(IL.After(it, ops, 6), W.Vote(4, true, Words()), 5, Words());
  }

  lemma OneBankCall(cfg: Settings, ops: seq<BankOp>, k: nat)
    requires k < |ops|
    ensures BankAfter(cfg, ops, k + 1) == BankNext(cfg, BankAfter(cfg, ops, k), ops[k])
  {
  }

  lemma RunCalls(k: nat)
    requires k < 7
    ensures RetagRun()[k + 1] == OnItem(1, ItemCalls()[k]) && RetagRun()[0] == NewItem(1, 1, Draft(), 1, None)
    ensures RetagRun()[8] == MakeManual(PaperRequest(), 9, [], 100) && RetagRun()[9] == GeometryRetag()
  {
  }

  lemma EmptyBank()
    ensures BankAfter(BlueprintSettings(), RetagRun(), 0) == Bank(map[], [], [], [])
  {
  }

  function OneItemBank(it: W.Item): Bank {
    Bank(map[1 := it], [], [], [])
  }

  lemma {:induction false} BankFollowsItem(k: nat)
    requires k <= 7
    ensures BankAfter(BlueprintSettings(), RetagRun(), k + 1) == OneItemBank(IL.After(FirstDraft(), ItemCalls(), k))
  {
    hide IL.After, ItemCalls, FirstDraft, W.Next, RetagRun, BankAfter, W.Create, Draft, BlueprintSettings;
    var cfg, ops := BlueprintSettings(), RetagRun();
    if k == 0 {
      EmptyBank();
      RunCalls(0);
      OneBankCall(cfg, ops, 0);
      StartsDrafted();
      StartOfCalls(FirstDraft(), ItemCalls());
    } else {
      BankFollowsItem(k - 1);
      RunCalls(k - 1);
      OneBankCall(cfg, ops, k);
      OneItemCall(FirstDraft(), ItemCalls(), k - 1);
      OneItemStep(cfg, IL.After(FirstDraft(), ItemCalls(), k - 1), ItemCalls()[k - 1]);
    }
  }

  lemma OneItemStep(cfg: Settings, it: W.Item, op: W.Op)
    ensures BankNext(cfg, OneItemBank(it), OnItem(1, op)) == OneItemBank(W.Next(it, op))
  {
    hide W.Next;
  }

  predicate LockedDraft(it: W.Item) {
    it.status == W.LockedForUse && it.metadata == FirstDraft().metadata
  }

  lemma LockedView(it: W.Item)
    requires LockedDraft(it)
    ensures Views(map[1 := it], [1])
         == [Candidate(1, Some("MATH"), Some("Easy"), Some("algebra"), Some(100), Some(5))]
  {
  }

  lemma PaperIsAccepted(it: W.Item)
    requires LockedDraft(it)
    ensures ManualRefusal(BlueprintSettings(), OneItemBank(it), PaperRequest(), []).None?
  {
    var c := Candidate(1, Some("MATH"), Some("Easy"), Some("algebra"), Some(100), Some(5));
    LockedView(it);
    hide Views, LockedDraft, FirstDraft;
    assert TotalMarks([c][1..]) == 0 && TotalTime([c][1..]) == 0;
    assert TotalMarks([c]) == 100 && TotalTime([c]) == 5;
    AlgebraIsCovered(c);
    assert SectionsPartition([c], [], 0);
    SectionsAcceptedIff([c], [], 0);
    hide TotalMarks, TotalTime, BlueprintOk, Fault;
  }

  lemma AlgebraIsCovered(c: Candidate)
    requires c.topic == Some("algebra") && c.marks == Some(100)
    ensures BlueprintOk(BlueprintSettings(), [c], "BP", 100)
  {
    WholeShare(100);
    assert Target(100, 100.0) == 100;
    assert MarksFor([c][1..], Slot(ByTopic, "algebra")) == 0;
  }

  lemma NoneRecent()
    ensures IsRecent([], 3, "2026-MAY", [])
  {
    assert OtherSittings([], "2026-MAY") == {};
    assert RefSet([]) == {};
  }

  lemma OnePaperCall(cfg: Settings, b: Bank, req: ManualRequest, user: nat, recent: seq<string>, now: int)
    requires ManualRefusal(cfg, b, req, recent).None?
    ensures var t := BankNext(cfg, b, MakeManual(req, user, recent, now));
            t.items == b.items && t.papers == b.papers + [ManualPaper(b, req)]
  {
    hide ManualRefusal;
  }

  lemma OneRetagCall(cfg: Settings, b: Bank)
    requires 1 in b.items
    ensures var t := BankNext(cfg, b, GeometryRetag());
            t.items == Retagged(b.items, {1}, map[W.Topic := Some("geometry")]) && t.papers == b.papers
  {
    assert 1 in {1} * b.items.Keys;
    hide Retagged;
  }

  /** The bank before the paper, with the paper, and after the retag. */
  lemma RunStates()
    ensures var it := IL.After(FirstDraft(), ItemCalls(), 7);
            var cfg := BlueprintSettings();
            && LockedDraft(it)
            && BankAfter(cfg, RetagRun(), 8) == OneItemBank(it)
            && BankAfter(cfg, RetagRun(), 9).items == map[1 := it]
            && BankAfter(cfg, RetagRun(), 9).papers == [ManualPaper(OneItemBank(it), PaperRequest())]
            && BankAfter(cfg, RetagRun(), 10).items == Retagged(map[1 := it], {1}, map[W.Topic := Some("geometry")])
            && BankAfter(cfg, RetagRun(), 10).papers == [ManualPaper(OneItemBank(it), PaperRequest())]
  {
    var cfg, ops, it := BlueprintSettings(), RetagRun(), IL.After(FirstDraft(), ItemCalls(), 7);
    ItemIsLocked();
    assert LockedDraft(it);
    BankFollowsItem(7);
    RunCalls(0);
    PaperIsAccepted(it);
    hide IL.After, ItemCalls, FirstDraft, RetagRun, BankAfter, BankNext, BlueprintSettings, ManualRefusal, Retagged,
         LockedDraft, PaperRequest, ManualPaper, GeometryRetag;
    OneBankCall(cfg, ops, 8);
    OneBankCall(cfg, ops, 9);
    OnePaperCall(cfg, OneItemBank(it), PaperRequest(), 9, [], 100);
    OneRetagCall(cfg, BankAfter(cfg, ops, 9));
  }

  lemma RunIsTyped()
    ensures IL.TypedData(Draft()) && forall k :: 0 <= k < 7 ==> IL.TypedOp(ItemCalls()[k])
  {
  }

  lemma PaperIsAnswered(cfg: Settings, b: Bank)
    requires cfg == BlueprintSettings() && b.usage == []
    ensures Answered(cfg, b, MakeManual(PaperRequest(), 9, [], 100))
  {
    NoneRecent();
    hide IsRecent;
  }

  lemma RunIsAnswered()
    ensures AllAnswered(BlueprintSettings(), RetagRun())
  {
    var cfg, ops := BlueprintSettings(), RetagRun();
    RunStates();
    RunIsTyped();
    hide BankAfter, IsRecent, LockedDraft, IL.After, Retagged, RetagRun, BlueprintSettings, ItemCalls, PaperRequest,
         Draft, IL.TypedOp, IL.TypedData;
    forall i | 0 <= i < |ops| ensures Answered(cfg, BankAfter(cfg, ops, i), ops[i]) {
      RunCalls(if 1 <= i <= 7 then i - 1 else 0);
      if i == 8 {
        PaperIsAnswered(cfg, BankAfter(cfg, ops, 8));
      }
    }
  }

  /** The coverage gap is real: ten literal calls from the empty bank build a paper that covers its
      blueprint after the ninth and no longer does after the tenth. */
  lemma CoverageIsLost()
    ensures AllAnswered(BlueprintSettings(), RetagRun())
    ensures var before := BankAfter(BlueprintSettings(), RetagRun(), 9);
            var after := BankAfter(BlueprintSettings(), RetagRun(), 10);
            && |before.papers| == 1 && after.papers == before.papers
            && Covered(BlueprintSettings(), before.items, before.papers[0])
            && !Covered(BlueprintSettings(), after.items, after.papers[0])
  {
    var it := IL.After(FirstDraft(), ItemCalls(), 7);
    RunIsAnswered();
    RunStates();
    PaperIsAccepted(it);
    ManualIsCovered(BlueprintSettings(), OneItemBank(it), PaperRequest(), []);
    GeometryBreaks(it);
    hide BankAfter, RetagRun, AllAnswered, IL.After, Retagged, BlueprintOk;
  }

  lemma GeometryBreaks(it: W.Item)
    requires LockedDraft(it)
    ensures var p := ManualPaper(OneItemBank(it), PaperRequest());
            var items := Retagged(map[1 := it], {1}, map[W.Topic := Some("geometry")]);
            !BlueprintOk(BlueprintSettings(), Views(items, p.itemIds), p.blueprintRef, p.totalMarks)
  {
    var p := ManualPaper(OneItemBank(it), PaperRequest());
    WholeShare(100);
    assert Target(100, 100.0) == 100;
    assert IdSet(p.itemIds) == {1} by {
      assert p.itemIds[0] == 1;
    }
    assert BlueprintSettings().catalogue["BP"].topics[0] == Share("algebra", 100.0);
    RetagCanBreakCoverage(BlueprintSettings(), map[1 := it], p, map[W.Topic := Some("geometry")],
                          Share("algebra", 100.0));
  }
}
