/** The gates that every exam paper passes: time allocation, blueprint topic coverage, section
    structure and the cool-down window over usage history. */
module PaperRules {
  import opened Wrappers
  import opened Decimals
  import opened Selector
  import opened SelectorLaws

  /** A catalogue entry: topic percentages and the number of declared sections (0 for none). */
  datatype Blueprint = Blueprint(topics: Distribution, sections: nat)

  datatype Settings = Settings(cooldown: nat, tolerance: int, catalogue: map<string, Blueprint>)

  // ----- time -----

  function TimeOf(c: Candidate): int {
    if c.time.Some? then c.time.value else 0
  }

  function TotalTime(s: seq<Candidate>): int {
    if s == [] then 0 else TimeOf(s[0]) + TotalTime(s[1..])
  }

  // ----- blueprint coverage -----

  /** The marks the blueprint check counts for a topic; an empty topic is never counted. */
  function TopicMarks(items: seq<Candidate>, topic: string): int {
    if topic == "" then 0 else MarksFor(items, Slot(ByTopic, topic))
  }

  predicate TopicCovered(cfg: Settings, items: seq<Candidate>, share: Share, total: int) {
    TopicMarks(items, share.key) + cfg.tolerance >= Target(total, share.pct)
  }

  predicate BlueprintOk(cfg: Settings, items: seq<Candidate>, ref: string, total: int) {
    ref != "" && ref in cfg.catalogue ==>
      forall k :: 0 <= k < |cfg.catalogue[ref].topics| ==>
        TopicCovered(cfg, items, cfg.catalogue[ref].topics[k], total)
  }

  /** The dictionary of marks per topic that the check builds first. */
  method SumTopics(items: seq<Candidate>) returns (sums: map<string, int>)
    ensures forall t: string :: (if t in sums then sums[t] else 0) == TopicMarks(items, t)
  {
    sums := map[];
    assert items[..0] == [];
    for i := 0 to |items|
      invariant forall t: string :: (if t in sums then sums[t] else 0) == TopicMarks(items[..i], t)
    {
      var c := items[i];
      assert items[..i + 1] == items[..i] + [c];
      forall t: string
        ensures TopicMarks(items[..i + 1], t)
             == TopicMarks(items[..i], t) + if t != "" && c.topic == Some(t) then Worth(c) else 0
      {
        MarksForAppend(items[..i], [c], Slot(ByTopic, t));
      }
      if Filled(c.topic) && c.marks.Some? {
        var t := c.topic.value;
        sums := sums[t := (if t in sums then sums[t] else 0) + c.marks.value];
      }
    }
    assert items[..|items|] == items;
  }

  method ValidateBlueprint(cfg: Settings, items: seq<Candidate>, ref: string, total: int) returns (ok: bool)
    ensures ok == BlueprintOk(cfg, items, ref, total)
  {
    if ref == "" || ref !in cfg.catalogue {
      return true;
    }
    var sums := SumTopics(items);
    var required := cfg.catalogue[ref].topics;
    for k := 0 to |required|
      invariant forall j :: 0 <= j < k ==> TopicCovered(cfg, items, required[j], total)
    {
      var actual := if required[k].key in sums then sums[required[k].key] else 0;
      if actual + cfg.tolerance < Target(total, required[k].pct) {
        assert !TopicCovered(cfg, items, required[k], total);
        return false;
      }
    }
    return true;
  }

  // ----- sections -----

  datatype Section = Section(itemIds: seq<nat>, marks: Option<int>)

  datatype SectionError =
    | SectionsRequired | EmptySection(index: nat) | RepeatedItem(id: nat) | ForeignItem(id: nat)
    | SectionMarksMismatch(index: nat) | NotCovering | SectionCountMismatch

  /** `items_by_id[id].marks or 0`. */
  function MarksOfId(items: seq<Candidate>, id: nat): int {
    if items == [] then 0 else if items[0].id == id then Worth(items[0]) else MarksOfId(items[1..], id)
  }

  function MarksOfIds(items: seq<Candidate>, ids: seq<nat>): int {
    if ids == [] then 0 else MarksOfId(items, ids[0]) + MarksOfIds(items, ids[1..])
  }

  /** All item ids of the first `n` sections, in order. */
  function AllIds(sections: seq<Section>, n: nat): seq<nat>
    requires n <= |sections|
  {
    if n == 0 then [] else AllIds(sections, n - 1) + sections[n - 1].itemIds
  }

  predicate NoRepeats(ids: seq<nat>) {
    forall i, j :: 0 <= i < j < |ids| ==> ids[i] != ids[j]
  }

  function IdSet(ids: seq<nat>): set<nat> {
    set i | 0 <= i < |ids| :: ids[i]
  }

  predicate SectionOk(items: seq<Candidate>, s: Section) {
    s.itemIds != [] && (s.marks.Some? ==> s.marks.value == MarksOfIds(items, s.itemIds))
  }

  /** What an accepted section list is: nothing when none are declared, or non-empty sections that
      hold each paper item exactly once and nothing else, with correct declared marks, in the
      number that the blueprint declares if it declares any. */
  predicate SectionsPartition(items: seq<Candidate>, sections: seq<Section>, declared: nat) {
    if sections == [] then declared == 0
    else
      && (forall k :: 0 <= k < |sections| ==> SectionOk(items, sections[k]))
      && NoRepeats(AllIds(sections, |sections|))
      && IdSet(AllIds(sections, |sections|)) == Ids(items)
      && (declared == 0 || declared == |sections|)
  }

  lemma IdSetAppend(a: seq<nat>, x: nat)
    ensures IdSet(a + [x]) == IdSet(a) + {x}
    ensures NoRepeats(a + [x]) <==> NoRepeats(a) && x !in IdSet(a)
  {
    var b := a + [x];
    assert forall i :: 0 <= i < |a| ==> b[i] == a[i];
    assert b[|a|] == x;
    forall y | y in IdSet(a) ensures y in IdSet(b) {
      var i :| 0 <= i < |a| && a[i] == y;
      assert b[i] == y;
    }
  }

  // ----- which error is raised -----

  /** The first of the first `n` ids that was read before or is not in the paper. */
  function FirstBadId(items: seq<Candidate>, read: seq<nat>, ids: seq<nat>, n: nat): Option<SectionError>
    requires n <= |ids|
  {
    if n == 0 then None
    else
      var earlier := FirstBadId(items, read, ids, n - 1);
      if earlier.Some? then earlier
      else if ids[n - 1] in IdSet(read + ids[..n - 1]) then Some(RepeatedItem(ids[n - 1]))
      else if ids[n - 1] !in Ids(items) then Some(ForeignItem(ids[n - 1]))
      else None
  }

  /** What is wrong with section `k` (counted from 0) by itself, given the ids read before it. */
  function SectionFault(items: seq<Candidate>, sections: seq<Section>, k: nat): Option<SectionError>
    requires k < |sections|
  {
    var s := sections[k];
    if s.itemIds == [] then Some(EmptySection(k + 1))
    else if FirstBadId(items, AllIds(sections, k), s.itemIds, |s.itemIds|).Some?
    then FirstBadId(items, AllIds(sections, k), s.itemIds, |s.itemIds|)
    else if s.marks.Some? && s.marks.value != MarksOfIds(items, s.itemIds) then Some(SectionMarksMismatch(k + 1))
    else None
  }

  /** The fault of the first faulty section among the first `n`. */
  function FirstFault(items: seq<Candidate>, sections: seq<Section>, n: nat): Option<SectionError>
    requires n <= |sections|
  {
    if n == 0 then None
    else if FirstFault(items, sections, n - 1).Some? then FirstFault(items, sections, n - 1)
    else SectionFault(items, sections, n - 1)
  }

  /** The error that a section list raises, if any. */
  function Fault(items: seq<Candidate>, sections: seq<Section>, declared: nat): Option<SectionError> {
    if sections == [] then if declared > 0 then Some(SectionsRequired) else None
    else if FirstFault(items, sections, |sections|).Some? then FirstFault(items, sections, |sections|)
    else if IdSet(AllIds(sections, |sections|)) != Ids(items) then Some(NotCovering)
    else if declared > 0 && declared != |sections| then Some(SectionCountMismatch)
    else None
  }

  lemma {:induction false} NoBadIdIff(items: seq<Candidate>, read: seq<nat>, ids: seq<nat>, n: nat)
    requires n <= |ids| && NoRepeats(read) && IdSet(read) <= Ids(items)
    ensures FirstBadId(items, read, ids, n).None?
       <==> NoRepeats(read + ids[..n]) && IdSet(read + ids[..n]) <= Ids(items)
  {
    hide NoRepeats, IdSet, Ids;
    if n == 0 {
      assert read + ids[..0] == read;
    } else {
      NoBadIdIff(items, read, ids, n - 1);
      IdSetAppend(read + ids[..n - 1], ids[n - 1]);
      assert read + ids[..n] == read + ids[..n - 1] + [ids[n - 1]];
    }
  }

  lemma AllIdsGrow(sections: seq<Section>, n: nat, items: seq<Candidate>)
    requires n < |sections|
    requires NoRepeats(AllIds(sections, n + 1)) && IdSet(AllIds(sections, n + 1)) <= Ids(items)
    ensures NoRepeats(AllIds(sections, n)) && IdSet(AllIds(sections, n)) <= Ids(items)
  {
    var a, b := AllIds(sections, n), AllIds(sections, n + 1);
    assert forall i :: 0 <= i < |a| ==> b[i] == a[i];
    forall x | x in IdSet(a) ensures x in IdSet(b) {
      var i :| 0 <= i < |a| && a[i] == x;
      assert b[i] == x;
    }
  }

  lemma {:induction false} NoFaultIff(items: seq<Candidate>, sections: seq<Section>, n: nat)
    requires n <= |sections|
    ensures FirstFault(items, sections, n).None? <==>
              && (forall k :: 0 <= k < n ==> SectionOk(items, sections[k]))
              && NoRepeats(AllIds(sections, n)) && IdSet(AllIds(sections, n)) <= Ids(items)
  {
    if n > 0 {
      NoFaultIff(items, sections, n - 1);
      hide NoRepeats, IdSet, Ids, FirstBadId, MarksOfIds;
      var ids := sections[n - 1].itemIds;
      assert ids[..|ids|] == ids;
      if FirstFault(items, sections, n - 1).None? {
        NoBadIdIff(items, AllIds(sections, n - 1), ids, |ids|);
      } else if NoRepeats(AllIds(sections, n)) && IdSet(AllIds(sections, n)) <= Ids(items) {
        AllIdsGrow(sections, n - 1, items);
      }
    }
  }

  /** SECTION VALIDATION. A section list raises no error if and only if it is such a partition. */
  lemma SectionsAcceptedIff(items: seq<Candidate>, sections: seq<Section>, declared: nat)
    ensures Fault(items, sections, declared).None? <==> SectionsPartition(items, sections, declared)
  {
    NoFaultIff(items, sections, |sections|);
    hide NoRepeats, IdSet, Ids, SectionOk, FirstFault;
  }

  /** The first bad id, or the first faulty section, is final. */
  lemma {:induction false} BadIdIsFinal(items: seq<Candidate>, read: seq<nat>, ids: seq<nat>, k: nat, n: nat)
    requires k <= n <= |ids| && FirstBadId(items, read, ids, k).Some?
    ensures FirstBadId(items, read, ids, n) == FirstBadId(items, read, ids, k)
  {
    if k < n {
      BadIdIsFinal(items, read, ids, k, n - 1);
    }
  }

  lemma {:induction false} FaultIsFinal(items: seq<Candidate>, sections: seq<Section>, k: nat, n: nat)
    requires k <= n <= |sections| && FirstFault(items, sections, k).Some?
    ensures FirstFault(items, sections, n) == FirstFault(items, sections, k)
  {
    if k < n {
      FaultIsFinal(items, sections, k, n - 1);
    }
  }

  /** One section's ids are read: the first that was seen before, or is not in the paper, stops it. */
  method ReadSection(items: seq<Candidate>, sections: seq<Section>, i: nat, before: set<nat>)
    returns (seen: set<nat>, error: Option<SectionError>)
    requires i < |sections| && before == IdSet(AllIds(sections, i))
    ensures error == FirstBadId(items, AllIds(sections, i), sections[i].itemIds, |sections[i].itemIds|)
    ensures error.None? ==> seen == IdSet(AllIds(sections, i + 1))
  {
    hide Ids, IdSet;
    var ids := sections[i].itemIds;
    seen := before;
    ghost var read := AllIds(sections, i);
    assert read + ids[..0] == read;
    for j := 0 to |ids|
      invariant seen == IdSet(read + ids[..j]) && FirstBadId(items, read, ids, j).None?
    {
      IdSetAppend(read + ids[..j], ids[j]);
      assert read + ids[..j + 1] == read + ids[..j] + [ids[j]];
      if ids[j] in seen {
        BadIdIsFinal(items, read, ids, j + 1, |ids|);
        return seen, Some(RepeatedItem(ids[j]));
      }
      if ids[j] !in Ids(items) {
        BadIdIsFinal(items, read, ids, j + 1, |ids|);
        return seen, Some(ForeignItem(ids[j]));
      }
      seen := seen + {ids[j]};
    }
    assert ids[..|ids|] == ids;
    error := None;
  }

  /** `_validate_sections`: the error raised is the first one in reading order. */
  method ValidateSections(items: seq<Candidate>, sections: seq<Section>, declared: nat)
    returns (error: Option<SectionError>)
    ensures error == Fault(items, sections, declared)
    ensures error.None? <==> SectionsPartition(items, sections, declared)
  {
    SectionsAcceptedIff(items, sections, declared);
    hide SectionsPartition, IdSet, Ids, FirstBadId, MarksOfIds;
    if sections == [] {
      return if declared > 0 then Some(SectionsRequired) else None;
    }
    var seen: set<nat> := {};
    NothingRead(sections);
    for i := 0 to |sections|
      invariant FirstFault(items, sections, i).None? && seen == IdSet(AllIds(sections, i))
    {
      if sections[i].itemIds == [] {
        FaultIsFinal(items, sections, i + 1, |sections|);
        return Some(EmptySection(i + 1));
      }
      var problem;
      seen, problem := ReadSection(items, sections, i, seen);
      if problem.Some? {
        FaultIsFinal(items, sections, i + 1, |sections|);
        return problem;
      }
      if sections[i].marks.Some? && sections[i].marks.value != MarksOfIds(items, sections[i].itemIds) {
        FaultIsFinal(items, sections, i + 1, |sections|);
        return Some(SectionMarksMismatch(i + 1));
      }
    }
    if seen != Ids(items) {
      return Some(NotCovering);
    }
    if declared > 0 && declared != |sections| {
      return Some(SectionCountMismatch);
    }
    return None;
  }

  lemma NothingRead(sections: seq<Section>)
    ensures IdSet(AllIds(sections, 0)) == {}
  {
  }

  // ----- declared marks add up -----

  function IdSeq(items: seq<Candidate>): (ids: seq<nat>)
    ensures |ids| == |items| && forall i :: 0 <= i < |items| ==> ids[i] == items[i].id
  {
    seq(|items|, i requires 0 <= i < |items| => items[i].id)
  }

  function DeclaredSum(sections: seq<Section>, n: nat): int
    requires n <= |sections|
  {
    if n == 0 then 0
    else DeclaredSum(sections, n - 1) + if sections[n - 1].marks.Some? then sections[n - 1].marks.value else 0
  }

  lemma {:induction false} MarksOfIdsAppend(items: seq<Candidate>, a: seq<nat>, b: seq<nat>)
    ensures MarksOfIds(items, a + b) == MarksOfIds(items, a) + MarksOfIds(items, b)
  {
    if a == [] {
      assert a + b == b;
    } else {
      MarksOfIdsAppend(items, a[1..], b);
      assert (a + b)[1..] == a[1..] + b;
    }
  }

  lemma {:induction false} SectionsSum(items: seq<Candidate>, sections: seq<Section>, n: nat)
    requires n <= |sections|
    requires forall k :: 0 <= k < n ==> SectionOk(items, sections[k]) && sections[k].marks.Some?
    ensures DeclaredSum(sections, n) == MarksOfIds(items, AllIds(sections, n))
  {
    if n > 0 {
      SectionsSum(items, sections, n - 1);
      MarksOfIdsAppend(items, AllIds(sections, n - 1), sections[n - 1].itemIds);
    }
  }

  lemma MarksOfIdsWithout(items: seq<Candidate>, ids: seq<nat>, i: nat)
    requires i < |ids|
    ensures MarksOfIds(items, ids) == MarksOfId(items, ids[i]) + MarksOfIds(items, ids[..i] + ids[i + 1..])
  {
    assert ids == ids[..i] + ([ids[i]] + ids[i + 1..]);
    MarksOfIdsAppend(items, ids[..i], [ids[i]] + ids[i + 1..]);
    MarksOfIdsAppend(items, [ids[i]], ids[i + 1..]);
    MarksOfIdsAppend(items, ids[..i], ids[i + 1..]);
  }

  lemma RemoveId(ids: seq<nat>, i: nat)
    requires i < |ids| && NoRepeats(ids)
    ensures NoRepeats(ids[..i] + ids[i + 1..])
    ensures IdSet(ids[..i] + ids[i + 1..]) == IdSet(ids) - {ids[i]}
  {
    var rest := ids[..i] + ids[i + 1..];
    forall k | 0 <= k < |rest| ensures rest[k] == ids[if k < i then k else k + 1] {
    }
    forall x | x in IdSet(ids) - {ids[i]} ensures x in IdSet(rest) {
      var k :| 0 <= k < |ids| && ids[k] == x;
      assert rest[if k < i then k else k - 1] == x;
    }
  }

  /** Ids that list the items exactly once carry the items' total marks. */
  lemma {:induction false} PartitionKeepsMarks(items: seq<Candidate>, ids: seq<nat>)
    requires DistinctIds(items) && NoRepeats(ids) && IdSet(ids) == Ids(items)
    ensures MarksOfIds(items, ids) == TotalMarks(items)
  {
    if items == [] {
      if ids != [] {
        FirstIsListed(ids);
      }
    } else {
      var c := items[0];
      assert c.id in Ids(items);
      var i :| 0 <= i < |ids| && ids[i] == c.id;
      var rest := ids[..i] + ids[i + 1..];
      RemoveId(ids, i);
      MarksOfIdsWithout(items, ids, i);
      TailIds(items);
      PartitionKeepsMarks(items[1..], rest);
      TailMarks(items, rest);
    }
  }

  lemma FirstIsListed(ids: seq<nat>)
    requires ids != []
    ensures ids[0] in IdSet(ids)
  {
  }

  lemma TailIds(items: seq<Candidate>)
    requires DistinctIds(items) && items != []
    ensures DistinctIds(items[1..]) && Ids(items[1..]) == Ids(items) - {items[0].id}
  {
    assert forall i :: 0 <= i < |items| - 1 ==> items[1..][i] == items[i + 1];
    forall x | x in Ids(items) - {items[0].id} ensures x in Ids(items[1..]) {
      var k :| 0 <= k < |items| && items[k].id == x;
      assert items[1..][k - 1].id == x;
    }
  }

  lemma {:induction false} TailMarks(items: seq<Candidate>, ids: seq<nat>)
    requires items != [] && items[0].id !in IdSet(ids)
    ensures MarksOfIds(items, ids) == MarksOfIds(items[1..], ids)
  {
    if ids != [] {
      assert ids[0] in IdSet(ids);
      assert forall k :: 0 <= k < |ids| - 1 ==> ids[1..][k] == ids[k + 1];
      TailMarks(items, ids[1..]);
    }
  }

  /** If every section of an accepted list declares its marks, they add up to the paper's marks. */
  lemma DeclaredMarksAddUp(items: seq<Candidate>, sections: seq<Section>, declared: nat)
    requires DistinctIds(items) && sections != [] && SectionsPartition(items, sections, declared)
    requires forall k :: 0 <= k < |sections| ==> sections[k].marks.Some?
    ensures DeclaredSum(sections, |sections|) == TotalMarks(items)
  {
    SectionsSum(items, sections, |sections|);
    PartitionKeepsMarks(items, AllIds(sections, |sections|));
  }

  // ----- cool-down -----

  datatype Usage = Usage(itemId: nat, sitting: string, at: int)

  /** The sittings that occur in the history, without the excluded one ("" excludes nothing). */
  function OtherSittings(usage: seq<Usage>, exclude: string): set<string> {
    set i | 0 <= i < |usage| && (exclude == "" || usage[i].sitting != exclude) :: usage[i].sitting
  }

  /** Max(recorded_at) over the first `n` rows of one sitting, when it has any. */
  function LatestUse(usage: seq<Usage>, n: nat, sitting: string): Option<int>
    requires n <= |usage|
  {
    if n == 0 then None
    else
      var before := LatestUse(usage, n - 1, sitting);
      if usage[n - 1].sitting != sitting then before
      else if before.None? || before.value < usage[n - 1].at then Some(usage[n - 1].at) else before
  }

  function Latest(usage: seq<Usage>, sitting: string): int {
    var u := LatestUse(usage, |usage|, sitting);
    if u.Some? then u.value else 0
  }

  predicate DistinctRefs(s: seq<string>) {
    forall i, j :: 0 <= i < j < |s| ==> s[i] != s[j]
  }

  function RefSet(s: seq<string>): set<string> {
    set i | 0 <= i < |s| :: s[i]
  }

  /** An answer of the recent-sittings query: at most `limit` distinct sittings, newest first, and
      none left out that is newer. Ties may come in any order. */
  predicate IsRecent(usage: seq<Usage>, limit: nat, exclude: string, recent: seq<string>) {
    && DistinctRefs(recent) && RefSet(recent) <= OtherSittings(usage, exclude)
    && |recent| <= limit
    && (|recent| < limit ==> RefSet(recent) == OtherSittings(usage, exclude))
    && (forall i, j :: 0 <= i < j < |recent| ==> Latest(usage, recent[i]) >= Latest(usage, recent[j]))
    && (forall s, i :: s in OtherSittings(usage, exclude) - RefSet(recent) && 0 <= i < |recent| ==>
          Latest(usage, recent[i]) >= Latest(usage, s))
  }

  /** A newest sitting of a non-empty set. */
  method NewestOf(usage: seq<Usage>, refs: set<string>) returns (best: string)
    requires refs != {}
    ensures best in refs && forall s :: s in refs ==> Latest(usage, best) >= Latest(usage, s)
  {
    best :| best in refs;
    var rest := refs - {best};
    while rest != {}
      invariant best in refs && rest <= refs
      invariant forall s :: s in refs - rest ==> Latest(usage, best) >= Latest(usage, s)
      decreases |rest|
    {
      var s :| s in rest;
      if Latest(usage, s) > Latest(usage, best) {
        best := s;
      }
      rest := rest - {s};
    }
  }

  /** The sittings taken so far are newest first, and none of the rest is newer. */
  predicate TakenSoFar(usage: seq<Usage>, taken: seq<string>, rest: set<string>) {
    && DistinctRefs(taken) && RefSet(taken) !! rest
    && (forall i, j :: 0 <= i < j < |taken| ==> Latest(usage, taken[i]) >= Latest(usage, taken[j]))
    && (forall s, i :: s in rest && 0 <= i < |taken| ==> Latest(usage, taken[i]) >= Latest(usage, s))
  }

  lemma TakeOne(usage: seq<Usage>, taken: seq<string>, rest: set<string>, best: string)
    requires TakenSoFar(usage, taken, rest) && best in rest
    requires forall s :: s in rest ==> Latest(usage, best) >= Latest(usage, s)
    ensures TakenSoFar(usage, taken + [best], rest - {best})
    ensures RefSet(taken + [best]) == RefSet(taken) + {best}
  {
    hide Latest;
    RefSetAppend(taken, best);
    forall i | 0 <= i < |taken| ensures taken[i] != best {
      assert taken[i] in RefSet(taken);
    }
  }

  /** `_recent_sittings`: group by sitting, order by latest use descending, take `limit`. */
  method RecentSittings(usage: seq<Usage>, limit: nat, exclude: string) returns (recent: seq<string>)
    ensures IsRecent(usage, limit, exclude, recent)
  {
    hide Latest, LatestUse, OtherSittings;
    var all := OtherSittings(usage, exclude);
    var rest := all;
    recent := [];
    while |recent| < limit && rest != {}
      invariant |recent| <= limit && TakenSoFar(usage, recent, rest)
      invariant RefSet(recent) <= all && rest == all - RefSet(recent)
      decreases |rest|
    {
      var best := NewestOf(usage, rest);
      TakeOne(usage, recent, rest, best);
      recent := recent + [best];
      rest := rest - {best};
    }
  }

  lemma RefSetAppend(s: seq<string>, x: string)
    ensures RefSet(s + [x]) == RefSet(s) + {x}
  {
    var t := s + [x];
    assert t[|s|] == x;
    forall y | y in RefSet(s) ensures y in RefSet(t) {
      var i :| 0 <= i < |s| && s[i] == y;
      assert t[i] == y;
    }
  }

  /** `get_cooled_down_items`: the items used in one of the recent sittings. */
  function CooledItems(usage: seq<Usage>, recent: seq<string>): set<nat> {
    set i | 0 <= i < |usage| && usage[i].sitting in recent :: usage[i].itemId
  }

  /** The check that manual construction makes item by item. */
  predicate UsedIn(usage: seq<Usage>, id: nat, recent: seq<string>) {
    exists i :: 0 <= i < |usage| && usage[i].itemId == id && usage[i].sitting in recent
  }

  /** The per-item check and the precomputed set are the same rule. */
  lemma ChecksAgree(usage: seq<Usage>, recent: seq<string>, id: nat)
    ensures UsedIn(usage, id, recent) <==> id in CooledItems(usage, recent)
  {
  }

  lemma {:induction false} DistinctRefsCount(s: seq<string>)
    requires DistinctRefs(s)
    ensures |RefSet(s)| == |s|
  {
    if s != [] {
      var n := |s| - 1;
      DistinctRefsCount(s[..n]);
      assert s == s[..n] + [s[n]];
      RefSetAppend(s[..n], s[n]);
      assert s[n] !in RefSet(s[..n]);
    }
  }

  /** At least `count` distinct sittings, other than both, were used no earlier than `earlier` was. */
  ghost predicate Spaced(usage: seq<Usage>, sitting: string, earlier: string, count: nat) {
    exists between: set<string> :: LaterSittings(usage, sitting, earlier, count, between)
  }

  predicate LaterSittings(usage: seq<Usage>, sitting: string, earlier: string, count: nat, between: set<string>) {
    && |between| == count && sitting !in between && earlier !in between
    && between <= OtherSittings(usage, sitting)
    && forall d :: d in between ==> Latest(usage, d) >= Latest(usage, earlier)
  }

  /** COOL-DOWN SPACING. An item that is not cooled down for a sitting, but was used in another
      one, is separated from that use by the configured number of sittings: used no earlier, and
      strictly later exactly when none of the recent sittings ties with that use. */
  lemma CooldownSpaces(usage: seq<Usage>, limit: nat, sitting: string, recent: seq<string>, row: nat)
    requires sitting != "" && IsRecent(usage, limit, sitting, recent)
    requires row < |usage| && usage[row].sitting != sitting
    requires usage[row].itemId !in CooledItems(usage, recent)
    ensures Spaced(usage, sitting, usage[row].sitting, limit)
    ensures SpacedStrictly(usage, sitting, usage[row].sitting, limit)
       <==> forall d :: d in recent ==> Latest(usage, d) != Latest(usage, usage[row].sitting)
  {
    CooldownSpacesStrictlyIff(usage, limit, sitting, recent, row);
    hide SpacedStrictly;
    var earlier := usage[row].sitting;
    assert earlier in OtherSittings(usage, sitting);
    assert earlier !in recent;
    assert earlier !in RefSet(recent);
    DistinctRefsCount(recent);
    var between := RefSet(recent);
    forall d | d in between ensures Latest(usage, d) >= Latest(usage, earlier) {
      var i :| 0 <= i < |recent| && recent[i] == d;
    }
    assert LaterSittings(usage, sitting, earlier, limit, between);
  }

  /** The same with sittings that were used strictly later. */
  ghost predicate SpacedStrictly(usage: seq<Usage>, sitting: string, earlier: string, count: nat) {
    exists between: set<string> :: StrictlyBetween(usage, sitting, earlier, count, between)
  }

  predicate StrictlyBetween(usage: seq<Usage>, sitting: string, earlier: string, count: nat, between: set<string>) {
    && |between| == count && sitting !in between && earlier !in between
    && between <= OtherSittings(usage, sitting)
    && forall d :: d in between ==> Latest(usage, d) > Latest(usage, earlier)
  }

  /** STRICT SPACING, EXACTLY. The use is followed by the configured number of sittings with a
      strictly later latest use if and only if none of the recent sittings ties with it. */
  lemma CooldownSpacesStrictlyIff(usage: seq<Usage>, limit: nat, sitting: string, recent: seq<string>, row: nat)
    requires sitting != "" && IsRecent(usage, limit, sitting, recent)
    requires row < |usage| && usage[row].sitting != sitting
    requires usage[row].itemId !in CooledItems(usage, recent)
    ensures SpacedStrictly(usage, sitting, usage[row].sitting, limit)
       <==> forall d :: d in recent ==> Latest(usage, d) != Latest(usage, usage[row].sitting)
  {
    var earlier, taken := usage[row].sitting, RefSet(recent);
    assert earlier in OtherSittings(usage, sitting) && earlier !in recent;
    DistinctRefsCount(recent);
    RefSetMembers(recent);
    hide Latest, RefSet, DistinctRefs;
    forall d | d in recent ensures Latest(usage, d) >= Latest(usage, earlier) {
      var i :| 0 <= i < |recent| && recent[i] == d;
    }
    if forall d :: d in recent ==> Latest(usage, d) != Latest(usage, earlier) {
      assert StrictlyBetween(usage, sitting, earlier, limit, taken);
    }
    if d :| d in recent && Latest(usage, d) == Latest(usage, earlier) {
      forall between: set<string> ensures !StrictlyBetween(usage, sitting, earlier, limit, between) {
        if StrictlyBetween(usage, sitting, earlier, limit, between) {
          var x := OneIsNotLater(usage, limit, sitting, recent, between, d);
        }
      }
    }
  }

  lemma RefSetMembers(s: seq<string>)
    ensures forall x :: x in RefSet(s) <==> x in s
  {
  }

  /** A newest-first answer that holds `d` leaves no later sitting out, so of any as many other
      sittings some is not later than `d`. */
  lemma OneIsNotLater(usage: seq<Usage>, limit: nat, sitting: string, recent: seq<string>, between: set<string>,
                      d: string)
    returns (x: string)
    requires IsRecent(usage, limit, sitting, recent) && d in recent
    requires |between| == limit && between <= OtherSittings(usage, sitting)
    ensures x in between && Latest(usage, x) <= Latest(usage, d)
  {
    hide Latest;
    DistinctRefsCount(recent);
    RefSetMembers(recent);
    var k :| 0 <= k < |recent| && recent[k] == d;
    if d in between {
      x := d;
    } else {
      if between <= RefSet(recent) - {d} {
        SubsetIsSmaller(between, RefSet(recent) - {d});
      }
      x :| x in between && x !in RefSet(recent) - {d};
      assert x in OtherSittings(usage, sitting) - RefSet(recent);
    }
  }

  lemma {:induction false} SubsetIsSmaller(a: set<string>, b: set<string>)
    requires a <= b
    ensures |a| <= |b|
  {
    if a != {} {
      var x :| x in a;
      SubsetIsSmaller(a - {x}, b - {x});
    }
  }

  /** No two sittings were used at the same moment. */
  predicate ClockSeparates(usage: seq<Usage>) {
    forall i, j :: 0 <= i < j < |usage| && usage[i].at == usage[j].at ==> usage[i].sitting == usage[j].sitting
  }

  lemma {:induction false} LatestIsUse(usage: seq<Usage>, n: nat, sitting: string)
    requires n <= |usage|
    ensures LatestUse(usage, n, sitting).Some? ==>
              exists i :: 0 <= i < n && usage[i].sitting == sitting && usage[i].at == LatestUse(usage, n, sitting).value
    ensures (exists i :: 0 <= i < n && usage[i].sitting == sitting) ==> LatestUse(usage, n, sitting).Some?
  {
    if n > 0 {
      LatestIsUse(usage, n - 1, sitting);
    }
  }

  /** With a clock that separates sittings the spacing is always strict. */
  lemma ClockMakesStrict(usage: seq<Usage>, sitting: string, earlier: string, count: nat)
    requires ClockSeparates(usage) && earlier in OtherSittings(usage, sitting)
    requires Spaced(usage, sitting, earlier, count)
    ensures SpacedStrictly(usage, sitting, earlier, count)
  {
    var between: set<string> :| LaterSittings(usage, sitting, earlier, count, between);
    LatestIsUse(usage, |usage|, earlier);
    forall d | d in between ensures Latest(usage, d) != Latest(usage, earlier) {
      LatestIsUse(usage, |usage|, d);
    }
    assert StrictlyBetween(usage, sitting, earlier, count, between);
  }

  function TiedUsage(): seq<Usage> {
    [Usage(1, "2025-MAR", 5), Usage(2, "2025-JUN", 5)]
  }

  /** A tie: two sittings used at one moment, a window of one sitting, and the query answers the
      second. Item 1 passes the check although no sitting is strictly later than its own. */
  lemma TieIsNotStrict()
    ensures IsRecent(TiedUsage(), 1, "2025-NOV", ["2025-JUN"])
    ensures 1 !in CooledItems(TiedUsage(), ["2025-JUN"])
    ensures !SpacedStrictly(TiedUsage(), "2025-NOV", "2025-MAR", 1)
  {
    var u, recent := TiedUsage(), ["2025-JUN"];
    assert LatestUse(u, 0, "2025-MAR") == None && LatestUse(u, 0, "2025-JUN") == None;
    assert LatestUse(u, 1, "2025-MAR") == Some(5) && LatestUse(u, 1, "2025-JUN") == None;
    assert Latest(u, "2025-MAR") == 5 && Latest(u, "2025-JUN") == 5;
    assert u[0].sitting == "2025-MAR" && u[1].sitting == "2025-JUN" && u[0].itemId == 1 && u[1].itemId == 2;
    assert OtherSittings(u, "2025-NOV") == {"2025-MAR", "2025-JUN"};
    RefSetMembers(recent);
    hide LatestUse, Latest;
    CooldownSpacesStrictlyIff(u, 1, "2025-NOV", recent, 0);
  }
}
