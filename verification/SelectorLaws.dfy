/** Laws of the greedy selector that follow from its run: which items it takes, that its
    verdict ignores order and only improves with a larger pool, and how far its total marks
    can be from what the paper asks for. */
module SelectorLaws {
  import opened Wrappers
  import opened Decimals
  import opened Selector

  // ----- every pick is the greedy one -----

  ghost predicate BestChoice(bs: seq<Bucket>, req: map<Slot, int>, i: int) {
    && 0 <= i < |bs| && bs[i].items != [] && Score(bs[i], req) > 0
    && (forall j :: 0 <= j < |bs| && bs[j].items != [] ==> Score(bs[j], req) <= Score(bs[i], req))
    && (forall j :: 0 <= j < i && bs[j].items != [] ==> Score(bs[j], req) < Score(bs[i], req))
  }

  /** `items` is a sequence of greedy picks: each is a most valuable item of the first bucket
      whose difficulty and topic together still need the most, and it ends when no bucket
      with items left is needed. */
  ghost predicate GreedyTrace(bs: seq<Bucket>, req: map<Slot, int>, items: seq<Candidate>)
    decreases |items|
  {
    if items == [] then forall i :: 0 <= i < |bs| ==> !BestChoice(bs, req, i)
    else exists i :: BestChoice(bs, req, i) && PickedFrom(bs, req, i, items)
  }

  ghost predicate PickedFrom(bs: seq<Bucket>, req: map<Slot, int>, i: int, items: seq<Candidate>)
    requires BestChoice(bs, req, i) && items != []
    decreases |items|, 0
  {
    && items[0] == bs[i].items[0]
    && (forall c :: c in bs[i].items ==> Worth(c) <= Worth(items[0]))
    && GreedyTrace(PopFirst(bs, i), Charge(req, bs[i], Worth(items[0])), items[1..])
  }

  predicate AllDescending(bs: seq<Bucket>) {
    forall i :: 0 <= i < |bs| ==> Descending(bs[i].items)
  }

  lemma {:induction false} GreedyPicksBest(bs: seq<Bucket>, req: map<Slot, int>)
    requires AllDescending(bs)
    ensures GreedyTrace(bs, req, Greedy(bs, req).items)
    decreases |Flatten(bs)|
  {
    var i := Best(bs, req).index;
    BestIsFirstMaximum(bs, req);
    if i != -1 {
      assert BestChoice(bs, req, i);
      PopFirstRemoves(bs, i);
      GreedyPicksBest(PopFirst(bs, i), Charge(req, bs[i], Worth(bs[i].items[0])));
      assert PickedFrom(bs, req, i, Greedy(bs, req).items);
    }
  }

  lemma {:induction false} SortedBucketsDescend(bs: seq<Bucket>)
    ensures AllDescending(SortBuckets(bs))
  {
    if bs != [] {
      SortedBucketsDescend(bs[1..]);
      SortIsDescending(bs[0].items);
    }
  }

  // ----- where the items come from -----

  predicate DistinctIds(s: seq<Candidate>) {
    forall i, j :: 0 <= i < j < |s| ==> s[i].id != s[j].id
  }

  function Ids(s: seq<Candidate>): set<nat> {
    set i | 0 <= i < |s| :: s[i].id
  }

  function CountUpTo(pool: seq<Candidate>, n: nat, c: Candidate): nat
    requires n <= |pool|
  {
    if n == 0 then 0 else CountUpTo(pool, n - 1, c) + if pool[n - 1] == c then 1 else 0
  }

  lemma {:induction false} CountIsMultiplicity(pool: seq<Candidate>, n: nat, c: Candidate)
    requires n <= |pool|
    ensures CountUpTo(pool, n, c) == multiset(pool[..n])[c]
  {
    if n > 0 {
      CountIsMultiplicity(pool, n - 1, c);
      assert pool[..n] == pool[..n - 1] + [pool[n - 1]];
    }
  }

  lemma {:induction false} EligibleMultiplicity(pool: seq<Candidate>, n: nat, diffs: Distribution, topics: Distribution,
                                                excluded: set<nat>, c: Candidate)
    requires n <= |pool|
    ensures multiset(EligibleUpTo(pool, n, diffs, topics, excluded))[c]
         == if Eligible(c, diffs, topics, excluded) then CountUpTo(pool, n, c) else 0
  {
    hide Eligible;
    if n > 0 {
      EligibleMultiplicity(pool, n - 1, diffs, topics, excluded, c);
    }
  }

  lemma EligibleCount(pool: seq<Candidate>, diffs: Distribution, topics: Distribution, excluded: set<nat>, c: Candidate)
    ensures multiset(EligiblePool(pool, diffs, topics, excluded))[c]
         == if Eligible(c, diffs, topics, excluded) then multiset(pool)[c] else 0
  {
    EligibleMultiplicity(pool, |pool|, diffs, topics, excluded, c);
    CountIsMultiplicity(pool, |pool|, c);
    assert pool[..|pool|] == pool;
  }

  /** A run never takes more copies of an item than its buckets held. */
  lemma {:induction false} GreedyTakesFrom(bs: seq<Bucket>, req: map<Slot, int>)
    ensures multiset(Greedy(bs, req).items) <= multiset(Flatten(bs))
    decreases |Flatten(bs)|
  {
    var i := Best(bs, req).index;
    BestIsFirstMaximum(bs, req);
    if i != -1 {
      PopFirstRemoves(bs, i);
      GreedyTakesFrom(PopFirst(bs, i), Charge(req, bs[i], Worth(bs[i].items[0])));
    }
  }

  lemma SelectedFromEligible(pool: seq<Candidate>, diffs: Distribution, topics: Distribution, total: int,
                             excluded: set<nat>)
    requires NonNegativeMarks(pool)
    ensures var s := Select(pool, diffs, topics, total, excluded).items;
            && multiset(s) <= multiset(EligiblePool(pool, diffs, topics, excluded))
            && forall c :: c in s ==> c in pool && Eligible(c, diffs, topics, excluded)
  {
    var bs := Buckets(pool, diffs, topics, excluded);
    StartOfRun(pool, diffs, topics, excluded);
    GreedyTakesFrom(bs, Targets(diffs, topics, total));
    EligibleFromPool(pool, |pool|, diffs, topics, excluded);
    var s := Select(pool, diffs, topics, total, excluded).items;
    forall c | c in s ensures c in EligiblePool(pool, diffs, topics, excluded) {
      assert c in multiset(s);
    }
  }

  lemma DistinctHasNoCopies(s: seq<Candidate>, c: Candidate)
    requires DistinctIds(s)
    ensures multiset(s)[c] <= 1
  {
    if c in s {
      var i :| 0 <= i < |s| && s[i] == c;
      assert c !in Without(s, i);
      assert multiset(s) == multiset{s[i]} + multiset(Without(s, i)) by {
        assert s == s[..i] + [s[i]] + s[i + 1..];
      }
    }
  }

  lemma TwoCopies(a: seq<Candidate>, i: nat, j: nat)
    requires i < j < |a| && a[i] == a[j]
    ensures multiset(a)[a[i]] >= 2
  {
    assert a == a[..i] + [a[i]] + a[i + 1..j] + [a[j]] + a[j + 1..];
  }

  lemma SubsetOfDistinct(a: seq<Candidate>, b: seq<Candidate>)
    requires DistinctIds(b) && multiset(a) <= multiset(b)
    ensures DistinctIds(a)
  {
    forall i, j | 0 <= i < j < |a| ensures a[i].id != a[j].id {
      assert a[i] in multiset(a) && a[j] in multiset(a);
      assert a[i] in b && a[j] in b;
      DistinctHasNoCopies(b, a[i]);
      if a[i] == a[j] {
        TwoCopies(a, i, j);
      }
    }
  }

  /** A selection has no duplicate item, takes only pool items, and none that was excluded. */
  lemma SelectionIsDistinct(pool: seq<Candidate>, diffs: Distribution, topics: Distribution, total: int,
                            excluded: set<nat>)
    requires NonNegativeMarks(pool) && DistinctIds(pool)
    ensures var s := Select(pool, diffs, topics, total, excluded).items;
            DistinctIds(s) && Ids(s) !! excluded && forall c :: c in s ==> c in pool
  {
    var s := Select(pool, diffs, topics, total, excluded).items;
    SelectedFromEligible(pool, diffs, topics, total, excluded);
    WithinPool(s, pool, diffs, topics, excluded);
    SubsetOfDistinct(s, pool);
    forall i | 0 <= i < |s| ensures s[i].id !in excluded {
      assert s[i] in s;
    }
  }

  lemma WithinPool(s: seq<Candidate>, pool: seq<Candidate>, diffs: Distribution, topics: Distribution,
                   excluded: set<nat>)
    requires multiset(s) <= multiset(EligiblePool(pool, diffs, topics, excluded))
    ensures multiset(s) <= multiset(pool)
  {
    forall c ensures multiset(s)[c] <= multiset(pool)[c] {
      EligibleCount(pool, diffs, topics, excluded, c);
    }
  }

  // ----- the verdict ignores order and improves with the pool -----

  predicate Short(pool: seq<Candidate>, diffs: Distribution, topics: Distribution, total: int,
                  excluded: set<nat>, slot: Slot)
  {
    Reports(Select(pool, diffs, topics, total, excluded).shortfalls, slot)
  }

  lemma {:induction false} MarksForSubset(a: seq<Candidate>, b: seq<Candidate>, slot: Slot)
    requires multiset(a) <= multiset(b) && NonNegativeMarks(b)
    ensures MarksFor(a, slot) <= MarksFor(b, slot)
  {
    if a == [] {
      MarksForBounds(b, slot);
    } else {
      assert a[0] in multiset(a);
      assert a[0] in b;
      var i :| 0 <= i < |b| && b[i] == a[0];
      WithoutContents(a, 0);
      WithoutContents(b, i);
      MarksForWithout(a, 0, slot);
      MarksForWithout(b, i, slot);
      MarksForSubset(Without(a, 0), Without(b, i), slot);
    }
  }

  /** Enlarging the pool, in any order, never makes a difficulty or topic short that was not. */
  lemma LargerPoolIsNeverShorter(pool: seq<Candidate>, larger: seq<Candidate>, diffs: Distribution,
                                 topics: Distribution,
                                 total: int, excluded: set<nat>, slot: Slot)
    requires ValidInput(larger, diffs, topics) && multiset(pool) <= multiset(larger)
    requires slot in Slots(diffs, topics)
    ensures Short(larger, diffs, topics, total, excluded, slot) ==> Short(pool, diffs, topics, total, excluded, slot)
  {
    forall c | c in pool ensures Worth(c) >= 0 {
      assert c in multiset(pool);
      assert c in larger;
    }
    forall c
      ensures multiset(EligiblePool(pool, diffs, topics, excluded))[c]
           <= multiset(EligiblePool(larger, diffs, topics, excluded))[c]
    {
      EligibleCount(pool, diffs, topics, excluded, c);
      EligibleCount(larger, diffs, topics, excluded, c);
    }
    EligibleFromPool(larger, |larger|, diffs, topics, excluded);
    MarksForSubset(EligiblePool(pool, diffs, topics, excluded), EligiblePool(larger, diffs, topics, excluded), slot);
    VerdictIsExact(pool, diffs, topics, total, excluded, slot);
    VerdictIsExact(larger, diffs, topics, total, excluded, slot);
  }

  /** The verdict depends on which items the pool holds, not on the order the database lists them. */
  lemma VerdictIgnoresOrder(pool: seq<Candidate>, other: seq<Candidate>, diffs: Distribution, topics: Distribution,
                            total: int, excluded: set<nat>, slot: Slot)
    requires ValidInput(pool, diffs, topics) && multiset(pool) == multiset(other)
    requires slot in Slots(diffs, topics)
    ensures Short(pool, diffs, topics, total, excluded, slot) <==> Short(other, diffs, topics, total, excluded, slot)
  {
    forall c | c in other ensures Worth(c) >= 0 {
      assert c in multiset(other);
      assert c in pool;
    }
    LargerPoolIsNeverShorter(pool, other, diffs, topics, total, excluded, slot);
    LargerPoolIsNeverShorter(other, pool, diffs, topics, total, excluded, slot);
  }

  /** The eligible items of the pool carry less for a slot than its target. */
  predicate Lacks(pool: seq<Candidate>, diffs: Distribution, topics: Distribution, total: int,
                  excluded: set<nat>, slot: Slot)
  {
    MarksFor(EligiblePool(pool, diffs, topics, excluded), slot) < SlotTarget(slot, diffs, topics, total)
  }

  lemma ErrorsReportSlots(slots: seq<Slot>, left: map<Slot, int>, targets: map<Slot, int>)
    ensures Errors(slots, left, targets) != [] <==>
              exists slot :: slot in slots && Reports(Errors(slots, left, targets), slot)
  {
    var errors := Errors(slots, left, targets);
    if errors != [] {
      ReportedIffNeeded(slots, |slots|, left, targets, errors[0].slot);
      assert Reports(errors, errors[0].slot);
      assert slots[..|slots|] == slots;
    }
  }

  lemma VerdictIsLack(pool: seq<Candidate>, diffs: Distribution, topics: Distribution, total: int, excluded: set<nat>,
                      errors: seq<Shortfall>)
    requires ValidInput(pool, diffs, topics)
    requires errors == Select(pool, diffs, topics, total, excluded).shortfalls
    ensures forall slot :: slot in Slots(diffs, topics) ==>
              (Reports(errors, slot) <==> Lacks(pool, diffs, topics, total, excluded, slot))
  {
    forall slot | slot in Slots(diffs, topics)
      ensures Reports(errors, slot) <==> Lacks(pool, diffs, topics, total, excluded, slot)
    {
      VerdictIsExact(pool, diffs, topics, total, excluded, slot);
      hide *;
    }
  }

  /** The selector fails if and only if the eligible pool lacks marks for some slot. */
  lemma SelectionFailsIff(pool: seq<Candidate>, diffs: Distribution, topics: Distribution, total: int,
                          excluded: set<nat>)
    requires ValidInput(pool, diffs, topics)
    ensures Select(pool, diffs, topics, total, excluded).shortfalls != [] <==>
              exists slot :: slot in Slots(diffs, topics) && Lacks(pool, diffs, topics, total, excluded, slot)
  {
    hide Greedy, Buckets, Targets, Slots, Lacks, Errors, Reports;
    var o := Greedy(Buckets(pool, diffs, topics, excluded), Targets(diffs, topics, total));
    VerdictIsLack(pool, diffs, topics, total, excluded, Select(pool, diffs, topics, total, excluded).shortfalls);
    ErrorsReportSlots(Slots(diffs, topics), o.left, Targets(diffs, topics, total));
  }

  // ----- what a selection without shortfalls guarantees -----

  /** With no message, every difficulty and every topic reaches its rounded target. */
  lemma SuccessMeetsTargets(pool: seq<Candidate>, diffs: Distribution, topics: Distribution, total: int,
                            excluded: set<nat>, slot: Slot)
    requires ValidInput(pool, diffs, topics) && slot in Slots(diffs, topics)
    requires Select(pool, diffs, topics, total, excluded).shortfalls == []
    ensures MarksFor(Select(pool, diffs, topics, total, excluded).items, slot) >= SlotTarget(slot, diffs, topics, total)
  {
    hide Buckets, Slots, SlotTarget, MarksFor, Shortfalls, AllSound;
    var targets := Targets(diffs, topics, total);
    assert targets.Keys == SlotSet(diffs, topics);
    StartOfRun(pool, diffs, topics, excluded);
    TargetsSign(diffs, topics, total);
    NoReportMeetsTarget(Buckets(pool, diffs, topics, excluded), Slots(diffs, topics), targets, slot);
  }

  lemma NoReportMeetsTarget(bs: seq<Bucket>, slots: seq<Slot>, targets: map<Slot, int>, slot: Slot)
    requires AllSound(bs, targets.Keys) && slot in slots && slot in targets
    requires NonNegative(targets) || forall x :: x in targets ==> targets[x] <= 0
    requires Errors(slots, Greedy(bs, targets).left, targets) == []
    ensures MarksFor(Greedy(bs, targets).items, slot) >= targets[slot]
  {
    hide Greedy, MarksFor, Shortfalls, Flatten, AllSound;
    var o := Greedy(bs, targets);
    ReportedIffNeeded(slots, |slots|, o.left, targets, slot);
    assert slots[..|slots|] == slots;
    if NonNegative(targets) {
      GreedyRun(bs, targets);
    } else {
      NothingAsked(bs, targets);
      NoMarks(slot);
    }
  }

  lemma NoMarks(slot: Slot)
    ensures MarksFor([], slot) == 0
  {
  }

  function MarksOverKeys(s: seq<Candidate>, d: Distribution, axis: Axis): int {
    if d == [] then 0 else MarksFor(s, Slot(axis, d[0].key)) + MarksOverKeys(s, d[1..], axis)
  }

  lemma {:induction false} OneKeyCounts(c: Candidate, d: Distribution, axis: Axis)
    requires DistinctKeys(d)
    ensures MarksOverKeys([c], d, axis)
         == if Label(c, axis).Some? && Label(c, axis).value in Keys(d) then Worth(c) else 0
  {
    if d != [] {
      assert DistinctKeys(d[1..]);
      OneKeyCounts(c, d[1..], axis);
      assert Keys(d) == {d[0].key} + Keys(d[1..]) by {
        forall k | k in Keys(d) ensures k in {d[0].key} + Keys(d[1..]) {
          var i :| 0 <= i < |d| && d[i].key == k;
          assert i > 0 ==> d[1..][i - 1].key == k;
        }
        assert forall i :: 0 <= i < |d| - 1 ==> d[1..][i] == d[i + 1];
      }
      assert MarksFor([c], Slot(axis, d[0].key))
          == if Label(c, axis) == Some(d[0].key) then Worth(c) else 0;
      assert d[0].key !in Keys(d[1..]);
    }
  }

  lemma {:induction false} MarksOverKeysAppend(a: seq<Candidate>, b: seq<Candidate>, d: Distribution, axis: Axis)
    ensures MarksOverKeys(a + b, d, axis) == MarksOverKeys(a, d, axis) + MarksOverKeys(b, d, axis)
  {
    if d != [] {
      MarksForAppend(a, b, Slot(axis, d[0].key));
      MarksOverKeysAppend(a, b, d[1..], axis);
    }
  }

  lemma {:induction false} MarksOverKeysEmpty(d: Distribution, axis: Axis)
    ensures MarksOverKeys([], d, axis) == 0
  {
    if d != [] {
      MarksOverKeysEmpty(d[1..], axis);
    }
  }

  /** When every item carries one of the keys, the marks per key add up to the marks of all. */
  lemma {:induction false} KeysPartitionMarks(s: seq<Candidate>, d: Distribution, axis: Axis)
    requires DistinctKeys(d)
    requires forall c :: c in s ==> Label(c, axis).Some? && Label(c, axis).value in Keys(d)
    ensures MarksOverKeys(s, d, axis) == TotalMarks(s)
  {
    if s == [] {
      MarksOverKeysEmpty(d, axis);
    } else {
      KeysPartitionMarks(s[1..], d, axis);
      OneKeyCounts(s[0], d, axis);
      assert s == [s[0]] + s[1..];
      MarksOverKeysAppend([s[0]], s[1..], d, axis);
    }
  }

  lemma {:induction false} TargetsReached(s: seq<Candidate>, d: Distribution, axis: Axis, total: int)
    requires forall k :: 0 <= k < |d| ==> MarksFor(s, Slot(axis, d[k].key)) >= Target(total, d[k].pct)
    ensures MarksOverKeys(s, d, axis) >= TargetSum(d, total)
  {
    if d != [] {
      assert forall k :: 0 <= k < |d| - 1 ==> d[1..][k] == d[k + 1];
      TargetsReached(s, d[1..], axis, total);
    }
  }

  lemma {:induction false} PctOfKey(d: Distribution, i: nat)
    requires DistinctKeys(d) && i < |d|
    ensures PctOf(d, d[i].key) == d[i].pct
  {
    if i > 0 {
      assert d[1..][i - 1] == d[i];
      PctOfKey(d[1..], i - 1);
    }
  }

  /** THE LOWER BOUND. A selection without shortfalls totals at least the asked share of the
      paper total, less half a hundredth of a mark per difficulty. When the percentages add
      up to 100 this is total_marks - 0.005 * (number of difficulties). */
  lemma SuccessIsAtLeast(pool: seq<Candidate>, diffs: Distribution, topics: Distribution, total: int,
                         excluded: set<nat>)
    requires ValidInput(pool, diffs, topics)
    requires Select(pool, diffs, topics, total, excluded).shortfalls == []
    ensures Select(pool, diffs, topics, total, excluded).marks as real
         >= Exact(total, PctSum(diffs)) - 0.5 * |diffs| as real
    ensures PctSum(diffs) == 100.0 ==>
         Select(pool, diffs, topics, total, excluded).marks as real >= total as real - 0.5 * |diffs| as real
  {
    var s := Select(pool, diffs, topics, total, excluded).items;
    SelectedFromEligible(pool, diffs, topics, total, excluded);
    KeysPartitionMarks(s, diffs, ByDifficulty);
    forall k | 0 <= k < |diffs|
      ensures MarksFor(s, Slot(ByDifficulty, diffs[k].key)) >= Target(total, diffs[k].pct)
    {
      AxisSlotsContain(diffs, ByDifficulty, diffs[k].key);
      PctOfKey(diffs, k);
      SuccessMeetsTargets(pool, diffs, topics, total, excluded, Slot(ByDifficulty, diffs[k].key));
    }
    TargetsReached(s, diffs, ByDifficulty, total);
    TargetSumError(diffs, total);
    WholeShare(total);
  }

  // ----- the upper bound -----

  /** How much a slot has absorbed: what was charged while it was needed, or its whole target
      plus one last item once it is met. */
  function Absorbed(target: int, left: int, largest: int): int {
    if left > 0 then target - left else if target > 0 then target + largest else 0
  }

  function AbsorbedBy(slots: seq<Slot>, targets: map<Slot, int>, left: map<Slot, int>, largest: int): int {
    if slots == [] then 0
    else Absorbed(Need(targets, slots[0]), Need(left, slots[0]), largest)
         + AbsorbedBy(slots[1..], targets, left, largest)
  }

  ghost predicate Between(left: map<Slot, int>, targets: map<Slot, int>) {
    forall slot: Slot :: 0 <= Need(left, slot) <= Need(targets, slot)
  }

  /** Charging an item to a slot that still needs something is absorbed by that slot. */
  lemma {:induction false} ChargeIsAbsorbed(slots: seq<Slot>, targets: map<Slot, int>, req: map<Slot, int>,
                                            b: Bucket, marks: int, largest: int, k: nat)
    requires Between(req, targets) && 0 <= marks <= largest
    requires k < |slots| && Need(req, slots[k]) > 0 && (slots[k] == DiffSlot(b) || slots[k] == TopicSlot(b))
    ensures AbsorbedBy(slots, targets, Charge(req, b, marks), largest)
         >= AbsorbedBy(slots, targets, req, largest) + marks
  {
    if k > 0 {
      assert slots[1..][k - 1] == slots[k];
      ChargeIsAbsorbed(slots[1..], targets, req, b, marks, largest, k - 1);
      assert 0 <= Need(req, slots[0]) <= Need(targets, slots[0]);
    } else {
      AbsorptionGrows(slots[1..], targets, req, b, marks, largest);
      assert 0 <= Need(req, slots[0]) <= Need(targets, slots[0]);
    }
  }

  lemma {:induction false} AbsorptionGrows(slots: seq<Slot>, targets: map<Slot, int>, req: map<Slot, int>,
                                           b: Bucket, marks: int, largest: int)
    requires Between(req, targets) && 0 <= marks <= largest
    ensures AbsorbedBy(slots, targets, Charge(req, b, marks), largest) >= AbsorbedBy(slots, targets, req, largest)
  {
    if slots != [] {
      AbsorptionGrows(slots[1..], targets, req, b, marks, largest);
      assert 0 <= Need(req, slots[0]) <= Need(targets, slots[0]);
    }
  }

  /** One greedy pick is absorbed: a chosen bucket has a slot that still needs something. */
  lemma PickIsAbsorbed(b: Bucket, c: Candidate, slots: seq<Slot>, targets: map<Slot, int>, req: map<Slot, int>,
                       largest: int)
    requires Sound(b, req.Keys) && c in b.items && Worth(c) <= largest && Score(b, req) > 0
    requires Between(req, targets) && forall slot :: slot in req ==> slot in slots
    ensures AbsorbedBy(slots, targets, Charge(req, b, Worth(c)), largest)
         >= AbsorbedBy(slots, targets, req, largest) + Worth(c)
    ensures Between(Charge(req, b, Worth(c)), targets)
    ensures Charge(req, b, Worth(c)).Keys == req.Keys
  {
    forall slot: Slot ensures 0 <= Need(Charge(req, b, Worth(c)), slot) <= Need(targets, slot) {
      assert 0 <= Need(req, slot) <= Need(targets, slot);
    }
    var needed := if Need(req, DiffSlot(b)) > 0 then DiffSlot(b) else TopicSlot(b);
    var k :| 0 <= k < |slots| && slots[k] == needed;
    ChargeIsAbsorbed(slots, targets, req, b, Worth(c), largest, k);
  }

  predicate Capped(s: seq<Candidate>, largest: int) {
    forall c :: c in s ==> Worth(c) <= largest
  }

  lemma CappedSubset(a: seq<Candidate>, b: seq<Candidate>, largest: int)
    requires Capped(b, largest) && multiset(a) <= multiset(b)
    ensures Capped(a, largest)
  {
    forall c | c in a ensures c in b {
      assert c in multiset(a);
    }
  }

  /** Over a whole run the marks taken are absorbed by the slots. */
  lemma {:induction false} RunIsAbsorbed(bs: seq<Bucket>, slots: seq<Slot>, targets: map<Slot, int>,
                                         req: map<Slot, int>, largest: int)
    requires AllSound(bs, req.Keys) && Between(req, targets)
    requires forall slot :: slot in req ==> slot in slots
    requires Capped(Flatten(bs), largest)
    ensures TotalMarks(Greedy(bs, req).items)
         <= AbsorbedBy(slots, targets, Greedy(bs, req).left, largest) - AbsorbedBy(slots, targets, req, largest)
    decreases |Flatten(bs)|
  {
    hide AbsorbedBy, Flatten, Between, Charge, PopFirst;
    var i := Best(bs, req).index;
    BestIsFirstMaximum(bs, req);
    if i != -1 {
      var c, after := bs[i].items[0], PopFirst(bs, i);
      PopFirstRemoves(bs, i);
      PopKeepsSound(bs, i, req.Keys);
      CappedSubset(Flatten(after), Flatten(bs), largest);
      assert c in multiset(Flatten(bs));
      assert Sound(bs[i], req.Keys);
      PickIsAbsorbed(bs[i], c, slots, targets, req, largest);
      RunIsAbsorbed(after, slots, targets, Charge(req, bs[i], Worth(c)), largest);
    }
  }

  /** The ceiling: each positive target, plus one largest item for each of them. */
  function Ceiling(slots: seq<Slot>, targets: map<Slot, int>, largest: int): int {
    if slots == [] then 0
    else (if Need(targets, slots[0]) > 0 then Need(targets, slots[0]) + largest else 0)
         + Ceiling(slots[1..], targets, largest)
  }

  lemma {:induction false} AbsorbedIsCapped(slots: seq<Slot>, targets: map<Slot, int>, left: map<Slot, int>,
                                            largest: int)
    requires largest >= 0
    ensures AbsorbedBy(slots, targets, left, largest) <= Ceiling(slots, targets, largest)
            || exists slot :: slot in slots && Need(left, slot) > 0 >= Need(targets, slot)
    ensures Between(targets, targets) ==> AbsorbedBy(slots, targets, targets, largest) == 0
  {
    if slots != [] {
      AbsorbedIsCapped(slots[1..], targets, left, largest);
      assert Between(targets, targets) ==> 0 <= Need(targets, slots[0]);
      if slot :| slot in slots[1..] && Need(left, slot) > 0 >= Need(targets, slot) {
        assert slot in slots;
      } else if Need(left, slots[0]) > 0 >= Need(targets, slots[0]) {
        assert slots[0] in slots;
      }
    }
  }

  /** THE UPPER BOUND. Whether or not it succeeds, a selection never totals more than the sum of
      all positive targets plus one largest item for each of them. */
  lemma SelectionIsAtMost(pool: seq<Candidate>, diffs: Distribution, topics: Distribution, total: int,
                          excluded: set<nat>, largest: int)
    requires ValidInput(pool, diffs, topics) && largest >= 0
    requires Capped(pool, largest)
    ensures Select(pool, diffs, topics, total, excluded).marks
         <= Ceiling(Slots(diffs, topics), Targets(diffs, topics, total), largest)
  {
    var targets := Targets(diffs, topics, total);
    var slots := Slots(diffs, topics);
    assert targets.Keys == SlotSet(diffs, topics);
    var bs := Buckets(pool, diffs, topics, excluded);
    StartOfRun(pool, diffs, topics, excluded);
    TargetsSign(diffs, topics, total);
    if total <= 0 {
      NothingAsked(bs, targets);
      AbsorbedIsCapped(slots, targets, targets, largest);
      CeilingNonNegative(slots, targets, largest);
    } else {
      EligibleFromPool(pool, |pool|, diffs, topics, excluded);
      CappedSubset(Flatten(bs), EligiblePool(pool, diffs, topics, excluded), largest);
      RunIsAbsorbed(bs, slots, targets, targets, largest);
      GreedyRun(bs, targets);
      SoundItems(bs, targets.Keys);
      var o := Greedy(bs, targets);
      AbsorbedIsCapped(slots, targets, o.left, largest);
      forall slot | slot in slots ensures Need(o.left, slot) <= Need(targets, slot) {
        MarksForBounds(o.items, slot);
      }
    }
  }

  lemma {:induction false} CeilingNonNegative(slots: seq<Slot>, targets: map<Slot, int>, largest: int)
    requires largest >= 0
    ensures Ceiling(slots, targets, largest) >= 0
  {
    if slots != [] {
      CeilingNonNegative(slots[1..], targets, largest);
    }
  }
}
