/** The greedy bucket selector of rule-based paper generation
    (`_select_items_for_constraints`). The loop is written as the service has it;
    `Greedy` states the run it makes, and the theorems are about that run. */
module Selector {
  import opened Wrappers
  import opened Decimals

  /** The columns of an item row that paper construction reads. */
  datatype Candidate = Candidate(
    id: nat,
    subject: Option<string>,
    difficulty: Option<string>,
    topic: Option<string>,
    marks: Option<int>,
    time: Option<int>)

  /** The two dictionaries of requirements, as the two kinds of key of one map. */
  datatype Axis = ByDifficulty | ByTopic

  datatype Slot = Slot(axis: Axis, key: string)

  datatype Bucket = Bucket(difficulty: string, topic: string, items: seq<Candidate>)

  /** One message about an under-represented difficulty or topic. */
  datatype Shortfall = Shortfall(slot: Slot, required: int, got: int)

  datatype Selection = Selection(items: seq<Candidate>, marks: int, shortfalls: seq<Shortfall>)

  function Label(c: Candidate, axis: Axis): Option<string> {
    if axis.ByDifficulty? then c.difficulty else c.topic
  }

  predicate Filled(tag: Option<string>) {
    tag.Some? && tag.value != ""
  }

  function Worth(c: Candidate): int {
    if c.marks.Some? then c.marks.value else 0
  }

  function TotalMarks(s: seq<Candidate>): int {
    if s == [] then 0 else Worth(s[0]) + TotalMarks(s[1..])
  }

  /** The marks that the items of `s` carry for one difficulty or one topic. */
  function MarksFor(s: seq<Candidate>, slot: Slot): int {
    if s == [] then 0
    else (if Label(s[0], slot.axis) == Some(slot.key) then Worth(s[0]) else 0) + MarksFor(s[1..], slot)
  }

  predicate NonNegativeMarks(s: seq<Candidate>) {
    forall c :: c in s ==> Worth(c) >= 0
  }

  predicate Eligible(c: Candidate, diffs: Distribution, topics: Distribution, excluded: set<nat>) {
    && c.id !in excluded
    && Filled(c.difficulty) && Filled(c.topic) && c.marks.Some?
    && c.difficulty.value in Keys(diffs) && c.topic.value in Keys(topics)
  }

  /** The items of the pool that the selector considers at all. */
  function EligiblePool(pool: seq<Candidate>, diffs: Distribution, topics: Distribution,
                        excluded: set<nat>): seq<Candidate>
  {
    EligibleUpTo(pool, |pool|, diffs, topics, excluded)
  }

  function EligibleUpTo(pool: seq<Candidate>, n: nat, diffs: Distribution, topics: Distribution,
                        excluded: set<nat>): seq<Candidate>
    requires n <= |pool|
  {
    if n == 0 then []
    else
      EligibleUpTo(pool, n - 1, diffs, topics, excluded)
      + if Eligible(pool[n - 1], diffs, topics, excluded) then [pool[n - 1]] else []
  }

  // ----- buckets: the (difficulty, topic) dictionary in insertion order -----

  predicate Holds(b: Bucket, c: Candidate) {
    c.difficulty == Some(b.difficulty) && c.topic == Some(b.topic)
  }

  function Deposit(bs: seq<Bucket>, c: Candidate): seq<Bucket>
    requires c.difficulty.Some? && c.topic.Some?
  {
    if bs == [] then [Bucket(c.difficulty.value, c.topic.value, [c])]
    else if Holds(bs[0], c) then [bs[0].(items := bs[0].items + [c])] + bs[1..]
    else [bs[0]] + Deposit(bs[1..], c)
  }

  /** The dictionary after the first `n` items of the pool. */
  function Fill(pool: seq<Candidate>, n: nat, diffs: Distribution, topics: Distribution,
                excluded: set<nat>): seq<Bucket>
    requires n <= |pool|
  {
    if n == 0 then []
    else
      var bs := Fill(pool, n - 1, diffs, topics, excluded);
      if Eligible(pool[n - 1], diffs, topics, excluded) then Deposit(bs, pool[n - 1]) else bs
  }

  /** `sort(key=marks, reverse=True)`: stable, so among equal marks the earlier item stays first. */
  function InsertByMarks(c: Candidate, s: seq<Candidate>): (r: seq<Candidate>)
    ensures multiset(r) == multiset{c} + multiset(s)
  {
    if s == [] || Worth(s[0]) <= Worth(c) then
      assert [c] + s == [c] + s;
      [c] + s
    else
      assert s == [s[0]] + s[1..];
      [s[0]] + InsertByMarks(c, s[1..])
  }

  function SortByMarks(s: seq<Candidate>): (r: seq<Candidate>)
    ensures multiset(r) == multiset(s)
  {
    if s == [] then []
    else
      assert s == [s[0]] + s[1..];
      InsertByMarks(s[0], SortByMarks(s[1..]))
  }

  predicate Descending(s: seq<Candidate>) {
    forall i, j :: 0 <= i < j < |s| ==> Worth(s[i]) >= Worth(s[j])
  }

  lemma {:induction false} InsertKeepsDescending(c: Candidate, s: seq<Candidate>)
    requires Descending(s)
    ensures Descending(InsertByMarks(c, s))
  {
    if s == [] || Worth(s[0]) <= Worth(c) {
    } else {
      InsertKeepsDescending(c, s[1..]);
      var r := InsertByMarks(c, s[1..]);
      forall k | 0 <= k < |r| ensures Worth(s[0]) >= Worth(r[k]) {
        assert r[k] in multiset(r);
        assert r[k] == c || r[k] in s[1..];
      }
    }
  }

  /** Each bucket offers its most valuable item first. */
  lemma {:induction false} SortIsDescending(s: seq<Candidate>)
    ensures Descending(SortByMarks(s))
  {
    if s != [] {
      SortIsDescending(s[1..]);
      InsertKeepsDescending(s[0], SortByMarks(s[1..]));
    }
  }

  function SortBuckets(bs: seq<Bucket>): seq<Bucket> {
    if bs == [] then [] else [bs[0].(items := SortByMarks(bs[0].items))] + SortBuckets(bs[1..])
  }

  function Flatten(bs: seq<Bucket>): seq<Candidate> {
    if bs == [] then [] else bs[0].items + Flatten(bs[1..])
  }

  /** Every item of the bucket belongs to it and is worth something or nothing, and the
      bucket's difficulty and topic are both among the requirements. */
  predicate Sound(b: Bucket, slots: set<Slot>) {
    && DiffSlot(b) in slots && TopicSlot(b) in slots
    && forall c :: c in b.items ==> Holds(b, c) && Worth(c) >= 0
  }

  predicate AllSound(bs: seq<Bucket>, slots: set<Slot>) {
    forall b :: b in bs ==> Sound(b, slots)
  }

  lemma {:induction false} DepositAdds(bs: seq<Bucket>, c: Candidate, slots: set<Slot>)
    requires c.difficulty.Some? && c.topic.Some? && Worth(c) >= 0
    requires Slot(ByDifficulty, c.difficulty.value) in slots && Slot(ByTopic, c.topic.value) in slots
    requires AllSound(bs, slots)
    ensures multiset(Flatten(Deposit(bs, c))) == multiset(Flatten(bs)) + multiset{c}
    ensures AllSound(Deposit(bs, c), slots)
  {
    hide Sound, Flatten;
    if bs == [] {
      var b := Bucket(c.difficulty.value, c.topic.value, [c]);
      FlattenCons(b, []);
      FlattenNone();
      assert Deposit(bs, c) == [b] + [];
      FreshBucketSound(b, c, slots);
    } else if Holds(bs[0], c) {
      var b := bs[0].(items := bs[0].items + [c]);
      FlattenCons(b, bs[1..]);
      FlattenCons(bs[0], bs[1..]);
      assert bs == [bs[0]] + bs[1..];
      FullerBucketSound(bs[0], c, slots);
    } else {
      var rest := Deposit(bs[1..], c);
      DepositAdds(bs[1..], c, slots);
      FlattenCons(bs[0], rest);
      FlattenCons(bs[0], bs[1..]);
      assert bs == [bs[0]] + bs[1..];
    }
  }

  lemma FlattenCons(b: Bucket, rest: seq<Bucket>)
    ensures Flatten([b] + rest) == b.items + Flatten(rest)
  {
    assert ([b] + rest)[1..] == rest;
  }

  lemma FlattenNone()
    ensures Flatten([]) == []
  {
  }

  lemma FreshBucketSound(b: Bucket, c: Candidate, slots: set<Slot>)
    requires b.items == [c] && Holds(b, c) && Worth(c) >= 0 && DiffSlot(b) in slots && TopicSlot(b) in slots
    ensures Sound(b, slots)
  {
  }

  lemma FullerBucketSound(b: Bucket, c: Candidate, slots: set<Slot>)
    requires Sound(b, slots) && Holds(b, c) && Worth(c) >= 0
    ensures Sound(b.(items := b.items + [c]), slots)
  {
  }

  /** One more item of the pool goes into its bucket, or is passed over. */
  lemma FillOne(pool: seq<Candidate>, n: nat, diffs: Distribution, topics: Distribution, excluded: set<nat>)
    requires 0 < n <= |pool|
    ensures var c := pool[n - 1];
            if Eligible(c, diffs, topics, excluded) then
              && Fill(pool, n, diffs, topics, excluded) == Deposit(Fill(pool, n - 1, diffs, topics, excluded), c)
              && EligibleUpTo(pool, n, diffs, topics, excluded)
                 == EligibleUpTo(pool, n - 1, diffs, topics, excluded) + [c]
            else
              && Fill(pool, n, diffs, topics, excluded) == Fill(pool, n - 1, diffs, topics, excluded)
              && EligibleUpTo(pool, n, diffs, topics, excluded) == EligibleUpTo(pool, n - 1, diffs, topics, excluded)
  {
  }

  lemma NothingFilled(pool: seq<Candidate>, diffs: Distribution, topics: Distribution, excluded: set<nat>)
    ensures Fill(pool, 0, diffs, topics, excluded) == [] && EligibleUpTo(pool, 0, diffs, topics, excluded) == []
    ensures Flatten([]) == []
  {
  }

  lemma EligibleSlots(c: Candidate, diffs: Distribution, topics: Distribution, excluded: set<nat>)
    requires Eligible(c, diffs, topics, excluded)
    ensures Slot(ByDifficulty, c.difficulty.value) in SlotSet(diffs, topics)
    ensures Slot(ByTopic, c.topic.value) in SlotSet(diffs, topics)
  {
    KeysAreSlots(diffs, topics, c.difficulty.value, c.topic.value);
  }

  lemma {:induction false} FillHoldsPool(pool: seq<Candidate>, n: nat, diffs: Distribution, topics: Distribution,
                                         excluded: set<nat>)
    requires NonNegativeMarks(pool) && n <= |pool|
    ensures multiset(Flatten(Fill(pool, n, diffs, topics, excluded)))
         == multiset(EligibleUpTo(pool, n, diffs, topics, excluded))
    ensures AllSound(Fill(pool, n, diffs, topics, excluded), SlotSet(diffs, topics))
  {
    hide Fill, EligibleUpTo, Flatten, SlotSet, Deposit, Sound;
    NothingFilled(pool, diffs, topics, excluded);
    if n > 0 {
      var c := pool[n - 1];
      FillHoldsPool(pool, n - 1, diffs, topics, excluded);
      FillOne(pool, n, diffs, topics, excluded);
      if Eligible(c, diffs, topics, excluded) {
        assert c in pool;
        EligibleSlots(c, diffs, topics, excluded);
        DepositAdds(Fill(pool, n - 1, diffs, topics, excluded), c, SlotSet(diffs, topics));
      }
    }
  }

  lemma SortKeepsSound(b: Bucket, slots: set<Slot>)
    requires Sound(b, slots)
    ensures Sound(b.(items := SortByMarks(b.items)), slots)
  {
    var r := SortByMarks(b.items);
    forall c | c in r ensures c in b.items {
      assert c in multiset(r);
    }
  }

  lemma {:induction false} SortBucketsKeeps(bs: seq<Bucket>, slots: set<Slot>)
    requires AllSound(bs, slots)
    ensures multiset(Flatten(SortBuckets(bs))) == multiset(Flatten(bs))
    ensures AllSound(SortBuckets(bs), slots)
  {
    if bs != [] {
      assert AllSound(bs[1..], slots);
      SortBucketsKeeps(bs[1..], slots);
      SortKeepsSound(bs[0], slots);
      assert SortBuckets(bs)[1..] == SortBuckets(bs[1..]);
    }
  }

  // ----- the greedy run -----

  function Need(req: map<Slot, int>, slot: Slot): int {
    if slot in req then req[slot] else 0
  }

  function DiffSlot(b: Bucket): Slot { Slot(ByDifficulty, b.difficulty) }

  function TopicSlot(b: Bucket): Slot { Slot(ByTopic, b.topic) }

  function Score(b: Bucket, req: map<Slot, int>): int {
    Need(req, DiffSlot(b)) + Need(req, TopicSlot(b))
  }

  datatype Pick = Pick(index: int, score: int)

  /** One scan over the first `n` buckets: the chosen index (-1 for none) and its score. */
  function BestUpTo(bs: seq<Bucket>, n: nat, req: map<Slot, int>): Pick
    requires n <= |bs|
  {
    if n == 0 then Pick(-1, 0)
    else
      var p := BestUpTo(bs, n - 1, req);
      var b := bs[n - 1];
      if b.items != [] && Score(b, req) > p.score then Pick(n - 1, Score(b, req)) else p
  }

  function Best(bs: seq<Bucket>, req: map<Slot, int>): Pick {
    BestUpTo(bs, |bs|, req)
  }

  /** The scan stops with nothing exactly when no non-empty bucket is still needed;
      otherwise it returns the first of the non-empty buckets with the highest score. */
  predicate FirstMaximum(bs: seq<Bucket>, n: nat, req: map<Slot, int>, p: Pick)
    requires n <= |bs|
  {
    if p.index == -1 then
      p.score == 0 && forall i :: 0 <= i < n && bs[i].items != [] ==> Score(bs[i], req) <= 0
    else
      && 0 <= p.index < n && bs[p.index].items != [] && p.score == Score(bs[p.index], req) > 0
      && (forall i :: 0 <= i < n && bs[i].items != [] ==> Score(bs[i], req) <= p.score)
      && (forall i :: 0 <= i < p.index && bs[i].items != [] ==> Score(bs[i], req) < p.score)
  }

  lemma {:induction false} ScanFindsMaximum(bs: seq<Bucket>, n: nat, req: map<Slot, int>)
    requires n <= |bs|
    ensures FirstMaximum(bs, n, req, BestUpTo(bs, n, req))
  {
    if n > 0 {
      ScanFindsMaximum(bs, n - 1, req);
    }
  }

  lemma BestIsFirstMaximum(bs: seq<Bucket>, req: map<Slot, int>)
    ensures FirstMaximum(bs, |bs|, req, Best(bs, req))
  {
    ScanFindsMaximum(bs, |bs|, req);
  }

  function Max0(x: int): int { if x > 0 then x else 0 }

  /** Taking an item lowers what its difficulty and its topic still need, never below zero. */
  function Charge(req: map<Slot, int>, b: Bucket, marks: int): map<Slot, int> {
    req[DiffSlot(b) := Max0(Need(req, DiffSlot(b)) - marks)]
       [TopicSlot(b) := Max0(Need(req, TopicSlot(b)) - marks)]
  }

  function PopFirst(bs: seq<Bucket>, i: int): seq<Bucket>
    requires 0 <= i < |bs| && bs[i].items != []
  {
    bs[i := bs[i].(items := bs[i].items[1..])]
  }

  lemma {:induction false} FlattenSplit(bs: seq<Bucket>, i: int)
    requires 0 <= i < |bs|
    ensures Flatten(bs) == Flatten(bs[..i]) + bs[i].items + Flatten(bs[i + 1..])
  {
    hide Flatten;
    FlattenNone();
    FlattenCons(bs[0], bs[1..]);
    assert bs == [bs[0]] + bs[1..];
    if i == 0 {
      assert bs[..0] == [];
    } else {
      FlattenSplit(bs[1..], i - 1);
      FlattenCons(bs[0], bs[1..i]);
      assert bs[..i] == [bs[0]] + bs[1..i];
      assert bs[1..][..i - 1] == bs[1..i] && bs[1..][i..] == bs[i + 1..];
    }
  }

  lemma PopFirstRemoves(bs: seq<Bucket>, i: int)
    requires 0 <= i < |bs| && bs[i].items != []
    ensures multiset(Flatten(bs)) == multiset{bs[i].items[0]} + multiset(Flatten(PopFirst(bs, i)))
    ensures |Flatten(PopFirst(bs, i))| < |Flatten(bs)|
  {
    var after := PopFirst(bs, i);
    FlattenSplit(bs, i);
    FlattenSplit(after, i);
    assert after[..i] == bs[..i] && after[i + 1..] == bs[i + 1..];
    assert bs[i].items == [bs[i].items[0]] + bs[i].items[1..];
  }

  datatype Outcome = Outcome(items: seq<Candidate>, left: map<Slot, int>, rest: seq<Bucket>)

  /** The whole run from given buckets and requirements: the items in pick order,
      what is still required, and what is left in the buckets. */
  function Greedy(bs: seq<Bucket>, req: map<Slot, int>): Outcome
    decreases |Flatten(bs)|
  {
    var p := Best(bs, req);
    BestIsFirstMaximum(bs, req);
    if p.index == -1 then Outcome([], req, bs)
    else
      var b := bs[p.index];
      PopFirstRemoves(bs, p.index);
      var o := Greedy(PopFirst(bs, p.index), Charge(req, b, Worth(b.items[0])));
      o.(items := [b.items[0]] + o.items)
  }

  /** One unfolding of the run, seen from a loop that has already picked `done`. */
  lemma NextPick(bs: seq<Bucket>, req: map<Slot, int>, i: int, done: seq<Candidate>)
    requires i == Best(bs, req).index != -1
    requires 0 <= i < |bs| && bs[i].items != []
    ensures var o := Greedy(PopFirst(bs, i), Charge(req, bs[i], Worth(bs[i].items[0])));
            && Greedy(bs, req).left == o.left
            && done + Greedy(bs, req).items == (done + [bs[i].items[0]]) + o.items
  {
    var o := Greedy(PopFirst(bs, i), Charge(req, bs[i], Worth(bs[i].items[0])));
    var g := Greedy(bs, req);
    assert g.items == [bs[i].items[0]] + o.items;
  }

  function AxisSlots(d: Distribution, axis: Axis): seq<Slot> {
    if d == [] then [] else [Slot(axis, d[0].key)] + AxisSlots(d[1..], axis)
  }

  lemma {:induction false} AxisSlotsContain(d: Distribution, axis: Axis, key: string)
    requires key in Keys(d)
    ensures Slot(axis, key) in AxisSlots(d, axis)
  {
    var i :| 0 <= i < |d| && d[i].key == key;
    if i > 0 {
      assert d[1..][i - 1].key == key;
      AxisSlotsContain(d[1..], axis, key);
    }
  }

  function Slots(diffs: Distribution, topics: Distribution): seq<Slot> {
    AxisSlots(diffs, ByDifficulty) + AxisSlots(topics, ByTopic)
  }

  function PctOf(d: Distribution, key: string): real {
    if d == [] then 0.0 else if d[0].key == key then d[0].pct else PctOf(d[1..], key)
  }

  function SlotTarget(slot: Slot, diffs: Distribution, topics: Distribution, total: int): int {
    Target(total, PctOf(if slot.axis.ByDifficulty? then diffs else topics, slot.key))
  }

  function Targets(diffs: Distribution, topics: Distribution, total: int): map<Slot, int> {
    TargetsOf(Slots(diffs, topics), diffs, topics, total)
  }

  function TargetsOf(slots: seq<Slot>, diffs: Distribution, topics: Distribution, total: int): (t: map<Slot, int>)
    ensures forall slot :: slot in t <==> slot in slots
    ensures forall slot :: slot in t ==> t[slot] == SlotTarget(slot, diffs, topics, total)
  {
    if slots == [] then map[]
    else TargetsOf(slots[1..], diffs, topics, total)[slots[0] := SlotTarget(slots[0], diffs, topics, total)]
  }

  /** The messages, in the order of the two dictionaries, difficulties first. */
  function Shortfalls(slots: seq<Slot>, n: nat, left: map<Slot, int>, targets: map<Slot, int>): seq<Shortfall>
    requires n <= |slots|
  {
    if n == 0 then []
    else
      var s := slots[n - 1];
      Shortfalls(slots, n - 1, left, targets)
      + if Need(left, s) > 0 then [Shortfall(s, Need(targets, s), Need(targets, s) - Need(left, s))] else []
  }

  function Errors(slots: seq<Slot>, left: map<Slot, int>, targets: map<Slot, int>): seq<Shortfall> {
    Shortfalls(slots, |slots|, left, targets)
  }

  function Buckets(pool: seq<Candidate>, diffs: Distribution, topics: Distribution, excluded: set<nat>): seq<Bucket> {
    SortBuckets(Fill(pool, |pool|, diffs, topics, excluded))
  }

  function Select(pool: seq<Candidate>, diffs: Distribution, topics: Distribution, total: int,
                  excluded: set<nat>): Selection
  {
    var targets := Targets(diffs, topics, total);
    var o := Greedy(Buckets(pool, diffs, topics, excluded), targets);
    Selection(o.items, TotalMarks(o.items), Errors(Slots(diffs, topics), o.left, targets))
  }

  method FillBuckets(pool: seq<Candidate>, diffs: Distribution, topics: Distribution, excluded: set<nat>)
    returns (buckets: seq<Bucket>)
    ensures buckets == Fill(pool, |pool|, diffs, topics, excluded)
  {
    buckets := [];
    for i := 0 to |pool|
      invariant buckets == Fill(pool, i, diffs, topics, excluded)
    {
      if Eligible(pool[i], diffs, topics, excluded) {
        buckets := Deposit(buckets, pool[i]);
      }
    }
  }

  method BestBucket(buckets: seq<Bucket>, required: map<Slot, int>) returns (best: int, bestScore: int)
    ensures Pick(best, bestScore) == Best(buckets, required)
  {
    best, bestScore := -1, 0;
    for i := 0 to |buckets|
      invariant Pick(best, bestScore) == BestUpTo(buckets, i, required)
    {
      if buckets[i].items != [] {
        var score := Score(buckets[i], required);
        if score > bestScore {
          best, bestScore := i, score;
        }
      }
    }
  }

  method CollectErrors(slots: seq<Slot>, required: map<Slot, int>, targets: map<Slot, int>)
    returns (errors: seq<Shortfall>)
    ensures errors == Errors(slots, required, targets)
  {
    errors := [];
    for i := 0 to |slots|
      invariant errors == Shortfalls(slots, i, required, targets)
    {
      var remaining := Need(required, slots[i]);
      if remaining > 0 {
        errors := errors + [Shortfall(slots[i], Need(targets, slots[i]), Need(targets, slots[i]) - remaining)];
      }
    }
  }

  /** What the loop keeps: each requirement is max(0, target - marks selected so far for it), and no
      item of the buckets is lost. */
  predicate InHand(start: seq<Bucket>, targets: map<Slot, int>, buckets: seq<Bucket>, selected: seq<Candidate>,
                   required: map<Slot, int>)
  {
    && AllSound(buckets, targets.Keys) && NonNegative(required)
    && Satisfied(targets, selected, required)
    && multiset(selected) + multiset(Flatten(buckets)) == multiset(Flatten(start))
  }

  lemma NothingInHand(start: seq<Bucket>, targets: map<Slot, int>)
    requires AllSound(start, targets.Keys) && NonNegative(targets)
    ensures InHand(start, targets, start, [], targets)
  {
    NothingTaken(targets);
  }

  lemma OneMoreInHand(start: seq<Bucket>, targets: map<Slot, int>, buckets: seq<Bucket>, selected: seq<Candidate>,
                      required: map<Slot, int>, i: int)
    requires InHand(start, targets, buckets, selected, required)
    requires 0 <= i < |buckets| && buckets[i].items != []
    ensures var c := buckets[i].items[0];
            InHand(start, targets, PopFirst(buckets, i), selected + [c], Charge(required, buckets[i], Worth(c)))
  {
    var b := buckets[i];
    var c := b.items[0];
    assert Sound(b, targets.Keys);
    PopFirstRemoves(buckets, i);
    PopKeepsSound(buckets, i, targets.Keys);
    ChargeIsExact(b, c, required);
    SatisfiedTwice(targets, selected, required, [c], Charge(required, b, Worth(c)));
    hide Flatten, PopFirst, Charge, MarksFor;
  }

  /** The `while True` loop: keep taking the top item of the best bucket until none helps. */
  method TakeGreedily(start: seq<Bucket>, targets: map<Slot, int>)
    returns (selected: seq<Candidate>, marks: int, required: map<Slot, int>)
    ensures selected == Greedy(start, targets).items
    ensures required == Greedy(start, targets).left
    ensures marks == TotalMarks(selected)
  {
    hide InHand, NonNegative, AllSound, Charge, PopFirst;
    var buckets := start;
    required := targets;
    selected, marks := [], 0;
    if AllSound(start, targets.Keys) && NonNegative(targets) {
      NothingInHand(start, targets);
    }
    while true
      invariant marks == TotalMarks(selected)
      invariant Greedy(start, targets).left == Greedy(buckets, required).left
      invariant Greedy(start, targets).items == selected + Greedy(buckets, required).items
      invariant AllSound(start, targets.Keys) && NonNegative(targets) ==>
        InHand(start, targets, buckets, selected, required)
      decreases |Flatten(buckets)|
    {
      var best, bestScore := BestBucket(buckets, required);
      BestIsFirstMaximum(buckets, required);
      if best == -1 || bestScore <= 0 {
        break;
      }
      var item := buckets[best].items[0];
      PopFirstRemoves(buckets, best);
      TotalMarksAppend(selected, [item]);
      NextPick(buckets, required, best, selected);
      if AllSound(start, targets.Keys) && NonNegative(targets) {
        OneMoreInHand(start, targets, buckets, selected, required, best);
      }
      selected := selected + [item];
      marks := marks + Worth(item);
      required := Charge(required, buckets[best], Worth(item));
      buckets := PopFirst(buckets, best);
    }
  }

  /** The selector as the service runs it. */
  method SelectItemsForConstraints(pool: seq<Candidate>, diffs: Distribution, topics: Distribution, total: int,
                                   excluded: set<nat>)
    returns (r: Selection)
    ensures r == Select(pool, diffs, topics, total, excluded)
  {
    var buckets := FillBuckets(pool, diffs, topics, excluded);
    var targets := Targets(diffs, topics, total);
    var selected, marks, required := TakeGreedily(SortBuckets(buckets), targets);
    var errors := CollectErrors(Slots(diffs, topics), required, targets);
    r := Selection(selected, marks, errors);
  }

  // ----- sums do not depend on order -----

  lemma {:induction false} TotalMarksAppend(a: seq<Candidate>, b: seq<Candidate>)
    ensures TotalMarks(a + b) == TotalMarks(a) + TotalMarks(b)
  {
    if a == [] {
      assert a + b == b;
    } else {
      TotalMarksAppend(a[1..], b);
      assert (a + b)[1..] == a[1..] + b;
    }
  }

  lemma {:induction false} MarksForAppend(a: seq<Candidate>, b: seq<Candidate>, slot: Slot)
    ensures MarksFor(a + b, slot) == MarksFor(a, slot) + MarksFor(b, slot)
  {
    if a == [] {
      assert a + b == b;
    } else {
      MarksForAppend(a[1..], b, slot);
      assert (a + b)[1..] == a[1..] + b;
    }
  }

  lemma MarksForWithout(s: seq<Candidate>, i: nat, slot: Slot)
    requires i < |s|
    ensures MarksFor(s, slot) == MarksFor([s[i]], slot) + MarksFor(Without(s, i), slot)
  {
    assert s == s[..i] + ([s[i]] + s[i + 1..]);
    MarksForAppend(s[..i], [s[i]] + s[i + 1..], slot);
    MarksForAppend([s[i]], s[i + 1..], slot);
    MarksForAppend(s[..i], s[i + 1..], slot);
  }

  lemma {:induction false} MarksForPermuted(a: seq<Candidate>, b: seq<Candidate>, slot: Slot)
    requires multiset(a) == multiset(b)
    ensures MarksFor(a, slot) == MarksFor(b, slot)
  {
    if a == [] {
      assert |multiset(b)| == 0;
    } else {
      assert a[0] in multiset(a);
      var i :| 0 <= i < |b| && b[i] == a[0];
      WithoutContents(a, 0);
      WithoutContents(b, i);
      MarksForWithout(a, 0, slot);
      MarksForWithout(b, i, slot);
      MarksForPermuted(Without(a, 0), Without(b, i), slot);
    }
  }

  lemma {:induction false} MarksForBounds(s: seq<Candidate>, slot: Slot)
    requires NonNegativeMarks(s)
    ensures 0 <= MarksFor(s, slot)
  {
    if s != [] {
      assert s[0] in s;
      MarksForBounds(s[1..], slot);
    }
  }

  // ----- what a run keeps -----

  predicate NonNegative(req: map<Slot, int>) {
    forall slot :: slot in req ==> req[slot] >= 0
  }

  lemma {:induction false} SoundItems(bs: seq<Bucket>, slots: set<Slot>)
    requires AllSound(bs, slots)
    ensures NonNegativeMarks(Flatten(bs))
  {
    if bs != [] {
      assert Sound(bs[0], slots);
      SoundItems(bs[1..], slots);
    }
  }

  lemma PopKeepsSound(bs: seq<Bucket>, i: int, slots: set<Slot>)
    requires 0 <= i < |bs| && bs[i].items != [] && AllSound(bs, slots)
    ensures AllSound(PopFirst(bs, i), slots)
  {
    assert Sound(bs[i], slots);
    var after := PopFirst(bs, i);
    assert forall c :: c in bs[i].items[1..] ==> c in bs[i].items;
    assert Sound(after[i], slots);
    forall b | b in after ensures Sound(b, slots) {
      var j :| 0 <= j < |after| && after[j] == b;
      assert j != i ==> after[j] == bs[j];
    }
  }

  /** What one pick does to the requirements: each slot of the item loses its marks, down to zero. */
  lemma ChargeIsExact(b: Bucket, c: Candidate, req: map<Slot, int>)
    requires Sound(b, req.Keys) && c in b.items && NonNegative(req)
    ensures var charged := Charge(req, b, Worth(c));
            NonNegative(charged) && Satisfied(req, [c], charged)
  {
    var charged := Charge(req, b, Worth(c));
    forall slot | slot in req
      ensures slot in charged && charged[slot] == Max0(req[slot] - MarksFor([c], slot))
    {
      assert MarksFor([c], slot) == if slot == DiffSlot(b) || slot == TopicSlot(b) then Worth(c) else 0;
    }
  }

  predicate RunSummary(bs: seq<Bucket>, req: map<Slot, int>, o: Outcome) {
    && Best(o.rest, o.left).index == -1
    && multiset(o.items) + multiset(Flatten(o.rest)) == multiset(Flatten(bs))
    && AllSound(o.rest, req.Keys)
    && NonNegativeMarks(o.items)
    && Satisfied(req, o.items, o.left)
  }

  /** Each requirement is max(0, start - marks selected for it). */
  predicate Satisfied(req: map<Slot, int>, items: seq<Candidate>, left: map<Slot, int>) {
    && left.Keys == req.Keys
    && forall slot :: slot in req ==> left[slot] == Max0(req[slot] - MarksFor(items, slot))
  }

  /** The run invariant at the end of any run: it stopped because nothing helps, no item was
      lost or invented, and each requirement is max(0, start - marks selected for it). */
  lemma {:induction false} GreedyRun(bs: seq<Bucket>, req: map<Slot, int>)
    requires AllSound(bs, req.Keys) && NonNegative(req)
    ensures RunSummary(bs, req, Greedy(bs, req))
    decreases |Flatten(bs)|
  {
    var p := Best(bs, req);
    BestIsFirstMaximum(bs, req);
    if p.index != -1 {
      var b := bs[p.index];
      var c := b.items[0];
      assert Sound(b, req.Keys);
      PopFirstRemoves(bs, p.index);
      PopKeepsSound(bs, p.index, req.Keys);
      ChargeIsExact(b, c, req);
      var after, charged := PopFirst(bs, p.index), Charge(req, b, Worth(c));
      GreedyRun(after, charged);
      OnePickMore(bs, after, req, charged, c, Greedy(after, charged));
    }
  }

  lemma OnePickMore(bs: seq<Bucket>, after: seq<Bucket>, req: map<Slot, int>, charged: map<Slot, int>,
                    c: Candidate, o: Outcome)
    requires multiset(Flatten(bs)) == multiset{c} + multiset(Flatten(after))
    requires Satisfied(req, [c], charged) && Worth(c) >= 0
    requires RunSummary(after, charged, o)
    ensures RunSummary(bs, req, o.(items := [c] + o.items))
  {
    SatisfiedTwice(req, [c], charged, o.items, o.left);
  }

  lemma SatisfiedTwice(req: map<Slot, int>, taken: seq<Candidate>, charged: map<Slot, int>, items: seq<Candidate>,
                       left: map<Slot, int>)
    requires Satisfied(req, taken, charged) && Satisfied(charged, items, left)
    requires NonNegativeMarks(items)
    ensures Satisfied(req, taken + items, left)
  {
    forall slot | slot in req
      ensures left[slot] == Max0(req[slot] - MarksFor(taken + items, slot))
    {
      MarksForAppend(taken, items, slot);
      MarksForBounds(items, slot);
    }
  }

  // ----- every prefix of a run -----

  /** The loop's variables: the buckets, what is still required, and the items selected so far. */
  datatype Loop = Loop(buckets: seq<Bucket>, required: map<Slot, int>, selected: seq<Candidate>)

  /** One iteration: take the top item of the best bucket, or stop. */
  function OnePick(l: Loop): Loop {
    var i := Best(l.buckets, l.required).index;
    BestIsFirstMaximum(l.buckets, l.required);
    if i == -1 then l
    else
      var c := l.buckets[i].items[0];
      Loop(PopFirst(l.buckets, i), Charge(l.required, l.buckets[i], Worth(c)), l.selected + [c])
  }

  function LoopAfter(bs: seq<Bucket>, req: map<Slot, int>, k: nat): Loop {
    if k == 0 then Loop(bs, req, []) else OnePick(LoopAfter(bs, req, k - 1))
  }

  /** The rest of the run from here completes the whole run. */
  predicate OnTrack(bs: seq<Bucket>, req: map<Slot, int>, l: Loop) {
    && l.selected + Greedy(l.buckets, l.required).items == Greedy(bs, req).items
    && Greedy(l.buckets, l.required).left == Greedy(bs, req).left
  }

  /** EVERY ITERATION. After any number of iterations each requirement equals max(0, target - marks
      selected so far for it), no bucket item is lost, and the selected items are a prefix of the
      final selection. */
  lemma {:induction false} EveryPickKeeps(bs: seq<Bucket>, req: map<Slot, int>, k: nat)
    requires AllSound(bs, req.Keys) && NonNegative(req)
    ensures var l := LoopAfter(bs, req, k);
            InHand(bs, req, l.buckets, l.selected, l.required) && OnTrack(bs, req, l)
  {
    hide InHand, OnTrack, OnePick, Greedy, AllSound;
    if k == 0 {
      NothingInHand(bs, req);
      StartsOnTrack(bs, req);
    } else {
      EveryPickKeeps(bs, req, k - 1);
      var l := LoopAfter(bs, req, k - 1);
      PickStaysOnTrack(bs, req, l);
      PickKeepsInHand(bs, req, l);
    }
  }

  lemma StartsOnTrack(bs: seq<Bucket>, req: map<Slot, int>)
    ensures OnTrack(bs, req, Loop(bs, req, []))
  {
    assert [] + Greedy(bs, req).items == Greedy(bs, req).items;
  }

  lemma PickStaysOnTrack(bs: seq<Bucket>, req: map<Slot, int>, l: Loop)
    requires OnTrack(bs, req, l)
    ensures OnTrack(bs, req, OnePick(l))
  {
    hide Greedy, PopFirst, Charge;
    var i := Best(l.buckets, l.required).index;
    BestIsFirstMaximum(l.buckets, l.required);
    if i != -1 {
      NextPick(l.buckets, l.required, i, l.selected);
    }
  }

  lemma PickKeepsInHand(bs: seq<Bucket>, req: map<Slot, int>, l: Loop)
    requires InHand(bs, req, l.buckets, l.selected, l.required)
    ensures var n := OnePick(l); InHand(bs, req, n.buckets, n.selected, n.required)
  {
    hide InHand, PopFirst, Charge;
    var i := Best(l.buckets, l.required).index;
    BestIsFirstMaximum(l.buckets, l.required);
    if i != -1 {
      OneMoreInHand(bs, req, l.buckets, l.selected, l.required, i);
    }
  }

  lemma NothingTaken(req: map<Slot, int>)
    requires NonNegative(req)
    ensures Satisfied(req, [], req)
  {
  }

  // ----- the exact verdict -----

  predicate NonNegativeShares(d: Distribution) {
    forall s :: s in d ==> s.pct >= 0.0
  }

  /** The demands of the request serializer (distinct dictionary keys, no negative percentage)
      and of the item serializer (no negative marks). */
  predicate ValidInput(pool: seq<Candidate>, diffs: Distribution, topics: Distribution) {
    && DistinctKeys(diffs) && DistinctKeys(topics)
    && NonNegativeShares(diffs) && NonNegativeShares(topics)
    && NonNegativeMarks(pool)
  }

  lemma {:induction false} PctOfNonNegative(d: Distribution, key: string)
    requires NonNegativeShares(d)
    ensures PctOf(d, key) >= 0.0
  {
    if d != [] {
      assert d[0] in d;
      PctOfNonNegative(d[1..], key);
    }
  }

  lemma TargetsSign(diffs: Distribution, topics: Distribution, total: int)
    requires NonNegativeShares(diffs) && NonNegativeShares(topics)
    ensures var t := Targets(diffs, topics, total);
            && (total >= 0 ==> NonNegative(t))
            && (total <= 0 ==> forall slot :: slot in t ==> t[slot] <= 0)
  {
    forall slot | slot in Targets(diffs, topics, total)
      ensures total >= 0 ==> SlotTarget(slot, diffs, topics, total) >= 0
      ensures total <= 0 ==> SlotTarget(slot, diffs, topics, total) <= 0
    {
      var d := if slot.axis.ByDifficulty? then diffs else topics;
      PctOfNonNegative(d, slot.key);
      TargetSign(total, PctOf(d, slot.key));
    }
  }

  lemma {:induction false} EligibleFromPool(pool: seq<Candidate>, n: nat, diffs: Distribution, topics: Distribution,
                                            excluded: set<nat>)
    requires n <= |pool|
    ensures forall c :: c in EligibleUpTo(pool, n, diffs, topics, excluded) ==>
              c in pool && Eligible(c, diffs, topics, excluded)
  {
    if n > 0 {
      EligibleFromPool(pool, n - 1, diffs, topics, excluded);
    }
  }

  function SlotSet(diffs: Distribution, topics: Distribution): set<Slot> {
    set slot | slot in Slots(diffs, topics)
  }

  lemma KeysAreSlots(diffs: Distribution, topics: Distribution, diff: string, topic: string)
    requires diff in Keys(diffs) && topic in Keys(topics)
    ensures Slot(ByDifficulty, diff) in SlotSet(diffs, topics)
    ensures Slot(ByTopic, topic) in SlotSet(diffs, topics)
  {
    AxisSlotsContain(diffs, ByDifficulty, diff);
    AxisSlotsContain(topics, ByTopic, topic);
  }

  /** The start of every run: sorted buckets that hold exactly the eligible pool. */
  lemma StartOfRun(pool: seq<Candidate>, diffs: Distribution, topics: Distribution, excluded: set<nat>)
    requires NonNegativeMarks(pool)
    ensures var bs := Buckets(pool, diffs, topics, excluded);
            && multiset(Flatten(bs)) == multiset(EligiblePool(pool, diffs, topics, excluded))
            && AllSound(bs, SlotSet(diffs, topics))
  {
    FillHoldsPool(pool, |pool|, diffs, topics, excluded);
    SortBucketsKeeps(Fill(pool, |pool|, diffs, topics, excluded), SlotSet(diffs, topics));
  }

  predicate Reports(errors: seq<Shortfall>, slot: Slot) {
    exists i :: 0 <= i < |errors| && errors[i].slot == slot
  }

  /** A slot is reported exactly when it is still needed at the end. */
  lemma {:induction false} ReportedIffNeeded(slots: seq<Slot>, n: nat, left: map<Slot, int>, targets: map<Slot, int>,
                                             slot: Slot)
    requires n <= |slots|
    ensures Reports(Shortfalls(slots, n, left, targets), slot) <==> slot in slots[..n] && Need(left, slot) > 0
  {
    if n > 0 {
      ReportedIffNeeded(slots, n - 1, left, targets, slot);
      var before, all := Shortfalls(slots, n - 1, left, targets), Shortfalls(slots, n, left, targets);
      assert slots[..n] == slots[..n - 1] + [slots[n - 1]];
      assert forall i :: 0 <= i < |before| ==> all[i] == before[i];
      if Need(left, slots[n - 1]) > 0 {
        assert all[|before|].slot == slots[n - 1];
      }
    }
  }

  /** Each message states the slot's target and the marks that were found for it. */
  lemma {:induction false} ReportsAreAccurate(slots: seq<Slot>, n: nat, left: map<Slot, int>, targets: map<Slot, int>)
    requires n <= |slots|
    ensures forall e :: e in Shortfalls(slots, n, left, targets) ==>
              e.required == Need(targets, e.slot) && e.got == e.required - Need(left, e.slot) < e.required
  {
    if n > 0 {
      ReportsAreAccurate(slots, n - 1, left, targets);
    }
  }

  /** When the scan finds nothing, no leftover item belongs to a slot that is still needed. */
  lemma {:induction false} LeftoverIsUseless(rest: seq<Bucket>, left: map<Slot, int>, slot: Slot)
    requires AllSound(rest, left.Keys) && NonNegative(left)
    requires forall b :: b in rest && b.items != [] ==> Score(b, left) <= 0
    requires Need(left, slot) > 0
    ensures MarksFor(Flatten(rest), slot) == 0
  {
    if rest != [] {
      var b := rest[0];
      assert Sound(b, left.Keys);
      LeftoverIsUseless(rest[1..], left, slot);
      MarksForAppend(b.items, Flatten(rest[1..]), slot);
      if b.items != [] {
        assert slot != DiffSlot(b) && slot != TopicSlot(b);
        NoneLabelled(b, slot, b.items);
      }
    }
  }

  lemma {:induction false} NoneLabelled(b: Bucket, slot: Slot, s: seq<Candidate>)
    requires forall c :: c in s ==> Holds(b, c)
    requires slot != DiffSlot(b) && slot != TopicSlot(b)
    ensures MarksFor(s, slot) == 0
  {
    if s != [] {
      assert Holds(b, s[0]);
      NoneLabelled(b, slot, s[1..]);
    }
  }

  /** A run's final need for a slot is what the whole pool lacks for it, or zero. */
  lemma RunVerdict(bs: seq<Bucket>, req: map<Slot, int>, slot: Slot)
    requires AllSound(bs, req.Keys) && NonNegative(req) && slot in req
    ensures Need(Greedy(bs, req).left, slot) == Max0(req[slot] - MarksFor(Flatten(bs), slot))
  {
    GreedyRun(bs, req);
    SummaryVerdict(bs, req, Greedy(bs, req), slot);
  }

  lemma SplitSum(a: seq<Candidate>, b: seq<Candidate>, all: seq<Candidate>, slot: Slot)
    requires multiset(a) + multiset(b) == multiset(all)
    ensures MarksFor(a, slot) + MarksFor(b, slot) == MarksFor(all, slot)
  {
    MarksForPermuted(a + b, all, slot);
    MarksForAppend(a, b, slot);
  }

  lemma LeftoverSum(rest: seq<Bucket>, left: map<Slot, int>, slot: Slot)
    requires AllSound(rest, left.Keys) && NonNegative(left) && Best(rest, left).index == -1
    ensures MarksFor(Flatten(rest), slot) >= 0
    ensures Need(left, slot) > 0 ==> MarksFor(Flatten(rest), slot) == 0
  {
    SoundItems(rest, left.Keys);
    MarksForBounds(Flatten(rest), slot);
    BestIsFirstMaximum(rest, left);
    if Need(left, slot) > 0 {
      LeftoverIsUseless(rest, left, slot);
    }
  }

  lemma SummaryVerdict(bs: seq<Bucket>, req: map<Slot, int>, o: Outcome, slot: Slot)
    requires RunSummary(bs, req, o) && slot in req
    ensures Need(o.left, slot) == Max0(req[slot] - MarksFor(Flatten(bs), slot))
  {
    hide MarksFor, Flatten, Best;
    SplitSum(o.items, Flatten(o.rest), Flatten(bs), slot);
    LeftoverSum(o.rest, o.left, slot);
  }

  /** A negative paper total asks for nothing, so nothing is picked. */
  lemma NothingAsked(bs: seq<Bucket>, req: map<Slot, int>)
    requires forall slot :: slot in req ==> req[slot] <= 0
    ensures Greedy(bs, req) == Outcome([], req, bs)
  {
    BestIsFirstMaximum(bs, req);
  }

  /** The verdict on any buckets and any targets of one sign. */
  lemma RunReports(bs: seq<Bucket>, slots: seq<Slot>, targets: map<Slot, int>, slot: Slot)
    requires AllSound(bs, targets.Keys) && slot in slots && slot in targets
    requires NonNegative(targets) || forall x :: x in targets ==> targets[x] <= 0
    ensures Reports(Errors(slots, Greedy(bs, targets).left, targets), slot)
       <==> MarksFor(Flatten(bs), slot) < targets[slot]
  {
    hide MarksFor, Flatten, Best, Shortfalls, Greedy, Reports, AllSound;
    var left := Greedy(bs, targets).left;
    ReportedIffNeeded(slots, |slots|, left, targets, slot);
    assert slots[..|slots|] == slots;
    if NonNegative(targets) {
      RunVerdict(bs, targets, slot);
    } else {
      NothingAsked(bs, targets);
      SoundItems(bs, targets.Keys);
      MarksForBounds(Flatten(bs), slot);
    }
  }

  lemma BucketsHoldPool(pool: seq<Candidate>, diffs: Distribution, topics: Distribution, excluded: set<nat>, slot: Slot)
    requires NonNegativeMarks(pool)
    ensures MarksFor(Flatten(Buckets(pool, diffs, topics, excluded)), slot)
         == MarksFor(EligiblePool(pool, diffs, topics, excluded), slot)
  {
    StartOfRun(pool, diffs, topics, excluded);
    MarksForPermuted(Flatten(Buckets(pool, diffs, topics, excluded)),
                     EligiblePool(pool, diffs, topics, excluded), slot);
  }

  /** THE VERDICT. A difficulty or topic is reported as under-represented if and only if the
      marks of all eligible items of the pool for it add up to less than its rounded target. */
  lemma VerdictIsExact(pool: seq<Candidate>, diffs: Distribution, topics: Distribution, total: int,
                       excluded: set<nat>, slot: Slot)
    requires ValidInput(pool, diffs, topics) && slot in Slots(diffs, topics)
    ensures Reports(Select(pool, diffs, topics, total, excluded).shortfalls, slot)
       <==> MarksFor(EligiblePool(pool, diffs, topics, excluded), slot) < SlotTarget(slot, diffs, topics, total)
  {
    var targets := Targets(diffs, topics, total);
    StartOfRun(pool, diffs, topics, excluded);
    TargetsSign(diffs, topics, total);
    assert targets.Keys == SlotSet(diffs, topics);
    BucketsHoldPool(pool, diffs, topics, excluded, slot);
    RunReports(Buckets(pool, diffs, topics, excluded), Slots(diffs, topics), targets, slot);
  }
}
