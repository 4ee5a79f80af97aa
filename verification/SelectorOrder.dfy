/** The selection read off the pool itself, without buckets: which eligible item is taken at every
    step, and that this determines the whole selection. */
module SelectorOrder {
  import opened Wrappers
  import opened Decimals
  import opened Selector
  import opened SelectorLaws

  // ----- what may be picked, and what it is still needed for -----

  predicate HasKey(d: Distribution, tag: Option<string>) {
    tag.Some? && tag.value != "" && exists i :: 0 <= i < |d| && d[i].key == tag.value
  }

  /** Not excluded, marks set, and a non-empty difficulty and topic that the request asks for. */
  predicate Pickable(c: Candidate, diffs: Distribution, topics: Distribution, excluded: set<nat>) {
    c.id !in excluded && c.marks.Some? && HasKey(diffs, c.difficulty) && HasKey(topics, c.topic)
  }

  predicate SamePair(a: Candidate, b: Candidate) {
    a.difficulty == b.difficulty && a.topic == b.topic
  }

  /** What a slot still lacks after the items of `done`. */
  function Lacking(slot: Slot, diffs: Distribution, topics: Distribution, total: int, done: seq<Candidate>): int {
    Max0(SlotTarget(slot, diffs, topics, total) - MarksFor(done, slot))
  }

  /** What the difficulty and the topic of an item still lack together. */
  function PairLacks(c: Candidate, diffs: Distribution, topics: Distribution, total: int, done: seq<Candidate>): int
    requires c.difficulty.Some? && c.topic.Some?
  {
    Lacking(Slot(ByDifficulty, c.difficulty.value), diffs, topics, total, done)
    + Lacking(Slot(ByTopic, c.topic.value), diffs, topics, total, done)
  }

  /** Some item of `a`'s difficulty and topic comes in the pool before every one of `b`'s. */
  predicate StartsBefore(pool: seq<Candidate>, diffs: Distribution, topics: Distribution, excluded: set<nat>,
                         a: Candidate, b: Candidate)
  {
    exists i :: 0 <= i < |pool| && FirstOfPair(pool, i, diffs, topics, excluded, a, b)
  }

  predicate FirstOfPair(pool: seq<Candidate>, i: nat, diffs: Distribution, topics: Distribution, excluded: set<nat>,
                        a: Candidate, b: Candidate)
    requires i < |pool|
  {
    && Pickable(pool[i], diffs, topics, excluded) && SamePair(pool[i], a)
    && forall k :: 0 <= k <= i && Pickable(pool[k], diffs, topics, excluded) ==> !SamePair(pool[k], b)
  }

  /** The item at position `i` of the pool is the right one to take after `done`. Its difficulty and
      topic lack most; of pairs that lack as much, its own came first in the pool; within the pair it
      is worth most; and of those worth as much it comes first in the pool. */
  predicate RightPick(pool: seq<Candidate>, diffs: Distribution, topics: Distribution, total: int, excluded: set<nat>,
                      done: seq<Candidate>, i: nat)
    requires i < |pool|
  {
    var c := pool[i];
    && Pickable(c, diffs, topics, excluded) && c !in done
    && PairLacks(c, diffs, topics, total, done) > 0
    && forall j :: 0 <= j < |pool| && Pickable(pool[j], diffs, topics, excluded) && pool[j] !in done ==>
         Yields(pool, diffs, topics, total, excluded, done, i, j)
  }

  /** Position `j` has no better claim than position `i`. */
  predicate Yields(pool: seq<Candidate>, diffs: Distribution, topics: Distribution, total: int, excluded: set<nat>,
                   done: seq<Candidate>, i: nat, j: nat)
    requires i < |pool| && j < |pool|
    requires Pickable(pool[i], diffs, topics, excluded) && Pickable(pool[j], diffs, topics, excluded)
  {
    var c, d := pool[i], pool[j];
    if SamePair(c, d) then
      Worth(d) <= Worth(c) && (Worth(d) == Worth(c) ==> i <= j)
    else
      var x, y := PairLacks(c, diffs, topics, total, done), PairLacks(d, diffs, topics, total, done);
      y <= x && (y == x ==> StartsBefore(pool, diffs, topics, excluded, c, d))
  }

  /** Nothing that is left is still needed. */
  predicate NothingRight(pool: seq<Candidate>, diffs: Distribution, topics: Distribution, total: int,
                         excluded: set<nat>,
                         done: seq<Candidate>)
  {
    forall j :: 0 <= j < |pool| && Pickable(pool[j], diffs, topics, excluded) && pool[j] !in done ==>
      PairLacks(pool[j], diffs, topics, total, done) == 0
  }

  predicate RightStep(pool: seq<Candidate>, diffs: Distribution, topics: Distribution, total: int, excluded: set<nat>,
                      s: seq<Candidate>, k: nat)
    requires k < |s|
  {
    exists i :: 0 <= i < |pool| && pool[i] == s[k] && RightPick(pool, diffs, topics, total, excluded, s[..k], i)
  }

  predicate RightSelection(pool: seq<Candidate>, diffs: Distribution, topics: Distribution, total: int,
                           excluded: set<nat>, s: seq<Candidate>)
  {
    && (forall k :: 0 <= k < |s| ==> RightStep(pool, diffs, topics, total, excluded, s, k))
    && NothingRight(pool, diffs, topics, total, excluded, s)
  }

  // ----- the right pick is unique -----

  lemma NotBothFirst(pool: seq<Candidate>, diffs: Distribution, topics: Distribution, excluded: set<nat>,
                     a: Candidate, b: Candidate)
    requires StartsBefore(pool, diffs, topics, excluded, a, b)
    ensures !StartsBefore(pool, diffs, topics, excluded, b, a)
  {
    hide Pickable;
    var i :| 0 <= i < |pool| && FirstOfPair(pool, i, diffs, topics, excluded, a, b);
    forall k | 0 <= k < |pool| ensures !FirstOfPair(pool, k, diffs, topics, excluded, b, a) {
      if k <= i {
        assert Pickable(pool[k], diffs, topics, excluded) ==> !SamePair(pool[k], b);
      }
    }
  }

  lemma RightPickIsUnique(pool: seq<Candidate>, diffs: Distribution, topics: Distribution, total: int,
                          excluded: set<nat>, done: seq<Candidate>, i: nat, j: nat)
    requires i < |pool| && j < |pool|
    requires RightPick(pool, diffs, topics, total, excluded, done, i)
    requires RightPick(pool, diffs, topics, total, excluded, done, j)
    ensures i == j
  {
    hide Pickable, PairLacks, StartsBefore;
    assert Yields(pool, diffs, topics, total, excluded, done, i, j);
    assert Yields(pool, diffs, topics, total, excluded, done, j, i);
    if !SamePair(pool[i], pool[j]) {
      NotBothFirst(pool, diffs, topics, excluded, pool[i], pool[j]);
    }
  }

  /** Of two right selections, one cannot go on where the other has stopped. */
  lemma {:induction false} RightPrefix(pool: seq<Candidate>, diffs: Distribution, topics: Distribution, total: int,
                                       excluded: set<nat>, a: seq<Candidate>, b: seq<Candidate>, k: nat)
    requires RightSelection(pool, diffs, topics, total, excluded, a)
    requires RightSelection(pool, diffs, topics, total, excluded, b)
    requires k <= |a|
    ensures k <= |b| && a[..k] == b[..k]
  {
    hide RightPick, NothingRight;
    if k > 0 {
      RightPrefix(pool, diffs, topics, total, excluded, a, b, k - 1);
      assert RightStep(pool, diffs, topics, total, excluded, a, k - 1);
      var i :| 0 <= i < |pool| && pool[i] == a[k - 1] && RightPick(pool, diffs, topics, total, excluded, a[..k - 1], i);
      if |b| == k - 1 {
        assert b[..k - 1] == b;
        StillNeeded(pool, diffs, topics, total, excluded, b, i);
      }
      assert RightStep(pool, diffs, topics, total, excluded, b, k - 1);
      var j :| 0 <= j < |pool| && pool[j] == b[k - 1] && RightPick(pool, diffs, topics, total, excluded, b[..k - 1], j);
      RightPickIsUnique(pool, diffs, topics, total, excluded, a[..k - 1], i, j);
      assert a[..k] == a[..k - 1] + [a[k - 1]] && b[..k] == b[..k - 1] + [b[k - 1]];
    }
  }

  lemma StillNeeded(pool: seq<Candidate>, diffs: Distribution, topics: Distribution, total: int, excluded: set<nat>,
                    done: seq<Candidate>, i: nat)
    requires i < |pool| && RightPick(pool, diffs, topics, total, excluded, done, i)
    ensures !NothingRight(pool, diffs, topics, total, excluded, done)
  {
  }

  /** At most one sequence of items is a right selection of a pool. */
  lemma RightSelectionIsUnique(pool: seq<Candidate>, diffs: Distribution, topics: Distribution, total: int,
                               excluded: set<nat>, a: seq<Candidate>, b: seq<Candidate>)
    requires RightSelection(pool, diffs, topics, total, excluded, a)
    requires RightSelection(pool, diffs, topics, total, excluded, b)
    ensures a == b
  {
    hide RightSelection;
    RightPrefix(pool, diffs, topics, total, excluded, a, b, |a|);
    RightPrefix(pool, diffs, topics, total, excluded, b, a, |b|);
    assert a[..|a|] == a && b[..|b|] == b;
  }

  // ----- positions in the pool -----

  function Rank(pool: seq<Candidate>, c: Candidate): (i: nat)
    requires c in pool
    ensures i < |pool| && pool[i] == c && forall k :: 0 <= k < i ==> pool[k] != c
  {
    if pool[0] == c then 0 else 1 + Rank(pool[1..], c)
  }

  lemma RankIsPosition(pool: seq<Candidate>, i: nat)
    requires DistinctIds(pool) && i < |pool|
    ensures Rank(pool, pool[i]) == i
  {
  }

  predicate Ascending(pool: seq<Candidate>, s: seq<Candidate>)
    requires forall c :: c in s ==> c in pool
  {
    forall x, y :: 0 <= x < y < |s| ==> Rank(pool, s[x]) < Rank(pool, s[y])
  }

  /** Worth more, or as much and earlier in the pool. */
  predicate Ahead(pool: seq<Candidate>, c: Candidate, d: Candidate)
    requires c in pool && d in pool
  {
    Worth(c) > Worth(d) || (Worth(c) == Worth(d) && Rank(pool, c) < Rank(pool, d))
  }

  predicate Ordered(pool: seq<Candidate>, s: seq<Candidate>)
    requires forall c :: c in s ==> c in pool
  {
    forall x, y :: 0 <= x < y < |s| ==> Ahead(pool, s[x], s[y])
  }

  lemma OrderedCons(pool: seq<Candidate>, c: Candidate, s: seq<Candidate>)
    requires c in pool && (forall d :: d in s ==> d in pool) && Ordered(pool, s)
    requires forall d :: d in s ==> Ahead(pool, c, d)
    ensures Ordered(pool, [c] + s)
  {
    hide Ahead;
    var r := [c] + s;
    forall x, y | 0 <= x < y < |r| ensures Ahead(pool, r[x], r[y]) {
      assert r[y] == s[y - 1] && s[y - 1] in s;
      assert x > 0 ==> r[x] == s[x - 1];
    }
  }

  lemma OrderedTail(pool: seq<Candidate>, s: seq<Candidate>)
    requires (forall c :: c in s ==> c in pool) && Ordered(pool, s) && s != []
    ensures Ordered(pool, s[1..]) && forall d :: d in s[1..] ==> Ahead(pool, s[0], d)
  {
    hide Ahead;
    forall d | d in s[1..] ensures Ahead(pool, s[0], d) {
      var k :| 0 <= k < |s[1..]| && s[1..][k] == d;
      assert Ahead(pool, s[0], s[k + 1]);
    }
  }

  lemma SameMembers(a: seq<Candidate>, b: seq<Candidate>)
    requires multiset(a) == multiset(b)
    ensures forall c :: c in a <==> c in b
  {
    forall c ensures c in a <==> c in b {
      assert c in multiset(a) <==> c in multiset(b);
    }
  }

  lemma {:induction false} InsertKeepsOrdered(pool: seq<Candidate>, c: Candidate, s: seq<Candidate>)
    requires c in pool && (forall d :: d in s ==> d in pool && Rank(pool, c) < Rank(pool, d))
    requires Ordered(pool, s)
    ensures forall d :: d in InsertByMarks(c, s) <==> d == c || d in s
    ensures Ordered(pool, InsertByMarks(c, s))
  {
    hide Rank, Ordered;
    SameMembers(InsertByMarks(c, s), [c] + s);
    if s == [] {
      assert InsertByMarks(c, s) == [c] + s;
      OrderedCons(pool, c, s);
    } else {
      OrderedTail(pool, s);
      if Worth(s[0]) <= Worth(c) {
        forall d | d in s ensures Ahead(pool, c, d) {
          assert s == [s[0]] + s[1..];
          assert d == s[0] || d in s[1..];
        }
        OrderedCons(pool, c, s);
      } else {
        InsertKeepsOrdered(pool, c, s[1..]);
        OrderedCons(pool, s[0], InsertByMarks(c, s[1..]));
      }
    }
  }

  /** The sort is by marks, and stable. */
  lemma {:induction false} SortIsOrdered(pool: seq<Candidate>, s: seq<Candidate>)
    requires (forall c :: c in s ==> c in pool) && Ascending(pool, s)
    ensures (forall c :: c in SortByMarks(s) <==> c in s) && Ordered(pool, SortByMarks(s))
  {
    hide Rank;
    SameMembers(SortByMarks(s), s);
    if s != [] {
      SortIsOrdered(pool, s[1..]);
      InsertKeepsOrdered(pool, s[0], SortByMarks(s[1..]));
    }
  }

  // ----- one bucket per difficulty and topic -----

  predicate Paired(a: Bucket, b: Bucket) {
    a.difficulty == b.difficulty && a.topic == b.topic
  }

  /** The pickable items of a bucket's pair among the first `n`, in pool order. */
  function OfPair(pool: seq<Candidate>, n: nat, diffs: Distribution, topics: Distribution, excluded: set<nat>,
                  b: Bucket): seq<Candidate>
    requires n <= |pool|
  {
    if n == 0 then []
    else
      OfPair(pool, n - 1, diffs, topics, excluded, b)
      + if Eligible(pool[n - 1], diffs, topics, excluded) && Holds(b, pool[n - 1]) then [pool[n - 1]] else []
  }

  /** Which bucket takes the item: the first of its pair, or a new one at the end. */
  lemma {:induction false} DepositAt(bs: seq<Bucket>, c: Candidate) returns (a: nat)
    requires c.difficulty.Some? && c.topic.Some?
    ensures a <= |bs| && forall k :: 0 <= k < a ==> !Holds(bs[k], c)
    ensures if a < |bs| then Holds(bs[a], c) && Deposit(bs, c) == bs[a := bs[a].(items := bs[a].items + [c])]
            else Deposit(bs, c) == bs + [Bucket(c.difficulty.value, c.topic.value, [c])]
  {
    if bs == [] {
      a := 0;
    } else if Holds(bs[0], c) {
      a := 0;
      assert bs == [bs[0]] + bs[1..];
    } else {
      var k := DepositAt(bs[1..], c);
      a := k + 1;
    }
  }

  predicate OnePerPair(bs: seq<Bucket>) {
    forall x, y :: 0 <= x < y < |bs| ==> !Paired(bs[x], bs[y])
  }

  predicate HoldsPair(pool: seq<Candidate>, n: nat, diffs: Distribution, topics: Distribution, excluded: set<nat>,
                      b: Bucket)
    requires n <= |pool|
  {
    b.items == OfPair(pool, n, diffs, topics, excluded, b) && b.items != []
  }

  predicate Bucketed(pool: seq<Candidate>, n: nat, diffs: Distribution, topics: Distribution, excluded: set<nat>,
                     bs: seq<Bucket>)
    requires n <= |pool|
  {
    forall i :: 0 <= i < n && Eligible(pool[i], diffs, topics, excluded) ==> Covered(bs, pool[i])
  }

  predicate Covered(bs: seq<Bucket>, c: Candidate) {
    exists x :: 0 <= x < |bs| && Holds(bs[x], c)
  }

  /** The first item of a bucket's pair comes before every item of the other's. */
  predicate OpensBefore(pool: seq<Candidate>, n: nat, diffs: Distribution, topics: Distribution, excluded: set<nat>,
                        a: Bucket, b: Bucket)
    requires n <= |pool|
  {
    exists i :: 0 <= i < n && Opens(pool, i, diffs, topics, excluded, a, b)
  }

  predicate Opens(pool: seq<Candidate>, i: nat, diffs: Distribution, topics: Distribution, excluded: set<nat>,
                  a: Bucket, b: Bucket)
    requires i < |pool|
  {
    && Eligible(pool[i], diffs, topics, excluded) && Holds(a, pool[i])
    && forall k :: 0 <= k <= i && Eligible(pool[k], diffs, topics, excluded) ==> !Holds(b, pool[k])
  }

  predicate InOpeningOrder(pool: seq<Candidate>, n: nat, diffs: Distribution, topics: Distribution,
                           excluded: set<nat>, bs: seq<Bucket>)
    requires n <= |pool|
  {
    forall x, y :: 0 <= x < y < |bs| ==> OpensBefore(pool, n, diffs, topics, excluded, bs[x], bs[y])
  }

  /** The dictionary after the first `n` items: one bucket per pair, each with exactly its items in
      pool order, the buckets in the order in which their pairs first occur. */
  predicate Shelved(pool: seq<Candidate>, n: nat, diffs: Distribution, topics: Distribution, excluded: set<nat>,
                    bs: seq<Bucket>)
    requires n <= |pool|
  {
    && OnePerPair(bs)
    && (forall x :: 0 <= x < |bs| ==> HoldsPair(pool, n, diffs, topics, excluded, bs[x]))
    && Bucketed(pool, n, diffs, topics, excluded, bs)
    && InOpeningOrder(pool, n, diffs, topics, excluded, bs)
  }

  lemma OfPairIgnoresItems(pool: seq<Candidate>, n: nat, diffs: Distribution, topics: Distribution, excluded: set<nat>,
                           a: Bucket, b: Bucket)
    requires n <= |pool| && Paired(a, b)
    ensures OfPair(pool, n, diffs, topics, excluded, a) == OfPair(pool, n, diffs, topics, excluded, b)
  {
    if n > 0 {
      OfPairIgnoresItems(pool, n - 1, diffs, topics, excluded, a, b);
    }
  }

  lemma {:induction false} OfPairMembers(pool: seq<Candidate>, n: nat, diffs: Distribution, topics: Distribution,
                                         excluded: set<nat>, b: Bucket)
    requires n <= |pool|
    ensures forall c :: c in OfPair(pool, n, diffs, topics, excluded, b) <==>
              exists i :: 0 <= i < n && pool[i] == c && Eligible(c, diffs, topics, excluded) && Holds(b, c)
  {
    hide Eligible, Holds;
    if n > 0 {
      OfPairMembers(pool, n - 1, diffs, topics, excluded, b);
    }
  }

  lemma SharedItem(a: Bucket, b: Bucket, c: Candidate)
    requires Holds(a, c)
    ensures Holds(b, c) <==> Paired(a, b)
  {
  }

  lemma NoneOfPair(pool: seq<Candidate>, n: nat, diffs: Distribution, topics: Distribution, excluded: set<nat>,
                   bs: seq<Bucket>, b: Bucket)
    requires n <= |pool| && Bucketed(pool, n, diffs, topics, excluded, bs)
    requires forall x :: 0 <= x < |bs| ==> !Paired(bs[x], b)
    ensures OfPair(pool, n, diffs, topics, excluded, b) == []
    ensures forall i :: 0 <= i < n && Eligible(pool[i], diffs, topics, excluded) ==> !Holds(b, pool[i])
  {
    hide Eligible;
    forall i | 0 <= i < n && Eligible(pool[i], diffs, topics, excluded) ensures !Holds(b, pool[i]) {
      assert Covered(bs, pool[i]);
      var x :| 0 <= x < |bs| && Holds(bs[x], pool[i]);
      SharedItem(bs[x], b, pool[i]);
    }
    OfPairMembers(pool, n, diffs, topics, excluded, b);
    if OfPair(pool, n, diffs, topics, excluded, b) != [] {
      assert OfPair(pool, n, diffs, topics, excluded, b)[0] in OfPair(pool, n, diffs, topics, excluded, b);
    }
  }

  lemma OpenStays(pool: seq<Candidate>, n: nat, diffs: Distribution, topics: Distribution, excluded: set<nat>,
                  a: Bucket, b: Bucket, c: Bucket, d: Bucket)
    requires n < |pool| && OpensBefore(pool, n, diffs, topics, excluded, a, b) && Paired(a, c) && Paired(b, d)
    ensures OpensBefore(pool, n + 1, diffs, topics, excluded, c, d)
  {
    hide Eligible;
    var i :| 0 <= i < n && Opens(pool, i, diffs, topics, excluded, a, b);
    assert Opens(pool, i, diffs, topics, excluded, c, d);
  }

  lemma ShelvedPassedOver(pool: seq<Candidate>, n: nat, diffs: Distribution, topics: Distribution, excluded: set<nat>,
                          bs: seq<Bucket>)
    requires n < |pool| && Shelved(pool, n, diffs, topics, excluded, bs)
    requires !Eligible(pool[n], diffs, topics, excluded)
    ensures Shelved(pool, n + 1, diffs, topics, excluded, bs)
  {
    hide Eligible, Covered, OpensBefore;
    forall x, y | 0 <= x < y < |bs| ensures OpensBefore(pool, n + 1, diffs, topics, excluded, bs[x], bs[y]) {
      OpenStays(pool, n, diffs, topics, excluded, bs[x], bs[y], bs[x], bs[y]);
    }
  }

  /** One more item in an old bucket or a new one keeps every pair's items. */
  lemma PairTakesItem(pool: seq<Candidate>, n: nat, diffs: Distribution, topics: Distribution, excluded: set<nat>,
                      b: Bucket, d: Bucket)
    requires n < |pool| && HoldsPair(pool, n, diffs, topics, excluded, b) && Paired(b, d)
    requires Eligible(pool[n], diffs, topics, excluded)
    requires d.items == if Holds(b, pool[n]) then b.items + [pool[n]] else b.items
    ensures HoldsPair(pool, n + 1, diffs, topics, excluded, d)
  {
    hide Eligible;
    OfPairIgnoresItems(pool, n, diffs, topics, excluded, b, d);
  }

  /** Old items keep a bucket of their pair, whatever is in it. */
  lemma StillCovered(bs: seq<Bucket>, cs: seq<Bucket>, c: Candidate)
    requires |bs| <= |cs| && (forall x :: 0 <= x < |bs| ==> Paired(bs[x], cs[x])) && Covered(bs, c)
    ensures Covered(cs, c)
  {
    var x :| 0 <= x < |bs| && Holds(bs[x], c);
    assert Holds(cs[x], c);
  }

  lemma CoveredBy(cs: seq<Bucket>, x: nat, c: Candidate)
    requires x < |cs| && Holds(cs[x], c)
    ensures Covered(cs, c)
  {
  }

  lemma PairsApart(a: Bucket, b: Bucket, c: Candidate)
    requires !Paired(a, b) && Holds(a, c)
    ensures !Holds(b, c)
  {
  }

  /** The buckets stay, pair by pair. */
  predicate SamePairs(bs: seq<Bucket>, cs: seq<Bucket>) {
    |bs| == |cs| && forall x :: 0 <= x < |bs| ==> Paired(bs[x], cs[x])
  }

  lemma SamePairsKeep(pool: seq<Candidate>, n: nat, diffs: Distribution, topics: Distribution, excluded: set<nat>,
                      bs: seq<Bucket>, cs: seq<Bucket>, a: nat)
    requires n < |pool| && SamePairs(bs, cs) && a < |cs| && Holds(cs[a], pool[n])
    requires OnePerPair(bs) && Bucketed(pool, n, diffs, topics, excluded, bs)
    requires InOpeningOrder(pool, n, diffs, topics, excluded, bs)
    ensures OnePerPair(cs) && Bucketed(pool, n + 1, diffs, topics, excluded, cs)
    ensures InOpeningOrder(pool, n + 1, diffs, topics, excluded, cs)
  {
    forall x, y | 0 <= x < y < |cs| ensures !Paired(cs[x], cs[y]) {
      assert !Paired(bs[x], bs[y]) && Paired(bs[x], cs[x]) && Paired(bs[y], cs[y]);
    }
    hide Eligible, OpensBefore, Holds, Paired, Covered;
    forall i | 0 <= i < n + 1 && Eligible(pool[i], diffs, topics, excluded) ensures Covered(cs, pool[i]) {
      if i < n {
        StillCovered(bs, cs, pool[i]);
      } else {
        CoveredBy(cs, a, pool[i]);
      }
    }
    forall x, y | 0 <= x < y < |cs| ensures OpensBefore(pool, n + 1, diffs, topics, excluded, cs[x], cs[y]) {
      OpenStays(pool, n, diffs, topics, excluded, bs[x], bs[y], cs[x], cs[y]);
    }
  }

  lemma ShelvedInOld(pool: seq<Candidate>, n: nat, diffs: Distribution, topics: Distribution, excluded: set<nat>,
                     bs: seq<Bucket>, a: nat)
    requires n < |pool| && Shelved(pool, n, diffs, topics, excluded, bs)
    requires Eligible(pool[n], diffs, topics, excluded) && a < |bs| && Holds(bs[a], pool[n])
    ensures Shelved(pool, n + 1, diffs, topics, excluded, bs[a := bs[a].(items := bs[a].items + [pool[n]])])
  {
    var cs := bs[a := bs[a].(items := bs[a].items + [pool[n]])];
    assert Paired(bs[a], cs[a]) && Holds(cs[a], pool[n]);
    forall x | 0 <= x < |bs| && x != a ensures !Paired(bs[a], bs[x]) {
      assert if x < a then !Paired(bs[x], bs[a]) else !Paired(bs[a], bs[x]);
    }
    assert SamePairs(bs, cs);
    hide Eligible, OpensBefore, Holds, HoldsPair, Paired, Covered, SamePairs, OnePerPair, Bucketed, InOpeningOrder;
    SamePairsKeep(pool, n, diffs, topics, excluded, bs, cs, a);
    forall x | 0 <= x < |cs| ensures HoldsPair(pool, n + 1, diffs, topics, excluded, cs[x]) {
      if x != a {
        PairsApart(bs[a], bs[x], pool[n]);
      }
      PairedAt(bs, cs, x);
      PairTakesItem(pool, n, diffs, topics, excluded, bs[x], cs[x]);
    }
  }

  lemma PairedAt(bs: seq<Bucket>, cs: seq<Bucket>, x: nat)
    requires SamePairs(bs, cs) && x < |bs|
    ensures x < |cs| && Paired(bs[x], cs[x])
  {
  }

  lemma NewKeepsCovered(pool: seq<Candidate>, n: nat, diffs: Distribution, topics: Distribution, excluded: set<nat>,
                        bs: seq<Bucket>, b: Bucket)
    requires n < |pool| && Bucketed(pool, n, diffs, topics, excluded, bs) && Holds(b, pool[n])
    ensures Bucketed(pool, n + 1, diffs, topics, excluded, bs + [b])
  {
    hide Eligible, Holds, Covered;
    var cs := bs + [b];
    forall i | 0 <= i < n + 1 && Eligible(pool[i], diffs, topics, excluded) ensures Covered(cs, pool[i]) {
      if i < n {
        StillCovered(bs, cs, pool[i]);
      } else {
        CoveredBy(cs, |bs|, pool[i]);
      }
    }
  }

  lemma NewKeepsOrder(pool: seq<Candidate>, n: nat, diffs: Distribution, topics: Distribution, excluded: set<nat>,
                      bs: seq<Bucket>, b: Bucket)
    requires n < |pool| && InOpeningOrder(pool, n, diffs, topics, excluded, bs)
    requires forall x :: 0 <= x < |bs| ==> HoldsPair(pool, n, diffs, topics, excluded, bs[x])
    requires forall i :: 0 <= i < n && Eligible(pool[i], diffs, topics, excluded) ==> !Holds(b, pool[i])
    ensures InOpeningOrder(pool, n + 1, diffs, topics, excluded, bs + [b])
  {
    hide Eligible, Holds, HoldsPair, OpensBefore;
    var cs := bs + [b];
    forall x, y | 0 <= x < y < |cs| ensures OpensBefore(pool, n + 1, diffs, topics, excluded, cs[x], cs[y]) {
      if y < |bs| {
        OpenStays(pool, n, diffs, topics, excluded, bs[x], bs[y], cs[x], cs[y]);
      } else {
        NewOpensLast(pool, n, diffs, topics, excluded, bs[x], b);
      }
    }
  }

  lemma ShelvedInNew(pool: seq<Candidate>, n: nat, diffs: Distribution, topics: Distribution, excluded: set<nat>,
                     bs: seq<Bucket>, b: Bucket)
    requires n < |pool| && Shelved(pool, n, diffs, topics, excluded, bs)
    requires Eligible(pool[n], diffs, topics, excluded) && Holds(b, pool[n]) && b.items == [pool[n]]
    requires forall x :: 0 <= x < |bs| ==> !Holds(bs[x], pool[n])
    ensures Shelved(pool, n + 1, diffs, topics, excluded, bs + [b])
  {
    var cs := bs + [b];
    forall x | 0 <= x < |bs| ensures !Paired(bs[x], b) {
      assert !Holds(bs[x], pool[n]);
    }
    hide Eligible, Holds, HoldsPair, Paired, Covered, InOpeningOrder, Bucketed;
    NoneOfPair(pool, n, diffs, topics, excluded, bs, b);
    NewKeepsCovered(pool, n, diffs, topics, excluded, bs, b);
    NewKeepsOrder(pool, n, diffs, topics, excluded, bs, b);
    PairOpens(pool, n, diffs, topics, excluded, b);
    forall x | 0 <= x < |bs| ensures HoldsPair(pool, n + 1, diffs, topics, excluded, bs[x]) {
      PairTakesItem(pool, n, diffs, topics, excluded, bs[x], bs[x]);
    }
  }

  lemma PairOpens(pool: seq<Candidate>, n: nat, diffs: Distribution, topics: Distribution, excluded: set<nat>,
                  b: Bucket)
    requires n < |pool| && OfPair(pool, n, diffs, topics, excluded, b) == []
    requires Eligible(pool[n], diffs, topics, excluded) && Holds(b, pool[n]) && b.items == [pool[n]]
    ensures HoldsPair(pool, n + 1, diffs, topics, excluded, b)
  {
    hide Eligible;
  }

  lemma NewOpensLast(pool: seq<Candidate>, n: nat, diffs: Distribution, topics: Distribution, excluded: set<nat>,
                     a: Bucket, b: Bucket)
    requires n < |pool| && HoldsPair(pool, n, diffs, topics, excluded, a)
    requires forall i :: 0 <= i < n && Eligible(pool[i], diffs, topics, excluded) ==> !Holds(b, pool[i])
    ensures OpensBefore(pool, n + 1, diffs, topics, excluded, a, b)
  {
    hide Eligible;
    OfPairMembers(pool, n, diffs, topics, excluded, a);
    assert a.items[0] in a.items;
    var i :| 0 <= i < n && pool[i] == a.items[0] && Eligible(pool[i], diffs, topics, excluded) && Holds(a, pool[i]);
    assert Opens(pool, i, diffs, topics, excluded, a, b);
  }

  /** ONE BUCKET PER PAIR. Filling leaves the pool shelved. */
  lemma {:induction false} FillIsShelved(pool: seq<Candidate>, n: nat, diffs: Distribution, topics: Distribution,
                                         excluded: set<nat>)
    requires n <= |pool|
    ensures Shelved(pool, n, diffs, topics, excluded, Fill(pool, n, diffs, topics, excluded))
  {
    hide Shelved, Deposit;
    if n == 0 {
      NothingShelved(pool, diffs, topics, excluded);
    } else {
      FillIsShelved(pool, n - 1, diffs, topics, excluded);
      var c, bs := pool[n - 1], Fill(pool, n - 1, diffs, topics, excluded);
      if Eligible(c, diffs, topics, excluded) {
        var a := DepositAt(bs, c);
        if a < |bs| {
          ShelvedInOld(pool, n - 1, diffs, topics, excluded, bs, a);
        } else {
          ShelvedInNew(pool, n - 1, diffs, topics, excluded, bs, Bucket(c.difficulty.value, c.topic.value, [c]));
        }
      } else {
        ShelvedPassedOver(pool, n - 1, diffs, topics, excluded, bs);
      }
    }
  }

  lemma NothingShelved(pool: seq<Candidate>, diffs: Distribution, topics: Distribution, excluded: set<nat>)
    ensures Shelved(pool, 0, diffs, topics, excluded, Fill(pool, 0, diffs, topics, excluded))
  {
  }

  // ----- sorted buckets -----

  /** The bucket holds exactly its eligible items of the pool, in the order in which they are offered. */
  ghost predicate Stocked(pool: seq<Candidate>, diffs: Distribution, topics: Distribution, excluded: set<nat>,
                          b: Bucket) {
    && (forall c :: c in b.items <==> c in pool && Eligible(c, diffs, topics, excluded) && Holds(b, c))
    && Ordered(pool, b.items)
  }

  ghost predicate Ready(pool: seq<Candidate>, diffs: Distribution, topics: Distribution, excluded: set<nat>,
                        bs: seq<Bucket>) {
    && OnePerPair(bs) && Bucketed(pool, |pool|, diffs, topics, excluded, bs)
    && InOpeningOrder(pool, |pool|, diffs, topics, excluded, bs)
    && forall x :: 0 <= x < |bs| ==> Stocked(pool, diffs, topics, excluded, bs[x])
  }

  lemma {:induction false} OfPairAscends(pool: seq<Candidate>, n: nat, diffs: Distribution, topics: Distribution,
                                         excluded: set<nat>, b: Bucket)
    requires DistinctIds(pool) && n <= |pool|
    ensures forall c :: c in OfPair(pool, n, diffs, topics, excluded, b) ==> c in pool && Rank(pool, c) < n
    ensures Ascending(pool, OfPair(pool, n, diffs, topics, excluded, b))
  {
    hide Eligible, Holds, Rank, DistinctIds;
    if n > 0 {
      OfPairAscends(pool, n - 1, diffs, topics, excluded, b);
      RankIsPosition(pool, n - 1);
    }
  }

  lemma SortedIsStocked(pool: seq<Candidate>, diffs: Distribution, topics: Distribution, excluded: set<nat>, b: Bucket)
    requires DistinctIds(pool) && HoldsPair(pool, |pool|, diffs, topics, excluded, b)
    ensures Stocked(pool, diffs, topics, excluded, b.(items := SortByMarks(b.items)))
  {
    var d := b.(items := SortByMarks(b.items));
    assert forall c :: Holds(d, c) <==> Holds(b, c);
    hide Eligible, Holds, Rank, DistinctIds, Ahead;
    OfPairMembers(pool, |pool|, diffs, topics, excluded, b);
    OfPairAscends(pool, |pool|, diffs, topics, excluded, b);
    SortIsOrdered(pool, b.items);
  }

  lemma {:induction false} SortBucketsAt(bs: seq<Bucket>)
    ensures |SortBuckets(bs)| == |bs|
    ensures forall x :: 0 <= x < |bs| ==> SortBuckets(bs)[x] == bs[x].(items := SortByMarks(bs[x].items))
  {
    if bs != [] {
      SortBucketsAt(bs[1..]);
    }
  }

  lemma SameOpening(pool: seq<Candidate>, n: nat, diffs: Distribution, topics: Distribution, excluded: set<nat>,
                    a: Bucket, b: Bucket, c: Bucket, d: Bucket)
    requires n <= |pool| && OpensBefore(pool, n, diffs, topics, excluded, a, b) && Paired(a, c) && Paired(b, d)
    ensures OpensBefore(pool, n, diffs, topics, excluded, c, d)
  {
    hide Eligible;
    var i :| 0 <= i < n && Opens(pool, i, diffs, topics, excluded, a, b);
    assert Opens(pool, i, diffs, topics, excluded, c, d);
  }

  lemma BucketsAreReady(pool: seq<Candidate>, diffs: Distribution, topics: Distribution, excluded: set<nat>)
    requires DistinctIds(pool)
    ensures Ready(pool, diffs, topics, excluded, Buckets(pool, diffs, topics, excluded))
  {
    var filled, bs := Fill(pool, |pool|, diffs, topics, excluded), Buckets(pool, diffs, topics, excluded);
    FillIsShelved(pool, |pool|, diffs, topics, excluded);
    SortBucketsAt(filled);
    forall x, y | 0 <= x < y < |bs| ensures !Paired(bs[x], bs[y]) {
      assert !Paired(filled[x], filled[y]);
    }
    forall x | 0 <= x < |bs| ensures Paired(filled[x], bs[x]) {
    }
    hide Eligible, Holds, Paired, OpensBefore, Covered, Stocked, HoldsPair, DistinctIds;
    forall i | 0 <= i < |pool| && Eligible(pool[i], diffs, topics, excluded) ensures Covered(bs, pool[i]) {
      StillCovered(filled, bs, pool[i]);
    }
    forall x, y | 0 <= x < y < |bs| ensures OpensBefore(pool, |pool|, diffs, topics, excluded, bs[x], bs[y]) {
      SameOpening(pool, |pool|, diffs, topics, excluded, filled[x], filled[y], bs[x], bs[y]);
    }
    forall x | 0 <= x < |bs| ensures Stocked(pool, diffs, topics, excluded, bs[x]) {
      SortedIsStocked(pool, diffs, topics, excluded, filled[x]);
    }
  }

  // ----- what the loop has left in its buckets -----

  predicate Suffix(a: seq<Candidate>, b: seq<Candidate>) {
    |a| <= |b| && a == b[|b| - |a|..]
  }

  /** The bucket still offers, in order, what was in it and is not selected. */
  predicate Offers(was: Bucket, b: Bucket, selected: seq<Candidate>) {
    && Paired(was, b) && Suffix(b.items, was.items)
    && forall c :: c in was.items ==> (c in b.items <==> c !in selected)
  }

  predicate AllOffer(start: seq<Bucket>, bs: seq<Bucket>, selected: seq<Candidate>) {
    |bs| == |start| && forall x :: 0 <= x < |bs| ==> Offers(start[x], bs[x], selected)
  }

  lemma OrderedApart(pool: seq<Candidate>, s: seq<Candidate>, x: nat, y: nat)
    requires (forall c :: c in s ==> c in pool) && Ordered(pool, s) && x < y < |s|
    ensures s[x] != s[y]
  {
    assert Ahead(pool, s[x], s[y]);
  }

  lemma TopLeaves(pool: seq<Candidate>, was: Bucket, b: Bucket, selected: seq<Candidate>)
    requires (forall c :: c in was.items ==> c in pool) && Ordered(pool, was.items)
    requires Offers(was, b, selected) && b.items != []
    ensures Offers(was, b.(items := b.items[1..]), selected + [b.items[0]])
  {
    var top, rest := b.items[0], b.items[1..];
    var k := |was.items| - |b.items|;
    assert b.items == [top] + rest;
    hide Ordered;
    forall j | 0 <= j < |rest| ensures rest[j] != top {
      OrderedApart(pool, was.items, k, k + 1 + j);
    }
    assert rest == was.items[k + 1..];
  }

  lemma OthersStay(was: Bucket, b: Bucket, selected: seq<Candidate>, c: Candidate)
    requires Offers(was, b, selected) && c !in was.items
    ensures Offers(was, b, selected + [c])
  {
  }

  lemma PickLeavesRest(pool: seq<Candidate>, diffs: Distribution, topics: Distribution, excluded: set<nat>,
                       start: seq<Bucket>, l: Loop)
    requires Ready(pool, diffs, topics, excluded, start) && AllOffer(start, l.buckets, l.selected)
    ensures AllOffer(start, OnePick(l).buckets, OnePick(l).selected)
  {
    hide Eligible, Charge, Ordered, Suffix, Best;
    var i := Best(l.buckets, l.required).index;
    BestIsFirstMaximum(l.buckets, l.required);
    if i != -1 {
      var c := l.buckets[i].items[0];
      assert Offers(start[i], l.buckets[i], l.selected) && Stocked(pool, diffs, topics, excluded, start[i]);
      TopOfSuffix(l.buckets[i].items, start[i].items);
      forall x | 0 <= x < |start| ensures Offers(start[x], OnePick(l).buckets[x], OnePick(l).selected) {
        assert Offers(start[x], l.buckets[x], l.selected) && Stocked(pool, diffs, topics, excluded, start[x]);
        if x == i {
          TopLeaves(pool, start[x], l.buckets[x], l.selected);
        } else {
          assert if x < i then !Paired(start[x], start[i]) else !Paired(start[i], start[x]);
          OthersStay(start[x], l.buckets[x], l.selected, c);
        }
      }
    }
  }

  lemma TopOfSuffix(a: seq<Candidate>, b: seq<Candidate>)
    requires Suffix(a, b) && a != []
    ensures a[0] in b
  {
    assert a[0] == b[|b| - |a|];
  }

  lemma {:induction false} LoopOffers(pool: seq<Candidate>, diffs: Distribution, topics: Distribution,
                                      excluded: set<nat>, start: seq<Bucket>, req: map<Slot, int>, k: nat)
    requires Ready(pool, diffs, topics, excluded, start)
    ensures AllOffer(start, LoopAfter(start, req, k).buckets, LoopAfter(start, req, k).selected)
  {
    hide OnePick, Ready;
    if k > 0 {
      LoopOffers(pool, diffs, topics, excluded, start, req, k - 1);
      PickLeavesRest(pool, diffs, topics, excluded, start, LoopAfter(start, req, k - 1));
    }
  }

  /** The loop selects one item at each iteration until it stops. */
  lemma {:induction false} LoopSelects(bs: seq<Bucket>, req: map<Slot, int>, k: nat)
    requires AllSound(bs, req.Keys) && NonNegative(req) && k <= |Greedy(bs, req).items|
    ensures LoopAfter(bs, req, k).selected == Greedy(bs, req).items[..k]
  {
    hide InHand, AllSound, NonNegative, Best, Greedy;
    EveryPickKeeps(bs, req, k);
    if k > 0 {
      LoopSelects(bs, req, k - 1);
      EveryPickKeeps(bs, req, k - 1);
      LoopGoesOn(bs, req, LoopAfter(bs, req, k - 1));
      PrefixByLength(LoopAfter(bs, req, k).selected, Greedy(bs, req).items, k);
    } else {
      assert Greedy(bs, req).items[..0] == [];
    }
  }

  lemma PrefixByLength(a: seq<Candidate>, all: seq<Candidate>, k: nat)
    requires a <= all && |a| == k
    ensures a == all[..k]
  {
  }

  /** As long as the run is not over, an iteration selects one more item. */
  lemma LoopGoesOn(bs: seq<Bucket>, req: map<Slot, int>, l: Loop)
    requires OnTrack(bs, req, l) && |l.selected| < |Greedy(bs, req).items|
    ensures |OnePick(l).selected| == |l.selected| + 1
  {
    hide Best, Greedy;
    BestIsFirstMaximum(l.buckets, l.required);
    StopsEmpty(l.buckets, l.required);
  }

  lemma StopsEmpty(bs: seq<Bucket>, req: map<Slot, int>)
    ensures Best(bs, req).index == -1 ==> Greedy(bs, req).items == []
  {
  }

  // ----- the selection is the right one -----

  lemma EligibleIsPickable(c: Candidate, diffs: Distribution, topics: Distribution, excluded: set<nat>)
    ensures Eligible(c, diffs, topics, excluded) <==> Pickable(c, diffs, topics, excluded)
  {
  }

  lemma LackOfSlot(diffs: Distribution, topics: Distribution, total: int, done: seq<Candidate>, required: map<Slot,
                   int>,
                   slot: Slot)
    requires Satisfied(Targets(diffs, topics, total), done, required) && slot in SlotSet(diffs, topics)
    ensures Need(required, slot) == Lacking(slot, diffs, topics, total, done)
  {
    hide MarksFor, SlotTarget;
    assert slot in Targets(diffs, topics, total);
  }

  /** The score of a bucket is what its items' difficulty and topic still lack. */
  lemma ScoreIsLack(pool: seq<Candidate>, diffs: Distribution, topics: Distribution, total: int, excluded: set<nat>,
                    b: Bucket, c: Candidate, done: seq<Candidate>, required: map<Slot, int>)
    requires Satisfied(Targets(diffs, topics, total), done, required)
    requires Eligible(c, diffs, topics, excluded) && Holds(b, c)
    ensures c.difficulty.Some? && c.topic.Some?
    ensures Score(b, required) == PairLacks(c, diffs, topics, total, done)
  {
    hide Satisfied, SlotSet;
    EligibleSlots(c, diffs, topics, excluded);
    LackOfSlot(diffs, topics, total, done, required, DiffSlot(b));
    LackOfSlot(diffs, topics, total, done, required, TopicSlot(b));
    hide Lacking, Need;
  }

  /** The bucket that an eligible item not yet selected is still in. */
  lemma StillOffered(pool: seq<Candidate>, diffs: Distribution, topics: Distribution, excluded: set<nat>,
                     start: seq<Bucket>, bs: seq<Bucket>, selected: seq<Candidate>, j: nat) returns (x: nat)
    requires Ready(pool, diffs, topics, excluded, start) && AllOffer(start, bs, selected)
    requires j < |pool| && Eligible(pool[j], diffs, topics, excluded) && pool[j] !in selected
    ensures x < |bs| && Holds(bs[x], pool[j]) && pool[j] in bs[x].items
  {
    hide Eligible, Ordered, Suffix;
    assert Covered(start, pool[j]);
    x :| 0 <= x < |start| && Holds(start[x], pool[j]);
    assert Stocked(pool, diffs, topics, excluded, start[x]) && Offers(start[x], bs[x], selected);
  }

  lemma HoldsBoth(b: Bucket, c: Candidate, d: Candidate)
    requires Holds(b, c)
    ensures Holds(b, d) <==> SamePair(c, d)
  {
  }

  /** The top of what a bucket offers is ahead of the rest of it. */
  lemma TopIsAhead(pool: seq<Candidate>, was: Bucket, b: Bucket, selected: seq<Candidate>, d: Candidate)
    requires (forall c :: c in was.items ==> c in pool) && Ordered(pool, was.items)
    requires Offers(was, b, selected) && d in b.items
    ensures b.items[0] in pool && d in pool && (d == b.items[0] || Ahead(pool, b.items[0], d))
  {
    hide Ahead;
    var y :| 0 <= y < |b.items| && b.items[y] == d;
    var k := |was.items| - |b.items|;
    assert b.items[0] == was.items[k] && d == was.items[k + y];
    if y > 0 {
      assert Ahead(pool, was.items[k], was.items[k + y]);
    }
  }

  lemma OpensIsStarts(pool: seq<Candidate>, diffs: Distribution, topics: Distribution, excluded: set<nat>,
                      a: Bucket, b: Bucket, c: Candidate, d: Candidate)
    requires OpensBefore(pool, |pool|, diffs, topics, excluded, a, b) && Holds(a, c) && Holds(b, d)
    ensures StartsBefore(pool, diffs, topics, excluded, c, d)
  {
    hide Eligible, Pickable;
    var i :| 0 <= i < |pool| && Opens(pool, i, diffs, topics, excluded, a, b);
    forall k | 0 <= k < |pool|
      ensures Eligible(pool[k], diffs, topics, excluded) <==> Pickable(pool[k], diffs, topics, excluded)
      ensures Holds(b, pool[k]) <==> SamePair(pool[k], d)
    {
      EligibleIsPickable(pool[k], diffs, topics, excluded);
      HoldsBoth(b, d, pool[k]);
    }
    HoldsBoth(a, c, pool[i]);
    assert FirstOfPair(pool, i, diffs, topics, excluded, c, d);
  }

  /** What the loop's invariants say of its state after some iterations. */
  ghost predicate InRun(pool: seq<Candidate>, diffs: Distribution, topics: Distribution, total: int, excluded: set<nat>,
                        l: Loop)
  {
    && DistinctIds(pool)
    && Ready(pool, diffs, topics, excluded, Buckets(pool, diffs, topics, excluded))
    && AllOffer(Buckets(pool, diffs, topics, excluded), l.buckets, l.selected)
    && Satisfied(Targets(diffs, topics, total), l.selected, l.required)
  }

  /** What one bucket offers on top. */
  lemma TopFacts(pool: seq<Candidate>, diffs: Distribution, topics: Distribution, total: int, excluded: set<nat>,
                 l: Loop, x: nat) returns (i: nat)
    requires InRun(pool, diffs, topics, total, excluded, l) && x < |l.buckets| && l.buckets[x].items != []
    ensures i < |pool| && pool[i] == l.buckets[x].items[0] && pool[i] !in l.selected
    ensures Eligible(pool[i], diffs, topics, excluded) && Holds(l.buckets[x], pool[i])
  {
    hide Eligible, Ordered, Buckets, Satisfied, DistinctIds, Targets;
    var start := Buckets(pool, diffs, topics, excluded);
    assert Stocked(pool, diffs, topics, excluded, start[x]) && Offers(start[x], l.buckets[x], l.selected);
    TopOfSuffix(l.buckets[x].items, start[x].items);
    i :| 0 <= i < |pool| && pool[i] == l.buckets[x].items[0];
    assert l.buckets[x].items[0] in l.buckets[x].items;
  }

  lemma BucketYields(pool: seq<Candidate>, diffs: Distribution, topics: Distribution, total: int, excluded: set<nat>,
                     l: Loop, i: nat, j: nat)
    requires InRun(pool, diffs, topics, total, excluded, l) && i < |pool| && j < |pool|
    requires var x := Best(l.buckets, l.required).index;
             0 <= x < |l.buckets| && l.buckets[x].items != [] && pool[i] == l.buckets[x].items[0]
             && Holds(l.buckets[x], pool[i])
    requires Pickable(pool[i], diffs, topics, excluded)
    requires Pickable(pool[j], diffs, topics, excluded) && pool[j] !in l.selected
    ensures Yields(pool, diffs, topics, total, excluded, l.selected, i, j)
  {
    var start, x := Buckets(pool, diffs, topics, excluded), Best(l.buckets, l.required).index;
    EligibleIsPickable(pool[i], diffs, topics, excluded);
    EligibleIsPickable(pool[j], diffs, topics, excluded);
    BestIsFirstMaximum(l.buckets, l.required);
    var y := StillOffered(pool, diffs, topics, excluded, start, l.buckets, l.selected, j);
    assert l.buckets[y].items != [];
    ScoreIsLack(pool, diffs, topics, total, excluded, l.buckets[x], pool[i], l.selected, l.required);
    ScoreIsLack(pool, diffs, topics, total, excluded, l.buckets[y], pool[j], l.selected, l.required);
    assert Offers(start[x], l.buckets[x], l.selected) && Offers(start[y], l.buckets[y], l.selected);
    assert Stocked(pool, diffs, topics, excluded, start[x]);
    hide Eligible, Pickable, PairLacks, Score, Best, Buckets, Satisfied, Targets, Rank, Ordered, Stocked, Suffix,
         StartsBefore;
    HoldsBoth(l.buckets[x], pool[i], pool[j]);
    if SamePair(pool[i], pool[j]) {
      SamePairSameBucket(start, l.buckets, l.selected, x, y, pool[j]);
      StockedIsOrdered(pool, diffs, topics, excluded, start[x]);
      TopIsAhead(pool, start[x], l.buckets[x], l.selected, pool[j]);
      RankIsPosition(pool, i);
      RankIsPosition(pool, j);
    } else if Score(l.buckets[x], l.required) == Score(l.buckets[y], l.required) {
      HoldsBoth(l.buckets[y], pool[j], pool[i]);
      assert x < y;
      OpensIsStarts(pool, diffs, topics, excluded, start[x], start[y], pool[i], pool[j]);
    }
  }

  lemma StockedIsOrdered(pool: seq<Candidate>, diffs: Distribution, topics: Distribution, excluded: set<nat>, b: Bucket)
    requires Stocked(pool, diffs, topics, excluded, b)
    ensures (forall c :: c in b.items ==> c in pool) && Ordered(pool, b.items)
  {
  }

  lemma SamePairSameBucket(start: seq<Bucket>, bs: seq<Bucket>, selected: seq<Candidate>, x: nat, y: nat, c: Candidate)
    requires OnePerPair(start) && AllOffer(start, bs, selected) && x < |bs| && y < |bs|
    requires Holds(bs[x], c) && Holds(bs[y], c)
    ensures x == y
  {
    assert Offers(start[x], bs[x], selected) && Offers(start[y], bs[y], selected);
    assert Paired(start[x], start[y]) && Paired(start[y], start[x]);
  }

  /** The loop's next pick is the right one, and it stops when nothing is right. */
  lemma LoopPicksRight(pool: seq<Candidate>, diffs: Distribution, topics: Distribution, total: int, excluded: set<nat>,
                       l: Loop)
    requires InRun(pool, diffs, topics, total, excluded, l)
    ensures var x := Best(l.buckets, l.required).index;
            if x == -1 then NothingRight(pool, diffs, topics, total, excluded, l.selected)
            else
              && 0 <= x < |l.buckets| && l.buckets[x].items != []
              && exists i :: 0 <= i < |pool| && pool[i] == l.buckets[x].items[0]
                             && RightPick(pool, diffs, topics, total, excluded, l.selected, i)
  {
    var x := Best(l.buckets, l.required).index;
    BestIsFirstMaximum(l.buckets, l.required);
    hide Best, Eligible, Pickable, Yields, PairLacks, StartsBefore, Score;
    if x == -1 {
      StopIsRight(pool, diffs, topics, total, excluded, l);
    } else {
      var i := TopFacts(pool, diffs, topics, total, excluded, l, x);
      EligibleIsPickable(pool[i], diffs, topics, excluded);
      ScoreIsLack(pool, diffs, topics, total, excluded, l.buckets[x], pool[i], l.selected, l.required);
      hide InRun;
      forall j | 0 <= j < |pool| && Pickable(pool[j], diffs, topics, excluded) && pool[j] !in l.selected
        ensures Yields(pool, diffs, topics, total, excluded, l.selected, i, j)
      {
        BucketYields(pool, diffs, topics, total, excluded, l, i, j);
      }
    }
  }

  lemma StopIsRight(pool: seq<Candidate>, diffs: Distribution, topics: Distribution, total: int, excluded: set<nat>,
                    l: Loop)
    requires InRun(pool, diffs, topics, total, excluded, l) && Best(l.buckets, l.required).index == -1
    ensures NothingRight(pool, diffs, topics, total, excluded, l.selected)
  {
    BestIsFirstMaximum(l.buckets, l.required);
    hide Best, Eligible, Score;
    forall j | 0 <= j < |pool| && Pickable(pool[j], diffs, topics, excluded) && pool[j] !in l.selected
      ensures PairLacks(pool[j], diffs, topics, total, l.selected) == 0
    {
      EligibleIsPickable(pool[j], diffs, topics, excluded);
      var y := StillOffered(pool, diffs, topics, excluded, Buckets(pool, diffs, topics, excluded), l.buckets,
                            l.selected, j);
      ScoreIsLack(pool, diffs, topics, total, excluded, l.buckets[y], pool[j], l.selected, l.required);
    }
  }

  lemma RunIsInRun(pool: seq<Candidate>, diffs: Distribution, topics: Distribution, total: int, excluded: set<nat>,
                   k: nat)
    requires ValidInput(pool, diffs, topics) && DistinctIds(pool) && total > 0
    ensures InRun(pool, diffs, topics, total, excluded,
                  LoopAfter(Buckets(pool, diffs, topics, excluded), Targets(diffs, topics, total), k))
  {
    hide Buckets, Ready, AllOffer, DistinctIds, Satisfied, SlotSet, AllSound;
    var start, targets := Buckets(pool, diffs, topics, excluded), Targets(diffs, topics, total);
    SoundStart(pool, diffs, topics, total, excluded);
    BucketsAreReady(pool, diffs, topics, excluded);
    LoopOffers(pool, diffs, topics, excluded, start, targets, k);
    EveryPickKeeps(start, targets, k);
  }

  lemma SoundStart(pool: seq<Candidate>, diffs: Distribution, topics: Distribution, total: int, excluded: set<nat>)
    requires ValidInput(pool, diffs, topics) && total > 0
    ensures var targets := Targets(diffs, topics, total);
            AllSound(Buckets(pool, diffs, topics, excluded), targets.Keys) && NonNegative(targets)
  {
    StartOfRun(pool, diffs, topics, excluded);
    TargetsSign(diffs, topics, total);
    assert Targets(diffs, topics, total).Keys == SlotSet(diffs, topics);
    hide AllSound, Buckets, SlotTarget;
  }

  /** Nothing is asked of a paper with no marks. */
  lemma NothingToPick(pool: seq<Candidate>, diffs: Distribution, topics: Distribution, total: int, excluded: set<nat>)
    requires ValidInput(pool, diffs, topics) && total <= 0
    ensures NothingRight(pool, diffs, topics, total, excluded, [])
  {
    TargetsSign(diffs, topics, total);
    hide Eligible, SlotTarget;
    forall j | 0 <= j < |pool| && Pickable(pool[j], diffs, topics, excluded)
      ensures PairLacks(pool[j], diffs, topics, total, []) == 0
    {
      EligibleIsPickable(pool[j], diffs, topics, excluded);
      EligibleSlots(pool[j], diffs, topics, excluded);
      assert Slot(ByDifficulty, pool[j].difficulty.value) in Targets(diffs, topics, total);
      assert Slot(ByTopic, pool[j].topic.value) in Targets(diffs, topics, total);
    }
  }

  lemma StepIsRight(pool: seq<Candidate>, diffs: Distribution, topics: Distribution, total: int, excluded: set<nat>,
                    k: nat)
    requires ValidInput(pool, diffs, topics) && DistinctIds(pool) && total > 0
    requires k < |Select(pool, diffs, topics, total, excluded).items|
    ensures RightStep(pool, diffs, topics, total, excluded, Select(pool, diffs, topics, total, excluded).items, k)
  {
    hide Buckets, ValidInput, DistinctIds, AllSound, NonNegative, InRun, RightPick, Best;
    var start, targets := Buckets(pool, diffs, topics, excluded), Targets(diffs, topics, total);
    SoundStart(pool, diffs, topics, total, excluded);
    RunIsInRun(pool, diffs, topics, total, excluded, k);
    var l := LoopAfter(start, targets, k);
    LoopSelects(start, targets, k);
    LoopSelects(start, targets, k + 1);
    LoopPicksRight(pool, diffs, topics, total, excluded, l);
    assert |l.selected| == k && LoopAfter(start, targets, k + 1).selected[k] == Greedy(start, targets).items[k];
  }

  /** THE SELECTION, READ OFF THE POOL. For a pool of distinct rows the selector takes exactly the
      right items one after the other: each is the best of the one difficulty and topic that lack
      most, ties going to what comes first in the pool, and it stops when nothing left is needed. */
  lemma SelectionIsRight(pool: seq<Candidate>, diffs: Distribution, topics: Distribution, total: int,
                         excluded: set<nat>)
    requires ValidInput(pool, diffs, topics) && DistinctIds(pool)
    ensures RightSelection(pool, diffs, topics, total, excluded, Select(pool, diffs, topics, total, excluded).items)
  {
    hide Buckets, DistinctIds, AllSound, InRun, RightStep, NothingRight, ValidInput;
    var start, targets := Buckets(pool, diffs, topics, excluded), Targets(diffs, topics, total);
    var s := Select(pool, diffs, topics, total, excluded).items;
    if total <= 0 {
      NothingAskedOf(pool, diffs, topics, total, excluded);
      NothingToPick(pool, diffs, topics, total, excluded);
    } else {
      forall k | 0 <= k < |s| ensures RightStep(pool, diffs, topics, total, excluded, s, k) {
        StepIsRight(pool, diffs, topics, total, excluded, k);
      }
      EndIsRight(pool, diffs, topics, total, excluded);
    }
  }

  lemma NothingAskedOf(pool: seq<Candidate>, diffs: Distribution, topics: Distribution, total: int, excluded: set<nat>)
    requires ValidInput(pool, diffs, topics) && total <= 0
    ensures Select(pool, diffs, topics, total, excluded).items == []
  {
    TargetsSign(diffs, topics, total);
    NothingAsked(Buckets(pool, diffs, topics, excluded), Targets(diffs, topics, total));
  }

  lemma EndIsRight(pool: seq<Candidate>, diffs: Distribution, topics: Distribution, total: int, excluded: set<nat>)
    requires ValidInput(pool, diffs, topics) && DistinctIds(pool) && total > 0
    ensures NothingRight(pool, diffs, topics, total, excluded, Select(pool, diffs, topics, total, excluded).items)
  {
    hide Buckets, ValidInput, DistinctIds, AllSound, NonNegative, InRun, RightPick, NothingRight;
    var start, targets := Buckets(pool, diffs, topics, excluded), Targets(diffs, topics, total);
    var s := Greedy(start, targets).items;
    SoundStart(pool, diffs, topics, total, excluded);
    RunIsInRun(pool, diffs, topics, total, excluded, |s|);
    var l := LoopAfter(start, targets, |s|);
    LoopSelects(start, targets, |s|);
    EveryPickKeeps(start, targets, |s|);
    assert l.selected == s && s[..|s|] == s;
    GoesOnUnlessStopped(l.buckets, l.required);
    LoopPicksRight(pool, diffs, topics, total, excluded, l);
  }

  lemma GoesOnUnlessStopped(bs: seq<Bucket>, req: map<Slot, int>)
    ensures Greedy(bs, req).items == [] ==> Best(bs, req).index == -1
  {
    BestIsFirstMaximum(bs, req);
  }

  /** Greedy both ways: picks from the tops of the buckets, and the right picks of the pool. */
  lemma SelectionIsGreedy(pool: seq<Candidate>, diffs: Distribution, topics: Distribution, total: int,
                          excluded: set<nat>)
    ensures GreedyTrace(Buckets(pool, diffs, topics, excluded), Targets(diffs, topics, total),
                        Select(pool, diffs, topics, total, excluded).items)
    ensures ValidInput(pool, diffs, topics) && DistinctIds(pool) ==>
              RightSelection(pool, diffs, topics, total, excluded, Select(pool, diffs, topics, total, excluded).items)
  {
    hide RightSelection, ValidInput, DistinctIds;
    SortedBucketsDescend(Fill(pool, |pool|, diffs, topics, excluded));
    GreedyPicksBest(Buckets(pool, diffs, topics, excluded), Targets(diffs, topics, total));
    if ValidInput(pool, diffs, topics) && DistinctIds(pool) {
      SelectionIsRight(pool, diffs, topics, total, excluded);
    }
  }

  /** The same as a definition: a sequence of items is the selection if and only if it is right. */
  lemma SelectionIff(pool: seq<Candidate>, diffs: Distribution, topics: Distribution, total: int, excluded: set<nat>,
                     s: seq<Candidate>)
    requires ValidInput(pool, diffs, topics) && DistinctIds(pool)
    ensures s == Select(pool, diffs, topics, total, excluded).items
       <==> RightSelection(pool, diffs, topics, total, excluded, s)
  {
    hide RightSelection, Select;
    SelectionIsRight(pool, diffs, topics, total, excluded);
    if RightSelection(pool, diffs, topics, total, excluded, s) {
      RightSelectionIsUnique(pool, diffs, topics, total, excluded, s,
                             Select(pool, diffs, topics, total, excluded).items);
    }
  }

  /** Each target is the named share of the paper total, rounded half up to a hundredth. */
  lemma TargetIsShare(diffs: Distribution, topics: Distribution, total: int, i: nat)
    requires DistinctKeys(diffs) && DistinctKeys(topics) && total >= 0
    requires NonNegativeShares(diffs) && NonNegativeShares(topics)
    ensures i < |diffs| ==>
              var t := SlotTarget(Slot(ByDifficulty, diffs[i].key), diffs, topics, total) as real;
              t - 0.5 <= total as real * diffs[i].pct / 100.0 < t + 0.5
    ensures i < |topics| ==>
              var t := SlotTarget(Slot(ByTopic, topics[i].key), diffs, topics, total) as real;
              t - 0.5 <= total as real * topics[i].pct / 100.0 < t + 0.5
  {
    hide RoundHalfUp;
    if i < |diffs| {
      PctOfKey(diffs, i);
      assert diffs[i] in diffs;
      ExactIsNonNegative(total, diffs[i].pct);
    }
    if i < |topics| {
      PctOfKey(topics, i);
      assert topics[i] in topics;
      ExactIsNonNegative(total, topics[i].pct);
    }
  }

  lemma ExactIsNonNegative(total: int, pct: real)
    requires total >= 0 && pct >= 0.0
    ensures Exact(total, pct) == total as real * pct / 100.0 >= 0.0
  {
  }
}
