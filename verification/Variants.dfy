/** Deterministic variant generation (`generate_variants`) and its audit replay. The random
    generator is any function of the seed and the step; the digest behind a derived seed is any
    function of the paper and the variant number. */
module Variants {
  import opened Wrappers
  import opened Coverage

  /** What the generator draws under a seed, for a list of this length, at position `i`; the shuffle
      reduces it to 0..i. The stream starts at the last position, so the length matters. */
  type Draws = (int, nat, nat) -> nat

  type Digest = (nat, nat) -> nat

  // ----- the seeded shuffle -----

  function Swap(s: seq<Question>, i: nat, j: nat): seq<Question>
    requires i < |s| && j < |s|
  {
    s[i := s[j]][j := s[i]]
  }

  /** The swaps for positions i, i-1, ..., 1. */
  function ShuffleDown(draws: Draws, seed: int, s: seq<Question>, i: nat): seq<Question>
    requires i == 0 || i < |s|
    decreases i
  {
    if i == 0 then s else ShuffleDown(draws, seed, Swap(s, i, draws(seed, |s|, i) % (i + 1)), i - 1)
  }

  function Shuffled(draws: Draws, seed: int, pool: seq<Question>): seq<Question> {
    if pool == [] then [] else ShuffleDown(draws, seed, pool, |pool| - 1)
  }

  lemma SwapPermutes(s: seq<Question>, i: nat, j: nat)
    requires i < |s| && j < |s|
    ensures multiset(Swap(s, i, j)) == multiset(s)
  {
  }

  lemma {:induction false} ShuffleDownPermutes(draws: Draws, seed: int, s: seq<Question>, i: nat)
    requires i == 0 || i < |s|
    ensures multiset(ShuffleDown(draws, seed, s, i)) == multiset(s)
    decreases i
  {
    if i > 0 {
      SwapPermutes(s, i, draws(seed, |s|, i) % (i + 1));
      ShuffleDownPermutes(draws, seed, Swap(s, i, draws(seed, |s|, i) % (i + 1)), i - 1);
    }
  }

  /** The shuffle loses and invents nothing. */
  lemma ShufflePermutes(draws: Draws, seed: int, pool: seq<Question>)
    ensures multiset(Shuffled(draws, seed, pool)) == multiset(pool)
  {
    if pool != [] {
      ShuffleDownPermutes(draws, seed, pool, |pool| - 1);
    }
  }

  /** `_shuffle_pool`: the pool is copied and the copy is shuffled in place. */
  method ShufflePool(draws: Draws, seed: int, pool: seq<Question>) returns (ordered: seq<Question>)
    ensures ordered == Shuffled(draws, seed, pool)
  {
    hide ShuffleDown, Swap;
    if pool == [] {
      return [];
    }
    var copy := new Question[|pool|](k requires 0 <= k < |pool| => pool[k]);
    assert copy[..] == pool;
    var i := |pool| - 1;
    while i > 0
      invariant 0 <= i < |pool| == copy.Length
      invariant ShuffleDown(draws, seed, pool, |pool| - 1) == ShuffleDown(draws, seed, copy[..], i)
    {
      var j := draws(seed, |pool|, i) % (i + 1);
      ghost var before := copy[..];
      copy[i], copy[j] := copy[j], copy[i];
      SwapIsUpdate(before, i, j);
      assert copy[..] == Swap(before, i, j);
      ShuffleOne(draws, seed, before, i);
      i := i - 1;
    }
    ShuffleEnds(draws, seed, copy[..]);
    return copy[..];
  }

  lemma SwapIsUpdate(s: seq<Question>, i: nat, j: nat)
    requires i < |s| && j < |s|
    ensures Swap(s, i, j) == s[i := s[j]][j := s[i]]
  {
  }

  lemma ShuffleOne(draws: Draws, seed: int, s: seq<Question>, i: nat)
    requires 0 < i < |s|
    ensures ShuffleDown(draws, seed, s, i) == ShuffleDown(draws, seed, Swap(s, i, draws(seed, |s|, i) % (i + 1)), i - 1)
  {
  }

  lemma ShuffleEnds(draws: Draws, seed: int, s: seq<Question>)
    ensures ShuffleDown(draws, seed, s, 0) == s
  {
  }

  // ----- seeds -----

  const SEED_LIMIT: nat := 0x8000_0000_0000_0000

  /** A supplied seed is used as it is; a derived one keeps 63 bits of the digest. */
  function DeriveSeed(digest: Digest, paper: nat, no: nat, supplied: Option<int>): (seed: int)
    ensures supplied.Some? ==> seed == supplied.value
    ensures supplied.None? ==> 0 <= seed < SEED_LIMIT
  {
    if supplied.Some? then supplied.value else digest(paper, no) % SEED_LIMIT
  }

  // ----- generation -----

  datatype Variant = Variant(no: nat, seed: int, items: seq<nat>, passed: bool, failed: seq<Violation>)

  datatype Error = NoBlueprint | SeedCountMismatch

  function Ids(items: seq<Question>): (ids: seq<nat>)
    ensures |ids| == |items| && forall i :: 0 <= i < |items| ==> ids[i] == items[i].id
  {
    seq(|items|, i requires 0 <= i < |items| => items[i].id)
  }

  /** The highest variant number among the first `n` variants, or 0. */
  function HighestNo(variants: seq<Variant>, n: nat): (no: nat)
    requires n <= |variants|
    ensures forall i :: 0 <= i < n ==> variants[i].no <= no
  {
    if n == 0 then 0
    else if variants[n - 1].no > HighestNo(variants, n - 1) then variants[n - 1].no
    else HighestNo(variants, n - 1)
  }

  function MakeVariant(draws: Draws, bp: Blueprint, pool: seq<Question>, no: nat, seed: int): Variant {
    var order := Shuffled(draws, seed, pool);
    var violations := Violations(order, bp, bp.tolerance);
    Variant(no, seed, Ids(order), violations == [], violations)
  }

  function SeedAt(digest: Digest, paper: nat, no: nat, seeds: Option<seq<int>>, i: nat): int {
    DeriveSeed(digest, paper, no, if seeds.Some? && i < |seeds.value| then Some(seeds.value[i]) else None)
  }

  /** The first `n` variants of one call, numbered after `last`. */
  function NewVariants(draws: Draws, digest: Digest, paper: nat, bp: Blueprint, pool: seq<Question>,
                       last: nat, seeds: Option<seq<int>>, n: nat): (vs: seq<Variant>)
    ensures |vs| == n
    ensures forall i :: 0 <= i < n ==>
              vs[i] == MakeVariant(draws, bp, pool, last + i + 1, SeedAt(digest, paper, last + i + 1, seeds, i))
  {
    if n == 0 then []
    else NewVariants(draws, digest, paper, bp, pool, last, seeds, n - 1)
         + [MakeVariant(draws, bp, pool, last + n, SeedAt(digest, paper, last + n, seeds, n - 1))]
  }

  class SubjectPaper {
    const id: nat
    var blueprint: Option<Blueprint>
    var variants: seq<Variant>

    constructor (id: nat, blueprint: Option<Blueprint>)
      ensures this.id == id && this.blueprint == blueprint && variants == []
    {
      this.id, this.blueprint, variants := id, blueprint, [];
    }

    /** `generate_variants`: failed variants are stored beside passed ones; the result splits them. */
    method GenerateVariants(draws: Draws, digest: Digest, pool: seq<Question>, count: nat, seeds: Option<seq<int>>)
      returns (created: seq<Variant>, rejected: seq<Variant>, error: Option<Error>)
      modifies this`variants
      ensures error == (if blueprint.None? then Some(NoBlueprint)
                        else if seeds.Some? && |seeds.value| != count then Some(SeedCountMismatch) else None)
      ensures error.Some? ==> variants == old(variants) && created == [] && rejected == []
      ensures error.None? ==>
                variants == old(variants) + NewVariants(draws, digest, id, blueprint.value, pool,
                                                        HighestNo(old(variants), |old(variants)|), seeds, count)
      ensures error.None? ==>
                && |variants| == |old(variants)| + count
                && created == Passed(variants[|old(variants)|..], count, true)
                && rejected == Passed(variants[|old(variants)|..], count, false)
    {
      hide HighestNo, NewVariants, MakeVariant, SeedAt;
      created, rejected := [], [];
      if blueprint.None? {
        return created, rejected, Some(NoBlueprint);
      }
      if seeds.Some? && |seeds.value| != count {
        return created, rejected, Some(SeedCountMismatch);
      }
      var bp := blueprint.value;
      var last := HighestNo(variants, |variants|);
      ghost var before := variants;
      ghost var all := NewVariants(draws, digest, id, bp, pool, last, seeds, count);
      for i := 0 to count
        invariant variants == before + all[..i]
        invariant created == Passed(all, i, true) && rejected == Passed(all, i, false)
      {
        var v := BuildVariant(draws, bp, pool, last + i + 1, SeedAt(digest, id, last + i + 1, seeds, i));
        assert v == all[i];
        assert all[..i + 1] == all[..i] + [v];
        variants := variants + [v];
        if v.passed {
          created := created + [v];
        } else {
          rejected := rejected + [v];
        }
      }
      assert all[..count] == all;
      assert variants[|before|..] == all;
      error := None;
    }
  }

  /** One turn of the generator's loop: shuffle, validate, assemble the row. */
  method BuildVariant(draws: Draws, bp: Blueprint, pool: seq<Question>, no: nat, seed: int) returns (v: Variant)
    ensures v == MakeVariant(draws, bp, pool, no, seed)
  {
    hide Violations, Shuffled, Ids;
    var order := ShufflePool(draws, seed, pool);
    var report := ValidateBlueprintCoverage(order, bp, Some(bp.tolerance));
    v := Variant(no, seed, Ids(order), report.valid, report.violations);
  }

  /** Those of the first `n` variants whose verdict is `verdict`, in order. */
  function Passed(vs: seq<Variant>, n: nat, verdict: bool): seq<Variant>
    requires n <= |vs|
  {
    if n == 0 then []
    else Passed(vs, n - 1, verdict) + if vs[n - 1].passed == verdict then [vs[n - 1]] else []
  }

  // ----- laws -----

  /** ALL OR NONE. Every variant of one call gets the verdict of the pool itself, whatever the
      seeds: the call accepts all its variants or rejects all of them. */
  lemma OneVerdictPerCall(draws: Draws, digest: Digest, paper: nat, bp: Blueprint, pool: seq<Question>,
                          last: nat, seeds: Option<seq<int>>, n: nat)
    ensures var vs := NewVariants(draws, digest, paper, bp, pool, last, seeds, n);
            forall i :: 0 <= i < n ==> (vs[i].passed <==> Violations(pool, bp, bp.tolerance) == [])
  {
    var vs := NewVariants(draws, digest, paper, bp, pool, last, seeds, n);
    forall i | 0 <= i < n ensures vs[i].passed <==> Violations(pool, bp, bp.tolerance) == [] {
      var seed := SeedAt(digest, paper, last + i + 1, seeds, i);
      ShufflePermutes(draws, seed, pool);
      VerdictIgnoresOrder(Shuffled(draws, seed, pool), pool, bp, bp.tolerance);
      hide Violations, Shuffled, NewVariants;
    }
  }

  predicate DistinctNos(variants: seq<Variant>) {
    forall i, j :: 0 <= i < j < |variants| ==> variants[i].no != variants[j].no
  }

  /** Running the generator again only adds variants, under fresh consecutive numbers. */
  lemma NumbersStayDistinct(draws: Draws, digest: Digest, paper: nat, bp: Blueprint, pool: seq<Question>,
                            before: seq<Variant>, seeds: Option<seq<int>>, n: nat)
    requires DistinctNos(before)
    ensures DistinctNos(before + NewVariants(draws, digest, paper, bp, pool, HighestNo(before, |before|), seeds, n))
  {
    var last := HighestNo(before, |before|);
    var vs := NewVariants(draws, digest, paper, bp, pool, last, seeds, n);
    forall i | 0 <= i < n ensures vs[i].no == last + i + 1 {
    }
    hide NewVariants, MakeVariant;
  }

  /** `regenerate_variant_for_audit`. */
  function Regenerate(draws: Draws, v: Variant, pool: seq<Question>): seq<nat> {
    Ids(Shuffled(draws, v.seed, pool))
  }

  method RegenerateVariantForAudit(draws: Draws, v: Variant, pool: seq<Question>) returns (ids: seq<nat>)
    ensures ids == Regenerate(draws, v, pool)
  {
    var order := ShufflePool(draws, v.seed, pool);
    ids := Ids(order);
  }

  /** One call of the generator; the pool is what the query answers at that moment. */
  datatype Call = Call(count: nat, seeds: Option<seq<int>>, pool: seq<Question>)

  /** A paper's rows after the first `n` calls. */
  function Table(draws: Draws, digest: Digest, paper: nat, bp: Blueprint, calls: seq<Call>, n: nat): seq<Variant>
    requires n <= |calls|
  {
    if n == 0 then []
    else
      var before, c := Table(draws, digest, paper, bp, calls, n - 1), calls[n - 1];
      if c.seeds.Some? && |c.seeds.value| != c.count then before
      else before + NewVariants(draws, digest, paper, bp, c.pool, HighestNo(before, |before|), c.seeds, c.count)
  }

  lemma SwapKeepsDifference(a: seq<Question>, b: seq<Question>, i: nat, j: nat)
    requires |a| == |b| && i < |a| && j < |a|
    ensures Ids(Swap(a, i, j)) == Ids(Swap(b, i, j)) <==> Ids(a) == Ids(b)
  {
    var x, y := Swap(a, i, j), Swap(b, i, j);
    if Ids(x) == Ids(y) {
      forall k | 0 <= k < |a| ensures Ids(a)[k] == Ids(b)[k] {
        var from := if k == i then j else if k == j then i else k;
        assert x[from] == a[k] && y[from] == b[k];
        assert Ids(x)[from] == Ids(y)[from];
      }
      assert Ids(a) == Ids(b);
    }
    if Ids(a) == Ids(b) {
      forall k | 0 <= k < |a| ensures Ids(x)[k] == Ids(y)[k] {
        var from := if k == i then j else if k == j then i else k;
        assert x[k] == a[from] && y[k] == b[from];
        assert Ids(a)[from] == Ids(b)[from];
      }
      assert Ids(x) == Ids(y);
    }
  }

  lemma {:induction false} ShuffleDownKeepsDifference(draws: Draws, seed: int, a: seq<Question>, b: seq<Question>,
                                                      i: nat)
    requires |a| == |b| && (i == 0 || i < |a|)
    ensures |ShuffleDown(draws, seed, a, i)| == |a|
    ensures Ids(ShuffleDown(draws, seed, a, i)) == Ids(ShuffleDown(draws, seed, b, i)) <==> Ids(a) == Ids(b)
    decreases i
  {
    hide Ids;
    if i > 0 {
      var j := draws(seed, |a|, i) % (i + 1);
      SwapKeepsDifference(a, b, i, j);
      ShuffleDownKeepsDifference(draws, seed, Swap(a, i, j), Swap(b, i, j), i - 1);
    }
  }

  /** One seed is one permutation of positions: two pools come out in the same order exactly when
      they went in in the same order. */
  lemma ShuffleKeepsDifference(draws: Draws, seed: int, a: seq<Question>, b: seq<Question>)
    ensures |Shuffled(draws, seed, a)| == |a|
    ensures Ids(Shuffled(draws, seed, a)) == Ids(Shuffled(draws, seed, b)) <==> Ids(a) == Ids(b)
  {
    hide ShuffleDown;
    if a != [] {
      ShuffleDownKeepsDifference(draws, seed, a, a, |a| - 1);
    }
    if b != [] {
      ShuffleDownKeepsDifference(draws, seed, b, b, |b| - 1);
    }
    if |a| == |b| > 0 {
      ShuffleDownKeepsDifference(draws, seed, a, b, |a| - 1);
    }
  }

  /** The rows a call adds to the table. */
  lemma TableUnfolds(draws: Draws, digest: Digest, paper: nat, bp: Blueprint, calls: seq<Call>, n: nat, i: nat)
    requires 0 < n <= |calls| && i < |Table(draws, digest, paper, bp, calls, n)|
    requires i >= |Table(draws, digest, paper, bp, calls, n - 1)|
    ensures var v := Table(draws, digest, paper, bp, calls, n)[i];
            v == MakeVariant(draws, bp, calls[n - 1].pool, v.no, v.seed)
  {
    hide Shuffled, Violations, HighestNo, Ids, SeedAt;
  }

  lemma EarlierRows(draws: Draws, digest: Digest, paper: nat, bp: Blueprint, calls: seq<Call>, n: nat)
    requires 0 < n <= |calls|
    ensures Table(draws, digest, paper, bp, calls, n - 1) <= Table(draws, digest, paper, bp, calls, n)
  {
    hide NewVariants, HighestNo;
  }

  /** REPLAY, EXACTLY. After any sequence of calls, every stored row has a call that made it, and for
      every later pool the audit replay returns the stored order if and only if that pool lists the
      ids that the call read, in the same order. So an unchanged answer of the pool query always
      replays, and a mismatch means that the ids, or the order in which the query lists them, or
      the stored row has changed. */
  lemma {:induction false} ReplayIff(draws: Draws, digest: Digest, paper: nat, bp: Blueprint, calls: seq<Call>,
                                     n: nat, i: nat)
    returns (c: nat)
    requires n <= |calls| && i < |Table(draws, digest, paper, bp, calls, n)|
    ensures c < n
    ensures var v := Table(draws, digest, paper, bp, calls, n)[i];
            forall later: seq<Question> :: Regenerate(draws, v, later) == v.items <==> Ids(later) == Ids(calls[c].pool)
  {
    hide Table, Shuffled, Violations, Ids;
    var v := Table(draws, digest, paper, bp, calls, n)[i];
    TableStarts(draws, digest, paper, bp, calls);
    EarlierRows(draws, digest, paper, bp, calls, n);
    if i < |Table(draws, digest, paper, bp, calls, n - 1)| {
      c := ReplayIff(draws, digest, paper, bp, calls, n - 1, i);
    } else {
      c := n - 1;
      TableUnfolds(draws, digest, paper, bp, calls, n, i);
      forall later: seq<Question>
        ensures Regenerate(draws, v, later) == v.items <==> Ids(later) == Ids(calls[c].pool)
      {
        ShuffleKeepsDifference(draws, v.seed, later, calls[c].pool);
      }
    }
  }

  lemma TableStarts(draws: Draws, digest: Digest, paper: nat, bp: Blueprint, calls: seq<Call>)
    ensures Table(draws, digest, paper, bp, calls, 0) == []
  {
  }

  /** With a pool that never changed, every stored row replays to its stored order. */
  lemma ReplayReproduces(draws: Draws, digest: Digest, paper: nat, bp: Blueprint, calls: seq<Call>,
                         pool: seq<Question>, i: nat)
    requires forall c :: 0 <= c < |calls| ==> calls[c].pool == pool
    requires i < |Table(draws, digest, paper, bp, calls, |calls|)|
    ensures var v := Table(draws, digest, paper, bp, calls, |calls|)[i];
            Regenerate(draws, v, pool) == v.items
  {
    hide Table, Regenerate;
    var c := ReplayIff(draws, digest, paper, bp, calls, |calls|, i);
  }

  /** How many of the first `n` items carry an id. */
  function IdCount(items: seq<Question>, n: nat, id: nat): nat
    requires n <= |items|
  {
    if n == 0 then 0 else IdCount(items, n - 1, id) + if items[n - 1].id == id then 1 else 0
  }

  lemma {:induction false} IdCountIsMultiplicity(items: seq<Question>, n: nat, id: nat)
    requires n <= |items|
    ensures IdCount(items, n, id) == multiset(Ids(items)[..n])[id]
  {
    if n > 0 {
      IdCountIsMultiplicity(items, n - 1, id);
      assert Ids(items)[..n] == Ids(items)[..n - 1] + [items[n - 1].id];
    }
  }

  lemma {:induction false} SwapKeepsIdCount(s: seq<Question>, i: nat, j: nat, n: nat, id: nat)
    requires i < |s| && j < |s| && n <= |s|
    ensures IdCount(Swap(s, i, j), n, id)
         == IdCount(s, n, id)
            + (if i < n <= j && s[j].id == id then 1 else 0) - (if i < n <= j && s[i].id == id then 1 else 0)
            + (if j < n <= i && s[i].id == id then 1 else 0) - (if j < n <= i && s[j].id == id then 1 else 0)
  {
    if n > 0 {
      SwapKeepsIdCount(s, i, j, n - 1, id);
    }
  }

  lemma {:induction false} ShuffleDownKeepsIdCount(draws: Draws, seed: int, s: seq<Question>, i: nat, id: nat)
    requires i == 0 || i < |s|
    ensures |ShuffleDown(draws, seed, s, i)| == |s|
    ensures IdCount(ShuffleDown(draws, seed, s, i), |s|, id) == IdCount(s, |s|, id)
    decreases i
  {
    if i > 0 {
      var j := draws(seed, |s|, i) % (i + 1);
      SwapKeepsIdCount(s, i, j, |s|, id);
      ShuffleDownKeepsIdCount(draws, seed, Swap(s, i, j), i - 1, id);
    }
  }

  lemma ShuffleKeepsIds(draws: Draws, seed: int, pool: seq<Question>)
    ensures multiset(Ids(Shuffled(draws, seed, pool))) == multiset(Ids(pool))
  {
    var order := Shuffled(draws, seed, pool);
    forall id: nat ensures multiset(Ids(order))[id] == multiset(Ids(pool))[id] {
      if pool != [] {
        ShuffleDownKeepsIdCount(draws, seed, pool, |pool| - 1, id);
      }
      IdCountIsMultiplicity(order, |order|, id);
      IdCountIsMultiplicity(pool, |pool|, id);
      assert Ids(order)[..|order|] == Ids(order) && Ids(pool)[..|pool|] == Ids(pool);
    }
  }

  /** Stored orders and replays are permutations of the pool they were made from, so a replay can
      equal the stored order only if the pool holds the same ids as at generation time. */
  lemma ReplayIsPermutation(draws: Draws, bp: Blueprint, pool: seq<Question>, later: seq<Question>, no: nat, seed: int)
    ensures var v := MakeVariant(draws, bp, pool, no, seed);
            && multiset(v.items) == multiset(Ids(pool))
            && multiset(Regenerate(draws, v, later)) == multiset(Ids(later))
            && (Regenerate(draws, v, later) == v.items ==> multiset(Ids(later)) == multiset(Ids(pool)))
  {
    ShuffleKeepsIds(draws, seed, pool);
    ShuffleKeepsIds(draws, seed, later);
    hide Shuffled, Violations, Ids;
  }

  /** The pool query fixes no order. The same two items listed the other way round replay to another
      order, with nothing altered and nothing drifted. */
  lemma SameItemsCanMismatch(draws: Draws, bp: Blueprint, p: Question, q: Question, no: nat, seed: int)
    requires p.id != q.id
    ensures multiset([p, q]) == multiset([q, p])
    ensures var v := MakeVariant(draws, bp, [p, q], no, seed); Regenerate(draws, v, [q, p]) != v.items
  {
    ShuffleKeepsDifference(draws, seed, [p, q], [q, p]);
    assert Ids([p, q])[0] == p.id && Ids([q, p])[0] == q.id;
    hide Shuffled, Violations, Ids;
  }

  // ----- the shuffle, position by position -----

  /** The list as it stands when position `i` is drawn: the swaps for the positions above are done. */
  function Standing(draws: Draws, seed: int, pool: seq<Question>, i: nat): (s: seq<Question>)
    requires i < |pool|
    ensures |s| == |pool|
    decreases |pool| - i
  {
    if i == |pool| - 1 then pool
    else
      var s := Standing(draws, seed, pool, i + 1);
      var j := draws(seed, |pool|, i + 1) % (i + 2);
      s[i + 1 := s[j]][j := s[i + 1]]
  }

  lemma {:induction false} ShuffleDownKeepsAbove(draws: Draws, seed: int, s: seq<Question>, i: nat)
    requires i == 0 || i < |s|
    ensures |ShuffleDown(draws, seed, s, i)| == |s|
    ensures forall k :: i < k < |s| ==> ShuffleDown(draws, seed, s, i)[k] == s[k]
    decreases i
  {
    if i > 0 {
      ShuffleDownKeepsAbove(draws, seed, Swap(s, i, draws(seed, |s|, i) % (i + 1)), i - 1);
    }
  }

  lemma StandingUnfolds(draws: Draws, seed: int, pool: seq<Question>, i: nat)
    requires i < |pool|
    ensures i == |pool| - 1 ==> Standing(draws, seed, pool, i) == pool
    ensures i < |pool| - 1 ==>
              var s := Standing(draws, seed, pool, i + 1);
              Standing(draws, seed, pool, i) == Swap(s, i + 1, draws(seed, |s|, i + 1) % (i + 2))
  {
    hide ShuffleDown;
  }

  lemma {:induction false} StandingShuffles(draws: Draws, seed: int, pool: seq<Question>, i: nat)
    requires i < |pool|
    ensures ShuffleDown(draws, seed, Standing(draws, seed, pool, i), i) == Shuffled(draws, seed, pool)
    decreases |pool| - i
  {
    hide ShuffleDown, Swap, Standing;
    StandingUnfolds(draws, seed, pool, i);
    if i < |pool| - 1 {
      StandingShuffles(draws, seed, pool, i + 1);
      ShuffleOne(draws, seed, Standing(draws, seed, pool, i + 1), i + 1);
    }
  }

  lemma SwapAt(s: seq<Question>, i: nat, j: nat)
    requires i < |s| && j <= i
    ensures |Swap(s, i, j)| == |s| && Swap(s, i, j)[i] == s[j]
    ensures forall k :: i < k < |s| ==> Swap(s, i, j)[k] == s[k]
  {
  }

  lemma DownToPosition(draws: Draws, seed: int, s: seq<Question>, i: nat)
    requires 0 < i < |s|
    ensures |ShuffleDown(draws, seed, s, i)| == |s|
    ensures ShuffleDown(draws, seed, s, i)[i] == s[draws(seed, |s|, i) % (i + 1)]
  {
    hide ShuffleDown, Swap;
    var j := draws(seed, |s|, i) % (i + 1);
    SwapAt(s, i, j);
    ShuffleOne(draws, seed, s, i);
    ShuffleDownKeepsAbove(draws, seed, Swap(s, i, j), i - 1);
  }

  /** Each position of the result holds the item drawn for it from the part of the list up to it. */
  lemma PositionIsDrawn(draws: Draws, seed: int, pool: seq<Question>, i: nat)
    requires i < |pool|
    ensures |Shuffled(draws, seed, pool)| == |pool|
    ensures Shuffled(draws, seed, pool)[i]
         == Standing(draws, seed, pool, i)[if i == 0 then 0 else draws(seed, |pool|, i) % (i + 1)]
  {
    hide ShuffleDown, Swap, Shuffled, Standing;
    var s := Standing(draws, seed, pool, i);
    StandingShuffles(draws, seed, pool, i);
    if i > 0 {
      DownToPosition(draws, seed, s, i);
    } else {
      ShuffleEnds(draws, seed, s);
    }
  }

  lemma DropLast(a: seq<Question>, b: seq<Question>, x: Question)
    requires multiset(a + [x]) == multiset(b + [x])
    ensures multiset(a) == multiset(b)
  {
    assert multiset(a) == multiset(a + [x]) - multiset{x};
    assert multiset(b) == multiset(b + [x]) - multiset{x};
  }

  lemma PrefixStays(s: seq<Question>, goal: seq<Question>, i: nat, j: nat)
    requires |s| == |goal| && j <= i < |s| && s[j] == goal[i]
    requires multiset(s[..i + 1]) == multiset(goal[..i + 1])
    ensures multiset(Swap(s, i, j)[..i]) == multiset(goal[..i])
  {
    var t := Swap(s, i, j);
    SwapAt(s, i, j);
    assert t[..i + 1] == Swap(s[..i + 1], i, j);
    SwapPermutes(s[..i + 1], i, j);
    assert t[..i + 1] == t[..i] + [goal[i]] && goal[..i + 1] == goal[..i] + [goal[i]];
    DropLast(t[..i], goal[..i], goal[i]);
  }

  lemma {:induction false} SameDraws(a: Draws, b: Draws, seed: int, s: seq<Question>, i: nat)
    requires i == 0 || i < |s|
    requires forall k :: 1 <= k <= i ==> a(seed, |s|, k) == b(seed, |s|, k)
    ensures ShuffleDown(a, seed, s, i) == ShuffleDown(b, seed, s, i)
    decreases i
  {
    if i > 0 {
      var t := Swap(s, i, a(seed, |s|, i) % (i + 1));
      SameDraws(a, b, seed, t, i - 1);
    }
  }

  /** The same draws, but `j` at position `i`. */
  function Redrawn(rest: Draws, i: nat, j: nat): Draws {
    (x: int, n: nat, k: nat) => if k == i then j else rest(x, n, k)
  }

  lemma SmallMod(j: nat, n: nat)
    requires j < n
    ensures j % n == j
  {
  }

  lemma DrawFirst(rest: Draws, seed: int, s: seq<Question>, i: nat, j: nat)
    requires 0 < i < |s| && j <= i
    ensures ShuffleDown(Redrawn(rest, i, j), seed, s, i) == ShuffleDown(rest, seed, Swap(s, i, j), i - 1)
  {
    hide ShuffleDown, Swap;
    var draws := Redrawn(rest, i, j);
    SmallMod(j, i + 1);
    SwapAt(s, i, j);
    ShuffleOne(draws, seed, s, i);
    SameDraws(draws, rest, seed, Swap(s, i, j), i - 1);
  }

  lemma OnlyOneLeft(draws: Draws, seed: int, s: seq<Question>, goal: seq<Question>)
    requires |s| == |goal| > 0 && multiset(s[..1]) == multiset(goal[..1])
    requires forall k :: 0 < k < |s| ==> s[k] == goal[k]
    ensures ShuffleDown(draws, seed, s, 0) == goal
  {
    var j := FindLast(s, goal, 0);
    assert s == goal;
  }

  /** What to draw at the positions up to `i` to turn `s` into `goal`. */
  lemma {:induction false} FindDraws(seed: int, s: seq<Question>, goal: seq<Question>, i: nat) returns (draws: Draws)
    requires |s| == |goal| && i < |s| && multiset(s[..i + 1]) == multiset(goal[..i + 1])
    requires forall k :: i < k < |s| ==> s[k] == goal[k]
    ensures ShuffleDown(draws, seed, s, i) == goal
    decreases i
  {
    hide ShuffleDown, Swap, Redrawn;
    if i == 0 {
      draws := (x: int, n: nat, k: nat) => 0;
      OnlyOneLeft(draws, seed, s, goal);
    } else {
      var j := FindLast(s, goal, i);
      var t := Swap(s, i, j);
      SwapAt(s, i, j);
      PrefixStays(s, goal, i, j);
      assert t[..i - 1 + 1] == t[..i] && goal[..i - 1 + 1] == goal[..i];
      var rest := FindDraws(seed, t, goal, i - 1);
      draws := Redrawn(rest, i, j);
      DrawFirst(rest, seed, s, i, j);
    }
  }

  lemma FindLast(s: seq<Question>, goal: seq<Question>, i: nat) returns (j: nat)
    requires |s| == |goal| && i < |s| && multiset(s[..i + 1]) == multiset(goal[..i + 1])
    ensures j <= i && s[j] == goal[i]
  {
    assert goal[..i + 1][i] in multiset(goal[..i + 1]);
    assert goal[i] in s[..i + 1];
    j :| 0 <= j < i + 1 && s[..i + 1][j] == goal[i];
  }

  /** EVERY ORDER CAN COME OUT. For every reordering of the pool there are draws that produce it. */
  lemma EveryOrderIsPossible(seed: int, pool: seq<Question>, goal: seq<Question>) returns (draws: Draws)
    requires multiset(pool) == multiset(goal)
    ensures Shuffled(draws, seed, pool) == goal
  {
    assert |pool| == |multiset(pool)| == |multiset(goal)| == |goal|;
    if pool == [] {
      draws := (x: int, n: nat, k: nat) => 0;
    } else {
      var n := |pool| - 1;
      assert pool[..n + 1] == pool && goal[..n + 1] == goal;
      draws := FindDraws(seed, pool, goal, n);
    }
  }

  /** The rows of one call: numbered on from the highest, each with the supplied seed or 63 bits of the
      digest, the shuffled ids, and the verdict of the coverage check at the blueprint's tolerance. */
  lemma NewRowsAre(draws: Draws, digest: Digest, paper: nat, bp: Blueprint, pool: seq<Question>, last: nat,
                   seeds: Option<seq<int>>, n: nat, i: nat)
    requires i < n && (seeds.Some? ==> |seeds.value| == n)
    ensures var v := NewVariants(draws, digest, paper, bp, pool, last, seeds, n)[i];
            && v.no == last + i + 1
            && v.seed == (if seeds.Some? then seeds.value[i] else digest(paper, v.no) % 9223372036854775808)
            && v.items == Ids(Shuffled(draws, v.seed, pool))
            && v.failed == Violations(Shuffled(draws, v.seed, pool), bp, bp.tolerance)
            && (v.passed <==> CoverageOk(Shuffled(draws, v.seed, pool), bp, bp.tolerance))
  {
    hide Shuffled, Violations, CoverageOk, Ids;
    var v := NewVariants(draws, digest, paper, bp, pool, last, seeds, n)[i];
    VerdictIff(Shuffled(draws, v.seed, pool), bp, bp.tolerance);
  }

  predicate Consecutive(vs: seq<Variant>) {
    forall i :: 0 <= i < |vs| ==> vs[i].no == i + 1
  }

  lemma {:induction false} HighestOfConsecutive(vs: seq<Variant>, n: nat)
    requires Consecutive(vs) && n <= |vs|
    ensures HighestNo(vs, n) == n
  {
    if n > 0 {
      HighestOfConsecutive(vs, n - 1);
    }
  }

  /** Over any sequence of calls a paper's variants are numbered 1, 2, 3 and so on. */
  lemma {:induction false} TableIsConsecutive(draws: Draws, digest: Digest, paper: nat, bp: Blueprint, calls: seq<Call>,
                                              n: nat)
    requires n <= |calls|
    ensures Consecutive(Table(draws, digest, paper, bp, calls, n))
  {
    if n > 0 {
      TableIsConsecutive(draws, digest, paper, bp, calls, n - 1);
      var before := Table(draws, digest, paper, bp, calls, n - 1);
      HighestOfConsecutive(before, |before|);
      hide HighestNo, Shuffled, Violations, Ids;
    }
  }
}
