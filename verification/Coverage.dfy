/** The blueprint coverage validator of the sitting app (`validate_blueprint_coverage`). Shares
    are exact rationals; marks are whole marks, truncated from hundredths. */
module Coverage {
  import opened Wrappers

  datatype Question = Question(id: nat, topic: Option<string>, cognitive: Option<string>,
                               difficulty: Option<string>, marks: Option<int>)

  datatype Dimension = TopicDim | CognitiveDim | DifficultyDim

  datatype Target = Target(bucket: string, share: real)

  datatype Blueprint = Blueprint(totalMarks: int, topics: seq<Target>, cognitive: seq<Target>,
                                 difficulty: seq<Target>, sections: seq<int>, tolerance: real)

  datatype Violation =
    | TotalMismatch(actual: int, expected: int)
    | OutsideTolerance(dim: Dimension, bucket: string, share: real)
    | Undeclared(undeclaredDim: Dimension, name: string)
    | SectionsMismatch(sum: int, total: int)

  datatype Report = Report(valid: bool, actual: int, violations: seq<Violation>)

  const UNSPECIFIED: string := "Unspecified"

  /** `int(value)`: truncation toward zero. */
  function WholeMarks(q: Question): int {
    if q.marks.None? then 0
    else if q.marks.value >= 0 then q.marks.value / 100 else -((-q.marks.value) / 100)
  }

  function TagOf(q: Question, dim: Dimension): Option<string> {
    match dim
    case TopicDim => q.topic
    case CognitiveDim => q.cognitive
    case DifficultyDim => q.difficulty
  }

  function BucketOf(q: Question, dim: Dimension): string {
    if TagOf(q, dim).Some? && TagOf(q, dim).value != "" then TagOf(q, dim).value else UNSPECIFIED
  }

  function TotalUpTo(items: seq<Question>, n: nat): int
    requires n <= |items|
  {
    if n == 0 then 0 else TotalUpTo(items, n - 1) + WholeMarks(items[n - 1])
  }

  function Total(items: seq<Question>): int { TotalUpTo(items, |items|) }

  /** The marks of one bucket over the first `n` items. */
  function MarksUpTo(items: seq<Question>, n: nat, dim: Dimension, bucket: string): int
    requires n <= |items|
  {
    if n == 0 then 0
    else MarksUpTo(items, n - 1, dim, bucket)
         + if BucketOf(items[n - 1], dim) == bucket then WholeMarks(items[n - 1]) else 0
  }

  function MarksIn(items: seq<Question>, dim: Dimension, bucket: string): int {
    MarksUpTo(items, |items|, dim, bucket)
  }

  /** The bucket names over the first `n` items, by first occurrence: the dictionary's order. */
  function NamesUpTo(items: seq<Question>, n: nat, dim: Dimension): (names: seq<string>)
    requires n <= |items|
    ensures forall i :: 0 <= i < n ==> BucketOf(items[i], dim) in names
  {
    if n == 0 then []
    else
      var names := NamesUpTo(items, n - 1, dim);
      if BucketOf(items[n - 1], dim) in names then names else names + [BucketOf(items[n - 1], dim)]
  }

  function Names(items: seq<Question>, dim: Dimension): seq<string> {
    NamesUpTo(items, |items|, dim)
  }

  function Share(items: seq<Question>, dim: Dimension, bucket: string): real {
    if Total(items) == 0 then 0.0 else MarksIn(items, dim, bucket) as real / Total(items) as real
  }

  predicate Within(actual: real, target: real, tolerance: real) {
    -tolerance <= actual - target <= tolerance
  }

  function TargetsOf(bp: Blueprint, dim: Dimension): seq<Target> {
    match dim
    case TopicDim => bp.topics
    case CognitiveDim => bp.cognitive
    case DifficultyDim => bp.difficulty
  }

  predicate Declares(targets: seq<Target>, name: string) {
    exists k :: 0 <= k < |targets| && targets[k].bucket == name
  }

  function Sum(s: seq<int>, n: nat): int
    requires n <= |s|
  {
    if n == 0 then 0 else Sum(s, n - 1) + s[n - 1]
  }

  /** The caller's tolerance, else the blueprint's, else five percent. */
  function Tolerance(bp: Blueprint, supplied: Option<real>): real {
    if supplied.Some? then supplied.value else if bp.tolerance != 0.0 then bp.tolerance else 0.05
  }

  // ----- the list of violations, in the validator's order -----

  function OutsideUpTo(items: seq<Question>, targets: seq<Target>, n: nat, dim: Dimension, tol: real): seq<Violation>
    requires n <= |targets|
  {
    if n == 0 then []
    else
      var t := targets[n - 1];
      var share := Share(items, dim, t.bucket);
      OutsideUpTo(items, targets, n - 1, dim, tol)
      + if Within(share, t.share, tol) then [] else [OutsideTolerance(dim, t.bucket, share)]
  }

  function UndeclaredUpTo(names: seq<string>, targets: seq<Target>, n: nat, dim: Dimension): seq<Violation>
    requires n <= |names|
  {
    if n == 0 then []
    else
      UndeclaredUpTo(names, targets, n - 1, dim)
      + if !Declares(targets, names[n - 1]) && names[n - 1] != UNSPECIFIED
        then [Undeclared(dim, names[n - 1])] else []
  }

  function DimensionViolations(items: seq<Question>, bp: Blueprint, dim: Dimension, tol: real): seq<Violation> {
    var targets := TargetsOf(bp, dim);
    if targets == [] then []
    else OutsideUpTo(items, targets, |targets|, dim, tol)
         + UndeclaredUpTo(Names(items, dim), targets, |Names(items, dim)|, dim)
  }

  function TotalViolations(items: seq<Question>, bp: Blueprint): seq<Violation> {
    if bp.totalMarks != 0 && Total(items) != bp.totalMarks
    then [TotalMismatch(Total(items), bp.totalMarks)] else []
  }

  function SectionViolations(bp: Blueprint): seq<Violation> {
    if bp.sections != [] && bp.totalMarks != 0 && Sum(bp.sections, |bp.sections|) != bp.totalMarks
    then [SectionsMismatch(Sum(bp.sections, |bp.sections|), bp.totalMarks)] else []
  }

  function Violations(items: seq<Question>, bp: Blueprint, tol: real): seq<Violation> {
    TotalViolations(items, bp)
    + DimensionViolations(items, bp, TopicDim, tol)
    + DimensionViolations(items, bp, CognitiveDim, tol)
    + DimensionViolations(items, bp, DifficultyDim, tol)
    + SectionViolations(bp)
  }

  // ----- the validator itself -----

  /** `_bucket`: marks per bucket, and the order in which the buckets first occur. */
  method Bucket(items: seq<Question>, dim: Dimension) returns (order: seq<string>, sums: map<string, int>)
    ensures order == Names(items, dim)
    ensures forall name :: name in sums <==> name in order
    ensures forall name :: (if name in sums then sums[name] else 0) == MarksIn(items, dim, name)
  {
    order, sums := [], map[];
    for i := 0 to |items|
      invariant order == NamesUpTo(items, i, dim)
      invariant forall name :: name in sums <==> name in order
      invariant forall name :: (if name in sums then sums[name] else 0) == MarksUpTo(items, i, dim, name)
    {
      var bucket := BucketOf(items[i], dim);
      if bucket !in sums {
        order := order + [bucket];
      }
      sums := sums[bucket := (if bucket in sums then sums[bucket] else 0) + WholeMarks(items[i])];
    }
  }

  /** `_check_distribution`. */
  method CheckDistribution(items: seq<Question>, bp: Blueprint, dim: Dimension, total: int, tol: real)
    returns (found: seq<Violation>)
    requires total == Total(items)
    ensures found == DimensionViolations(items, bp, dim, tol)
  {
    hide MarksIn, Total, Names, BucketOf, Within, Declares, TargetsOf;
    var targets := TargetsOf(bp, dim);
    found := [];
    if targets == [] {
      return;
    }
    var order, sums := Bucket(items, dim);
    for k := 0 to |targets|
      invariant found == OutsideUpTo(items, targets, k, dim, tol)
    {
      var marks := if targets[k].bucket in sums then sums[targets[k].bucket] else 0;
      var share := if total == 0 then 0.0 else marks as real / total as real;
      if !Within(share, targets[k].share, tol) {
        found := found + [OutsideTolerance(dim, targets[k].bucket, share)];
      }
    }
    ghost var outside := found;
    assert outside + [] == outside;
    for k := 0 to |order|
      invariant found == outside + UndeclaredUpTo(order, targets, k, dim)
    {
      if !Declares(targets, order[k]) && order[k] != UNSPECIFIED {
        found := found + [Undeclared(dim, order[k])];
      }
    }
  }

  method ValidateBlueprintCoverage(items: seq<Question>, bp: Blueprint, tolerance: Option<real>)
    returns (report: Report)
    ensures report.violations == Violations(items, bp, Tolerance(bp, tolerance))
    ensures report.valid <==> report.violations == []
    ensures report.actual == Total(items)
  {
    hide DimensionViolations, Total;
    var tol := Tolerance(bp, tolerance);
    var total := Total(items);
    var violations: seq<Violation> := [];
    if bp.totalMarks != 0 && total != bp.totalMarks {
      violations := [TotalMismatch(total, bp.totalMarks)];
    }
    var found := CheckDistribution(items, bp, TopicDim, total, tol);
    violations := violations + found;
    found := CheckDistribution(items, bp, CognitiveDim, total, tol);
    violations := violations + found;
    found := CheckDistribution(items, bp, DifficultyDim, total, tol);
    violations := violations + found;
    if bp.sections != [] {
      var sum := Sum(bp.sections, |bp.sections|);
      if bp.totalMarks != 0 && sum != bp.totalMarks {
        violations := violations + [SectionsMismatch(sum, bp.totalMarks)];
      }
    }
    report := Report(violations == [], total, violations);
  }

  // ----- the verdict, stated without lists -----

  predicate DimensionOk(items: seq<Question>, bp: Blueprint, dim: Dimension, tol: real) {
    TargetsOf(bp, dim) != [] ==>
      && (forall k :: 0 <= k < |TargetsOf(bp, dim)| ==>
            Within(Share(items, dim, TargetsOf(bp, dim)[k].bucket), TargetsOf(bp, dim)[k].share, tol))
      && (forall i :: 0 <= i < |items| ==>
            BucketOf(items[i], dim) == UNSPECIFIED || Declares(TargetsOf(bp, dim), BucketOf(items[i], dim)))
  }

  predicate CoverageOk(items: seq<Question>, bp: Blueprint, tol: real) {
    && (bp.totalMarks != 0 ==> Total(items) == bp.totalMarks)
    && DimensionOk(items, bp, TopicDim, tol)
    && DimensionOk(items, bp, CognitiveDim, tol)
    && DimensionOk(items, bp, DifficultyDim, tol)
    && (bp.sections != [] && bp.totalMarks != 0 ==> Sum(bp.sections, |bp.sections|) == bp.totalMarks)
  }

  lemma {:induction false} NoneOutside(items: seq<Question>, targets: seq<Target>, n: nat, dim: Dimension, tol: real)
    requires n <= |targets|
    ensures OutsideUpTo(items, targets, n, dim, tol) == [] <==>
              forall k :: 0 <= k < n ==> Within(Share(items, dim, targets[k].bucket), targets[k].share, tol)
  {
    hide Share, Within;
    if n > 0 {
      NoneOutside(items, targets, n - 1, dim, tol);
    }
  }

  lemma {:induction false} NoneUndeclared(names: seq<string>, targets: seq<Target>, n: nat, dim: Dimension)
    requires n <= |names|
    ensures UndeclaredUpTo(names, targets, n, dim) == [] <==>
              forall k :: 0 <= k < n ==> names[k] == UNSPECIFIED || Declares(targets, names[k])
  {
    if n > 0 {
      NoneUndeclared(names, targets, n - 1, dim);
    }
  }

  lemma {:induction false} NamesAreBuckets(items: seq<Question>, n: nat, dim: Dimension)
    requires n <= |items|
    ensures forall name :: name in NamesUpTo(items, n, dim) <==>
              exists i :: 0 <= i < n && BucketOf(items[i], dim) == name
  {
    if n > 0 {
      NamesAreBuckets(items, n - 1, dim);
    }
  }

  lemma DimensionVerdict(items: seq<Question>, bp: Blueprint, dim: Dimension, tol: real)
    ensures DimensionViolations(items, bp, dim, tol) == [] <==> DimensionOk(items, bp, dim, tol)
  {
    var targets, names := TargetsOf(bp, dim), Names(items, dim);
    NoneOutside(items, targets, |targets|, dim, tol);
    NoneUndeclared(names, targets, |names|, dim);
    NamesAreBuckets(items, |items|, dim);
    hide Share, Within, Declares, BucketOf;
    assert (forall k :: 0 <= k < |names| ==> names[k] == UNSPECIFIED || Declares(targets, names[k])) <==>
           (forall i :: 0 <= i < |items| ==>
              BucketOf(items[i], dim) == UNSPECIFIED || Declares(targets, BucketOf(items[i], dim))) by {
      forall k | 0 <= k < |names| ensures exists i :: 0 <= i < |items| && BucketOf(items[i], dim) == names[k] {
        assert names[k] in names;
      }
    }
  }

  /** THE VERDICT. A paper is valid if and only if its total is the expected one, every declared
      share is met within tolerance, no item falls in an undeclared bucket, and the sections add up. */
  lemma VerdictIff(items: seq<Question>, bp: Blueprint, tol: real)
    ensures Violations(items, bp, tol) == [] <==> CoverageOk(items, bp, tol)
  {
    DimensionVerdict(items, bp, TopicDim, tol);
    DimensionVerdict(items, bp, CognitiveDim, tol);
    DimensionVerdict(items, bp, DifficultyDim, tol);
    hide DimensionViolations, DimensionOk, Total;
  }

  // ----- buckets partition the total -----

  function MarksOverNames(items: seq<Question>, n: nat, dim: Dimension, names: seq<string>, k: nat): int
    requires n <= |items| && k <= |names|
  {
    if k == 0 then 0 else MarksOverNames(items, n, dim, names, k - 1) + MarksUpTo(items, n, dim, names[k - 1])
  }

  predicate DistinctNames(names: seq<string>) {
    forall i, j :: 0 <= i < j < |names| ==> names[i] != names[j]
  }

  lemma {:induction false} OneMoreItem(items: seq<Question>, n: nat, dim: Dimension, names: seq<string>, k: nat)
    requires 0 < n <= |items| && k <= |names| && DistinctNames(names)
    ensures MarksOverNames(items, n, dim, names, k)
         == MarksOverNames(items, n - 1, dim, names, k)
            + if BucketOf(items[n - 1], dim) in names[..k] then WholeMarks(items[n - 1]) else 0
  {
    if k > 0 {
      OneMoreItem(items, n, dim, names, k - 1);
      assert names[..k] == names[..k - 1] + [names[k - 1]];
      assert names[k - 1] !in names[..k - 1];
    }
  }

  lemma {:induction false} NamesDistinct(items: seq<Question>, n: nat, dim: Dimension)
    requires n <= |items|
    ensures DistinctNames(NamesUpTo(items, n, dim))
  {
    if n > 0 {
      NamesDistinct(items, n - 1, dim);
    }
  }

  lemma {:induction false} AnyNamesPartition(items: seq<Question>, n: nat, dim: Dimension, names: seq<string>)
    requires n <= |items| && DistinctNames(names)
    requires forall i :: 0 <= i < n ==> BucketOf(items[i], dim) in names
    ensures MarksOverNames(items, n, dim, names, |names|) == TotalUpTo(items, n)
  {
    if n == 0 {
      NoItemsNoMarks(items, dim, names, |names|);
    } else {
      AnyNamesPartition(items, n - 1, dim, names);
      OneMoreItem(items, n, dim, names, |names|);
      assert names[..|names|] == names;
    }
  }

  lemma {:induction false} NoItemsNoMarks(items: seq<Question>, dim: Dimension, names: seq<string>, k: nat)
    requires k <= |names|
    ensures MarksOverNames(items, 0, dim, names, k) == 0
  {
    if k > 0 {
      NoItemsNoMarks(items, dim, names, k - 1);
    }
  }

  /** In every dimension the bucket marks add up to the total marks. */
  lemma BucketsSumToTotal(items: seq<Question>, dim: Dimension)
    ensures MarksOverNames(items, |items|, dim, Names(items, dim), |Names(items, dim)|) == Total(items)
  {
    NamesDistinct(items, |items|, dim);
    AnyNamesPartition(items, |items|, dim, Names(items, dim));
  }

  // ----- the order of the items does not matter -----

  /** What one item adds to a bucket, or to the total when no bucket is named. */
  function Part(q: Question, dim: Dimension, bucket: Option<string>): int {
    if bucket.None? || BucketOf(q, dim) == bucket.value then WholeMarks(q) else 0
  }

  function PartsUpTo(items: seq<Question>, n: nat, dim: Dimension, bucket: Option<string>): int
    requires n <= |items|
  {
    if n == 0 then 0 else PartsUpTo(items, n - 1, dim, bucket) + Part(items[n - 1], dim, bucket)
  }

  lemma {:induction false} PartsAreMarks(items: seq<Question>, n: nat, dim: Dimension, bucket: string)
    requires n <= |items|
    ensures PartsUpTo(items, n, dim, Some(bucket)) == MarksUpTo(items, n, dim, bucket)
    ensures PartsUpTo(items, n, dim, None) == TotalUpTo(items, n)
  {
    if n > 0 {
      PartsAreMarks(items, n - 1, dim, bucket);
    }
  }

  lemma {:induction false} PartsSplit(a: seq<Question>, b: seq<Question>, n: nat, dim: Dimension,
                                      bucket: Option<string>)
    requires n <= |b|
    ensures PartsUpTo(a + b, |a| + n, dim, bucket) == PartsUpTo(a, |a|, dim, bucket) + PartsUpTo(b, n, dim, bucket)
  {
    if n > 0 {
      PartsSplit(a, b, n - 1, dim, bucket);
    } else {
      PartsPrefix(a, b, |a|, dim, bucket);
    }
  }

  lemma {:induction false} PartsPrefix(a: seq<Question>, b: seq<Question>, n: nat, dim: Dimension,
                                       bucket: Option<string>)
    requires n <= |a|
    ensures PartsUpTo(a + b, n, dim, bucket) == PartsUpTo(a, n, dim, bucket)
  {
    if n > 0 {
      PartsPrefix(a, b, n - 1, dim, bucket);
    }
  }

  lemma PartOfOne(q: Question, dim: Dimension, bucket: Option<string>)
    ensures PartsUpTo([q], 1, dim, bucket) == Part(q, dim, bucket)
  {
    assert PartsUpTo([q], 0, dim, bucket) == 0;
  }

  lemma WithoutParts(items: seq<Question>, i: nat, dim: Dimension, bucket: Option<string>)
    requires i < |items|
    ensures PartsUpTo(items, |items|, dim, bucket)
         == Part(items[i], dim, bucket) + PartsUpTo(Without(items, i), |items| - 1, dim, bucket)
  {
    hide PartsUpTo, Part;
    var a, b, one := items[..i], items[i + 1..], [items[i]];
    assert items == a + (one + b);
    PartsSplit(a, one + b, |one + b|, dim, bucket);
    PartsSplit(one, b, |b|, dim, bucket);
    PartsSplit(a, b, |b|, dim, bucket);
    PartOfOne(items[i], dim, bucket);
  }

  lemma {:induction false} PartsPermuted(a: seq<Question>, b: seq<Question>, dim: Dimension, bucket: Option<string>)
    requires multiset(a) == multiset(b)
    ensures PartsUpTo(a, |a|, dim, bucket) == PartsUpTo(b, |b|, dim, bucket)
    decreases |a|
  {
    hide PartsUpTo, Part, Without;
    if a == [] {
      assert |multiset(b)| == 0;
      assert a == b;
    } else {
      assert a[0] in multiset(a);
      var i :| 0 <= i < |b| && b[i] == a[0];
      WithoutContents(a, 0);
      WithoutContents(b, i);
      WithoutParts(a, 0, dim, bucket);
      WithoutParts(b, i, dim, bucket);
      PartsPermuted(Without(a, 0), Without(b, i), dim, bucket);
    }
  }

  lemma PermutationKeepsMarks(a: seq<Question>, b: seq<Question>, dim: Dimension, bucket: string)
    requires multiset(a) == multiset(b)
    ensures MarksIn(a, dim, bucket) == MarksIn(b, dim, bucket)
    ensures Total(a) == Total(b)
    ensures Share(a, dim, bucket) == Share(b, dim, bucket)
  {
    PartsPermuted(a, b, dim, Some(bucket));
    PartsPermuted(a, b, dim, None);
    PartsAreMarks(a, |a|, dim, bucket);
    PartsAreMarks(b, |b|, dim, bucket);
  }

  lemma PermutationKeepsDimension(a: seq<Question>, b: seq<Question>, bp: Blueprint, dim: Dimension, tol: real)
    requires multiset(a) == multiset(b)
    ensures DimensionOk(a, bp, dim, tol) ==> DimensionOk(b, bp, dim, tol)
  {
    hide Share, Within, BucketOf, Declares, TargetsOf;
    forall k | 0 <= k < |TargetsOf(bp, dim)|
      ensures Share(a, dim, TargetsOf(bp, dim)[k].bucket) == Share(b, dim, TargetsOf(bp, dim)[k].bucket)
    {
      PermutationKeepsMarks(a, b, dim, TargetsOf(bp, dim)[k].bucket);
    }
    forall i | 0 <= i < |b| ensures exists j :: 0 <= j < |a| && a[j] == b[i] {
      assert b[i] in multiset(b);
      assert b[i] in a;
    }
  }

  /** ORDER DOES NOT MATTER. The verdict depends only on the multiset of items. */
  lemma VerdictIgnoresOrder(a: seq<Question>, b: seq<Question>, bp: Blueprint, tol: real)
    requires multiset(a) == multiset(b)
    ensures Violations(a, bp, tol) == [] <==> Violations(b, bp, tol) == []
  {
    VerdictIff(a, bp, tol);
    VerdictIff(b, bp, tol);
    PermutationKeepsMarks(a, b, TopicDim, "");
    hide Violations, DimensionOk, Total;
    forall dim: Dimension ensures DimensionOk(a, bp, dim, tol) <==> DimensionOk(b, bp, dim, tol) {
      PermutationKeepsDimension(a, b, bp, dim, tol);
      PermutationKeepsDimension(b, a, bp, dim, tol);
    }
  }

  // ----- the verdict in the items' own columns -----

  /** `Unspecified` for a missing or empty tag. */
  function Named(tag: Option<string>): string {
    if tag.None? || tag.value == "" then "Unspecified" else tag.value
  }

  function TopicsOf(items: seq<Question>): (labels: seq<string>)
    ensures |labels| == |items| && forall i :: 0 <= i < |items| ==> labels[i] == Named(items[i].topic)
  {
    seq(|items|, i requires 0 <= i < |items| => Named(items[i].topic))
  }

  function CognitiveLevelsOf(items: seq<Question>): (labels: seq<string>)
    ensures |labels| == |items| && forall i :: 0 <= i < |items| ==> labels[i] == Named(items[i].cognitive)
  {
    seq(|items|, i requires 0 <= i < |items| => Named(items[i].cognitive))
  }

  function DifficultiesOf(items: seq<Question>): (labels: seq<string>)
    ensures |labels| == |items| && forall i :: 0 <= i < |items| ==> labels[i] == Named(items[i].difficulty)
  {
    seq(|items|, i requires 0 <= i < |items| => Named(items[i].difficulty))
  }

  /** The whole marks of the items with one label. */
  function Labelled(items: seq<Question>, labels: seq<string>, n: nat, name: string): int
    requires n <= |items| == |labels|
  {
    if n == 0 then 0
    else Labelled(items, labels, n - 1, name) + if labels[n - 1] == name then WholeMarks(items[n - 1]) else 0
  }

  function ShareOf(items: seq<Question>, labels: seq<string>, name: string): real
    requires |items| == |labels|
  {
    if Total(items) == 0 then 0.0 else Labelled(items, labels, |items|, name) as real / Total(items) as real
  }

  /** Each declared share is met within the tolerance and each item's label is declared, if any is. */
  predicate Meets(items: seq<Question>, labels: seq<string>, targets: seq<Target>, tol: real)
    requires |items| == |labels|
  {
    targets != [] ==>
      && (forall t :: t in targets ==> -tol <= ShareOf(items, labels, t.bucket) - t.share <= tol)
      && (forall i :: 0 <= i < |labels| ==>
            labels[i] == "Unspecified" || exists k :: 0 <= k < |targets| && targets[k].bucket == labels[i])
  }

  /** The labels of a dimension are those of its own column. */
  predicate LabelsAre(items: seq<Question>, dim: Dimension, labels: seq<string>) {
    |labels| == |items| && forall i :: 0 <= i < |items| ==> BucketOf(items[i], dim) == labels[i]
  }

  lemma {:induction false} LabelledIsMarks(items: seq<Question>, dim: Dimension, labels: seq<string>, n: nat,
                                           name: string)
    requires LabelsAre(items, dim, labels) && n <= |items|
    ensures MarksUpTo(items, n, dim, name) == Labelled(items, labels, n, name)
  {
    if n > 0 {
      LabelledIsMarks(items, dim, labels, n - 1, name);
    }
  }

  lemma MeetsIff(items: seq<Question>, bp: Blueprint, dim: Dimension, labels: seq<string>, tol: real)
    requires LabelsAre(items, dim, labels)
    ensures DimensionOk(items, bp, dim, tol) <==> Meets(items, labels, TargetsOf(bp, dim), tol)
  {
    var targets := TargetsOf(bp, dim);
    forall name: string ensures Share(items, dim, name) == ShareOf(items, labels, name) {
      LabelledIsMarks(items, dim, labels, |items|, name);
    }
    hide Share, ShareOf, BucketOf, TargetsOf;
    assert (forall t :: t in targets ==> -tol <= ShareOf(items, labels, t.bucket) - t.share <= tol)
      <==> (forall k :: 0 <= k < |targets| ==> Within(Share(items, dim, targets[k].bucket), targets[k].share, tol));
  }

  /** THE VERDICT IN COLUMNS. A paper is valid if and only if its whole marks add up to the blueprint's
      total, its topics meet the topic shares, its cognitive levels the cognitive shares and its
      difficulties the difficulty shares, and the section marks add up to the total. */
  lemma VerdictInColumns(items: seq<Question>, bp: Blueprint, tol: real)
    ensures Violations(items, bp, tol) == [] <==>
              && (bp.totalMarks != 0 ==> Total(items) == bp.totalMarks)
              && Meets(items, TopicsOf(items), bp.topics, tol)
              && Meets(items, CognitiveLevelsOf(items), bp.cognitive, tol)
              && Meets(items, DifficultiesOf(items), bp.difficulty, tol)
              && (bp.sections != [] && bp.totalMarks != 0 ==> Sum(bp.sections, |bp.sections|) == bp.totalMarks)
  {
    VerdictIff(items, bp, tol);
    MeetsIff(items, bp, TopicDim, TopicsOf(items), tol);
    MeetsIff(items, bp, CognitiveDim, CognitiveLevelsOf(items), tol);
    MeetsIff(items, bp, DifficultyDim, DifficultiesOf(items), tol);
    hide Violations, DimensionOk, Meets, Total;
  }

  /** Whole marks are the marks cut toward zero. */
  lemma WholeMarksCut(q: Question)
    ensures q.marks.None? ==> WholeMarks(q) == 0
    ensures q.marks.Some? && q.marks.value >= 0 ==> 0 <= q.marks.value - 100 * WholeMarks(q) < 100
    ensures q.marks.Some? && q.marks.value <= 0 ==> -100 < q.marks.value - 100 * WholeMarks(q) <= 0
  {
  }

  /** The tolerance in force: the caller's, else the blueprint's, else five percent. */
  lemma ToleranceInForce(bp: Blueprint, supplied: Option<real>)
    ensures supplied.Some? ==> Tolerance(bp, supplied) == supplied.value
    ensures supplied.None? && bp.tolerance != 0.0 ==> Tolerance(bp, supplied) == bp.tolerance
    ensures supplied.None? && bp.tolerance == 0.0 ==> Tolerance(bp, supplied) == 0.05
  {
  }

  // ----- every violation is true -----

  function LabelsOf(items: seq<Question>, dim: Dimension): seq<string> {
    match dim
    case TopicDim => TopicsOf(items)
    case CognitiveDim => CognitiveLevelsOf(items)
    case DifficultyDim => DifficultiesOf(items)
  }

  function DeclaredOf(bp: Blueprint, dim: Dimension): seq<Target> {
    match dim
    case TopicDim => bp.topics
    case CognitiveDim => bp.cognitive
    case DifficultyDim => bp.difficulty
  }

  /** What a violation says holds of the items and the blueprint. */
  predicate IsTrue(items: seq<Question>, bp: Blueprint, tol: real, v: Violation) {
    match v
    case TotalMismatch(actual, expected) =>
      actual == Total(items) && expected == bp.totalMarks && expected != 0 && actual != expected
    case OutsideTolerance(dim, bucket, share) =>
      exists k :: 0 <= k < |DeclaredOf(bp, dim)| && Misses(items, dim, DeclaredOf(bp, dim)[k], bucket, share, tol)
    case Undeclared(dim, name) =>
      && name in LabelsOf(items, dim) && name != "Unspecified"
      && forall t :: t in DeclaredOf(bp, dim) ==> t.bucket != name
    case SectionsMismatch(sum, total) =>
      && sum == Sum(bp.sections, |bp.sections|) && total == bp.totalMarks
      && total != 0 && sum != total && bp.sections != []
  }

  predicate Misses(items: seq<Question>, dim: Dimension, t: Target, bucket: string, share: real, tol: real) {
    && |LabelsOf(items, dim)| == |items| && bucket == t.bucket && share == ShareOf(items, LabelsOf(items, dim), bucket)
    && !(-tol <= share - t.share <= tol)
  }

  lemma LabelsFit(items: seq<Question>, dim: Dimension)
    ensures LabelsAre(items, dim, LabelsOf(items, dim))
  {
  }

  lemma {:induction false} OutsideAreTrue(items: seq<Question>, bp: Blueprint, n: nat, dim: Dimension, tol: real)
    requires n <= |TargetsOf(bp, dim)|
    ensures forall v :: v in OutsideUpTo(items, TargetsOf(bp, dim), n, dim, tol) ==> IsTrue(items, bp, tol, v)
  {
    hide Share, ShareOf, LabelsOf;
    if n > 0 {
      OutsideAreTrue(items, bp, n - 1, dim, tol);
      var t := TargetsOf(bp, dim)[n - 1];
      LabelsFit(items, dim);
      ShareIsShareOf(items, dim, t.bucket);
      if !Within(Share(items, dim, t.bucket), t.share, tol) {
        assert Misses(items, dim, DeclaredOf(bp, dim)[n - 1], t.bucket, Share(items, dim, t.bucket), tol);
        assert IsTrue(items, bp, tol, OutsideTolerance(dim, t.bucket, Share(items, dim, t.bucket)));
      }
    }
  }

  lemma ShareIsShareOf(items: seq<Question>, dim: Dimension, name: string)
    requires LabelsAre(items, dim, LabelsOf(items, dim))
    ensures Share(items, dim, name) == ShareOf(items, LabelsOf(items, dim), name)
  {
    LabelledIsMarks(items, dim, LabelsOf(items, dim), |items|, name);
  }

  lemma {:induction false} UndeclaredAreTrue(items: seq<Question>, bp: Blueprint, n: nat, dim: Dimension, tol: real)
    requires n <= |Names(items, dim)|
    ensures forall v :: v in UndeclaredUpTo(Names(items, dim), TargetsOf(bp, dim), n, dim) ==> IsTrue(items, bp, tol, v)
  {
    hide LabelsOf;
    if n > 0 {
      UndeclaredAreTrue(items, bp, n - 1, dim, tol);
      LabelsFit(items, dim);
      var name := Names(items, dim)[n - 1];
      NamesAreBuckets(items, |items|, dim);
      assert name in Names(items, dim);
      var i :| 0 <= i < |items| && BucketOf(items[i], dim) == name;
      assert LabelsOf(items, dim)[i] == name;
      if !Declares(TargetsOf(bp, dim), name) && name != UNSPECIFIED {
        assert IsTrue(items, bp, tol, Undeclared(dim, name));
      }
    }
  }

  /** Every violation that is reported holds, in the column and with the numbers it names. */
  lemma ViolationsAreTrue(items: seq<Question>, bp: Blueprint, tol: real)
    ensures forall v :: v in Violations(items, bp, tol) ==> IsTrue(items, bp, tol, v)
  {
    forall dim: Dimension, v | v in DimensionViolations(items, bp, dim, tol) ensures IsTrue(items, bp, tol, v) {
      OutsideAreTrue(items, bp, |TargetsOf(bp, dim)|, dim, tol);
      UndeclaredAreTrue(items, bp, |Names(items, dim)|, dim, tol);
      hide IsTrue;
    }
    hide DimensionViolations, Total;
  }
}
