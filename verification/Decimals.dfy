/** Marks are integers counting hundredths of a mark, because every marks column
    has two decimal places. Percentages are exact reals. The only rounding the
    paper services do is `quantize(0.01, ROUND_HALF_UP)` on a share of the total. */
module Decimals {

  /** Decimal's ROUND_HALF_UP to a whole number of hundredths: to the nearest one,
      and away from zero on a tie. The two clauses determine the result. */
  function RoundHalfUp(x: real): (r: int)
    ensures x >= 0.0 ==> r as real - 0.5 <= x < r as real + 0.5
    ensures x < 0.0 ==> r as real - 0.5 < x <= r as real + 0.5
  {
    if x >= 0.0 then (x + 0.5).Floor else -((-x + 0.5).Floor)
  }

  /** One entry of a percentage dictionary such as {"Easy": 40}. */
  datatype Share = Share(key: string, pct: real)

  /** A percentage dictionary in its insertion order. */
  type Distribution = seq<Share>

  predicate DistinctKeys(d: Distribution) {
    forall i, j :: 0 <= i < j < |d| ==> d[i].key != d[j].key
  }

  function Keys(d: Distribution): set<string> {
    set i | 0 <= i < |d| :: d[i].key
  }

  function PctSum(d: Distribution): real {
    if d == [] then 0.0 else d[0].pct + PctSum(d[1..])
  }

  /** A percentage of the paper total, before rounding. */
  function Exact(total: int, pct: real): real {
    total as real * pct / 100.0
  }

  /** The marks that a percentage of the paper total stands for. */
  function Target(total: int, pct: real): int {
    RoundHalfUp(Exact(total, pct))
  }

  lemma TargetSign(total: int, pct: real)
    requires pct >= 0.0
    ensures total >= 0 ==> Target(total, pct) >= 0
    ensures total <= 0 ==> Target(total, pct) <= 0
  {
    var x := Exact(total, pct);
    if total >= 0 {
      assert x >= 0.0;
    }
    if total <= 0 {
      assert x <= 0.0;
    }
  }

  function TargetSum(d: Distribution, total: int): int {
    if d == [] then 0 else Target(total, d[0].pct) + TargetSum(d[1..], total)
  }

  lemma ExactAdds(total: int, p: real, q: real)
    ensures Exact(total, p + q) == Exact(total, p) + Exact(total, q)
  {
  }

  /** Rounding a whole dictionary of targets moves their sum by at most half a
      hundredth per entry, in either direction. */
  lemma {:induction false} TargetSumError(d: Distribution, total: int)
    ensures TargetSum(d, total) as real >= Exact(total, PctSum(d)) - 0.5 * |d| as real
    ensures TargetSum(d, total) as real <= Exact(total, PctSum(d)) + 0.5 * |d| as real
  {
    if d == [] {
    } else {
      TargetSumError(d[1..], total);
      ExactAdds(total, d[0].pct, PctSum(d[1..]));
      OneTargetError(total, d[0].pct);
      hide Exact, Target;
    }
  }

  lemma OneTargetError(total: int, pct: real)
    ensures Exact(total, pct) - 0.5 <= Target(total, pct) as real <= Exact(total, pct) + 0.5
  {
  }

  lemma WholeShare(total: int)
    ensures Exact(total, 100.0) == total as real
  {
  }
}
