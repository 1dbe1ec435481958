/**
 * The influencer tier table and the resolver over it: a referral count is
 * mapped to one of six commission tiers, a commission rate, the tier after
 * it and the progress (in percent) towards that next tier.
 *
 * Commission rates and percentages are JavaScript numbers in the program;
 * here they are exact `real`s.
 */
module TierService {
  import opened Wrappers

  const Hustler: string := "Hustler"
  const Achiever: string := "Achiever"
  const Premium: string := "Premium"
  const Platinum: string := "Platinum"
  const Diamond: string := "Diamond"
  const ExclusiveBlack: string := "Exclusive Black"

  /** One row of the table; `maxReferrals == None` means "no upper limit". */
  datatype TierInfo = TierInfo(tier: string, commissionRate: real, minReferrals: int, maxReferrals: Option<int>)

  /** The static, ordered tier table. */
  const InfluencerTiers: seq<TierInfo> := [
    TierInfo(Hustler, 2.5, 0, Some(14)),
    TierInfo(Achiever, 5.0, 15, Some(29)),
    TierInfo(Premium, 7.5, 30, Some(49)),
    TierInfo(Platinum, 10.0, 50, Some(99)),
    TierInfo(Diamond, 15.0, 100, Some(119)),
    TierInfo(ExclusiveBlack, 20.0, 120, None)
  ]

  const TopIndex: nat := |InfluencerTiers| - 1

  /** The names of the rows, in order. */
  lemma TableNames()
    ensures InfluencerTiers[0].tier == Hustler && InfluencerTiers[1].tier == Achiever
    ensures InfluencerTiers[2].tier == Premium && InfluencerTiers[3].tier == Platinum
    ensures InfluencerTiers[4].tier == Diamond && InfluencerTiers[5].tier == ExclusiveBlack
  {
  }

  /** `n` lies in the inclusive range of row `t`. */
  predicate InBand(t: TierInfo, n: int) {
    t.minReferrals <= n && (t.maxReferrals.None? || n <= t.maxReferrals.value)
  }

  /**
   * The table shape the resolver relies on: it starts at 0, every row's
   * range is non-empty and ends one below the next row's start, and only the
   * last row is unbounded.
   */
  ghost predicate Contiguous(table: seq<TierInfo>) {
    && |table| > 0
    && table[0].minReferrals == 0
    && (forall i :: 0 <= i < |table| - 1 ==>
          table[i].maxReferrals == Some(table[i + 1].minReferrals - 1))
    && (forall i :: 0 <= i < |table| - 1 ==>
          table[i].minReferrals < table[i + 1].minReferrals)
    && table[|table| - 1].maxReferrals.None?
  }

  /** Row starts increase strictly along the table. */
  ghost predicate Ascending(table: seq<TierInfo>) {
    forall i, j :: 0 <= i < j < |table| ==> table[i].minReferrals < table[j].minReferrals
  }

  /** Commission rates increase strictly along the table. */
  ghost predicate RatesIncreasing(table: seq<TierInfo>) {
    forall i, j :: 0 <= i < j < |table| ==> table[i].commissionRate < table[j].commissionRate
  }

  /** No tier name occurs twice. */
  ghost predicate DistinctNames(table: seq<TierInfo>) {
    forall i, j :: 0 <= i < j < |table| ==> table[i].tier != table[j].tier
  }

  lemma TableIsContiguous()
    ensures Contiguous(InfluencerTiers)
  {
    forall i | 0 <= i < |InfluencerTiers| - 1
      ensures InfluencerTiers[i].maxReferrals == Some(InfluencerTiers[i + 1].minReferrals - 1)
      ensures InfluencerTiers[i].minReferrals < InfluencerTiers[i + 1].minReferrals
    {
      assert i in {0, 1, 2, 3, 4};
    }
  }

  lemma {:induction false} ContiguousIsAscending(table: seq<TierInfo>, i: int, j: int)
    requires Contiguous(table)
    requires 0 <= i < j < |table|
    ensures table[i].minReferrals < table[j].minReferrals
    decreases j - i
  {
    if i + 1 < j {
      ContiguousIsAscending(table, i + 1, j);
    }
  }

  lemma TableIsAscending()
    ensures Ascending(InfluencerTiers)
  {
    TableIsContiguous();
    forall i, j | 0 <= i < j < |InfluencerTiers|
      ensures InfluencerTiers[i].minReferrals < InfluencerTiers[j].minReferrals
    {
      ContiguousIsAscending(InfluencerTiers, i, j);
    }
  }

  lemma TableRatesIncrease()
    ensures RatesIncreasing(InfluencerTiers)
  {
    forall i, j | 0 <= i < j < |InfluencerTiers|
      ensures InfluencerTiers[i].commissionRate < InfluencerTiers[j].commissionRate
    {
      assert i in {0, 1, 2, 3, 4};
      assert j in {1, 2, 3, 4, 5};
    }
  }

  lemma TableNamesDistinct()
    ensures DistinctNames(InfluencerTiers)
  {
    forall i, j | 0 <= i < j < |InfluencerTiers|
      ensures InfluencerTiers[i].tier != InfluencerTiers[j].tier
    {
      assert i in {0, 1, 2, 3, 4};
      assert j in {1, 2, 3, 4, 5};
    }
  }

  /**
   * The descending scan of `calculateInfluencerTier` as a function: look at
   * rows `i`, `i - 1`, ..., 0 and stop at the first whose start is at most
   * `n`; when none is, fall back to row 0.
   */
  function ScanFrom(n: int, i: int): (k: nat)
    requires -1 <= i < |InfluencerTiers|
    ensures k < |InfluencerTiers|
    decreases i + 1
  {
    if i < 0 then 0
    else if n >= InfluencerTiers[i].minReferrals then i
    else ScanFrom(n, i - 1)
  }

  /** Index of the row `calculateInfluencerTier(n)` returns. */
  function ResolvedIndex(n: int): (k: nat)
    ensures k < |InfluencerTiers|
  {
    ScanFrom(n, TopIndex)
  }

  /** The row `calculateInfluencerTier(n)` returns. */
  function ResolvedTier(n: int): TierInfo {
    InfluencerTiers[ResolvedIndex(n)]
  }

  lemma {:induction false} ScanFromFindsHighest(n: int, i: int)
    requires -1 <= i < |InfluencerTiers|
    ensures var k := ScanFrom(n, i);
      || (k <= i && InfluencerTiers[k].minReferrals <= n
          && forall j :: k < j <= i ==> n < InfluencerTiers[j].minReferrals)
      || (k == 0 && forall j :: 0 <= j <= i ==> n < InfluencerTiers[j].minReferrals)
    decreases i + 1
  {
    if 0 <= i && n < InfluencerTiers[i].minReferrals {
      ScanFromFindsHighest(n, i - 1);
    }
  }

  /**
   * For every count `n >= 0` the resolver picks the row with the largest
   * start not above `n`, and `n` lies inside that row's range; a negative
   * count matches no row and falls through to the first row.
   */
  lemma ResolvedIndexIsHighestQualifying(n: int)
    ensures var k := ResolvedIndex(n);
      && (n >= 0 ==> InfluencerTiers[k].minReferrals <= n)
      && (n >= 0 ==> forall j :: k < j < |InfluencerTiers| ==> n < InfluencerTiers[j].minReferrals)
      && (n >= 0 ==> InBand(InfluencerTiers[k], n))
      && (n < 0 ==> k == 0)
  {
    ScanFromFindsHighest(n, TopIndex);
    TableIsContiguous();
    var k := ResolvedIndex(n);
    if n >= 0 && k < TopIndex {
      assert n < InfluencerTiers[k + 1].minReferrals;
    }
  }

  /**
   * The ranges partition the non-negative integers: for `n >= 0` exactly one
   * row contains `n`, and it is the resolved one.
   */
  lemma RangesPartition(n: int, i: int)
    requires n >= 0 && 0 <= i < |InfluencerTiers|
    ensures InBand(InfluencerTiers[i], n) <==> i == ResolvedIndex(n)
  {
    ResolvedIndexIsHighestQualifying(n);
    TableIsContiguous();
    TableIsAscending();
  }

  /** The resolver is monotone: more referrals never give an earlier row. */
  lemma ResolvedIndexMonotone(n: int, m: int)
    requires n <= m
    ensures ResolvedIndex(n) <= ResolvedIndex(m)
  {
    ResolvedIndexIsHighestQualifying(n);
    ResolvedIndexIsHighestQualifying(m);
  }

  /** The shipped boundaries: 0 and 14 are Hustler, 15 Achiever, 119 Diamond, 120 and up Exclusive Black. */
  lemma BoundariesAreExact(n: int)
    ensures ResolvedTier(0).tier == Hustler && ResolvedTier(14).tier == Hustler
    ensures ResolvedTier(15).tier == Achiever
    ensures ResolvedTier(119).tier == Diamond
    ensures n >= 120 ==> ResolvedTier(n).tier == ExclusiveBlack
    ensures n < 0 ==> ResolvedTier(n).tier == Hustler
  {
    ResolvedIndexIsHighestQualifying(0);
    ResolvedIndexIsHighestQualifying(14);
    ResolvedIndexIsHighestQualifying(15);
    ResolvedIndexIsHighestQualifying(119);
    ResolvedIndexIsHighestQualifying(n);
  }

  /** `calculateInfluencerTier`: the descending loop with its early return. */
  method CalculateInfluencerTier(totalReferrals: int) returns (t: TierInfo)
    ensures t == ResolvedTier(totalReferrals)
    ensures totalReferrals >= 0 ==> InBand(t, totalReferrals)
    ensures totalReferrals < 0 ==> t == InfluencerTiers[0]
  {
    ResolvedIndexIsHighestQualifying(totalReferrals);
    var i := |InfluencerTiers| - 1;
    while i >= 0
      invariant -1 <= i < |InfluencerTiers|
      invariant ScanFrom(totalReferrals, i) == ResolvedIndex(totalReferrals)
    {
      var tier := InfluencerTiers[i];
      if totalReferrals >= tier.minReferrals {
        return tier;
      }
      i := i - 1;
    }
    return InfluencerTiers[0];
  }

  /** For `n >= 0` no row other than the resolved one holds `n`. */
  lemma OnlyResolvedRowHolds(n: int)
    ensures n >= 0 ==> forall i :: 0 <= i < |InfluencerTiers| && InBand(InfluencerTiers[i], n) ==> i == ResolvedIndex(n)
  {
    if n >= 0 {
      forall i | 0 <= i < |InfluencerTiers| && InBand(InfluencerTiers[i], n)
        ensures i == ResolvedIndex(n)
      {
        RangesPartition(n, i);
      }
    }
  }

  /** `getInfluencerCommissionRate`: the rate of the resolved row. */
  function GetInfluencerCommissionRate(totalReferrals: int): (rate: real)
    ensures exists i :: 0 <= i < |InfluencerTiers| && InfluencerTiers[i].commissionRate == rate
    ensures totalReferrals >= 0 ==> forall i :: 0 <= i < |InfluencerTiers| && InBand(InfluencerTiers[i], totalReferrals) ==>
              rate == InfluencerTiers[i].commissionRate
    ensures totalReferrals < 0 ==> rate == InfluencerTiers[0].commissionRate
  {
    ResolvedIndexIsHighestQualifying(totalReferrals);
    OnlyResolvedRowHolds(totalReferrals);
    ResolvedTier(totalReferrals).commissionRate
  }

  /** The commission rate never decreases as the referral count grows. */
  lemma CommissionRateMonotone(n: int, m: int)
    requires n <= m
    ensures GetInfluencerCommissionRate(n) <= GetInfluencerCommissionRate(m)
  {
    ResolvedIndexMonotone(n, m);
    TableRatesIncrease();
  }

  /** `findIndex` by name over a table: the first matching row, or -1. */
  function IndexOfTier(table: seq<TierInfo>, name: string): (r: int)
    ensures -1 <= r < |table|
    ensures r == -1 <==> forall j :: 0 <= j < |table| ==> table[j].tier != name
    ensures r >= 0 ==> table[r].tier == name && forall j :: 0 <= j < r ==> table[j].tier != name
  {
    if |table| == 0 then -1
    else if table[0].tier == name then 0
    else
      var k := IndexOfTier(table[1..], name);
      if k == -1 then -1 else k + 1
  }

  /** `getNextTier`: the row after the named one; none for the last row or an unknown name. */
  function GetNextTier(currentTier: string): (r: Option<TierInfo>)
    ensures r.Some? <==> exists i :: 0 <= i < TopIndex && InfluencerTiers[i].tier == currentTier
    ensures forall i :: 0 <= i < TopIndex && InfluencerTiers[i].tier == currentTier ==>
              r == Some(InfluencerTiers[i + 1])
  {
    TableNamesDistinct();
    var currentIndex := IndexOfTier(InfluencerTiers, currentTier);
    if currentIndex == -1 || currentIndex == TopIndex then None
    else Some(InfluencerTiers[currentIndex + 1])
  }

  /** The result of `getTierProgress`; `next == None` stands for `null`. */
  datatype TierProgress = TierProgress(current: int, next: Option<int>, progress: real)

  /** `Math.min(100, Math.max(0, x))`. */
  function ClampPercent(x: real): (r: real)
    ensures 0.0 <= r <= 100.0
    ensures 0.0 <= x <= 100.0 ==> r == x
    ensures x <= 0.0 ==> r == 0.0
    ensures 100.0 <= x ==> r == 100.0
  {
    var low := if 0.0 < x then x else 0.0;
    if 100.0 < low then 100.0 else low
  }

  /**
   * `getTierProgress`. The `currentTier` argument is accepted and ignored:
   * the tier is recomputed from the count.
   */
  function GetTierProgress(totalReferrals: int, currentTier: string): (r: TierProgress)
    ensures r.current == totalReferrals
    ensures 0.0 <= r.progress <= 100.0
    ensures r.next.None? <==> ResolvedIndex(totalReferrals) == TopIndex
    ensures r.next.None? ==> r.progress == 100.0
    ensures r.next.Some? ==> r.next.value == InfluencerTiers[ResolvedIndex(totalReferrals) + 1].minReferrals
  {
    var tierInfo := ResolvedTier(totalReferrals);
    var nextTier := GetNextTier(tierInfo.tier);
    if nextTier.None? then
      TierProgress(totalReferrals, None, 100.0)
    else
      var span := nextTier.value.minReferrals - tierInfo.minReferrals;
      var progress :=
        if span > 0
        then ((totalReferrals - tierInfo.minReferrals) as real / span as real) * 100.0
        else 0.0;
      TierProgress(totalReferrals, Some(nextTier.value.minReferrals), ClampPercent(progress))
  }

  /** Below the top row the progress is the linear position of `n` between this row's start and the next one's. */
  lemma ProgressBelowTop(n: int, named: string)
    requires ResolvedIndex(n) < TopIndex
    ensures var k := ResolvedIndex(n);
      var span := InfluencerTiers[k + 1].minReferrals - InfluencerTiers[k].minReferrals;
      && span > 0
      && GetTierProgress(n, named).progress
         == ClampPercent(((n - InfluencerTiers[k].minReferrals) as real / span as real) * 100.0)
  {
    TableIsContiguous();
    TableNamesDistinct();
    var k := ResolvedIndex(n);
    assert GetNextTier(InfluencerTiers[k].tier) == Some(InfluencerTiers[k + 1]);
  }

  /** `a / s * 100` for `0 <= a < s` lies in [0, 100), is 0 only for `a == 0`, and grows with `a`. */
  lemma PercentOfSpan(a: int, b: int, s: int)
    requires 0 <= a <= b < s
    ensures 0.0 <= (a as real / s as real) * 100.0 < 100.0
    ensures (a as real / s as real) * 100.0 == 0.0 <==> a == 0
    ensures (a as real / s as real) * 100.0 <= (b as real / s as real) * 100.0
  {
    RatioBounds(a as real, b as real, s as real);
  }

  /** The real-arithmetic core of `PercentOfSpan`. */
  lemma RatioBounds(x: real, y: real, r: real)
    requires 0.0 <= x <= y < r
    ensures 0.0 <= x / r < 1.0
    ensures x / r == 0.0 <==> x == 0.0
    ensures x / r <= y / r
  {
    var q := x / r;
    assert q * r == x;
    assert (y / r) * r == y;
    ScaleAtLeastOne(q, r);
    assert 1.0 <= q ==> r <= x;
  }

  /** Scaling a positive number by a factor of at least one does not shrink it. */
  lemma ScaleAtLeastOne(q: real, r: real)
    requires 0.0 < r
    ensures 1.0 <= q ==> r <= q * r
  {
    assert q * r - r == (q - 1.0) * r;
  }

  /** The result does not depend on the `currentTier` argument. */
  lemma ProgressIgnoresCurrentTier(n: int, named: string, other: string)
    ensures GetTierProgress(n, named) == GetTierProgress(n, other)
  {
  }

  /**
   * For `n >= 0` below the top row the progress is unclamped, strictly below
   * 100, and 0 exactly at the row's start.
   */
  lemma ProgressWithinBand(n: int, named: string)
    requires n >= 0 && ResolvedIndex(n) < TopIndex
    ensures GetTierProgress(n, named).progress < 100.0
    ensures GetTierProgress(n, named).progress == 0.0 <==> n == ResolvedTier(n).minReferrals
  {
    ResolvedIndexIsHighestQualifying(n);
    ProgressBelowTop(n, named);
    var k := ResolvedIndex(n);
    var lo := InfluencerTiers[k].minReferrals;
    var span := InfluencerTiers[k + 1].minReferrals - lo;
    PercentOfSpan(n - lo, n - lo, span);
  }

  /** Within one row, more referrals never mean less progress. */
  lemma ProgressMonotoneInBand(n: int, m: int, named: string)
    requires 0 <= n <= m && ResolvedIndex(n) == ResolvedIndex(m)
    ensures GetTierProgress(n, named).progress <= GetTierProgress(m, named).progress
  {
    var k := ResolvedIndex(n);
    if k < TopIndex {
      ResolvedIndexIsHighestQualifying(n);
      ResolvedIndexIsHighestQualifying(m);
      ProgressBelowTop(n, named);
      ProgressBelowTop(m, named);
      var lo := InfluencerTiers[k].minReferrals;
      PercentOfSpan(n - lo, m - lo, InfluencerTiers[k + 1].minReferrals - lo);
    }
  }

  /** A negative count resolves to the first row and shows no progress. */
  lemma NegativeCountHasNoProgress(n: int, named: string)
    requires n < 0
    ensures GetTierProgress(n, named) == TierProgress(n, Some(15), 0.0)
  {
    ResolvedIndexIsHighestQualifying(n);
    ProgressBelowTop(n, named);
    assert (n as real / 15.0) * 100.0 < 0.0;
  }

  /** Two sample points: 22 referrals are partway through Achiever; 500 sit at the top with 100 percent. */
  lemma ProgressSamples()
    ensures 0.0 < GetTierProgress(22, Achiever).progress < 100.0
    ensures GetTierProgress(500, ExclusiveBlack) == TierProgress(500, None, 100.0)
  {
    ResolvedIndexIsHighestQualifying(22);
    ResolvedIndexIsHighestQualifying(500);
    ProgressWithinBand(22, Achiever);
  }

  /** `getAllTiers`: the table itself, with its shape. */
  function GetAllTiers(): (r: seq<TierInfo>)
    ensures Contiguous(r) && Ascending(r) && RatesIncreasing(r) && DistinctNames(r)
    ensures |r| == 6 && r[0].tier == Hustler && r[|r| - 1].tier == ExclusiveBlack
  {
    TableIsContiguous();
    TableIsAscending();
    TableRatesIncrease();
    TableNamesDistinct();
    InfluencerTiers
  }
}
