/**
 * The per-tier decisions of the tier timeline modal: whether a tier is
 * reached, whether it is the current one, whether it is the next one to
 * unlock, whether it shows a progress bar and how wide that bar is, and the
 * gradient class of each tier. The JSX around them is not modelled.
 */
module TierTimeline {
  import opened Wrappers
  import opened TierService

  /** `INFLUENCER_TIERS.find(t => t.tier === tier)`. */
  function FindTier(name: string): (r: Option<TierInfo>)
    ensures r.None? <==> forall i :: 0 <= i < |InfluencerTiers| ==> InfluencerTiers[i].tier != name
    ensures forall i :: 0 <= i < |InfluencerTiers| && InfluencerTiers[i].tier == name ==>
              r == Some(InfluencerTiers[i])
  {
    TableNamesDistinct();
    var k := IndexOfTier(InfluencerTiers, name);
    if k == -1 then None else Some(InfluencerTiers[k])
  }

  /** `isTierReached`: the named row's start is at most the referral count; an unknown name is never reached. */
  function IsTierReached(tier: string, currentReferrals: int): (r: bool)
    ensures r <==> exists i :: 0 <= i < |InfluencerTiers| && InfluencerTiers[i].tier == tier
                              && InfluencerTiers[i].minReferrals <= currentReferrals
  {
    var info := FindTier(tier);
    if info.None? then false else currentReferrals >= info.value.minReferrals
  }

  /** `isCurrentTier`: plain name equality with the `currentTier` prop. */
  predicate IsCurrentTier(tier: string, currentTier: string) {
    tier == currentTier
  }

  /** `reached` for the row at `index`, as the modal's map computes it. */
  predicate Reached(index: nat, currentReferrals: int)
    requires index < |InfluencerTiers|
  {
    IsTierReached(InfluencerTiers[index].tier, currentReferrals)
  }

  /** `isNext` for the row at `index`: not reached, not the first row, and the row before it is reached. */
  predicate IsNext(index: nat, currentReferrals: int)
    requires index < |InfluencerTiers|
  {
    !Reached(index, currentReferrals) && index > 0 && Reached(index - 1, currentReferrals)
  }

  /** Whether the row at `index` renders a progress bar. */
  predicate ShowsProgressBar(index: nat, currentReferrals: int)
    requires index < |InfluencerTiers|
  {
    !Reached(index, currentReferrals) && index > 0
  }

  /**
   * The bar width in percent, as written: the position of the count between
   * the previous row's start and this row's start, capped at 100 but not
   * floored at 0.
   */
  function ProgressWidth(index: nat, currentReferrals: int): (w: real)
    requires 0 < index < |InfluencerTiers|
    ensures w <= 100.0
  {
    TableIsAscending();
    var prev := InfluencerTiers[index - 1].minReferrals;
    var span := InfluencerTiers[index].minReferrals - prev;
    var raw := ((currentReferrals - prev) as real / span as real) * 100.0;
    if 100.0 < raw then 100.0 else raw
  }

  /** The width as evidently intended: the same ratio clamped to [0, 100], as the tier service does. */
  function ClampedProgressWidth(index: nat, currentReferrals: int): (w: real)
    requires 0 < index < |InfluencerTiers|
    ensures 0.0 <= w <= 100.0
    ensures 0.0 <= ProgressWidth(index, currentReferrals) ==> w == ProgressWidth(index, currentReferrals)
  {
    var raw := ProgressWidth(index, currentReferrals);
    if raw < 0.0 then 0.0 else raw
  }

  /** A row is reached exactly when the count is at least its start. */
  lemma ReachedIffAtLeastMin(index: nat, currentReferrals: int)
    requires index < |InfluencerTiers|
    ensures Reached(index, currentReferrals) <==> InfluencerTiers[index].minReferrals <= currentReferrals
  {
    TableNamesDistinct();
  }

  /** A name outside the table is never reached, whatever the count. */
  lemma UnknownNeverReached(unknown: string, currentReferrals: int)
    requires FindTier(unknown).None?
    ensures !IsTierReached(unknown, currentReferrals)
  {
  }

  /** Reached is downward closed along the table. */
  lemma ReachedDownwardClosed(i: nat, j: nat, currentReferrals: int)
    requires j <= i < |InfluencerTiers|
    requires Reached(i, currentReferrals)
    ensures Reached(j, currentReferrals)
  {
    ReachedIffAtLeastMin(i, currentReferrals);
    ReachedIffAtLeastMin(j, currentReferrals);
    TableIsAscending();
  }

  /** For a non-negative count the reached rows are exactly those up to the resolved one. */
  lemma ReachedMatchesResolver(index: nat, currentReferrals: int)
    requires index < |InfluencerTiers| && currentReferrals >= 0
    ensures Reached(index, currentReferrals) <==> index <= ResolvedIndex(currentReferrals)
  {
    ReachedIffAtLeastMin(index, currentReferrals);
    ResolvedIndexIsHighestQualifying(currentReferrals);
    TableIsAscending();
  }

  /** A negative count reaches no row at all. */
  lemma NegativeCountReachesNothing(index: nat, currentReferrals: int)
    requires index < |InfluencerTiers| && currentReferrals < 0
    ensures !Reached(index, currentReferrals)
  {
    ReachedIffAtLeastMin(index, currentReferrals);
    ReachedIffAtLeastMin(0, currentReferrals);
    TableIsAscending();
  }

  /** The row marked "next" is the first unreached row, provided it is not the first row. */
  lemma IsNextIsFirstUnreached(index: nat, currentReferrals: int)
    requires index < |InfluencerTiers|
    ensures IsNext(index, currentReferrals) <==>
      && index > 0
      && !Reached(index, currentReferrals)
      && forall j :: 0 <= j < index ==> Reached(j, currentReferrals)
  {
    if IsNext(index, currentReferrals) {
      forall j | 0 <= j < index ensures Reached(j, currentReferrals) {
        ReachedDownwardClosed(index - 1, j, currentReferrals);
      }
    }
  }

  /** At most one row is marked "next", and none when every row is reached. */
  lemma AtMostOneNext(i: nat, j: nat, currentReferrals: int)
    requires i < |InfluencerTiers| && j < |InfluencerTiers|
    ensures IsNext(i, currentReferrals) && IsNext(j, currentReferrals) ==> i == j
    ensures (forall k :: 0 <= k < |InfluencerTiers| ==> Reached(k, currentReferrals))
            ==> !IsNext(i, currentReferrals)
  {
    IsNextIsFirstUnreached(i, currentReferrals);
    IsNextIsFirstUnreached(j, currentReferrals);
  }

  /**
   * The modal and the resolver agree: for a non-negative count the row
   * marked "next" is exactly `getNextTier` of the resolved tier; for a
   * negative count no row is marked.
   */
  lemma NextMatchesGetNextTier(index: nat, currentReferrals: int)
    requires index < |InfluencerTiers|
    ensures currentReferrals >= 0 ==>
      (IsNext(index, currentReferrals) <==>
       GetNextTier(ResolvedTier(currentReferrals).tier) == Some(InfluencerTiers[index]))
    ensures currentReferrals < 0 ==> !IsNext(index, currentReferrals)
  {
    TableNamesDistinct();
    var k := ResolvedIndex(currentReferrals);
    if currentReferrals >= 0 {
      ReachedMatchesResolver(index, currentReferrals);
      if index > 0 {
        ReachedMatchesResolver(index - 1, currentReferrals);
      }
      if GetNextTier(ResolvedTier(currentReferrals).tier) == Some(InfluencerTiers[index]) {
        assert k < TopIndex;
        assert InfluencerTiers[index] == InfluencerTiers[k + 1];
        assert InfluencerTiers[index].tier == InfluencerTiers[k + 1].tier;
      }
    } else if index > 0 {
      NegativeCountReachesNothing(index - 1, currentReferrals);
    }
  }

  /**
   * When the caller passes the resolved tier as `currentTier`, exactly one
   * row is current; for a non-negative count it is the last reached row.
   */
  lemma CurrentIsLastReached(index: nat, currentReferrals: int)
    requires index < |InfluencerTiers|
    ensures IsCurrentTier(InfluencerTiers[index].tier, ResolvedTier(currentReferrals).tier)
            <==> index == ResolvedIndex(currentReferrals)
    ensures currentReferrals >= 0 && index == ResolvedIndex(currentReferrals) ==>
              Reached(index, currentReferrals)
              && (index + 1 < |InfluencerTiers| ==> !Reached(index + 1, currentReferrals))
  {
    TableNamesDistinct();
    if currentReferrals >= 0 {
      ReachedMatchesResolver(index, currentReferrals);
      if index + 1 < |InfluencerTiers| {
        ReachedMatchesResolver(index + 1, currentReferrals);
      }
    }
  }

  /** Progress bars appear exactly on the unreached rows other than the first; for `n >= 0` those after the resolved row. */
  lemma ProgressBarRows(index: nat, currentReferrals: int)
    requires index < |InfluencerTiers|
    ensures currentReferrals >= 0 ==>
      (ShowsProgressBar(index, currentReferrals) <==> index > ResolvedIndex(currentReferrals))
    ensures IsNext(index, currentReferrals) ==> ShowsProgressBar(index, currentReferrals)
  {
    if currentReferrals >= 0 {
      ReachedMatchesResolver(index, currentReferrals);
      ReachedMatchesResolver(0, currentReferrals);
    }
  }

  /** The next-to-unlock row's bar is in [0, 100): the previous row is reached and this one is not. */
  lemma NextWidthInRange(index: nat, currentReferrals: int)
    requires 0 < index < |InfluencerTiers|
    requires IsNext(index, currentReferrals)
    ensures 0.0 <= ProgressWidth(index, currentReferrals) < 100.0
    ensures ClampedProgressWidth(index, currentReferrals) == ProgressWidth(index, currentReferrals)
  {
    ReachedIffAtLeastMin(index, currentReferrals);
    ReachedIffAtLeastMin(index - 1, currentReferrals);
    TableIsAscending();
    var prev := InfluencerTiers[index - 1].minReferrals;
    var span := InfluencerTiers[index].minReferrals - prev;
    assert 0 <= currentReferrals - prev < span;
    PercentOfSpan(currentReferrals - prev, currentReferrals - prev, span);
    assert ProgressWidth(index, currentReferrals) == ((currentReferrals - prev) as real / span as real) * 100.0;
  }

  /**
   * As written, a bar further along than the next-to-unlock row gets a
   * negative width: with 0 referrals the Premium row (index 2) is shown a
   * bar of -100 percent.
   */
  lemma NegativeWidthBeyondNext()
    ensures ShowsProgressBar(2, 0) && !IsNext(2, 0)
    ensures ProgressWidth(2, 0) == -100.0
    ensures ClampedProgressWidth(2, 0) == 0.0
  {
    ReachedIffAtLeastMin(2, 0);
    ReachedIffAtLeastMin(1, 0);
  }

  const DefaultGradient: string := "from-gray-400 to-gray-600"

  /** The modal's `getTierColor`: a gradient per table tier, the grey default for anything else. */
  function TimelineTierColor(tier: string): (r: string)
    ensures (forall i :: 0 <= i < |InfluencerTiers| ==> InfluencerTiers[i].tier != tier) ==> r == DefaultGradient
  {
    TableNames();
    if tier == Hustler then "from-gray-400 to-gray-600"
    else if tier == Achiever then "from-blue-400 to-blue-600"
    else if tier == Premium then "from-purple-400 to-purple-600"
    else if tier == Platinum then "from-silver-400 to-silver-600"
    else if tier == Diamond then "from-cyan-400 to-cyan-600"
    else if tier == ExclusiveBlack then "from-black to-gray-900"
    else DefaultGradient
  }

  /** Different table tiers get different gradients; only Hustler shares the default. */
  lemma TimelineColorsDistinct(i: nat, j: nat)
    requires i < j < |InfluencerTiers|
    ensures TimelineTierColor(InfluencerTiers[i].tier) != TimelineTierColor(InfluencerTiers[j].tier)
    ensures TimelineTierColor(InfluencerTiers[j].tier) != DefaultGradient
    ensures TimelineTierColor(InfluencerTiers[0].tier) == DefaultGradient
  {
    assert i in {0, 1, 2, 3, 4};
    assert j in {1, 2, 3, 4, 5};
  }
}
