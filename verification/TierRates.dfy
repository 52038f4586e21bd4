/** The staker ladder in plain numbers: which stake earns at least a given rate, and what a normalised ladder holds. */
module TierRates {
  import opened StakerTiers

  /** The rung is reached by the stake and offers at least the rate. */
  predicate Grants(t: Tier, stake: int, rate: int) { 0 <= t.min <= stake && t.bps >= rate }

  /** A stake earns at least a rate exactly when it is positive, the rate is within 2000, and some rung it reaches offers that much. */
  lemma {:induction false} EarnsIff(tiers: seq<Tier>, stake: int, rate: int)
    requires rate >= 1
    ensures Rate(tiers, stake) >= rate <==> stake > 0 && rate <= 2000 && exists t :: t in tiers && Grants(t, stake, rate)
  {
    if stake > 0 {
      RateMeans(tiers, stake);
      if Rate(tiers, stake) >= rate {
        var t :| t in tiers && Reached(t, stake) && Clamp(t.bps) == Rate(tiers, stake);
        assert Grants(t, stake, rate);
      }
      if rate <= 2000 && exists t :: t in tiers && Grants(t, stake, rate) {
        var t :| t in tiers && Grants(t, stake, rate);
        assert Reached(t, stake) && Clamp(t.bps) >= rate;
      }
    }
  }

  /** A rung with this minimum. */
  predicate OffersAt(t: Tier, m: int, rate: int) { t.min == m && t.bps >= rate }

  /** A normalised rung pays at least a rate exactly when the rate is within 2000 and some rung with its minimum offers that much. */
  lemma {:induction false} RungPaysIff(full: seq<Tier>, tiers: seq<Tier>, i: nat, rate: int)
    requires IsLadder(full, tiers) && i < |full| && rate >= 1
    ensures full[i].min >= 0
    ensures full[i].bps >= rate <==> rate <= 2000 && exists t :: t in tiers && OffersAt(t, full[i].min, rate)
  {
    RungsValid(full, tiers);
    var m := full[i].min;
    BestIsAttained(tiers, m);
    if full[i].bps >= rate {
      var t :| t in tiers && Valid(t) && t.min == m && Clamp(t.bps) == Best(tiers, m);
      assert OffersAt(t, m, rate);
    }
    if rate <= 2000 && exists t :: t in tiers && OffersAt(t, m, rate) {
      var t :| t in tiers && OffersAt(t, m, rate);
      assert Valid(t) && Clamp(t.bps) >= rate;
    }
  }

  /** The minimums of the ladder are those that are not negative and offer something; the eight smallest are kept. */
  lemma {:induction false} MinimumsAre(full: seq<Tier>, tiers: seq<Tier>, m: int)
    requires IsLadder(full, tiers)
    ensures HasMin(full, m) <==> m >= 0 && exists t :: t in tiers && OffersAt(t, m, 1)
    ensures |Kept(full)| == (if |full| < 8 then |full| else 8) && Kept(full) == full[..|Kept(full)|]
  {
    BestIsAttained(tiers, m);
    if i :| 0 <= i < |full| && full[i].min == m { RungPaysIff(full, tiers, i, 1); RungsValid(full, tiers); }
    if m >= 0 && exists t :: t in tiers && OffersAt(t, m, 1) {
      var t :| t in tiers && OffersAt(t, m, 1);
      assert Valid(t) && Clamp(t.bps) > 0;
    }
  }
}
