/** The estimate of the calculator, and what a reader of it can rely on. */
module CashbackEstimator {
  import opened CashbackLedger
  import opened CashbackLaws
  import opened CashbackTheorems

  function EstimateOf(i: Input): Estimate {
    Estimate(BaseUsd(i), BoostUsd(PlanOf(i)), BoostRatePct(PlanOf(i)), BaseUsd(i) + BoostUsd(PlanOf(i)),
      CreditNim(i) * Price(i), EligibleUsd(i), Loyalty(i.loyaltyDays, i.program),
      Stake(i) < Max(0.0, i.program.minStakeNim), Stake(i) > 0.0)
  }

  /** The boost lies within the capped rate on the eligible spend, and nothing in the estimate is negative. */
  predicate Bounded(e: Estimate, i: Input) {
    0.0 <= e.baseUsd <= e.totalUsd && e.boostRatePct >= 0.0 && e.creditUsd >= 0.0
    && 0.0 <= e.eligibleUsd <= SpendUsd(i)
    && 0.0 <= e.boostUsd <= PlanOf(i).maxFrac * e.eligibleUsd
  }

  /** The boost is the displayed rate on the eligible spend. */
  predicate PaysWhatItShows(e: Estimate) { e.boostUsd == AtRate(e.boostRatePct, e.eligibleUsd) }

  /** Whether a simulated purchase is no larger than what the rate is displayed on. */
  predicate WithinBasis(p: Plan) { Boosted(p) ==> PerPurchase(p) <= p.basis }

  lemma {:induction false} SpendNonNegative(i: Input)
    ensures SpendUsd(i) >= 0.0 && 0.0 <= EligibleUsd(i) <= SpendUsd(i)
  {
    Product(Max(0.0, i.spendNim), Price(i));
    Product(DayCap(i), 30.0);
  }

  lemma {:induction false} Product(a: real, b: real)
    requires a >= 0.0 && b >= 0.0
    ensures a * b >= 0.0
  {
  }

  lemma {:induction false} EstimateBounded(i: Input)
    ensures Bounded(EstimateOf(i), i)
  {
    PlanOfSane(i);
    BoostWithinCap(PlanOf(i));
    SpendNonNegative(i);
    BaseNonNegative(i);
    Product(CreditNim(i), Price(i));
  }

  lemma {:induction false} BaseNonNegative(i: Input)
    ensures BaseUsd(i) >= 0.0
  {
    SpendNonNegative(i);
    Product(SpendUsd(i), BaseBps(i) / 10000.0);
  }

  // ---- the three caps on what a month can earn on

  /** The least of the spend, the monthly cap and thirty daily caps, none of them below zero. */
  predicate LeastOfCaps(x: real, i: Input) {
    var spend := Max(0.0, i.spendNim) * Max(0.0, i.nimUsd);
    var month, days := Max(0.0, i.program.monthlyCapUsd), 30.0 * Max(0.0, i.program.dailyCapUsd);
    x <= spend && x <= month && x <= days && (x == spend || x == month || x == days)
  }

  lemma {:induction false} EligibleIsLeast(i: Input)
    ensures LeastOfCaps(EligibleUsd(i), i)
  {
    assert DayCap(i) * 30.0 == 30.0 * Max(0.0, i.program.dailyCapUsd);
  }

  /** No boost is above the capped rate on the monthly cap, on the spend or on thirty daily caps. */
  predicate BoostWithinCaps(boost: real, i: Input) {
    var most := Max(0.0, i.program.maxBoostPercent) / 100.0;
    boost <= most * Max(0.0, i.program.monthlyCapUsd) && boost <= most * (Max(0.0, i.spendNim) * Max(0.0, i.nimUsd))
    && boost <= most * (30.0 * Max(0.0, i.program.dailyCapUsd))
  }

  lemma {:induction false} CapsOnBoost(most: real, x: real, boost: real, a: real)
    requires most >= 0.0 && x <= a && boost <= most * x
    ensures boost <= most * a
  {
    ProductMonotone(x, a, most);
  }

  lemma {:induction false} BoostOfEligible(i: Input, most: real, x: real)
    requires most == PlanOf(i).maxFrac && x == EligibleUsd(i)
    ensures most >= 0.0 && BoostUsd(PlanOf(i)) <= most * x
  {
    PlanOfSane(i);
    SpendNonNegative(i);
    BoostOfPlan(PlanOf(i), most, x);
  }

  lemma {:induction false} BoostOfPlan(p: Plan, most: real, x: real)
    requires SanePlan(p) && most == p.maxFrac && x == p.eligible >= 0.0
    ensures most >= 0.0 && BoostUsd(p) <= most * x
  {
    BoostWithinCap(p);
    assert Max(0.0, p.eligible) == x;
  }

  lemma {:induction false} CappedThrice(i: Input, most: real, x: real, boost: real)
    requires most == Max(0.0, i.program.maxBoostPercent) / 100.0 && most >= 0.0 && LeastOfCaps(x, i) && boost <= most * x
    ensures BoostWithinCaps(boost, i)
  {
    CapsOnBoost(most, x, boost, Max(0.0, i.program.monthlyCapUsd));
    CapsOnBoost(most, x, boost, Max(0.0, i.spendNim) * Max(0.0, i.nimUsd));
    CapsOnBoost(most, x, boost, 30.0 * Max(0.0, i.program.dailyCapUsd));
  }

  lemma {:induction false} BoostCapped(i: Input)
    ensures BoostWithinCaps(BoostUsd(PlanOf(i)), i)
  {
    var most, x := Max(0.0, i.program.maxBoostPercent) / 100.0, EligibleUsd(i);
    BoostOfEligible(i, most, x);
    EligibleIsLeast(i);
    CappedThrice(i, most, x, BoostUsd(PlanOf(i)));
  }

  lemma {:induction false} BoostPays(p: Plan)
    requires SanePlan(p) && WithinBasis(p)
    ensures BoostUsd(p) == AtRate(BoostRatePct(p), p.eligible)
  {
    if Boosted(p) {
      BoostIsDisplayedRate(p);
    } else {
      NothingShown(BoostRatePct(p), p.eligible);
    }
  }

  lemma {:induction false} NothingShown(rate: real, e: real)
    requires rate == 0.0
    ensures AtRate(rate, e) == 0.0
  {
  }

  lemma {:induction false} EstimatePays(i: Input)
    requires WithinBasis(PlanOf(i))
    ensures PaysWhatItShows(EstimateOf(i))
  {
    PlanOfSane(i);
    PaysAs(EstimateOf(i), PlanOf(i));
  }

  lemma {:induction false} PaysAs(e: Estimate, p: Plan)
    requires SanePlan(p) && WithinBasis(p)
    requires e.boostUsd == BoostUsd(p) && e.boostRatePct == BoostRatePct(p) && e.eligibleUsd == p.eligible
    ensures PaysWhatItShows(e)
  {
    BoostPays(p);
  }

  /**
   Totals add up, nothing is negative, the boost stays within the capped rate on the eligible
   spend, and within the display basis it is exactly the rate shown. The eligible spend is the
   least of the spend and the two caps.
   */
  method EstimateCashback(i: Input) returns (r: Estimate)
    ensures Bounded(r, i) && r.totalUsd == r.baseUsd + r.boostUsd
    ensures LeastOfCaps(r.eligibleUsd, i) && BoostWithinCaps(r.boostUsd, i)
    ensures WithinBasis(PlanOf(i)) ==> PaysWhatItShows(r)
    ensures r == EstimateOf(i)
  {
    var boostUsd, boostRatePct := Boost(PlanOf(i));
    var baseUsd := BaseUsd(i);
    r := Estimate(baseUsd, boostUsd, boostRatePct, baseUsd + boostUsd, CreditNim(i) * Price(i), EligibleUsd(i),
      Loyalty(i.loyaltyDays, i.program), Stake(i) < Max(0.0, i.program.minStakeNim), Stake(i) > 0.0);
    assert r == EstimateOf(i);
    EstimateBounded(i);
    EligibleIsLeast(i);
    BoostCapped(i);
    if WithinBasis(PlanOf(i)) { EstimatePays(i); }
  }
}
