/** The estimator's promises, for every input: caps, exactness at the displayed rate, and monotonicity. */
module CashbackTheorems {
  import opened CashbackLedger
  import opened CashbackLaws

  lemma {:induction false} QuotientSigns(x: real, d: real)
    requires x >= 0.0 && d > 0.0
    ensures x / d >= 0.0
  {
  }

  lemma {:induction false} QuotientMonotone(x: real, x': real, d: real)
    requires x <= x' && d > 0.0
    ensures x / d <= x' / d
  {
    QuotientSigns(x' - x, d);
    assert x' / d - x / d == (x' - x) / d;
  }

  lemma {:induction false} Undo(x: real, d: real)
    requires d > 0.0
    ensures x / d * d == x
  {
  }

  /** A plan as `PlanOf` makes it: no negative figure, a carry share, a basis of at least one dollar. */
  ghost predicate SanePlan(p: Plan) {
    p.price >= 0.0 && p.creditNim >= 0.0 && p.maxFrac >= 0.0 && p.basis >= 1.0 && p.ledgerCapUsd >= 0.0
    && 0.0 <= p.carry <= 1.0 && 4 <= p.count <= 30
  }

  lemma {:induction false} SimSane(p: Plan)
    requires SanePlan(p) && Boosted(p)
    ensures Sane(SimOf(p)) && PerPurchase(p) >= 0.0
  {
    var n := p.count as real;
    QuotientSigns(p.ledgerCapUsd, p.price);
    QuotientSigns(p.creditNim, n);
    QuotientSigns(p.price, p.basis);
    QuotientSigns(p.eligible, n);
    QuotientSigns(PerPurchase(p), p.price);
  }

  lemma {:induction false} ShownWithinCaps(p: Plan)
    requires SanePlan(p) && Boosted(p)
    ensures WithinCaps(SimOf(p), Shown(p)) && Shown(p).rates <= p.count as real * p.maxFrac
  {
    var k := SimOf(p);
    SimSane(p);
    CarriedBounds(k, p.count, p.carry, MONTHS - 1);
    PurchaseBounds(k, Carried(k, p.count, p.carry, MONTHS - 1), p.count);
    RatesBound(k, Carried(k, p.count, p.carry, MONTHS - 1), p.count);
  }

  // ---- caps and exactness

  lemma {:induction false} CeilAbove(r: real)
    ensures r <= Ceil(r) as real < r + 1.0
  {
  }

  lemma {:induction false} CountCovers(e: real, d: real)
    requires d > 0.0 && e <= d * 30.0
    ensures e <= PurchaseCount(e, d) as real * d
  {
    var r, n := e / d, PurchaseCount(e, d) as real;
    Undo(e, d);
    QuotientMonotone(e, d * 30.0, d);
    assert d * 30.0 / d == 30.0;
    CeilAbove(r);
    assert r <= n;
    ProductMonotone(r, n, d);
  }

  lemma {:induction false} PartOf(e: real, n: real, d: real)
    requires n > 0.0 && e <= n * d
    ensures e / n <= d
  {
    QuotientMonotone(e, n * d, n);
    assert n * d / n == d;
  }

  /** A simulated purchase never exceeds the daily cap. */
  lemma {:induction false} PurchaseWithinDayCap(i: Input)
    requires Boosted(PlanOf(i))
    ensures PerPurchase(PlanOf(i)) <= DayCap(i)
  {
    CountCovers(EligibleUsd(i), DayCap(i));
    PartOf(EligibleUsd(i), PlanOf(i).count as real, DayCap(i));
  }

  lemma {:induction false} PayoutInUsd(paid: real, rates: real, share: real, x: real, price: real)
    requires price > 0.0 && share == x / price
    ensures paid <= rates * share ==> paid * price <= rates * x
    ensures paid == rates * share ==> paid * price == rates * x
  {
    Undo(x, price);
    assert rates * share * price == rates * (share * price);
    if paid <= rates * share { ProductMonotone(paid, rates * share, price); }
  }

  /** Paid no more than the rates on purchases of x, which are no more than the capped ones. */
  predicate AtRates(paid: real, rates: real, n: real, f: real, x: real) { 0.0 <= paid <= rates * x && 0.0 <= rates <= n * f }

  lemma {:induction false} CapOnSpend(paid: real, rates: real, n: real, f: real, x: real, e: real)
    requires AtRates(paid, rates, n, f, x) && x >= 0.0 && n > 0.0 && x == e / n
    ensures paid <= f * e
  {
    ProductMonotone(rates, n * f, x);
    Undo(e, n);
    assert n * f * x == f * (x * n);
  }

  /** How the simulated programme relates to the price, the display basis and the size of a purchase. */
  ghost predicate Converts(k: Sim, price: real, basis: real, x: real) {
    price > 0.0 && basis > 0.0 && x >= 0.0 && k.slope == price / basis && k.share == x / price
  }

  /** A month's money in terms of the rates it displayed. */
  lemma {:induction false} LedgerInUsd(k: Sim, l: Ledger, price: real, basis: real, x: real)
    requires Converts(k, price, basis, x) && WithinCaps(k, l)
    ensures 0.0 <= l.paid * price <= l.rates * x
    ensures x <= basis ==> l.paid * price == l.rates * x
  {
    if x <= basis { SlopeTimesShare(price, basis, x); }
    PayoutInUsd(l.paid, l.rates, k.share, x, price);
    ProductSigns(l.paid, price);
  }

  lemma {:induction false} ShownInUsd(p: Plan)
    requires SanePlan(p) && Boosted(p)
    ensures AtRates(BoostUsd(p), Shown(p).rates, p.count as real, p.maxFrac, PerPurchase(p))
    ensures PerPurchase(p) <= p.basis ==> BoostUsd(p) == Shown(p).rates * PerPurchase(p)
  {
    ShownWithinCaps(p);
    SimSane(p);
    LedgerInUsd(SimOf(p), Shown(p), p.price, p.basis, PerPurchase(p));
  }

  lemma {:induction false} BoostedWithinCap(p: Plan)
    requires SanePlan(p) && Boosted(p)
    ensures 0.0 <= BoostUsd(p) <= p.maxFrac * p.eligible && BoostRatePct(p) >= 0.0
  {
    ShownInUsd(p);
    RateNonNegative(p, Shown(p).rates);
    SpendPositive(p);
    CapOnSpend(BoostUsd(p), Shown(p).rates, p.count as real, p.maxFrac, PerPurchase(p), p.eligible);
  }

  lemma {:induction false} RateNonNegative(p: Plan, rates: real)
    requires Boosted(p) && rates == Shown(p).rates >= 0.0
    ensures BoostRatePct(p) >= 0.0
  {
    QuotientSigns(rates, p.count as real);
  }

  lemma {:induction false} SpendPositive(p: Plan)
    requires Boosted(p)
    ensures PerPurchase(p) >= 0.0
  {
    QuotientSigns(p.eligible, p.count as real);
  }

  /** The boost never pays more than the capped rate on the eligible spend. */
  lemma {:induction false} BoostWithinCap(p: Plan)
    requires SanePlan(p)
    ensures 0.0 <= BoostUsd(p) <= p.maxFrac * Max(0.0, p.eligible) && BoostRatePct(p) >= 0.0
  {
    if Boosted(p) { BoostedWithinCap(p); } else { ProductSigns(p.maxFrac, Max(0.0, p.eligible)); }
  }

  function AtRate(percent: real, usd: real): real { percent / 100.0 * usd }

  /** While a simulated purchase is no larger than the display basis, the boost is exactly the displayed rate on the eligible spend. */
  lemma {:induction false} BoostIsDisplayedRate(p: Plan)
    requires SanePlan(p) && Boosted(p) && PerPurchase(p) <= p.basis
    ensures BoostUsd(p) == AtRate(BoostRatePct(p), p.eligible)
  {
    ShownInUsd(p);
    RateShare(Shown(p).rates, p.count as real, PerPurchase(p), p.eligible);
  }

  lemma {:induction false} SlopeTimesShare(p: real, b: real, x: real)
    requires p > 0.0 && b > 0.0 && x <= b
    ensures p / b * (x / p) <= 1.0
  {
    var s, h := p / b, x / p;
    Undo(p, b);
    Undo(x, p);
    assert s * h * b == (s * b) * h == p * h == x;
    if s * h > 1.0 { ProductMonotone(1.0, s * h, b); }
    assert s * h * b <= b;
    QuotientMonotone(s * h * b, b, b);
    assert s * h * b / b == s * h && b / b == 1.0;
  }

  lemma {:induction false} RateShare(rates: real, n: real, x: real, e: real)
    requires n > 0.0 && x == e / n
    ensures rates * x == AtRate(rates / n * 100.0, e)
  {
    Undo(e, n);
    Undo(rates, n);
    var r := rates / n;
    assert rates * x == r * n * x == r * (x * n);
  }

  // ---- monotonicity

  /** Two plans that differ only in credit and eligible spend, the second credited no less and spending no more. */
  ghost predicate RicherPlan(p: Plan, p': Plan) {
    SanePlan(p) && SanePlan(p') && p' == p.(creditNim := p'.creditNim, eligible := p'.eligible)
    && p.creditNim <= p'.creditNim && 0.0 < p'.eligible <= p.eligible
  }

  lemma {:induction false} PlanEnriches(p: Plan, p': Plan)
    requires RicherPlan(p, p') && Boosted(p)
    ensures Boosted(p') && Richer(SimOf(p), SimOf(p'))
    ensures p'.eligible == p.eligible ==> SimOf(p).share == SimOf(p').share
  {
    SimSane(p);
    SimSane(p');
    QuotientMonotone(p.creditNim, p'.creditNim, p.count as real);
    QuotientMonotone(p'.eligible, p.eligible, p.count as real);
    QuotientMonotone(PerPurchase(p'), PerPurchase(p), p.price);
  }

  lemma {:induction false} RicherPlanShowsMore(p: Plan, p': Plan)
    requires RicherPlan(p, p')
    ensures BoostRatePct(p) <= BoostRatePct(p')
    ensures p'.eligible == p.eligible ==> BoostUsd(p) <= BoostUsd(p')
  {
    BoostWithinCap(p');
    if Boosted(p) {
      PlanEnriches(p, p');
      LedgersOrdered(SimOf(p), SimOf(p'), p.count, p.carry, MONTHS - 1, p.count);
      ScaledRates(Shown(p).rates, Shown(p').rates, p.count as real);
      if p'.eligible == p.eligible {
        MorePaidShowsMore(p, p');
      }
    }
  }

  lemma {:induction false} MorePaidShowsMore(p: Plan, p': Plan)
    requires Boosted(p) && Boosted(p') && p'.price == p.price > 0.0 && Shown(p).paid <= Shown(p').paid
    ensures BoostUsd(p) <= BoostUsd(p')
  {
    InUsdMonotone(Shown(p).paid, Shown(p').paid, p.price);
  }

  lemma {:induction false} InUsdMonotone(a: real, a': real, x: real)
    requires a <= a' && x >= 0.0
    ensures InUsd(a, x) <= InUsd(a', x)
  {
    ProductMonotone(a, a', x);
  }

  lemma {:induction false} ScaledRates(r: real, r': real, n: real)
    requires r <= r' && n > 0.0
    ensures r / n * 100.0 <= r' / n * 100.0
  {
    QuotientMonotone(r, r', n);
  }

  lemma {:induction false} LoyaltyMonotone(d: real, d': real, p: Program)
    requires d <= d'
    ensures 0.0 <= Loyalty(d, p) <= Loyalty(d', p) <= 1.0
  {
    var g0 := Clamp(p.loyaltyStart, 0.0, 1.0);
    var t := Max(1.0, if p.rampDays == 0.0 then FALLBACK_RAMP_DAYS else p.rampDays);
    QuotientMonotone(Max(0.0, d), Max(0.0, d'), t);
    QuotientSigns(Max(0.0, d), t);
    RampMonotone(g0, Min(1.0, Max(0.0, d) / t), Min(1.0, Max(0.0, d') / t));
  }

  lemma {:induction false} RampMonotone(g0: real, x: real, x': real)
    requires 0.0 <= g0 <= 1.0 && 0.0 <= x <= x' <= 1.0
    ensures g0 + (1.0 - g0) * x <= g0 + (1.0 - g0) * x'
  {
    ProductMonotone(x, x', 1.0 - g0);
  }

  lemma {:induction false} FeeMonotone(s: real, s': real, apy: real, fee: real)
    requires 0.0 <= s <= s' && apy >= 0.0 && fee >= 0.0
    ensures 0.0 <= s * apy / 12.0 * fee <= s' * apy / 12.0 * fee
  {
    ProductMonotone(s, s', apy);
    ProductSigns(s, apy);
    ProductMonotone(s * apy / 12.0, s' * apy / 12.0, fee);
    ProductSigns(s * apy / 12.0, fee);
  }

  lemma {:induction false} TripleMonotone(k: real, g: real, g': real, f: real, f': real)
    requires k >= 0.0 && 0.0 <= g <= g' && 0.0 <= f <= f'
    ensures 0.0 <= k * g * f <= k * g' * f'
  {
    ProductMonotone(g, g', k);
    ProductSigns(k, g);
    ProductMonotone(k * g, k * g', f);
    ProductSigns(k * g, f);
    ProductMonotone(f, f', k * g');
  }

  lemma {:induction false} PoolFeeMonotone(i: Input, i': Input)
    requires i' == i.(stakeNim := i'.stakeNim, loyaltyDays := i'.loyaltyDays) && i.stakeNim <= i'.stakeNim
    ensures 0.0 <= PoolFeeNim(i) <= PoolFeeNim(i')
  {
    FeeMonotone(Stake(i), Stake(i'), Max(0.0, i.apyPct) / 100.0, Clamp(i.poolFeePct, 0.0, 100.0) / 100.0);
  }

  lemma {:induction false} CreditMonotone(i: Input, i': Input)
    requires i' == i.(stakeNim := i'.stakeNim, loyaltyDays := i'.loyaltyDays)
    requires i.stakeNim <= i'.stakeNim && i.loyaltyDays <= i'.loyaltyDays
    ensures 0.0 <= CreditNim(i) <= CreditNim(i')
  {
    PoolFeeMonotone(i, i');
    LoyaltyMonotone(i.loyaltyDays, i'.loyaltyDays, i.program);
    CreditOf(i, i', Loyalty(i.loyaltyDays, i.program), Loyalty(i'.loyaltyDays, i.program), PoolFeeNim(i), PoolFeeNim(i'));
  }

  lemma {:induction false} CreditOf(i: Input, i': Input, g: real, g': real, f: real, f': real)
    requires i' == i.(stakeNim := i'.stakeNim, loyaltyDays := i'.loyaltyDays) && i.stakeNim <= i'.stakeNim
    requires g == Loyalty(i.loyaltyDays, i.program) && g' == Loyalty(i'.loyaltyDays, i.program) && f == PoolFeeNim(i) && f' == PoolFeeNim(i')
    requires 0.0 <= g <= g' && 0.0 <= f <= f'
    ensures 0.0 <= CreditNim(i) <= CreditNim(i')
  {
    TripleMonotone(Clamp(i.program.creditShare, 0.0, 1.0), g, g', f, f');
  }

  lemma {:induction false} PlanOfSane(i: Input)
    ensures SanePlan(PlanOf(i))
  {
    CreditMonotone(i, i);
  }

  /** More stake or more loyalty days never lowers the base, the boost, its displayed rate or the total. */
  lemma {:induction false} MoreStakeNeverPaysLess(i: Input, i': Input)
    requires i' == i.(stakeNim := i'.stakeNim, loyaltyDays := i'.loyaltyDays)
    requires i.stakeNim <= i'.stakeNim && i.loyaltyDays <= i'.loyaltyDays
    ensures BoostUsd(PlanOf(i)) <= BoostUsd(PlanOf(i')) && BoostRatePct(PlanOf(i)) <= BoostRatePct(PlanOf(i'))
    ensures BaseUsd(i) <= BaseUsd(i')
    ensures BaseUsd(i) + BoostUsd(PlanOf(i)) <= BaseUsd(i') + BoostUsd(PlanOf(i'))
  {
    PlanOfSane(i);
    PlanOfSane(i');
    CreditMonotone(i, i');
    assert PlanOf(i') == PlanOf(i).(creditNim := CreditNim(i'));
    MoreCreditNeverLowersBoost(PlanOf(i), PlanOf(i'));
    MoreStakeNeverLowersBase(i, i');
  }

  lemma {:induction false} MoreCreditNeverLowersBoost(p: Plan, p': Plan)
    requires SanePlan(p) && SanePlan(p') && p' == p.(creditNim := p'.creditNim) && p.creditNim <= p'.creditNim
    ensures BoostUsd(p) <= BoostUsd(p') && BoostRatePct(p) <= BoostRatePct(p')
  {
    if p.eligible > 0.0 {
      RicherPlanShowsMore(p, p');
    }
  }

  lemma {:induction false} MoreStakeNeverLowersBase(i: Input, i': Input)
    requires i' == i.(stakeNim := i'.stakeNim, loyaltyDays := i'.loyaltyDays) && i.stakeNim <= i'.stakeNim
    ensures BaseUsd(i) <= BaseUsd(i')
  {
    ProductSigns(Max(0.0, i.spendNim), Price(i));
    ProductMonotone(BaseBps(i) / 10000.0, BaseBps(i') / 10000.0, SpendUsd(i));
  }

  lemma {:induction false} SpendingKeepsPlan(i: Input, i': Input)
    requires i' == i.(spendNim := i'.spendNim) && i'.spendNim <= i.spendNim
    ensures PlanOf(i') == PlanOf(i).(eligible := EligibleUsd(i'), count := PlanOf(i').count)
    ensures EligibleUsd(i') <= EligibleUsd(i) && DayCap(i') == DayCap(i)
  {
    SameFigures(i, i');
    SpendUsdMonotone(i, i');
  }

  lemma {:induction false} SameFigures(i: Input, i': Input)
    requires i' == i.(spendNim := i'.spendNim)
    ensures Price(i') == Price(i) && CreditNim(i') == CreditNim(i) && DayCap(i') == DayCap(i)
  {
  }

  lemma {:induction false} SpendUsdMonotone(i: Input, i': Input)
    requires i' == i.(spendNim := i'.spendNim) && i'.spendNim <= i.spendNim
    ensures SpendUsd(i') <= SpendUsd(i)
  {
    ProductMonotone(Max(0.0, i'.spendNim), Max(0.0, i.spendNim), Price(i));
  }

  /** At every purchase of every month, more stake or loyalty leaves the ledger no lower. */
  lemma {:induction false} MoreStakeNeverLowersLedger(i: Input, i': Input, m: nat, j: nat)
    requires i' == i.(stakeNim := i'.stakeNim, loyaltyDays := i'.loyaltyDays)
    requires i.stakeNim <= i'.stakeNim && i.loyaltyDays <= i'.loyaltyDays && Boosted(PlanOf(i))
    ensures Boosted(PlanOf(i'))
    ensures var p, p' := PlanOf(i), PlanOf(i');
      Purchases(SimOf(p), Carried(SimOf(p), p.count, p.carry, m), j).balance
      <= Purchases(SimOf(p'), Carried(SimOf(p'), p'.count, p'.carry, m), j).balance
  {
    var p, p' := PlanOf(i), PlanOf(i');
    MoreStakeRicher(i, i');
    PlanEnriches(p, p');
    LedgersOrdered(SimOf(p), SimOf(p'), p.count, p.carry, m, j);
  }

  lemma {:induction false} MoreStakeRicher(i: Input, i': Input)
    requires i' == i.(stakeNim := i'.stakeNim, loyaltyDays := i'.loyaltyDays)
    requires i.stakeNim <= i'.stakeNim && i.loyaltyDays <= i'.loyaltyDays && Boosted(PlanOf(i))
    ensures RicherPlan(PlanOf(i), PlanOf(i')) && PlanOf(i').count == PlanOf(i).count && PlanOf(i').carry == PlanOf(i).carry
  {
    PlanOfSane(i);
    PlanOfSane(i');
    CreditMonotone(i, i');
    OnlyCreditMoves(i, i');
  }

  lemma {:induction false} OnlyCreditMoves(i: Input, i': Input)
    requires i' == i.(stakeNim := i'.stakeNim, loyaltyDays := i'.loyaltyDays)
    ensures PlanOf(i') == PlanOf(i).(creditNim := PlanOf(i').creditNim)
  {
  }
}
