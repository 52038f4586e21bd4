/** The figures an estimate starts from, in terms of what the caller supplies. */
module CashbackTerms {
  import opened CashbackLedger
  import opened CashbackLaws
  import opened CashbackTheorems

  // ---- the base rate

  /** Hundredths of a percent of the spend, as money times ten thousand. */
  predicate PaysBps(usd: real, spend: real, bps: real) { usd * 10000.0 == spend * bps }

  /**
   Without a stake the base is the operator's, with one it is the higher of the operator's and the
   pool's: a promotion never pays a staker less.
   */
  lemma {:induction false} BaseIsHigher(i: Input)
    ensures var spend := Max(0.0, i.spendNim) * Max(0.0, i.nimUsd);
      if i.stakeNim > 0.0 && i.stakerBaseBps > i.baseBps then PaysBps(BaseUsd(i), spend, Max(0.0, i.stakerBaseBps))
      else PaysBps(BaseUsd(i), spend, Max(0.0, i.baseBps))
  {
    var b := BaseBps(i);
    TenThousandth(SpendUsd(i), b);
  }

  lemma {:induction false} TenThousandth(x: real, b: real)
    ensures x * (b / 10000.0) * 10000.0 == x * b
  {
  }

  // ---- the monthly credit

  /** Loyalty starts at its start, is full after the ramp, and grows evenly in between. */
  lemma {:induction false} LoyaltyPoints(p: Program, days: real)
    requires 0.0 <= p.loyaltyStart <= 1.0 && p.rampDays >= 1.0
    ensures days <= 0.0 ==> Loyalty(days, p) == p.loyaltyStart
    ensures days >= p.rampDays ==> Loyalty(days, p) == 1.0
    ensures 0.0 <= days <= p.rampDays ==> (Loyalty(days, p) - p.loyaltyStart) * p.rampDays == (1.0 - p.loyaltyStart) * days
  {
    var s, t, d := p.loyaltyStart, p.rampDays, Max(0.0, days);
    Undo(d, t);
    assert Max(1.0, t) == t && Clamp(s, 0.0, 1.0) == s;
    if days >= t {
      QuotientMonotone(t, d, t);
      assert t / t == 1.0;
    } else {
      QuotientMonotone(d, t, t);
      QuotientSigns(d, t);
      assert t / t == 1.0;
      OnRamp(s, d / t, t, d);
    }
  }

  lemma {:induction false} OnRamp(s: real, x: real, t: real, d: real)
    requires 0.0 <= s <= 1.0 && 0.0 <= x <= 1.0 && x * t == d
    ensures Clamp(s + (1.0 - s) * x, 0.0, 1.0) == s + (1.0 - s) * x
    ensures (s + (1.0 - s) * x - s) * t == (1.0 - s) * d
    ensures d == 0.0 && t > 0.0 ==> x == 0.0
  {
    ProductSigns(1.0 - s, x);
    ProductMonotone(x, 1.0, 1.0 - s);
    assert (1.0 - s) * x * t == (1.0 - s) * (x * t);
    if x > 0.0 && t > 0.0 { ProductPositive(x, t); }
  }

  lemma {:induction false} ProductPositive(x: real, t: real)
    requires x > 0.0 && t > 0.0
    ensures x * t > 0.0
  {
  }

  /** A missing ramp is five years, and a ramp is at least a day. */
  lemma {:induction false} LoyaltyDefaults(p: Program, days: real)
    ensures Loyalty(days, p.(rampDays := 0.0)) == Loyalty(days, p.(rampDays := 1825.0))
    ensures p.rampDays < 1.0 && p.rampDays != 0.0 ==> Loyalty(days, p) == Loyalty(days, p.(rampDays := 1.0))
  {
    SameRamp(days, p.(rampDays := 0.0), p.(rampDays := 1825.0), 1825.0);
    if p.rampDays < 1.0 && p.rampDays != 0.0 { SameRamp(days, p, p.(rampDays := 1.0), 1.0); }
  }

  lemma {:induction false} SameRamp(days: real, p: Program, q: Program, t: real)
    requires p.loyaltyStart == q.loyaltyStart
    requires t == Max(1.0, if p.rampDays == 0.0 then FALLBACK_RAMP_DAYS else p.rampDays)
    requires t == Max(1.0, if q.rampDays == 0.0 then FALLBACK_RAMP_DAYS else q.rampDays)
    ensures Loyalty(days, p) == Loyalty(days, q)
  {
  }

  /** Below the minimum stake nothing is credited. */
  lemma {:induction false} NoCreditBelowMinimum(i: Input)
    requires Max(0.0, i.stakeNim) < i.program.minStakeNim
    ensures CreditNim(i) == 0.0
  {
  }

  /**
   From the minimum on, twelve months' credit is the programme's share, at the loyalty of the day, of
   the pool's fee on a year's reward.
   */
  lemma {:induction false} YearOfCredit(i: Input)
    requires i.stakeNim >= 0.0 && i.stakeNim >= i.program.minStakeNim && i.apyPct >= 0.0 && 0.0 <= i.poolFeePct <= 100.0
    requires 0.0 <= i.program.creditShare <= 1.0
    ensures 12.0 * CreditNim(i) * 10000.0
      == i.program.creditShare * Loyalty(i.loyaltyDays, i.program) * (i.stakeNim * i.apyPct * i.poolFeePct)
  {
    var k, g := i.program.creditShare, Loyalty(i.loyaltyDays, i.program);
    YearOfFee(i.stakeNim, i.apyPct, i.poolFeePct, PoolFeeNim(i));
    assert CreditNim(i) == k * g * PoolFeeNim(i);
    Regrouped(k * g, PoolFeeNim(i), i.stakeNim * i.apyPct * i.poolFeePct);
  }

  lemma {:induction false} YearOfFee(s: real, a: real, f: real, fee: real)
    requires fee == s * (a / 100.0) / 12.0 * (f / 100.0)
    ensures 12.0 * fee * 10000.0 == s * a * f
  {
  }

  lemma {:induction false} Regrouped(kg: real, fee: real, all: real)
    requires 12.0 * fee * 10000.0 == all
    ensures 12.0 * (kg * fee) * 10000.0 == kg * all
  {
  }

  // ---- the plan

  /** What the simulation runs on: percent caps, a basis of at least a dollar, a carry share within 0 and 1, at most thirty purchases. */
  lemma {:induction false} PlanTerms(i: Input)
    ensures var p := PlanOf(i); p.price == Max(0.0, i.nimUsd) && p.maxFrac * 100.0 == Max(0.0, i.program.maxBoostPercent)
    ensures var p := PlanOf(i); p.basis == (if i.program.displayBasisUsd > 1.0 then i.program.displayBasisUsd else 1.0)
    ensures var p := PlanOf(i); p.ledgerCapUsd == (if i.program.ledgerMaxUsd > 0.0 then i.program.ledgerMaxUsd else 0.0)
    ensures var q := i.program.carryShare; PlanOf(i).carry == if q < 0.0 then 0.0 else if q > 1.0 then 1.0 else q
  {
  }

  /** As few purchases as the daily cap allows, but no fewer than four and no more than thirty. */
  lemma {:induction false} FewestPurchases(e: real, d: real, n: nat)
    requires d > 0.0 && e > 0.0 && 4 <= n <= 30
    ensures PurchaseCount(e, d) <= n <==> e <= n as real * d || n == 30
  {
    var r := e / d;
    Undo(e, d);
    CeilAbove(r);
    if e <= n as real * d {
      QuotientMonotone(e, n as real * d, d);
      assert n as real * d / d == n as real;
    } else {
      if r <= n as real { ProductMonotone(r, n as real, d); }
    }
  }

  // ---- one month, worked out

  /** Half a dollar a NIM, four purchases of ten dollars, a credit of two each, a cap of two percent on a basis of a hundred. */
  const SAMPLE: Plan := Plan(0.5, 8.0, 40.0, 4, 0.02, 100.0, 10.0, 0.0)

  const SAMPLE_SIM: Sim := Sim(20.0, 2.0, 0.005, 20.0, 0.02)

  lemma {:induction false} SampleSim()
    ensures SimIs(SAMPLE, SAMPLE_SIM)
  {
  }

  predicate IsNext(k: Sim, l: Ledger, next: Ledger) { Purchase(k, l) == next }

  lemma {:induction false} SamplePurchase(a: real, paid: real, rates: real, r: real, p: real, next: Ledger)
    requires 0.0 <= a <= 18.0 && r == Min(0.02, (a + 2.0) * 0.005) && p == Min(a + 2.0, r * 20.0)
    requires next == Ledger(a + 2.0 - p, paid + p, rates + r)
    ensures IsNext(SAMPLE_SIM, Ledger(a, paid, rates), next)
  {
  }

  lemma {:induction false} FourPurchases(k: Sim, l0: Ledger, l1: Ledger, l2: Ledger, l3: Ledger, l4: Ledger)
    requires l0 == Ledger(0.0, 0.0, 0.0) && IsNext(k, l0, l1) && IsNext(k, l1, l2) && IsNext(k, l2, l3) && IsNext(k, l3, l4)
    ensures FourPay(k, l4)
  {
    assert Purchases(k, 0.0, 0) == l0;
    assert Purchases(k, 0.0, 1) == l1;
    assert Purchases(k, 0.0, 2) == l2;
    assert Purchases(k, 0.0, 3) == l3;
  }

  lemma {:induction false} SamplePurchases()
    ensures FourPay(SAMPLE_SIM, Ledger(6.62, 1.38, 0.069))
  {
    var l0, l1, l2 := Ledger(0.0, 0.0, 0.0), Ledger(1.8, 0.2, 0.01), Ledger(3.42, 0.58, 0.029);
    var l3, l4 := Ledger(5.02, 0.98, 0.049), Ledger(6.62, 1.38, 0.069);
    SamplePurchase(0.0, 0.0, 0.0, 0.01, 0.2, l1);
    SamplePurchase(1.8, 0.2, 0.01, 0.019, 0.38, l2);
    SamplePurchase(3.42, 0.58, 0.029, 0.02, 0.4, l3);
    SamplePurchase(5.02, 0.98, 0.049, 0.02, 0.4, l4);
    FourPurchases(SAMPLE_SIM, l0, l1, l2, l3, l4);
  }

  predicate SimIs(p: Plan, k: Sim) { Boosted(p) && SimOf(p) == k }

  predicate FourPay(k: Sim, l: Ledger) { Purchases(k, 0.0, 4) == l }

  predicate Shows(p: Plan, usd: real, percent: real) { BoostUsd(p) == usd && BoostRatePct(p) == percent }

  /** Nothing is carried, so every month pays 69 cents, and shows 1.725 percent. */
  lemma {:induction false} SampleMonth()
    ensures Shows(SAMPLE, 0.69, 1.725)
  {
    SampleSim();
    SamplePurchases();
    ShownAs(SAMPLE, SAMPLE_SIM, Ledger(6.62, 1.38, 0.069), 0.69, 1.725);
  }

  lemma {:induction false} ShownAs(p: Plan, k: Sim, l: Ledger, usd: real, percent: real)
    requires SimIs(p, k) && p.count == 4 && p.carry == 0.0 && FourPay(k, l)
    requires usd == l.paid * p.price && percent == l.rates / 4.0 * 100.0
    ensures Shows(p, usd, percent)
  {
    NothingCarried(k, 4, MONTHS - 1);
    OneMonth(p, k, l);
  }

  lemma {:induction false} OneMonth(p: Plan, k: Sim, l: Ledger)
    requires SimIs(p, k) && p.count == 4 && p.carry == 0.0 && FourPay(k, l) && Carried(k, 4, 0.0, MONTHS - 1) == 0.0
    ensures Shown(p) == l
  {
  }

  lemma {:induction false} NothingCarried(k: Sim, n: nat, m: nat)
    ensures Carried(k, n, 0.0, m) == 0.0
  {
    if m > 0 { NothingOf(Purchases(k, Carried(k, n, 0.0, m - 1), n)); }
  }

  lemma {:induction false} NothingOf(l: Ledger)
    ensures MonthEnd(l, 0.0) == 0.0
  {
  }

  /** A carry share of one carries the whole balance over, and half of it half as much. */
  lemma {:induction false} CarryKeeps(k: Sim, n: nat, q: real, m: nat)
    ensures Carried(k, n, q, m + 1) == q * Month(k, n, q, m).balance
  {
    Swapped(Month(k, n, q, m).balance, q);
  }

  lemma {:induction false} Swapped(a: real, q: real)
    ensures a * q == q * a
  {
  }
}
