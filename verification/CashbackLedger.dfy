/**
 The cashback estimator: twelve simulated months of a capped ledger that every
 purchase tops up and debits and that every month end cuts to a share. Amounts are
 real numbers. The loop is specified by recursive functions over purchases and
 months; conservation, bounds and monotonicity are proved about those.
 */
module CashbackLedger {
  datatype Program = Program(
    loyaltyStart: real, rampDays: real, creditShare: real, carryShare: real, maxBoostPercent: real,
    displayBasisUsd: real, dailyCapUsd: real, monthlyCapUsd: real, ledgerMaxUsd: real, minStakeNim: real)

  datatype Input = Input(
    stakeNim: real, spendNim: real, nimUsd: real, apyPct: real, poolFeePct: real, loyaltyDays: real,
    baseBps: real, stakerBaseBps: real, program: Program)

  datatype Estimate = Estimate(
    baseUsd: real, boostUsd: real, boostRatePct: real, totalUsd: real, creditUsd: real, eligibleUsd: real,
    loyalty: real, belowMin: bool, staked: bool)

  const FALLBACK_RAMP_DAYS := 1825.0
  const MONTHS: nat := 12

  function Min(a: real, b: real): real { if a <= b then a else b }
  function Max(a: real, b: real): real { if a >= b then a else b }
  function Clamp(v: real, lo: real, hi: real): real { Min(hi, Max(lo, v)) }

  /** A missing ramp arrives as zero and falls back to five years. */
  function Loyalty(days: real, p: Program): real {
    var g0 := Clamp(p.loyaltyStart, 0.0, 1.0);
    var t := Max(1.0, if p.rampDays == 0.0 then FALLBACK_RAMP_DAYS else p.rampDays);
    Clamp(g0 + (1.0 - g0) * Min(1.0, Max(0.0, days) / t), 0.0, 1.0)
  }

  /**
   One simulated programme, per purchase: the ledger cap, the credit, how much rate a
   unit of balance displays, how much NIM a unit of rate pays, and the rate cap.
   */
  datatype Sim = Sim(cap: real, credit: real, slope: real, share: real, maxFrac: real)

  ghost predicate Sane(k: Sim) {
    k.cap >= 0.0 && k.credit >= 0.0 && k.slope >= 0.0 && k.share >= 0.0 && k.maxFrac >= 0.0
  }

  datatype Ledger = Ledger(balance: real, paid: real, rates: real)

  function Credited(k: Sim, a: real): real { Min(k.cap, a + k.credit) }

  function Rate(k: Sim, a: real): real { Min(k.maxFrac, a * k.slope) }

  function Payout(k: Sim, a: real): real { Min(a, Rate(k, a) * k.share) }

  /** One purchase: credit up to the cap, pay the capped rate on the purchase, debit what was paid. */
  function Purchase(k: Sim, l: Ledger): Ledger {
    var b := Credited(k, l.balance);
    Ledger(b - Payout(k, b), l.paid + Payout(k, b), l.rates + Rate(k, b))
  }

  /** The ledger after j purchases of a month that began with balance a. */
  function Purchases(k: Sim, a: real, j: nat): Ledger {
    if j == 0 then Ledger(a, 0.0, 0.0) else Purchase(k, Purchases(k, a, j - 1))
  }

  /** Month end: the carried share of what is left. */
  function MonthEnd(l: Ledger, q: real): real { l.balance * q }

  /** The balance carried into month m. */
  function Carried(k: Sim, n: nat, q: real, m: nat): real {
    if m == 0 then 0.0 else MonthEnd(Purchases(k, Carried(k, n, q, m - 1), n), q)
  }

  /** The simulated month m. */
  function Month(k: Sim, n: nat, q: real, m: nat): Ledger {
    Purchases(k, Carried(k, n, q, m), n)
  }

  function Ceil(r: real): int { -((-r).Floor) }

  /** Purchases a month: four to thirty, none above the daily cap. */
  function PurchaseCount(eligible: real, dayCap: real): (n: nat)
    requires dayCap > 0.0
    ensures 4 <= n <= 30
  {
    var c := Ceil(eligible / dayCap);
    var d := if c <= 30 then c else 30;
    if d >= 4 then d else 4
  }

  // ---- the inputs of the simulation

  function Price(i: Input): real { Max(0.0, i.nimUsd) }
  function Stake(i: Input): real { Max(0.0, i.stakeNim) }
  function SpendUsd(i: Input): real { Max(0.0, i.spendNim) * Price(i) }
  function DayCap(i: Input): real { Max(0.0, i.program.dailyCapUsd) }

  function EligibleUsd(i: Input): real {
    Min(SpendUsd(i), Min(Max(0.0, i.program.monthlyCapUsd), DayCap(i) * 30.0))
  }

  function BaseBps(i: Input): real {
    var op := Max(0.0, i.baseBps);
    if Stake(i) > 0.0 then Max(op, Max(0.0, i.stakerBaseBps)) else op
  }

  function PoolFeeNim(i: Input): real {
    Stake(i) * (Max(0.0, i.apyPct) / 100.0) / 12.0 * (Clamp(i.poolFeePct, 0.0, 100.0) / 100.0)
  }

  function CreditNim(i: Input): real {
    if Stake(i) < Max(0.0, i.program.minStakeNim) then 0.0
    else Clamp(i.program.creditShare, 0.0, 1.0) * Loyalty(i.loyaltyDays, i.program) * PoolFeeNim(i)
  }

  /** The figures the simulation runs on. */
  datatype Plan = Plan(
    price: real, creditNim: real, eligible: real, count: nat, maxFrac: real, basis: real, ledgerCapUsd: real, carry: real)

  function PlanOf(i: Input): Plan {
    var p := i.program;
    Plan(Price(i), CreditNim(i), EligibleUsd(i),
         if EligibleUsd(i) > 0.0 then PurchaseCount(EligibleUsd(i), DayCap(i)) else 4,
         Max(0.0, p.maxBoostPercent) / 100.0, Max(1.0, p.displayBasisUsd), Max(0.0, p.ledgerMaxUsd), Clamp(p.carryShare, 0.0, 1.0))
  }

  /** The boost is simulated only when all four factors are positive. */
  predicate Boosted(p: Plan) {
    p.creditNim > 0.0 && p.price > 0.0 && p.eligible > 0.0 && p.maxFrac > 0.0 && p.basis > 0.0 && p.count > 0
  }

  function PerPurchase(p: Plan): real
    requires Boosted(p)
  {
    p.eligible / p.count as real
  }

  function SimOf(p: Plan): Sim
    requires Boosted(p)
  {
    Sim(p.ledgerCapUsd / p.price, p.creditNim / p.count as real, p.price / p.basis, PerPurchase(p) / p.price, p.maxFrac)
  }

  /** The last simulated month, the one the page shows. */
  function Shown(p: Plan): Ledger
    requires Boosted(p)
  {
    Month(SimOf(p), p.count, p.carry, MONTHS - 1)
  }

  function InUsd(nim: real, price: real): real { nim * price }

  function BoostUsd(p: Plan): real {
    if Boosted(p) then InUsd(Shown(p).paid, p.price) else 0.0
  }

  function BoostRatePct(p: Plan): real {
    if Boosted(p) then Shown(p).rates / p.count as real * 100.0 else 0.0
  }

  function BaseUsd(i: Input): real { SpendUsd(i) * (BaseBps(i) / 10000.0) }

  lemma {:induction false} PayoutAsCoded(k: Sim, a: real, rate: real, price: real, x: real)
    requires price > 0.0 && k.share == x / price && rate == Rate(k, a)
    ensures Min(a, rate * x / price) == Payout(k, a)
  {
  }

  /** The body of the inner loop. */
  method BuyOnce(k: Sim, l: Ledger, price: real, basis: real, x: real) returns (after: Ledger)
    requires price > 0.0 && basis > 0.0 && k.slope == price / basis && k.share == x / price
    ensures after == Purchase(k, l)
  {
    var a := Credited(k, l.balance);
    var rate := Min(k.maxFrac, a * price / basis);
    PayoutAsCoded(k, a, rate, price, x);
    var paid := Min(a, rate * x / price);
    after := Ledger(a - paid, l.paid + paid, l.rates + rate);
  }

  /** The nested loop: twelve months of n purchases, each followed by the month end. */
  method Simulate(k: Sim, price: real, basis: real, x: real, n: nat, q: real) returns (l: Ledger)
    requires price > 0.0 && basis > 0.0 && k.slope == price / basis && k.share == x / price
    ensures l.paid == Month(k, n, q, 11).paid && l.rates == Month(k, n, q, 11).rates
  {
    l := Ledger(0.0, 0.0, 0.0);
    for m := 0 to MONTHS
      invariant l.balance == Carried(k, n, q, m)
      invariant m > 0 ==> l.paid == Month(k, n, q, m - 1).paid && l.rates == Month(k, n, q, m - 1).rates
    {
      ghost var start := l.balance;
      l := Ledger(l.balance, 0.0, 0.0);
      for j := 0 to n
        invariant l == Purchases(k, start, j)
      {
        l := BuyOnce(k, l, price, basis, x);
      }
      l := Ledger(MonthEnd(l, q), l.paid, l.rates);
    }
  }

  method Boost(p: Plan) returns (boostUsd: real, boostRatePct: real)
    ensures boostUsd == BoostUsd(p) && boostRatePct == BoostRatePct(p)
  {
    boostUsd, boostRatePct := 0.0, 0.0;
    if Boosted(p) {
      var l := Simulate(SimOf(p), p.price, p.basis, PerPurchase(p), p.count, p.carry);
      assert l.paid == Shown(p).paid && l.rates == Shown(p).rates;
      boostUsd := InUsd(l.paid, p.price);
      boostRatePct := l.rates / p.count as real * 100.0;
    }
  }
}
