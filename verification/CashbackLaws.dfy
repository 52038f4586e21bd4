/** What the ledger simulation guarantees: conservation, bounds and monotonicity. */
module CashbackLaws {
  import opened CashbackLedger

  // ---- products of non-negative reals

  lemma {:induction false} ProductSigns(x: real, y: real)
    requires x >= 0.0 && y >= 0.0
    ensures x * y >= 0.0
  {
  }

  lemma {:induction false} ProductMonotone(x: real, x': real, y: real)
    requires x <= x' && y >= 0.0
    ensures x * y <= x' * y && y * x <= y * x'
  {
    ProductSigns(x' - x, y);
  }

  lemma {:induction false} ShareOf(b: real, q: real)
    requires b >= 0.0 && 0.0 <= q <= 1.0
    ensures 0.0 <= b * q <= b
  {
    ProductSigns(b, q);
    ProductSigns(b, 1.0 - q);
    assert b * (1.0 - q) == b - b * q;
  }

  lemma {:induction false} OneMore(j: nat, x: real)
    requires j > 0
    ensures j as real * x == (j - 1) as real * x + x
  {
  }

  lemma {:induction false} LeastProduct(f: real, y: real, s: real)
    requires s >= 0.0
    ensures Min(f, y) * s == Min(f * s, y * s)
  {
    if f <= y { ProductMonotone(f, y, s); } else { ProductMonotone(y, f, s); }
  }

  // ---- one purchase

  lemma {:induction false} RateBounds(k: Sim, a: real)
    requires Sane(k) && a >= 0.0
    ensures 0.0 <= Rate(k, a) <= k.maxFrac
  {
    ProductSigns(a, k.slope);
  }

  lemma {:induction false} PayoutBounds(k: Sim, a: real)
    requires Sane(k) && a >= 0.0
    ensures 0.0 <= Payout(k, a) <= a && Payout(k, a) <= Rate(k, a) * k.share
  {
    RateBounds(k, a);
    ProductSigns(Rate(k, a), k.share);
  }

  /** v is the payout at the rate cap, u the share of the balance a payout below the cap takes. */
  ghost predicate PayoutTerms(k: Sim, v: real, u: real) {
    Sane(k) && v == k.maxFrac * k.share && u == k.slope * k.share && u >= 0.0
  }

  /** A payout is the smallest of the balance, the capped rate's share and the balance's own share. */
  lemma {:induction false} PayoutForm(k: Sim, a: real, v: real, u: real)
    requires PayoutTerms(k, v, u)
    ensures Rate(k, a) * k.share == Min(v, a * u)
    ensures Payout(k, a) == Min(a, Min(v, a * u))
  {
    LeastProduct(k.maxFrac, a * k.slope, k.share);
    Regroup(a, k.slope, k.share);
  }

  lemma {:induction false} Regroup(a: real, x: real, y: real)
    ensures a * x * y == a * (x * y)
  {
  }

  /** A share of at most one leaves more of more. */
  lemma {:induction false} LeavesMore(a: real, a': real, u: real, p: real, p': real)
    requires a <= a' && u <= 1.0 && p == a * u && p' == a' * u
    ensures a - p <= a' - p'
  {
    var d, w := a' - a, 1.0 - u;
    ProductSigns(d, w);
    assert d * w == d - d * u;
    assert d * u == p' - p;
  }

  lemma {:induction false} AtLeastItself(a: real, u: real, p: real)
    requires a >= 0.0 && u >= 1.0 && p == a * u
    ensures a <= p
  {
    ProductSigns(a, u - 1.0);
    assert a * (u - 1.0) == p - a;
  }

  lemma {:induction false} GrowsWith(a: real, a': real, u: real, p: real, p': real)
    requires a <= a' && u >= 0.0 && p == a * u && p' == a' * u
    ensures p <= p'
  {
    ProductSigns(a' - a, u);
    assert (a' - a) * u == p' - p;
  }

  lemma {:induction false} LeastOfThree(a: real, a': real, v: real, u: real)
    requires 0.0 <= a <= a' && u >= 0.0
    ensures Min(a, Min(v, a * u)) <= Min(a', Min(v, a' * u))
    ensures a - Min(a, Min(v, a * u)) <= a' - Min(a', Min(v, a' * u))
  {
    GrowsWith(a, a', u, a * u, a' * u);
    if u <= 1.0 {
      LeavesMore(a, a', u, a * u, a' * u);
      SmallShare(a, a', v, a * u, a' * u);
    } else {
      AtLeastItself(a, u, a * u);
      AtLeastItself(a', u, a' * u);
      LargeShare(a, a', v, a * u, a' * u);
    }
  }

  lemma {:induction false} SmallShare(a: real, a': real, v: real, p: real, p': real)
    requires a <= a' && p <= p' && a - p <= a' - p'
    ensures Min(a, Min(v, p)) <= Min(a', Min(v, p'))
    ensures a - Min(a, Min(v, p)) <= a' - Min(a', Min(v, p'))
  {
  }

  lemma {:induction false} LargeShare(a: real, a': real, v: real, p: real, p': real)
    requires a <= a' && a <= p && a' <= p'
    ensures Min(a, Min(v, p)) <= Min(a', Min(v, p'))
    ensures a - Min(a, Min(v, p)) <= a' - Min(a', Min(v, p'))
  {
  }

  /** With more in the ledger, the rate, the payout and what is left are no less. */
  lemma {:induction false} BalanceMonotone(k: Sim, a: real, a': real)
    requires Sane(k) && 0.0 <= a <= a'
    ensures Rate(k, a) <= Rate(k, a')
    ensures Payout(k, a) <= Payout(k, a')
    ensures a - Payout(k, a) <= a' - Payout(k, a')
  {
    RateMonotone(k, a, a');
    var u := k.slope * k.share;
    ProductSigns(k.slope, k.share);
    PayoutMonotone(k, a, a', k.maxFrac * k.share, u);
  }

  lemma {:induction false} RateMonotone(k: Sim, a: real, a': real)
    requires Sane(k) && 0.0 <= a <= a'
    ensures Rate(k, a) <= Rate(k, a')
  {
    ProductMonotone(a, a', k.slope);
  }

  lemma {:induction false} PayoutMonotone(k: Sim, a: real, a': real, v: real, u: real)
    requires PayoutTerms(k, v, u) && 0.0 <= a <= a'
    ensures Payout(k, a) <= Payout(k, a') && a - Payout(k, a) <= a' - Payout(k, a')
  {
    PayoutForm(k, a, v, u);
    PayoutForm(k, a', v, u);
    LeastOfThree(a, a', v, u);
  }

  /** A smaller purchase pays out no more. */
  lemma {:induction false} SmallerShare(k: Sim, k': Sim, a: real)
    requires Sane(k) && k' == k.(share := k'.share, credit := k'.credit) && 0.0 <= k'.share <= k.share && a >= 0.0
    ensures Rate(k', a) == Rate(k, a) && Payout(k', a) <= Payout(k, a)
  {
    RateBounds(k, a);
    ProductMonotone(k'.share, k.share, Rate(k, a));
  }

  // ---- bounds and exactness

  /** Payouts never exceed the displayed rates, and equal them while the balance can always pay the rate. */
  ghost predicate PaidAtRates(k: Sim, paid: real, rates: real) {
    paid <= rates * k.share && (k.slope * k.share <= 1.0 ==> paid == rates * k.share)
  }

  ghost predicate WithinCaps(k: Sim, l: Ledger) {
    0.0 <= l.balance <= k.cap && l.paid >= 0.0 && l.rates >= 0.0 && PaidAtRates(k, l.paid, l.rates)
  }

  lemma {:induction false} PaysTheRate(k: Sim, a: real)
    requires Sane(k) && a >= 0.0
    ensures PaidAtRates(k, Payout(k, a), Rate(k, a))
  {
    PayoutBounds(k, a);
    if k.slope * k.share <= 1.0 {
      ProductSigns(k.slope, k.share);
      ShareOf(a, k.slope * k.share);
      PayoutForm(k, a, k.maxFrac * k.share, k.slope * k.share);
    }
  }

  lemma {:induction false} RatesAddUp(k: Sim, p: real, q: real, r: real, s: real)
    requires PaidAtRates(k, p, r) && PaidAtRates(k, q, s)
    ensures PaidAtRates(k, p + q, r + s)
  {
    assert (r + s) * k.share == r * k.share + s * k.share;
  }

  lemma {:induction false} PurchaseWithinCaps(k: Sim, l: Ledger)
    requires Sane(k) && WithinCaps(k, l)
    ensures WithinCaps(k, Purchase(k, l)) && Purchase(k, l).rates <= l.rates + k.maxFrac
  {
    var b := Credited(k, l.balance);
    PayoutBounds(k, b);
    RateBounds(k, b);
    PaysTheRate(k, b);
    RatesAddUp(k, l.paid, Payout(k, b), l.rates, Rate(k, b));
  }

  /** The balance stays between zero and the cap at every purchase of a month. */
  lemma {:induction false} PurchaseBounds(k: Sim, a: real, j: nat)
    requires Sane(k) && 0.0 <= a <= k.cap
    ensures WithinCaps(k, Purchases(k, a, j))
  {
    if j > 0 {
      PurchaseBounds(k, a, j - 1);
      PurchaseWithinCaps(k, Purchases(k, a, j - 1));
    }
  }

  lemma {:induction false} RatesBound(k: Sim, a: real, j: nat)
    requires Sane(k) && 0.0 <= a <= k.cap
    ensures Purchases(k, a, j).rates <= j as real * k.maxFrac
  {
    if j > 0 {
      RatesBound(k, a, j - 1);
      RatesGrow(k, a, j);
      AddRate(Purchases(k, a, j - 1).rates, Purchases(k, a, j).rates, j, k.maxFrac);
    }
  }

  lemma {:induction false} AddRate(r: real, r': real, j: nat, f: real)
    requires j > 0 && r <= (j - 1) as real * f && r' <= r + f
    ensures r' <= j as real * f
  {
    OneMore(j, f);
  }

  lemma {:induction false} RatesGrow(k: Sim, a: real, j: nat)
    requires Sane(k) && 0.0 <= a <= k.cap && j > 0
    ensures Purchases(k, a, j).rates <= Purchases(k, a, j - 1).rates + k.maxFrac
  {
    PurchaseBounds(k, a, j - 1);
    PurchaseWithinCaps(k, Purchases(k, a, j - 1));
  }

  lemma {:induction false} MonthEndBounds(l: Ledger, q: real)
    requires l.balance >= 0.0 && 0.0 <= q <= 1.0
    ensures 0.0 <= MonthEnd(l, q) <= l.balance
  {
    var b := l.balance;
    ShareOf(b, q);
    assert MonthEnd(l, q) == b * q;
  }

  /** So does the balance carried into every month. */
  lemma {:induction false} CarriedBounds(k: Sim, n: nat, q: real, m: nat)
    requires Sane(k) && 0.0 <= q <= 1.0
    ensures 0.0 <= Carried(k, n, q, m) <= k.cap
  {
    if m > 0 {
      var a := Carried(k, n, q, m - 1);
      CarriedBounds(k, n, q, m - 1);
      PurchaseBounds(k, a, n);
      MonthEndBounds(Purchases(k, a, n), q);
    }
  }

  // ---- conservation

  /** Every amount the simulation moves: credited, paid, lost at the cap, cut at month end. */
  datatype Books = Books(balance: real, credited: real, paid: real, clipped: real, haircut: real)

  /** One purchase as `Purchase` makes it, with the amount lost at the cap written down. */
  function Record(k: Sim, b: Books): Books {
    var l := Purchase(k, Ledger(b.balance, b.paid, 0.0));
    Books(l.balance, b.credited + k.credit, l.paid, b.clipped + (b.balance + k.credit - Credited(k, b.balance)), b.haircut)
  }

  function RecordAll(k: Sim, b: Books, j: nat): Books {
    if j == 0 then b else Record(k, RecordAll(k, b, j - 1))
  }

  function Close(b: Books, q: real): Books {
    var rest := MonthEnd(Ledger(b.balance, 0.0, 0.0), q);
    b.(balance := rest, haircut := b.haircut + (b.balance - rest))
  }

  function BooksOf(k: Sim, n: nat, q: real, m: nat): Books {
    if m == 0 then Books(0.0, 0.0, 0.0, 0.0, 0.0) else Close(RecordAll(k, BooksOf(k, n, q, m - 1), n), q)
  }

  ghost predicate Balanced(b: Books) { b.credited == b.paid + b.clipped + b.haircut + b.balance }

  lemma {:induction false} RecordConserves(k: Sim, b: Books, paid: real, l: Ledger)
    requires Balanced(b) && b.balance == l.balance && b.paid == paid + l.paid
    ensures var c := Record(k, b); var l' := Purchase(k, l);
      && Balanced(c) && c.balance == l'.balance && c.paid == paid + l'.paid && c.clipped >= b.clipped
      && c.haircut == b.haircut && c.credited == b.credited + k.credit
  {
  }

  /** The books follow the ledger, and a purchase moves money without making any. */
  ghost predicate Tracks(b: Books, c: Books, l: Ledger) {
    Balanced(c) && c.balance == l.balance && c.paid == b.paid + l.paid && c.clipped >= b.clipped && c.haircut == b.haircut
  }

  lemma {:induction false} PurchasesConserve(k: Sim, b: Books, j: nat)
    requires Balanced(b)
    ensures Tracks(b, RecordAll(k, b, j), Purchases(k, b.balance, j))
  {
    if j > 0 {
      PurchasesConserve(k, b, j - 1);
      RecordConserves(k, RecordAll(k, b, j - 1), b.paid, Purchases(k, b.balance, j - 1));
    }
  }

  lemma {:induction false} CloseConserves(b: Books, l: Ledger, q: real)
    requires Balanced(b) && b.balance == l.balance >= 0.0 && 0.0 <= q <= 1.0
    ensures Balanced(Close(b, q)) && Close(b, q).haircut >= b.haircut && Close(b, q).balance == MonthEnd(l, q)
  {
    MonthEndBounds(l, q);
    assert MonthEnd(Ledger(b.balance, 0.0, 0.0), q) == MonthEnd(l, q);
  }

  /**
   Over any number of months: what was credited is what was paid, lost at the cap,
   cut at the month ends and is still in the ledger; nothing of it is negative.
   */
  lemma {:induction false} MonthsConserve(k: Sim, n: nat, q: real, m: nat)
    requires Sane(k) && 0.0 <= q <= 1.0
    ensures var b := BooksOf(k, n, q, m);
      Balanced(b) && b.balance == Carried(k, n, q, m) && b.clipped >= 0.0 && b.haircut >= 0.0
  {
    if m > 0 {
      MonthsConserve(k, n, q, m - 1);
      CarriedBounds(k, n, q, m - 1);
      MonthConserves(k, BooksOf(k, n, q, m - 1), n, q);
    }
  }

  lemma {:induction false} MonthConserves(k: Sim, b: Books, n: nat, q: real)
    requires Sane(k) && 0.0 <= q <= 1.0 && Balanced(b) && 0.0 <= b.balance <= k.cap
    ensures var c := Close(RecordAll(k, b, n), q);
      Balanced(c) && c.balance == MonthEnd(Purchases(k, b.balance, n), q) && c.clipped >= b.clipped && c.haircut >= b.haircut
  {
    PurchasesConserve(k, b, n);
    PurchaseBounds(k, b.balance, n);
    CloseConserves(RecordAll(k, b, n), Purchases(k, b.balance, n), q);
  }

  /** The paid column of the books is the sum of the months' payouts. */
  lemma {:induction false} PaidByMonth(k: Sim, n: nat, q: real, m: nat)
    requires Sane(k) && 0.0 <= q <= 1.0
    ensures BooksOf(k, n, q, m + 1).paid == BooksOf(k, n, q, m).paid + Month(k, n, q, m).paid
  {
    MonthsConserve(k, n, q, m);
    PurchasesConserve(k, BooksOf(k, n, q, m), n);
  }

  function Times(j: nat, x: real): real { if j == 0 then 0.0 else Times(j - 1, x) + x }

  lemma {:induction false} TimesIsProduct(j: nat, x: real)
    ensures Times(j, x) == j as real * x
  {
    if j > 0 {
      TimesIsProduct(j - 1, x);
      OneMore(j, x);
    }
  }

  lemma {:induction false} CreditedInMonth(k: Sim, b: Books, j: nat)
    ensures RecordAll(k, b, j).credited == b.credited + Times(j, k.credit)
  {
    if j > 0 { CreditedInMonth(k, b, j - 1); }
  }

  /** Every purchase of every month credits the same amount. */
  lemma {:induction false} CreditedInAll(k: Sim, n: nat, q: real, m: nat)
    ensures BooksOf(k, n, q, m).credited == Times(m, Times(n, k.credit))
  {
    if m > 0 {
      CreditedInAll(k, n, q, m - 1);
      CreditedInMonth(k, BooksOf(k, n, q, m - 1), n);
    }
  }

  // ---- monotonicity: two simulations side by side

  /** k' is credited at least as much and spends at most as much as k. */
  ghost predicate Richer(k: Sim, k': Sim) {
    Sane(k) && Sane(k') && k' == k.(share := k'.share, credit := k'.credit) && k'.share <= k.share && k.credit <= k'.credit
  }

  ghost predicate LedgerLe(k: Sim, k': Sim, l: Ledger, l': Ledger) {
    0.0 <= l.balance <= l'.balance && l.rates <= l'.rates && (k.share == k'.share ==> l.paid <= l'.paid)
  }

  lemma {:induction false} CreditedMonotone(k: Sim, k': Sim, b: real, b': real)
    requires Richer(k, k') && 0.0 <= b <= b'
    ensures 0.0 <= b - Payout(k, b) <= b' - Payout(k', b') && Rate(k, b) <= Rate(k', b')
    ensures k.share == k'.share ==> Payout(k, b) <= Payout(k', b')
  {
    BalanceMonotone(k, b, b');
    SmallerShare(k, k', b');
    PayoutBounds(k, b);
  }

  lemma {:induction false} PurchaseMonotone(k: Sim, k': Sim, l: Ledger, l': Ledger)
    requires Richer(k, k') && LedgerLe(k, k', l, l')
    ensures LedgerLe(k, k', Purchase(k, l), Purchase(k', l'))
  {
    CreditedMonotone(k, k', Credited(k, l.balance), Credited(k', l'.balance));
  }

  lemma {:induction false} PurchasesMonotone(k: Sim, k': Sim, a: real, a': real, j: nat)
    requires Richer(k, k') && 0.0 <= a <= a'
    ensures LedgerLe(k, k', Purchases(k, a, j), Purchases(k', a', j))
  {
    if j > 0 {
      PurchasesMonotone(k, k', a, a', j - 1);
      PurchaseMonotone(k, k', Purchases(k, a, j - 1), Purchases(k', a', j - 1));
    }
  }

  lemma {:induction false} MonthEndMonotone(l: Ledger, l': Ledger, q: real)
    requires 0.0 <= l.balance <= l'.balance && q >= 0.0
    ensures 0.0 <= MonthEnd(l, q) <= MonthEnd(l', q)
  {
    ProductMonotone(l.balance, l'.balance, q);
    ProductSigns(l.balance, q);
  }

  lemma {:induction false} CarriedMonotone(k: Sim, k': Sim, n: nat, q: real, m: nat)
    requires Richer(k, k') && q >= 0.0
    ensures 0.0 <= Carried(k, n, q, m) <= Carried(k', n, q, m)
  {
    if m > 0 {
      var a, a' := Carried(k, n, q, m - 1), Carried(k', n, q, m - 1);
      CarriedMonotone(k, k', n, q, m - 1);
      PurchasesMonotone(k, k', a, a', n);
      MonthEndMonotone(Purchases(k, a, n), Purchases(k', a', n), q);
    }
  }

  /** At every purchase of every month, the richer simulation's ledger is ahead. */
  lemma {:induction false} LedgersOrdered(k: Sim, k': Sim, n: nat, q: real, m: nat, j: nat)
    requires Richer(k, k') && q >= 0.0
    ensures LedgerLe(k, k', Purchases(k, Carried(k, n, q, m), j), Purchases(k', Carried(k', n, q, m), j))
  {
    CarriedMonotone(k, k', n, q, m);
    PurchasesMonotone(k, k', Carried(k, n, q, m), Carried(k', n, q, m), j);
  }
}
