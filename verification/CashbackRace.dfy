/**
 Two ledgers side by side, one with n purchases a month and one with n + 1, as far as their
 order alone is concerned: what a purchase and a month end must keep for the rates to compare.
 */
module CashbackRace {
  import opened CashbackLaws

  /**
   Of either ledger: the balance the next purchase pays from, and what the next month's first
   purchase pays from. A balance is low when no purchase lowers it; `ahead` compares the
   balances at purchase j, counted from zero.
   */
  datatype Race = Race(
    n: nat, few: real -> real, many: real -> real, fewOpen: real -> real, manyOpen: real -> real,
    low: real -> bool, ahead: (real, real, int) -> bool, rate: real -> real)

  predicate Rises(r: Race, y: real) {
    r.low(y) ==> r.low(r.few(y)) && r.low(r.many(y)) && y <= r.few(y) && y <= r.many(y) && r.low(r.fewOpen(y)) && r.low(r.manyOpen(y))
  }

  predicate KeepsAhead(r: Race, y: real, z: real, j: int) {
    0 <= j < r.n - 1 && r.low(y) && r.low(z) && r.ahead(y, z, j) ==> r.ahead(r.few(y), r.many(z), j + 1)
  }

  predicate EndsAhead(r: Race, y: real, z: real) { r.ahead(y, z, r.n - 1) ==> r.many(z) <= y }

  predicate OpensAhead(r: Race, y: real, z: real) {
    z <= y && r.low(y) && r.low(z) ==> r.ahead(r.fewOpen(y), r.manyOpen(z), 0)
  }

  /** Ahead, the rate is at least the mean of the other's rates now and next, weighted by how far the month is. */
  predicate AboveBoth(r: Race, y: real, z: real, j: int) {
    0 <= j < r.n && r.low(y) && r.low(z) && r.ahead(y, z, j) ==>
      r.n as real * r.rate(y) >= (r.n as real - (j as real + 1.0)) * r.rate(z) + (j as real + 1.0) * r.rate(r.many(z))
  }

  predicate Orders(r: Race, y: real, z: real) { y <= z ==> r.rate(y) <= r.rate(z) }

  ghost predicate Fair(r: Race) {
    r.n >= 1 && r.low(0.0)
    && (forall y :: Rises(r, y)) && (forall y, z, j :: KeepsAhead(r, y, z, j)) && (forall y, z :: EndsAhead(r, y, z))
    && (forall y, z :: OpensAhead(r, y, z)) && (forall y, z, j :: AboveBoth(r, y, z, j)) && (forall y, z :: Orders(r, y, z))
  }

  /** The balance that purchase j of a month pays from. */
  function Before(step: real -> real, first: real, j: nat): real {
    if j == 0 then first else step(Before(step, first, j - 1))
  }

  function RatesOf(rate: real -> real, step: real -> real, first: real, j: nat): real {
    if j == 0 then 0.0 else RatesOf(rate, step, first, j - 1) + rate(Before(step, first, j - 1))
  }

  /** What the first of the n purchases of month m pays from. */
  function First(step: real -> real, open: real -> real, n: nat, m: nat): real
    requires n >= 1
  {
    open(if m == 0 then 0.0 else Before(step, First(step, open, n, m - 1), n - 1))
  }

  lemma {:induction false} LowInMonth(r: Race, a: real, b: real, j: nat)
    requires Fair(r) && r.low(a) && r.low(b)
    ensures r.low(Before(r.few, a, j)) && r.low(Before(r.many, b, j)) && Before(r.many, b, j) <= Before(r.many, b, j + 1)
  {
    if j > 0 { LowInMonth(r, a, b, j - 1); }
    assert Rises(r, Before(r.many, b, j));
    if j > 0 {
      assert Rises(r, Before(r.few, a, j - 1)) && Rises(r, Before(r.many, b, j - 1));
    }
  }

  lemma {:induction false} AheadInMonth(r: Race, a: real, b: real, j: nat)
    requires Fair(r) && r.low(a) && r.low(b) && r.ahead(a, b, 0) && j < r.n
    ensures r.ahead(Before(r.few, a, j), Before(r.many, b, j), j)
  {
    if j > 0 {
      AheadInMonth(r, a, b, j - 1);
      LowInMonth(r, a, b, j - 1);
      assert KeepsAhead(r, Before(r.few, a, j - 1), Before(r.many, b, j - 1), j - 1);
    }
  }

  lemma {:induction false} MonthsBegin(r: Race, m: nat)
    requires Fair(r)
    ensures var a, b := First(r.few, r.fewOpen, r.n, m), First(r.many, r.manyOpen, r.n + 1, m);
      r.low(a) && r.low(b) && r.ahead(a, b, 0)
  {
    if m == 0 {
      Opens(r, 0.0, 0.0);
    } else {
      var a, b := First(r.few, r.fewOpen, r.n, m - 1), First(r.many, r.manyOpen, r.n + 1, m - 1);
      MonthsBegin(r, m - 1);
      MonthEnds(r, a, b);
      Opens(r, Before(r.few, a, r.n - 1), Before(r.many, b, r.n));
    }
  }

  lemma {:induction false} Opens(r: Race, y: real, z: real)
    requires Fair(r) && r.low(y) && r.low(z) && z <= y
    ensures r.low(r.fewOpen(y)) && r.low(r.manyOpen(z)) && r.ahead(r.fewOpen(y), r.manyOpen(z), 0)
  {
    assert Rises(r, y) && Rises(r, z) && OpensAhead(r, y, z);
  }

  lemma {:induction false} MonthEnds(r: Race, a: real, b: real)
    requires Fair(r) && r.low(a) && r.low(b) && r.ahead(a, b, 0)
    ensures var y, z := Before(r.few, a, r.n - 1), Before(r.many, b, r.n); r.low(y) && r.low(z) && z <= y
  {
    LowInMonth(r, a, b, r.n - 1);
    LowInMonth(r, a, b, r.n);
    LastAhead(r, a, b);
  }

  lemma {:induction false} LastAhead(r: Race, a: real, b: real)
    requires Fair(r) && r.low(a) && r.low(b) && r.ahead(a, b, 0)
    ensures Before(r.many, b, r.n) <= Before(r.few, a, r.n - 1)
  {
    AheadInMonth(r, a, b, r.n - 1);
    assert EndsAhead(r, Before(r.few, a, r.n - 1), Before(r.many, b, r.n - 1));
  }

  // ---- the rates of a month

  /** After j purchases: n times the rates of the one are at least n - 1 times those of the other, and j times its next. */
  predicate RatesLead(r: Race, a: real, b: real, j: nat) {
    r.n as real * RatesOf(r.rate, r.few, a, j)
    >= (r.n as real - 1.0) * RatesOf(r.rate, r.many, b, j) + j as real * r.rate(Before(r.many, b, j))
  }

  lemma {:induction false} RatesOfPart(r: Race, a: real, b: real, j: nat)
    requires Fair(r) && r.low(a) && r.low(b) && r.ahead(a, b, 0) && j <= r.n
    ensures RatesLead(r, a, b, j)
  {
    if j > 0 {
      RatesOfPart(r, a, b, j - 1);
      AboveInMonth(r, a, b, j - 1, j as real);
      NextPart(r, a, b, j - 1, j as real);
    }
  }

  lemma {:induction false} NextPart(r: Race, a: real, b: real, j: nat, next: real)
    requires RatesLead(r, a, b, j) && next == j as real + 1.0
    requires r.n as real * r.rate(Before(r.few, a, j))
      >= (r.n as real - next) * r.rate(Before(r.many, b, j)) + next * r.rate(Before(r.many, b, j + 1))
    ensures RatesLead(r, a, b, j + 1)
  {
    OneMoreRate(r.n as real, next, RatesOf(r.rate, r.few, a, j), r.rate(Before(r.few, a, j)), RatesOf(r.rate, r.many, b, j),
      r.rate(Before(r.many, b, j)), r.rate(Before(r.many, b, j + 1)));
  }

  lemma {:induction false} AboveInMonth(r: Race, a: real, b: real, j: nat, next: real)
    requires Fair(r) && r.low(a) && r.low(b) && r.ahead(a, b, 0) && j < r.n && next == j as real + 1.0
    ensures r.n as real * r.rate(Before(r.few, a, j))
      >= (r.n as real - next) * r.rate(Before(r.many, b, j)) + next * r.rate(Before(r.many, b, j + 1))
  {
    LowInMonth(r, a, b, j);
    AheadInMonth(r, a, b, j);
    assert AboveBoth(r, Before(r.few, a, j), Before(r.many, b, j), j);
  }

  lemma {:induction false} OneMoreRate(n: real, j: real, ys: real, y: real, zs: real, r: real, r': real)
    requires n * ys >= (n - 1.0) * zs + (j - 1.0) * r && n * y >= (n - j) * r + j * r'
    ensures n * (ys + y) >= (n - 1.0) * (zs + r) + j * r'
  {
    assert (n - 1.0) * (zs + r) == (n - 1.0) * zs + (j - 1.0) * r + (n - j) * r;
  }

  /** The rates of a month rise, so the last is no lower than their mean. */
  lemma {:induction false} LastRateIsHighest(r: Race, b: real, j: nat)
    requires Fair(r) && r.low(b)
    ensures RatesOf(r.rate, r.many, b, j) <= j as real * r.rate(Before(r.many, b, j))
  {
    if j > 0 {
      LastRateIsHighest(r, b, j - 1);
      LowInMonth(r, b, b, j - 1);
      assert Orders(r, Before(r.many, b, j - 1), Before(r.many, b, j));
      Sums(j, RatesOf(r.rate, r.many, b, j - 1), r.rate(Before(r.many, b, j - 1)), r.rate(Before(r.many, b, j)));
    }
  }

  lemma {:induction false} Sums(j: nat, s: real, r: real, r': real)
    requires j > 0 && s <= (j - 1) as real * r && r <= r'
    ensures s + r <= j as real * r'
  {
    OneMore(j, r);
    ProductMonotone(r, r', j as real);
  }

  /** The rates of n purchases sum to x, those of n + 1 to y, and the mean of the first is no lower. */
  predicate ShowMore(n: nat, x: real, y: real) { (n as real + 1.0) * x >= n as real * y }

  /** In every month the mean rate of n purchases is no lower than that of n + 1. */
  lemma {:induction false} FewerShowMore(r: Race, m: nat)
    requires Fair(r)
    ensures ShowMore(r.n, RatesOf(r.rate, r.few, First(r.few, r.fewOpen, r.n, m), r.n),
                     RatesOf(r.rate, r.many, First(r.many, r.manyOpen, r.n + 1, m), r.n + 1))
  {
    var a, b := First(r.few, r.fewOpen, r.n, m), First(r.many, r.manyOpen, r.n + 1, m);
    MonthsBegin(r, m);
    RatesOfPart(r, a, b, r.n);
    LastRateIsHighest(r, b, r.n);
    MeanOfMonth(r.n as real, RatesOf(r.rate, r.few, a, r.n), RatesOf(r.rate, r.many, b, r.n), r.rate(Before(r.many, b, r.n)));
  }

  lemma {:induction false} MeanOfMonth(n: real, ys: real, zs: real, r: real)
    requires n >= 1.0 && n * ys >= (n - 1.0) * zs + n * r && zs <= n * r
    ensures (n + 1.0) * ys >= n * (zs + r)
  {
    ProductMonotone((n - 1.0) * zs + n * r, n * ys, n + 1.0);
    assert (n + 1.0) * ((n - 1.0) * zs + n * r) == n * (n * (zs + r)) + (n * r - zs);
    assert (n + 1.0) * (n * ys) == n * ((n + 1.0) * ys);
    Cancel(n, n * (zs + r), (n + 1.0) * ys);
  }

  lemma {:induction false} Cancel(n: real, a: real, b: real)
    requires n >= 1.0 && n * a <= n * b
    ensures a <= b
  {
    if a > b { ProductSigns(n - 1.0, a - b); }
  }
}
