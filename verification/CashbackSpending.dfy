/** Spending more never raises the displayed rate, also where the larger spend is simulated as more purchases. */
module CashbackSpending {
  import opened CashbackLedger
  import opened CashbackLaws
  import opened CashbackTheorems
  import opened CashbackSplit
  import opened CashbackRace

  // ---- the race of two ledgers in small steps

  function Nexts(d: Small, cap: real, w: real): real -> real { (y: real) => Next(d, cap, w, y) }

  function Opens(d: Small, cap: real, q: real, w: real): real -> real { (y: real) => Opened(d, cap, q, w, y) }

  /** n purchases of u small steps against n + 1 of w. */
  ghost function RaceOf(d: Small, cap: real, rate: real -> real, q: real, n: nat, u: real, w: real): Race {
    Race(n, Nexts(d, cap, u), Nexts(d, cap, w), Opens(d, cap, q, u), Opens(d, cap, q, w),
      (y: real) => Low(d, cap, y), (y: real, z: real, j: int) => Ahead(d, cap, w, y, z, w - (j as real + 1.0)), rate)
  }

  ghost predicate Sized(n: nat, u: real, w: real) { n >= 1 && w == n as real && u == w + 1.0 }

  lemma {:induction false} FewerSteps(d: Small, cap: real, u: real, w: real)
    requires Steps(d, cap, u) && u == w + 1.0 && w >= 1.0
    ensures Steps(d, cap, w)
  {
    Fewer(w, d.part);
  }

  lemma {:induction false} RisesAt(d: Small, cap: real, rate: real -> real, q: real, n: nat, u: real, w: real, y: real)
    requires Steps(d, cap, u) && Steps(d, cap, w) && 0.0 <= q <= 1.0
    ensures Rises(RaceOf(d, cap, rate, q, n, u, w), y)
  {
    if Low(d, cap, y) {
      NextLow(d, cap, u, y);
      NextLow(d, cap, w, y);
      OpenedLow(d, cap, q, u, y);
      OpenedLow(d, cap, q, w, y);
    }
  }

  lemma {:induction false} KeepsAt(d: Small, cap: real, rate: real -> real, q: real, n: nat, u: real, w: real, y: real, z: real, j: int)
    requires Steps(d, cap, u) && Sized(n, u, w)
    ensures KeepsAhead(RaceOf(d, cap, rate, q, n, u, w), y, z, j)
  {
    var i := w - (j as real + 1.0);
    if 0 <= j < n - 1 && Low(d, cap, y) && Ahead(d, cap, w, y, z, i) {
      NextAhead(d, cap, u, w, y, z, i);
      assert w - ((j + 1) as real + 1.0) == i - 1.0;
    }
  }

  lemma {:induction false} EndsAt(d: Small, cap: real, rate: real -> real, q: real, n: nat, u: real, w: real, y: real, z: real)
    requires Sized(n, u, w)
    ensures EndsAhead(RaceOf(d, cap, rate, q, n, u, w), y, z)
  {
    var r, i := RaceOf(d, cap, rate, q, n, u, w), w - ((n - 1) as real + 1.0);
    assert i == 0.0 && Moved(d, y, i) == y;
    assert r.ahead(y, z, r.n - 1) == Ahead(d, cap, w, y, z, i);
  }

  lemma {:induction false} OpensAt(d: Small, cap: real, rate: real -> real, q: real, n: nat, u: real, w: real, y: real, z: real)
    requires Steps(d, cap, u) && Sized(n, u, w) && 0.0 <= q <= 1.0
    ensures OpensAhead(RaceOf(d, cap, rate, q, n, u, w), y, z)
  {
    if z <= y && Low(d, cap, z) {
      OpenedAhead(d, cap, q, u, w, y, z);
      assert w - (0 as real + 1.0) == w - 1.0;
    }
  }

  lemma {:induction false} AboveAt(d: Small, cap: real, rate: real -> real, slope: real, q: real, n: nat, u: real, w: real, y: real, z: real, j: int)
    requires Steps(d, cap, w) && Sized(n, u, w) && Flow(rate, slope)
    ensures AboveBoth(RaceOf(d, cap, rate, q, n, u, w), y, z, j)
  {
    var i := j as real + 1.0;
    if 0 <= j < n && Low(d, cap, z) && Ahead(d, cap, w, y, z, w - i) {
      RateAbove(d, cap, rate, slope, w, i, y, z);
    }
  }

  lemma {:induction false} RaceIsFair(d: Small, cap: real, rate: real -> real, slope: real, q: real, n: nat, u: real, w: real)
    requires Steps(d, cap, u) && Sized(n, u, w) && Flow(rate, slope) && 0.0 <= q <= 1.0
    ensures Fair(RaceOf(d, cap, rate, q, n, u, w))
  {
    var r := RaceOf(d, cap, rate, q, n, u, w);
    FewerSteps(d, cap, u, w);
    assert r.low(0.0);
    forall y ensures Rises(r, y) { RisesAt(d, cap, rate, q, n, u, w, y); }
    forall y, z, j ensures KeepsAhead(r, y, z, j) { KeepsAt(d, cap, rate, q, n, u, w, y, z, j); }
    forall y, z ensures EndsAhead(r, y, z) { EndsAt(d, cap, rate, q, n, u, w, y, z); }
    forall y, z ensures OpensAhead(r, y, z) { OpensAt(d, cap, rate, q, n, u, w, y, z); }
    forall y, z, j ensures AboveBoth(r, y, z, j) { AboveAt(d, cap, rate, slope, q, n, u, w, y, z, j); }
    forall y, z ensures Orders(r, y, z) { assert GentleAt(rate, slope, y, z); }
  }

  // ---- the simulation is such a ledger

  predicate PurchaseIs(k: Sim, step: real -> real, x: real) { x >= 0.0 ==> step(x) == Credited(k, x - Payout(k, x)) }

  predicate OpenIs(k: Sim, open: real -> real, q: real, x: real) { x >= 0.0 ==> open(x) == Credited(k, Kept(x - Payout(k, x), q)) }

  function Kept(a: real, q: real): real { a * q }

  predicate RateIs(k: Sim, rate: real -> real, x: real) { rate(x) == Rate(k, x) }

  /** The functions do what the simulation does. */
  ghost predicate Follows(k: Sim, step: real -> real, open: real -> real, rate: real -> real, q: real) {
    Sane(k) && 0.0 <= q <= 1.0 && open(0.0) == Credited(k, 0.0)
    && (forall x :: PurchaseIs(k, step, x)) && (forall x :: OpenIs(k, open, q, x)) && (forall x :: RateIs(k, rate, x))
  }

  lemma {:induction false} PurchaseNext(k: Sim, a: real, j: nat, b: real)
    requires b == Credited(k, Purchases(k, a, j).balance)
    ensures Purchases(k, a, j + 1).balance == b - Payout(k, b)
    ensures Purchases(k, a, j + 1).rates == Purchases(k, a, j).rates + Rate(k, b)
  {
  }

  lemma {:induction false} SameMonth(k: Sim, step: real -> real, open: real -> real, rate: real -> real, q: real, a: real, j: nat)
    requires Follows(k, step, open, rate, q) && 0.0 <= a <= k.cap
    ensures Before(step, Credited(k, a), j) == Credited(k, Purchases(k, a, j).balance) >= 0.0
    ensures RatesOf(rate, step, Credited(k, a), j) == Purchases(k, a, j).rates
  {
    PurchaseBounds(k, a, j);
    if j > 0 {
      var b := Credited(k, Purchases(k, a, j - 1).balance);
      SameMonth(k, step, open, rate, q, a, j - 1);
      PurchaseNext(k, a, j - 1, b);
      assert PurchaseIs(k, step, b) && RateIs(k, rate, b);
    }
  }

  lemma {:induction false} SameMonths(k: Sim, step: real -> real, open: real -> real, rate: real -> real, q: real, n: nat, m: nat)
    requires Follows(k, step, open, rate, q) && n >= 1
    ensures First(step, open, n, m) == Credited(k, Carried(k, n, q, m))
  {
    if m > 0 {
      var a := Carried(k, n, q, m - 1);
      SameMonths(k, step, open, rate, q, n, m - 1);
      CarriedBounds(k, n, q, m - 1);
      SameMonthEnd(k, step, open, rate, q, a, n);
    }
  }

  lemma {:induction false} SameMonthEnd(k: Sim, step: real -> real, open: real -> real, rate: real -> real, q: real, a: real, n: nat)
    requires Follows(k, step, open, rate, q) && n >= 1 && 0.0 <= a <= k.cap
    ensures open(Before(step, Credited(k, a), n - 1)) == Credited(k, MonthEnd(Purchases(k, a, n), q))
  {
    var b := Credited(k, Purchases(k, a, n - 1).balance);
    SameMonth(k, step, open, rate, q, a, n - 1);
    PurchaseNext(k, a, n - 1, b);
    assert OpenIs(k, open, q, b);
    EndKeeps(Purchases(k, a, n), q, b - Payout(k, b));
  }

  lemma {:induction false} EndKeeps(l: Ledger, q: real, a: real)
    requires l.balance == a
    ensures MonthEnd(l, q) == Kept(a, q)
  {
  }

  lemma {:induction false} SameRates(k: Sim, step: real -> real, open: real -> real, rate: real -> real, q: real, n: nat, m: nat)
    requires Follows(k, step, open, rate, q) && n >= 1
    ensures RatesOf(rate, step, First(step, open, n, m), n) == Month(k, n, q, m).rates
  {
    CarriedBounds(k, n, q, m);
    SameMonths(k, step, open, rate, q, n, m);
    SameMonth(k, step, open, rate, q, Carried(k, n, q, m), n);
  }

  /** The simulation in small steps, w of them a purchase. */
  ghost predicate InSteps(k: Sim, d: Small, w: real) {
    Sane(k) && Steps(d, k.cap, w) && k.credit == w * d.gain && forall x :: PaysBy(k, d, w, x)
  }

  predicate PaysBy(k: Sim, d: Small, w: real, x: real) { x >= 0.0 ==> Payout(k, x) == w * d.pay(x) }

  lemma {:induction false} NextIs(k: Sim, d: Small, w: real, q: real, x: real)
    requires k.credit == w * d.gain && Payout(k, x) == w * d.pay(x)
    ensures Next(d, k.cap, w, x) == Credited(k, x - Payout(k, x))
    ensures Opened(d, k.cap, q, w, x) == Credited(k, Kept(x - Payout(k, x), q))
  {
    MovedIs(d, x, w);
  }

  lemma {:induction false} StepsFollow(k: Sim, d: Small, w: real, q: real)
    requires InSteps(k, d, w) && 0.0 <= q <= 1.0
    ensures Follows(k, Nexts(d, k.cap, w), Opens(d, k.cap, q, w), UpTo(k.maxFrac, k.slope), q)
  {
    var step, open := Nexts(d, k.cap, w), Opens(d, k.cap, q, w);
    forall x ensures PurchaseIs(k, step, x) && OpenIs(k, open, q, x) {
      assert PaysBy(k, d, w, x);
      if x >= 0.0 { NextIs(k, d, w, q, x); }
    }
    assert open(0.0) == Credited(k, 0.0) by { OpensEmpty(d, k.cap, q, w); }
  }

  lemma {:induction false} OpensEmpty(d: Small, cap: real, q: real, w: real)
    requires Flow(d.pay, d.part)
    ensures Opened(d, cap, q, w, 0.0) == Min(cap, w * d.gain)
  {
  }

  // ---- the payments of the simulation

  /** Whether a purchase is larger than the display basis, so that its rate asks for more than the balance. */
  predicate Exceeds(slope: real, share: real) { slope * share > 1.0 }

  lemma {:induction false} ExceedsIff(slope: real, share: real, u: real)
    requires u == slope * share
    ensures Exceeds(slope, share) <==> u > 1.0
  {
  }

  /** A part of the balance, never more than all of it, up to the capped rate on the purchase. */
  lemma {:induction false} PayoutIs(k: Sim, x: real, most: real, u: real)
    requires Sane(k) && x >= 0.0 && most == k.maxFrac * k.share && u == k.slope * k.share
    ensures Payout(k, x) == Least(most, Min(1.0, u), x)
  {
    ProductSigns(k.slope, k.share);
    PayoutForm(k, x, most, u);
    LeastOfAll(x, most, u);
  }

  lemma {:induction false} LeastOfAll(x: real, most: real, u: real)
    requires x >= 0.0
    ensures Min(x, Min(most, x * u)) == Least(most, Min(1.0, u), x)
  {
    var p := x * u;
    if u <= 1.0 {
      ProductMonotone(u, 1.0, x);
      assert p <= x && Min(1.0, u) == u;
    } else {
      ProductMonotone(1.0, u, x);
      assert x <= p && Min(1.0, u) == 1.0;
    }
  }

  lemma {:induction false} InSmall(k: Sim, x: real, w: real, v: real, most: real, part: real)
    requires Sane(k) && x >= 0.0 && w >= 0.0 && k.share == w * v && !Exceeds(k.slope, k.share)
    requires most == k.maxFrac * v && part == k.slope * v
    ensures Payout(k, x) == w * Least(most, part, x)
  {
    var f, u := k.maxFrac * k.share, k.slope * k.share;
    PayoutIs(k, x, f, u);
    ExceedsIff(k.slope, k.share, u);
    assert Min(1.0, u) == u;
    Triple(k.maxFrac, w, v, k.share, most, f);
    Triple(k.slope, w, v, k.share, part, u);
    Scaled(f, u, most, part, x, w);
  }

  lemma {:induction false} Triple(c: real, w: real, v: real, share: real, cv: real, all: real)
    requires share == w * v && cv == c * v && all == c * share
    ensures all == w * cv
  {
  }

  lemma {:induction false} Scaled(f: real, u: real, most: real, part: real, x: real, w: real)
    requires w >= 0.0 && f == w * most && u == w * part
    ensures Least(f, u, x) == w * Least(most, part, x)
  {
    LeastProduct(most, x * part, w);
    assert x * u == x * part * w;
  }

  function SmallOf(h: real, most: real, part: real): Small { Small(h, UpTo(most, part), part) }

  lemma {:induction false} StepsOf(h: real, most: real, part: real, cap: real, w: real)
    requires h >= 0.0 && most >= 0.0 && part >= 0.0 && cap >= 0.0 && w >= 1.0 && w * part <= 1.0
    ensures Steps(SmallOf(h, most, part), cap, w)
  {
    UpToFlows(most, part);
  }

  lemma {:induction false} PaysInSmall(k: Sim, w: real, v: real, h: real, most: real, part: real)
    requires Sane(k) && w >= 0.0 && k.share == w * v && !Exceeds(k.slope, k.share)
    requires most == k.maxFrac * v && part == k.slope * v
    ensures forall x :: PaysBy(k, SmallOf(h, most, part), w, x)
  {
    forall x ensures PaysBy(k, SmallOf(h, most, part), w, x) {
      if x >= 0.0 { InSmall(k, x, w, v, most, part); }
    }
  }

  lemma {:induction false} SmoothInSteps(k: Sim, h: real, v: real, w: real, most: real, part: real)
    requires Sane(k) && w >= 1.0 && h >= 0.0 && v >= 0.0 && k.credit == w * h && k.share == w * v && !Exceeds(k.slope, k.share)
    requires most == k.maxFrac * v && part == k.slope * v
    ensures InSteps(k, SmallOf(h, most, part), w)
  {
    ProductSigns(k.maxFrac, v);
    ProductSigns(k.slope, v);
    var u := k.slope * k.share;
    ExceedsIff(k.slope, k.share, u);
    Triple(k.slope, w, v, k.share, part, u);
    StepsOf(h, most, part, k.cap, w);
    PaysInSmall(k, w, v, h, most, part);
  }

  /** l simulates the same programme as k, with other credits and purchases. */
  ghost predicate Alike(k: Sim, l: Sim) { Sane(k) && Sane(l) && l == k.(credit := l.credit, share := l.share) }

  lemma {:induction false} RaceShows(d: Small, cap: real, rate: real -> real, slope: real, q: real, n: nat, u: real, w: real, m: nat)
    requires Steps(d, cap, u) && Sized(n, u, w) && Flow(rate, slope) && 0.0 <= q <= 1.0
    ensures ShowMore(n, RatesOf(rate, Nexts(d, cap, u), First(Nexts(d, cap, u), Opens(d, cap, q, u), n, m), n),
                     RatesOf(rate, Nexts(d, cap, w), First(Nexts(d, cap, w), Opens(d, cap, q, w), n + 1, m), n + 1))
  {
    RaceIsFair(d, cap, rate, slope, q, n, u, w);
    FewerShowMore(RaceOf(d, cap, rate, q, n, u, w), m);
  }

  lemma {:induction false} StepsShow(k: Sim, d: Small, w: real, q: real, n: nat, m: nat)
    requires InSteps(k, d, w) && n >= 1 && 0.0 <= q <= 1.0
    ensures RatesOf(UpTo(k.maxFrac, k.slope), Nexts(d, k.cap, w), First(Nexts(d, k.cap, w), Opens(d, k.cap, q, w), n, m), n)
      == Month(k, n, q, m).rates
  {
    StepsFollow(k, d, w, q);
    SameRates(k, Nexts(d, k.cap, w), Opens(d, k.cap, q, w), UpTo(k.maxFrac, k.slope), q, n, m);
  }

  /** n purchases of u small steps show a mean rate no lower than n + 1 of w. */
  lemma {:induction false} RaceRates(k: Sim, l: Sim, d: Small, q: real, n: nat, u: real, w: real, m: nat)
    requires Alike(k, l) && InSteps(k, d, u) && InSteps(l, d, w) && Sized(n, u, w) && 0.0 <= q <= 1.0
    ensures ShowMore(n, Month(k, n, q, m).rates, Month(l, n + 1, q, m).rates)
  {
    UpToFlows(k.maxFrac, k.slope);
    RaceShows(d, k.cap, UpTo(k.maxFrac, k.slope), k.slope, q, n, u, w, m);
    StepsShow(k, d, u, q, n, m);
    StepsShow(l, d, w, q, n + 1, m);
  }

  /** k with n purchases a month and l with one more: the same credit and the same spend. */
  ghost predicate Splits(k: Sim, l: Sim, n: nat, u: real, w: real, h: real, v: real) {
    Alike(k, l) && Sized(n, u, w) && h >= 0.0 && v >= 0.0
    && k.credit == u * h && l.credit == w * h && k.share == u * v && l.share == w * v
  }

  lemma {:induction false} SmallerShareIsSmooth(s: real, share: real, share': real)
    requires s >= 0.0 && 0.0 <= share' <= share && !Exceeds(s, share)
    ensures !Exceeds(s, share')
  {
    var u, u' := s * share, s * share';
    ProductMonotone(share', share, s);
    ExceedsIff(s, share, u);
    ExceedsIff(s, share', u');
  }

  /** While a purchase takes no more than the whole balance. */
  lemma {:induction false} SmoothCase(k: Sim, l: Sim, n: nat, u: real, w: real, h: real, v: real, q: real, m: nat)
    requires Splits(k, l, n, u, w, h, v) && 0.0 <= q <= 1.0 && !Exceeds(k.slope, k.share)
    ensures ShowMore(n, Month(k, n, q, m).rates, Month(l, n + 1, q, m).rates)
  {
    var most, part := k.maxFrac * v, k.slope * v;
    ProductMonotone(w, u, v);
    SmallerShareIsSmooth(k.slope, k.share, l.share);
    SmoothInSteps(k, h, v, u, most, part);
    SmoothInSteps(l, h, v, w, most, part);
    RaceRates(k, l, SmallOf(h, most, part), q, n, u, w, m);
  }

  // ---- a purchase larger than the display basis takes the whole balance

  lemma {:induction false} LowBefore(d: Small, cap: real, w: real, first: real, j: nat)
    requires Steps(d, cap, w) && Low(d, cap, first)
    ensures Low(d, cap, Before(Nexts(d, cap, w), first, j))
  {
    if j > 0 {
      LowBefore(d, cap, w, first, j - 1);
      NextLow(d, cap, w, Before(Nexts(d, cap, w), first, j - 1));
    }
  }

  lemma {:induction false} LowFirst(d: Small, cap: real, w: real, q: real, n: nat, m: nat)
    requires Steps(d, cap, w) && 0.0 <= q <= 1.0 && n >= 1
    ensures Low(d, cap, First(Nexts(d, cap, w), Opens(d, cap, q, w), n, m))
  {
    if m == 0 {
      OpenedLow(d, cap, q, w, 0.0);
    } else {
      var first := First(Nexts(d, cap, w), Opens(d, cap, q, w), n, m - 1);
      LowFirst(d, cap, w, q, n, m - 1);
      LowBefore(d, cap, w, first, n - 1);
      OpenedLow(d, cap, q, w, Before(Nexts(d, cap, w), first, n - 1));
    }
  }

  lemma {:induction false} WholeInSteps(l: Sim, most: real, part: real)
    requires Sane(l) && most == l.maxFrac * l.share && part == Min(1.0, l.slope * l.share)
    ensures InSteps(l, SmallOf(l.credit, most, part), 1.0)
  {
    ProductSigns(l.maxFrac, l.share);
    ProductSigns(l.slope, l.share);
    StepsOf(l.credit, most, part, l.cap, 1.0);
    PaysWhole(l, most, part);
  }

  lemma {:induction false} PaysWhole(l: Sim, most: real, part: real)
    requires Sane(l) && most == l.maxFrac * l.share && part == Min(1.0, l.slope * l.share)
    ensures forall x :: PaysBy(l, SmallOf(l.credit, most, part), 1.0, x)
  {
    forall x ensures PaysBy(l, SmallOf(l.credit, most, part), 1.0, x) {
      if x >= 0.0 { PayoutIs(l, x, most, l.slope * l.share); }
    }
  }

  /** No purchase of the simulation pays more than it is credited. */
  lemma {:induction false} PaysItsCredit(l: Sim, n: nat, q: real, m: nat, j: nat)
    requires Sane(l) && n >= 1 && 0.0 <= q <= 1.0
    ensures var z := Credited(l, Purchases(l, Carried(l, n, q, m), j).balance); 0.0 <= z <= l.cap && Payout(l, z) <= l.credit
  {
    var most, part := l.maxFrac * l.share, Min(1.0, l.slope * l.share);
    WholeInSteps(l, most, part);
    PaysCreditInSteps(l, SmallOf(l.credit, most, part), n, q, m, j);
  }

  lemma {:induction false} PaysCreditInSteps(l: Sim, d: Small, n: nat, q: real, m: nat, j: nat)
    requires InSteps(l, d, 1.0) && n >= 1 && 0.0 <= q <= 1.0
    ensures var z := Credited(l, Purchases(l, Carried(l, n, q, m), j).balance); 0.0 <= z <= l.cap && Payout(l, z) <= l.credit
  {
    var step, open, rate := Nexts(d, l.cap, 1.0), Opens(d, l.cap, q, 1.0), UpTo(l.maxFrac, l.slope);
    StepsFollow(l, d, 1.0, q);
    SameMonths(l, step, open, rate, q, n, m);
    CarriedBounds(l, n, q, m);
    SameMonth(l, step, open, rate, q, Carried(l, n, q, m), j);
    LowFirst(d, l.cap, 1.0, q, n, m);
    LowBefore(d, l.cap, 1.0, First(step, open, n, m), j);
    assert PaysBy(l, d, 1.0, Before(step, First(step, open, n, m), j));
  }

  /** Then the rate is at most what the credit of one purchase shows in the other ledger. */
  lemma {:induction false} SteepRate(k: Sim, l: Sim, n: nat, u: real, w: real, h: real, v: real, z: real, most: real)
    requires Splits(k, l, n, u, w, h, v) && Exceeds(k.slope, k.share) && 0.0 <= z <= k.cap && Payout(l, z) <= l.credit
    requires most == Rate(k, Min(k.cap, k.credit))
    ensures Rate(k, z) <= most
  {
    ShownByCredit(k, l, n, u, w, h, v, z);
    RateWithin(k, z, most);
  }

  lemma {:induction false} SameRate(k: Sim, l: Sim, z: real)
    requires Alike(k, l)
    ensures Rate(l, z) == Rate(k, z)
  {
  }

  lemma {:induction false} ShownByCredit(k: Sim, l: Sim, n: nat, u: real, w: real, h: real, v: real, z: real)
    requires Splits(k, l, n, u, w, h, v) && Exceeds(k.slope, k.share) && 0.0 <= z && Payout(l, z) <= l.credit
    ensures Rate(k, z) <= k.credit * k.slope
  {
    SmallerCredit(k, l, u, w, h);
    if z > k.credit { BeyondCredit(k, l, n, u, w, h, v, z); } else { ShownBy(k, z, k.credit); }
  }

  lemma {:induction false} SmallerCredit(k: Sim, l: Sim, u: real, w: real, h: real)
    requires u == w + 1.0 && h >= 0.0 && k.credit == u * h && l.credit == w * h
    ensures l.credit <= k.credit
  {
    ProductMonotone(w, u, h);
  }

  lemma {:induction false} BeyondCredit(k: Sim, l: Sim, n: nat, u: real, w: real, h: real, v: real, z: real)
    requires Splits(k, l, n, u, w, h, v) && Exceeds(k.slope, k.share) && z >= 0.0 && Payout(l, z) <= l.credit < z
    ensures Rate(k, z) <= k.credit * k.slope
  {
    RateBounds(l, z);
    PaysTheShare(l, z);
    CreditShows(Rate(l, z), u, w, h, v, k.slope, k.share, l.share, k.credit, l.credit);
  }

  lemma {:induction false} ShownBy(k: Sim, z: real, a: real)
    requires Sane(k) && z <= a
    ensures Rate(k, z) <= a * k.slope
  {
    ProductMonotone(z, a, k.slope);
  }

  lemma {:induction false} RateWithin(k: Sim, z: real, most: real)
    requires Sane(k) && z <= k.cap && Rate(k, z) <= k.credit * k.slope && most == Rate(k, Min(k.cap, k.credit))
    ensures Rate(k, z) <= most
  {
    ShownBy(k, z, k.cap);
    WithinBoth(Rate(k, z), k.cap, k.credit, k.slope, k.maxFrac);
  }

  lemma {:induction false} WithinBoth(r: real, cap: real, credit: real, s: real, f: real)
    requires r <= f && r <= cap * s && r <= credit * s
    ensures r <= Min(f, Min(cap, credit) * s)
  {
    if cap <= credit { assert Min(cap, credit) == cap; } else { assert Min(cap, credit) == credit; }
  }

  lemma {:induction false} PaysTheShare(l: Sim, z: real)
    requires Payout(l, z) <= l.credit < z
    ensures Rate(l, z) * l.share <= l.credit
  {
  }

  lemma {:induction false} CreditShows(
    r: real, u: real, w: real, h: real, v: real, s: real, share: real, share': real, credit: real, credit': real)
    requires w >= 1.0 && u == w + 1.0 && r >= 0.0 && s >= 0.0 && share == u * v && share' == w * v && credit == u * h && credit' == w * h
    requires r * share' <= credit' && Exceeds(s, share)
    ensures r <= credit * s
  {
    var rv, us := r * v, u * s;
    assert r * share' == w * rv;
    Cancel(w, rv, h);
    ProductSigns(u, s);
    ProductMonotone(rv, h, us);
    ProductMonotone(1.0, s * share, r);
    assert s * share == us * v;
    assert r * (us * v) == rv * us;
    assert h * us == credit * s;
  }

  lemma {:induction false} RateAtLeast(k: Sim, a: real, least: real)
    requires Sane(k) && a >= 0.0 && least == Rate(k, Min(k.cap, k.credit))
    ensures Rate(k, Credited(k, a)) >= least
  {
    RateMonotone(k, Min(k.cap, k.credit), Credited(k, a));
  }

  lemma {:induction false} RatesAbove(k: Sim, a: real, least: real, j: nat)
    requires Sane(k) && 0.0 <= a <= k.cap && least == Rate(k, Min(k.cap, k.credit))
    ensures Purchases(k, a, j).rates >= Times(j, least)
  {
    if j > 0 {
      var b := Purchases(k, a, j - 1).balance;
      RatesAbove(k, a, least, j - 1);
      PurchaseBounds(k, a, j - 1);
      RateAtLeast(k, b, least);
      PurchaseNext(k, a, j - 1, Credited(k, b));
    }
  }

  lemma {:induction false} RatesBelow(k: Sim, l: Sim, n: nat, u: real, w: real, h: real, v: real, q: real, m: nat, most: real, j: nat)
    requires Splits(k, l, n, u, w, h, v) && 0.0 <= q <= 1.0 && Exceeds(k.slope, k.share) && most == Rate(k, Min(k.cap, k.credit))
    ensures Purchases(l, Carried(l, n + 1, q, m), j).rates <= Times(j, most)
  {
    if j > 0 {
      var a := Carried(l, n + 1, q, m);
      var z := Credited(l, Purchases(l, a, j - 1).balance);
      RatesBelow(k, l, n, u, w, h, v, q, m, most, j - 1);
      PaysItsCredit(l, n + 1, q, m, j - 1);
      SteepRate(k, l, n, u, w, h, v, z, most);
      SameRate(k, l, z);
      PurchaseNext(l, a, j - 1, z);
    }
  }

  lemma {:induction false} SteepCase(k: Sim, l: Sim, n: nat, u: real, w: real, h: real, v: real, q: real, m: nat)
    requires Splits(k, l, n, u, w, h, v) && 0.0 <= q <= 1.0 && Exceeds(k.slope, k.share)
    ensures ShowMore(n, Month(k, n, q, m).rates, Month(l, n + 1, q, m).rates)
  {
    var r := Rate(k, Min(k.cap, k.credit));
    CarriedBounds(k, n, q, m);
    RatesAbove(k, Carried(k, n, q, m), r, n);
    RatesBelow(k, l, n, u, w, h, v, q, m, r, n + 1);
    Crosswise(n, r, Month(k, n, q, m).rates, Month(l, n + 1, q, m).rates);
  }

  lemma {:induction false} Crosswise(n: nat, r: real, a: real, b: real)
    requires n >= 1 && a >= Times(n, r) && b <= Times(n + 1, r)
    ensures ShowMore(n, a, b)
  {
    var w, u := n as real, n as real + 1.0;
    TimesIsProduct(n, r);
    TimesIsProduct(n + 1, r);
    ProductMonotone(w * r, a, u);
    ProductMonotone(b, u * r, w);
    assert u * (w * r) == w * (u * r);
  }

  lemma {:induction false} SplitShowsLess(k: Sim, l: Sim, n: nat, u: real, w: real, h: real, v: real, q: real, m: nat)
    requires Splits(k, l, n, u, w, h, v) && 0.0 <= q <= 1.0
    ensures ShowMore(n, Month(k, n, q, m).rates, Month(l, n + 1, q, m).rates)
  {
    if Exceeds(k.slope, k.share) {
      SteepCase(k, l, n, u, w, h, v, q, m);
    } else {
      SmoothCase(k, l, n, u, w, h, v, q, m);
    }
  }

  // ---- plans

  lemma {:induction false} Quotients(x: real, n: real, part: real)
    requires n >= 1.0 && part == x / n / (n + 1.0)
    ensures (n + 1.0) * part == x / n && n * part == x / (n + 1.0)
  {
    Undo(x / n, n + 1.0);
    Undo(x, n);
    Undo(x, n + 1.0);
    var y := n * part;
    assert y * (n + 1.0) == n * (x / n) == x;
    SameQuotient(y, x, n + 1.0);
  }

  lemma {:induction false} SameQuotient(y: real, x: real, d: real)
    requires d > 0.0 && y * d == x
    ensures y == x / d
  {
  }

  lemma {:induction false} SplitCredit(x: real, n: real) returns (h: real)
    requires x >= 0.0 && n >= 1.0
    ensures h >= 0.0 && (n + 1.0) * h == x / n && n * h == x / (n + 1.0)
  {
    h := x / n / (n + 1.0);
    Quotients(x, n, h);
    QuotientSigns(x, n);
    QuotientSigns(x / n, n + 1.0);
  }

  lemma {:induction false} SplitShare(e: real, n: real, price: real) returns (v: real)
    requires e >= 0.0 && n >= 1.0 && price > 0.0
    ensures v >= 0.0 && (n + 1.0) * v == e / n / price && n * v == e / (n + 1.0) / price
  {
    var x := SplitCredit(e, n);
    v := x / price;
    QuotientSigns(x, price);
    TimesQuotient(n + 1.0, x, price);
    TimesQuotient(n, x, price);
  }

  lemma {:induction false} PlansSplit(p: Plan, p': Plan) returns (h: real, v: real)
    requires SanePlan(p) && SanePlan(p') && Boosted(p) && Boosted(p') && p' == p.(count := p.count + 1)
    ensures Splits(SimOf(p), SimOf(p'), p.count, p.count as real + 1.0, p.count as real, h, v)
  {
    SimSane(p);
    SimSane(p');
    h := SplitCredit(p.creditNim, p.count as real);
    v := SplitShare(p.eligible, p.count as real, p.price);
  }

  lemma {:induction false} TimesQuotient(w: real, x: real, d: real)
    requires d > 0.0
    ensures w * (x / d) == w * x / d
  {
  }

  /** One more purchase for the same spend never raises the displayed rate. */
  lemma {:induction false} OneMorePurchase(p: Plan, p': Plan)
    requires SanePlan(p) && SanePlan(p') && Boosted(p) && p' == p.(count := p.count + 1)
    ensures BoostRatePct(p') <= BoostRatePct(p)
  {
    var k, l, m := SimOf(p), SimOf(p'), MONTHS - 1;
    var h, v := PlansSplit(p, p');
    SplitShowsLess(k, l, p.count, p.count as real + 1.0, p.count as real, h, v, p.carry, m);
    MeansOrdered(p.count, Shown(p).rates, Shown(p').rates);
  }

  lemma {:induction false} MeansOrdered(n: nat, a: real, b: real)
    requires n >= 1 && ShowMore(n, a, b)
    ensures b / (n + 1) as real * 100.0 <= a / n as real * 100.0
  {
    var w, u := n as real, (n + 1) as real;
    var x, y := a / w, b / u;
    Undo(a, w);
    Undo(b, u);
    assert u * (x * w) == w * (u * x) && w * (y * u) == w * (u * y);
    Cancel(w, u * y, u * x);
    Cancel(u, y, x);
  }

  lemma {:induction false} MorePurchases(p: Plan, n: nat)
    requires SanePlan(p) && Boosted(p) && p.count <= n <= 30
    ensures BoostRatePct(p.(count := n)) <= BoostRatePct(p)
    decreases n
  {
    if p.count < n {
      MorePurchases(p, n - 1);
      OneMorePurchase(p.(count := n - 1), p.(count := n));
    } else {
      assert p.(count := n) == p;
    }
  }

  lemma {:induction false} CountMonotone(e: real, e': real, d: real)
    requires d > 0.0 && e <= e'
    ensures PurchaseCount(e, d) <= PurchaseCount(e', d)
  {
    QuotientMonotone(e, e', d);
  }

  /** Spending less, as long as some of it is eligible, never lowers the displayed boost rate. */
  lemma {:induction false} SpendingNeverRaisesTheRate(i: Input, i': Input)
    requires i' == i.(spendNim := i'.spendNim) && i'.spendNim <= i.spendNim && EligibleUsd(i') > 0.0
    ensures BoostRatePct(PlanOf(i)) <= BoostRatePct(PlanOf(i'))
  {
    var p, p' := PlanOf(i), PlanOf(i');
    PlanOfSane(i);
    PlanOfSane(i');
    SpendingKeepsPlan(i, i');
    if Boosted(p) {
      CountMonotone(EligibleUsd(i'), EligibleUsd(i), DayCap(i));
      var mid := p.(count := p'.count);
      MorePurchases(mid, p.count);
      assert mid.(count := p.count) == p;
      RicherPlanShowsMore(mid, p');
    } else {
      BoostWithinCap(p');
    }
  }
}
