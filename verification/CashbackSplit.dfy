/**
 The same credit and the same spend over n and over n + 1 purchases. Both ledgers move in
 small steps: a purchase of the first is n + 1 of them, a purchase of the second n.
 */
module CashbackSplit {
  import opened CashbackLedger
  import opened CashbackLaws

  /** What a balance pays in one small step. */
  type Payment = real -> real

  predicate ConcaveAt(pay: Payment, i: real, j: real, a: real, b: real, x: real) {
    i >= 0.0 && j >= 0.0 && (i + j) * x >= i * a + j * b ==> (i + j) * pay(x) >= i * pay(a) + j * pay(b)
  }

  predicate GentleAt(pay: Payment, part: real, a: real, b: real) {
    a <= b ==> pay(a) <= pay(b) <= pay(a) + (b - a) * part
  }

  /** Nothing is paid from nothing, more from more but no more than its part, and the payment flattens. */
  ghost predicate Flow(pay: Payment, part: real) {
    part >= 0.0 && pay(0.0) == 0.0
    && (forall a, b :: GentleAt(pay, part, a, b))
    && (forall i, j, a, b, x :: ConcaveAt(pay, i, j, a, b, x))
  }

  /** A small step credits `gain` and pays. */
  datatype Small = Small(gain: real, pay: Payment, part: real)

  function Gain(d: Small, a: real): real { d.gain - d.pay(a) }

  /** The balance after j small steps that all move it as the first one does. */
  function Moved(d: Small, a: real, j: real): real { a + j * Gain(d, a) }

  /** The payments of the ledger: a part of the balance, up to a most. */
  function Least(most: real, part: real, a: real): real { Min(most, a * part) }

  function UpTo(most: real, part: real): Payment { (a: real) => Least(most, part, a) }

  // ---- such payments flow

  lemma {:induction false} Bounded(most: real, part: real, a: real, i: real)
    requires i >= 0.0
    ensures i * Least(most, part, a) <= i * most && i * Least(most, part, a) <= i * (a * part)
  {
    ProductMonotone(Least(most, part, a), most, i);
    ProductMonotone(Least(most, part, a), a * part, i);
  }

  lemma {:induction false} Concave(most: real, part: real, i: real, j: real, a: real, b: real, x: real)
    requires i >= 0.0 && j >= 0.0 && part >= 0.0 && (i + j) * x >= i * a + j * b
    ensures (i + j) * Least(most, part, x) >= i * Least(most, part, a) + j * Least(most, part, b)
  {
    Bounded(most, part, a, i);
    Bounded(most, part, b, j);
    if x * part <= most {
      ProductMonotone(i * a + j * b, (i + j) * x, part);
      Spread(i, j, a, b, x, part);
    } else {
      assert (i + j) * most == i * most + j * most;
    }
  }

  lemma {:induction false} Spread(i: real, j: real, a: real, b: real, x: real, part: real)
    ensures (i + j) * x * part == (i + j) * (x * part)
    ensures (i * a + j * b) * part == i * (a * part) + j * (b * part)
  {
    Regroup(i + j, x, part);
    Regroup(i, a, part);
    Regroup(j, b, part);
    Distribute(i * a, j * b, part);
  }

  lemma {:induction false} Distribute(x: real, y: real, t: real)
    ensures (x + y) * t == x * t + y * t
  {
  }

  lemma {:induction false} LeastGentle(most: real, part: real, a: real, b: real)
    requires a <= b && part >= 0.0
    ensures Least(most, part, a) <= Least(most, part, b) <= Least(most, part, a) + (b - a) * part
  {
    GentleParts(most, part, a, b, a * part, b * part, (b - a) * part);
  }

  lemma {:induction false} GentleParts(most: real, part: real, a: real, b: real, p: real, q: real, x: real)
    requires a <= b && part >= 0.0 && p == a * part && q == b * part && x == (b - a) * part
    ensures Min(most, p) <= Min(most, q) <= Min(most, p) + x
  {
    ProductMonotone(a, b, part);
    Gap(a, b, part, p, q, x);
    LeastOfTwo(most, p, q, x);
  }

  lemma {:induction false} Gap(a: real, b: real, t: real, p: real, q: real, x: real)
    requires p == a * t && q == b * t && x == (b - a) * t
    ensures q == x + p
  {
  }

  lemma {:induction false} LeastOfTwo(most: real, p: real, q: real, x: real)
    requires p <= q && q == x + p
    ensures Min(most, p) <= Min(most, q) <= Min(most, p) + x
  {
  }

  lemma {:induction false} UpToFlows(most: real, part: real)
    requires most >= 0.0 && part >= 0.0
    ensures Flow(UpTo(most, part), part)
  {
    var pay := UpTo(most, part);
    forall a, b ensures GentleAt(pay, part, a, b) {
      if a <= b { LeastGentle(most, part, a, b); }
    }
    forall i, j, a, b, x ensures ConcaveAt(pay, i, j, a, b, x) {
      if i >= 0.0 && j >= 0.0 && (i + j) * x >= i * a + j * b { Concave(most, part, i, j, a, b, x); }
    }
  }

  // ---- moving keeps the order

  lemma {:induction false} MovedMonotone(d: Small, a: real, b: real, j: real)
    requires Flow(d.pay, d.part) && a <= b && j >= 0.0 && j * d.part <= 1.0
    ensures Moved(d, a, j) <= Moved(d, b, j)
  {
    assert GentleAt(d.pay, d.part, a, b);
    Slower(a, b, d.gain, d.pay(a), d.pay(b), d.part, j);
  }

  lemma {:induction false} Slower(a: real, b: real, h: real, p: real, q: real, t: real, j: real)
    requires a <= b && p <= q <= p + (b - a) * t && j >= 0.0 && j * t <= 1.0
    ensures a + j * (h - p) <= b + j * (h - q)
  {
    var x := b - a;
    ProductMonotone(q - p, x * t, j);
    ProductMonotone(j * t, 1.0, x);
    assert j * (x * t) == j * t * x;
    Differ(j, h, p, q);
  }

  lemma {:induction false} Differ(j: real, h: real, p: real, q: real)
    ensures j * (h - p) - j * (h - q) == j * (q - p)
  {
  }

  // ---- one purchase later

  /** i + j small steps ahead; j of them; then the rest of either purchase. */
  lemma {:induction false} Overtakes(d: Small, y: real, n: real, i: real, j: real, far: real, near: real)
    requires Flow(d.pay, d.part) && i >= 0.0 && j >= 1.0 && n + 1.0 == i + j && Gain(d, y) >= 0.0
    requires far == Moved(d, y, n + 1.0) && near == Moved(d, y, j)
    ensures Moved(d, far, j - 1.0) >= Moved(d, near, n)
  {
    var g := Gain(d, y);
    Between(y, g, i, j);
    assert ConcaveAt(d.pay, i, j, y, far, near);
    FurtherIsMore(y, g, i, j);
    assert GentleAt(d.pay, d.part, near, far);
    Rest(y, g, d.gain, d.pay(y), d.pay(far), d.pay(near), i, j);
  }

  lemma {:induction false} FurtherIsMore(y: real, g: real, i: real, j: real)
    requires g >= 0.0 && i >= 0.0 && j >= 0.0
    ensures y <= y + j * g <= y + (i + j) * g && (i + j) * g == i * g + j * g
  {
    ProductSigns(i, g);
    ProductSigns(j, g);
  }

  lemma {:induction false} Between(y: real, g: real, i: real, j: real)
    ensures (i + j) * (y + j * g) == i * y + j * (y + (i + j) * g)
  {
  }

  lemma {:induction false} Rest(y: real, g: real, h: real, p: real, far: real, near: real, i: real, j: real)
    requires g == h - p && (i + j) * near >= i * p + j * far && near <= far
    ensures y + (i + j) * g + (j - 1.0) * (h - far) >= y + j * g + (i + j - 1.0) * (h - near)
  {
    assert (i + j) * g - j * g == i * h - i * p;
    assert (j - 1.0) * (h - far) == j * h - h - j * far + far;
    assert (i + j - 1.0) * (h - near) == i * h + j * h - h - (i + j) * near + near;
  }

  /**
   Before purchase k, with j = n - k, the ledger with fewer purchases is ahead: at the cap, or
   no lower and in j small steps as far as the other in its next purchase.
   */
  predicate Ahead(d: Small, cap: real, n: real, y: real, z: real, j: real) {
    y == cap || (y >= z && Moved(d, y, j) >= Moved(d, z, n))
  }

  lemma {:induction false} AheadNext(d: Small, cap: real, n: real, y: real, z: real, i: real, j: real)
    requires Flow(d.pay, d.part) && i >= 0.0 && j >= 1.0 && n + 1.0 == i + j && (n + 1.0) * d.part <= 1.0
    requires Gain(d, y) >= 0.0 && y <= cap && Ahead(d, cap, n, y, z, j)
    ensures Ahead(d, cap, n, Min(cap, Moved(d, y, n + 1.0)), Min(cap, Moved(d, z, n)), j - 1.0)
  {
    var far, near, z' := Moved(d, y, n + 1.0), Moved(d, y, j), Min(cap, Moved(d, z, n));
    FurtherIsMore(y, Gain(d, y), i, j);
    if y < cap && far < cap {
      assert near >= z';
      OneLater(d, y, z', n, i, j, far, near);
    }
  }

  lemma {:induction false} OneLater(d: Small, y: real, z': real, n: real, i: real, j: real, far: real, near: real)
    requires Flow(d.pay, d.part) && i >= 0.0 && j >= 1.0 && n + 1.0 == i + j && (n + 1.0) * d.part <= 1.0 && Gain(d, y) >= 0.0
    requires far == Moved(d, y, n + 1.0) && near == Moved(d, y, j) && z' <= near
    ensures Moved(d, far, j - 1.0) >= Moved(d, z', n)
  {
    Overtakes(d, y, n, i, j, far, near);
    Fewer(n, d.part);
    MovedMonotone(d, z', near, n);
  }

  lemma {:induction false} Fewer(n: real, t: real)
    requires t >= 0.0 && (n + 1.0) * t <= 1.0
    ensures n * t <= 1.0 && (n - 1.0) * t <= 1.0
  {
    assert n * t == (n + 1.0) * t - t && (n - 1.0) * t == (n + 1.0) * t - 2.0 * t;
  }

  // ---- the first purchase of a month

  /** The share q of what a purchase leaves of a balance, and the next credit. */
  function Opening(d: Small, q: real, w: real, y: real): real { q * (y - w * d.pay(y)) + w * d.gain }

  /** Both months begin with what a purchase left of the balance z, or the one with fewer purchases with more. */
  lemma {:induction false} StartsAhead(d: Small, cap: real, q: real, z: real, y1: real, z1: real, u: real, n: real)
    requires Flow(d.pay, d.part) && n >= 1.0 && u == n + 1.0 && u * d.part <= 1.0
    requires 0.0 <= q <= 1.0 && z >= 0.0 && Gain(d, z) >= 0.0
    requires y1 >= Opening(d, q, u, z) && z1 == Opening(d, q, n, z)
    ensures Ahead(d, cap, n, Min(cap, y1), Min(cap, z1), n - 1.0)
  {
    var r := d.gain - q * d.pay(z);
    LeftOver(d, q, z);
    OpeningIs(d, q, n, z, r);
    OpeningIs(d, q, u, z, r);
    OneStepMore(u, n, r);
    StartLater(d, cap, q, z, z1, r, y1, u, n);
  }

  lemma {:induction false} LeftOver(d: Small, q: real, z: real)
    requires Flow(d.pay, d.part) && 0.0 <= q <= 1.0 && z >= 0.0 && Gain(d, z) >= 0.0
    ensures d.gain - q * d.pay(z) >= 0.0
  {
    assert GentleAt(d.pay, d.part, 0.0, z);
    ProductMonotone(q, 1.0, d.pay(z));
  }

  lemma {:induction false} OpeningIs(d: Small, q: real, w: real, z: real, r: real)
    requires r == d.gain - q * d.pay(z)
    ensures Opening(d, q, w, z) == q * z + w * r
  {
    Opens(q, z, d.pay(z), d.gain, w);
  }

  lemma {:induction false} Opens(q: real, z: real, m: real, h: real, w: real)
    ensures q * (z - w * m) + w * h == q * z + w * (h - q * m)
  {
  }

  lemma {:induction false} OneStepMore(u: real, n: real, r: real)
    requires u == n + 1.0
    ensures u * r == n * r + r
  {
  }

  lemma {:induction false} StartLater(d: Small, cap: real, q: real, z: real, z1: real, r: real, y: real, u: real, n: real)
    requires Flow(d.pay, d.part) && n >= 1.0 && u == n + 1.0 && u * d.part <= 1.0 && 0.0 <= q <= 1.0 && r >= 0.0
    requires r == d.gain - q * d.pay(z) && z1 == q * z + n * r && y >= z1 + r
    ensures Ahead(d, cap, n, Min(cap, y), Min(cap, z1), n - 1.0)
  {
    if y < cap {
      StartOvertakes(d, q, z, n, z1, z1 + r, r);
      Fewer(n, d.part);
      MovedMonotone(d, z1 + r, y, n - 1.0);
      MovedMonotone(d, Min(cap, z1), z1, n);
    }
  }

  lemma {:induction false} StartOvertakes(d: Small, q: real, z: real, n: real, z1: real, y1: real, r: real)
    requires Flow(d.pay, d.part) && n >= 1.0 && 0.0 <= q <= 1.0 && r >= 0.0
    requires r == d.gain - q * d.pay(z) && z1 == q * z + n * r && y1 == z1 + r
    ensures Moved(d, y1, n - 1.0) >= Moved(d, z1, n)
  {
    var s := q * z;
    MeanOf(s, z1, y1, r, n);
    assert ConcaveAt(d.pay, 1.0, n, s, y1, z1);
    assert GentleAt(d.pay, d.part, z1, y1);
    ShareOfPay(d, q, z, s);
    StartRest(z1, y1, r, d.gain, n, q * d.pay(z), d.pay(s), d.pay(z1), d.pay(y1));
  }

  lemma {:induction false} MeanOf(s: real, z1: real, y1: real, r: real, n: real)
    requires z1 == s + n * r && y1 == z1 + r
    ensures (1.0 + n) * z1 == 1.0 * s + n * y1
  {
    assert n * y1 == n * z1 + n * r;
  }

  /** A share of the balance pays at least that share. */
  lemma {:induction false} ShareOfPay(d: Small, q: real, z: real, s: real)
    requires Flow(d.pay, d.part) && 0.0 <= q <= 1.0 && s == q * z
    ensures d.pay(s) >= q * d.pay(z)
  {
    assert ConcaveAt(d.pay, q, 1.0 - q, z, 0.0, s);
  }

  lemma {:induction false} StartRest(z1: real, y1: real, r: real, h: real, n: real, qm: real, ps: real, p: real, far: real)
    requires r == h - qm && ps >= qm && y1 == z1 + r && (1.0 + n) * p >= 1.0 * ps + n * far && p <= far
    ensures y1 + (n - 1.0) * (h - far) >= z1 + n * (h - p)
  {
    assert (n - 1.0) * (h - far) == n * h - h - n * far + far;
    assert n * (h - p) == n * h - n * p;
  }

  // ---- what being ahead means for the rates

  /** At purchase k the balance is at least the weighted mean of the other's at its purchases k and k + 1. */
  lemma {:induction false} AboveMean(d: Small, cap: real, n: real, k: real, y: real, z: real, z': real)
    requires Flow(d.pay, d.part) && n >= 1.0 && 0.0 <= k <= n && z <= cap && z' == Min(cap, Moved(d, z, n))
    requires Ahead(d, cap, n, y, z, n - k)
    ensures n * y >= (n - k) * z + k * z'
  {
    if y == cap {
      CapAbove(n, k, cap, z, z');
    } else {
      assert GentleAt(d.pay, d.part, z, y);
      MeanBelow(n, k, y, z, z', Gain(d, y), Gain(d, z));
    }
  }

  lemma {:induction false} CapAbove(n: real, k: real, cap: real, z: real, z': real)
    requires 0.0 <= k <= n && z <= cap && z' <= cap
    ensures n * cap >= (n - k) * z + k * z'
  {
    ProductMonotone(z, cap, n - k);
    ProductMonotone(z', cap, k);
    assert (n - k) * cap + k * cap == n * cap;
  }

  lemma {:induction false} MeanBelow(n: real, k: real, y: real, z: real, z': real, g: real, h: real)
    requires n >= 1.0 && 0.0 <= k <= n && g <= h && y + (n - k) * g >= z + n * h && z' <= z + n * h
    ensures n * y >= (n - k) * z + k * z'
  {
    ProductMonotone(g, h, n - k);
    assert (n - k) * h == n * h - k * h;
    ProductMonotone(z + k * h, y, n);
    ProductMonotone(z' - z, n * h, k);
    Weighted(n, k, z, z', h);
  }

  lemma {:induction false} Weighted(n: real, k: real, z: real, z': real, h: real)
    ensures n * (z + k * h) == n * z + k * (n * h)
    ensures n * z + k * (z' - z) == (n - k) * z + k * z'
  {
  }

  // ---- balances that no purchase lowers

  ghost predicate Low(d: Small, cap: real, a: real) { 0.0 <= a <= cap && Gain(d, a) >= 0.0 }

  lemma {:induction false} MovedUp(d: Small, y: real, w: real)
    requires w >= 0.0 && Gain(d, y) >= 0.0
    ensures y <= Moved(d, y, w)
  {
    ProductSigns(w, Gain(d, y));
  }

  lemma {:induction false} Lower(d: Small, y: real, y': real, w: real)
    requires Flow(d.pay, d.part) && Gain(d, y) >= 0.0 && y' <= Moved(d, y, w) && w >= 0.0 && w * d.part <= 1.0
    ensures Gain(d, y') >= 0.0
  {
    var far := Moved(d, y, w);
    MovedUp(d, y, w);
    assert GentleAt(d.pay, d.part, y, far) && GentleAt(d.pay, d.part, y', far);
    PartOfGain(w, d.part, Gain(d, y), far - y);
  }

  lemma {:induction false} PartOfGain(w: real, t: real, g: real, x: real)
    requires g >= 0.0 && w * t <= 1.0 && x == w * g
    ensures x * t <= g
  {
    ProductMonotone(w * t, 1.0, g);
    assert w * g * t == w * t * g;
  }

  lemma {:induction false} LowNext(d: Small, cap: real, y: real, y': real, w: real)
    requires Flow(d.pay, d.part) && Low(d, cap, y) && w >= 0.0 && w * d.part <= 1.0 && y' == Min(cap, Moved(d, y, w))
    ensures Low(d, cap, y') && y <= y'
  {
    MovedUp(d, y, w);
    Lower(d, y, y', w);
  }

  /** What is left of a low balance, in part, and the next credit. */
  lemma {:induction false} LowCarried(d: Small, cap: real, q: real, z: real, y: real, w: real)
    requires Flow(d.pay, d.part) && w >= 0.0 && w * d.part <= 1.0 && d.gain >= 0.0 && 0.0 <= q <= 1.0 && Low(d, cap, z)
    requires y == Min(cap, q * (z - w * d.pay(z)) + w * d.gain)
    ensures Low(d, cap, y)
  {
    var rest := z - w * d.pay(z);
    LeavesSome(d, w, z, rest);
    Carries(rest, q, z - w * d.pay(z));
    ProductSigns(w, d.gain);
    MovedIs(d, z, w);
    assert y <= Moved(d, z, w);
    Lower(d, z, y, w);
  }

  lemma {:induction false} Carries(rest: real, q: real, x: real)
    requires rest >= 0.0 && 0.0 <= q <= 1.0 && x == rest
    ensures 0.0 <= q * x <= rest
  {
    ProductMonotone(q, 1.0, x);
    ProductSigns(q, x);
  }

  lemma {:induction false} MovedIs(d: Small, z: real, w: real)
    ensures Moved(d, z, w) == z - w * d.pay(z) + w * d.gain
  {
  }

  lemma {:induction false} LeavesSome(d: Small, w: real, z: real, rest: real)
    requires Flow(d.pay, d.part) && w >= 0.0 && w * d.part <= 1.0 && z >= 0.0 && rest == z - w * d.pay(z)
    ensures rest >= 0.0
  {
    assert GentleAt(d.pay, d.part, 0.0, z);
    ProductMonotone(d.pay(z), z * d.part, w);
    PartOfGain(w, d.part, z, w * z);
    assert w * (z * d.part) == w * z * d.part;
  }

  lemma {:induction false} MoreIsLeft(d: Small, y: real, z: real, w: real)
    requires Flow(d.pay, d.part) && z <= y && w >= 0.0 && w * d.part <= 1.0
    ensures z - w * d.pay(z) <= y - w * d.pay(y)
  {
    MovedMonotone(d, z, y, w);
    MovedIs(d, z, w);
    MovedIs(d, y, w);
  }

  // ---- one purchase and one month end of a ledger with w small steps a purchase

  /** The balance the next purchase pays from. */
  function Next(d: Small, cap: real, w: real, y: real): real { Min(cap, Moved(d, y, w)) }

  /** The balance the first purchase after a month end pays from. */
  function Opened(d: Small, cap: real, q: real, w: real, y: real): real { Min(cap, Opening(d, q, w, y)) }

  /** w small steps a purchase, and each no more than the whole balance. */
  ghost predicate Steps(d: Small, cap: real, w: real) {
    cap >= 0.0 && Flow(d.pay, d.part) && d.gain >= 0.0 && w >= 1.0 && w * d.part <= 1.0
  }

  lemma {:induction false} NextLow(d: Small, cap: real, w: real, y: real)
    requires Steps(d, cap, w) && Low(d, cap, y)
    ensures Low(d, cap, Next(d, cap, w, y)) && y <= Next(d, cap, w, y)
  {
    LowNext(d, cap, y, Next(d, cap, w, y), w);
  }

  lemma {:induction false} OpenedLow(d: Small, cap: real, q: real, w: real, y: real)
    requires Steps(d, cap, w) && Low(d, cap, y) && 0.0 <= q <= 1.0
    ensures Low(d, cap, Opened(d, cap, q, w, y))
  {
    LowCarried(d, cap, q, y, Opened(d, cap, q, w, y), w);
  }

  lemma {:induction false} NextAhead(d: Small, cap: real, u: real, w: real, y: real, z: real, j: real)
    requires Steps(d, cap, u) && u == w + 1.0 && w >= 1.0 && 1.0 <= j <= w && Low(d, cap, y) && Ahead(d, cap, w, y, z, j)
    ensures Ahead(d, cap, w, Next(d, cap, u, y), Next(d, cap, w, z), j - 1.0)
  {
    AheadNext(d, cap, w, y, z, u - j, j);
  }

  lemma {:induction false} OpenedAhead(d: Small, cap: real, q: real, u: real, w: real, y: real, z: real)
    requires Steps(d, cap, u) && u == w + 1.0 && w >= 1.0 && 0.0 <= q <= 1.0 && z <= y && Low(d, cap, z)
    ensures Ahead(d, cap, w, Opened(d, cap, q, u, y), Opened(d, cap, q, w, z), w - 1.0)
  {
    OpensHigher(d, q, u, y, z);
    StartsAhead(d, cap, q, z, Opening(d, q, u, y), Opening(d, q, w, z), u, w);
  }

  lemma {:induction false} OpensHigher(d: Small, q: real, w: real, y: real, z: real)
    requires Flow(d.pay, d.part) && z <= y && w >= 0.0 && w * d.part <= 1.0 && q >= 0.0
    ensures Opening(d, q, w, z) <= Opening(d, q, w, y)
  {
    MoreIsLeft(d, y, z, w);
    ProductMonotone(z - w * d.pay(z), y - w * d.pay(y), q);
  }

  /** Ahead, with a rate that flattens: at least the weighted mean of the other's rates. */
  lemma {:induction false} RateAbove(d: Small, cap: real, rate: Payment, slope: real, w: real, k: real, y: real, z: real)
    requires Steps(d, cap, w) && Flow(rate, slope) && 0.0 <= k <= w && z <= cap && Ahead(d, cap, w, y, z, w - k)
    ensures w * rate(y) >= (w - k) * rate(z) + k * rate(Next(d, cap, w, z))
  {
    var z' := Next(d, cap, w, z);
    AboveMean(d, cap, w, k, y, z, z');
    assert (w - k) + k == w;
    assert ConcaveAt(rate, w - k, k, z, z', y);
  }
}
