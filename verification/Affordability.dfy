/** How much NIM a payment needs, and how many units a balance can buy: exact inverses of each other. */
module Affordability {
  const SPEND_MARGIN: real := 0.05
  const SPEND_FLOOR_USD: real := 0.05

  /** The fixed cushion in NIM; zero while no rate is known. */
  function SpendFloor(usdPerNim: real): (f: real)
    ensures f >= 0.0
  {
    if usdPerNim > 0.0 then SPEND_FLOOR_USD / usdPerNim else 0.0
  }

  function Larger(a: real, b: real): real { if a < b then b else a }

  function RequiredNim(target: real, rate: real): real {
    if target > 0.0 then target + Larger(target * SPEND_MARGIN, SpendFloor(rate)) else 0.0
  }

  predicate CoversTarget(target: real, have: real, rate: real) {
    target > 0.0 ==> have >= RequiredNim(target, rate)
  }

  predicate IsTight(target: real, have: real, rate: real) {
    target > 0.0 && target <= have < RequiredNim(target, rate)
  }

  function Ceil(x: real): int { -(-x).Floor }

  function ShortByWholeNim(target: real, have: real, rate: real): int {
    var need := RequiredNim(target, rate);
    if need <= 0.0 || have >= need then 0 else if Ceil(need - have) < 1 then 1 else Ceil(need - have)
  }

  function AffordableUnits(have: real, unit: real, rate: real): int {
    if unit <= 0.0 || have <= 0.0 then 0
    else
      var byPercent := (have / (unit * (1.0 + SPEND_MARGIN))).Floor;
      var byFloor := ((have - SpendFloor(rate)) / unit).Floor;
      var least := if byPercent < byFloor then byPercent else byFloor;
      if least < 0 then 0 else least
  }

  /** n units of price p fit a budget exactly when n is at most the floor of their ratio. */
  lemma {:induction false} FloorFits(n: int, p: real, budget: real)
    requires p > 0.0
    ensures n <= (budget / p).Floor <==> n as real * p <= budget
  {
    var q := budget / p;
    assert q * p == budget;
    Ordered(n as real, q, p);
  }

  lemma {:induction false} Ordered(a: real, b: real, c: real)
    requires c > 0.0
    ensures a <= b <==> a * c <= b * c
  {
    assert (b - a) * c == b * c - a * c;
    assert a <= b ==> (b - a) * c >= 0.0;
    assert a > b ==> (a - b) * c > 0.0;
  }

  /** The two halves of the requirement: the price with its percentage, and the price with the fixed cushion. */
  lemma {:induction false} CoversIff(target: real, have: real, rate: real)
    requires target > 0.0
    ensures CoversTarget(target, have, rate) <==> target * (1.0 + SPEND_MARGIN) <= have && target <= have - SpendFloor(rate)
  {
    assert target * (1.0 + SPEND_MARGIN) == target + target * SPEND_MARGIN;
  }

  /** A balance covers n units exactly when n is at most the number of affordable units. */
  lemma {:induction false} AffordableIsInverse(n: int, unit: real, have: real, rate: real)
    requires n >= 1 && unit > 0.0
    ensures CoversTarget(n as real * unit, have, rate) <==> n <= AffordableUnits(have, unit, rate)
  {
    var target := n as real * unit;
    var p := unit * (1.0 + SPEND_MARGIN);
    CoversIff(target, have, rate);
    FloorFits(n, p, have);
    FloorFits(n, unit, have - SpendFloor(rate));
    assert target * (1.0 + SPEND_MARGIN) == n as real * p;
  }

  /** The shortfall is the least whole top-up that covers the target. */
  lemma {:induction false} ShortfallIsLeast(target: real, have: real, rate: real, k: int)
    requires k >= 0
    ensures CoversTarget(target, have + k as real, rate) <==> k >= ShortByWholeNim(target, have, rate)
  {
    if target > 0.0 { assert target * SPEND_MARGIN > 0.0; }
  }

  /** Every positive target is covered, tight or below its bare price, and only one of them. */
  lemma {:induction false} ExactlyOneBand(target: real, have: real, rate: real)
    requires target > 0.0
    ensures CoversTarget(target, have, rate) ==> !IsTight(target, have, rate) && have >= target
    ensures !CoversTarget(target, have, rate) ==> (IsTight(target, have, rate) <==> have >= target)
  {
    assert target * SPEND_MARGIN > 0.0;
  }

  /** A positive target is covered exactly when a twentieth of it is left over, and, while the rate is known, five cents. */
  lemma {:induction false} CoversMeans(target: real, have: real, rate: real)
    requires target > 0.0
    ensures CoversTarget(target, have, rate) <==> (have - target) * 20.0 >= target && (rate > 0.0 ==> (have - target) * rate >= 0.05)
  {
    CoversIff(target, have, rate);
    assert target * (1.0 + SPEND_MARGIN) == target + target * SPEND_MARGIN;
    Twentieth(target);
    if rate > 0.0 { FiveCents(have - target, rate); } else { assert target * SPEND_MARGIN > 0.0; }
  }

  lemma {:induction false} Twentieth(target: real)
    ensures target * SPEND_MARGIN * 20.0 == target
  {
  }

  lemma {:induction false} FiveCents(left: real, rate: real)
    requires rate > 0.0
    ensures left >= SpendFloor(rate) <==> left * rate >= 0.05
  {
    var floor := SpendFloor(rate);
    assert floor * rate == 0.05;
    Ordered(floor, left, rate);
  }
}
