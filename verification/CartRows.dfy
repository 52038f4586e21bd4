/** Rows of the cart, what they cost, and how many units of one still fit under the face cap. */
module CartRows {
  import opened JsText

  const MAX_QTY: int := 100
  /** The tolerance of the money ceiling, as a fraction of one unit. */
  const EPS: real := 0.000000001

  datatype Row = Row(
    id: string, pkg: string, value: real, country: string, currency: string,
    coinAmount: real, unitUSD: real, qty: int)

  /**
   What the cart reads and does not change: dollars per unit of each currency (empty when
   not loaded), dollars per bitcoin, how a number prints, the face cap of one order in
   dollars and the remaining daily order allowance. For both limits 0 means unknown.
   */
  datatype Shop = Shop(
    fx: map<string, real>, usdPerBtc: real, numberText: real -> string,
    faceCap: real, orderLimit: int)

  function ItemKey(s: Shop, r: Row): string {
    r.id + "|" + (if r.pkg != "" then "pkg:" + r.pkg else "val:" + s.numberText(r.value)) + "|" + r.country
  }

  function Currency(r: Row): string { Upper(if r.currency == "" then "USD" else r.currency) }

  function RowUSD(s: Shop, r: Row): real {
    var ccy := Currency(r);
    if r.value > 0.0 && ccy in s.fx && s.fx[ccy] != 0.0 then r.value * r.qty as real * s.fx[ccy]
    else if r.coinAmount > 0.0 && s.usdPerBtc > 0.0 then r.coinAmount * r.qty as real * s.usdPerBtc
    else if r.value > 0.0 && ccy == "USD" then r.value * r.qty as real
    else r.unitUSD * r.qty as real
  }

  /** What one unit costs. */
  function Unit(s: Shop, r: Row): real { RowUSD(s, r.(qty := 1)) }

  lemma {:induction false} RowIsQtyTimesUnit(s: Shop, r: Row)
    ensures RowUSD(s, r) == r.qty as real * Unit(s, r)
  {
    var q, ccy := r.qty as real, Currency(r);
    assert Currency(r.(qty := 1)) == ccy;
    if r.value > 0.0 && ccy in s.fx && s.fx[ccy] != 0.0 {
    } else if r.coinAmount > 0.0 && s.usdPerBtc > 0.0 {
    }
  }

  function Filter(items: seq<Row>, p: Row -> bool): seq<Row> {
    if items == [] then [] else (if p(items[0]) then [items[0]] else []) + Filter(items[1..], p)
  }

  function OtherKey(s: Shop, key: string): Row -> bool { r => ItemKey(s, r) != key }

  function Without(s: Shop, items: seq<Row>, key: string): seq<Row> { Filter(items, OtherKey(s, key)) }

  function TotalQty(items: seq<Row>): int {
    if items == [] then 0 else items[0].qty + TotalQty(items[1..])
  }

  function TotalUSD(s: Shop, items: seq<Row>): real {
    if items == [] then 0.0 else RowUSD(s, items[0]) + TotalUSD(s, items[1..])
  }

  function Min(a: int, b: int): int { if a < b then a else b }
  function Max(a: int, b: int): int { if a < b then b else a }

  /** Largest quantity of r one order can still carry beside the other rows. */
  function MaxQtyForRow(s: Shop, items: seq<Row>, r: Row): int {
    var one := Unit(s, r);
    if !(s.faceCap > 0.0) || !(one > 0.0) then MAX_QTY
    else
      var othersUSD := TotalUSD(s, Without(s, items, ItemKey(s, r)));
      Max(0, Min(MAX_QTY, ((s.faceCap - othersUSD) / one + EPS).Floor))
  }

  /** What the rows with other keys cost. */
  function OthersUSD(s: Shop, items: seq<Row>, r: Row): real { TotalUSD(s, Without(s, items, ItemKey(s, r))) }

  /** The face cap and the tolerance of one unit of a row. */
  function Ceiling(s: Shop, r: Row): real { s.faceCap + EPS * Unit(s, r) }

  /** A quantity fits exactly when its price beside the other rows is within the cap and the tolerance. */
  lemma {:induction false} MaxQtyIsLargestFit(s: Shop, items: seq<Row>, r: Row, q: int)
    requires s.faceCap > 0.0 && Unit(s, r) > 0.0 && 1 <= q <= MAX_QTY
    ensures q <= MaxQtyForRow(s, items, r) <==> OthersUSD(s, items, r) + RowUSD(s, r.(qty := q)) <= Ceiling(s, r)
  {
    FitsWhen(q, s.faceCap - OthersUSD(s, items, r), Unit(s, r));
    QtyPrice(s, r, q);
  }

  lemma {:induction false} QtyPrice(s: Shop, r: Row, q: int)
    ensures RowUSD(s, r.(qty := q)) == q as real * Unit(s, r)
    ensures Unit(s, r.(qty := q)) == Unit(s, r)
  {
    RowIsQtyTimesUnit(s, r.(qty := q));
    assert r.(qty := q).(qty := 1) == r.(qty := 1);
  }

  lemma {:induction false} FitsWhen(q: int, left: real, one: real)
    requires one > 0.0
    ensures q <= (left / one + EPS).Floor <==> q as real * one <= left + EPS * one
  {
    var x := left / one;
    assert x * one == left;
    Scale(q as real, x + EPS, one);
    assert (x + EPS) * one == left + EPS * one;
  }

  lemma {:induction false} Scale(a: real, b: real, c: real)
    requires c > 0.0
    ensures a <= b <==> a * c <= b * c
  {
  }

  // ---- sums over pieces of a cart

  lemma {:induction false} TotalConcat(s: Shop, a: seq<Row>, b: seq<Row>)
    ensures TotalUSD(s, a + b) == TotalUSD(s, a) + TotalUSD(s, b)
    ensures TotalQty(a + b) == TotalQty(a) + TotalQty(b)
  {
    if a == [] {
      assert a + b == b;
    } else {
      assert (a + b)[1..] == a[1..] + b;
      TotalConcat(s, a[1..], b);
    }
  }

  lemma {:induction false} FilterConcat(a: seq<Row>, b: seq<Row>, p: Row -> bool)
    ensures Filter(a + b, p) == Filter(a, p) + Filter(b, p)
  {
    if a == [] {
      assert a + b == b;
    } else {
      var first := if p(a[0]) then [a[0]] else [];
      assert (a + b)[1..] == a[1..] + b;
      assert Filter(a + b, p) == first + Filter(a[1..] + b, p);
      FilterConcat(a[1..], b, p);
      Regrouped(first, Filter(a[1..], p), Filter(b, p));
    }
  }

  lemma {:induction false} Regrouped(a: seq<Row>, b: seq<Row>, c: seq<Row>)
    ensures a + (b + c) == a + b + c
  {
  }

  lemma {:induction false} FilterAll(a: seq<Row>, p: Row -> bool)
    requires forall r :: r in a ==> p(r)
    ensures Filter(a, p) == a
  {
    if a != [] {
      forall r | r in a[1..] ensures p(r) { assert r in a; }
      FilterAll(a[1..], p);
    }
  }

  lemma {:induction false} FilterMember(a: seq<Row>, p: Row -> bool, r: Row)
    ensures r in Filter(a, p) <==> r in a && p(r)
  {
    if a != [] { FilterMember(a[1..], p, r); }
  }
}
