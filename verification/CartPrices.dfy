/** What a row costs and which rows are the same, said without the code's branches. */
module CartPrices {
  import opened JsText
  import opened CartRows
  import opened CartStore
  import opened CartLaws
  import opened CartTheorems

  /** The rate of the row's currency is known. */
  predicate Rated(s: Shop, r: Row) { r.value > 0.0 && Currency(r) in s.fx && s.fx[Currency(r)] != 0.0 }

  /** There is no rate, but a coin amount and a bitcoin price. */
  predicate Coined(s: Shop, r: Row) { !Rated(s, r) && r.coinAmount > 0.0 && s.usdPerBtc > 0.0 }

  // ---- with a known rate

  /** The price is proportional to the rate of the row's currency. */
  lemma {:induction false} ProportionalToRate(s: Shop, r: Row, k: real)
    requires Rated(s, r) && k != 0.0
    ensures RowUSD(s.(fx := s.fx[Currency(r) := k * s.fx[Currency(r)]]), r) == k * RowUSD(s, r)
  {
    var rate := s.fx[Currency(r)];
    if k * rate == 0.0 { NoZero(k, rate); }
    Regrouped3(r.value * r.qty as real, k, rate);
  }

  lemma {:induction false} NoZero(k: real, rate: real)
    requires k != 0.0 && k * rate == 0.0
    ensures rate == 0.0
  {
  }

  lemma {:induction false} Regrouped3(a: real, k: real, rate: real)
    ensures a * (k * rate) == k * (a * rate)
  {
  }

  /** And to the value. */
  lemma {:induction false} ProportionalToValue(s: Shop, r: Row, k: real)
    requires Rated(s, r) && k > 0.0
    ensures RowUSD(s, r.(value := k * r.value)) == k * RowUSD(s, r)
  {
    Positive(k, r.value);
    assert Currency(r.(value := k * r.value)) == Currency(r);
    Scaled4(k, r.value, r.qty as real, s.fx[Currency(r)]);
  }

  lemma {:induction false} Positive(k: real, v: real)
    requires k > 0.0 && v > 0.0
    ensures k * v > 0.0
  {
  }

  lemma {:induction false} Scaled4(k: real, v: real, q: real, rate: real)
    ensures k * v * q * rate == k * (v * q * rate)
  {
  }

  /** At a rate of one it is the value times the quantity. */
  lemma {:induction false} RateOfOne(s: Shop, r: Row)
    requires Rated(s, r) && s.fx[Currency(r)] == 1.0
    ensures RowUSD(s, r) == r.value * r.qty as real
  {
  }

  /** Nothing else moves it: not the other rates, the bitcoin price, the coin amount or the fallback price. */
  lemma {:induction false} OnlyRateAndValue(s: Shop, t: Shop, r: Row, q: Row)
    requires Rated(s, r) && Currency(q) == Currency(r) && q.value == r.value && q.qty == r.qty
    requires Currency(r) in t.fx && t.fx[Currency(r)] == s.fx[Currency(r)]
    ensures RowUSD(t, q) == RowUSD(s, r)
  {
  }

  // ---- without

  /** A coin amount is priced by bitcoin: proportional to the amount and to the price, one of each costing one. */
  lemma {:induction false} CoinsByBitcoin(s: Shop, r: Row, k: real)
    requires Coined(s, r) && k > 0.0
    ensures RowUSD(s, r.(coinAmount := k * r.coinAmount)) == k * RowUSD(s, r)
    ensures RowUSD(s.(usdPerBtc := k * s.usdPerBtc), r) == k * RowUSD(s, r)
    ensures RowUSD(s.(usdPerBtc := 1.0), r.(coinAmount := 1.0)) == r.qty as real
  {
    Positive(k, r.coinAmount);
    Positive(k, s.usdPerBtc);
    assert Currency(r.(coinAmount := k * r.coinAmount)) == Currency(r) == Currency(r.(coinAmount := 1.0));
    Scaled4(k, r.coinAmount, r.qty as real, s.usdPerBtc);
    Regrouped3(r.coinAmount * r.qty as real, k, s.usdPerBtc);
  }

  /** Before any other fallback: value, currency and fallback price do not move it. */
  lemma {:induction false} OnlyCoins(s: Shop, t: Shop, r: Row, q: Row)
    requires Coined(s, r) && Coined(t, q) && q.coinAmount == r.coinAmount && q.qty == r.qty && t.usdPerBtc == s.usdPerBtc
    ensures RowUSD(t, q) == RowUSD(s, r)
  {
  }

  /** Without rate and coins, dollars are dollars, and everything else costs its fallback price. */
  lemma {:induction false} FallsBack(s: Shop, r: Row)
    requires !Rated(s, r) && !Coined(s, r)
    ensures RowUSD(s, r) == r.qty as real * if r.value > 0.0 && Upper(r.currency) in {"", "USD"} then r.value else r.unitUSD
  {
    assert Upper("USD") == "USD";
    if r.currency != "" { assert Upper(r.currency) != "" by { assert |Upper(r.currency)| == |r.currency|; } }
  }

  /** The case of a currency code does not matter, and none is the dollar. */
  lemma {:induction false} CurrencyCase(s: Shop, r: Row, code: string)
    requires Upper(code) == Upper(r.currency) || (r.currency == "" && code == "USD")
    ensures RowUSD(s, r.(currency := code)) == RowUSD(s, r)
  {
    assert |Upper(code)| == |code| && |Upper(r.currency)| == |r.currency|;
    assert Currency(r.(currency := code)) == Currency(r);
  }

  // ---- a yen card

  function YenShop(): Shop { Shop(map["JPY" := 0.0066], 0.0, (x: real) => "n", 100.0, 0) }

  function YenRow(qty: int): Row { Row("card", "", 5000.0, "JP", "JPY", 0.0, 5000.0, qty) }

  function YenCard(): Product { Product("card", "JP", "JPY", 0.0, []) }

  lemma {:induction false} YenPrice(qty: int)
    ensures RowUSD(YenShop(), YenRow(qty)) == 33.0 * qty as real
  {
    assert Upper("JPY") == "JPY";
    assert Currency(YenRow(qty)) == "JPY";
  }

  lemma {:induction false} YenMax(s: Shop, r: Row)
    requires Unit(s, r) == 33.0 && s.faceCap == 100.0
    ensures MaxQtyForRow(s, [], r) == 3
  {
    assert (100.0 / 33.0 + EPS).Floor == 3;
  }

  function OneYenCard(): Options { Options("", 5000.0, Finite(1.0), 0.0, false) }

  lemma {:induction false} YenEntry(s: Shop)
    requires s == YenShop()
    ensures Entry(s, [], YenCard(), OneYenCard()) == YenRow(1)
  {
    assert Upper("JP") == "JP";
  }

  lemma {:induction false} YenAdd(s: Shop, p: Product, o: Options, e: Row)
    requires !o.force && s.orderLimit == 0 && Entry(s, [], p, o) == e && MaxQtyForRow(s, [], e) == 3 && Storable(e) && Clean(e) == e
    ensures Outcome(s, [], p, o).Added? && Apply(s, [], Add(p, o)) == [e]
  {
    assert Extended(s, [], p, o) == [e];
    ReadOne(e);
  }

  /** A 5000 yen card costs 33 dollars: it enters an empty cart capped at 100, and three of it fit. */
  lemma {:induction false} YenCardFits()
    ensures MaxQtyForRow(YenShop(), [], YenRow(1)) == 3
    ensures Outcome(YenShop(), [], YenCard(), OneYenCard()).Added? && Apply(YenShop(), [], Add(YenCard(), OneYenCard())) == [YenRow(1)]
  {
    YenPrice(1);
    assert YenRow(1).(qty := 1) == YenRow(1);
    YenMax(YenShop(), YenRow(1));
    YenEntry(YenShop());
    assert !Blank("card") by { assert 'c' in "card" && !IsSpace('c'); }
    assert Upper("JP") == "JP";
    YenAdd(YenShop(), YenCard(), OneYenCard(), YenRow(1));
  }

  // ---- which rows are one

  /** Two rows stand for the same choice: the same package, or no package and values that print alike. */
  predicate SameChoice(s: Shop, r: Row, q: Row) {
    if r.pkg != "" || q.pkg != "" then r.pkg == q.pkg else s.numberText(r.value) == s.numberText(q.value)
  }

  function Choice(s: Shop, r: Row): string { if r.pkg != "" then "pkg:" + r.pkg else "val:" + s.numberText(r.value) }

  /** Rows share a key exactly when product, choice and country agree. */
  lemma {:induction false} KeyIff(s: Shop, r: Row, q: Row)
    requires '|' !in r.id && '|' !in q.id && |r.country| == |q.country|
    ensures ItemKey(s, r) == ItemKey(s, q) <==> r.id == q.id && SameChoice(s, r, q) && r.country == q.country
  {
    KeyParts(r.id, Choice(s, r), r.country, q.id, Choice(s, q), q.country);
    ChoiceIff(s, r, q);
  }

  lemma {:induction false} ChoiceIff(s: Shop, r: Row, q: Row)
    ensures Choice(s, r) == Choice(s, q) <==> SameChoice(s, r, q)
  {
    Headed("pkg:", r.pkg, q.pkg);
    Headed("val:", s.numberText(r.value), s.numberText(q.value));
    assert Choice(s, r)[0] == (if r.pkg != "" then 'p' else 'v') && Choice(s, q)[0] == if q.pkg != "" then 'p' else 'v';
  }

  lemma {:induction false} Headed(h: string, a: string, b: string)
    ensures h + a == h + b <==> a == b
  {
    assert (h + a)[|h|..] == a && (h + b)[|h|..] == b;
  }

  lemma {:induction false} KeyParts(a: string, b: string, c: string, x: string, y: string, z: string)
    requires '|' !in a && '|' !in x && |c| == |z|
    ensures a + "|" + b + "|" + c == x + "|" + y + "|" + z <==> a == x && b == y && c == z
  {
    var s, t := a + "|" + b + "|" + c, x + "|" + y + "|" + z;
    if s == t {
      if |a| < |x| { BarInside(a, x, s, t); }
      if |x| < |a| { BarInside(x, a, t, s); }
      assert a == s[..|a|] == t[..|x|] == x;
      assert c == s[|s| - |c|..] == t[|t| - |z|..] == z;
      assert b == s[|a| + 1..|s| - |c| - 1] == t[|x| + 1..|t| - |z| - 1] == y;
    }
  }

  lemma {:induction false} BarInside(a: string, x: string, s: string, t: string)
    requires s == t && |a| < |x| && |a| < |s| && s[|a|] == '|' && |x| <= |t| && t[..|x|] == x
    ensures '|' in x
  {
    assert x[|a|] == t[|a|] == '|';
  }
}
