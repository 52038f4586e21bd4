/** What every run of the cart keeps, and exactly when an add keeps the money ceiling. */
module CartLaws {
  import opened JsText
  import opened CartRows
  import opened CartStore

  predicate SaneShop(s: Shop) { forall c | c in s.fx :: s.fx[c] >= 0.0 }

  /** A row storage gives back as it was written. */
  predicate Tidy(r: Row) {
    Storable(r) && Upper(r.country) == r.country && r.qty <= MAX_QTY && r.value >= 0.0 && r.coinAmount >= 0.0 && r.unitUSD >= 0.0
  }

  predicate AllTidy(items: seq<Row>) { forall i :: 0 <= i < |items| ==> Tidy(items[i]) }

  predicate Distinct(s: Shop, items: seq<Row>) {
    forall i, j :: 0 <= i < j < |items| ==> ItemKey(s, items[i]) != ItemKey(s, items[j])
  }

  predicate OneCountry(items: seq<Row>) {
    forall i, j :: 0 <= i < |items| && 0 <= j < |items| ==> items[i].country == items[j].country
  }

  predicate CountFits(s: Shop, items: seq<Row>) { s.orderLimit > 0 ==> TotalQty(items) <= s.orderLimit }

  /** Distinct keys, one country, quantities from 1 to 100, and the daily allowance. */
  predicate Shaped(s: Shop, items: seq<Row>) {
    AllTidy(items) && Distinct(s, items) && OneCountry(items) && CountFits(s, items) && |items| <= 100
  }

  /** The total is within the face cap, up to the tolerance of one unit of some row in the cart. */
  predicate MoneyFits(s: Shop, items: seq<Row>) {
    s.faceCap > 0.0 ==>
      TotalUSD(s, items) <= s.faceCap ||
      exists i :: 0 <= i < |items| && TotalUSD(s, items) <= Ceiling(s, items[i])
  }

  // ---- storage gives a tidy cart back

  lemma {:induction false} CleanAllTidy(items: seq<Row>)
    requires AllTidy(items)
    ensures CleanAll(items) == items
  {
    if items != [] {
      assert AllTidy(items[1..]);
      CleanAllTidy(items[1..]);
      assert Clean(items[0]) == items[0];
    }
  }

  lemma {:induction false} ReadBackTidy(items: seq<Row>)
    requires AllTidy(items)
    ensures ReadBack(items) == Prefix(items)
  {
    forall r | r in items ensures Storable(r) {
      var i :| 0 <= i < |items| && items[i] == r;
      assert Tidy(items[i]);
    }
    FilterAll(items, Storable);
    CleanAllTidy(Prefix(items));
    assert ReadBack(items) == CleanAll(Prefix(items));
  }

  lemma {:induction false} UnitNonNegative(s: Shop, r: Row)
    requires SaneShop(s) && Tidy(r)
    ensures Unit(s, r) >= 0.0 && RowUSD(s, r) >= Unit(s, r)
  {
    UnitAtLeastZero(s, r);
    RowIsQtyTimesUnit(s, r);
    Grow(r.qty as real, Unit(s, r));
  }

  lemma {:induction false} UnitAtLeastZero(s: Shop, r: Row)
    requires SaneShop(s) && Tidy(r)
    ensures Unit(s, r) >= 0.0
  {
    var u, ccy := r.(qty := 1), Currency(r);
    assert Currency(u) == ccy && u.qty as real == 1.0;
    if r.value > 0.0 && ccy in s.fx && s.fx[ccy] != 0.0 {
      Product(r.value, s.fx[ccy]);
      assert Unit(s, r) == r.value * 1.0 * s.fx[ccy];
    } else if r.coinAmount > 0.0 && s.usdPerBtc > 0.0 {
      Product(r.coinAmount, s.usdPerBtc);
      assert Unit(s, r) == r.coinAmount * 1.0 * s.usdPerBtc;
    } else {
      assert Unit(s, r) == r.value || Unit(s, r) == r.unitUSD;
    }
  }

  lemma {:induction false} Product(a: real, b: real)
    requires a >= 0.0 && b >= 0.0
    ensures a * 1.0 * b >= 0.0
  {
  }

  lemma {:induction false} Grow(q: real, u: real)
    requires q >= 1.0 && u >= 0.0
    ensures q * u >= u
  {
  }

  // ---- leaving rows out

  lemma {:induction false} TotalOfTidy(s: Shop, items: seq<Row>)
    requires SaneShop(s) && AllTidy(items)
    ensures TotalUSD(s, items) >= 0.0 && TotalQty(items) >= 0
    ensures forall i :: 0 <= i < |items| ==> RowUSD(s, items[i]) <= TotalUSD(s, items)
  {
    if items != [] {
      assert AllTidy(items[1..]);
      TotalOfTidy(s, items[1..]);
      assert Tidy(items[0]);
      UnitNonNegative(s, items[0]);
      forall i | 0 <= i < |items| ensures RowUSD(s, items[i]) <= TotalUSD(s, items) {
        if i > 0 { assert items[i] == items[1..][i - 1]; }
      }
    }
  }

  /** Dropping a stretch of rows keeps everything. */
  lemma {:induction false} CutKeepsShape(s: Shop, a: seq<Row>, m: seq<Row>, b: seq<Row>)
    requires SaneShop(s) && Shaped(s, a + m + b)
    ensures Shaped(s, a + b)
  {
    CutRows(a, m, b);
    CutKeys(s, a, m, b);
    TotalOfTidy(s, m);
    TotalsOfThree(s, a, m, b);
  }

  lemma {:induction false} CutRows(a: seq<Row>, m: seq<Row>, b: seq<Row>)
    ensures AllTidy(a + m + b) ==> AllTidy(m) && AllTidy(a + b)
    ensures OneCountry(a + m + b) ==> OneCountry(a + b)
  {
    var items, rest := a + m + b, a + b;
    assert forall i :: 0 <= i < |m| ==> m[i] == items[|a| + i];
    assert forall i :: 0 <= i < |a| ==> rest[i] == items[i];
    assert forall i :: |a| <= i < |rest| ==> rest[i] == items[i + |m|];
  }

  lemma {:induction false} CutKeys(s: Shop, a: seq<Row>, m: seq<Row>, b: seq<Row>)
    requires Distinct(s, a + m + b)
    ensures Distinct(s, a + b)
  {
    var items, rest := a + m + b, a + b;
    forall i, j | 0 <= i < j < |rest| ensures ItemKey(s, rest[i]) != ItemKey(s, rest[j]) {
      var i', j' := if i < |a| then i else i + |m|, if j < |a| then j else j + |m|;
      assert rest[i] == items[i'] && rest[j] == items[j'];
    }
  }

  lemma {:induction false} TotalsOfThree(s: Shop, a: seq<Row>, m: seq<Row>, b: seq<Row>)
    ensures TotalUSD(s, a + m + b) == TotalUSD(s, a) + TotalUSD(s, m) + TotalUSD(s, b)
    ensures TotalQty(a + m + b) == TotalQty(a) + TotalQty(m) + TotalQty(b)
    ensures TotalUSD(s, a + b) == TotalUSD(s, a) + TotalUSD(s, b)
    ensures TotalQty(a + b) == TotalQty(a) + TotalQty(b)
  {
    TotalConcat(s, a + m, b);
    TotalConcat(s, a, m);
    TotalConcat(s, a, b);
  }

  lemma {:induction false} CutKeepsMoney(s: Shop, a: seq<Row>, m: seq<Row>, b: seq<Row>)
    requires SaneShop(s) && AllTidy(a + m + b) && MoneyFits(s, a + m + b)
    ensures MoneyFits(s, a + b)
  {
    var items := a + m + b;
    CutRows(a, m, b);
    TotalOfTidy(s, m);
    TotalsOfThree(s, a, m, b);
    if s.faceCap > 0.0 && TotalUSD(s, items) > s.faceCap {
      var i :| 0 <= i < |items| && TotalUSD(s, items) <= Ceiling(s, items[i]);
      CutWitness(s, a, m, b, i);
    }
  }

  /** The witness row either stays or takes its own price out of the total. */
  lemma {:induction false} CutWitness(s: Shop, a: seq<Row>, m: seq<Row>, b: seq<Row>, i: nat)
    requires SaneShop(s) && AllTidy(m) && i < |a + m + b|
    ensures (exists j :: 0 <= j < |a + b| && (a + b)[j] == (a + m + b)[i])
      || Ceiling(s, (a + m + b)[i]) - TotalUSD(s, m) <= s.faceCap
  {
    var items, rest := a + m + b, a + b;
    if i < |a| {
      assert rest[i] == items[i];
    } else if i < |a| + |m| {
      var r := m[i - |a|];
      assert items[i] == r && Tidy(r);
      TotalOfTidy(s, m);
      CeilingBound(s, r);
    } else {
      assert rest[i - |m|] == items[i];
    }
  }

  lemma {:induction false} CeilingBound(s: Shop, r: Row)
    requires SaneShop(s) && Tidy(r)
    ensures Ceiling(s, r) - RowUSD(s, r) <= s.faceCap
  {
    UnitNonNegative(s, r);
    assert EPS * Unit(s, r) <= Unit(s, r);
  }

  lemma {:induction false} PrefixKeeps(s: Shop, items: seq<Row>)
    requires SaneShop(s) && AllTidy(items)
    ensures MoneyFits(s, items) ==> MoneyFits(s, Prefix(items))
  {
    if |items| > 100 && MoneyFits(s, items) {
      assert items == items[..100] + items[100..] + [];
      CutKeepsMoney(s, items[..100], items[100..], []);
      assert items[..100] + [] == items[..100];
    }
  }

  // ---- one row among the others

  /** Filtering out one row alone cuts it out. */
  lemma {:induction false} FilterOnly(items: seq<Row>, i: nat, p: Row -> bool)
    requires i < |items| && !p(items[i]) && forall j :: 0 <= j < |items| && j != i ==> p(items[j])
    ensures Filter(items, p) == items[..i] + items[i + 1..]
  {
    if i == 0 {
      forall r | r in items[1..] ensures p(r) { var j :| 0 <= j < |items[1..]| && items[1..][j] == r; assert items[j + 1] == r; }
      FilterAll(items[1..], p);
    } else {
      FilterOnly(items[1..], i - 1, p);
      assert items[..i] == [items[0]] + items[1..][..i - 1] && items[i + 1..] == items[1..][i..];
    }
  }

  lemma {:induction false} OnlyRow(s: Shop, items: seq<Row>, i: nat)
    requires i < |items| && Distinct(s, items)
    ensures Without(s, items, ItemKey(s, items[i])) == items[..i] + items[i + 1..]
  {
    FilterOnly(items, i, OtherKey(s, ItemKey(s, items[i])));
  }

  predicate NoKey(s: Shop, items: seq<Row>, key: string) {
    forall i :: 0 <= i < |items| ==> ItemKey(s, items[i]) != key
  }

  lemma {:induction false} NoRow(s: Shop, items: seq<Row>, key: string)
    requires NoKey(s, items, key)
    ensures Without(s, items, key) == items
  {
    FilterAll(items, OtherKey(s, key));
  }

  lemma {:induction false} SingleRow(s: Shop, r: Row)
    ensures TotalUSD(s, [r]) == RowUSD(s, r) && TotalQty([r]) == r.qty
  {
    assert [r][1..] == [];
  }

  function WithQty(items: seq<Row>, i: nat, q: int): seq<Row>
    requires i < |items|
  {
    items[i := items[i].(qty := q)]
  }

  function Others(s: Shop, items: seq<Row>, i: nat): seq<Row>
    requires i < |items|
  {
    Without(s, items, ItemKey(s, items[i]))
  }

  /** Replacing the quantity of one row: the totals move by that row alone. */
  lemma {:induction false} RequantifiedTotals(s: Shop, items: seq<Row>, i: nat, q: int)
    requires i < |items| && Distinct(s, items)
    ensures TotalUSD(s, WithQty(items, i, q)) == OthersUSD(s, items, items[i]) + RowUSD(s, items[i].(qty := q))
    ensures TotalQty(WithQty(items, i, q)) == TotalQty(Others(s, items, i)) + q
  {
    var a, r, b := items[..i], items[i].(qty := q), items[i + 1..];
    OnlyRow(s, items, i);
    SplitWith(items, i, q);
    TotalsOfThree(s, a, [r], b);
    SingleRow(s, r);
  }

  lemma {:induction false} OwnQty(s: Shop, items: seq<Row>, i: nat)
    requires i < |items| && Distinct(s, items)
    ensures TotalUSD(s, items) == OthersUSD(s, items, items[i]) + RowUSD(s, items[i])
    ensures TotalQty(items) == TotalQty(Others(s, items, i)) + items[i].qty
  {
    RequantifiedTotals(s, items, i, items[i].qty);
    WithOwnQty(items, i);
  }

  lemma {:induction false} WithOwnQty(items: seq<Row>, i: nat)
    requires i < |items|
    ensures WithQty(items, i, items[i].qty) == items && items[i].(qty := items[i].qty) == items[i]
  {
  }

  lemma {:induction false} RequantifiedShape(s: Shop, items: seq<Row>, i: nat, q: int)
    requires SaneShop(s) && Shaped(s, items) && i < |items| && 1 <= q <= MAX_QTY
    requires s.orderLimit > 0 ==> q <= s.orderLimit - TotalQty(Others(s, items, i))
    ensures Shaped(s, WithQty(items, i, q))
  {
    RequantifiedTotals(s, items, i, q);
    var next := WithQty(items, i, q);
    assert Tidy(items[i]);
    assert forall j :: 0 <= j < |items| ==> ItemKey(s, next[j]) == ItemKey(s, items[j]) && next[j].country == items[j].country;
  }

  lemma {:induction false} RequantifiedMoney(s: Shop, items: seq<Row>, i: nat, q: int)
    requires SaneShop(s) && AllTidy(items) && Distinct(s, items) && MoneyFits(s, items) && i < |items| && 1 <= q <= MAX_QTY
    requires q <= MaxQtyForRow(s, items, items[i])
    ensures MoneyFits(s, WithQty(items, i, q))
  {
    if s.faceCap > 0.0 {
      if Unit(s, items[i]) > 0.0 {
        FittingQty(s, items, i, q);
      } else {
        FreeQty(s, items, i, q);
      }
    }
  }

  /** After a change of quantity the total is within the row's own ceiling exactly when the quantity fits. */
  lemma {:induction false} FittingQty(s: Shop, items: seq<Row>, i: nat, q: int)
    requires Distinct(s, items) && i < |items| && 1 <= q <= MAX_QTY && s.faceCap > 0.0 && Unit(s, items[i]) > 0.0
    ensures TotalUSD(s, WithQty(items, i, q)) <= Ceiling(s, WithQty(items, i, q)[i]) <==> q <= MaxQtyForRow(s, items, items[i])
  {
    RequantifiedTotals(s, items, i, q);
    MaxQtyIsLargestFit(s, items, items[i], q);
    QtyPrice(s, items[i], q);
  }

  lemma {:induction false} FreeQty(s: Shop, items: seq<Row>, i: nat, q: int)
    requires SaneShop(s) && AllTidy(items) && Distinct(s, items) && MoneyFits(s, items) && i < |items|
    requires Unit(s, items[i]) <= 0.0
    ensures MoneyFits(s, WithQty(items, i, q))
  {
    assert Tidy(items[i]);
    UnitNonNegative(s, items[i]);
    FreeTotal(s, items, i, q);
    SameMoney(s, items, WithQty(items, i, q));
  }

  lemma {:induction false} FreeTotal(s: Shop, items: seq<Row>, i: nat, q: int)
    requires Distinct(s, items) && i < |items| && Unit(s, items[i]) == 0.0
    ensures TotalUSD(s, WithQty(items, i, q)) == TotalUSD(s, items)
  {
    RequantifiedTotals(s, items, i, q);
    OwnQty(s, items, i);
    QtyPrice(s, items[i], q);
    RowIsQtyTimesUnit(s, items[i]);
  }

  lemma {:induction false} SameMoney(s: Shop, items: seq<Row>, next: seq<Row>)
    requires |items| == |next| && TotalUSD(s, next) == TotalUSD(s, items) && MoneyFits(s, items)
    requires forall j :: 0 <= j < |items| ==> next[j].(qty := 1) == items[j].(qty := 1)
    ensures MoneyFits(s, next)
  {
    if s.faceCap > 0.0 && TotalUSD(s, items) > s.faceCap {
      var j :| 0 <= j < |items| && TotalUSD(s, items) <= Ceiling(s, items[j]);
      assert Unit(s, next[j]) == Unit(s, items[j]);
    }
  }

  // ---- changing a quantity

  lemma {:induction false} RequantifyConcat(s: Shop, all: seq<Row>, a: seq<Row>, b: seq<Row>, key: string, q: int)
    ensures Requantify(s, all, a + b, key, q) == Requantify(s, all, a, key, q) + Requantify(s, all, b, key, q)
  {
    if a == [] {
      assert a + b == b;
    } else {
      assert (a + b)[1..] == a[1..] + b;
      RequantifyConcat(s, all, a[1..], b, key, q);
    }
  }

  lemma {:induction false} RequantifyOthers(s: Shop, all: seq<Row>, items: seq<Row>, key: string, q: int)
    requires OtherRows(s, items, key)
    ensures Requantify(s, all, items, key, q) == items
  {
    if items != [] { RequantifyOthers(s, all, items[1..], key, q); }
  }

  lemma {:induction false} RequantifyAround(s: Shop, all: seq<Row>, a: seq<Row>, r: Row, b: seq<Row>, key: string, q: int)
    requires OtherRows(s, a, key) && OtherRows(s, b, key) && key == ItemKey(s, r)
    ensures var n := NewQty(s, all, r, q);
      Requantify(s, all, a + [r] + b, key, q) == a + (if n > 0 then [r.(qty := n)] else []) + b
  {
    RequantifyConcat(s, all, a + [r], b, key, q);
    RequantifyConcat(s, all, a, [r], key, q);
    RequantifyOthers(s, all, a, key, q);
    RequantifyOthers(s, all, b, key, q);
    RequantifyOne(s, all, r, q);
  }

  lemma {:induction false} RequantifyMeans(s: Shop, items: seq<Row>, i: nat, q: int)
    requires Distinct(s, items) && AllTidy(items) && i < |items|
    ensures var n := NewQty(s, items, items[i], q);
      Requantify(s, items, items, ItemKey(s, items[i]), q) ==
      if n > 0 then WithQty(items, i, n) else items[..i] + items[i + 1..]
  {
    AroundRow(s, items, i);
    RequantifyAround(s, items, items[..i], items[i], items[i + 1..], ItemKey(s, items[i]), q);
    AllAround(items, i);
    SplitWith(items, i, NewQty(s, items, items[i], q));
  }

  lemma {:induction false} AllAround(items: seq<Row>, i: nat)
    requires i < |items|
    ensures items == items[..i] + [items[i]] + items[i + 1..]
    ensures items[..i] + [] + items[i + 1..] == items[..i] + items[i + 1..]
  {
  }

  lemma {:induction false} SplitWith(items: seq<Row>, i: nat, n: int)
    requires i < |items|
    ensures WithQty(items, i, n) == items[..i] + [items[i].(qty := n)] + items[i + 1..]
  {
  }

  predicate OtherRows(s: Shop, items: seq<Row>, key: string) { NoKey(s, items, key) && AllTidy(items) }

  lemma {:induction false} AroundRow(s: Shop, items: seq<Row>, i: nat)
    requires Distinct(s, items) && AllTidy(items) && i < |items|
    ensures OtherRows(s, items[..i], ItemKey(s, items[i])) && OtherRows(s, items[i + 1..], ItemKey(s, items[i]))
  {
    var b := items[i + 1..];
    assert forall j :: 0 <= j < |b| ==> b[j] == items[i + 1 + j];
  }

  lemma {:induction false} RequantifyOne(s: Shop, all: seq<Row>, r: Row, q: int)
    ensures var n := NewQty(s, all, r, q);
      Requantify(s, all, [r], ItemKey(s, r), q) == if n > 0 then [r.(qty := n)] else []
  {
    assert [r][1..] == [];
  }

  lemma {:induction false} SetQtyKeeps(s: Shop, items: seq<Row>, key: string, q: Quantity)
    requires SaneShop(s) && Shaped(s, items)
    ensures Shaped(s, Apply(s, items, SetQty(key, q)))
    ensures MoneyFits(s, items) ==> MoneyFits(s, Apply(s, items, SetQty(key, q)))
  {
    if q.Finite? {
      var i, w := IndexOf(s, items, key), q.x.Floor;
      IndexOfMeans(s, items, key);
      if i < |items| {
        var n := NewQty(s, items, items[i], w);
        RequantifyMeans(s, items, i, w);
        if n > 0 {
          RequantifiedShape(s, items, i, n);
          if MoneyFits(s, items) { RequantifiedMoney(s, items, i, n); }
          ReadBackTidy(WithQty(items, i, n));
        } else {
          RemovalKeeps(s, items, i);
        }
      } else {
        forall j | 0 <= j < |items| ensures ItemKey(s, items[j]) != key && items[j].qty > 0 { assert Tidy(items[j]); }
        RequantifyOthers(s, items, items, key, w);
        ReadBackTidy(items);
      }
    }
  }

  lemma {:induction false} RemovalKeeps(s: Shop, items: seq<Row>, i: nat)
    requires SaneShop(s) && Shaped(s, items) && i < |items|
    ensures var rest := items[..i] + items[i + 1..];
      Shaped(s, rest) && ReadBack(rest) == rest && (MoneyFits(s, items) ==> MoneyFits(s, rest))
  {
    SplitWith(items, i, items[i].qty);
    WithOwnQty(items, i);
    CutKeepsShape(s, items[..i], [items[i]], items[i + 1..]);
    if MoneyFits(s, items) { CutKeepsMoney(s, items[..i], [items[i]], items[i + 1..]); }
    ReadBackTidy(items[..i] + items[i + 1..]);
  }

  lemma {:induction false} RemoveKeeps(s: Shop, items: seq<Row>, key: string)
    requires SaneShop(s) && Shaped(s, items)
    ensures Shaped(s, Apply(s, items, Remove(key)))
    ensures MoneyFits(s, items) ==> MoneyFits(s, Apply(s, items, Remove(key)))
    ensures forall r :: r in Apply(s, items, Remove(key)) <==> r in items && ItemKey(s, r) != key
  {
    var i := IndexOf(s, items, key);
    IndexOfMeans(s, items, key);
    forall r ensures r in Without(s, items, key) <==> r in items && ItemKey(s, r) != key {
      FilterMember(items, OtherKey(s, key), r);
    }
    if i < |items| {
      OnlyRow(s, items, i);
      RemovalKeeps(s, items, i);
    } else {
      NoRow(s, items, key);
      ReadBackTidy(items);
    }
  }
}
