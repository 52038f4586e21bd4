/** When an add is accepted, what it and the other operations change, and what they leave alone. */
module CartEffects {
  import opened JsText
  import opened CartRows
  import opened CartStore
  import opened CartLaws
  import opened CartTheorems

  // ---- when an add is accepted

  /** One more unit of the entry's row, at the entry's price, is within the cap beside the other rows and within a hundred. */
  predicate OneMoreFits(s: Shop, items: seq<Row>, e: Row) {
    var n := Held(s, items, e) + 1;
    n <= 100 && (s.faceCap > 0.0 && Unit(s, e) > 0.0 ==>
      OthersUSD(s, items, e) + RowUSD(s, e.(qty := n)) <= s.faceCap + 0.000000001 * Unit(s, e))
  }

  /** An unforced add succeeds exactly when the country agrees, orders are left today and one more unit fits. */
  lemma {:induction false} AddAcceptedIff(s: Shop, items: seq<Row>, p: Product, o: Options)
    requires !o.force && AllTidy(items)
    ensures Outcome(s, items, p, o).Added? <==>
      && (forall r :: r in items ==> r.country == Upper(p.country))
      && (s.orderLimit > 0 ==> TotalQty(items) < s.orderLimit)
      && OneMoreFits(s, items, Entry(s, items, p, o))
  {
    var e := Entry(s, items, p, o);
    HeldIsQty(s, items, e);
    RoomIff(s, items, e);
  }

  lemma {:induction false} HeldIsQty(s: Shop, items: seq<Row>, e: Row)
    requires AllTidy(items)
    ensures 0 <= Held(s, items, e) <= 100
  {
    var i := IndexOf(s, items, ItemKey(s, e));
    IndexOfMeans(s, items, ItemKey(s, e));
    if i < |items| { assert Tidy(items[i]); }
  }

  lemma {:induction false} RoomIff(s: Shop, items: seq<Row>, e: Row)
    requires 0 <= Held(s, items, e) <= 100
    ensures Room(s, items, e) > 0 <==> OneMoreFits(s, items, e)
  {
    var n := Held(s, items, e) + 1;
    if n <= 100 && s.faceCap > 0.0 && Unit(s, e) > 0.0 { MaxQtyIsLargestFit(s, items, e, n); }
  }

  /** A refusal names its first reason: country, then orders, then money. */
  lemma {:induction false} RefusalOrder(s: Shop, items: seq<Row>, p: Product, o: Options)
    requires !o.force
    ensures Outcome(s, items, p, o).OtherCountry? <==> exists r :: r in items && r.country != Upper(p.country)
    ensures Outcome(s, items, p, o).CountLimit? ==> s.orderLimit > 0 && TotalQty(items) >= s.orderLimit
    ensures Outcome(s, items, p, o).MoneyLimit? ==> (forall r :: r in items ==> r.country == Upper(p.country)) && Room(s, items, Entry(s, items, p, o)) <= 0
  {
  }

  // ---- what an accepted add does

  /** It appends one row, or adds to the quantity of one; every other row is as it was. */
  lemma {:induction false} AddChangesOneRow(s: Shop, items: seq<Row>, p: Product, o: Options)
    requires SaneShop(s) && SaneAdd(p, o) && Shaped(s, items) && Outcome(s, items, p, o).Added?
    requires Storable(Entry(s, items, p, o)) && |items| < 100
    ensures var next, i := Apply(s, items, Add(p, o)), Slot(s, items, p, o);
      if i < |items| then
        next == items[i := items[i].(qty := Merged(s, items, p, o))] && items[i].qty < next[i].qty <= items[i].qty + Entry(s, items, p, o).qty
      else next == items + [Entry(s, items, p, o)]
  {
    var e := Entry(s, items, p, o);
    EntryTidy(s, items, p, o);
    IndexOfMeans(s, items, ItemKey(s, e));
    if Merges(s, items, p, o) {
      MergeMeans(s, items, p, o);
      MergeKeepsShape(s, items, p, o);
      ReadBackTidy(Extended(s, items, p, o));
    } else {
      AppendKeepsShape(s, items, e);
      ReadBackTidy(items + [e]);
    }
  }

  // ---- what the row of an add holds

  /** The first package with the id. */
  predicate IsPackage(p: Product, id: string, k: Package) {
    exists i :: 0 <= i < |p.packages| && p.packages[i] == k && k.packageId == id
      && forall j :: 0 <= j < i ==> p.packages[j].packageId != id
  }

  lemma {:induction false} FindFirst(packages: seq<Package>, pkg: string, i: nat)
    requires pkg != "" && i < |packages| && packages[i].packageId == pkg && forall j :: 0 <= j < i ==> packages[j].packageId != pkg
    ensures Find(packages, pkg) == [packages[i]]
  {
    if i > 0 { FindFirst(packages[1..], pkg, i - 1); }
  }

  /** A package supplies what the caller leaves out: value, coin amount and currency, and always the fallback price. */
  lemma {:induction false} PackageSupplies(p: Product, o: Options, qty: int, k: Package)
    requires o.pkg != "" && IsPackage(p, o.pkg, k)
    ensures var e := EntryOf(p, o, qty);
      e.id == p.id && e.pkg == o.pkg && e.country == Upper(p.country) && e.qty == qty && e.unitUSD == k.value
      && (o.value == 0.0 ==> e.value == k.value) && (o.value != 0.0 ==> e.value == o.value)
      && (o.coinAmount <= 0.0 ==> e.coinAmount == k.coinAmount) && (o.coinAmount > 0.0 ==> e.coinAmount == o.coinAmount)
      && e.currency == if k.currency != "" then k.currency else p.currency
  {
    var i :| 0 <= i < |p.packages| && p.packages[i] == k && k.packageId == o.pkg && forall j :: 0 <= j < i ==> p.packages[j].packageId != o.pkg;
    FindFirst(p.packages, o.pkg, i);
  }

  /** Without a package the value is the caller's, in the product's currency, and the least value is the fallback price. */
  lemma {:induction false} ValueSupplies(p: Product, o: Options, qty: int)
    requires o.pkg == ""
    ensures var e := EntryOf(p, o, qty);
      e.id == p.id && e.pkg == "" && e.value == o.value && e.currency == p.currency && e.country == Upper(p.country) && e.qty == qty
      && e.unitUSD == (if o.value != 0.0 then o.value else p.minValue) && e.coinAmount == if o.coinAmount > 0.0 then o.coinAmount else 0.0
  {
  }

  /** A request is rounded down, is for at least one and at most a hundred, and for one when it is not a number. */
  lemma {:induction false} WholeRequest(q: Quantity)
    ensures 1 <= Whole(q) <= 100
    ensures q.Finite? && 1.0 <= q.x <= 100.0 ==> Whole(q) as real <= q.x < Whole(q) as real + 1.0
    ensures q.Finite? && q.x < 1.0 ==> Whole(q) == 1
    ensures q.Finite? && q.x > 100.0 ==> Whole(q) == 100
    ensures q.NotFinite? ==> Whole(q) == 1
  {
  }

  /** The row asks for the request, cut to the orders left today. */
  lemma {:induction false} RowAsks(s: Shop, items: seq<Row>, p: Product, o: Options)
    requires !o.force
    ensures var n := Entry(s, items, p, o).qty;
      n == Whole(o.qty) || (s.orderLimit > 0 && n == s.orderLimit - TotalQty(items) < Whole(o.qty))
    ensures s.orderLimit > 0 ==> Entry(s, items, p, o).qty <= s.orderLimit - TotalQty(items)
  {
  }

  // ---- the other operations

  /** Setting a quantity changes that of the one row with the key, or removes it when nothing is granted; without such a row nothing happens. */
  lemma {:induction false} SetQtyChangesOneRow(s: Shop, items: seq<Row>, i: nat, x: real)
    requires SaneShop(s) && Shaped(s, items) && i < |items|
    ensures var n := NewQty(s, items, items[i], x.Floor);
      Apply(s, items, SetQty(ItemKey(s, items[i]), Finite(x))) ==
        if n > 0 then items[i := items[i].(qty := n)] else items[..i] + items[i + 1..]
  {
    var n := NewQty(s, items, items[i], x.Floor);
    RequantifyMeans(s, items, i, x.Floor);
    if n > 0 {
      RequantifiedShape(s, items, i, n);
      ReadBackTidy(WithQty(items, i, n));
    } else {
      RemovalKeeps(s, items, i);
    }
  }

  lemma {:induction false} UnknownKeyIgnored(s: Shop, items: seq<Row>, key: string, q: Quantity)
    requires SaneShop(s) && Shaped(s, items) && NoKey(s, items, key)
    ensures Apply(s, items, SetQty(key, q)) == items && Apply(s, items, Remove(key)) == items
  {
    forall j | 0 <= j < |items| ensures ItemKey(s, items[j]) != key && items[j].qty > 0 { assert Tidy(items[j]); }
    if q.Finite? { RequantifyOthers(s, items, items, key, q.x.Floor); }
    NoRow(s, items, key);
    ReadBackTidy(items);
  }

  /** Every row of a run has a two-letter country in capitals, a product, a quantity from 1 to 100 and no negative amount. */
  lemma {:induction false} RowsOfARun(s: Shop, actions: seq<Action>, r: Row)
    requires SaneShop(s) && forall i :: 0 <= i < |actions| ==> Sane(actions[i])
    requires r in Run(s, actions)
    ensures |r.country| == 2 && 'A' <= r.country[0] <= 'Z' && 'A' <= r.country[1] <= 'Z' && 1 <= r.qty <= 100
    ensures (exists c :: c in r.id && !IsSpace(c)) && r.value >= 0.0 && r.coinAmount >= 0.0 && r.unitUSD >= 0.0
    ensures |Run(s, actions)| <= 100 && (forall q :: q in Run(s, actions) ==> q.country == r.country)
  {
    EveryRunKeepsShape(s, actions);
    var items := Run(s, actions);
    var i :| 0 <= i < |items| && items[i] == r;
    assert Tidy(items[i]);
    InCapitals(r.country);
    forall q | q in items ensures q.country == r.country {
      var j :| 0 <= j < |items| && items[j] == q;
    }
  }

  lemma {:induction false} InCapitals(t: string)
    requires Upper(t) == t && |t| == 2 && IsLetter(t[0]) && IsLetter(t[1])
    ensures 'A' <= t[0] <= 'Z' && 'A' <= t[1] <= 'Z'
  {
    assert UpperChar(t[0]) == Upper(t)[0] && UpperChar(t[1]) == Upper(t)[1];
  }
}
