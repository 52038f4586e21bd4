/** Every run of the cart, and exactly when an add keeps the money ceiling. */
module CartTheorems {
  import opened JsText
  import opened CartRows
  import opened CartStore
  import opened CartLaws

  /** No amount the product, the package or the caller supplies is negative. */
  predicate SaneAdd(p: Product, o: Options) {
    !o.force && o.value >= 0.0 && p.minValue >= 0.0
    && forall i :: 0 <= i < |p.packages| ==> p.packages[i].value >= 0.0 && p.packages[i].coinAmount >= 0.0
  }

  lemma {:induction false} FindMeans(packages: seq<Package>, pkg: string)
    ensures |Find(packages, pkg)| <= 1
    ensures Find(packages, pkg) != [] ==> exists i :: 0 <= i < |packages| && packages[i] == Find(packages, pkg)[0]
  {
    if packages != [] && pkg != "" && packages[0].packageId != pkg { FindMeans(packages[1..], pkg); }
  }

  lemma {:induction false} UpperTwice(s: string)
    ensures Upper(Upper(s)) == Upper(s)
  {
  }

  lemma {:induction false} EntryTidy(s: Shop, items: seq<Row>, p: Product, o: Options)
    requires SaneAdd(p, o) && Outcome(s, items, p, o).Added?
    ensures var e := Entry(s, items, p, o);
      e.country == Upper(p.country) && 1 <= e.qty <= MAX_QTY && (Storable(e) ==> Tidy(e)) &&
      (s.orderLimit > 0 ==> e.qty <= Remaining(s, items))
  {
    FindMeans(p.packages, o.pkg);
    UpperTwice(p.country);
  }

  /** The position of the row an add touches. */
  function Slot(s: Shop, items: seq<Row>, p: Product, o: Options): nat {
    IndexOf(s, items, ItemKey(s, Entry(s, items, p, o)))
  }

  predicate Merges(s: Shop, items: seq<Row>, p: Product, o: Options) { Slot(s, items, p, o) < |items| }

  function Merged(s: Shop, items: seq<Row>, p: Product, o: Options): int
    requires Merges(s, items, p, o)
  {
    items[Slot(s, items, p, o)].qty + Joined(s, items, p, o)
  }

  lemma {:induction false} MergeMeans(s: Shop, items: seq<Row>, p: Product, o: Options)
    requires SaneAdd(p, o) && Shaped(s, items) && Outcome(s, items, p, o).Added? && Merges(s, items, p, o)
    ensures var i := Slot(s, items, p, o); var q := Merged(s, items, p, o);
      ItemKey(s, items[i]) == ItemKey(s, Entry(s, items, p, o)) &&
      1 <= q <= MaxQtyForRow(s, items, Entry(s, items, p, o)) && q <= MAX_QTY &&
      (s.orderLimit > 0 ==> q <= items[i].qty + Remaining(s, items)) &&
      Extended(s, items, p, o) == WithQty(items, i, q)
  {
    EntryTidy(s, items, p, o);
    var i := Slot(s, items, p, o);
    IndexOfMeans(s, items, ItemKey(s, Entry(s, items, p, o)));
    assert Tidy(items[i]);
  }

  lemma {:induction false} MergeKeepsShape(s: Shop, items: seq<Row>, p: Product, o: Options)
    requires SaneShop(s) && SaneAdd(p, o) && Shaped(s, items) && Outcome(s, items, p, o).Added? && Merges(s, items, p, o)
    ensures Shaped(s, Extended(s, items, p, o))
  {
    var i, q := Slot(s, items, p, o), Merged(s, items, p, o);
    MergeMeans(s, items, p, o);
    OwnQty(s, items, i);
    RequantifiedShape(s, items, i, q);
  }

  lemma {:induction false} AppendDistinct(s: Shop, items: seq<Row>, e: Row)
    requires Distinct(s, items) && NoKey(s, items, ItemKey(s, e))
    ensures Distinct(s, items + [e])
  {
  }

  lemma {:induction false} AppendCountry(items: seq<Row>, e: Row)
    requires forall r :: r in items ==> r.country == e.country
    ensures OneCountry(items + [e])
  {
    var next := items + [e];
    forall i | 0 <= i < |next| ensures next[i].country == e.country {
      if i < |items| { assert next[i] == items[i] && items[i] in items; }
    }
  }

  lemma {:induction false} AppendKeepsShape(s: Shop, items: seq<Row>, e: Row)
    requires SaneShop(s) && Shaped(s, items) && Tidy(e) && NoKey(s, items, ItemKey(s, e))
    requires forall r :: r in items ==> r.country == e.country
    requires s.orderLimit > 0 ==> e.qty <= Remaining(s, items)
    ensures AllTidy(items + [e]) && Shaped(s, Prefix(items + [e]))
  {
    var next := items + [e];
    if |items| == 100 {
      assert next[..100] == items;
    } else {
      TotalConcat(s, items, [e]);
      SingleRow(s, e);
      AppendDistinct(s, items, e);
      AppendCountry(items, e);
    }
  }

  lemma {:induction false} Unstorable(items: seq<Row>, e: Row)
    requires AllTidy(items) && !Storable(e)
    ensures ReadBack(items + [e]) == ReadBack(items)
  {
    FilterConcat(items, [e], Storable);
    assert Filter([e], Storable) == [] by { assert [e][1..] == []; }
    assert Filter(items, Storable) + [] == Filter(items, Storable);
  }

  /** An unforced add keeps the keys distinct, the country single and the counts within their limits. */
  lemma {:induction false} AddKeepsShape(s: Shop, items: seq<Row>, p: Product, o: Options)
    requires SaneShop(s) && SaneAdd(p, o) && Shaped(s, items)
    ensures Shaped(s, Apply(s, items, Add(p, o)))
  {
    if Outcome(s, items, p, o).Added? {
      var e := Entry(s, items, p, o);
      EntryTidy(s, items, p, o);
      IndexOfMeans(s, items, ItemKey(s, e));
      if Merges(s, items, p, o) {
        MergeKeepsShape(s, items, p, o);
        ReadBackTidy(Extended(s, items, p, o));
      } else if Storable(e) {
        AppendKeepsShape(s, items, e);
        ReadBackTidy(items + [e]);
      } else {
        Unstorable(items, e);
        ReadBackTidy(items);
      }
    }
  }

  // ---- money

  /** The row an add touches: the one merged into, at its own price, or the new one. */
  function Touched(s: Shop, items: seq<Row>, p: Product, o: Options): Row {
    if Merges(s, items, p, o) then items[Slot(s, items, p, o)] else Entry(s, items, p, o)
  }

  /** What the touched row is left with fits at its own price. */
  predicate ClampReachesRow(s: Shop, items: seq<Row>, p: Product, o: Options) {
    if Merges(s, items, p, o) then Merged(s, items, p, o) <= MaxQtyForRow(s, items, items[Slot(s, items, p, o)])
    else Entry(s, items, p, o).qty <= Room(s, items, Entry(s, items, p, o))
  }

  /** After an add the cart fits the ceiling of the touched row exactly when the clamp reached that row; a free row changes nothing. */
  lemma {:induction false} AddFitsIff(s: Shop, items: seq<Row>, p: Product, o: Options)
    requires SaneShop(s) && SaneAdd(p, o) && Shaped(s, items) && Outcome(s, items, p, o).Added? && s.faceCap > 0.0
    ensures Slot(s, items, p, o) < |Extended(s, items, p, o)|
    ensures var next := Extended(s, items, p, o);
      TotalUSD(s, next) <= Ceiling(s, next[Slot(s, items, p, o)]) <==>
        if Unit(s, Touched(s, items, p, o)) > 0.0 then ClampReachesRow(s, items, p, o) else TotalUSD(s, items) <= s.faceCap
  {
    var e, i := Entry(s, items, p, o), Slot(s, items, p, o);
    IndexOfMeans(s, items, ItemKey(s, e));
    if i < |items| {
      MergeMeans(s, items, p, o);
      MergeFits(s, items, i, Merged(s, items, p, o));
    } else {
      EntryTidy(s, items, p, o);
      NewFits(s, items, p, o);
    }
  }

  lemma {:induction false} MergeFits(s: Shop, items: seq<Row>, i: nat, q: int)
    requires SaneShop(s) && Shaped(s, items) && i < |items| && 1 <= q <= MAX_QTY && s.faceCap > 0.0
    ensures TotalUSD(s, WithQty(items, i, q)) <= Ceiling(s, WithQty(items, i, q)[i]) <==>
      if Unit(s, items[i]) > 0.0 then q <= MaxQtyForRow(s, items, items[i]) else TotalUSD(s, items) <= s.faceCap
  {
    if Unit(s, items[i]) > 0.0 {
      FittingQty(s, items, i, q);
    } else {
      assert Tidy(items[i]);
      UnitNonNegative(s, items[i]);
      FreeTotal(s, items, i, q);
      QtyPrice(s, items[i], q);
    }
  }

  /** An entry is built from amounts that are not negative. */
  lemma {:induction false} EntryUnit(s: Shop, items: seq<Row>, p: Product, o: Options)
    requires SaneShop(s) && SaneAdd(p, o)
    ensures Unit(s, Entry(s, items, p, o)) >= 0.0
  {
    FindMeans(p.packages, o.pkg);
    var e := Entry(s, items, p, o).(qty := 1);
    assert e.value >= 0.0 && e.coinAmount >= 0.0 && e.unitUSD >= 0.0;
    OneUnit(s, e);
  }

  lemma {:induction false} OneUnit(s: Shop, r: Row)
    requires SaneShop(s) && r.qty == 1 && r.value >= 0.0 && r.coinAmount >= 0.0 && r.unitUSD >= 0.0
    ensures RowUSD(s, r) >= 0.0
  {
  }

  lemma {:induction false} NewFits(s: Shop, items: seq<Row>, p: Product, o: Options)
    requires SaneShop(s) && SaneAdd(p, o) && s.faceCap > 0.0
    requires var e := Entry(s, items, p, o); NoKey(s, items, ItemKey(s, e)) && 1 <= e.qty <= MAX_QTY
    ensures var e := Entry(s, items, p, o);
      TotalUSD(s, items + [e]) <= Ceiling(s, e) <==>
        if Unit(s, e) > 0.0 then e.qty <= MaxQtyForRow(s, items, e) else TotalUSD(s, items) <= s.faceCap
  {
    var e := Entry(s, items, p, o);
    if Unit(s, e) > 0.0 {
      AppendFits(s, items, e);
    } else {
      EntryUnit(s, items, p, o);
      TotalConcat(s, items, [e]);
      SingleRow(s, e);
      RowIsQtyTimesUnit(s, e);
    }
  }

  lemma {:induction false} AppendFits(s: Shop, items: seq<Row>, e: Row)
    requires NoKey(s, items, ItemKey(s, e)) && 1 <= e.qty <= MAX_QTY && s.faceCap > 0.0 && Unit(s, e) > 0.0
    ensures TotalUSD(s, items + [e]) <= Ceiling(s, e) <==> e.qty <= MaxQtyForRow(s, items, e)
  {
    NoRow(s, items, ItemKey(s, e));
    MaxQtyIsLargestFit(s, items, e, e.qty);
    TotalConcat(s, items, [e]);
    SingleRow(s, e);
    assert e.(qty := e.qty) == e;
  }

  lemma {:induction false} AddKeepsMoney(s: Shop, items: seq<Row>, p: Product, o: Options)
    requires SaneShop(s) && SaneAdd(p, o) && Shaped(s, items) && MoneyFits(s, items)
    requires Outcome(s, items, p, o).Added? ==> ClampReachesRow(s, items, p, o)
    ensures MoneyFits(s, Apply(s, items, Add(p, o)))
  {
    if Outcome(s, items, p, o).Added? {
      var e := Entry(s, items, p, o);
      EntryTidy(s, items, p, o);
      IndexOfMeans(s, items, ItemKey(s, e));
      if Merges(s, items, p, o) {
        MergeKeepsMoney(s, items, p, o);
      } else if Storable(e) {
        AppendKeepsShape(s, items, e);
        ReadBackTidy(items + [e]);
        AppendKeepsMoney(s, items, e);
        PrefixKeeps(s, items + [e]);
      } else {
        Unstorable(items, e);
        ReadBackTidy(items);
      }
    }
  }

  lemma {:induction false} MergeKeepsMoney(s: Shop, items: seq<Row>, p: Product, o: Options)
    requires SaneShop(s) && SaneAdd(p, o) && Shaped(s, items) && MoneyFits(s, items)
    requires Outcome(s, items, p, o).Added? && Merges(s, items, p, o) && ClampReachesRow(s, items, p, o)
    ensures MoneyFits(s, ReadBack(Extended(s, items, p, o)))
  {
    var i := Slot(s, items, p, o);
    MergeMeans(s, items, p, o);
    RequantifiedMoney(s, items, i, Merged(s, items, p, o));
    MergeKeepsShape(s, items, p, o);
    ReadBackTidy(Extended(s, items, p, o));
  }

  lemma {:induction false} AppendKeepsMoney(s: Shop, items: seq<Row>, e: Row)
    requires SaneShop(s) && Tidy(e) && MoneyFits(s, items) && NoKey(s, items, ItemKey(s, e))
    requires e.qty <= MaxQtyForRow(s, items, e)
    ensures MoneyFits(s, items + [e])
  {
    var next := items + [e];
    if s.faceCap > 0.0 {
      UnitNonNegative(s, e);
      if Unit(s, e) > 0.0 {
        AppendFits(s, items, e);
        assert next[|items|] == e;
      } else {
        TotalConcat(s, items, [e]);
        SingleRow(s, e);
        RowIsQtyTimesUnit(s, e);
        SameTotalMoney(s, items, e);
      }
    }
  }

  lemma {:induction false} SameTotalMoney(s: Shop, items: seq<Row>, e: Row)
    requires TotalUSD(s, items + [e]) == TotalUSD(s, items) && MoneyFits(s, items)
    ensures MoneyFits(s, items + [e])
  {
    if s.faceCap > 0.0 && TotalUSD(s, items) > s.faceCap {
      var i :| 0 <= i < |items| && TotalUSD(s, items) <= Ceiling(s, items[i]);
      assert (items + [e])[i] == items[i];
    }
  }

  // ---- what a request is worth

  /** Setting a quantity grants exactly the units that are asked for, allowed and affordable under the cap. */
  lemma {:induction false} SetQtyGrants(s: Shop, items: seq<Row>, r: Row, q: int, n: int)
    requires s.faceCap > 0.0 && Unit(s, r) > 0.0 && n >= 1
    ensures n <= NewQty(s, items, r, q) <==>
      n <= q && n <= MAX_QTY && n <= CountCap(s, items, ItemKey(s, r))
      && OthersUSD(s, items, r) + RowUSD(s, r.(qty := n)) <= Ceiling(s, r)
  {
    if n <= MAX_QTY { MaxQtyIsLargestFit(s, items, r, n); }
  }

  /** A merge adds exactly the units that are asked for, allowed and affordable beside what is held. */
  lemma {:induction false} MergeGrants(s: Shop, items: seq<Row>, p: Product, o: Options, n: int)
    requires SaneAdd(p, o) && Shaped(s, items) && Outcome(s, items, p, o).Added? && Merges(s, items, p, o)
    requires s.faceCap > 0.0 && Unit(s, Entry(s, items, p, o)) > 0.0 && n >= 1
    ensures var e := Entry(s, items, p, o); var after := Held(s, items, e) + n;
      n <= Joined(s, items, p, o) <==>
        n <= Whole(o.qty) && (s.orderLimit > 0 ==> n <= Remaining(s, items))
        && after <= MAX_QTY && OthersUSD(s, items, e) + RowUSD(s, e.(qty := after)) <= Ceiling(s, e)
  {
    var e := Entry(s, items, p, o);
    var after := Held(s, items, e) + n;
    EntryTidy(s, items, p, o);
    MergeMeans(s, items, p, o);
    assert Tidy(items[Slot(s, items, p, o)]);
    if after <= MAX_QTY { MaxQtyIsLargestFit(s, items, e, after); }
  }

  // ---- whole runs

  function Run(s: Shop, actions: seq<Action>): seq<Row> {
    if actions == [] then [] else Apply(s, Run(s, actions[..|actions| - 1]), actions[|actions| - 1])
  }

  predicate Sane(a: Action) { a.Add? ==> SaneAdd(a.p, a.o) }

  /** An add that succeeds leaves the touched row with what fits. */
  predicate Careful(s: Shop, items: seq<Row>, a: Action) {
    a.Add? && Outcome(s, items, a.p, a.o).Added? ==> ClampReachesRow(s, items, a.p, a.o)
  }

  lemma {:induction false} StepKeepsShape(s: Shop, items: seq<Row>, a: Action)
    requires SaneShop(s) && Sane(a) && Shaped(s, items)
    ensures Shaped(s, Apply(s, items, a))
  {
    match a
    case Add(p, o) => AddKeepsShape(s, items, p, o);
    case SetQty(key, q) => SetQtyKeeps(s, items, key, q);
    case Remove(key) => RemoveKeeps(s, items, key);
    case Clear =>
    case Sync => ReadBackTidy(items);
  }

  /** Over every run of unforced actions the cart keeps its shape, and reading storage again changes nothing. */
  lemma {:induction false} EveryRunKeepsShape(s: Shop, actions: seq<Action>)
    requires SaneShop(s) && forall i :: 0 <= i < |actions| ==> Sane(actions[i])
    ensures Shaped(s, Run(s, actions)) && ReadBack(Run(s, actions)) == Run(s, actions)
  {
    if actions != [] {
      var before := actions[..|actions| - 1];
      EveryRunKeepsShape(s, before);
      StepKeepsShape(s, Run(s, before), actions[|actions| - 1]);
    }
    ReadBackTidy(Run(s, actions));
  }

  lemma {:induction false} StepKeepsMoney(s: Shop, items: seq<Row>, a: Action)
    requires SaneShop(s) && Sane(a) && Shaped(s, items) && MoneyFits(s, items) && Careful(s, items, a)
    ensures MoneyFits(s, Apply(s, items, a))
  {
    match a
    case Add(p, o) => AddKeepsMoney(s, items, p, o);
    case SetQty(key, q) => SetQtyKeeps(s, items, key, q);
    case Remove(key) => RemoveKeeps(s, items, key);
    case Clear =>
    case Sync => ReadBackTidy(items);
  }

  /**
   Over every run in which the clamp reaches every row an add touches, the whole cart stays
   within the face cap, up to the tolerance of one unit of one of its rows.
   */
  lemma {:induction false} CarefulRunsKeepMoney(s: Shop, actions: seq<Action>)
    requires SaneShop(s)
    requires forall i :: 0 <= i < |actions| ==> Sane(actions[i]) && Careful(s, Run(s, actions[..i]), actions[i])
    ensures MoneyFits(s, Run(s, actions))
  {
    if actions != [] {
      var n := |actions| - 1;
      var before := actions[..n];
      assert forall i :: 0 <= i < n ==> before[..i] == actions[..i];
      CarefulRunsKeepMoney(s, before);
      EveryRunKeepsShape(s, before);
      StepKeepsMoney(s, Run(s, before), actions[n]);
    }
  }

  // ---- the daily allowance

  /** What the cart is told of an account: the orders left today, and 0 both for none left and for no limit. */
  function OrderLimit(max: int, used: int): int { if max > 0 then Max(0, max - used) else 0 }

  lemma {:induction false} QtyPositive(items: seq<Row>)
    requires AllTidy(items)
    ensures TotalQty(items) >= |items|
  {
    if items != [] {
      assert Tidy(items[0]) && AllTidy(items[1..]);
      QtyPositive(items[1..]);
    }
  }

  /**
   Over every run the cart stays within the orders left today exactly when some are left or
   the cart is empty: a spent allowance reads as none at all.
   */
  lemma {:induction false} AllowanceKeptIff(s: Shop, actions: seq<Action>, max: int, used: int)
    requires SaneShop(s) && max > 0 && s.orderLimit == OrderLimit(max, used)
    requires forall i :: 0 <= i < |actions| ==> Sane(actions[i])
    ensures TotalQty(Run(s, actions)) <= Max(0, max - used) <==> used < max || Run(s, actions) == []
  {
    EveryRunKeepsShape(s, actions);
    QtyPositive(Run(s, actions));
  }

  /** An account with all five orders used can put two more cards into its cart. */
  lemma {:induction false} SpentAllowanceIsNone()
    ensures var o := Options("", 60.0, Finite(2.0), 0.0, false);
      PlainShop().orderLimit == OrderLimit(5, 5) && TotalQty(Run(PlainShop(), [Add(CardAt([]), o)])) == 2
  {
    NewRowEscapesTheClamp();
    OneRow(PlainShop(), Row("card", "", 60.0, "US", "USD", 0.0, 60.0, 2), 2);
  }

  // ---- the two conditions are needed

  function PlainShop(): Shop { Shop(map[], 0.0, (x: real) => "n", 100.0, 0) }

  function CardAt(packages: seq<Package>): Product { Product("card", "US", "USD", 0.0, packages) }

  /** Two units of a 60 dollar item go into an empty cart capped at 100 dollars. */
  lemma {:induction false} NewRowEscapesTheClamp()
    ensures var p := CardAt([]); var o := Options("", 60.0, Finite(2.0), 0.0, false);
      Sane(Add(p, o)) &&
      Run(PlainShop(), [Add(p, o)]) == [Row("card", "", 60.0, "US", "USD", 0.0, 60.0, 2)] &&
      !MoneyFits(PlainShop(), Run(PlainShop(), [Add(p, o)]))
  {
    var s, p, o := PlainShop(), CardAt([]), Options("", 60.0, Finite(2.0), 0.0, false);
    var e := Row("card", "", 60.0, "US", "USD", 0.0, 60.0, 2);
    assert Upper("US") == "US" && Upper("USD") == "USD";
    assert Entry(s, [], p, o) == e;
    PriceOf(s, e, 60.0);
    assert MaxQtyForRow(s, [], e) == 1 by { assert (100.0 / 60.0 + EPS).Floor == 1; }
    assert Outcome(s, [], p, o) == Added;
    assert Extended(s, [], p, o) == [e];
    assert !Blank(e.id) by { assert 'c' in e.id && !IsSpace('c'); }
    ReadOne(e);
    assert [Add(p, o)][..0] == [];
    OneRow(s, e, 2);
    assert e.(qty := 2) == e;
  }

  function Dear(qty: int): Row { Row("card", "p", 60.0, "US", "USD", 0.0, 60.0, qty) }
  function DearCard(): Product { CardAt([Package("p", 60.0, "USD", 0.0)]) }
  function Cheaply(): Options { Options("p", 1.0, Finite(5.0), 0.0, false) }

  /** A package key ignores the value asked for, so a cheap request can multiply a dear row. */
  lemma {:induction false} OtherPriceEscapesTheRoom()
    ensures Sane(Add(DearCard(), Cheaply())) && Shaped(PlainShop(), [Dear(1)]) && MoneyFits(PlainShop(), [Dear(1)])
    ensures Apply(PlainShop(), [Dear(1)], Add(DearCard(), Cheaply())) == [Dear(6)] && !MoneyFits(PlainShop(), [Dear(6)])
  {
    var s := PlainShop();
    DearCart(1);
    DearCart(6);
    CheapEntry();
    assert Extended(s, [Dear(1)], DearCard(), Cheaply()) == [Dear(6)];
    ReadOne(Dear(6));
  }

  lemma {:induction false} DearCart(q: int)
    requires 1 <= q <= 6
    ensures Shaped(PlainShop(), [Dear(q)]) && (MoneyFits(PlainShop(), [Dear(q)]) <==> q == 1)
    ensures Clean(Dear(q)) == Dear(q)
  {
    assert Upper("US") == "US";
    assert !Blank("card") by { assert 'c' in "card" && !IsSpace('c'); }
    PriceOf(PlainShop(), Dear(1), 60.0);
    OneRow(PlainShop(), Dear(1), q);
  }

  lemma {:induction false} CheapEntry()
    ensures var e := Entry(PlainShop(), [Dear(1)], DearCard(), Cheaply());
      e == Row("card", "p", 1.0, "US", "USD", 0.0, 60.0, 5) &&
      MaxQtyForRow(PlainShop(), [Dear(1)], e) == 100 && Outcome(PlainShop(), [Dear(1)], DearCard(), Cheaply()).Added?
  {
    var s, e := PlainShop(), Row("card", "p", 1.0, "US", "USD", 0.0, 60.0, 5);
    CheapRow(s, [Dear(1)]);
    assert ItemKey(s, Dear(1)) == ItemKey(s, e);
    RoomForCheap(s, [Dear(1)], e);
  }

  lemma {:induction false} CheapRow(s: Shop, items: seq<Row>)
    requires s == PlainShop()
    ensures Entry(s, items, DearCard(), Cheaply()) == Row("card", "p", 1.0, "US", "USD", 0.0, 60.0, 5)
    ensures Upper("US") == "US"
  {
    assert Upper("US") == "US" && Upper("USD") == "USD";
    assert Find(DearCard().packages, "p") == [Package("p", 60.0, "USD", 0.0)];
  }

  lemma {:induction false} RoomForCheap(s: Shop, items: seq<Row>, e: Row)
    requires s == PlainShop() && |items| == 1 && ItemKey(s, items[0]) == ItemKey(s, e)
    requires e.value == 1.0 && e.currency == "USD" && e.coinAmount == 0.0
    ensures MaxQtyForRow(s, items, e) == 100
  {
    PriceOf(s, e, 1.0);
    OnlyRow(s, items, 0);
    assert Without(s, items, ItemKey(s, e)) == [];
    assert (100.0 / 1.0 + EPS).Floor == 100;
  }

  lemma {:induction false} OneRow(s: Shop, r: Row, q: int)
    ensures TotalUSD(s, [r.(qty := q)]) == q as real * Unit(s, r) && TotalQty([r.(qty := q)]) == q
    ensures Unit(s, r.(qty := q)) == Unit(s, r)
  {
    SingleRow(s, r.(qty := q));
    QtyPrice(s, r, q);
  }

  lemma {:induction false} PriceOf(s: Shop, r: Row, v: real)
    requires s == PlainShop() && r.value == v > 0.0 && r.currency == "USD" && r.coinAmount == 0.0
    ensures Unit(s, r) == v
  {
    assert Upper("USD") == "USD";
  }

  lemma {:induction false} ReadOne(e: Row)
    requires Storable(e) && Clean(e) == e
    ensures ReadBack([e]) == [e]
  {
    assert Filter([e], Storable) == [e] by { assert [e][1..] == []; }
    assert CleanAll([e]) == [e] by { assert [e][1..] == []; }
  }
}
