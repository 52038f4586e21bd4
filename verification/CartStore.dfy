/** The cart store: four operations, each followed by a write to storage and the read that answers it. */
module CartStore {
  import opened JsText
  import opened CartRows

  datatype Package = Package(packageId: string, value: real, currency: string, coinAmount: real)
  datatype Product = Product(id: string, country: string, currency: string, minValue: real, packages: seq<Package>)
  datatype Quantity = Finite(x: real) | NotFinite
  /** An absent package is the empty string; an absent value or coin amount is zero. */
  datatype Options = Options(pkg: string, value: real, qty: Quantity, coinAmount: real, force: bool)
  datatype AddResult = Added | OtherCountry | CountLimit | MoneyLimit

  // ---- storage

  predicate IsLetter(c: char) { 'A' <= c <= 'Z' || 'a' <= c <= 'z' }

  predicate Storable(r: Row) {
    !Blank(r.id) && |r.country| == 2 && IsLetter(r.country[0]) && IsLetter(r.country[1]) && r.qty >= 1
  }

  function NonNegative(x: real): real { if x < 0.0 then 0.0 else x }

  function Clean(r: Row): Row {
    r.(country := Upper(r.country), qty := Min(MAX_QTY, r.qty), value := NonNegative(r.value),
       coinAmount := NonNegative(r.coinAmount), unitUSD := NonNegative(r.unitUSD))
  }

  function CleanAll(items: seq<Row>): seq<Row> {
    if items == [] then [] else [Clean(items[0])] + CleanAll(items[1..])
  }

  function Prefix(items: seq<Row>): seq<Row> { if |items| <= 100 then items else items[..100] }

  /** What reading the stored cart returns. */
  function ReadBack(items: seq<Row>): seq<Row> { CleanAll(Prefix(Filter(items, Storable))) }

  // ---- the row an add asks for

  function Find(packages: seq<Package>, pkg: string): seq<Package> {
    if packages == [] || pkg == "" then []
    else if packages[0].packageId == pkg then [packages[0]]
    else Find(packages[1..], pkg)
  }

  function EntryOf(p: Product, o: Options, qty: int): Row {
    var k := Find(p.packages, o.pkg);
    Row(p.id, o.pkg,
        if o.value != 0.0 then o.value else if k != [] then k[0].value else 0.0,
        Upper(p.country),
        if k != [] && k[0].currency != "" then k[0].currency else p.currency,
        if o.coinAmount > 0.0 then o.coinAmount else if k != [] then k[0].coinAmount else 0.0,
        if o.pkg != "" then (if k != [] then k[0].value else 0.0)
        else if o.value != 0.0 then o.value else p.minValue,
        qty)
  }

  /** The position of the row with a key, or the number of rows. */
  function IndexOf(s: Shop, items: seq<Row>, key: string): nat {
    if items == [] || ItemKey(s, items[0]) == key then 0 else 1 + IndexOf(s, items[1..], key)
  }

  lemma {:induction false} IndexOfMeans(s: Shop, items: seq<Row>, key: string)
    ensures IndexOf(s, items, key) <= |items|
    ensures IndexOf(s, items, key) < |items| ==> ItemKey(s, items[IndexOf(s, items, key)]) == key
    ensures forall j :: 0 <= j < IndexOf(s, items, key) ==> ItemKey(s, items[j]) != key
  {
    if items != [] && ItemKey(s, items[0]) != key {
      IndexOfMeans(s, items[1..], key);
      forall j | 0 <= j < IndexOf(s, items, key) ensures ItemKey(s, items[j]) != key {
        if j > 0 { assert items[j] == items[1..][j - 1]; }
      }
    }
  }

  function Whole(q: Quantity): int {
    if q.Finite? then Min(MAX_QTY, Max(1, q.x.Floor)) else 1
  }

  function Remaining(s: Shop, items: seq<Row>): int { s.orderLimit - TotalQty(items) }

  /** The quantity an add is worth after the count limits. */
  function Asked(s: Shop, items: seq<Row>, o: Options): int {
    if !o.force && s.orderLimit > 0 then Min(Whole(o.qty), Remaining(s, items)) else Whole(o.qty)
  }

  function Entry(s: Shop, items: seq<Row>, p: Product, o: Options): Row { EntryOf(p, o, Asked(s, items, o)) }

  /** The quantity of the row the entry would merge into, or zero. */
  function Held(s: Shop, items: seq<Row>, e: Row): int {
    var i := IndexOf(s, items, ItemKey(s, e));
    if i < |items| then items[i].qty else 0
  }

  function Room(s: Shop, items: seq<Row>, e: Row): int { MaxQtyForRow(s, items, e) - Held(s, items, e) }

  function Outcome(s: Shop, items: seq<Row>, p: Product, o: Options): AddResult {
    if !o.force && exists r :: r in items && r.country != Upper(p.country) then OtherCountry
    else if !o.force && s.orderLimit > 0 && Remaining(s, items) <= 0 then CountLimit
    else if !o.force && Room(s, items, Entry(s, items, p, o)) <= 0 then MoneyLimit
    else Added
  }

  /** How many units a merge adds: what was asked for, clamped to the room. */
  function Joined(s: Shop, items: seq<Row>, p: Product, o: Options): int {
    var e := Entry(s, items, p, o);
    if o.force then e.qty else Min(e.qty, Room(s, items, e))
  }

  /** A merge adds the clamped quantity; a new row is stored with the quantity it was built with. */
  function Extended(s: Shop, items: seq<Row>, p: Product, o: Options): seq<Row> {
    var e := Entry(s, items, p, o);
    var i := IndexOf(s, items, ItemKey(s, e));
    if i < |items| then items[i := items[i].(qty := Min(MAX_QTY, items[i].qty + Joined(s, items, p, o)))]
    else items + [e]
  }

  // ---- quantity changes

  function CountCap(s: Shop, items: seq<Row>, key: string): int {
    if s.orderLimit > 0 then Max(0, s.orderLimit - TotalQty(Without(s, items, key))) else MAX_QTY
  }

  function NewQty(s: Shop, all: seq<Row>, r: Row, q: int): int {
    Max(0, Min(MAX_QTY, Min(CountCap(s, all, ItemKey(s, r)), Min(MaxQtyForRow(s, all, r), q))))
  }

  function Requantify(s: Shop, all: seq<Row>, items: seq<Row>, key: string, q: int): seq<Row> {
    if items == [] then []
    else
      var r := items[0];
      (if ItemKey(s, r) != key then (if r.qty > 0 then [r] else [])
       else if NewQty(s, all, r, q) > 0 then [r.(qty := NewQty(s, all, r, q))] else [])
      + Requantify(s, all, items[1..], key, q)
  }

  // ---- one step of the store

  datatype Action = Add(p: Product, o: Options) | SetQty(key: string, qty: Quantity) | Remove(key: string) | Clear | Sync

  function Apply(s: Shop, items: seq<Row>, a: Action): seq<Row> {
    match a
    case Add(p, o) => if Outcome(s, items, p, o).Added? then ReadBack(Extended(s, items, p, o)) else items
    case SetQty(key, q) => if q.Finite? then ReadBack(Requantify(s, items, items, key, q.x.Floor)) else items
    case Remove(key) => ReadBack(Without(s, items, key))
    case Clear => []
    case Sync => ReadBack(items)
  }

  class Store {
    const shop: Shop
    var items: seq<Row>
    var stored: seq<Row>

    constructor (shop: Shop)
      ensures this.shop == shop && items == [] && stored == []
    {
      this.shop := shop;
      items := [];
      stored := [];
    }

    /** Writing announces the change, and the announcement makes the store read the rows back. */
    method Write(next: seq<Row>)
      modifies this
      ensures stored == next && items == ReadBack(next)
    {
      items := next;
      stored := next;
      Synchronise();
    }

    method Synchronise()
      modifies this`items
      ensures items == ReadBack(stored)
    {
      items := CleanAll(Prefix(Filter(stored, Storable)));
    }

    method AddToCart(p: Product, o: Options) returns (result: AddResult)
      modifies this
      ensures result == Outcome(shop, old(items), p, o)
      ensures items == Apply(shop, old(items), Add(p, o))
      ensures !result.Added? ==> stored == old(stored)
    {
      var current := items;
      if !o.force && exists r :: r in current && r.country != Upper(p.country) {
        return OtherCountry;
      }
      var addQty := if o.qty.Finite? then Min(MAX_QTY, Max(1, o.qty.x.Floor)) else 1;
      if !o.force && shop.orderLimit > 0 {
        var remaining := shop.orderLimit - TotalQty(current);
        if remaining <= 0 { return CountLimit; }
        addQty := Min(addQty, remaining);
      }
      var entry := EntryOf(p, o, addQty);
      var i := IndexOf(shop, current, ItemKey(shop, entry));
      IndexOfMeans(shop, current, ItemKey(shop, entry));
      assert entry == Entry(shop, current, p, o);
      if !o.force {
        var room := MaxQtyForRow(shop, current, entry) - (if i < |current| then current[i].qty else 0);
        if room <= 0 { return MoneyLimit; }
        if addQty > room { addQty := room; }
      }
      var next := if i < |current| then current[i := current[i].(qty := Min(MAX_QTY, current[i].qty + addQty))]
                  else current + [entry];
      assert next == Extended(shop, current, p, o);
      Write(next);
      return Added;
    }

    method ChangeQty(key: string, qty: Quantity)
      modifies this
      ensures items == Apply(shop, old(items), SetQty(key, qty))
    {
      if qty.NotFinite? { return; }
      Write(Requantify(shop, items, items, key, qty.x.Floor));
    }

    method RemoveItem(key: string)
      modifies this
      ensures items == Apply(shop, old(items), Remove(key))
    {
      Write(Without(shop, items, key));
    }

    method ClearCart()
      modifies this
      ensures items == [] && stored == []
    {
      Write([]);
    }
  }
}
