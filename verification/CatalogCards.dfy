/** The shop grid: one card per family and country, in stock when some variant is. */
module CatalogCards {
  import opened JsText
  import opened CatalogRows
  import CatalogFilter

  /**
   A card. Its name, kind, logo and price texts are those of one row, its representative;
   `variants` lists the brand ids when there are several.
   */
  datatype Card = Card(rep: Row, country: string, inStock: bool, isEMoney: bool, variants: seq<string>)

  function Family(c: Card): string { CleanFamilyName(c.rep.family) }

  predicate Named(b: Row) { CleanFamilyName(b.family) != "" }

  function GroupKey(b: Row, country: string): string {
    Lower(CleanFamilyName(b.family)) + "|" + Upper(Or(b.countryCode, country))
  }

  function VariantId(b: Row): string { Lower(Or(b.brandId, b.family)) }

  // ---- first occurrences, generically: the order of a map that is filled once

  /** The distinct keys of the rows that count, in order of first occurrence. */
  function Firsts(rows: seq<Row>, counts: Row -> bool, key: Row -> string): seq<string> {
    if rows == [] then []
    else
      var b := rows[|rows| - 1];
      var rest := Firsts(rows[..|rows| - 1], counts, key);
      if counts(b) && key(b) !in rest then rest + [key(b)] else rest
  }

  function Members(rows: seq<Row>, counts: Row -> bool, key: Row -> string, k: string): seq<Row> {
    if rows == [] then []
    else
      var b := rows[|rows| - 1];
      var rest := Members(rows[..|rows| - 1], counts, key, k);
      if counts(b) && key(b) == k then rest + [b] else rest
  }

  predicate Distinct(s: seq<string>) { forall i, j :: 0 <= i < j < |s| ==> s[i] != s[j] }

  lemma {:induction false} FirstsMeans(rows: seq<Row>, counts: Row -> bool, key: Row -> string)
    ensures Distinct(Firsts(rows, counts, key))
    ensures forall k :: k in Firsts(rows, counts, key) <==> exists r :: r in rows && counts(r) && key(r) == k
  {
    if rows != [] {
      var front, b := rows[..|rows| - 1], rows[|rows| - 1];
      FirstsMeans(front, counts, key);
      assert rows == front + [b];
    }
  }

  lemma {:induction false} MembersMeans(rows: seq<Row>, counts: Row -> bool, key: Row -> string, k: string)
    ensures forall r :: r in Members(rows, counts, key, k) <==> r in rows && counts(r) && key(r) == k
  {
    if rows != [] {
      var front, b := rows[..|rows| - 1], rows[|rows| - 1];
      MembersMeans(front, counts, key, k);
      assert rows == front + [b];
    }
  }

  /** Fills the groups row by row. */
  method Group(rows: seq<Row>, counts: Row -> bool, key: Row -> string) returns (order: seq<string>, grouped: map<string, seq<Row>>)
    ensures order == Firsts(rows, counts, key)
    ensures forall k :: k in grouped <==> k in order
    ensures forall k :: k in order ==> grouped[k] == Members(rows, counts, key, k) != []
  {
    order, grouped := [], map[];
    for i := 0 to |rows|
      invariant order == Firsts(rows[..i], counts, key)
      invariant forall k :: k in grouped <==> k in order
      invariant forall k :: k in order ==> grouped[k] == Members(rows[..i], counts, key, k) != []
      invariant forall k :: k !in order ==> Members(rows[..i], counts, key, k) == []
    {
      var b := rows[i];
      assert rows[..i + 1][..i] == rows[..i];
      if counts(b) {
        if key(b) !in grouped {
          order := order + [key(b)];
          grouped := grouped[key(b) := [b]];
        } else {
          grouped := grouped[key(b) := grouped[key(b)] + [b]];
        }
      }
    }
    assert rows[..|rows|] == rows;
  }

  // ---- one variant per brand id

  /** The first row in stock, or the first row. */
  function Preferred(list: seq<Row>): Row
    requires list != []
  {
    if |list| == 1 then list[0]
    else
      var p := Preferred(list[..|list| - 1]);
      if p.outOfStock && !list[|list| - 1].outOfStock then list[|list| - 1] else p
  }

  lemma {:induction false} PreferredMeans(list: seq<Row>)
    requires list != []
    ensures Preferred(list) in list
    ensures Preferred(list).outOfStock <==> forall r :: r in list ==> r.outOfStock
  {
    if |list| > 1 {
      var front, b := list[..|list| - 1], list[|list| - 1];
      PreferredMeans(front);
      assert list == front + [b];
    } else {
      assert list == [list[0]];
    }
  }

  predicate Any(b: Row) { true }

  /** The variants of a group: the preferred row of every brand id, in order of first occurrence. */
  function Variants(list: seq<Row>): seq<Row> {
    var ids := Firsts(list, Any, VariantId);
    seq(|ids|, i requires 0 <= i < |ids| => VariantOf(list, ids[i]))
  }

  const NO_ROW: Row := Row("", "", "", "", "", "", [], "", "", false, false, false, true, "", "", "")

  function VariantOf(list: seq<Row>, id: string): Row {
    var m := Members(list, Any, VariantId, id);
    if m == [] then NO_ROW else Preferred(m)
  }

  /** Whether some row of the list has the brand id. */
  predicate HasVariant(list: seq<Row>, id: string) { Members(list, Any, VariantId, id) != [] }

  method Deduplicate(list: seq<Row>) returns (distinct: seq<Row>)
    ensures distinct == Variants(list)
  {
    var order: seq<string> := [];
    var byId: map<string, Row> := map[];
    for i := 0 to |list|
      invariant order == Firsts(list[..i], Any, VariantId)
      invariant forall k :: k in byId <==> k in order
      invariant forall k :: k in order <==> HasVariant(list[..i], k)
      invariant forall k :: k in order ==> byId[k] == VariantOf(list[..i], k)
    {
      var b, id := list[i], VariantId(list[i]);
      assert list[..i + 1][..i] == list[..i];
      forall k { VariantSnoc(list, i, k); }
      if id !in byId {
        order := order + [id];
        byId := byId[id := b];
      } else {
        var prev := byId[id];
        if prev.outOfStock && !b.outOfStock { byId := byId[id := b]; }
      }
    }
    assert list[..|list|] == list;
    distinct := seq(|order|, i requires 0 <= i < |order| && order[i] in byId => byId[order[i]]);
  }

  /** One more row: the variant of its id is replaced when it was missing, or sold out while the row is not. */
  lemma {:induction false} VariantSnoc(list: seq<Row>, i: nat, id: string)
    requires i < |list|
    ensures HasVariant(list[..i + 1], id) <==> HasVariant(list[..i], id) || VariantId(list[i]) == id
    ensures HasVariant(list[..i + 1], id) ==>
      VariantOf(list[..i + 1], id) ==
        if VariantId(list[i]) == id && (!HasVariant(list[..i], id) || (VariantOf(list[..i], id).outOfStock && !list[i].outOfStock)) then list[i]
        else VariantOf(list[..i], id)
  {
    assert list[..i + 1][..i] == list[..i];
    var m := Members(list[..i], Any, VariantId, id);
    if m != [] {
    } else {
      assert m + [list[i]] == [list[i]];
    }
  }

  predicate AnyInStock(list: seq<Row>) { exists r :: r in list && !r.outOfStock }

  /** Removing duplicates keeps exactly whether something is in stock. */
  lemma {:induction false} VariantsKeepStock(list: seq<Row>)
    ensures AnyInStock(Variants(list)) <==> AnyInStock(list)
    ensures Variants(list) == [] <==> list == []
    ensures forall v :: v in Variants(list) ==> v in list
  {
    var ids := Firsts(list, Any, VariantId);
    FirstsMeans(list, Any, VariantId);
    forall i | 0 <= i < |ids| ensures Variants(list)[i] in list {
      assert ids[i] in ids;
      VariantMeans(list, ids[i]);
    }
    if r :| r in list && !r.outOfStock {
      VariantMeans(list, VariantId(r));
      assert VariantId(r) in ids;
      var i :| 0 <= i < |ids| && ids[i] == VariantId(r);
      assert Variants(list)[i] in Variants(list) && !Variants(list)[i].outOfStock;
    }
    if list != [] { assert list[0] in list && VariantId(list[0]) in ids; }
  }

  lemma {:induction false} VariantMeans(list: seq<Row>, id: string)
    requires exists r :: r in list && VariantId(r) == id
    ensures VariantOf(list, id) in list && VariantId(VariantOf(list, id)) == id
    ensures VariantOf(list, id).outOfStock <==> forall r :: r in list && VariantId(r) == id ==> r.outOfStock
  {
    var m := Members(list, Any, VariantId, id);
    MembersMeans(list, Any, VariantId, id);
    assert m != [] by {
      var r :| r in list && VariantId(r) == id;
      assert r in m;
    }
    PreferredMeans(m);
  }

  // ---- cards

  function ShownCountry(b: Row, country: string): string { Upper(Or(Or(b.countryCode, b.country), country)) }

  function CardOf(b: Row, country: string, inStock: bool, isEMoney: bool, variants: seq<string>): Card {
    Card(b, ShownCountry(b, country), inStock, isEMoney, variants)
  }

  predicate EMoney(b: Row) { Lower(b.category) == "e-money" }

  predicate AnyEMoney(list: seq<Row>) { exists r :: r in list && EMoney(r) }

  function Representative(distinct: seq<Row>): Row
    requires distinct != []
  {
    if AnyInStock(distinct) then FirstInStock(distinct) else distinct[0]
  }

  function FirstInStock(distinct: seq<Row>): (r: Row)
    requires distinct != [] && AnyInStock(distinct)
    ensures r in distinct && !r.outOfStock
  {
    if !distinct[0].outOfStock then distinct[0] else FirstInStock(distinct[1..])
  }

  function Ids(distinct: seq<Row>): seq<string> { seq(|distinct|, i requires 0 <= i < |distinct| => distinct[i].brandId) }

  /** The card of one group: its representative variant, in stock when some variant is. */
  function GroupCard(list: seq<Row>, country: string): Card
    requires list != []
  {
    VariantsKeepStock(list);
    var distinct := Variants(list);
    CardOf(Representative(distinct), country, AnyInStock(list), AnyEMoney(distinct), if |distinct| > 1 then Ids(distinct) else [])
  }

  function Keyed(country: string): Row -> string { b => GroupKey(b, country) }

  function Cards(rows: seq<Row>, country: string): seq<Card> {
    CardsFor(rows, country, Firsts(rows, Named, Keyed(country)))
  }

  function CardsFor(rows: seq<Row>, country: string, keys: seq<string>): seq<Card> { Each(CardAt(rows, country), keys) }

  function CardAt(rows: seq<Row>, country: string): string -> Card { key => CardFor(rows, country, key) }

  function Each(f: string -> Card, keys: seq<string>): seq<Card> {
    if keys == [] then [] else Each(f, keys[..|keys| - 1]) + [f(keys[|keys| - 1])]
  }

  lemma {:induction false} EachAt(f: string -> Card, keys: seq<string>)
    ensures |Each(f, keys)| == |keys|
    ensures forall i :: 0 <= i < |keys| ==> Each(f, keys)[i] == f(keys[i])
  {
    if keys != [] { EachAt(f, keys[..|keys| - 1]); }
  }

  lemma {:induction false} CardsForAt(rows: seq<Row>, country: string, keys: seq<string>)
    ensures |CardsFor(rows, country, keys)| == |keys|
    ensures forall i :: 0 <= i < |keys| ==> CardsFor(rows, country, keys)[i] == CardFor(rows, country, keys[i])
  {
    EachAt(CardAt(rows, country), keys);
  }

  function CardFor(rows: seq<Row>, country: string, key: string): Card {
    var m := Members(rows, Named, Keyed(country), key);
    if m == [] then CardOf(NO_ROW, country, false, false, []) else GroupCard(m, country)
  }

  method MergeGroup(list: seq<Row>, country: string) returns (card: Card)
    requires list != []
    ensures card == GroupCard(list, country)
  {
    VariantsKeepStock(list);
    if |list| == 1 {
      SingleGroup(list);
      return CardOf(list[0], country, !list[0].outOfStock, EMoney(list[0]), []);
    }
    var distinct := Deduplicate(list);
    if |distinct| == 1 {
      assert distinct == [distinct[0]];
      return CardOf(distinct[0], country, !distinct[0].outOfStock, EMoney(distinct[0]), []);
    }
    var rep := if AnyInStock(distinct) then FirstInStock(distinct) else distinct[0];
    card := CardOf(rep, country, AnyInStock(distinct), AnyEMoney(distinct), Ids(distinct));
  }

  lemma {:induction false} SingleGroup(list: seq<Row>)
    requires |list| == 1
    ensures Variants(list) == list
  {
    var b := list[0];
    assert list == [b] && list[..0] == [];
    assert Firsts(list, Any, VariantId) == [VariantId(b)];
    assert Members(list, Any, VariantId, VariantId(b)) == [b];
  }

  method AllBrands(cs: seq<Category>) returns (brands: seq<Row>)
    ensures brands == CatalogFilter.AllRows(cs)
  {
    brands := [];
    for i := 0 to |cs|
      invariant brands == CatalogFilter.AllRows(cs[..i])
    {
      CatalogFilter.AllRowsConcat(cs[..i], [cs[i]]);
      assert cs[..i] + [cs[i]] == cs[..i + 1] && [cs[i]][1..] == [];
      brands := brands + cs[i].brands;
    }
    assert cs[..|cs|] == cs;
  }

  method MergeGroups(brands: seq<Row>, country: string) returns (out: seq<Card>)
    ensures out == Cards(brands, country)
  {
    var order, grouped := Group(brands, Named, Keyed(country));
    out := [];
    for i := 0 to |order|
      invariant out == CardsFor(brands, country, order[..i])
    {
      assert order[i] in order && order[..i + 1][..i] == order[..i];
      var card := MergeGroup(grouped[order[i]], country);
      out := out + [card];
    }
    assert order[..|order|] == order;
  }

  /** The rows the grid is made of. */
  function ShownRows(d: Catalog): seq<Row> { CatalogFilter.AllRows(CatalogFilter.Filtered(CatalogFilter.PUBLIC, d).categories) }

  method FlattenBrands(d: Catalog, country: string) returns (out: seq<Card>)
    ensures out == Cards(ShownRows(d), country)
  {
    var data := CatalogFilter.FilterPublicCatalog(d);
    var brands := AllBrands(data.categories);
    out := MergeGroups(brands, country);
  }

  // ---- one card per family and country

  /** The groups with a card are those of the named rows, each once; a card is in stock exactly when a row of its group is. */
  lemma {:induction false} OneCardPerGroup(rows: seq<Row>, country: string)
    ensures var keys := Firsts(rows, Named, Keyed(country)); var cards := Cards(rows, country);
      Distinct(keys) && |cards| == |keys| &&
      (forall key :: key in keys <==> exists r :: r in rows && Named(r) && GroupKey(r, country) == key) &&
      (forall i :: 0 <= i < |cards| ==> (cards[i].inStock <==> GroupInStock(rows, country, keys[i])) && CardOfGroup(cards[i], rows, country, keys[i]))
  {
    var keys := Firsts(rows, Named, Keyed(country));
    FirstsMeans(rows, Named, Keyed(country));
    CardsForAt(rows, country, keys);
    forall i | 0 <= i < |keys|
      ensures (Cards(rows, country)[i].inStock <==> GroupInStock(rows, country, keys[i])) && CardOfGroup(Cards(rows, country)[i], rows, country, keys[i])
    {
      assert keys[i] in keys;
      CardMeans(rows, country, keys[i]);
    }
  }

  predicate InGroup(r: Row, country: string, key: string) { Named(r) && GroupKey(r, country) == key }

  predicate GroupInStock(rows: seq<Row>, country: string, key: string) {
    exists r :: r in rows && InGroup(r, country, key) && !r.outOfStock
  }

  /** The card shows the name of a row of the group, an available one when there is one. */
  predicate CardOfGroup(c: Card, rows: seq<Row>, country: string, key: string) {
    c.rep in rows && InGroup(c.rep, country, key) && c.country == ShownCountry(c.rep, country) && (c.inStock ==> !c.rep.outOfStock)
  }

  lemma {:induction false} CardMeans(rows: seq<Row>, country: string, key: string)
    requires exists r :: r in rows && InGroup(r, country, key)
    ensures var c := CardFor(rows, country, key);
      (c.inStock <==> GroupInStock(rows, country, key)) && CardOfGroup(c, rows, country, key)
  {
    var m := Members(rows, Named, Keyed(country), key);
    MembersMeans(rows, Named, Keyed(country), key);
    assert m != [] by {
      var r :| r in rows && InGroup(r, country, key);
      assert r in m;
    }
    VariantsKeepStock(m);
    var rep := Representative(Variants(m));
    assert rep in Variants(m);
    assert rep in m;
  }

  /** Reordering or repeating rows changes neither which groups have a card nor which cards are in stock. */
  lemma {:induction false} OrderDoesNotMatter(a: seq<Row>, b: seq<Row>, country: string, key: string)
    requires forall r :: r in a <==> r in b
    ensures key in Firsts(a, Named, Keyed(country)) <==> key in Firsts(b, Named, Keyed(country))
    ensures key in Firsts(a, Named, Keyed(country)) ==> CardFor(a, country, key).inStock == CardFor(b, country, key).inStock
  {
    FirstsMeans(a, Named, Keyed(country));
    FirstsMeans(b, Named, Keyed(country));
    if key in Firsts(a, Named, Keyed(country)) {
      CardMeans(a, country, key);
      CardMeans(b, country, key);
    }
  }

  // ---- what a card shows

  /** The row shows the country it is grouped under. */
  predicate TellsCountry(r: Row, country: string) {
    r.countryCode != "" || r.country == "" || Upper(r.country) == Upper(country)
  }

  function ShownKey(c: Card): string { Lower(Family(c)) + "|" + c.country }

  lemma {:induction false} CommonStart(f: string, a: string, b: string)
    ensures f + a == f + b <==> a == b
  {
    assert (f + a)[|f|..] == a && (f + b)[|f|..] == b;
  }

  /** A card made from a row shows the row's group exactly when the row tells its country. */
  lemma {:induction false} RowShowsItsGroupIff(r: Row, country: string, inStock: bool, isEMoney: bool, variants: seq<string>)
    ensures ShownKey(CardOf(r, country, inStock, isEMoney, variants)) == GroupKey(r, country) <==> TellsCountry(r, country)
  {
    CommonStart(Lower(CleanFamilyName(r.family)) + "|", ShownCountry(r, country), Upper(Or(r.countryCode, country)));
  }

  /** The card of a group shows the group's family and country exactly when its representative tells its country. */
  lemma {:induction false} CardsShowTheirGroupsIff(rows: seq<Row>, country: string, key: string)
    requires exists r :: r in rows && InGroup(r, country, key)
    ensures var c := CardFor(rows, country, key); ShownKey(c) == key <==> TellsCountry(c.rep, country)
  {
    var c := CardFor(rows, country, key);
    CardMeans(rows, country, key);
    RowShowsItsGroupIff(c.rep, country, c.inStock, c.isEMoney, c.variants);
  }

  /** When every representative tells its country, no two cards show the same family and country. */
  lemma {:induction false} NoTwoCardsShowTheSame(rows: seq<Row>, country: string, i: nat, j: nat)
    requires i < j < |Cards(rows, country)|
    requires forall c :: c in Cards(rows, country) ==> TellsCountry(c.rep, country)
    ensures ShownKey(Cards(rows, country)[i]) != ShownKey(Cards(rows, country)[j])
  {
    var keys, cards := Firsts(rows, Named, Keyed(country)), Cards(rows, country);
    FirstsMeans(rows, Named, Keyed(country));
    CardsForAt(rows, country, keys);
    assert cards[i] in cards && cards[j] in cards;
    assert keys[i] in keys && keys[j] in keys;
    CardsShowTheirGroupsIff(rows, country, keys[i]);
    CardsShowTheirGroupsIff(rows, country, keys[j]);
  }

  function Variant(countryCode: string, country: string): Row {
    Row("Shop", "", "", countryCode, country, "", [], "", "", false, false, false, false, "", "", "")
  }

  /** Otherwise two cards can show the same family and country. */
  lemma {:induction false} TwoCardsShowTheSame()
    ensures var rows := [Variant("", "DE"), Variant("DE", "")];
      GroupKey(rows[0], "US") != GroupKey(rows[1], "US") &&
      ShownKey(CardFor(rows, "US", GroupKey(rows[0], "US"))) == ShownKey(CardFor(rows, "US", GroupKey(rows[1], "US")))
  {
    var a, b := Variant("", "DE"), Variant("DE", "");
    var rows := [a, b];
    DifferentKeys();
    LoneCard(rows, "US", a);
    LoneCard(rows, "US", b);
  }

  lemma {:induction false} LoneCard(rows: seq<Row>, country: string, r: Row)
    requires r in rows && Named(r) && forall q :: q in rows && GroupKey(q, country) == GroupKey(r, country) ==> q == r
    ensures var c := CardFor(rows, country, GroupKey(r, country)); c.rep == r && c.country == ShownCountry(r, country)
  {
    assert InGroup(r, country, GroupKey(r, country));
    CardMeans(rows, country, GroupKey(r, country));
  }

  lemma {:induction false} DifferentKeys()
    ensures Named(Variant("", "DE")) && GroupKey(Variant("", "DE"), "US") != GroupKey(Variant("DE", ""), "US")
  {
    var f := Lower(CleanFamilyName("Shop")) + "|";
    assert Upper("US")[0] == 'U' && Upper("DE")[0] == 'D';
    CommonStart(f, Upper("US"), Upper("DE"));
    PlainName("Shop");
  }

  /** A name that neither starts with a bracket nor has white space at its ends is its own clean form. */
  lemma {:induction false} PlainName(s: string)
    requires s != "" && s[0] != '[' && !IsSpace(s[0]) && !IsSpace(s[|s| - 1])
    ensures CleanFamilyName(s) == s
  {
    NoLink(s, 0);
  }

  lemma {:induction false} NoLink(s: string, i: nat)
    requires i <= |s| && (s == "" || s[0] != '[')
    ensures LinkEnd(s, i) == |s|
    decreases |s| - i
  {
    if i < |s| { NoLink(s, i + 1); }
  }
}
