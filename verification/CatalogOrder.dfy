/** In which order the grid lists its groups, which row a card shows, and which rows are one product. */
module CatalogOrder {
  import opened JsText
  import opened CatalogRows
  import opened CatalogCards

  // ---- the order of groups

  predicate Carries(rows: seq<Row>, n: int, counts: Row -> bool, key: Row -> string, k: string) {
    0 <= n < |rows| && counts(rows[n]) && key(rows[n]) == k
  }

  /** Row n is the first one with its key. */
  predicate FirstWith(rows: seq<Row>, n: int, counts: Row -> bool, key: Row -> string, k: string) {
    Carries(rows, n, counts, key, k) && forall m :: 0 <= m < n ==> !Carries(rows, m, counts, key, k)
  }

  /** Every key has a first row, and a key listed earlier has an earlier one. */
  lemma {:induction false} KeysInOrder(rows: seq<Row>, counts: Row -> bool, key: Row -> string, i: nat, j: nat, m: nat, n: nat)
    requires i < |Firsts(rows, counts, key)| && j < |Firsts(rows, counts, key)|
    requires FirstWith(rows, m, counts, key, Firsts(rows, counts, key)[i])
    requires FirstWith(rows, n, counts, key, Firsts(rows, counts, key)[j])
    ensures i < j <==> m < n
  {
    var ks := Firsts(rows, counts, key);
    FirstsMeans(rows, counts, key);
    if i < j { EarlierFirst(rows, counts, key, i, j, m, n); }
    if j < i { EarlierFirst(rows, counts, key, j, i, n, m); }
    if i == j { SameFirst(rows, counts, key, ks[i], m, n); }
  }

  lemma {:induction false} EarlierFirst(rows: seq<Row>, counts: Row -> bool, key: Row -> string, i: nat, j: nat, m: nat, n: nat)
    requires i < j < |Firsts(rows, counts, key)|
    requires FirstWith(rows, m, counts, key, Firsts(rows, counts, key)[i])
    requires FirstWith(rows, n, counts, key, Firsts(rows, counts, key)[j])
    ensures m < n
    decreases |rows|
  {
    var front := rows[..|rows| - 1];
    var rest := Firsts(front, counts, key);
    FirstsMeans(front, counts, key);
    if j < |rest| {
      KeyInFront(rows, counts, key, rest[i], m);
      KeyInFront(rows, counts, key, rest[j], n);
      EarlierFirst(front, counts, key, i, j, m, n);
    } else {
      KeyInFront(rows, counts, key, rest[i], m);
      NewKeyLast(rows, counts, key, Firsts(rows, counts, key)[j], n);
    }
  }

  lemma {:induction false} SameFirst(rows: seq<Row>, counts: Row -> bool, key: Row -> string, k: string, m: nat, n: nat)
    requires FirstWith(rows, m, counts, key, k) && FirstWith(rows, n, counts, key, k)
    ensures m == n
  {
    assert Carries(rows, m, counts, key, k) && Carries(rows, n, counts, key, k);
  }

  /** A key the front does not have comes with the last row. */
  lemma {:induction false} NewKeyLast(rows: seq<Row>, counts: Row -> bool, key: Row -> string, k: string, n: nat)
    requires rows != [] && k !in Firsts(rows[..|rows| - 1], counts, key) && FirstWith(rows, n, counts, key, k)
    ensures n == |rows| - 1
  {
    var front := rows[..|rows| - 1];
    FirstsMeans(front, counts, key);
    assert forall x :: 0 <= x < |front| ==> front[x] in front && front[x] == rows[x];
  }

  /** A key of the front has its first row there. */
  lemma {:induction false} KeyInFront(rows: seq<Row>, counts: Row -> bool, key: Row -> string, k: string, m: nat)
    requires rows != [] && k in Firsts(rows[..|rows| - 1], counts, key) && FirstWith(rows, m, counts, key, k)
    ensures m < |rows| - 1 && FirstWith(rows[..|rows| - 1], m, counts, key, k)
  {
    var front := rows[..|rows| - 1];
    FirstsMeans(front, counts, key);
    var r :| r in front && counts(r) && key(r) == k;
    var x :| 0 <= x < |front| && front[x] == r;
    assert Carries(rows, x, counts, key, k);
    forall y | 0 <= y < m ensures !Carries(front, y, counts, key, k) { assert !Carries(rows, y, counts, key, k); }
  }

  /** Of two cards the earlier one is of the group whose first named row comes earlier. */
  lemma {:induction false} CardsInOrder(rows: seq<Row>, country: string, i: nat, j: nat, m: nat, n: nat)
    requires i < |Cards(rows, country)| && j < |Cards(rows, country)|
    requires FirstWith(rows, m, Named, Keyed(country), GroupKey(Cards(rows, country)[i].rep, country))
    requires FirstWith(rows, n, Named, Keyed(country), GroupKey(Cards(rows, country)[j].rep, country))
    ensures i < j <==> m < n
  {
    OneCardPerGroup(rows, country);
    KeysInOrder(rows, Named, Keyed(country), i, j, m, n);
  }

  // ---- which rows are one product

  /** Brand ids that differ in case alone, or, where there are none, family texts that do. */
  predicate SameProduct(a: Row, b: Row) {
    Lower(if a.brandId != "" then a.brandId else a.family) == Lower(if b.brandId != "" then b.brandId else b.family)
  }

  /** Every row of a group has exactly one variant. */
  lemma {:induction false} OneVariantEach(list: seq<Row>, r: Row)
    requires r in list
    ensures exists i :: 0 <= i < |Variants(list)| && SameProduct(Variants(list)[i], r)
    ensures forall i, j :: 0 <= i < j < |Variants(list)| ==> !SameProduct(Variants(list)[i], Variants(list)[j])
  {
    var ids := Firsts(list, Any, VariantId);
    FirstsMeans(list, Any, VariantId);
    assert VariantId(r) in ids;
    forall i | 0 <= i < |ids| ensures VariantId(Variants(list)[i]) == ids[i] { VariantAt(list, i); }
    var i :| 0 <= i < |ids| && ids[i] == VariantId(r);
    assert SameProduct(Variants(list)[i], r);
  }

  lemma {:induction false} VariantAt(list: seq<Row>, i: nat)
    requires i < |Variants(list)|
    ensures var v := Variants(list)[i]; v in list && VariantId(v) == Firsts(list, Any, VariantId)[i]
    ensures var v := Variants(list)[i]; v.outOfStock ==> forall r :: r in list && VariantId(r) == VariantId(v) ==> r.outOfStock
  {
    var id := Firsts(list, Any, VariantId)[i];
    FirstsMeans(list, Any, VariantId);
    assert id in Firsts(list, Any, VariantId);
    VariantMeans(list, id);
  }

  /** A card lists its products exactly when its group has two different ones, and then every one of them once, by brand id. */
  lemma {:induction false} ListsProductsIff(list: seq<Row>, country: string)
    requires list != []
    ensures GroupCard(list, country).variants != [] <==> exists a, b :: a in list && b in list && !SameProduct(a, b)
    ensures GroupCard(list, country).variants != [] ==> GroupCard(list, country).variants == Ids(Variants(list))
  {
    var vs := Variants(list);
    VariantsKeepStock(list);
    assert list[0] in list;
    OneVariantEach(list, list[0]);
    if |vs| > 1 {
      assert vs[0] in vs && vs[1] in vs && !SameProduct(vs[0], vs[1]);
    } else {
      forall a, b | a in list && b in list ensures SameProduct(a, b) {
        OneVariantEach(list, a);
        OneVariantEach(list, b);
      }
    }
  }

  // ---- which row a card shows

  /** Nothing in stock: the card shows the first row. */
  lemma {:induction false} SoldOutShowsFirst(list: seq<Row>, country: string)
    requires list != [] && forall r :: r in list ==> r.outOfStock
    ensures GroupCard(list, country).rep == list[0] && !GroupCard(list, country).inStock
  {
    VariantsKeepStock(list);
    FirstKey(list);
    var m := Members(list, Any, VariantId, VariantId(list[0]));
    FirstMember(list);
    MembersMeans(list, Any, VariantId, VariantId(list[0]));
    FirstPreferred(m);
  }

  lemma {:induction false} FirstKey(list: seq<Row>)
    requires list != []
    ensures Firsts(list, Any, VariantId) != [] && Firsts(list, Any, VariantId)[0] == VariantId(list[0])
  {
    if |list| > 1 {
      FirstKey(list[..|list| - 1]);
    } else {
      assert list[..0] == [];
    }
  }

  lemma {:induction false} FirstMember(list: seq<Row>)
    requires list != []
    ensures var m := Members(list, Any, VariantId, VariantId(list[0])); m != [] && m[0] == list[0]
  {
    if |list| > 1 {
      FirstMember(list[..|list| - 1]);
    } else {
      assert list[..0] == [];
    }
  }

  lemma {:induction false} FirstPreferred(list: seq<Row>)
    requires list != [] && forall r :: r in list ==> r.outOfStock
    ensures Preferred(list) == list[0]
  {
    if |list| > 1 {
      FirstPreferred(list[..|list| - 1]);
      assert list[|list| - 1] in list;
    }
  }

  /** Something in stock: the card shows a row in stock, and every row before the first one of that product is sold out. */
  lemma {:induction false} ShowsEarliestInStock(list: seq<Row>, country: string, n: nat)
    requires AnyInStock(list) && FirstWith(list, n, Any, VariantId, VariantId(GroupCard(list, country).rep))
    ensures !GroupCard(list, country).rep.outOfStock && forall m :: 0 <= m < n ==> list[m].outOfStock
  {
    var vs, ids := Variants(list), Firsts(list, Any, VariantId);
    VariantsKeepStock(list);
    var i := InStockAt(vs);
    VariantAt(list, i);
    forall m | 0 <= m < n ensures list[m].outOfStock { EarlierSoldOut(list, vs, i, n, m); }
  }

  lemma {:induction false} InStockAt(vs: seq<Row>) returns (i: nat)
    requires AnyInStock(vs)
    ensures i < |vs| && vs[i] == FirstInStock(vs) && forall j :: 0 <= j < i ==> vs[j].outOfStock
    decreases |vs|
  {
    if !vs[0].outOfStock {
      i := 0;
    } else {
      var r :| r in vs && !r.outOfStock;
      assert r in vs[1..];
      var k := InStockAt(vs[1..]);
      i := k + 1;
      assert forall j :: 1 <= j < i ==> vs[j] == vs[1..][j - 1];
    }
  }

  lemma {:induction false} EarlierSoldOut(list: seq<Row>, vs: seq<Row>, i: nat, n: nat, m: nat)
    requires vs == Variants(list) && i < |vs| && (forall j :: 0 <= j < i ==> vs[j].outOfStock)
    requires m < n && FirstWith(list, n, Any, VariantId, VariantId(vs[i]))
    ensures list[m].outOfStock
  {
    VariantAt(list, i);
    var j := EarlierKey(list, Any, VariantId, i, n, m);
    VariantAt(list, j);
    assert list[m] in list && vs[j].outOfStock;
  }

  /** The key of a row before the first one with key i is listed before it. */
  lemma {:induction false} EarlierKey(rows: seq<Row>, counts: Row -> bool, key: Row -> string, i: nat, n: nat, m: nat) returns (j: nat)
    requires i < |Firsts(rows, counts, key)| && FirstWith(rows, n, counts, key, Firsts(rows, counts, key)[i])
    requires m < n && counts(rows[m])
    ensures j < i && Firsts(rows, counts, key)[j] == key(rows[m])
  {
    var ks := Firsts(rows, counts, key);
    FirstsMeans(rows, counts, key);
    assert rows[m] in rows && key(rows[m]) in ks;
    j :| 0 <= j < |ks| && ks[j] == key(rows[m]);
    assert Carries(rows, m, counts, key, ks[j]);
    var f := FirstOf(rows, counts, key, ks[j], m);
    KeysInOrder(rows, counts, key, j, i, f, n);
  }

  lemma {:induction false} FirstOf(rows: seq<Row>, counts: Row -> bool, key: Row -> string, k: string, m: nat) returns (f: nat)
    requires Carries(rows, m, counts, key, k)
    ensures f <= m && FirstWith(rows, f, counts, key, k)
  {
    f := m;
    if x :| 0 <= x < m && Carries(rows, x, counts, key, k) { f := FirstOf(rows, counts, key, k, x); }
  }
}
