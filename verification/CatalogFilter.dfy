/** The public filter: a family with one excluded variant goes as a whole, and nothing else goes. */
module CatalogFilter {
  import opened CatalogRows

  /** What excludes a row in a category, which family a row is of, and which categories go whole. */
  datatype Rules = Rules(excluded: (Row, string) -> bool, key: (Row, string) -> string, dropped: string -> bool)

  /** The rules of the public shop. */
  const PUBLIC: Rules := Rules((r, c) => Excluded(r, c), (r, k) => FamilyKey(r, k), c => Slug(c) == "emoney")

  /** A row together with the category it stands in. */
  datatype Placed = Placed(row: Row, place: Category)

  function PlacedIn(rows: seq<Row>, c: Category): seq<Placed> {
    seq(|rows|, i requires 0 <= i < |rows| => Placed(rows[i], c))
  }

  function Places(cs: seq<Category>): seq<Placed> {
    if cs == [] then [] else PlacedIn(cs[0].brands, cs[0]) + Places(cs[1..])
  }

  predicate IsExcluded(x: Rules, p: Placed) { x.excluded(p.row, p.place.category) }

  function KeyAt(x: Rules, p: Placed, country: string): string { x.key(p.row, country) }

  /** The families that have an excluded variant. */
  function Blocked(x: Rules, ps: seq<Placed>, country: string): set<string> {
    if ps == [] then {}
    else
      var p := ps[|ps| - 1];
      var rest := Blocked(x, ps[..|ps| - 1], country);
      if IsExcluded(x, p) then rest + {KeyAt(x, p, country)} else rest
  }

  /** A kept row takes the category and kind of its place where it has none. */
  function Annotated(r: Row, c: Category): Row {
    r.(category := Or(r.category, c.category), kind := Or(r.kind, c.kind))
  }

  function KeptRows(x: Rules, rows: seq<Row>, c: Category, blocked: set<string>, country: string): seq<Row> {
    if rows == [] then []
    else
      var rest := KeptRows(x, rows[1..], c, blocked, country);
      if x.excluded(rows[0], c.category) || x.key(rows[0], country) in blocked then rest
      else [Annotated(rows[0], c)] + rest
  }

  function KeptCategory(x: Rules, c: Category, blocked: set<string>, country: string): seq<Category> {
    if x.dropped(c.category) then []
    else
      var brands := KeptRows(x, c.brands, c, blocked, country);
      if brands == [] then [] else [c.(brands := brands)]
  }

  function KeptCategories(x: Rules, cs: seq<Category>, blocked: set<string>, country: string): seq<Category> {
    if cs == [] then [] else KeptCategory(x, cs[0], blocked, country) + KeptCategories(x, cs[1..], blocked, country)
  }

  function BlockedBy(x: Rules, d: Catalog): set<string> { Blocked(x, Places(d.categories), d.country) }

  function Filtered(x: Rules, d: Catalog): Catalog {
    d.(categories := KeptCategories(x, d.categories, BlockedBy(x, d), d.country))
  }

  lemma {:induction false} PlacesSnoc(cs: seq<Category>, i: nat)
    requires i < |cs|
    ensures Places(cs[..i + 1]) == Places(cs[..i]) + PlacedIn(cs[i].brands, cs[i])
    decreases i
  {
    if i > 0 {
      var rest := cs[1..];
      PlacesSnoc(rest, i - 1);
      assert cs[..i + 1][1..] == rest[..i] && cs[..i][1..] == rest[..i - 1];
      assert rest[i - 1] == cs[i];
    } else {
      assert cs[..1][1..] == [] && cs[..0] == [];
    }
  }

  method BlockedFamilies(x: Rules, d: Catalog) returns (blocked: set<string>)
    ensures blocked == BlockedBy(x, d)
  {
    blocked := {};
    for i := 0 to |d.categories|
      invariant blocked == Blocked(x, Places(d.categories[..i]), d.country)
    {
      var cat := d.categories[i];
      ghost var before := Places(d.categories[..i]);
      ghost var here := PlacedIn(cat.brands, cat);
      assert before + here[..0] == before;
      for j := 0 to |cat.brands|
        invariant blocked == Blocked(x, before + here[..j], d.country)
      {
        BlockedSnoc(x, before, here, j, d.country);
        if x.excluded(cat.brands[j], cat.category) { blocked := blocked + {x.key(cat.brands[j], d.country)}; }
      }
      assert here[..|cat.brands|] == here;
      PlacesSnoc(d.categories, i);
    }
    assert d.categories[..|d.categories|] == d.categories;
  }

  lemma {:induction false} BlockedSnoc(x: Rules, before: seq<Placed>, here: seq<Placed>, j: nat, country: string)
    requires j < |here|
    ensures Blocked(x, before + here[..j + 1], country) ==
      Blocked(x, before + here[..j], country) + if IsExcluded(x, here[j]) then {KeyAt(x, here[j], country)} else {}
  {
    assert (before + here[..j + 1])[..|before| + j] == before + here[..j];
  }

  method FilterPublicCatalog(d: Catalog) returns (r: Catalog)
    ensures r == Filtered(PUBLIC, d)
  {
    var blocked := BlockedFamilies(PUBLIC, d);
    r := d.(categories := KeptCategories(PUBLIC, d.categories, blocked, d.country));
  }

  /** A dropped category excludes all its rows; annotating a row changes neither its exclusion nor its family. */
  ghost predicate Lawful(x: Rules) {
    (forall r, c: Category {:trigger x.excluded(r, c.category)} :: x.dropped(c.category) ==> x.excluded(r, c.category))
    && (forall r, c {:trigger Annotated(r, c)} :: x.excluded(Annotated(r, c), c.category) == x.excluded(r, c.category))
    && (forall r, c, k {:trigger x.key(Annotated(r, c), k)} :: x.key(Annotated(r, c), k) == x.key(r, k))
  }

  lemma {:induction false} PublicRulesLawful()
    ensures Lawful(PUBLIC)
  {
    forall r, c ensures Excluded(Annotated(r, c), c.category) == Excluded(r, c.category) { AnnotatedSame(r, c); }
  }

  lemma {:induction false} AnnotatedSame(r: Row, c: Category)
    ensures Excluded(Annotated(r, c), c.category) == Excluded(r, c.category)
    ensures FamilyName(Annotated(r, c)) == FamilyName(r)
  {
    var a := Annotated(r, c);
    assert FamilyName(a) == FamilyName(r);
    assert a.extraCategories == r.extraCategories;
  }

  // ---- exactly the families without an excluded variant stay

  predicate Marks(x: Rules, p: Placed, country: string, key: string) { IsExcluded(x, p) && KeyAt(x, p, country) == key }

  /** Some row of the family is excluded. */
  predicate FamilyExcluded(x: Rules, ps: seq<Placed>, country: string, key: string) {
    exists i :: 0 <= i < |ps| && Marks(x, ps[i], country, key)
  }

  lemma {:induction false} BlockedMeans(x: Rules, ps: seq<Placed>, country: string, key: string)
    ensures key in Blocked(x, ps, country) <==> FamilyExcluded(x, ps, country, key)
  {
    if ps != [] {
      var n := |ps| - 1;
      var front := ps[..n];
      BlockedMeans(x, front, country, key);
      assert forall i :: 0 <= i < n ==> front[i] == ps[i];
      if FamilyExcluded(x, ps, country, key) {
        var i :| 0 <= i < |ps| && Marks(x, ps[i], country, key);
        assert i < n ==> Marks(x, front[i], country, key);
      }
    }
  }

  /** The rows whose family is not blocked, in order, each annotated from its place. */
  function Survivors(x: Rules, ps: seq<Placed>, blocked: set<string>, country: string): seq<Row> {
    if ps == [] then []
    else
      var rest := Survivors(x, ps[1..], blocked, country);
      if KeyAt(x, ps[0], country) in blocked then rest else [Annotated(ps[0].row, ps[0].place)] + rest
  }

  function AllRows(cs: seq<Category>): seq<Row> {
    if cs == [] then [] else cs[0].brands + AllRows(cs[1..])
  }

  lemma {:induction false} SurvivorsConcat(x: Rules, a: seq<Placed>, b: seq<Placed>, blocked: set<string>, country: string)
    ensures Survivors(x, a + b, blocked, country) == Survivors(x, a, blocked, country) + Survivors(x, b, blocked, country)
  {
    if a == [] {
      assert a + b == b;
    } else {
      assert (a + b)[1..] == a[1..] + b;
      SurvivorsConcat(x, a[1..], b, blocked, country);
    }
  }

  predicate Blocks(x: Rules, blocked: set<string>, ps: seq<Placed>, country: string) {
    forall i :: 0 <= i < |ps| && IsExcluded(x, ps[i]) ==> KeyAt(x, ps[i], country) in blocked
  }

  /** With every excluded row blocked, filtering one category keeps its unblocked rows. */
  lemma {:induction false} KeptRowsMeans(x: Rules, rows: seq<Row>, c: Category, blocked: set<string>, country: string)
    requires Blocks(x, blocked, PlacedIn(rows, c), country)
    ensures KeptRows(x, rows, c, blocked, country) == Survivors(x, PlacedIn(rows, c), blocked, country)
  {
    if rows != [] {
      var ps := PlacedIn(rows, c);
      assert ps[0] == Placed(rows[0], c) && ps[1..] == PlacedIn(rows[1..], c);
      KeptRowsMeans(x, rows[1..], c, blocked, country);
    }
  }

  /** An e-money category is excluded row by row, so dropping it whole drops nothing more. */
  lemma {:induction false} KeptCategoryMeans(x: Rules, c: Category, blocked: set<string>, country: string)
    requires Lawful(x) && Blocks(x, blocked, PlacedIn(c.brands, c), country)
    ensures AllRows(KeptCategory(x, c, blocked, country)) == Survivors(x, PlacedIn(c.brands, c), blocked, country)
  {
    KeptRowsMeans(x, c.brands, c, blocked, country);
    if x.dropped(c.category) { NoneKept(x, c.brands, c, blocked, country); }
    var kept := KeptRows(x, c.brands, c, blocked, country);
    assert AllRows([c.(brands := kept)]) == kept + AllRows([]) by { assert [c.(brands := kept)][1..] == []; }
  }

  lemma {:induction false} NoneKept(x: Rules, rows: seq<Row>, c: Category, blocked: set<string>, country: string)
    requires Lawful(x) && x.dropped(c.category)
    ensures KeptRows(x, rows, c, blocked, country) == []
  {
    if rows != [] { NoneKept(x, rows[1..], c, blocked, country); }
  }

  lemma {:induction false} AllRowsConcat(a: seq<Category>, b: seq<Category>)
    ensures AllRows(a + b) == AllRows(a) + AllRows(b)
  {
    if a == [] {
      assert a + b == b;
    } else {
      assert (a + b)[1..] == a[1..] + b;
      AllRowsConcat(a[1..], b);
    }
  }

  lemma {:induction false} KeptCategoriesMeans(x: Rules, cs: seq<Category>, blocked: set<string>, country: string)
    requires Lawful(x) && Blocks(x, blocked, Places(cs), country)
    ensures AllRows(KeptCategories(x, cs, blocked, country)) == Survivors(x, Places(cs), blocked, country)
  {
    if cs != [] {
      var a, b := PlacedIn(cs[0].brands, cs[0]), Places(cs[1..]);
      BlocksParts(x, blocked, a, b, country);
      KeptCategoryMeans(x, cs[0], blocked, country);
      KeptCategoriesMeans(x, cs[1..], blocked, country);
      AllRowsConcat(KeptCategory(x, cs[0], blocked, country), KeptCategories(x, cs[1..], blocked, country));
      SurvivorsConcat(x, a, b, blocked, country);
    }
  }

  lemma {:induction false} BlocksParts(x: Rules, blocked: set<string>, a: seq<Placed>, b: seq<Placed>, country: string)
    requires Blocks(x, blocked, a + b, country)
    ensures Blocks(x, blocked, a, country) && Blocks(x, blocked, b, country)
  {
    assert forall i :: 0 <= i < |a| ==> a[i] == (a + b)[i];
    assert forall i :: 0 <= i < |b| ==> b[i] == (a + b)[|a| + i];
  }

  /** The rows of the filtered catalog are, in order, those whose family has no excluded variant anywhere. */
  lemma {:induction false} FilterKeepsExactly(x: Rules, d: Catalog)
    requires Lawful(x)
    ensures AllRows(Filtered(x, d).categories) == Survivors(x, Places(d.categories), BlockedBy(x, d), d.country)
    ensures forall key :: key in BlockedBy(x, d) <==> FamilyExcluded(x, Places(d.categories), d.country, key)
  {
    var ps := Places(d.categories);
    forall key ensures key in BlockedBy(x, d) <==> FamilyExcluded(x, ps, d.country, key) {
      BlockedMeans(x, ps, d.country, key);
    }
    forall i | 0 <= i < |ps| && IsExcluded(x, ps[i]) ensures KeyAt(x, ps[i], d.country) in BlockedBy(x, d) {
      assert Marks(x, ps[i], d.country, KeyAt(x, ps[i], d.country));
      assert FamilyExcluded(x, ps, d.country, KeyAt(x, ps[i], d.country));
    }
    KeptCategoriesMeans(x, d.categories, BlockedBy(x, d), d.country);
  }

  lemma {:induction false} SurvivorMember(x: Rules, ps: seq<Placed>, blocked: set<string>, country: string, r: Row)
    ensures r in Survivors(x, ps, blocked, country) <==>
      exists i :: 0 <= i < |ps| && KeyAt(x, ps[i], country) !in blocked && r == Annotated(ps[i].row, ps[i].place)
  {
    if ps != [] {
      SurvivorMember(x, ps[1..], blocked, country, r);
      assert forall i :: 0 <= i < |ps[1..]| ==> ps[1..][i] == ps[i + 1];
      if r in Survivors(x, ps[1..], blocked, country) {
        var i :| 0 <= i < |ps[1..]| && KeyAt(x, ps[1..][i], country) !in blocked && r == Annotated(ps[1..][i].row, ps[1..][i].place);
        assert KeyAt(x, ps[i + 1], country) !in blocked;
      }
      if i :| 0 <= i < |ps| && KeyAt(x, ps[i], country) !in blocked && r == Annotated(ps[i].row, ps[i].place) {
        if i > 0 { assert KeyAt(x, ps[1..][i - 1], country) !in blocked; }
      }
    }
  }

  // ---- filtering twice

  predicate StableRow(x: Rules, r: Row, c: Category) { !x.excluded(r, c.category) && Annotated(r, c) == r }

  predicate Stable(x: Rules, c: Category) {
    c.brands != [] && !x.dropped(c.category) && forall i :: 0 <= i < |c.brands| ==> StableRow(x, c.brands[i], c)
  }

  predicate AllStable(x: Rules, cs: seq<Category>) { forall i :: 0 <= i < |cs| ==> Stable(x, cs[i]) }

  lemma {:induction false} AnnotatedStable(x: Rules, r: Row, c: Category)
    requires Lawful(x) && !x.excluded(r, c.category)
    ensures StableRow(x, Annotated(r, c), c)
  {
    assert Annotated(Annotated(r, c), c) == Annotated(r, c);
  }

  lemma {:induction false} KeptRowsStable(x: Rules, rows: seq<Row>, c: Category, blocked: set<string>, country: string)
    requires Lawful(x)
    ensures forall r :: r in KeptRows(x, rows, c, blocked, country) ==> StableRow(x, r, c)
  {
    if rows != [] {
      KeptRowsStable(x, rows[1..], c, blocked, country);
      if !x.excluded(rows[0], c.category) { AnnotatedStable(x, rows[0], c); }
    }
  }

  lemma {:induction false} SamePlace(x: Rules, r: Row, c: Category, brands: seq<Row>)
    ensures StableRow(x, r, c) <==> StableRow(x, r, c.(brands := brands))
  {
  }

  lemma {:induction false} KeptStable(x: Rules, cs: seq<Category>, blocked: set<string>, country: string)
    requires Lawful(x)
    ensures AllStable(x, KeptCategories(x, cs, blocked, country))
  {
    if cs != [] {
      var c := cs[0];
      var brands := KeptRows(x, c.brands, c, blocked, country);
      KeptStable(x, cs[1..], blocked, country);
      KeptRowsStable(x, c.brands, c, blocked, country);
      forall i | 0 <= i < |brands| ensures StableRow(x, brands[i], c.(brands := brands)) {
        assert brands[i] in brands;
        SamePlace(x, brands[i], c, brands);
      }
      assert AllStable(x, KeptCategory(x, c, blocked, country));
    }
  }

  lemma {:induction false} StablePlaces(x: Rules, cs: seq<Category>)
    requires AllStable(x, cs)
    ensures forall i :: 0 <= i < |Places(cs)| ==> !IsExcluded(x, Places(cs)[i])
  {
    if cs != [] {
      assert AllStable(x, cs[1..]) by { assert forall i :: 0 <= i < |cs[1..]| ==> cs[1..][i] == cs[i + 1]; }
      StablePlaces(x, cs[1..]);
      var a := PlacedIn(cs[0].brands, cs[0]);
      forall i | 0 <= i < |a| ensures !IsExcluded(x, a[i]) {
        assert Stable(x, cs[0]);
        assert StableRow(x, cs[0].brands[i], cs[0]);
      }
    }
  }

  lemma {:induction false} NoneBlocked(x: Rules, ps: seq<Placed>, country: string)
    requires forall i :: 0 <= i < |ps| ==> !IsExcluded(x, ps[i])
    ensures Blocked(x, ps, country) == {}
  {
    if ps != [] {
      NoneBlocked(x, ps[..|ps| - 1], country);
    }
  }

  lemma {:induction false} StableRowsKept(x: Rules, rows: seq<Row>, c: Category, country: string)
    requires forall i :: 0 <= i < |rows| ==> StableRow(x, rows[i], c)
    ensures KeptRows(x, rows, c, {}, country) == rows
  {
    if rows != [] {
      assert StableRow(x, rows[0], c);
      StableRowsKept(x, rows[1..], c, country);
    }
  }

  lemma {:induction false} StableKept(x: Rules, cs: seq<Category>, country: string)
    requires AllStable(x, cs)
    ensures KeptCategories(x, cs, {}, country) == cs
  {
    if cs != [] {
      assert Stable(x, cs[0]);
      assert AllStable(x, cs[1..]) by { assert forall i :: 0 <= i < |cs[1..]| ==> cs[1..][i] == cs[i + 1]; }
      StableRowsKept(x, cs[0].brands, cs[0], country);
      StableKept(x, cs[1..], country);
    }
  }

  /** Filtering a filtered catalog changes nothing. */
  lemma {:induction false} FilterIdempotent(x: Rules, d: Catalog)
    requires Lawful(x)
    ensures Filtered(x, Filtered(x, d)) == Filtered(x, d)
  {
    var cs := Filtered(x, d).categories;
    KeptStable(x, d.categories, BlockedBy(x, d), d.country);
    StablePlaces(x, cs);
    NoneBlocked(x, Places(cs), d.country);
    StableKept(x, cs, d.country);
  }
}
