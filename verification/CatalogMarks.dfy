/** Which marks keep a family out of the public shop, and that without any of them everything stays. */
module CatalogMarks {
  import opened JsText
  import opened CatalogRows
  import opened CatalogFilter
  import opened CatalogCards
  import opened CatalogGrid

  // ---- how a category may be written

  predicate Gap(c: char) { IsSpace(c) || c == '_' || c == '-' }

  lemma {:induction false} SqueezeOne(c: char)
    requires Gap(c)
    ensures Squeeze([c]) == ""
  {
    assert [c][1..] == "";
  }

  lemma {:induction false} StartSqueezed(s: string)
    ensures Squeeze(TrimStartBy(IsSpace, s)) == Squeeze(s)
  {
    if s != "" && IsSpace(s[0]) { StartSqueezed(s[1..]); }
  }

  lemma {:induction false} EndSqueezed(s: string)
    ensures Squeeze(TrimEndBy(IsSpace, s)) == Squeeze(s)
  {
    if s != "" && IsSpace(s[|s| - 1]) {
      var front := s[..|s| - 1];
      EndSqueezed(front);
      SqueezeConcat(front, [s[|s| - 1]]);
      SqueezeOne(s[|s| - 1]);
      assert s == front + [s[|s| - 1]];
    }
  }

  lemma {:induction false} TrimLower(s: string)
    ensures Lower(Trim(s)) == Trim(Lower(s))
  {
    StartLower(s);
    EndLower(TrimStartBy(IsSpace, s));
  }

  lemma {:induction false} StartLower(s: string)
    ensures Lower(TrimStartBy(IsSpace, s)) == TrimStartBy(IsSpace, Lower(s))
  {
    if s != "" && IsSpace(s[0]) {
      StartLower(s[1..]);
      assert Lower(s)[1..] == Lower(s[1..]);
    }
  }

  lemma {:induction false} EndLower(s: string)
    ensures Lower(TrimEndBy(IsSpace, s)) == TrimEndBy(IsSpace, Lower(s))
  {
    if s != "" && IsSpace(s[|s| - 1]) {
      EndLower(s[..|s| - 1]);
      assert Lower(s)[..|s| - 1] == Lower(s[..|s| - 1]);
    }
  }

  /** A slug is the text in small letters without its gaps. */
  lemma {:induction false} SlugIs(s: string)
    ensures Slug(s) == Squeeze(Lower(s))
  {
    TrimLower(s);
    StartSqueezed(Lower(s));
    EndSqueezed(TrimStartBy(IsSpace, Lower(s)));
  }

  lemma {:induction false} SqueezeGap(a: string, c: char, b: string)
    requires Gap(c)
    ensures Squeeze(a + ([c] + b)) == Squeeze(a + b)
  {
    SqueezeConcat(a, [c] + b);
    SqueezeConcat(a, b);
    assert ([c] + b)[1..] == b;
  }

  lemma {:induction false} LowerGap(s: string, c: char, t: string)
    requires Gap(c)
    ensures Lower(s + [c] + t) == Lower(s) + ([c] + Lower(t)) && Lower(s + t) == Lower(s) + Lower(t)
  {
  }

  /** Gaps do not matter, wherever they stand. */
  lemma {:induction false} GapIgnored(s: string, c: char, t: string)
    requires Gap(c)
    ensures Slug(s + [c] + t) == Slug(s + t)
  {
    SlugIs(s + [c] + t);
    SlugIs(s + t);
    LowerGap(s, c, t);
    SqueezeGap(Lower(s), c, Lower(t));
  }

  /** Nor does case. */
  lemma {:induction false} SlugCase(s: string, t: string)
    requires Lower(s) == Lower(t)
    ensures Slug(s) == Slug(t)
  {
    SlugIs(s);
    SlugIs(t);
  }

  // ---- one marked row hides its family

  /** The row is marked itself, or stands in or names an e-money category. */
  predicate Marked(p: Placed) {
    || p.row.isEMoney || p.row.kycRequired || p.row.requiresKyc
    || Slug(p.place.category) == "emoney" || Slug(p.row.category) == "emoney"
    || exists i :: 0 <= i < |p.row.extraCategories| && Slug(p.row.extraCategories[i]) == "emoney"
  }

  /** Each mark by itself keeps the whole family out: no row that is shown belongs to it. */
  lemma {:induction false} MarkedFamilyHidden(d: Catalog, p: Placed, r: Row)
    requires p in Places(d.categories) && Marked(p) && r in ShownRows(d)
    ensures FamilyKey(r, d.country) != FamilyKey(p.row, d.country)
  {
    var q := PlaceOf(d, r);
    MarkedExcluded(p);
    if KeyAt(PUBLIC, p, d.country) == KeyAt(PUBLIC, q, d.country) { SurvivorNotExcluded(PUBLIC, d, q, p); }
  }

  /** A shown row comes from a place whose family is not excluded. */
  lemma {:induction false} PlaceOf(d: Catalog, r: Row) returns (q: Placed)
    requires r in ShownRows(d)
    ensures q in Places(d.categories) && Survives(PUBLIC, d, q) && FamilyName(r) == FamilyName(q.row)
    ensures FamilyKey(r, d.country) == KeyAt(PUBLIC, q, d.country)
  {
    PublicRulesLawful();
    LeftMeans(PUBLIC, d, r);
    q :| q in Places(d.categories) && Survives(PUBLIC, d, q) && r == Annotated(q.row, q.place);
    AnnotatedSame(q.row, q.place);
  }

  lemma {:induction false} MarkedExcluded(p: Placed)
    requires Marked(p)
    ensures IsExcluded(PUBLIC, p)
  {
  }

  /** So does a family name that spells e-money. */
  lemma {:induction false} NamedFamilyHidden(d: Catalog, r: Row)
    requires r in ShownRows(d)
    ensures !Includes(Slug(FamilyName(r)), "emoney")
  {
    var q := PlaceOf(d, r);
    SurvivorNotExcluded(PUBLIC, d, q, q);
  }

  /** Without a mark and such a name anywhere, every row is shown. */
  lemma {:induction false} UnmarkedAllShown(d: Catalog, p: Placed)
    requires p in Places(d.categories)
    requires forall q :: q in Places(d.categories) ==> !Marked(q) && !Includes(Slug(FamilyName(q.row)), "emoney")
    ensures Annotated(p.row, p.place) in ShownRows(d)
  {
    PublicRulesLawful();
    NothingExcluded(d, KeyAt(PUBLIC, p, d.country));
    LeftMeans(PUBLIC, d, Annotated(p.row, p.place));
  }

  lemma {:induction false} NothingExcluded(d: Catalog, key: string)
    requires forall q :: q in Places(d.categories) ==> !Marked(q) && !Includes(Slug(FamilyName(q.row)), "emoney")
    ensures !FamilyExcluded(PUBLIC, Places(d.categories), d.country, key)
  {
    var ps := Places(d.categories);
    forall i | 0 <= i < |ps| ensures !Marks(PUBLIC, ps[i], d.country, key) { assert ps[i] in ps; }
  }

  // ---- what a family is

  /** Families are told apart by name and country code, whatever its case. */
  lemma {:induction false} FamilyKeyIff(r: Row, q: Row, country: string)
    requires |Or(r.countryCode, country)| == |Or(q.countryCode, country)|
    ensures FamilyKey(r, country) == FamilyKey(q, country) <==>
      FamilyName(r) == FamilyName(q) && Upper(Or(r.countryCode, country)) == Upper(Or(q.countryCode, country))
  {
    var a, b, u, v := FamilyName(r), FamilyName(q), Upper(Or(r.countryCode, country)), Upper(Or(q.countryCode, country));
    if a + "|" + u == b + "|" + v {
      assert |a| == |b|;
      assert a == (a + "|" + u)[..|a|] && b == (b + "|" + v)[..|b|];
      assert u == (a + "|" + u)[|a| + 1..] && v == (b + "|" + v)[|b| + 1..];
    }
  }

  /** A name without brackets is taken as it is, apart from case and outer blanks. */
  lemma {:induction false} PlainFamilyName(r: Row, name: string)
    requires Trim(name) == name != "" && name[0] != '[' && r.family == name
    ensures FamilyName(r) == Lower(name)
  {
  }

  /** The first of family, family name and brand that is there gives the name. */
  lemma {:induction false} FirstNameCounts(r: Row, q: Row)
    requires r.family != "" ==> q.family == r.family
    requires r.family == "" && r.familyName != "" ==> Or(q.family, q.familyName) == r.familyName
    requires r.family == "" && r.familyName == "" ==> Or(Or(q.family, q.familyName), q.brand) == r.brand
    ensures FamilyName(q) == FamilyName(r)
  {
  }
}
