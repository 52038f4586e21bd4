/** Supplier rows of the catalog, which of them are excluded, and the two ways their family is read. */
module CatalogRows {
  import opened JsText

  /** The text fields are empty when absent. */
  datatype Row = Row(
    family: string, familyName: string, brand: string, countryCode: string, country: string,
    category: string, extraCategories: seq<string>, kind: string, brandId: string,
    isEMoney: bool, kycRequired: bool, requiresKyc: bool, outOfStock: bool,
    min: string, max: string, logo: string)

  datatype Category = Category(category: string, kind: string, brands: seq<Row>)

  datatype Catalog = Catalog(country: string, categories: seq<Category>)

  function Or(a: string, b: string): string { if a != "" then a else b }

  /** Lower case without spaces, underscores and hyphens. */
  function Slug(s: string): string { Squeeze(Lower(Trim(s))) }

  function Squeeze(s: string): string {
    if s == "" then ""
    else (if IsSpace(s[0]) || s[0] == '_' || s[0] == '-' then "" else [s[0]]) + Squeeze(s[1..])
  }

  predicate Includes(s: string, t: string) {
    exists i :: 0 <= i <= |s| - |t| && At(s, i, t)
  }

  predicate At(s: string, i: nat, t: string)
    requires i + |t| <= |s|
  {
    s[i..i + |t|] == t
  }

  /** The position of the first `]`, or the length. */
  function Bracket(s: string): (i: nat)
    ensures i <= |s|
  {
    if s == "" || s[0] == ']' then 0 else 1 + Bracket(s[1..])
  }

  /** The name the exclusion list goes by: the label of a leading link, or the whole. */
  function FamilyName(r: Row): string {
    var name := Trim(Or(Or(r.family, r.familyName), r.brand));
    var i := if name != "" then 1 + Bracket(name[1..]) else 0;
    Lower(if name != "" && name[0] == '[' && 1 < i < |name| then name[1..i] else name)
  }

  function FamilyKey(r: Row, country: string): string {
    FamilyName(r) + "|" + Upper(Or(r.countryCode, country))
  }

  predicate Excluded(r: Row, category: string) {
    Slug(category) == "emoney" || Slug(r.category) == "emoney"
    || (exists i :: 0 <= i < |r.extraCategories| && Slug(r.extraCategories[i]) == "emoney")
    || Includes(Slug(FamilyName(r)), "emoney")
    || r.isEMoney || r.kycRequired || r.requiresKyc
  }

  // ---- the name a card goes by

  predicate LineEnd(c: char) { c as int in {10, 13, 0x2028, 0x2029} }

  predicate OneLine(s: string) { forall i :: 0 <= i < |s| ==> !LineEnd(s[i]) }

  /** Whether s is a whole link whose label ends at i. */
  predicate LinkAt(s: string, i: nat) {
    2 <= i && i + 3 < |s| && s[0] == '[' && s[i] == ']' && s[i + 1] == '(' && s[|s| - 1] == ')'
    && OneLine(s[1..i]) && OneLine(s[i + 2..|s| - 1])
  }

  /** The first position from i on where a link label can end, or the length. */
  function LinkEnd(s: string, i: nat): (e: nat)
    requires i <= |s|
    ensures e == |s| || LinkAt(s, e)
    decreases |s| - i
  {
    if i == |s| || LinkAt(s, i) then i else LinkEnd(s, i + 1)
  }

  function CleanFamilyName(name: string): string {
    var s := Trim(name);
    var i := LinkEnd(s, 0);
    if i < |s| then Trim(s[1..i]) else s
  }
}
