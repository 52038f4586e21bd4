/** Filter and cards together: which excluded rows can still have a card of their own group. */
module CatalogGrid {
  import opened JsText
  import opened CatalogRows
  import opened CatalogFilter
  import opened CatalogCards

  /** No row of the family is excluded. */
  predicate Survives(x: Rules, d: Catalog, p: Placed) {
    !FamilyExcluded(x, Places(d.categories), d.country, KeyAt(x, p, d.country))
  }

  /** The rows that are left under the rules. */
  function Left(x: Rules, d: Catalog): seq<Row> { AllRows(Filtered(x, d).categories) }

  /** What is left is exactly the annotated rows of families without an excluded row. */
  lemma {:induction false} LeftMeans(x: Rules, d: Catalog, r: Row)
    requires Lawful(x)
    ensures r in Left(x, d) <==> exists p :: p in Places(d.categories) && Survives(x, d, p) && r == Annotated(p.row, p.place)
  {
    var ps := Places(d.categories);
    FilterKeepsExactly(x, d);
    SurvivorMember(x, ps, BlockedBy(x, d), d.country, r);
    if r in Left(x, d) {
      var i :| 0 <= i < |ps| && KeyAt(x, ps[i], d.country) !in BlockedBy(x, d) && r == Annotated(ps[i].row, ps[i].place);
      assert ps[i] in ps && Survives(x, d, ps[i]);
    }
    if p :| p in ps && Survives(x, d, p) && r == Annotated(p.row, p.place) {
      var i :| 0 <= i < |ps| && ps[i] == p;
      assert KeyAt(x, ps[i], d.country) !in BlockedBy(x, d);
    }
  }

  lemma {:induction false} SurvivorNotExcluded(x: Rules, d: Catalog, p: Placed, q: Placed)
    requires Survives(x, d, p) && q in Places(d.categories) && KeyAt(x, q, d.country) == KeyAt(x, p, d.country)
    ensures !IsExcluded(x, q)
  {
    var ps := Places(d.categories);
    var i :| 0 <= i < |ps| && ps[i] == q;
    assert !Marks(x, ps[i], d.country, KeyAt(x, p, d.country));
  }

  predicate SameGroup(a: Row, b: Row, country: string) { Named(a) && Named(b) && GroupKey(a, country) == GroupKey(b, country) }

  /** Rows the grid puts in one group belong to one family of the filter. */
  predicate KeysAgree(x: Rules, d: Catalog, country: string) {
    forall p, q :: p in Places(d.categories) && q in Places(d.categories) && SameGroup(p.row, q.row, country) ==>
      KeyAt(x, p, d.country) == KeyAt(x, q, d.country)
  }

  /**
   A group has a card exactly when one of its rows belongs to a family without an excluded
   row: excluded rows of the group itself do not matter.
   */
  lemma {:induction false} GroupHasCardIff(d: Catalog, country: string, key: string)
    ensures key in Firsts(ShownRows(d), Named, Keyed(country)) <==>
      exists p :: p in Places(d.categories) && InGroup(p.row, country, key) && Survives(PUBLIC, d, p)
  {
    FirstsMeans(ShownRows(d), Named, Keyed(country));
    PublicRulesLawful();
    if key in Firsts(ShownRows(d), Named, Keyed(country)) {
      var r :| r in ShownRows(d) && Named(r) && GroupKey(r, country) == key;
      LeftMeans(PUBLIC, d, r);
      var p :| p in Places(d.categories) && Survives(PUBLIC, d, p) && r == Annotated(p.row, p.place);
      assert InGroup(p.row, country, key);
    }
    if p :| p in Places(d.categories) && InGroup(p.row, country, key) && Survives(PUBLIC, d, p) {
      LeftMeans(PUBLIC, d, Annotated(p.row, p.place));
      assert InGroup(Annotated(p.row, p.place), country, key);
    }
  }

  /** Where the two keys agree, no card stands for a group that had an excluded row before the filter. */
  lemma {:induction false} NoCardOverExcluded(d: Catalog, country: string, key: string, q: Placed)
    requires KeysAgree(PUBLIC, d, country) && key in Firsts(ShownRows(d), Named, Keyed(country))
    requires q in Places(d.categories) && Named(q.row) && GroupKey(q.row, country) == key
    ensures !IsExcluded(PUBLIC, q)
  {
    GroupHasCardIff(d, country, key);
    var p :| p in Places(d.categories) && InGroup(p.row, country, key) && Survives(PUBLIC, d, p);
    assert SameGroup(p.row, q.row, country);
    SurvivorNotExcluded(PUBLIC, d, p, q);
  }

  function Listed(family: string, kyc: bool): Row {
    Row(family, "", "", "US", "", "", [], "", "", false, kyc, false, false, "", "", "")
  }

  const LINKED := "[ X ](u)"

  function Shop(): Catalog { Catalog("US", [Category("gift", "", [Listed(LINKED, true), Listed("X", false)])]) }

  /** The grid trims the label of a link, the filter does not: one group, two families. */
  lemma {:induction false} TwoFamiliesOneGroup()
    ensures GroupKey(Listed(LINKED, true), "US") == GroupKey(Listed("X", false), "US") && Named(Listed("X", false))
    ensures FamilyName(Listed(LINKED, true)) != FamilyName(Listed("X", false))
  {
    PlainName("X");
    LinkedName();
    assert Lower("X") == "x" && Lower(" X ")[0] == ' ';
    PlainFamily();
    LinkedFamily();
  }

  lemma {:induction false} LinkedName()
    ensures CleanFamilyName(LINKED) == "X"
  {
    var s := LINKED;
    assert s[0] == '[' && s[7] == ')' && |s| == 8;
    assert Trim(s) == s;
    assert s[4] == ']' && s[5] == '(' && s[1..4] == " X " && s[6..7] == "u";
    assert LinkAt(s, 4);
    assert s[0] != ']' && s[1] != ']' && s[2] != ']' && s[3] != ']';
    assert LinkEnd(s, 4) == 4;
    assert LinkEnd(s, 3) == 4;
    assert LinkEnd(s, 2) == 4;
    assert LinkEnd(s, 1) == 4;
    assert LinkEnd(s, 0) == 4;
    assert TrimStartBy(IsSpace, " X ") == "X " by { assert " X "[1..] == "X "; }
    assert TrimEndBy(IsSpace, "X ") == "X" by { assert "X "[..1] == "X"; }
  }

  lemma {:induction false} LinkedFamily()
    ensures FamilyName(Listed(LINKED, true)) == Lower(" X ")
  {
    var s := LINKED;
    assert s[0] == '[' && s[7] == ')' && |s| == 8;
    assert Trim(s) == s;
    var t := s[1..];
    assert t == " X ](u)";
    assert t[3] == ']' && t[0] != ']' && t[1] != ']' && t[2] != ']';
    BracketAt(t, 3);
    assert s[1..4] == " X ";
  }

  lemma {:induction false} BracketAt(s: string, i: nat)
    requires i < |s| && s[i] == ']' && forall j :: 0 <= j < i ==> s[j] != ']'
    ensures Bracket(s) == i
  {
    if i > 0 { BracketAt(s[1..], i - 1); }
  }

  lemma {:induction false} ShopPlaces()
    ensures var c := Shop().categories[0]; Places(Shop().categories) == [Placed(Listed(LINKED, true), c), Placed(Listed("X", false), c)]
  {
    assert Shop().categories[1..] == [];
  }

  lemma {:induction false} PlainSurvives()
    ensures Survives(PUBLIC, Shop(), Placed(Listed("X", false), Shop().categories[0]))
  {
    ShopPlaces();
    NotExcludedPlain();
    KeysDiffer();
  }

  /** Then an excluded row and a card share a group. */
  lemma {:induction false} CardOverExcluded()
    ensures var d := Shop(); var q := Placed(Listed(LINKED, true), d.categories[0]);
      q in Places(d.categories) && IsExcluded(PUBLIC, q) && GroupKey(q.row, "US") in Firsts(ShownRows(d), Named, Keyed("US"))
  {
    var d := Shop();
    var p := Placed(Listed("X", false), d.categories[0]);
    ShopPlaces();
    PlainSurvives();
    TwoFamiliesOneGroup();
    GroupHasCardIff(d, "US", GroupKey(p.row, "US"));
    assert InGroup(p.row, "US", GroupKey(p.row, "US"));
  }

  lemma {:induction false} KeysDiffer()
    ensures FamilyKey(Listed(LINKED, true), "US") != FamilyKey(Listed("X", false), "US")
  {
    TwoFamiliesOneGroup();
    CommonEnd(FamilyName(Listed(LINKED, true)), FamilyName(Listed("X", false)), "|", Upper("US"));
  }

  lemma {:induction false} CommonEnd(f: string, g: string, bar: string, t: string)
    ensures f + bar + t == g + bar + t <==> f == g
  {
    if f + bar + t == g + bar + t {
      assert |f + bar + t| == |g + bar + t|;
      assert (f + bar + t)[..|f|] == f && (g + bar + t)[..|g|] == g;
    }
  }

  predicate Letters(s: string) { forall i :: 0 <= i < |s| ==> 'a' <= s[i] <= 'z' }

  /** Small letters are their own slug. */
  lemma {:induction false} LettersSlug(s: string)
    requires Letters(s)
    ensures Slug(s) == s
  {
    assert Trim(s) == s;
    assert Lower(s) == s;
    SqueezeKeeps(s);
  }

  lemma {:induction false} NotExcludedPlain()
    ensures !Excluded(Listed("X", false), "gift")
  {
    LettersSlug("gift");
    LettersSlug("");
    LettersSlug("x");
    PlainFamily();
  }

  lemma {:induction false} PlainFamily()
    ensures FamilyName(Listed("X", false)) == "x"
  {
    assert Trim("X") == "X" && Lower("X") == "x";
  }

  // ---- the e-money mark of a card

  lemma {:induction false} EMoneySlug(s: string)
    requires Lower(s) == "e-money"
    ensures Slug(s) == "emoney"
  {
    assert |s| == 7 && LowerChar(s[0]) == Lower(s)[0] == 'e' && LowerChar(s[6]) == Lower(s)[6] == 'y';
    assert Trim(s) == s;
    SqueezeEMoney();
  }

  lemma {:induction false} SqueezeEMoney()
    ensures Squeeze("e-money") == "emoney"
  {
    SqueezeDashed('e', "money");
    assert ['e'] + (['-'] + "money") == "e-money" && ['e'] + "money" == "emoney";
  }

  lemma {:induction false} SqueezeDashed(a: char, m: string)
    requires 'a' <= a <= 'z' && Letters(m)
    ensures Squeeze([a] + (['-'] + m)) == [a] + m
  {
    SqueezeConcat([a], ['-'] + m);
    SqueezeConcat(['-'], m);
    SqueezeKeeps([a]);
    SqueezeKeeps(m);
    assert ['-'][1..] == "";
    assert "" + m == m;
  }

  lemma {:induction false} SqueezeConcat(a: string, b: string)
    ensures Squeeze(a + b) == Squeeze(a) + Squeeze(b)
  {
    if a == "" {
      assert a + b == b;
    } else {
      assert (a + b)[1..] == a[1..] + b;
      SqueezeConcat(a[1..], b);
    }
  }

  lemma {:induction false} SqueezeKeeps(s: string)
    requires Letters(s)
    ensures Squeeze(s) == s
  {
    if s != "" {
      SqueezeKeeps(s[1..]);
    }
  }

  /** No row of the grid is in the e-money category. */
  lemma {:induction false} NoShownEMoney(d: Catalog, r: Row)
    requires r in ShownRows(d)
    ensures !EMoney(r)
  {
    PublicRulesLawful();
    LeftMeans(PUBLIC, d, r);
    var p :| p in Places(d.categories) && Survives(PUBLIC, d, p) && r == Annotated(p.row, p.place);
    SurvivorNotExcluded(PUBLIC, d, p, p);
    if EMoney(r) { EMoneySlug(r.category); }
  }

  /** The filter leaves the e-money mark of the cards nothing to mark. */
  lemma {:induction false} NoCardIsEMoney(d: Catalog, country: string, key: string)
    requires key in Firsts(ShownRows(d), Named, Keyed(country))
    ensures !CardFor(ShownRows(d), country, key).isEMoney
  {
    var rows := ShownRows(d);
    FirstsMeans(rows, Named, Keyed(country));
    var m := Members(rows, Named, Keyed(country), key);
    MembersMeans(rows, Named, Keyed(country), key);
    VariantsKeepStock(m);
    forall v | v in Variants(m) ensures !EMoney(v) { NoShownEMoney(d, v); }
  }
}
