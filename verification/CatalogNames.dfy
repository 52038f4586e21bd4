/** When a family named by a link is read as its label, and what filling in a category changes. */
module CatalogNames {
  import opened JsText
  import opened CatalogRows
  import opened CatalogFilter
  import opened CatalogCards
  import opened CatalogGrid

  function Link(a: string, u: string): string { "[" + a + "](" + u + ")" }

  predicate NoBracket(s: string) { forall i :: 0 <= i < |s| ==> s[i] != ']' }

  lemma {:induction false} LinkShape(a: string, u: string)
    ensures var s := Link(a, u); |s| == |a| + |u| + 4 && s[0] == '[' && s[|a| + 1] == ']' && s[|a| + 2] == '(' && s[|s| - 1] == ')'
    ensures var s := Link(a, u); s[1..|a| + 1] == a && s[|a| + 3..|s| - 1] == u
    ensures NoBracket(a) && NoBracket(u) ==> forall i :: 0 <= i < |Link(a, u)| && Link(a, u)[i] == ']' ==> i == |a| + 1
  {
    var s := Link(a, u);
    assert forall i :: 0 <= i < |a| ==> s[i + 1] == a[i];
    assert forall i :: |a| + 3 <= i < |s| - 1 ==> s[i] == u[i - |a| - 3];
  }

  /** The link is found exactly when it has a label and an address, each on one line. */
  lemma {:induction false} LinkAtIff(a: string, u: string, i: nat)
    requires NoBracket(a) && NoBracket(u) && i < |Link(a, u)|
    ensures LinkAt(Link(a, u), i) <==> i == |a| + 1 && a != "" && u != "" && OneLine(a) && OneLine(u)
  {
    LinkShape(a, u);
  }

  lemma {:induction false} LinkEndIs(a: string, u: string, i: nat)
    requires NoBracket(a) && NoBracket(u) && i <= |a| + 1
    ensures LinkEnd(Link(a, u), i) == if LinkAt(Link(a, u), |a| + 1) then |a| + 1 else |Link(a, u)|
    decreases |a| + 1 - i
  {
    LinkShape(a, u);
    LinkAtIff(a, u, i);
    if i < |a| + 1 {
      LinkEndIs(a, u, i + 1);
    } else if !LinkAt(Link(a, u), i) {
      NoLinkAfter(a, u, i);
    }
  }

  lemma {:induction false} NoLinkAfter(a: string, u: string, i: nat)
    requires NoBracket(a) && NoBracket(u) && |a| + 1 <= i <= |Link(a, u)| && !LinkAt(Link(a, u), |a| + 1)
    ensures LinkEnd(Link(a, u), i) == |Link(a, u)|
    decreases |Link(a, u)| - i
  {
    if i < |Link(a, u)| {
      LinkAtIff(a, u, i);
      NoLinkAfter(a, u, i + 1);
    }
  }

  lemma {:induction false} TrimShorter(s: string)
    ensures |Trim(s)| <= |s|
  {
    StartShorter(s);
    EndShorter(TrimStartBy(IsSpace, s));
  }

  lemma {:induction false} StartShorter(s: string)
    ensures |TrimStartBy(IsSpace, s)| <= |s|
  {
    if s != "" && IsSpace(s[0]) { StartShorter(s[1..]); }
  }

  lemma {:induction false} EndShorter(s: string)
    ensures |TrimEndBy(IsSpace, s)| <= |s|
  {
    if s != "" && IsSpace(s[|s| - 1]) { EndShorter(s[..|s| - 1]); }
  }

  /** A link is read as its label exactly when it has a label and an address, each on one line; otherwise it is left as it is. */
  lemma {:induction false} LabelReadIff(a: string, u: string)
    requires NoBracket(a) && NoBracket(u)
    ensures CleanFamilyName(Link(a, u)) == Trim(a) <==> a != "" && u != "" && OneLine(a) && OneLine(u)
    ensures CleanFamilyName(Link(a, u)) == Trim(a) || CleanFamilyName(Link(a, u)) == Link(a, u)
  {
    var s := Link(a, u);
    LinkShape(a, u);
    LinkAtIff(a, u, |a| + 1);
    LinkEndIs(a, u, 0);
    assert Trim(s) == s;
    TrimShorter(a);
  }

  /** The filter reads a bracketed name as what stands in the brackets, unless that is nothing. */
  lemma {:induction false} BracketRead(r: Row, a: string, rest: string)
    requires NoBracket(a) && (rest == "" || !IsSpace(rest[|rest| - 1])) && r.family == "[" + a + "]" + rest
    ensures FamilyName(r) == if a != "" then Lower(a) else Lower(r.family)
  {
    var s := r.family;
    assert s[0] == '[' && s[|a| + 1] == ']' && s[1..|a| + 1] == a;
    assert Trim(s) == s by { assert s[|s| - 1] == if rest == "" then ']' else rest[|rest| - 1]; }
    assert s[1..] == a + ("]" + rest);
    BracketAfter(a, rest);
  }

  lemma {:induction false} BracketAfter(a: string, rest: string)
    requires NoBracket(a)
    ensures Bracket(a + ("]" + rest)) == |a|
    decreases |a|
  {
    var s := a + ("]" + rest);
    if a != "" {
      assert s[0] == a[0] && s[1..] == a[1..] + ("]" + rest);
      BracketAfter(a[1..], rest);
    }
  }

  /** A shown row is a listed one; it took the category and the kind of its place where it had none, and nothing else. */
  lemma {:induction false} ShownRowIsListed(d: Catalog, r: Row)
    requires r in ShownRows(d)
    ensures exists p :: p in Places(d.categories) && FilledFrom(r, p)
  {
    PublicRulesLawful();
    LeftMeans(PUBLIC, d, r);
    var q :| q in Places(d.categories) && Survives(PUBLIC, d, q) && r == Annotated(q.row, q.place);
    assert FilledFrom(r, q);
  }

  predicate FilledFrom(r: Row, p: Placed) {
    && r.(category := "", kind := "") == p.row.(category := "", kind := "")
    && r.category == (if p.row.category == "" then p.place.category else p.row.category)
    && r.kind == (if p.row.kind == "" then p.place.kind else p.row.kind)
  }
}
