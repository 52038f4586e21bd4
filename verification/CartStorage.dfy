/** What any stored cart is read back as, and what an add does when it is forced or names no known package. */
module CartStorage {
  import opened JsText
  import opened CartRows
  import opened CartStore
  import opened CartLaws
  import opened CartTheorems

  // ---- reading storage, whatever it holds

  predicate LatinLetter(c: char) { 'A' <= c <= 'Z' || 'a' <= c <= 'z' }

  /** A row with a name, a country of two letters, and a quantity. */
  predicate Usable(r: Row) {
    (exists c :: c in r.id && !IsSpace(c)) && |r.country| == 2 && LatinLetter(r.country[0]) && LatinLetter(r.country[1]) && r.qty >= 1
  }

  predicate CountryInCapitals(a: string, b: string) {
    |a| == 2 && |b| == 2 && 'A' <= a[0] <= 'Z' && 'A' <= a[1] <= 'Z'
    && (a[0] == b[0] || a[0] as int == b[0] as int - 32) && (a[1] == b[1] || a[1] as int == b[1] as int - 32)
  }

  predicate AtLeastZero(a: real, b: real) { a == if b < 0.0 then 0.0 else b }

  /** The row q with its country in capitals, at most a hundred units, and no negative amount; nothing else changed. */
  predicate ReadFrom(r: Row, q: Row) {
    r.id == q.id && r.pkg == q.pkg && r.currency == q.currency && CountryInCapitals(r.country, q.country)
    && r.qty == (if q.qty > 100 then 100 else q.qty)
    && AtLeastZero(r.value, q.value) && AtLeastZero(r.coinAmount, q.coinAmount) && AtLeastZero(r.unitUSD, q.unitUSD)
  }

  lemma {:induction false} UsableIff(r: Row)
    ensures Usable(r) <==> Storable(r)
  {
  }

  lemma {:induction false} CleanReads(q: Row)
    requires Usable(q)
    ensures ReadFrom(Clean(q), q)
  {
  }

  lemma {:induction false} CleanAllAt(items: seq<Row>, i: nat)
    requires i < |items|
    ensures |CleanAll(items)| == |items| && CleanAll(items)[i] == Clean(items[i])
  {
    if i > 0 { CleanAllAt(items[1..], i - 1); } else { CleanAllLength(items); }
  }

  lemma {:induction false} CleanAllLength(items: seq<Row>)
    ensures |CleanAll(items)| == |items|
  {
    if items != [] { CleanAllLength(items[1..]); }
  }

  /** The positions of the rows a filter keeps: in order, none left out. */
  predicate Picks(at: seq<nat>, items: seq<Row>, p: Row -> bool) {
    && (forall i :: 0 <= i < |at| ==> at[i] < |items| && p(items[at[i]]))
    && (forall i, j :: 0 <= i < j < |at| ==> at[i] < at[j])
    && (forall k :: 0 <= k < |items| && p(items[k]) ==> k in at)
  }

  function Shifted(at: seq<nat>): seq<nat> { seq(|at|, i requires 0 <= i < |at| => at[i] + 1) }

  lemma {:induction false} ShiftedHas(at: seq<nat>, k: nat)
    requires k in at
    ensures k + 1 in Shifted(at)
  {
    var i :| 0 <= i < |at| && at[i] == k;
    assert Shifted(at)[i] == k + 1;
  }

  /** The positions in a list, from those in the list without its first row. */
  function WithFirst(keep: bool, rest: seq<nat>): seq<nat> { if keep then [0] + Shifted(rest) else Shifted(rest) }

  lemma {:induction false} ShiftedPicks(rest: seq<nat>, items: seq<Row>, p: Row -> bool)
    requires items != [] && Picks(rest, items[1..], p)
    ensures forall i :: 0 <= i < |rest| ==> Shifted(rest)[i] < |items| && p(items[Shifted(rest)[i]])
    ensures forall i, j :: 0 <= i < j < |rest| ==> Shifted(rest)[i] < Shifted(rest)[j]
    ensures forall k :: 1 <= k < |items| && p(items[k]) ==> k in Shifted(rest)
  {
    forall i | 0 <= i < |rest| ensures Shifted(rest)[i] < |items| && p(items[Shifted(rest)[i]]) {
      assert items[1..][rest[i]] == items[rest[i] + 1];
    }
    forall k | 1 <= k < |items| && p(items[k]) ensures k in Shifted(rest) {
      assert p(items[1..][k - 1]);
      ShiftedHas(rest, k - 1);
    }
  }

  /** With the first position put in front. */
  lemma {:induction false} PrependPicks(more: seq<nat>, items: seq<Row>, p: Row -> bool)
    requires items != [] && p(items[0]) && forall i :: 0 <= i < |more| ==> 0 < more[i] < |items| && p(items[more[i]])
    requires forall i, j :: 0 <= i < j < |more| ==> more[i] < more[j]
    requires forall k :: 1 <= k < |items| && p(items[k]) ==> k in more
    ensures Picks([0] + more, items, p)
  {
    var at := [0] + more;
    assert at[0] == 0 && forall i :: 1 <= i < |at| ==> at[i] == more[i - 1];
    forall k | 0 <= k < |items| && p(items[k]) ensures k in at {
      assert 0 in at;
      if k > 0 { assert k in more; }
    }
  }

  lemma {:induction false} WithFirstPicks(rest: seq<nat>, items: seq<Row>, p: Row -> bool)
    requires items != [] && Picks(rest, items[1..], p)
    ensures Picks(WithFirst(p(items[0]), rest), items, p)
  {
    ShiftedPicks(rest, items, p);
    if p(items[0]) { PrependPicks(Shifted(rest), items, p); } else { SamePicks(Shifted(rest), items, p); }
  }

  lemma {:induction false} SamePicks(more: seq<nat>, items: seq<Row>, p: Row -> bool)
    requires items != [] && !p(items[0]) && forall i :: 0 <= i < |more| ==> more[i] < |items| && p(items[more[i]])
    requires forall i, j :: 0 <= i < j < |more| ==> more[i] < more[j]
    requires forall k :: 1 <= k < |items| && p(items[k]) ==> k in more
    ensures Picks(more, items, p)
  {
  }

  lemma {:induction false} Positions(items: seq<Row>, p: Row -> bool) returns (at: seq<nat>)
    ensures Picks(at, items, p) && |at| == |Filter(items, p)|
    ensures forall i :: 0 <= i < |at| ==> Filter(items, p)[i] == items[at[i]]
  {
    if items == [] {
      at := [];
    } else {
      var rest := Positions(items[1..], p);
      at := WithFirst(p(items[0]), rest);
      WithFirstPicks(rest, items, p);
      FilterAt(items, p, rest);
    }
  }

  lemma {:induction false} FilterAt(items: seq<Row>, p: Row -> bool, rest: seq<nat>)
    requires items != [] && |rest| == |Filter(items[1..], p)|
    requires forall i :: 0 <= i < |rest| ==> rest[i] < |items| - 1 && Filter(items[1..], p)[i] == items[1..][rest[i]]
    ensures |WithFirst(p(items[0]), rest)| == |Filter(items, p)|
    ensures forall i :: 0 <= i < |Filter(items, p)| ==>
      WithFirst(p(items[0]), rest)[i] < |items| && Filter(items, p)[i] == items[WithFirst(p(items[0]), rest)[i]]
  {
    assert Filter(items, p) == (if p(items[0]) then [items[0]] else []) + Filter(items[1..], p);
  }

  /** Every usable stored row up to the hundredth is read back, in order; no other row is. */
  lemma {:induction false} ReadBackIs(items: seq<Row>) returns (at: seq<nat>)
    ensures Picks(at, items, (r: Row) => Usable(r)) && |ReadBack(items)| == if |at| > 100 then 100 else |at|
    ensures forall i :: 0 <= i < |ReadBack(items)| ==> ReadFrom(ReadBack(items)[i], items[at[i]])
  {
    forall r ensures Usable(r) <==> Storable(r) { UsableIff(r); }
    at := Positions(items, Storable);
    var kept := Prefix(Filter(items, Storable));
    CleanAllLength(kept);
    forall i | 0 <= i < |kept| ensures ReadFrom(ReadBack(items)[i], items[at[i]]) {
      CleanAllAt(kept, i);
      CleanReads(items[at[i]]);
    }
  }

  /** Whatever storage holds, reading it gives tidy rows, and reading them again changes nothing. */
  lemma {:induction false} ReadBackTwice(items: seq<Row>)
    ensures AllTidy(ReadBack(items)) && ReadBack(ReadBack(items)) == ReadBack(items)
  {
    var at := ReadBackIs(items);
    forall i | 0 <= i < |ReadBack(items)| ensures Tidy(ReadBack(items)[i]) {
      ReadIsTidy(ReadBack(items)[i], items[at[i]]);
    }
    ReadBackTidy(ReadBack(items));
  }

  lemma {:induction false} ReadIsTidy(r: Row, q: Row)
    requires Usable(q) && ReadFrom(r, q)
    ensures Tidy(r)
  {
    UsableIff(q);
    UsableIff(r);
  }

  // ---- forced adds

  /** A forced add is never refused and adds all that is asked for, whatever is left today and under the cap. */
  lemma {:induction false} ForcedTakesAll(s: Shop, items: seq<Row>, p: Product, o: Options)
    requires o.force
    ensures Outcome(s, items, p, o).Added? && Entry(s, items, p, o).qty == Whole(o.qty)
    ensures var next := Extended(s, items, p, o); var e := Entry(s, items, p, o);
      if Merges(s, items, p, o) then
        var i := Slot(s, items, p, o);
        next == items[i := items[i].(qty := if items[i].qty + Whole(o.qty) > 100 then 100 else items[i].qty + Whole(o.qty))]
      else next == items + [e]
  {
  }

  /** A package id the product does not have supplies nothing, not even a fallback price. */
  lemma {:induction false} UnknownPackage(p: Product, o: Options, qty: int)
    requires o.pkg != "" && forall i :: 0 <= i < |p.packages| ==> p.packages[i].packageId != o.pkg
    ensures var e := EntryOf(p, o, qty);
      e.pkg == o.pkg && e.value == o.value && e.currency == p.currency && e.unitUSD == 0.0
      && e.coinAmount == if o.coinAmount > 0.0 then o.coinAmount else 0.0
  {
    NotFound(p.packages, o.pkg);
  }

  lemma {:induction false} NotFound(packages: seq<Package>, pkg: string)
    requires forall i :: 0 <= i < |packages| ==> packages[i].packageId != pkg
    ensures Find(packages, pkg) == []
  {
    if packages != [] && pkg != "" { NotFound(packages[1..], pkg); }
  }
}
