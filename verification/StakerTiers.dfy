/** The staker cashback ladder: normalising it, resolving a stake on it, and what truncation costs. */
module StakerTiers {
  const MAX_TIERS: nat := 8
  const MAX_BPS: int := 2000

  datatype Tier = Tier(min: int, bps: int)

  predicate Valid(t: Tier) { t.min >= 0 && t.bps > 0 }

  function Clamp(bps: int): int { if bps > MAX_BPS then MAX_BPS else bps }

  predicate Ascending(s: seq<Tier>) { forall i, j :: 0 <= i < j < |s| ==> s[i].min < s[j].min }

  /** The best clamped rate offered at exactly this minimum, or zero. */
  function Best(tiers: seq<Tier>, m: int): (b: int)
    ensures b >= 0
  {
    if tiers == [] then 0
    else
      var t, rest := tiers[|tiers| - 1], Best(tiers[..|tiers| - 1], m);
      if Valid(t) && t.min == m && Clamp(t.bps) > rest then Clamp(t.bps) else rest
  }

  predicate HasMin(s: seq<Tier>, m: int) { exists i :: 0 <= i < |s| && s[i].min == m }

  /** Ascending, without duplicates, and holding exactly the minimums with a rate, each at its best. */
  ghost predicate IsLadder(s: seq<Tier>, tiers: seq<Tier>) {
    Ascending(s)
    && (forall i :: 0 <= i < |s| ==> s[i].bps == Best(tiers, s[i].min) > 0)
    && (forall m :: Best(tiers, m) > 0 ==> HasMin(s, m))
  }

  function Kept(s: seq<Tier>): seq<Tier> { if |s| > MAX_TIERS then s[..MAX_TIERS] else s }

  function Insert(s: seq<Tier>, t: Tier): seq<Tier> {
    if s == [] || t.min < s[0].min then [t] + s else [s[0]] + Insert(s[1..], t)
  }

  /** The library's sort by minimum. */
  function Sorted(s: seq<Tier>): seq<Tier> {
    if s == [] then [] else Insert(Sorted(s[1..]), s[0])
  }

  lemma {:induction false} InsertMembers(s: seq<Tier>, t: Tier)
    ensures multiset(Insert(s, t)) == multiset(s) + multiset{t}
  {
    if s == [] || t.min < s[0].min {
      assert multiset([t] + s) == multiset{t} + multiset(s);
    } else {
      InsertMembers(s[1..], t);
      assert s == [s[0]] + s[1..];
    }
  }

  lemma {:induction false} InsertAscending(s: seq<Tier>, t: Tier)
    requires Ascending(s) && forall i :: 0 <= i < |s| ==> s[i].min != t.min
    ensures Ascending(Insert(s, t))
  {
    if s != [] && s[0].min < t.min {
      InsertAscending(s[1..], t);
      InsertMembers(s[1..], t);
      var r := Insert(s[1..], t);
      forall j | 0 <= j < |r| ensures s[0].min < r[j].min {
        assert r[j] in multiset(r);
        if r[j] != t { assert r[j] in s[1..]; }
      }
    }
  }

  predicate DistinctMins(s: seq<Tier>) { forall i, j :: 0 <= i < j < |s| ==> s[i].min != s[j].min }

  lemma {:induction false} SortedSorts(s: seq<Tier>)
    requires DistinctMins(s)
    ensures Ascending(Sorted(s)) && multiset(Sorted(s)) == multiset(s)
  {
    if s != [] {
      SortedSorts(s[1..]);
      var r := Sorted(s[1..]);
      forall i | 0 <= i < |r| ensures r[i].min != s[0].min {
        assert r[i] in multiset(r);
        assert r[i] in s[1..];
        var j :| 0 <= j < |s[1..]| && s[1..][j] == r[i];
        assert s[j + 1] == r[i];
      }
      InsertAscending(r, s[0]);
      InsertMembers(r, s[0]);
      assert s == [s[0]] + s[1..];
    }
  }

  ghost predicate IsBestByMin(byMin: map<int, int>, tiers: seq<Tier>) {
    (forall m :: m in byMin <==> Best(tiers, m) > 0) && (forall m :: m in byMin ==> byMin[m] == Best(tiers, m))
  }

  method BestByMin(tiers: seq<Tier>) returns (byMin: map<int, int>)
    ensures IsBestByMin(byMin, tiers)
  {
    byMin := map[];
    for i := 0 to |tiers|
      invariant IsBestByMin(byMin, tiers[..i])
    {
      var t := tiers[i];
      assert tiers[..i + 1][..i] == tiers[..i];
      if t.min < 0 || t.bps <= 0 {
        continue;
      }
      var bps := t.bps;
      if bps > MAX_BPS { bps := MAX_BPS; }
      if t.min !in byMin || bps > byMin[t.min] {
        byMin := byMin[t.min := bps];
      }
    }
    assert tiers[..|tiers|] == tiers;
  }

  /** The entries of the map, in no particular order. */
  method Rungs(byMin: map<int, int>) returns (out: seq<Tier>)
    ensures DistinctMins(out)
    ensures forall i :: 0 <= i < |out| ==> out[i].min in byMin && out[i].bps == byMin[out[i].min]
    ensures forall m :: m in byMin ==> HasMin(out, m)
  {
    out := [];
    var rest := byMin.Keys;
    while exists m :: m in rest
      decreases rest
      invariant rest <= byMin.Keys && DistinctMins(out)
      invariant forall i :: 0 <= i < |out| ==> out[i].min in byMin && out[i].min !in rest && out[i].bps == byMin[out[i].min]
      invariant forall m :: m in byMin && m !in rest ==> HasMin(out, m)
    {
      var m :| m in rest;
      HasMinSnoc(out, Tier(m, byMin[m]));
      out := out + [Tier(m, byMin[m])];
      rest := rest - {m};
    }
  }

  lemma {:induction false} HasMinSnoc(s: seq<Tier>, t: Tier)
    ensures HasMin(s + [t], t.min)
    ensures forall m :: HasMin(s, m) ==> HasMin(s + [t], m)
  {
    assert (s + [t])[|s|] == t;
    forall m | HasMin(s, m) ensures HasMin(s + [t], m) {
      var i :| 0 <= i < |s| && s[i].min == m;
      assert (s + [t])[i] == s[i];
    }
  }

  method NormalizeStakerTiers(tiers: seq<Tier>) returns (out: seq<Tier>)
    ensures exists full :: IsLadder(full, tiers) && out == Kept(full)
  {
    var byMin := BestByMin(tiers);
    var unsorted := Rungs(byMin);
    SortedSorts(unsorted);
    out := Sorted(unsorted);
    SameRungs(unsorted, out, tiers);
    if |out| > MAX_TIERS {
      out := out[..MAX_TIERS];
    }
  }

  lemma {:induction false} SameRungs(a: seq<Tier>, b: seq<Tier>, tiers: seq<Tier>)
    requires multiset(a) == multiset(b) && Ascending(b)
    requires forall i :: 0 <= i < |a| ==> a[i].bps == Best(tiers, a[i].min) > 0
    requires forall m :: Best(tiers, m) > 0 ==> HasMin(a, m)
    ensures IsLadder(b, tiers)
  {
    forall i | 0 <= i < |b| ensures b[i].bps == Best(tiers, b[i].min) > 0 {
      assert b[i] in multiset(b);
      assert b[i] in a;
    }
    forall m | Best(tiers, m) > 0 ensures HasMin(b, m) {
      var i :| 0 <= i < |a| && a[i].min == m;
      assert a[i] in multiset(a);
      assert a[i] in b;
    }
  }

  // ---- the ladder is one value, whatever the order of the rungs

  lemma {:induction false} BestIsAttained(tiers: seq<Tier>, m: int)
    ensures Best(tiers, m) > 0 ==> exists t :: t in tiers && Valid(t) && t.min == m && Clamp(t.bps) == Best(tiers, m)
    ensures forall t :: t in tiers && Valid(t) && t.min == m ==> Clamp(t.bps) <= Best(tiers, m)
  {
    if tiers != [] {
      var t, rest := tiers[|tiers| - 1], tiers[..|tiers| - 1];
      BestIsAttained(rest, m);
      assert tiers == rest + [t];
    }
  }

  lemma {:induction false} BestOfSameRungs(a: seq<Tier>, b: seq<Tier>, m: int)
    requires forall t :: t in a <==> t in b
    ensures Best(a, m) == Best(b, m)
  {
    BestIsAttained(a, m);
    BestIsAttained(b, m);
  }

  /** Two ladders over the same best rates are the same sequence. */
  lemma {:induction false} LadderUnique(s: seq<Tier>, t: seq<Tier>, a: seq<Tier>, b: seq<Tier>)
    requires IsLadder(s, a) && IsLadder(t, b) && forall m :: Best(a, m) == Best(b, m)
    ensures s == t
  {
    forall i | 0 <= i < |s| ensures s[i] in t { }
    forall i | 0 <= i < |t| ensures t[i] in s { }
    AscendingUnique(s, t);
  }

  predicate Within(s: seq<Tier>, t: seq<Tier>) { forall i :: 0 <= i < |s| ==> s[i] in t }

  lemma {:induction false} FrontWithin(s: seq<Tier>, t: seq<Tier>)
    requires s != [] && t != [] && Ascending(s) && Within(s, t) && s[|s| - 1] == t[|t| - 1]
    ensures Within(s[..|s| - 1], t[..|t| - 1])
  {
    var q, t' := t[|t| - 1], t[..|t| - 1];
    assert t == t' + [q];
    var s' := s[..|s| - 1];
    forall i | 0 <= i < |s'| ensures s'[i] in t' {
      assert s'[i] == s[i] && s[i] in t && s[i].min < q.min;
    }
  }

  lemma {:induction false} AscendingUnique(s: seq<Tier>, t: seq<Tier>)
    requires Ascending(s) && Ascending(t) && Within(s, t) && Within(t, s)
    ensures s == t
  {
    if s != [] && t != [] {
      FrontWithin(s, t);
      FrontWithin(t, s);
      AscendingUnique(s[..|s| - 1], t[..|t| - 1]);
      assert s == s[..|s| - 1] + [s[|s| - 1]] && t == t[..|t| - 1] + [t[|t| - 1]];
    }
    assert s != [] ==> s[0] in t;
    assert t != [] ==> t[0] in s;
  }

  /** Reordering or repeating rungs changes nothing. */
  lemma {:induction false} OrderDoesNotMatter(a: seq<Tier>, b: seq<Tier>, s: seq<Tier>, t: seq<Tier>)
    requires (forall r :: r in a <==> r in b) && IsLadder(s, a) && IsLadder(t, b)
    ensures Kept(s) == Kept(t)
  {
    forall m ensures Best(a, m) == Best(b, m) { BestOfSameRungs(a, b, m); }
    LadderUnique(s, t, a, b);
  }

  lemma {:induction false} BestOnLadder(s: seq<Tier>, i: nat)
    requires Ascending(s) && i < |s| && 0 < s[i].bps <= MAX_BPS && s[i].min >= 0
    ensures Best(s, s[i].min) == s[i].bps
  {
    BestIsAttained(s, s[i].min);
    assert s[i] in s;
    assert forall t :: t in s && t.min == s[i].min ==> t == s[i];
  }

  lemma {:induction false} RungsValid(full: seq<Tier>, tiers: seq<Tier>)
    requires IsLadder(full, tiers)
    ensures forall i :: 0 <= i < |full| ==> 0 < full[i].bps <= MAX_BPS && full[i].min >= 0
  {
    forall i | 0 <= i < |full| ensures 0 < full[i].bps <= MAX_BPS && full[i].min >= 0 {
      BestIsAttained(tiers, full[i].min);
    }
  }

  lemma {:induction false} OwnLadder(s: seq<Tier>)
    requires Ascending(s) && forall i :: 0 <= i < |s| ==> 0 < s[i].bps <= MAX_BPS && s[i].min >= 0
    ensures IsLadder(s, s)
  {
    forall i | 0 <= i < |s| ensures s[i].bps == Best(s, s[i].min) > 0 { BestOnLadder(s, i); }
    forall m | Best(s, m) > 0 ensures HasMin(s, m) { BestIsAttained(s, m); }
  }

  /** Normalising a normalised ladder gives it back. */
  lemma {:induction false} Idempotent(tiers: seq<Tier>, full: seq<Tier>, again: seq<Tier>)
    requires IsLadder(full, tiers) && IsLadder(again, Kept(full))
    ensures Kept(again) == Kept(full)
  {
    var s := Kept(full);
    RungsValid(full, tiers);
    OwnLadder(s);
    LadderUnique(s, again, s, s);
  }

  // ---- the rate a stake earns

  predicate Reached(t: Tier, stake: int) { Valid(t) && t.min <= stake }

  function TopBps(tiers: seq<Tier>, stake: int): (b: int)
    ensures b >= 0
  {
    if tiers == [] then 0
    else
      var t, rest := tiers[|tiers| - 1], TopBps(tiers[..|tiers| - 1], stake);
      if Reached(t, stake) && t.bps > rest then t.bps else rest
  }

  function Rate(tiers: seq<Tier>, stake: int): int {
    if stake <= 0 then 0 else Clamp(TopBps(tiers, stake))
  }

  method StakerBpsOn(tiers: seq<Tier>, stake: int) returns (bps: int, tier: Tier, ok: bool)
    ensures bps == Rate(tiers, stake)
    ensures ok <==> stake > 0 && exists t :: t in tiers && Reached(t, stake)
    ensures ok ==> tier in tiers && Reached(tier, stake) && bps == Clamp(tier.bps)
    ensures ok ==> forall t :: t in tiers && Reached(t, stake) ==> t.bps <= tier.bps
  {
    bps, tier, ok := 0, Tier(0, 0), false;
    if stake <= 0 { return; }
    for i := 0 to |tiers|
      invariant bps == TopBps(tiers[..i], stake)
      invariant ok <==> bps > 0
      invariant ok ==> tier in tiers[..i] && Reached(tier, stake) && bps == tier.bps
      invariant forall t :: t in tiers[..i] && Reached(t, stake) ==> t.bps <= bps
    {
      var t := tiers[i];
      assert tiers[..i + 1] == tiers[..i] + [t];
      assert tiers[..i + 1][..i] == tiers[..i];
      if t.min < 0 || t.bps <= 0 { continue; }
      if t.min > stake { continue; }
      if t.bps > bps { bps, tier, ok := t.bps, t, true; }
    }
    assert tiers[..|tiers|] == tiers;
    if bps > MAX_BPS { bps := MAX_BPS; }
  }

  /** The rate is the best clamped rate over the rungs the stake reaches. */
  lemma {:induction false} RateMeans(tiers: seq<Tier>, stake: int)
    requires stake > 0
    ensures forall t :: t in tiers && Reached(t, stake) ==> Clamp(t.bps) <= Rate(tiers, stake)
    ensures Rate(tiers, stake) > 0 ==> exists t :: t in tiers && Reached(t, stake) && Clamp(t.bps) == Rate(tiers, stake)
    ensures Rate(tiers, stake) >= 0
  {
    if tiers != [] {
      var t, rest := tiers[|tiers| - 1], tiers[..|tiers| - 1];
      RateMeans(rest, stake);
      assert tiers == rest + [t];
    }
  }

  /** One ladder covers another when every rung of the other has a rung below it that pays as much. */
  lemma {:induction false} Covers(s: seq<Tier>, t: seq<Tier>, stake: int)
    requires forall y :: y in t && Valid(y) ==> exists x :: x in s && Valid(x) && x.min <= y.min && Clamp(x.bps) >= Clamp(y.bps)
    ensures Rate(s, stake) >= Rate(t, stake)
  {
    if stake > 0 {
      RateMeans(s, stake);
      RateMeans(t, stake);
      if Rate(t, stake) > 0 {
        var y :| y in t && Reached(y, stake) && Clamp(y.bps) == Rate(t, stake);
        var x :| x in s && Valid(x) && x.min <= y.min && Clamp(x.bps) >= Clamp(y.bps);
      }
    }
  }

  /** Collapsing and clamping keep every rate, for every stake. */
  lemma {:induction false} LadderKeepsRates(full: seq<Tier>, tiers: seq<Tier>, stake: int)
    requires IsLadder(full, tiers)
    ensures Rate(full, stake) == Rate(tiers, stake)
  {
    RungsValid(full, tiers);
    forall y | y in tiers && Valid(y) ensures exists x :: x in full && Valid(x) && x.min <= y.min && Clamp(x.bps) >= Clamp(y.bps) {
      BestIsAttained(tiers, y.min);
      var i :| 0 <= i < |full| && full[i].min == y.min;
      assert full[i] in full;
    }
    forall y | y in full && Valid(y) ensures exists x :: x in tiers && Valid(x) && x.min <= y.min && Clamp(x.bps) >= Clamp(y.bps) {
      BestIsAttained(tiers, y.min);
    }
    Covers(full, tiers, stake);
    Covers(tiers, full, stake);
  }

  /** A larger stake never earns less. */
  lemma {:induction false} RateMonotone(tiers: seq<Tier>, low: int, high: int)
    requires low <= high
    ensures Rate(tiers, low) <= Rate(tiers, high)
  {
    if low > 0 {
      RateMeans(tiers, low);
      RateMeans(tiers, high);
    } else if high > 0 {
      RateMeans(tiers, high);
    }
  }

  // ---- what truncation costs

  /** With at most eight minimums, or below the first dropped rung, the rate is kept; above it, it is never higher. */
  lemma {:induction false} TruncationBelowDropped(full: seq<Tier>, tiers: seq<Tier>, stake: int)
    requires IsLadder(full, tiers)
    ensures Rate(Kept(full), stake) <= Rate(tiers, stake)
    ensures |full| <= MAX_TIERS || stake < full[MAX_TIERS].min ==> Rate(Kept(full), stake) == Rate(tiers, stake)
  {
    var kept := Kept(full);
    RungsValid(full, tiers);
    LadderKeepsRates(full, tiers, stake);
    if stake > 0 {
      RateMeans(kept, stake);
      RateMeans(full, stake);
      forall t | t in kept && Reached(t, stake) ensures t in full {}
      if |full| > MAX_TIERS && stake < full[MAX_TIERS].min {
        forall t | t in full && Reached(t, stake) ensures t in kept {
          var i :| 0 <= i < |full| && full[i] == t;
          assert i < MAX_TIERS;
          assert kept[i] == t;
        }
      }
    }
  }

  /** No dropped rung pays more than the best kept one. */
  predicate NothingBetterDropped(full: seq<Tier>) {
    forall d :: MAX_TIERS <= d < |full| ==> MatchedByKept(full, d)
  }

  predicate MatchedByKept(full: seq<Tier>, d: nat)
    requires MAX_TIERS <= d < |full|
  {
    exists k :: 0 <= k < MAX_TIERS && full[k].bps >= full[d].bps
  }

  ghost predicate KeepsEveryRate(full: seq<Tier>, tiers: seq<Tier>) {
    forall stake :: Rate(Kept(full), stake) == Rate(tiers, stake)
  }

  /** Normalising keeps the rate of every stake exactly when no dropped rung pays more than the kept ones. */
  lemma {:induction false} TruncationHarmlessIff(full: seq<Tier>, tiers: seq<Tier>)
    requires IsLadder(full, tiers)
    ensures KeepsEveryRate(full, tiers) <==> NothingBetterDropped(full)
  {
    if NothingBetterDropped(full) {
      forall stake ensures Rate(Kept(full), stake) == Rate(tiers, stake) { HarmlessAt(full, tiers, stake); }
    }
    if KeepsEveryRate(full, tiers) {
      forall d | MAX_TIERS <= d < |full| ensures MatchedByKept(full, d) {
        assert Rate(Kept(full), full[d].min) == Rate(tiers, full[d].min);
        PaidByKept(full, tiers, d);
      }
    }
  }

  lemma {:induction false} HarmlessAt(full: seq<Tier>, tiers: seq<Tier>, stake: int)
    requires IsLadder(full, tiers) && NothingBetterDropped(full)
    ensures Rate(Kept(full), stake) == Rate(tiers, stake)
  {
    RungsValid(full, tiers);
    TruncationBelowDropped(full, tiers, stake);
    LadderKeepsRates(full, tiers, stake);
    forall y | y in full && Valid(y) ensures exists x :: x in Kept(full) && Valid(x) && x.min <= y.min && Clamp(x.bps) >= Clamp(y.bps) {
      KeptCovers(full, y);
    }
    Covers(Kept(full), full, stake);
  }

  /** A stake at a dropped minimum that loses nothing is paid by a kept rung. */
  lemma {:induction false} PaidByKept(full: seq<Tier>, tiers: seq<Tier>, d: nat)
    requires IsLadder(full, tiers) && MAX_TIERS <= d < |full|
    requires Rate(Kept(full), full[d].min) == Rate(tiers, full[d].min)
    ensures MatchedByKept(full, d)
  {
    var kept, stake := Kept(full), full[d].min;
    RungsValid(full, tiers);
    assert full[0].min < stake;
    LadderKeepsRates(full, tiers, stake);
    RateMeans(full, stake);
    RateMeans(kept, stake);
    assert full[d] in full && Reached(full[d], stake);
    var x :| x in kept && Reached(x, stake) && Clamp(x.bps) == Rate(kept, stake);
    var k :| 0 <= k < MAX_TIERS && kept[k] == x;
    assert full[k] == x;
  }

  lemma {:induction false} KeptCovers(full: seq<Tier>, y: Tier)
    requires Ascending(full) && NothingBetterDropped(full) && y in full && Valid(y)
    requires forall i :: 0 <= i < |full| ==> 0 < full[i].bps <= MAX_BPS && full[i].min >= 0
    ensures exists x :: x in Kept(full) && Valid(x) && x.min <= y.min && Clamp(x.bps) >= Clamp(y.bps)
  {
    var d :| 0 <= d < |full| && full[d] == y;
    assert d >= MAX_TIERS ==> MatchedByKept(full, d);
    var k :| 0 <= k < |full| && k < MAX_TIERS && full[k].bps >= full[d].bps && k <= d;
    assert full[k].min <= full[d].min && full[k].bps >= full[d].bps;
    assert Kept(full)[k] == full[k];
  }

  function Steps(n: nat): seq<Tier> { seq(n, i => Tier(i + 1, i + 1)) }

  /** A ninth, dearer rung is dropped, and a stake that earned its rate earns less. */
  lemma {:induction false} TruncationCanCost()
    ensures IsLadder(Steps(9), Steps(9)) && Rate(Kept(Steps(9)), 9) < Rate(Steps(9), 9)
  {
    var s := Steps(9);
    OwnLadder(s);
    TruncationBelowDropped(s, s, 9);
    if Rate(Kept(s), 9) == Rate(s, 9) {
      PaidByKept(s, s, 8);
    }
  }
}
