/** Amounts with a fraction, written in groups with one mark and a decimal point of the other, in either style. */
module MoneyDecimals {
  import opened JsText
  import opened Decimal
  import opened MoneyNumber
  import opened MoneyLabel
  import MoneyGo
  import MoneyTs

  /** Whole part d in groups, the decimal mark, the fraction e. */
  function Written(d: string, sep: string, o: char, e: string): string { Marked(d, sep, true) + ([o] + e) }

  /** A thousands separator and a decimal mark that differ. */
  predicate Style(sep: string, o: char) { Separator(sep) && Mark(o) && sep != [o] }

  /** The marks tell thousands from decimals: two kinds of them, or no three digits after the only one. */
  predicate Tells(d: string, sep: string, e: string) { |e| != 3 || (|d| > 3 && sep != "" && Mark(sep[0])) }

  // ---- the two texts the grouping rule sees

  lemma {:induction false} CoreOfWritten(d: string, sep: string, o: char, e: string)
    requires AllDigits(d) && AllDigits(e) && Style(sep, o)
    ensures Core(Written(d, sep, o, e)) == Written(d, if sep != "" && Mark(sep[0]) then sep else "", o, e)
  {
    CoreConcat(Marked(d, sep, true), [o] + e);
    CoreOfMarked(d, sep, true);
    CoreConcat([o], e);
    CoreOfDigits(e);
    assert Core([o]) == [o] by { assert [o][1..] == ""; }
  }

  lemma {:induction false} CoreOfDigits(e: string)
    requires AllDigits(e)
    ensures Core(e) == e
  {
    if e != "" { CoreOfDigits(e[1..]); }
  }

  lemma {:induction false} LastIndexAt(m: string, o: char, e: string)
    requires o !in e
    ensures LastIndex(m + ([o] + e), o) == |m|
    decreases |e|
  {
    var t := m + ([o] + e);
    if e == "" {
      assert t[|t| - 1] == o;
    } else {
      assert t[..|t| - 1] == m + ([o] + e[..|e| - 1]);
      assert t[|t| - 1] == e[|e| - 1];
      LastIndexAt(m, o, e[..|e| - 1]);
    }
  }

  lemma {:induction false} LastIndexBefore(m: string, c: char, rest: string)
    requires c !in rest
    ensures LastIndex(m + rest, c) < |m| && (c in m ==> LastIndex(m + rest, c) >= 0)
    decreases |rest|
  {
    var t := m + rest;
    if rest == "" {
      assert t == m;
    } else {
      assert t[..|t| - 1] == m + rest[..|rest| - 1] && t[|t| - 1] == rest[|rest| - 1];
      LastIndexBefore(m, c, rest[..|rest| - 1]);
    }
  }

  lemma {:induction false} RemoveConcat(a: string, b: string, c: char)
    ensures Remove(a + b, c) == Remove(a, c) + Remove(b, c)
  {
    if a == "" {
      assert a + b == b;
    } else {
      assert (a + b)[1..] == a[1..] + b;
      RemoveConcat(a[1..], b, c);
    }
  }

  lemma {:induction false} NoMark(e: string, c: char)
    requires AllDigits(e) && Mark(c)
    ensures c !in e
  {
  }

  /** Two kinds of marks: the last one is the decimal point. */
  lemma {:induction false} BothMarks(d: string, c: char, o: char, e: string)
    requires AllDigits(d) && AllDigits(e) && |d| > 3 && Mark(c) && Mark(o) && c != o
    ensures Regroup(Written(d, [c], o, e)) == d + ("." + e)
  {
    var m, rest := Marked(d, [c], true), [o] + e;
    var t := m + rest;
    NoMark(e, c);
    NoMark(e, o);
    MarkedMembers(d, c, true);
    LastIndexAt(m, o, e);
    LastIndexBefore(m, c, rest);
    RemoveConcat(m, rest, c);
    RemoveMarked(d, c, true);
    NothingToRemove(rest, c);
    assert Remove(t, c) == d + rest;
    if o == ',' { CommaToPoint(d, e); }
  }

  lemma {:induction false} CommaToPoint(d: string, e: string)
    requires AllDigits(d) && AllDigits(e)
    ensures ReplaceAll(d + ("," + e), ',', '.') == d + ("." + e)
  {
  }

  lemma {:induction false} SplitDigits(e: string, o: char)
    requires o !in e
    ensures Split(e, o) == [e]
  {
    if e != "" {
      SplitDigits(e[1..], o);
      assert [e[0]] + e[1..] == e;
    }
  }

  lemma {:induction false} SplitOnce(d: string, o: char, e: string)
    requires o !in d && o !in e
    ensures Split(d + ([o] + e), o) == [d, e]
    decreases |d|
  {
    var t := d + ([o] + e);
    if d == "" {
      assert t == [o] + e;
      SplitMark(e, o);
      SplitDigits(e, o);
    } else {
      assert t[1..] == d[1..] + ([o] + e) && t[0] == d[0];
      SplitOnce(d[1..], o, e);
      assert [d[0]] + d[1..] == d;
    }
  }

  lemma {:induction false} ReplaceFirstAt(d: string, e: string)
    requires ',' !in d
    ensures ReplaceFirst(d + ("," + e), ',', '.') == d + ("." + e)
    decreases |d|
  {
    var t := d + ("," + e);
    if d == "" {
      assert t == "," + e && d + ("." + e) == "." + e;
    } else {
      assert t[1..] == d[1..] + ("," + e) && t[0] == d[0];
      ReplaceFirstAt(d[1..], e);
    }
  }

  lemma {:induction false} GroupedOnce(d: string, o: char, e: string)
    requires AllDigits(d) && AllDigits(e) && Mark(o)
    ensures Grouped(d + ([o] + e), o) <==> |e| == 3
  {
    NoMark(d, o);
    NoMark(e, o);
    SplitOnce(d, o, e);
    var parts := Split(d + ([o] + e), o);
    assert |parts| == 2 && parts[1] == e;
  }

  lemma {:induction false} OnlyMark(d: string, o: char, other: char, e: string)
    requires AllDigits(d) && AllDigits(e) && Mark(o) && Mark(other) && o != other
    ensures o in d + ([o] + e) && other !in d + ([o] + e)
  {
    NoMark(d, other);
    NoMark(e, other);
    assert (d + ([o] + e))[|d|] == o;
  }

  lemma {:induction false} RemoveOnce(d: string, o: char, e: string)
    requires AllDigits(d) && AllDigits(e) && Mark(o)
    ensures Remove(d + ([o] + e), o) == d + e
  {
    NoMark(d, o);
    RemoveConcat(d, [o] + e, o);
    NothingToRemove(d, o);
    RemoveHead(o, e);
  }

  lemma {:induction false} RemoveHead(o: char, e: string)
    requires AllDigits(e) && Mark(o)
    ensures Remove([o] + e, o) == e
  {
    NoMark(e, o);
    NothingToRemove(e, o);
    assert ([o] + e)[1..] == e;
  }

  /** One mark alone: three digits after it make it a separator. */
  lemma {:induction false} OneMark(d: string, o: char, e: string)
    requires AllDigits(d) && AllDigits(e) && Mark(o)
    ensures Regroup(d + ([o] + e)) == if |e| == 3 then d + e else d + ("." + e)
  {
    GroupedOnce(d, o, e);
    RemoveOnce(d, o, e);
    if o == ',' {
      OnlyMark(d, ',', '.', e);
      NoMark(d, ',');
      ReplaceFirstAt(d, e);
    } else {
      OnlyMark(d, '.', ',', e);
    }
  }

  /** The grouping rule finds the decimal number exactly when the marks tell. */
  lemma {:induction false} DecimalFoundIff(d: string, sep: string, o: char, e: string)
    requires AllDigits(d) && d != "" && AllDigits(e) && e != "" && Style(sep, o)
    ensures Regroup(Core(Written(d, sep, o, e))) == d + ("." + e) <==> Tells(d, sep, e)
  {
    CoreOfWritten(d, sep, o, e);
    if sep != "" && Mark(sep[0]) && |d| > 3 {
      assert sep == [sep[0]];
      BothMarks(d, sep[0], o, e);
    } else {
      if sep != "" && Mark(sep[0]) { ShortUnmarked(d, sep, true); } else { MarkedWithout(d, true); }
      OneMark(d, o, e);
      assert |d + e| != |d + ("." + e)|;
    }
  }

  /** Up to three digits have no separator. */
  lemma {:induction false} ShortUnmarked(d: string, sep: string, first: bool)
    requires |d| <= if first then 3 else 2
    ensures Marked(d, sep, first) == d
  {
    if d != "" {
      ShortUnmarked(d[1..], sep, false);
      assert [d[0]] + d[1..] == d;
    }
  }

  // ---- the two readers

  /** The value of a whole part and a fraction. */
  function Mixed(d: string, e: string): real { Value(d) as real + Value(e) as real / Pow10(|e|) as real }

  lemma {:induction false} MixedReads(d: string, e: string)
    requires AllDigits(d) && AllDigits(e) && e != ""
    ensures Strict(d + ("." + e)) == Lenient(d + ("." + e)) == Mixed(d, e)
  {
    var t := d + ("." + e);
    PointAt(t, |d|) by { assert t[..|d|] == d; }
    assert t[..|d|] == d && t[|d| + 1..] == e;
    LeadingNumberWholeIff(t);
  }

  lemma {:induction false} WrittenShape(f: Flavour, d: string, sep: string, o: char, e: string)
    requires AllDigits(d) && d != "" && AllDigits(e) && e != "" && Style(sep, o) && (sep == "" || Mark(sep[0]) || f.blank(sep[0]))
    ensures NumberShape(f, Written(d, sep, o, e))
  {
    var m := Marked(d, sep, true);
    MarkedShape(f, d, sep, true);
    forall i | 0 <= i < |m + ([o] + e)|
      ensures IsDigit((m + ([o] + e))[i]) || Mark((m + ([o] + e))[i]) || f.blank((m + ([o] + e))[i])
    {
      if i < |m| { assert m[i] in m; }
    }
  }

  /** Written in any style whose marks tell, an amount with a fraction reads as itself in the backend and in the storefront. */
  lemma {:induction false} FractionReadsBack(d: string, sep: string, o: char, e: string)
    requires AllDigits(d) && d != "" && AllDigits(e) && e != "" && Style(sep, o) && Tells(d, sep, e)
    requires sep == "" || Mark(sep[0]) || MoneyGo.GO.blank(sep[0])
    ensures MoneyGo.Amount(Written(d, sep, o, e)) == MoneyTs.Amount(Written(d, sep, o, e)) == Mixed(d, e)
  {
    var t := Written(d, sep, o, e);
    DecimalFoundIff(d, sep, o, e);
    MixedReads(d, e);
    WrittenShape(MoneyGo.GO, d, sep, o, e);
    MoneyTs.DigitsStay(t);
    MoneyTs.ShapeTight(MoneyGo.GO, t);
    MoneyGo.ShapeCore(t);
  }

  predicate IsMixed(d: string, e: string, v: real) { Mixed(d, e) == v }

  predicate ReadsAs(text: string, v: real) { MoneyGo.Amount(text) == v && MoneyTs.Amount(text) == v }

  predicate IsThousand(text: string, sep: string, o: char) { text == "1" + sep + "234" + [o] + "56" }

  lemma {:induction false} Texts()
    ensures IsThousand("1,234.56", ",", '.') && IsThousand("1.234,56", ".", ',')
  {
  }

  /** 1,234.56 and 1.234,56 are one amount. */
  lemma {:induction false} BothStyles()
    ensures ReadsAs("1,234.56", 1234.56) && ReadsAs("1.234,56", 1234.56)
  {
    Texts();
    MixedThousand();
    Thousand("1,234.56", ",", '.', 1234.56);
    Thousand("1.234,56", ".", ',', 1234.56);
  }

  lemma {:induction false} Thousand(text: string, sep: string, o: char, v: real)
    requires Style(sep, o) && |sep| == 1 && Mark(sep[0]) && IsMixed("1234", "56", v) && IsThousand(text, sep, o)
    ensures ReadsAs(text, v)
  {
    WrittenThousand(sep, o);
    FractionReadsBack("1234", sep, o, "56");
  }

  lemma {:induction false} WrittenThousand(sep: string, o: char)
    ensures Written("1234", sep, o, "56") == "1" + sep + "234" + [o] + "56"
  {
    ShortUnmarked("34", sep, false);
    assert "1234"[1..] == "234" && "234"[1..] == "34";
    assert Marked("234", sep, false) == sep + "234";
    assert Marked("1234", sep, true) == ['1'] + (sep + "234");
  }

  lemma {:induction false} MixedThousand()
    ensures IsMixed("1234", "56", 1234.56)
  {
    assert "1234"[..3] == "123" && "123"[..2] == "12" && "12"[..1] == "1" && "1"[..0] == "" && "56"[..1] == "5" && "5"[..0] == "";
    assert Value("1") == 1 && Value("12") == 12 && Value("123") == 123 && Value("1234") == 1234;
    assert Value("5") == 5 && Value("56") == 56;
    assert Pow10(1) == 10 && Pow10(2) == 100;
  }
}
