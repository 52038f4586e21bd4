/** When a clamped label keeps the digit grouping of the label it came from, and which amount it then reads. */
module MoneyGrouping {
  import opened JsText
  import opened Decimal
  import opened MoneyNumber
  import opened MoneyLabel
  import opened MoneyTokens
  import MoneyGo
  import MoneyTs
  import MoneyDecimals

  /** The separators a label's grouping is recognised by. */
  predicate Grouper(c: char) { c == ',' || c == '.' || c == ' ' || c == '\U{A0}' || c == '\U{202F}' }

  /** Every character counts at least one, and a digit exactly one. */
  ghost predicate Counted(f: Flavour) { forall c :: f.size(c) >= 1 && (IsDigit(c) ==> f.size(c) == 1) }

  lemma {:induction false} BothCount()
    ensures Counted(MoneyGo.GO) && Counted(MoneyTs.TS)
  {
  }

  lemma {:induction false} SizeAtLeast(f: Flavour, s: string)
    requires Counted(f)
    ensures Size(f, s) >= |s| && (AllDigits(s) ==> Size(f, s) == |s|)
  {
    if s != "" { SizeAtLeast(f, s[1..]); }
  }

  lemma {:induction false} Absent(s: string, c: char)
    requires c !in s
    ensures IndexOf(s, c) == |s|
  {
    if s != "" { Absent(s[1..], c); }
  }

  lemma {:induction false} FirstAt(a: string, c: char, b: string)
    requires c !in a
    ensures IndexOf(a + ([c] + b), c) == |a|
    decreases |a|
  {
    var s := a + ([c] + b);
    if a != "" {
      assert s[1..] == a[1..] + ([c] + b) && s[0] == a[0];
      FirstAt(a[1..], c, b);
    }
  }

  /** No separator is written before a digit of the first group. */
  lemma {:induction false} PlainStep(d: string, c: char, first: bool)
    requires d != "" && (first || |d| % 3 != 0)
    ensures Marked(d, [c], first) == [d[0]] + Marked(d[1..], [c], false)
  {
  }

  lemma {:induction false} Cut(d: string, n: nat, rest: string)
    requires 1 < n < |d|
    ensures [d[0]] + (d[1..][..n - 1] + rest) == d[..n] + rest && d[1..][n - 1..] == d[n..]
  {
  }

  /** A grouped number starts with its first group, as it is. */
  lemma {:induction false} FirstGroup(d: string, c: char, n: nat, first: bool)
    requires 1 <= n < |d| && n <= (if first then 3 else 2) && (|d| - n) % 3 == 0
    ensures Marked(d, [c], first) == d[..n] + Marked(d[n..], [c], false)
    decreases n
  {
    PlainStep(d, c, first);
    if n == 1 {
      assert d[..1] == [d[0]];
    } else {
      FirstGroup(d[1..], c, n - 1, false);
      Cut(d, n, Marked(d[n..], [c], false));
    }
  }

  /** One to three digits come before groups of three; from seven digits on there are two such groups. */
  lemma {:induction false} FirstLength(k: nat, n: nat)
    requires k > 3 && n == (k - 1) % 3 + 1
    ensures 1 <= n <= 3 && (k - n) % 3 == 0 && k - n >= 3 && (k <= 6 ==> k - n == 3) && (k > 6 ==> k - n > 3)
  {
  }

  /** A grouped number of more than three digits is its first group, the separator and at least three more characters. */
  lemma {:induction false} Groups(d: string, c: char, n: nat)
    requires AllDigits(d) && |d| > 3 && !IsDigit(c) && n == (|d| - 1) % 3 + 1
    ensures exists b :: IsRest(d, c, n, b)
  {
    FirstLength(|d|, n);
    FirstGroup(d, c, n, true);
    var tail := d[n..];
    var b := [tail[0]] + Marked(tail[1..], [c], false);
    AfterFirstGroup(tail, c);
    assert IsRest(d, c, n, b);
  }

  lemma {:induction false} AfterFirstGroup(tail: string, c: char)
    requires AllDigits(tail) && |tail| >= 3 && |tail| % 3 == 0
    ensures var b := [tail[0]] + Marked(tail[1..], [c], false);
      Marked(tail, [c], false) == [c] + b && |b| >= |tail| && (|tail| == 3 ==> b == tail)
  {
    TailLength(tail[1..], c);
    if |tail| == 3 { MoneyTail(tail, c); }
  }

  predicate IsRest(d: string, c: char, n: nat, b: string) {
    n <= |d| && Marked(d, [c], true) == d[..n] + ([c] + b) && (if |d| <= 6 then |b| == 3 && AllDigits(b) else |b| > 3)
  }

  lemma {:induction false} TailLength(d: string, c: char)
    ensures |Marked(d, [c], false)| >= |d|
  {
    if d != "" { TailLength(d[1..], c); }
  }

  lemma {:induction false} MoneyTail(tail: string, c: char)
    requires AllDigits(tail) && |tail| == 3
    ensures [tail[0]] + Marked(tail[1..], [c], false) == tail
  {
    var t := tail[1..];
    assert t[1..][1..] == "" && Marked("", [c], false) == "";
    assert Marked(t[1..], [c], false) == [t[1]];
    assert Marked(t, [c], false) == [t[0]] + [t[1]];
    assert tail == [tail[0]] + ([t[0]] + [t[1]]);
  }

  /** The first separator has three characters behind it exactly in numbers of four to six digits. */
  lemma {:induction false} SeparatesIff(f: Flavour, d: string, c: char)
    requires Counted(f) && AllDigits(d) && d != "" && !IsDigit(c)
    ensures Separates(f, Marked(d, [c], true), c) <==> 4 <= |d| <= 6
  {
    var m := Marked(d, [c], true);
    if |d| <= 3 {
      MoneyDecimals.ShortUnmarked(d, [c], true);
      Absent(m, c);
    } else {
      var n := (|d| - 1) % 3 + 1;
      Groups(d, c, n);
      var b :| IsRest(d, c, n, b);
      FirstAt(d[..n], c, b);
      assert m[n + 1..] == b;
      SizeAtLeast(f, b);
    }
  }

  lemma {:induction false} OtherAbsent(f: Flavour, d: string, c: char, x: char)
    requires AllDigits(d) && !IsDigit(c) && !IsDigit(x) && x != c
    ensures !Separates(f, Marked(d, [c], true), x)
  {
    MarkedMembers(d, c, true);
    Absent(Marked(d, [c], true), x);
  }

  /** The grouping of a number is recognised exactly when it has four to six digits. */
  lemma {:induction false} GroupingFoundIff(f: Flavour, d: string, c: char)
    requires Counted(f) && AllDigits(d) && d != "" && Grouper(c)
    ensures SeparatorOf(f, Marked(d, [c], true)) == if 4 <= |d| <= 6 then [c] else ""
  {
    SeparatesIff(f, d, c);
    forall x | !IsDigit(x) && x != c ensures !Separates(f, Marked(d, [c], true), x) { OtherAbsent(f, d, c, x); }
  }

  /** What stands around the number of a label. */
  predicate Around(raw: string, pre: string, number: string, suf: string) { raw == pre + number + suf }

  /** Both clampings write the new amount in the label's own grouping exactly when the label had fewer than seven digits or the amount has fewer than four. */
  lemma {:induction false} GroupingKeptIff(f: Flavour, p: Parts, d: string, c: char, k: nat)
    requires Counted(f) && AllDigits(d) && |d| > 3 && Grouper(c) && p.number == Marked(d, [c], true)
    ensures Around(Rewritten(f, p, k), p.prefix, Marked(Digits(k), [c], true), p.suffix) <==> |d| < 7 || |Digits(k)| < 4
  {
    var e := Digits(k);
    GroupingFoundIff(f, d, c);
    MarkedWithout(e, true);
    if |e| < 4 {
      MoneyDecimals.ShortUnmarked(e, [c], true);
    } else if |d| >= 7 {
      MarkedMembers(e, c, true);
      assert c !in e;
      SameMiddle(p.prefix, e, Marked(e, [c], true), p.suffix);
    }
  }

  lemma {:induction false} SameMiddle(a: string, x: string, y: string, b: string)
    requires x != y
    ensures a + x + b != a + y + b
  {
    var s, t := a + x + b, a + y + b;
    assert |s| - |t| == |x| - |y|;
    assert s[|a|..|a| + |x|] == x && t[|a|..|a| + |y|] == y;
  }

  lemma {:induction false} DigitsLength(k: nat, n: nat)
    requires n >= 1
    ensures |Digits(k)| > n <==> k >= Pow10(n)
    decreases n
  {
    assert Pow10(1) == 10 by { assert Pow10(0) == 1; }
    if k >= 10 && n > 1 {
      DigitsLength(k / 10, n - 1);
    } else if n > 1 {
      PowersGrow(n);
    } else if k >= 10 {
      assert |Digits(k)| == |Digits(k / 10)| + 1;
    }
  }

  lemma {:induction false} PowersGrow(n: nat)
    requires n >= 1
    ensures Pow10(n) >= 10
  {
    if n > 1 { PowersGrow(n - 1); } else { assert Pow10(0) == 1; }
  }

  lemma {:induction false} Powers()
    ensures Pow10(3) == 1000 && Pow10(6) == 1000000
  {
    assert Pow10(0) == 1;
    assert Pow10(1) == 10;
    assert Pow10(2) == 100;
    assert Pow10(4) == 10000;
    assert Pow10(5) == 100000;
  }

  /** A storefront label worth more than the cap is rewritten. */
  lemma {:induction false} OverIsRewritten(raw: string, token: string, code: string, n: nat, sep: string, cap: real)
    requires 1.0 <= cap < n as real && Names(token, code) && MoneyTs.TsSeparator(sep)
    requires raw == token + ("" + Marked(Digits(n), sep, true))
    ensures MoneyTs.Clamped(raw, cap) == Rewritten(MoneyTs.TS, Parts(token + "", Marked(Digits(n), sep, true), "", token), cap.Floor)
  {
    MoneyTs.TsIsRegular();
    MarkedBounded(Digits(n), sep, true);
    MarkedShape(MoneyTs.TS, Digits(n), sep, true);
    TakesFront(MoneyTs.TS, token, code, "", Marked(Digits(n), sep, true));
    TakesLabel(MoneyTs.TS, raw, token, code, "", Marked(Digits(n), sep, true));
    MoneyTs.PrintedAmount(n, sep);
    OverIsClamped(raw, cap);
  }

  lemma {:induction false} OverIsClamped(raw: string, cap: real)
    requires 1.0 <= cap < MoneyTs.Amount(Take(MoneyTs.TS, raw).number) && NumberShape(MoneyTs.TS, Take(MoneyTs.TS, raw).number)
    requires raw != "" && Tight(IsSpace, raw)
    ensures MoneyTs.Clamped(raw, cap) == Rewritten(MoneyTs.TS, Take(MoneyTs.TS, raw), cap.Floor)
  {
    MoneyTs.LabelValue(raw);
  }

  predicate Million(n: nat) { n >= 1000000 }

  predicate Thousand(k: nat) { k >= 1000 }

  lemma {:induction false} MillionDigits(n: nat, k: nat)
    ensures (Million(n) <==> |Digits(n)| > 6) && (Thousand(k) <==> |Digits(k)| > 3)
  {
    Powers();
    DigitsLength(n, 6);
    DigitsLength(k, 3);
  }

  lemma {:induction false} PlainDiffers(token: string, k: nat, c: char)
    requires |Digits(k)| > 3 && Grouper(c)
    ensures (token + "") + Marked(Digits(k), "", true) + "" == token + Digits(k) != token + Marked(Digits(k), [c], true)
  {
    var e, m := Digits(k), Marked(Digits(k), [c], true);
    MarkedWithout(e, true);
    MarkedMembers(e, c, true);
    assert c !in e;
    assert (token + "") + e + "" == token + e;
    SameMiddle(token, e, m, "");
    assert token + e + "" == token + e && token + m + "" == token + m;
  }

  /** A storefront label from a million up is clamped to plain digits, however it was grouped. */
  lemma {:induction false} MillionsLoseGroups(raw: string, token: string, code: string, n: nat, c: char, cap: real)
    requires Million(n) && 1000.0 <= cap < n as real && Grouper(c) && Names(token, code)
    requires raw == token + ("" + Marked(Digits(n), [c], true))
    ensures MoneyTs.Clamped(raw, cap) == token + Digits(cap.Floor) != token + Marked(Digits(cap.Floor), [c], true)
  {
    MillionDigits(n, cap.Floor);
    BothCount();
    OverIsRewritten(raw, token, code, n, [c], cap);
    GroupingFoundIff(MoneyTs.TS, Digits(n), c);
    PlainDiffers(token, cap.Floor, c);
  }

  // ---- which amount a backend clamp writes

  /** Lower or upper case letters, whichever. */
  predicate Spelled(s: string, code: string) {
    |s| == |code| && forall i :: 0 <= i < |s| ==> s[i] == code[i] || s[i] as int == code[i] as int + 32
  }

  lemma {:induction false} SpelledCode(s: string, code: string)
    requires ThreeCapitals(code) && Spelled(s, code)
    ensures MoneyGo.Normal(s) == code
  {
    TightIsTrimmed(MoneyGo.UnicodeSpace, s);
  }

  /** With a known positive rate, a money label is clamped exactly when one unit is worth no more than the cap, to the largest whole amount within it. */
  lemma {:induction false} ClampsAtRate(rates: MoneyGo.Rates, text: string, cap: real, s: string, code: string, rate: real)
    requires ThreeCapitals(code) && Spelled(s, code) && code in rates && rates[code] == rate > 0.0
    requires NumberShape(MoneyGo.GO, Take(MoneyGo.GO, TrimBy(MoneyGo.UnicodeSpace, text)).number)
    ensures MoneyGo.Clamped(rates, text, cap, s) != "" <==> rate <= cap
    ensures rate <= cap ==>
      exists k: nat :: MoneyGo.LargestUnder(k, rate, cap)
        && MoneyGo.Parsed(MoneyGo.Clamped(rates, text, cap, s)) == MoneyGo.Money(k as real, MoneyGo.Parsed(text).code)
  {
    SpelledCode(s, code);
    MoneyGo.LargestWhole(cap, rate);
    OneUnit(cap, rate);
    if rate <= cap {
      assert MoneyGo.CapLocal(rates, cap, s) == (cap / rate).Floor;
      RewrittenNonEmpty(text, (cap / rate).Floor);
      MoneyGo.ClampReadsBack(rates, text, cap, s);
    }
  }

  lemma {:induction false} OneUnit(cap: real, rate: real)
    requires rate > 0.0
    ensures cap / rate >= 1.0 <==> rate <= cap
  {
    var q := cap / rate;
    assert q * rate == cap;
    if q >= 1.0 { assert (q - 1.0) * rate >= 0.0; } else { assert (1.0 - q) * rate > 0.0; }
  }

  lemma {:induction false} RewrittenNonEmpty(text: string, k: nat)
    requires NumberShape(MoneyGo.GO, Take(MoneyGo.GO, TrimBy(MoneyGo.UnicodeSpace, text)).number)
    ensures Rewritten(MoneyGo.GO, Take(MoneyGo.GO, TrimBy(MoneyGo.UnicodeSpace, text)), k) != ""
  {
    MoneyGo.GoIsRegular();
    MoneyGo.ShapeBounded(Take(MoneyGo.GO, TrimBy(MoneyGo.UnicodeSpace, text)).number);
    RewrittenParts(MoneyGo.GO, TrimBy(MoneyGo.UnicodeSpace, text), k);
  }

  /** An unknown currency is never clamped. */
  lemma {:induction false} UnknownNotClamped(rates: MoneyGo.Rates, text: string, cap: real, s: string, code: string)
    requires ThreeCapitals(code) && Spelled(s, code) && code !in rates
    ensures MoneyGo.Clamped(rates, text, cap, s) == ""
  {
    SpelledCode(s, code);
  }
}
