/** Amounts with grouping marks: how a number is read, and how one is written in the style of a label. */
module MoneyNumber {
  import opened Decimal

  predicate Mark(c: char) { c == '.' || c == ',' }

  /** The digits and marks of a text. */
  function Core(s: string): string {
    if s == "" then "" else (if IsDigit(s[0]) || Mark(s[0]) then [s[0]] else "") + Core(s[1..])
  }

  function Remove(t: string, c: char): string {
    if t == "" then "" else (if t[0] == c then "" else [t[0]]) + Remove(t[1..], c)
  }

  function ReplaceAll(t: string, c: char, d: char): string {
    seq(|t|, i requires 0 <= i < |t| => if t[i] == c then d else t[i])
  }

  function ReplaceFirst(t: string, c: char, d: char): string {
    if t == "" then "" else if t[0] == c then [d] + t[1..] else [t[0]] + ReplaceFirst(t[1..], c, d)
  }

  /** The last position of a character, or -1. */
  function LastIndex(t: string, c: char): (i: int)
    ensures -1 <= i < |t|
    ensures i >= 0 ==> t[i] == c
    ensures i < 0 <==> c !in t
  {
    if t == "" then -1 else if t[|t| - 1] == c then |t| - 1
    else
      assert t == t[..|t| - 1] + [t[|t| - 1]];
      LastIndex(t[..|t| - 1], c)
  }

  /** The pieces between the occurrences of a character. */
  function Split(t: string, c: char): (parts: seq<string>)
    ensures |parts| >= 1
  {
    if t == "" then [""]
    else
      var rest := Split(t[1..], c);
      if t[0] == c then [""] + rest else [[t[0]] + rest[0]] + rest[1..]
  }

  /** The character splits off thousands: every piece after the first has three characters. */
  predicate Grouped(t: string, c: char) {
    var parts := Split(t, c);
    |parts| > 1 && forall i :: 1 <= i < |parts| ==> |parts[i]| == 3
  }

  /** Decides which marks are thousands separators and which is the decimal point. */
  function Regroup(t: string): string {
    var lastDot, lastComma := LastIndex(t, '.'), LastIndex(t, ',');
    if lastDot >= 0 && lastComma >= 0 then
      if lastDot > lastComma then Remove(t, ',') else ReplaceAll(Remove(t, '.'), ',', '.')
    else if lastComma >= 0 then
      if Grouped(t, ',') then Remove(t, ',') else ReplaceFirst(t, ',', '.')
    else if lastDot >= 0 && Grouped(t, '.') then Remove(t, '.')
    else t
  }

  // ---- decimal numbers

  function Pow10(n: nat): (p: int)
    ensures p > 0
  {
    if n == 0 then 1 else 10 * Pow10(n - 1)
  }

  /** The position of the first decimal point, or the length. */
  function Point(t: string): (i: nat)
    ensures i <= |t| && (i < |t| ==> t[i] == '.')
    ensures forall j :: 0 <= j < i ==> t[j] != '.'
  {
    if t == "" || t[0] == '.' then 0 else 1 + Point(t[1..])
  }

  /** The value of digits with at most one decimal point. */
  function DecimalValue(t: string): real {
    var i := Point(t);
    if i == |t| then Value(t) as real
    else Value(t[..i]) as real + Value(t[i + 1..]) as real / Pow10(|t| - i - 1) as real
  }

  /** Digits with at most one decimal point. */
  predicate OneDecimal(t: string) {
    var i := Point(t);
    AllDigits(t[..i]) && (i < |t| ==> AllDigits(t[i + 1..]))
  }

  /** Go's ParseFloat on digits and marks: anything but a decimal number is an error, and reads as zero. */
  function Strict(t: string): real { if OneDecimal(t) then DecimalValue(t) else 0.0 }

  /** The longest decimal number a text starts with. */
  function LeadingNumber(t: string): string {
    var i := Run(t);
    if i < |t| && t[i] == '.' then t[..i + 1 + Run(t[i + 1..])] else t[..i]
  }

  /** How many digits a text starts with. */
  function Run(t: string): (i: nat)
    ensures i <= |t| && AllDigits(t[..i]) && (i < |t| ==> !IsDigit(t[i]))
  {
    if t == "" || !IsDigit(t[0]) then 0
    else
      var i := Run(t[1..]);
      assert forall j :: 0 < j <= i ==> t[j] == t[1..][j - 1];
      1 + i
  }

  /** JavaScript's parseFloat on a text that starts with a digit: what follows the number is ignored. */
  function Lenient(t: string): real { DecimalValue(LeadingNumber(t)) }

  /** A decimal number is its own leading number; of anything else a proper part is ignored. */
  lemma {:induction false} LeadingNumberWholeIff(t: string)
    ensures OneDecimal(t) <==> LeadingNumber(t) == t
  {
    var i, k := Point(t), Run(t);
    assert forall j :: 0 <= j < k ==> IsDigit(t[..k][j]) && t[..k][j] == t[j];
    assert i >= k;
    if OneDecimal(t) {
      assert forall j :: 0 <= j < i ==> IsDigit(t[..i][j]) && t[..i][j] == t[j];
      assert k == i;
      if i < |t| { DigitsRun(t[i + 1..]); }
    }
    if LeadingNumber(t) == t {
      assert k < |t| ==> t[k] == '.' && i == k && Run(t[k + 1..]) == |t[k + 1..]|;
      DigitsRun(if k < |t| then t[k + 1..] else t);
    }
  }

  lemma {:induction false} DigitsRun(t: string)
    ensures AllDigits(t) <==> Run(t) == |t|
  {
    var i := Run(t);
    assert i == |t| ==> t[..i] == t;
  }

  lemma {:induction false} LeadingIsDecimal(t: string)
    ensures OneDecimal(LeadingNumber(t))
  {
    var i, n := Run(t), LeadingNumber(t);
    if |n| > i {
      var rest := t[i + 1..];
      assert n[..i] == t[..i] && n[i] == '.' && n[i + 1..] == rest[..Run(rest)];
      PointAt(n, i);
    } else {
      assert n == t[..i];
      PointAt(n, i);
    }
  }

  lemma {:induction false} PointAt(t: string, i: nat)
    requires i <= |t| && AllDigits(t[..i]) && (i < |t| ==> t[i] == '.')
    ensures Point(t) == i
  {
    assert forall j :: 0 <= j < i ==> t[j] == t[..i][j];
  }

  predicate Zeros(s: string) { forall i :: 0 <= i < |s| ==> s[i] == '0' || s[i] == '.' }

  lemma {:induction false} ValueZeroIff(s: string)
    requires AllDigits(s)
    ensures Value(s) >= 0 && (Value(s) == 0 <==> Zeros(s))
  {
    if s != "" { ValueZeroIff(s[..|s| - 1]); }
  }

  /** A decimal number is zero exactly when it is written with zeros alone. */
  lemma {:induction false} DecimalZeroIff(t: string)
    requires OneDecimal(t)
    ensures DecimalValue(t) == 0.0 <==> Zeros(t)
  {
    var i := Point(t);
    if i == |t| {
      assert t[..i] == t;
      ValueZeroIff(t);
    } else {
      var a, b := t[..i], t[i + 1..];
      ValueZeroIff(a);
      ValueZeroIff(b);
      assert t == a + ['.'] + b;
      SumZero(Value(a), Value(b), Pow10(|b|));
    }
  }

  lemma {:induction false} DecimalNonNegative(t: string)
    requires OneDecimal(t)
    ensures DecimalValue(t) >= 0.0
  {
    var i := Point(t);
    if i == |t| {
      assert t[..i] == t;
      ValueZeroIff(t);
    } else {
      ValueZeroIff(t[..i]);
      ValueZeroIff(t[i + 1..]);
      SumZero(Value(t[..i]), Value(t[i + 1..]), Pow10(|t| - i - 1));
    }
  }

  lemma {:induction false} SumZero(a: int, b: int, p: int)
    requires a >= 0 && b >= 0 && p > 0
    ensures a as real + b as real / p as real >= 0.0
    ensures a as real + b as real / p as real == 0.0 <==> a == 0 && b == 0
  {
    assert b as real / p as real >= 0.0;
    assert b as real / p as real == 0.0 <==> b == 0;
  }

  /**
   The strict and the lenient reading agree exactly on decimal numbers and on texts whose
   leading number is written with zeros alone.
   */
  lemma {:induction false} ReadingsAgreeIff(t: string)
    ensures Strict(t) == Lenient(t) <==> OneDecimal(t) || Zeros(LeadingNumber(t))
  {
    LeadingNumberWholeIff(t);
    LeadingIsDecimal(t);
    DecimalZeroIff(LeadingNumber(t));
  }

  // ---- writing whole amounts

  /** The digits with the separator before every group of three, but not in front. */
  function Marked(d: string, sep: string, first: bool): string {
    if d == "" then ""
    else
      var rest := [d[0]] + Marked(d[1..], sep, false);
      if !first && |d| % 3 == 0 then sep + rest else rest
  }

  /** A separator: nothing, a mark, or something that is neither digit nor mark. */
  predicate Separator(sep: string) { |sep| <= 1 && forall c :: c in sep ==> !IsDigit(c) }

  lemma {:induction false} CoreConcat(s: string, t: string)
    ensures Core(s + t) == Core(s) + Core(t)
  {
    if s == "" {
      assert s + t == t;
    } else {
      var rest := s[1..] + t;
      CoreConcat(s[1..], t);
      assert s + t == [s[0]] + rest && s == [s[0]] + s[1..];
    }
  }

  /** A separator that is no mark disappears; a mark stays. */
  lemma {:induction false} CoreOfMarked(d: string, sep: string, first: bool)
    requires AllDigits(d) && Separator(sep)
    ensures Core(Marked(d, sep, first)) == Marked(d, if sep != "" && Mark(sep[0]) then sep else "", first)
  {
    if d != "" {
      var rest := Marked(d[1..], sep, false);
      CoreOfMarked(d[1..], sep, false);
      if !first && |d| % 3 == 0 { CoreOfSeparator(sep, [d[0]] + rest); }
    }
  }

  lemma {:induction false} CoreOfSeparator(sep: string, rest: string)
    requires Separator(sep)
    ensures Core(sep + rest) == (if sep != "" && Mark(sep[0]) then sep else "") + Core(rest)
  {
    if sep == "" {
      assert sep + rest == rest;
    } else {
      assert sep == [sep[0]];
    }
  }

  lemma {:induction false} MarkedWithout(d: string, first: bool)
    ensures Marked(d, "", first) == d
  {
    if d != "" {
      MarkedWithout(d[1..], false);
      var rest := [d[0]] + Marked(d[1..], "", false);
      assert rest == d && "" + rest == rest;
    }
  }

  lemma {:induction false} RemoveMarked(d: string, c: char, first: bool)
    requires AllDigits(d) && !IsDigit(c)
    ensures Remove(Marked(d, [c], first), c) == d
  {
    if d != "" {
      var rest := Marked(d[1..], [c], false);
      RemoveMarked(d[1..], c, false);
    }
  }

  predicate Pieces(parts: seq<string>, first: nat, n: nat) {
    |parts| == n && n > 0 && |parts[0]| == first && forall i :: 1 <= i < n ==> |parts[i]| == 3
  }

  /** Splitting at the separator: the first piece is what is left over, every other one has three digits. */
  lemma {:induction false} SplitMarked(d: string, c: char)
    requires AllDigits(d) && !IsDigit(c)
    ensures Pieces(Split(Marked(d, [c], false), c), |d| % 3, 1 + |d| / 3)
  {
    if d != "" {
      var rest := Marked(d[1..], [c], false);
      SplitMarked(d[1..], c);
      if |d| % 3 == 0 { SplitMark([d[0]] + rest, c); }
    }
  }

  lemma {:induction false} SplitMarkedNumber(d: string, c: char)
    requires AllDigits(d) && !IsDigit(c) && d != ""
    ensures Pieces(Split(Marked(d, [c], true), c), (|d| - 1) % 3 + 1, 1 + (|d| - 1) / 3)
  {
    var rest := Marked(d[1..], [c], false);
    SplitMarked(d[1..], c);
  }

  lemma {:induction false} SplitMark(rest: string, c: char)
    ensures Split([c] + rest, c) == [""] + Split(rest, c)
  {
    assert ([c] + rest)[1..] == rest;
  }

  lemma {:induction false} MarkedMembers(d: string, c: char, first: bool)
    requires AllDigits(d) && !IsDigit(c)
    ensures forall x :: x in Marked(d, [c], first) ==> IsDigit(x) || x == c
    ensures c in Marked(d, [c], first) <==> |d| >= if first then 4 else 3
  {
    if d != "" { MarkedMembers(d[1..], c, false); }
  }

  /** A number written in groups reads back as its digits, for each separator and any number of digits. */
  lemma {:induction false} MarkedReadsBack(d: string, sep: string)
    requires AllDigits(d) && d != "" && Separator(sep)
    ensures Regroup(Core(Marked(d, sep, true))) == d
  {
    CoreOfMarked(d, sep, true);
    if sep != "" && Mark(sep[0]) {
      var c := sep[0];
      assert sep == [c];
      MarkedMembers(d, c, true);
      RemoveMarked(d, c, true);
      SplitMarkedNumber(d, c);
      if |d| < 4 { NothingToRemove(Marked(d, sep, true), c); }
    } else {
      MarkedWithout(d, true);
    }
  }

  lemma {:induction false} NothingToRemove(t: string, c: char)
    requires c !in t
    ensures Remove(t, c) == t
  {
    if t != "" { NothingToRemove(t[1..], c); }
  }

  /** Digits alone are a decimal number, and its value is theirs. */
  lemma {:induction false} DigitsRead(d: string)
    requires AllDigits(d)
    ensures OneDecimal(d) && Strict(d) == Lenient(d) == Value(d) as real
  {
    assert Point(d) == |d|;
    assert d[..|d|] == d;
    LeadingNumberWholeIff(d);
  }
}
