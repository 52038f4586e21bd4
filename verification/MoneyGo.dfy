/** The backend's money labels: reading an amount, and rewriting a label to the largest amount under a cap. */
module MoneyGo {
  import opened JsText
  import opened Decimal
  import opened MoneyNumber
  import opened MoneyLabel

  predicate PatternSpace(c: char) { c as int in {9, 10, 12, 13, 32} }

  predicate UnicodeSpace(c: char) {
    var u := c as int;
    9 <= u <= 13 || u in {0x20, 0x85, 0xA0, 0x1680, 0x2028, 0x2029, 0x202F, 0x205F, 0x3000} || 0x2000 <= u <= 0x200A
  }

  predicate NumberBlank(c: char) { PatternSpace(c) || c == NBSP || c == NNBSP }

  /** Bytes of a character in UTF-8. */
  function Utf8Size(c: char): nat {
    var u := c as int;
    if u < 0x80 then 1 else if u < 0x800 then 2 else if u < 0x10000 then 3 else 4
  }

  const GO: Flavour := Flavour(PatternSpace, UnicodeSpace, NumberBlank, Utf8Size)

  lemma {:induction false} GoIsRegular()
    ensures Regular(GO)
  {
  }

  // ---- reading an amount

  predicate Kept(c: char) { IsDigit(c) || Mark(c) }

  /** Without what is not a digit at both ends. */
  function CutStart(t: string): string { if t != "" && !IsDigit(t[0]) then CutStart(t[1..]) else t }
  function CutEnd(t: string): string { if t != "" && !IsDigit(t[|t| - 1]) then CutEnd(t[..|t| - 1]) else t }
  function Cut(t: string): string { CutEnd(CutStart(t)) }

  /** The amount a text reads as. */
  function Amount(s: string): real { if Cut(Core(s)) == "" then 0.0 else Strict(Regroup(Cut(Core(s)))) }

  /** Copies digits and marks, and one space for every run of blanks after a digit. */
  method Collect(s: string) returns (b: string)
    ensures Core(b) == Core(s)
    ensures forall i :: 0 <= i < |b| ==> Kept(b[i]) || b[i] == ' '
  {
    b := "";
    var lastDigit := false;
    for i := 0 to |s|
      invariant Core(b) == Core(s[..i])
      invariant forall c :: c in b ==> Kept(c) || c == ' '
    {
      var r := s[i];
      CoreSnoc(s[..i], r);
      assert s[..i + 1] == s[..i] + [r];
      if IsDigit(r) {
        CoreSnoc(b, r);
        b := b + [r];
        lastDigit := true;
      } else if r == '.' || r == ',' {
        CoreSnoc(b, r);
        b := b + [r];
        lastDigit := false;
      } else if r == ' ' || r == NBSP || r == NNBSP {
        if lastDigit {
          CoreSnoc(b, ' ');
          b := b + [' '];
          lastDigit := false;
        }
      } else {
        lastDigit := false;
      }
    }
    assert s[..|s|] == s;
  }

  lemma {:induction false} CoreSnoc(s: string, c: char)
    ensures Core(s + [c]) == Core(s) + if Kept(c) then [c] else ""
  {
    CoreConcat(s, [c]);
    assert [c][1..] == "";
  }

  predicate NoDigit(s: string) { forall c :: c in s ==> !IsDigit(c) }

  /** The first and the last digit of a text, or -1 for both. */
  method Ends(b: string) returns (first: int, last: int)
    ensures first == -1 ==> NoDigit(b)
    ensures first != -1 ==> 0 <= first <= last < |b| && IsDigit(b[first]) && IsDigit(b[last]) && NoDigit(b[..first]) && NoDigit(b[last + 1..])
  {
    first, last := -1, -1;
    for i := 0 to |b|
      invariant first == -1 ==> forall j :: 0 <= j < i ==> !IsDigit(b[j])
      invariant first != -1 ==> 0 <= first <= last < i && IsDigit(b[first]) && IsDigit(b[last])
      invariant first != -1 ==> forall j :: 0 <= j < first || last < j < i ==> !IsDigit(b[j])
    {
      if IsDigit(b[i]) {
        if first < 0 { first := i; }
        last := i;
      }
    }
  }

  lemma {:induction false} CoreMembers(s: string, c: char)
    ensures c in Core(s) <==> c in s && Kept(c)
  {
    if s != "" { CoreMembers(s[1..], c); }
  }

  lemma {:induction false} CoreNoDigit(s: string)
    requires NoDigit(s)
    ensures NoDigit(Core(s))
  {
    forall c | c in Core(s) ensures !IsDigit(c) { CoreMembers(s, c); }
  }

  lemma {:induction false} CutStartSkips(x: string, t: string)
    requires NoDigit(x)
    ensures CutStart(x + t) == CutStart(t)
  {
    if x == "" {
      assert x + t == t;
    } else {
      assert (x + t)[1..] == x[1..] + t;
      CutStartSkips(x[1..], t);
    }
  }

  lemma {:induction false} CutEndSkips(t: string, y: string)
    requires NoDigit(y)
    ensures CutEnd(t + y) == CutEnd(t)
  {
    if y == "" {
      assert t + y == t;
    } else {
      assert (t + y)[..|t + y| - 1] == t + y[..|y| - 1];
      CutEndSkips(t, y[..|y| - 1]);
    }
  }

  lemma {:induction false} CutBetween(x: string, m: string, y: string)
    requires NoDigit(x) && NoDigit(y) && (m == "" || Bounded(m))
    ensures Cut(x + m + y) == m
  {
    assert x + m + y == x + (m + y);
    CutStartSkips(x, m + y);
    if m == "" {
      assert m + y == y;
      CutStartSkips(y, "");
      assert y + "" == y;
    } else {
      CutEndSkips(m, y);
    }
  }

  /** Core keeps the digits at both ends. */
  lemma {:induction false} CoreBounded(m: string)
    requires Bounded(m)
    ensures Bounded(Core(m))
  {
    assert m == [m[0]] + m[1..];
    CoreSnoc(m[..|m| - 1], m[|m| - 1]);
    assert m == m[..|m| - 1] + [m[|m| - 1]];
  }

  lemma {:induction false} CutOfCore(b: string, first: nat, last: nat)
    requires first <= last < |b| && IsDigit(b[first]) && IsDigit(b[last]) && NoDigit(b[..first]) && NoDigit(b[last + 1..])
    ensures Cut(Core(b)) == Core(b[first..last + 1]) != ""
  {
    var x, m, y := b[..first], b[first..last + 1], b[last + 1..];
    assert b == x + m + y;
    CoreConcat(x + m, y);
    CoreConcat(x, m);
    CoreNoDigit(x);
    CoreNoDigit(y);
    assert Bounded(m);
    CoreBounded(m);
    CutBetween(Core(x), Core(m), Core(y));
  }

  /** Removing the spaces leaves the digits and marks. */
  lemma {:induction false} RemoveSpaces(t: string)
    requires forall i :: 0 <= i < |t| ==> Kept(t[i]) || t[i] == ' '
    ensures Remove(t, ' ') == Core(t)
  {
    if t != "" { RemoveSpaces(t[1..]); }
  }

  /** The pieces after the first all have three characters. */
  method AllThrees(parts: seq<string>) returns (grouped: bool)
    requires |parts| >= 1
    ensures grouped <==> |parts| > 1 && forall i :: 1 <= i < |parts| ==> |parts[i]| == 3
  {
    grouped := |parts| > 1;
    for i := 1 to |parts|
      invariant grouped ==> forall j :: 1 <= j < i ==> |parts[j]| == 3
      invariant grouped <==> |parts| > 1
    {
      if |parts[i]| != 3 { return false; }
    }
  }

  method ParseMoneyAmountRaw(s: string) returns (f: real)
    ensures f == Amount(s)
  {
    if s == "" { return 0.0; }
    var b := Collect(s);
    var first, last := Ends(b);
    if first < 0 {
      CoreNoDigit(b);
      CutBetween(Core(b), "", "");
      assert Core(b) + "" + "" == Core(b);
      return 0.0;
    }
    CutOfCore(b, first, last);
    RemoveSpaces(b[first..last + 1]);
    var t := Remove(b[first..last + 1], ' ');
    t := Ungroup(t);
    f := Strict(t);
  }

  /** Drops or rewrites the marks. */
  method Ungroup(s: string) returns (t: string)
    ensures t == Regroup(s)
  {
    t := s;
    var lastDot, lastComma := LastIndex(t, '.'), LastIndex(t, ',');
    if lastDot >= 0 && lastComma >= 0 {
      if lastDot > lastComma { t := Remove(t, ','); } else { t := ReplaceAll(Remove(t, '.'), ',', '.'); }
    } else if lastComma >= 0 {
      var grouped := AllThrees(Split(t, ','));
      t := if grouped then Remove(t, ',') else ReplaceFirst(t, ',', '.');
    } else if lastDot >= 0 {
      var grouped := AllThrees(Split(t, '.'));
      if grouped { t := Remove(t, '.'); }
    }
  }

  // ---- reading a label

  datatype Money = Money(value: real, code: string)

  /** A label read as an amount and a currency; anything but a money label reads as nothing. */
  function Parsed(text: string): Money {
    var p := Take(GO, Western(TrimBy(UnicodeSpace, text)));
    var number := TrimBy(UnicodeSpace, p.number);
    if NumberShape(GO, number) then Money(Amount(number), CurrencyOf(p.token)) else Money(0.0, "")
  }

  method ParseDenominationLabel(text: string) returns (value: real, code: string)
    ensures Money(value, code) == Parsed(text)
  {
    var trimmed := TrimBy(UnicodeSpace, text);
    var raw := "";
    for i := 0 to |trimmed|
      invariant raw == Western(trimmed[..i])
    {
      raw := raw + [WesternDigit(trimmed[i])];
    }
    assert trimmed[..|trimmed|] == trimmed;
    var p := Take(GO, raw);
    raw := TrimBy(UnicodeSpace, p.number);
    if !NumberShape(GO, raw) { return 0.0, ""; }
    code := CurrencyOf(p.token);
    value := ParseMoneyAmountRaw(raw);
  }

  // ---- clamping a label

  /** Dollars per unit of the currencies the table knows. */
  type Rates = map<string, real>

  function RateOr(rates: Rates, code: string): (r: real)
    ensures r > 0.0
  {
    if code in rates && rates[code] > 0.0 then rates[code] else 1.0
  }

  function Normal(code: string): string { Upper(TrimBy(UnicodeSpace, code)) }

  /** The largest whole amount of the currency under the cap. */
  function CapLocal(rates: Rates, cap: real, code: string): int { (cap / RateOr(rates, Normal(code))).Floor }

  function Clamped(rates: Rates, text: string, cap: real, code: string): string {
    var p := Take(GO, TrimBy(UnicodeSpace, text));
    if cap <= 0.0 || Normal(code) !in rates || CapLocal(rates, cap, code) < 1 || !NumberShape(GO, p.number) then ""
    else Rewritten(GO, p, CapLocal(rates, cap, code))
  }

  /** The digits with a separator before every group of three. */
  method MarkThousands(digits: string, sep: string) returns (b: string)
    requires AllDigits(digits)
    ensures b == Marked(digits, sep, true)
  {
    b := "";
    for i := 0 to |digits|
      invariant b + Marked(digits[i..], sep, i == 0) == Marked(digits, sep, true)
    {
      assert digits[i..][1..] == digits[i + 1..];
      if i > 0 && (|digits| - i) % 3 == 0 { b := b + sep; }
      b := b + [digits[i]];
    }
  }

  method ClampMoneyLabel(rates: Rates, text: string, cap: real, code: string) returns (r: string)
    ensures r == Clamped(rates, text, cap, code)
  {
    if cap <= 0.0 || Normal(code) !in rates { return ""; }
    var capLocal := (cap / RateOr(rates, Normal(code))).Floor;
    if capLocal < 1 { return ""; }
    var p := Take(GO, TrimBy(UnicodeSpace, text));
    if !NumberShape(GO, p.number) { return ""; }
    var sep := SeparatorOf(GO, p.number);
    var digits := Digits(capLocal);
    if sep != "" {
      digits := MarkThousands(digits, sep);
    } else {
      MarkedWithout(digits, true);
    }
    r := p.prefix + digits + p.suffix;
  }

  // ---- what is printed reads back

  lemma {:induction false} ShapeCore(number: string)
    requires Bounded(number)
    ensures Cut(Core(number)) == Core(number) != ""
  {
    CoreBounded(number);
    CutBetween("", Core(number), "");
    assert "" + Core(number) + "" == Core(number);
  }

  /** A whole amount written in any grouping reads back as itself. */
  lemma {:induction false} PrintedAmount(k: nat, sep: string)
    requires Separator(sep)
    ensures Amount(Marked(Digits(k), sep, true)) == k as real
  {
    var d := Digits(k);
    MarkedBounded(d, sep, true);
    ShapeCore(Marked(d, sep, true));
    MarkedReadsBack(d, sep);
    DigitsRead(d);
    ValueOfDigits(k);
  }

  predicate NoForeignDigit(s: string) { forall i :: 0 <= i < |s| ==> WesternDigit(s[i]) == s[i] }

  lemma {:induction false} WesternSame(s: string)
    requires NoForeignDigit(s)
    ensures Western(s) == s
  {
  }

  /** Tokens, pattern spaces and the characters of numbers are no foreign digits. */
  lemma {:induction false} LabelWestern(raw: string)
    requires NumberShape(GO, Take(GO, raw).number)
    ensures NoForeignDigit(raw)
  {
    var p := Take(GO, raw);
    AffixWestern(raw);
    NumberWestern(p.number);
    TakeWhole(GO, raw);
  }

  lemma {:induction false} NumberWestern(number: string)
    requires NumberShape(GO, number)
    ensures NoForeignDigit(number)
  {
  }

  lemma {:induction false} AffixWestern(raw: string)
    ensures NoForeignDigit(Take(GO, raw).prefix) && NoForeignDigit(Take(GO, raw).suffix)
  {
    var k, b, n := FrontToken(raw), BackToken(raw), |raw|;
    if k > 0 {
      var w := PrefixLen(GO, raw);
      forall i | 0 <= i < w ensures WesternDigit(raw[i]) == raw[i] {
        if i < k { } else { assert PatternSpace(raw[k..][i - k]); }
      }
    } else if b > 0 {
      var w := SuffixLen(GO, raw);
      forall i | n - w <= i < n ensures WesternDigit(raw[i]) == raw[i] {
        if i >= n - b { BackTokenChar(raw, i); } else { assert PatternSpace(raw[..n - b][i]); }
      }
    }
  }

  lemma {:induction false} BackTokenChar(s: string, i: nat)
    requires |s| - BackToken(s) <= i < |s|
    ensures InToken(s[i]) && WesternDigit(s[i]) == s[i]
  {
    assert Code(s, i) == s[i] as int;
  }

  lemma {:induction false} ShapeBounded(number: string)
    requires NumberShape(GO, number)
    ensures Bounded(number) && TrimBy(UnicodeSpace, number) == number
  {
    TightIsTrimmed(UnicodeSpace, number);
  }

  /** A label whose number has the right shape reads as that number and the currency of its token. */
  lemma {:induction false} ParsedLabel(raw: string)
    requires Tight(UnicodeSpace, raw) && NumberShape(GO, Take(GO, raw).number)
    ensures Parsed(raw) == Money(Amount(Take(GO, raw).number), CurrencyOf(Take(GO, raw).token))
  {
    LabelWestern(raw);
    WesternSame(raw);
    TightIsTrimmed(UnicodeSpace, raw);
    ShapeBounded(Take(GO, raw).number);
  }

  lemma {:induction false} SeparatorBlank(number: string)
    ensures var sep := SeparatorOf(GO, number); sep == "" || Mark(sep[0]) || GO.blank(sep[0])
  {
  }

  lemma {:induction false} RewrittenReads(raw: string, k: nat)
    requires Tight(UnicodeSpace, raw) && NumberShape(GO, Take(GO, raw).number)
    ensures Parsed(Rewritten(GO, Take(GO, raw), k)) == Money(k as real, CurrencyOf(Take(GO, raw).token))
  {
    var p := Take(GO, raw);
    var sep := SeparatorOf(GO, p.number);
    GoIsRegular();
    ShapeBounded(p.number);
    RewrittenParts(GO, raw, k);
    SeparatorBlank(p.number);
    MarkedShape(GO, Digits(k), sep, true);
    ParsedLabel(Rewritten(GO, p, k));
    PrintedAmount(k, sep);
  }

  lemma {:induction false} ParsedTrimmed(text: string)
    ensures Parsed(TrimBy(UnicodeSpace, text)) == Parsed(text)
    ensures Tight(UnicodeSpace, TrimBy(UnicodeSpace, text))
  {
    TrimmedIsTight(UnicodeSpace, text);
    TightIsTrimmed(UnicodeSpace, TrimBy(UnicodeSpace, text));
  }

  /**
   A rewritten label reads back as the currency of the original label and the largest whole
   amount whose value is within the cap.
   */
  lemma {:induction false} ClampReadsBack(rates: Rates, text: string, cap: real, code: string)
    requires Clamped(rates, text, cap, code) != ""
    ensures Parsed(Clamped(rates, text, cap, code)) == Money(CapLocal(rates, cap, code) as real, Parsed(text).code)
    ensures CapLocal(rates, cap, code) >= 1 && LargestUnder(CapLocal(rates, cap, code), RateOr(rates, Normal(code)), cap)
  {
    var raw := TrimBy(UnicodeSpace, text);
    ParsedTrimmed(text);
    RewrittenReads(raw, CapLocal(rates, cap, code));
    ParsedLabel(raw);
    LargestWhole(cap, RateOr(rates, Normal(code)));
  }

  /** k units are worth no more than the cap, and one more unit is worth more. */
  predicate LargestUnder(k: int, rate: real, cap: real) { k as real * rate <= cap < (k + 1) as real * rate }

  lemma {:induction false} LargestWhole(cap: real, rate: real)
    requires rate > 0.0
    ensures LargestUnder((cap / rate).Floor, rate, cap)
  {
    var q := cap / rate;
    var k := q.Floor;
    assert q * rate == cap;
    assert k as real <= q < (k + 1) as real;
  }

}
