/** The storefront's money labels, and where it reads amounts as the backend does. */
module MoneyTs {
  import opened JsText
  import opened Decimal
  import opened MoneyNumber
  import opened MoneyLabel
  import MoneyGo

  /** White space is the same everywhere, and lengths count units of UTF-16. */
  const TS: Flavour := Flavour(IsSpace, IsSpace, IsSpace, (c: char) => if c as int < 0x10000 then 1 else 2)

  lemma {:induction false} TsIsRegular()
    ensures Regular(TS)
  {
  }

  // ---- reading

  /** The amount a text reads as. */
  function Amount(text: string): real {
    var t := Western(Trim(text));
    if NumberShape(TS, t) then Lenient(Regroup(Core(t))) else 0.0
  }

  predicate TsSeparator(sep: string) { Separator(sep) && (sep == "" || Mark(sep[0]) || IsSpace(sep[0])) }

  /**
   Never negative, zero for what is not a number, a whole amount in any grouping read as
   itself, and the backend's amount wherever the readers agree.
   */
  method ParseMoneyAmount(text: string) returns (v: real)
    ensures v == Amount(text) >= 0.0
    ensures !NumberShape(TS, Western(Trim(text))) ==> v == 0.0
    ensures forall k: nat, sep :: TsSeparator(sep) && text == Marked(Digits(k), sep, true) ==> v == k as real
    ensures NumberShape(MoneyGo.GO, text) ==>
      (v == MoneyGo.Amount(text) <==> OneDecimal(Grouping(text)) || Zeros(LeadingNumber(Grouping(text))))
  {
    forall k: nat, sep | TsSeparator(sep) ensures Amount(Marked(Digits(k), sep, true)) == k as real { PrintedAmount(k, sep); }
    if NumberShape(MoneyGo.GO, text) { ReadersAgreeIff(text); }
    AmountNonNegative(text);
    var t := Western(Trim(text));
    if !NumberShape(TS, t) { return 0.0; }
    t := Core(t);
    t := MoneyGo.Ungroup(t);
    v := Lenient(t);
  }

  lemma {:induction false} AmountNonNegative(text: string)
    ensures Amount(text) >= 0.0
  {
    var t := Regroup(Core(Western(Trim(text))));
    LeadingIsDecimal(t);
    DecimalNonNegative(LeadingNumber(t));
  }

  datatype Money = Money(currency: string, value: real)

  function Value(text: string): real { Amount(Trim(Take(TS, Trim(text)).number)) }

  /** A label read as an amount, and as a currency when the amount is not zero. */
  function Parsed(text: string): Money {
    var v := Value(text);
    Money(if v > 0.0 then CurrencyOf(Take(TS, Trim(text)).token) else "", v)
  }

  /** The label reads k in its own style when it is a money label above the cap; otherwise it stays. */
  function Clamped(text: string, cap: real): string {
    var raw := Trim(text);
    if raw == "" || cap < 1.0 || Value(raw) <= 0.0 || Value(raw) <= cap || !NumberShape(TS, Take(TS, raw).number) then raw
    else Rewritten(TS, Take(TS, raw), cap.Floor)
  }

  method ClampMoneyLabel(text: string, cap: real) returns (r: string)
    ensures r == Clamped(text, cap)
  {
    var raw := Trim(text);
    if raw == "" || cap < 1.0 { return raw; }
    var value := Value(raw);
    if !(value > 0.0) || value <= cap { return raw; }
    var p := Take(TS, raw);
    if !NumberShape(TS, p.number) { return raw; }
    var sep := SeparatorOf(TS, p.number);
    var digits := Digits(cap.Floor);
    if sep != "" {
      digits := MoneyGo.MarkThousands(digits, sep);
    } else {
      MarkedWithout(digits, true);
    }
    r := p.prefix + digits + p.suffix;
  }

  // ---- two readers, one meaning

  lemma {:induction false} ShapeTight(f: Flavour, number: string)
    requires NumberShape(f, number)
    ensures Trim(number) == number && Bounded(number)
  {
    TightIsTrimmed(IsSpace, number);
  }

  lemma {:induction false} DigitsStay(number: string)
    requires NumberShape(MoneyGo.GO, number)
    ensures NumberShape(TS, number) && Western(number) == number
  {
    MoneyGo.NumberWestern(number);
    MoneyGo.WesternSame(number);
  }

  /** The text left after grouping: what both readers hand to their number parser. */
  function Grouping(number: string): string { Regroup(Core(number)) }

  /**
   On every number the backend accepts, the two readers agree exactly when grouping leaves a
   decimal number, or a text whose leading number is written with zeros alone.
   */
  lemma {:induction false} ReadersAgreeIff(number: string)
    requires NumberShape(MoneyGo.GO, number)
    ensures MoneyGo.Amount(number) == Amount(number) <==> OneDecimal(Grouping(number)) || Zeros(LeadingNumber(Grouping(number)))
  {
    DigitsStay(number);
    ShapeTight(MoneyGo.GO, number);
    MoneyGo.ShapeCore(number);
    ReadingsAgreeIff(Grouping(number));
  }

  /** They do part: a second decimal point is an error to one and ignored by the other. */
  lemma {:induction false} ReadersPart()
    ensures NumberShape(MoneyGo.GO, "1.5.2") && MoneyGo.Amount("1.5.2") == 0.0 && Amount("1.5.2") == 1.5
  {
    var t := "1.5.2";
    DigitsStay(t);
    ShapeTight(MoneyGo.GO, t);
    MoneyGo.ShapeCore(t);
    CoreIsSame();
    NotGrouped();
    assert Regroup(t) == t;
    LeadingPart(t);
    OneAndAHalf(t[..3]);
    LeadingNumberWholeIff(t);
  }

  lemma {:induction false} LeadingPart(t: string)
    requires t == "1.5.2"
    ensures LeadingNumber(t) == t[..3]
  {
    assert Run(t) == 1 by { assert t[1..][0] == '.'; }
    assert t[2..][0] == '5' && t[2..][1] == '.';
    assert Run(t[2..]) == 1 by { assert t[2..][1..][0] == '.'; }
  }

  lemma {:induction false} CoreIsSame()
    ensures Core("1.5.2") == "1.5.2"
  {
    var t := "1.5.2";
    assert t[1..] == ".5.2" && t[2..] == "5.2" && t[3..] == ".2" && t[4..] == "2" && t[5..] == "";
  }

  lemma {:induction false} NotGrouped()
    ensures !Grouped("1.5.2", '.') && ',' !in "1.5.2"
  {
    assert ['2'] + "" == "2" && Split("2", '.') == ["2"];
    SplitMark("2", '.');
    assert ['.'] + "2" == ".2" && Split(".2", '.') == ["", "2"];
    assert ['5'] + "" == "5" && ["", "2"][1..] == ["2"] && ['5'] + ".2" == "5.2";
    assert Split("5.2", '.') == ["5", "2"];
    SplitMark("5.2", '.');
    assert ['.'] + "5.2" == ".5.2" && Split(".5.2", '.') == ["", "5", "2"];
    assert ['1'] + "" == "1" && ["", "5", "2"][1..] == ["5", "2"] && ['1'] + ".5.2" == "1.5.2";
    assert Split("1.5.2", '.') == ["1", "5", "2"];
    assert |["1", "5", "2"][1]| == 1;
  }

  lemma {:induction false} OneAndAHalf(t: string)
    requires t == "1.5"
    ensures DecimalValue(t) == 1.5
  {
    assert Point(t) == 1 by { assert t[1..][0] == '.'; }
    assert Decimal.Value("1") == 1 by { assert "1"[..0] == ""; }
    assert Decimal.Value("5") == 5 by { assert "5"[..0] == ""; }
    assert t[..1] == "1" && t[2..] == "5";
    assert Pow10(1) == 10 by { assert Pow10(0) == 1; }
  }

  // ---- clamping

  /** A whole amount written in any grouping reads back as itself. */
  lemma {:induction false} PrintedAmount(k: nat, sep: string)
    requires TsSeparator(sep)
    ensures Amount(Marked(Digits(k), sep, true)) == k as real
  {
    var d := Digits(k);
    var m := Marked(d, sep, true);
    MarkedShape(TS, d, sep, true);
    ShapeTight(TS, m);
    SpacesWestern(m);
    MoneyGo.WesternSame(m);
    MarkedReadsBack(d, sep);
    DigitsRead(d);
    ValueOfDigits(k);
  }

  lemma {:induction false} SpacesWestern(number: string)
    requires NumberShape(TS, number)
    ensures MoneyGo.NoForeignDigit(number)
  {
  }

  lemma {:induction false} SeparatorBlank(number: string)
    ensures var sep := SeparatorOf(TS, number); sep == "" || Mark(sep[0]) || IsSpace(sep[0])
  {
  }

  /** A trimmed label with a number of the right shape reads as that number. */
  lemma {:induction false} LabelValue(raw: string)
    requires Tight(IsSpace, raw) && NumberShape(TS, Take(TS, raw).number)
    ensures Trim(raw) == raw && Value(raw) == Amount(Take(TS, raw).number)
  {
    TightIsTrimmed(IsSpace, raw);
    ShapeTight(TS, Take(TS, raw).number);
  }

  /** A rewritten label keeps its token and reads as the amount written. */
  lemma {:induction false} RewrittenReads(raw: string, k: nat)
    requires NumberShape(TS, Take(TS, raw).number)
    ensures var next := Rewritten(TS, Take(TS, raw), k);
      Trim(next) == next != "" && Value(next) == k as real && Take(TS, next).token == Take(TS, raw).token
  {
    var p := Take(TS, raw);
    var sep := SeparatorOf(TS, p.number);
    TsIsRegular();
    ShapeTight(TS, p.number);
    RewrittenParts(TS, raw, k);
    SeparatorBlank(p.number);
    MarkedShape(TS, Digits(k), sep, true);
    LabelValue(Rewritten(TS, p, k));
    PrintedAmount(k, sep);
  }

  lemma {:induction false} TrimTwice(text: string)
    ensures Trim(Trim(text)) == Trim(text)
  {
    TrimmedIsTight(IsSpace, text);
    TightIsTrimmed(IsSpace, Trim(text));
  }

  /** Whether the label is over the cap and its number is written in ASCII digits. */
  predicate Rewrites(text: string, cap: real) {
    Value(text) > cap && NumberShape(TS, Take(TS, Trim(text)).number)
  }

  /** What a clamped label reads as: the whole cap when it was rewritten, else what it read as before; always in the same currency. */
  lemma {:induction false} ClampReads(text: string, cap: real)
    requires cap >= 1.0
    ensures Parsed(Clamped(text, cap)) == if Rewrites(text, cap) then Parsed(text).(value := cap.Floor as real) else Parsed(text)
  {
    var raw := Trim(text);
    TrimTwice(text);
    if Rewrites(text, cap) {
      if raw == "" { EmptyReads(); }
      RewrittenReads(raw, cap.Floor);
    }
  }

  lemma {:induction false} EmptyReads()
    ensures Value("") == 0.0
  {
    assert Take(TS, "").number == "";
  }

  /** A clamped label is within the cap exactly when the label was, or its number is written in ASCII digits. */
  lemma {:induction false} ClampedWithinIff(text: string, cap: real)
    requires cap >= 1.0
    ensures Value(Clamped(text, cap)) <= cap <==> Value(text) <= cap || NumberShape(TS, Take(TS, Trim(text)).number)
  {
    ClampReads(text, cap);
  }

  const HUNDRED := ['\U{0661}', '\U{0660}', '\U{0660}']

  lemma {:induction false} HundredDigits()
    ensures Digits(100) == "100"
  {
    assert Digits(1) == "1";
    assert Digits(10) == "1" + "0";
  }

  lemma {:induction false} AmountOfHundred()
    ensures Amount("100") == 100.0
  {
    HundredDigits();
    MarkedWithout("100", true);
    PrintedAmount(100, "");
  }

  lemma {:induction false} HundredText()
    ensures Trim(HUNDRED) == HUNDRED && Western(HUNDRED) == "100"
    ensures Trim("100") == "100" && Western("100") == "100"
  {
  }

  lemma {:induction false} HundredReads()
    ensures Trim(HUNDRED) == HUNDRED && Take(TS, HUNDRED) == Parts("", HUNDRED, "", "") && Value(HUNDRED) == 100.0
  {
    HundredText();
    AmountOfHundred();
    assert FrontToken(HUNDRED) == 0 && BackToken(HUNDRED) == 0;
  }

  /** A hundred in Arabic digits stays a hundred under a cap of five. */
  lemma {:induction false} ForeignDigitsEscape()
    ensures Clamped(HUNDRED, 5.0) == HUNDRED && Value(HUNDRED) == 100.0
  {
    HundredReads();
    assert !IsDigit(HUNDRED[0]);
  }

  /** Clamping a clamped label changes nothing. */
  lemma {:induction false} ClampTwice(text: string, cap: real)
    ensures Clamped(Clamped(text, cap), cap) == Clamped(text, cap)
  {
    var raw := Trim(text);
    TrimTwice(text);
    if Clamped(text, cap) != raw {
      RewrittenReads(raw, cap.Floor);
    }
  }
}
