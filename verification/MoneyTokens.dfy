/** Which currency a label names, on either side of its amount and in any of four digit alphabets. */
module MoneyTokens {
  import opened JsText
  import opened Decimal
  import opened MoneyNumber
  import opened MoneyLabel
  import MoneyGo
  import MoneyTs

  /** The currency that is written with one character. */
  predicate HasSymbol(c: char, code: string) {
    (c == '$' && code == "USD") || (c == '\U{20AC}' && code == "EUR") || (c == '\U{A3}' && code == "GBP")
    || (c == '\U{A5}' && code == "JPY") || (c == '\U{20A9}' && code == "KRW") || (c == '\U{20BA}' && code == "TRY")
    || (c == '\U{20B9}' && code == "INR") || (c == '\U{20BD}' && code == "RUB") || (c == '\U{FDFC}' && code == "SAR")
  }

  predicate ThreeCapitals(s: string) { |s| == 3 && forall i :: 0 <= i < 3 ==> 'A' <= s[i] <= 'Z' }

  /** A symbol, three capitals, or TL. */
  predicate Names(token: string, code: string) {
    (|token| == 1 && HasSymbol(token[0], code)) || (ThreeCapitals(token) && code == token)
    || (|token| == 2 && token[0] == 'T' && token[1] == 'L' && code == "TRY")
  }

  lemma {:induction false} NamesCode(token: string, code: string)
    requires Names(token, code)
    ensures CurrencyOf(token) == code && token != "" && forall c :: c in token ==> InToken(c)
  {
  }

  predicate Spaces(f: Flavour, sp: string) { forall i :: 0 <= i < |sp| ==> f.space(sp[i]) }

  lemma {:induction false} FrontLength(f: Flavour, token: string, code: string, rest: string)
    requires Regular(f) && Names(token, code) && rest != "" && (IsDigit(rest[0]) || f.space(rest[0]))
    ensures FrontToken(token + rest) == |token|
  {
    var s := token + rest;
    NoCapital(f, rest[0]);
    assert s[|token|] == rest[0];
  }

  lemma {:induction false} BackLength(f: Flavour, rest: string, token: string, code: string)
    requires Regular(f) && Names(token, code) && rest != "" && (IsDigit(rest[|rest| - 1]) || f.space(rest[|rest| - 1]))
    ensures BackToken(rest + token) == |token|
  {
    var s := rest + token;
    NoCapital(f, rest[|rest| - 1]);
    assert s[|rest| - 1] == rest[|rest| - 1];
    assert forall i :: 0 <= i < |token| ==> s[|rest| + i] == token[i];
  }

  lemma {:induction false} TakesFront(f: Flavour, token: string, code: string, sp: string, number: string)
    requires Regular(f) && Names(token, code) && Spaces(f, sp) && Bounded(number)
    ensures Take(f, token + (sp + number)) == Parts(token + sp, number, "", token)
  {
    FrontLength(f, token, code, sp + number);
    TakePrefixed(f, token, sp, number);
  }

  lemma {:induction false} TakesBack(f: Flavour, token: string, code: string, sp: string, number: string)
    requires Regular(f) && Names(token, code) && Spaces(f, sp) && Bounded(number)
    ensures Take(f, (number + sp) + token) == Parts("", number, sp + token, token)
  {
    BackLength(f, number + sp, token, code);
    NamesCode(token, code);
    TakeSuffixed(f, number, sp, token);
  }

  /** A label with its token on either side. */
  predicate Label(raw: string, token: string, sp: string, number: string) {
    raw == token + (sp + number) || raw == (number + sp) + token
  }

  lemma {:induction false} TakesLabel(f: Flavour, raw: string, token: string, code: string, sp: string, number: string)
    requires Regular(f) && Names(token, code) && Spaces(f, sp) && Bounded(number) && Label(raw, token, sp, number)
    ensures Take(f, raw).number == number && Take(f, raw).token == token && CurrencyOf(token) == code
    ensures raw != "" && Tight(f.edge, raw)
  {
    NamesCode(token, code);
    if raw == token + (sp + number) {
      TakesFront(f, token, code, sp, number);
      assert raw[0] == token[0] && raw[|raw| - 1] == number[|number| - 1];
    } else {
      TakesBack(f, token, code, sp, number);
      assert raw[0] == number[0] && raw[|raw| - 1] == token[|token| - 1];
    }
    EdgeFree(f, raw[0]);
    EdgeFree(f, raw[|raw| - 1]);
  }

  lemma {:induction false} EdgeFree(f: Flavour, c: char)
    requires Regular(f) && (InToken(c) || IsDigit(c))
    ensures !f.edge(c)
  {
  }

  /** Blanks, tabs and line ends, the white space of the backend's patterns. */
  predicate AsciiSpaces(sp: string) { forall i :: 0 <= i < |sp| ==> sp[i] in " \t\n\r" || sp[i] as int == 12 }

  lemma {:induction false} AsciiSpacesAre(sp: string)
    requires AsciiSpaces(sp)
    ensures Spaces(MoneyGo.GO, sp)
  {
  }

  /** A whole amount in any grouping, beside any of the tokens, reads as that amount of the named currency in the backend. */
  lemma {:induction false} BackendReads(raw: string, token: string, code: string, sp: string, k: nat, sep: string)
    requires Names(token, code) && AsciiSpaces(sp) && Separator(sep) && (sep == "" || Mark(sep[0]) || MoneyGo.GO.blank(sep[0]))
    requires Label(raw, token, sp, Marked(Digits(k), sep, true))
    ensures MoneyGo.Parsed(raw) == MoneyGo.Money(k as real, code)
  {
    MoneyGo.GoIsRegular();
    AsciiSpacesAre(sp);
    MarkedBounded(Digits(k), sep, true);
    MarkedShape(MoneyGo.GO, Digits(k), sep, true);
    TakesLabel(MoneyGo.GO, raw, token, code, sp, Marked(Digits(k), sep, true));
    MoneyGo.ParsedLabel(raw);
    MoneyGo.PrintedAmount(k, sep);
  }

  /** And in the storefront, which names no currency for an amount of zero. */
  lemma {:induction false} StorefrontReads(raw: string, token: string, code: string, sp: string, k: nat, sep: string)
    requires Names(token, code) && Spaces(MoneyTs.TS, sp) && MoneyTs.TsSeparator(sep)
    requires Label(raw, token, sp, Marked(Digits(k), sep, true))
    ensures MoneyTs.Parsed(raw) == MoneyTs.Money(if k > 0 then code else "", k as real)
  {
    MoneyTs.TsIsRegular();
    MarkedBounded(Digits(k), sep, true);
    MarkedShape(MoneyTs.TS, Digits(k), sep, true);
    TakesLabel(MoneyTs.TS, raw, token, code, sp, Marked(Digits(k), sep, true));
    MoneyTs.LabelValue(raw);
    MoneyTs.PrintedAmount(k, sep);
  }

  // ---- Arabic, Persian and Devanagari digits

  /** t is s with every digit written in the alphabet that starts at the given code. */
  predicate WrittenIn(t: string, s: string, zero: int) {
    |t| == |s| && forall i :: 0 <= i < |s| ==> DigitIn(t[i], s[i], zero)
  }

  predicate DigitIn(x: char, c: char, zero: int) {
    if IsDigit(c) then x as int == zero + (c as int - '0' as int) else x == c
  }

  /** In each of the three alphabets a digit is the western one. */
  lemma {:induction false} AlphabetsRead(t: string, s: string, zero: int)
    requires zero == 0x0660 || zero == 0x06F0 || zero == 0x0966
    requires WrittenIn(t, s, zero) && MoneyGo.NoForeignDigit(s)
    ensures Western(t) == s
  {
    forall i | 0 <= i < |s| ensures WesternDigit(t[i]) == s[i] { AlphabetReads(t[i], s[i], zero); }
  }

  lemma {:induction false} AlphabetReads(x: char, c: char, zero: int)
    requires (zero == 0x0660 || zero == 0x06F0 || zero == 0x0966) && DigitIn(x, c, zero) && WesternDigit(c) == c
    ensures WesternDigit(x) == c
  {
  }

  lemma {:induction false} EdgesIn(space: char -> bool, t: string, s: string, zero: int)
    requires WrittenIn(t, s, zero) && Tight(space, s) && forall x: char :: zero <= x as int < zero + 10 ==> !space(x)
    ensures TrimBy(space, t) == t
  {
    TightIsTrimmed(space, t);
  }

  /** A backend label reads the same in each of them. */
  lemma {:induction false} BackendReadsAlphabets(t: string, s: string, zero: int)
    requires zero == 0x0660 || zero == 0x06F0 || zero == 0x0966
    requires WrittenIn(t, s, zero) && MoneyGo.NoForeignDigit(s) && Tight(MoneyGo.UnicodeSpace, s)
    ensures MoneyGo.Parsed(t) == MoneyGo.Parsed(s)
  {
    EdgesIn(MoneyGo.UnicodeSpace, t, s, zero);
    TightIsTrimmed(MoneyGo.UnicodeSpace, s);
    AlphabetsRead(t, s, zero);
    MoneyGo.WesternSame(s);
  }

  /** So does a storefront amount. */
  lemma {:induction false} StorefrontReadsAlphabets(t: string, s: string, zero: int)
    requires zero == 0x0660 || zero == 0x06F0 || zero == 0x0966
    requires WrittenIn(t, s, zero) && MoneyGo.NoForeignDigit(s) && Tight(IsSpace, s)
    ensures MoneyTs.Amount(t) == MoneyTs.Amount(s)
  {
    EdgesIn(IsSpace, t, s, zero);
    TightIsTrimmed(IsSpace, s);
    AlphabetsRead(t, s, zero);
    MoneyGo.WesternSame(s);
  }
}
