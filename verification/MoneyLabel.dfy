/** Money labels: a currency token before or after a number, and rewriting the number in the label's own style. */
module MoneyLabel {
  import opened JsText
  import opened Decimal
  import opened MoneyNumber

  const NBSP: char := '\U{00A0}'
  const NNBSP: char := '\U{202F}'

  /**
   What a language calls white space: in its patterns, at the ends it trims, and inside a
   number; and how long it counts a character to be.
   */
  datatype Flavour = Flavour(space: char -> bool, edge: char -> bool, blank: char -> bool, size: char -> nat)

  /** White space is never a digit, a mark or part of a token, and what a pattern calls a space is trimmed. */
  ghost predicate Regular(f: Flavour) {
    forall c :: (f.space(c) || f.edge(c) || f.blank(c) ==> !IsDigit(c) && !Mark(c) && !InToken(c)) && (f.space(c) ==> f.edge(c))
  }

  // ---- tokens

  /** The code of the character at a position, or -1 outside the text. */
  function Code(s: string, i: int): int { if 0 <= i < |s| then s[i] as int else -1 }

  predicate Symbol(u: int) {
    u == 0x24 || u == 0x20AC || u == 0xA3 || u == 0xA5 || u == 0x20A9 || u == 0x20BA || u == 0x20B9 || u == 0x20BD || u == 0xFDFC
  }

  predicate Capital(u: int) { 65 <= u <= 90 }

  predicate InToken(c: char) { Symbol(c as int) || Capital(c as int) }

  /** The length of a token that starts with these characters: a symbol, three capitals, or TL. */
  function FrontOf(a: int, b: int, c: int): nat {
    if Symbol(a) then 1 else if Capital(a) && Capital(b) && Capital(c) then 3 else if a == 84 && b == 76 then 2 else 0
  }

  /** The same at the end, a being the last character. */
  function BackOf(a: int, b: int, c: int): nat {
    if Symbol(a) then 1 else if Capital(a) && Capital(b) && Capital(c) then 3 else if b == 84 && a == 76 then 2 else 0
  }

  function FrontToken(s: string): (k: nat)
    ensures k <= |s|
  {
    FrontOf(Code(s, 0), Code(s, 1), Code(s, 2))
  }

  function BackToken(s: string): (k: nat)
    ensures k <= |s|
  {
    BackOf(Code(s, |s| - 1), Code(s, |s| - 2), Code(s, |s| - 3))
  }

  /** How many spaces a text starts with, and ends with. */
  function Leading(space: char -> bool, s: string): (k: nat)
    ensures k <= |s| && (forall i :: 0 <= i < k ==> space(s[i])) && (k < |s| ==> !space(s[k]))
  {
    if s == "" || !space(s[0]) then 0 else 1 + Leading(space, s[1..])
  }

  function Trailing(space: char -> bool, s: string): (k: nat)
    ensures k <= |s| && (forall i :: |s| - k <= i < |s| ==> space(s[i])) && (k < |s| ==> !space(s[|s| - k - 1]))
  {
    if s == "" || !space(s[|s| - 1]) then 0 else 1 + Trailing(space, s[..|s| - 1])
  }

  /** A label taken apart: the token is in the prefix or in the suffix. */
  datatype Parts = Parts(prefix: string, number: string, suffix: string, token: string)

  /** How much of a label its prefix takes, when it starts with a token. */
  function PrefixLen(f: Flavour, raw: string): (w: nat)
    ensures FrontToken(raw) <= w <= |raw|
  {
    FrontToken(raw) + Leading(f.space, raw[FrontToken(raw)..])
  }

  function SuffixLen(f: Flavour, raw: string): (w: nat)
    ensures BackToken(raw) <= w <= |raw|
  {
    BackToken(raw) + Trailing(f.space, raw[..|raw| - BackToken(raw)])
  }

  function Take(f: Flavour, raw: string): Parts {
    if FrontToken(raw) > 0 then Parts(raw[..PrefixLen(f, raw)], raw[PrefixLen(f, raw)..], "", raw[..FrontToken(raw)])
    else if BackToken(raw) > 0 then
      Parts("", raw[..|raw| - SuffixLen(f, raw)], raw[|raw| - SuffixLen(f, raw)..], raw[|raw| - BackToken(raw)..])
    else Parts("", raw, "", "")
  }

  lemma {:induction false} TakeWhole(f: Flavour, raw: string)
    ensures var p := Take(f, raw); raw == p.prefix + p.number + p.suffix
  {
    CutWhole(raw, PrefixLen(f, raw));
    CutWhole(raw, |raw| - SuffixLen(f, raw));
  }

  lemma {:induction false} CutWhole(raw: string, i: nat)
    requires i <= |raw|
    ensures raw[..i] + raw[i..] + "" == raw && "" + raw[..i] + raw[i..] == raw && "" + raw + "" == raw
  {
  }

  /** A number: digits at both ends, and only digits, marks and blanks between them. */
  predicate NumberShape(f: Flavour, s: string) {
    s != "" && IsDigit(s[0]) && IsDigit(s[|s| - 1]) && forall i :: 0 <= i < |s| ==> IsDigit(s[i]) || Mark(s[i]) || f.blank(s[i])
  }

  /** The currency a token stands for. */
  function CurrencyOf(token: string): string {
    if token == "TL" then "TRY"
    else if |token| != 1 then token
    else
      var c := token[0] as int;
      if c == 0x24 then "USD" else if c == 0x20AC then "EUR" else if c == 0xA3 then "GBP" else if c == 0xA5 then "JPY"
      else if c == 0x20A9 then "KRW" else if c == 0x20BA then "TRY" else if c == 0x20B9 then "INR"
      else if c == 0x20BD then "RUB" else if c == 0xFDFC then "SAR" else token
  }

  // ---- the separator of a label

  function Size(f: Flavour, s: string): nat { if s == "" then 0 else f.size(s[0]) + Size(f, s[1..]) }

  function IndexOf(s: string, c: char): (i: nat)
    ensures i <= |s| && (i < |s| ==> s[i] == c)
  {
    if s == "" || s[0] == c then 0 else 1 + IndexOf(s[1..], c)
  }

  /** The first occurrence of the candidate, not in front, with three characters' size after it. */
  predicate Separates(f: Flavour, number: string, c: char) {
    var i := IndexOf(number, c);
    0 < i < |number| && Size(f, number[i + 1..]) == 3
  }

  function SeparatorOf(f: Flavour, number: string): (sep: string)
    ensures Separator(sep)
  {
    if Separates(f, number, ',') then [',']
    else if Separates(f, number, '.') then ['.']
    else if Separates(f, number, ' ') then [' ']
    else if Separates(f, number, NBSP) then [NBSP]
    else if Separates(f, number, NNBSP) then [NNBSP]
    else ""
  }

  /** The label reading k, in its own style. */
  function Rewritten(f: Flavour, p: Parts, k: nat): string {
    p.prefix + Marked(Digits(k), SeparatorOf(f, p.number), true) + p.suffix
  }

  // ---- Arabic, Persian and Devanagari digits

  function WesternDigit(c: char): char {
    var u := c as int;
    if 0x0660 <= u <= 0x0669 then DigitChar(u - 0x0660)
    else if 0x06F0 <= u <= 0x06F9 then DigitChar(u - 0x06F0)
    else if 0x0966 <= u <= 0x096F then DigitChar(u - 0x0966)
    else c
  }

  function Western(s: string): string {
    seq(|s|, i requires 0 <= i < |s| => WesternDigit(s[i]))
  }

  // ---- another number in the same label is taken apart the same way

  predicate Bounded(s: string) { s != "" && IsDigit(s[0]) && IsDigit(s[|s| - 1]) }

  /** Putting one number for another leaves prefix, suffix and token as they were. */
  lemma {:induction false} SameParts(f: Flavour, raw: string, number: string)
    requires Regular(f) && Bounded(Take(f, raw).number) && Bounded(number)
    ensures var p := Take(f, raw); Take(f, p.prefix + number + p.suffix) == p.(number := number)
  {
    if FrontToken(raw) > 0 {
      SamePrefix(f, raw, number);
    } else if BackToken(raw) > 0 {
      SameSuffix(f, raw, number);
    } else {
      assert "" + number + "" == number;
      PlainNumber(f, number);
    }
  }

  lemma {:induction false} PlainNumber(f: Flavour, number: string)
    requires Bounded(number)
    ensures FrontToken(number) == 0 && BackToken(number) == 0
  {
  }

  lemma {:induction false} BackTokenSame(s: string, t: string)
    requires var k := BackToken(s); k > 0 && k <= |t| && t[|t| - k..] == s[|s| - k..] && !Capital(Code(t, |t| - k - 1))
    ensures BackToken(t) == BackToken(s)
  {
    var k := BackToken(s);
    TailCode(s, t, k, 1);
    if k >= 2 { TailCode(s, t, k, 2); }
    if k >= 3 { TailCode(s, t, k, 3); }
  }

  lemma {:induction false} TailCode(s: string, t: string, k: nat, j: nat)
    requires 1 <= j <= k <= |s| && k <= |t| && t[|t| - k..] == s[|s| - k..]
    ensures Code(t, |t| - j) == Code(s, |s| - j)
  {
    assert t[|t| - k..][k - j] == s[|s| - k..][k - j];
  }

  /** A space or a digit is no capital. */
  lemma {:induction false} NoCapital(f: Flavour, c: char)
    requires Regular(f) && (f.space(c) || IsDigit(c))
    ensures !Capital(c as int) && !InToken(c)
  {
  }

  lemma {:induction false} FrontTokenSame(s: string, t: string)
    requires var k := FrontToken(s); k > 0 && k <= |t| && t[..k] == s[..k] && !Capital(Code(t, k))
    ensures FrontToken(t) == FrontToken(s)
  {
    var k := FrontToken(s);
    HeadCode(s, t, k, 0);
    if k >= 2 { HeadCode(s, t, k, 1); }
    if k >= 3 { HeadCode(s, t, k, 2); }
  }

  lemma {:induction false} HeadCode(s: string, t: string, k: nat, j: nat)
    requires j < k <= |s| && k <= |t| && t[..k] == s[..k]
    ensures Code(t, j) == Code(s, j)
  {
    assert t[..k][j] == s[..k][j];
  }

  lemma {:induction false} LeadingOf(space: char -> bool, sp: string, a: string)
    requires a != "" && !space(a[0]) && forall i :: 0 <= i < |sp| ==> space(sp[i])
    ensures Leading(space, sp + a) == |sp|
  {
    var s := sp + a;
    forall i | 0 <= i < |sp| ensures space(s[i]) { assert s[i] == sp[i]; }
    assert s[|sp|] == a[0];
  }

  lemma {:induction false} Pieces(a: string, b: string, c: string)
    ensures var t := a + (b + c); t[..|a|] == a && t[|a|..] == b + c && t[..|a| + |b|] == a + b && t[|a| + |b|..] == c
  {
    var t := a + (b + c);
    assert t == (a + b) + c;
  }

  /** A label of token, spaces and number comes apart into them. */
  lemma {:induction false} TakePrefixed(f: Flavour, token: string, sp: string, number: string)
    requires Regular(f) && Bounded(number) && (forall i :: 0 <= i < |sp| ==> f.space(sp[i]))
    requires token != "" && FrontToken(token + (sp + number)) == |token|
    ensures Take(f, token + (sp + number)) == Parts(token + sp, number, "", token)
  {
    Pieces(token, sp, number);
    NoCapital(f, number[0]);
    LeadingOf(f.space, sp, number) by { assert !f.space(number[0]); }
  }

  /** A label with a token in front has it, then spaces, then the number. */
  lemma {:induction false} PrefixParts(f: Flavour, raw: string) returns (token: string, sp: string)
    requires FrontToken(raw) > 0
    ensures |token| == FrontToken(raw) && raw[..|token|] == token && forall i :: 0 <= i < |sp| ==> f.space(sp[i])
    ensures var p := Take(f, raw); p.prefix == token + sp && p.suffix == "" && p.token == token
  {
    var k, w := FrontToken(raw), PrefixLen(f, raw);
    token, sp := raw[..k], raw[k..w];
    assert forall i :: 0 <= i < |sp| ==> sp[i] == raw[k..][i];
    assert raw[..w] == token + sp;
  }

  lemma {:induction false} SamePrefix(f: Flavour, raw: string, number: string)
    requires Regular(f) && Bounded(Take(f, raw).number) && Bounded(number) && FrontToken(raw) > 0
    ensures var p := Take(f, raw); Take(f, p.prefix + number + p.suffix) == p.(number := number)
  {
    var token, sp := PrefixParts(f, raw);
    TokenStays(f, raw, token, sp, number);
    TakePrefixed(f, token, sp, number);
    NumberAfter(f, Take(f, raw), token, sp, number);
  }

  lemma {:induction false} TokenStays(f: Flavour, raw: string, token: string, sp: string, number: string)
    requires Regular(f) && Bounded(number) && forall i :: 0 <= i < |sp| ==> f.space(sp[i])
    requires token != "" && |token| == FrontToken(raw) && raw[..|token|] == token
    ensures FrontToken(token + (sp + number)) == |token|
  {
    FirstOf(token, sp, number);
    NoCapital(f, if sp == "" then number[0] else sp[0]);
    FrontTokenSame(raw, token + (sp + number));
  }

  lemma {:induction false} NumberAfter(f: Flavour, p: Parts, token: string, sp: string, number: string)
    requires p.prefix == token + sp && p.suffix == "" && p.token == token
    requires Take(f, token + (sp + number)) == Parts(token + sp, number, "", token)
    ensures Take(f, p.prefix + number + p.suffix) == p.(number := number)
  {
    RejoinedFront(token, sp, number, p.suffix);
  }

  lemma {:induction false} RejoinedFront(a: string, b: string, c: string, d: string)
    requires d == ""
    ensures a + (b + c) == (a + b) + c + d
  {
  }

  lemma {:induction false} FirstOf(token: string, sp: string, number: string)
    requires number != ""
    ensures var t := token + (sp + number); t[..|token|] == token && Code(t, |token|) == (if sp == "" then number[0] else sp[0]) as int
  {
  }

  lemma {:induction false} TrailingOf(space: char -> bool, a: string, sp: string)
    requires a != "" && !space(a[|a| - 1]) && forall i :: 0 <= i < |sp| ==> space(sp[i])
    ensures Trailing(space, a + sp) == |sp|
  {
    var s := a + sp;
    forall i | |s| - |sp| <= i < |s| ensures space(s[i]) { assert s[i] == sp[i - |a|]; }
    assert s[|s| - |sp| - 1] == a[|a| - 1];
  }

  /** The spaces between a number and the token after it. */
  function Gap(f: Flavour, raw: string): (sp: string)
    ensures forall i :: 0 <= i < |sp| ==> f.space(sp[i])
  {
    var body := raw[..|raw| - BackToken(raw)];
    body[|body| - Trailing(f.space, body)..]
  }

  lemma {:induction false} SuffixParts(f: Flavour, raw: string)
    requires FrontToken(raw) == 0 && BackToken(raw) > 0
    ensures var p := Take(f, raw);
      p.suffix == Gap(f, raw) + p.token && p.prefix == "" && p.token == raw[|raw| - BackToken(raw)..] && p.token != ""
  {
  }

  /** A label of number, spaces and token comes apart into them. */
  lemma {:induction false} TakeSuffixed(f: Flavour, number: string, sp: string, token: string)
    requires Regular(f) && Bounded(number) && (forall i :: 0 <= i < |sp| ==> f.space(sp[i]))
    requires token != "" && BackToken(number + sp + token) == |token|
    ensures Take(f, number + sp + token) == Parts("", number, sp + token, token)
  {
    var body := number + sp;
    var next := body + token;
    var cut := |next| - |token|;
    assert next[..cut] == body && next[cut..] == token;
    assert FrontToken(next) == 0 by { assert next[0] == number[0]; NoCapital(f, next[0]); }
    assert !f.space(number[|number| - 1]);
    TrailingOf(f.space, number, sp);
    assert SuffixLen(f, next) == |token| + |sp|;
    assert next[..|number|] == number && next[|number|..] == sp + token;
  }

  lemma {:induction false} EndOf(body: string, token: string, k: nat)
    requires body != "" && |token| == k
    ensures var next := body + token; |next| == |body| + k && next[|next| - k..] == token && Code(next, |next| - k - 1) == body[|body| - 1] as int
  {
    assert (body + token)[|body|..] == token;
  }

  lemma {:induction false} TokenAfter(f: Flavour, raw: string, number: string, sp: string, token: string)
    requires Regular(f) && Bounded(number) && (forall i :: 0 <= i < |sp| ==> f.space(sp[i]))
    requires token != "" && |token| == BackToken(raw) && raw[|raw| - |token|..] == token
    ensures BackToken(number + sp + token) == |token|
  {
    var body := number + sp;
    EndOf(body, token, |token|);
    assert body[|body| - 1] == if sp == "" then number[|number| - 1] else sp[|sp| - 1];
    NoCapital(f, if sp == "" then number[|number| - 1] else sp[|sp| - 1]);
    BackTokenSame(raw, body + token);
  }

  lemma {:induction false} SameSuffix(f: Flavour, raw: string, number: string)
    requires Regular(f) && Bounded(Take(f, raw).number) && Bounded(number) && FrontToken(raw) == 0 && BackToken(raw) > 0
    ensures var p := Take(f, raw); Take(f, p.prefix + number + p.suffix) == p.(number := number)
  {
    var p, sp := Take(f, raw), Gap(f, raw);
    SuffixParts(f, raw);
    TokenAfter(f, raw, number, sp, p.token);
    TakeSuffixed(f, number, sp, p.token);
    WithNumber(f, p, sp, number);
  }

  lemma {:induction false} WithNumber(f: Flavour, p: Parts, sp: string, number: string)
    requires p.prefix == "" && p.suffix == sp + p.token
    requires Take(f, number + sp + p.token) == Parts("", number, sp + p.token, p.token)
    ensures Take(f, p.prefix + number + p.suffix) == p.(number := number)
  {
    Rejoined(p.prefix, number, sp, p.token);
  }

  lemma {:induction false} Rejoined(a: string, b: string, c: string, d: string)
    requires a == ""
    ensures a + b + (c + d) == b + c + d
  {
  }

  // ---- the ends of a label

  predicate Tight(edge: char -> bool, s: string) { s == "" || (!edge(s[0]) && !edge(s[|s| - 1])) }

  lemma {:induction false} TightIsTrimmed(edge: char -> bool, s: string)
    requires Tight(edge, s)
    ensures TrimBy(edge, s) == s
  {
  }

  lemma {:induction false} TrimmedIsTight(edge: char -> bool, s: string)
    ensures Tight(edge, TrimBy(edge, s))
  {
    StartTrimmed(edge, s);
    EndTrimmed(edge, TrimStartBy(edge, s));
  }

  lemma {:induction false} StartTrimmed(edge: char -> bool, s: string)
    ensures var t := TrimStartBy(edge, s); t == "" || !edge(t[0])
  {
    if s != "" && edge(s[0]) { StartTrimmed(edge, s[1..]); }
  }

  lemma {:induction false} EndTrimmed(edge: char -> bool, s: string)
    requires s == "" || !edge(s[0])
    ensures var t := TrimEndBy(edge, s); Tight(edge, t)
  {
    if s != "" && edge(s[|s| - 1]) { EndTrimmed(edge, s[..|s| - 1]); }
  }

  /** Writing digits for a number keeps the label's parts, and the result is already trimmed. */
  lemma {:induction false} RewrittenParts(f: Flavour, raw: string, k: nat)
    requires Regular(f) && Bounded(Take(f, raw).number)
    ensures var p := Take(f, raw); var next := Rewritten(f, p, k);
      Take(f, next) == p.(number := Marked(Digits(k), SeparatorOf(f, p.number), true)) && next != "" && Tight(f.edge, next)
  {
    var p := Take(f, raw);
    var number := Marked(Digits(k), SeparatorOf(f, p.number), true);
    MarkedBounded(Digits(k), SeparatorOf(f, p.number), true);
    SameParts(f, raw, number);
  }

  lemma {:induction false} MarkedBounded(d: string, sep: string, first: bool)
    requires AllDigits(d) && d != ""
    ensures var m := Marked(d, sep, first); m != "" && IsDigit(m[|m| - 1]) && (first ==> IsDigit(m[0]))
  {
    if |d| > 1 {
      MarkedBounded(d[1..], sep, false);
    } else {
      assert Marked(d[1..], sep, false) == "";
    }
  }

  lemma {:induction false} MarkedShape(f: Flavour, d: string, sep: string, first: bool)
    requires AllDigits(d) && d != "" && Separator(sep) && (sep == "" || Mark(sep[0]) || f.blank(sep[0]))
    ensures forall x :: x in Marked(d, sep, first) ==> IsDigit(x) || Mark(x) || f.blank(x)
    ensures first ==> NumberShape(f, Marked(d, sep, first))
  {
    MarkedBounded(d, sep, first);
    MarkedChars(d, sep, first);
  }

  lemma {:induction false} MarkedChars(d: string, sep: string, first: bool)
    requires AllDigits(d)
    ensures forall x :: x in Marked(d, sep, first) ==> IsDigit(x) || x in sep
  {
    if d != "" { MarkedChars(d[1..], sep, false); }
  }
}
