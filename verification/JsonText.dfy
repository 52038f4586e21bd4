/**
 `JSON.stringify` of a string (ECMA-262, section 25.5.2.3, QuoteJSONString) over
 UTF-16 code units, and a reader that inverts it.
 */
module JsonText {
  import opened Utf16

  const QUOTE: CodeUnit := 0x22
  const BACKSLASH: CodeUnit := 0x5C
  const LOWER_U: CodeUnit := 0x75

  predicate IsHigh(c: CodeUnit) { 0xD800 <= c <= 0xDBFF }
  predicate IsLow(c: CodeUnit) { 0xDC00 <= c <= 0xDFFF }

  function HexDigit(d: CodeUnit): CodeUnit
    requires d < 16
  {
    if d < 10 then 0x30 + d else 0x57 + d
  }

  function HexValue(c: CodeUnit): (d: CodeUnit)
    ensures d < 16
  {
    if 0x30 <= c <= 0x39 then c - 0x30 else if 0x61 <= c <= 0x66 then c - 0x57 else 0
  }

  /** The six units `\uXXXX`, lower-case hexadecimal. */
  function UnicodeEscape(c: CodeUnit): (t: Text)
    ensures |t| == 6
  {
    [BACKSLASH, LOWER_U, HexDigit(c / 4096), HexDigit(c / 256 % 16), HexDigit(c / 16 % 16), HexDigit(c % 16)]
  }

  function ShortEscape(c: CodeUnit): CodeUnit {
    match c
    case 0x08 => 0x62
    case 0x09 => 0x74
    case 0x0A => 0x6E
    case 0x0C => 0x66
    case 0x0D => 0x72
    case _ => c
  }

  function UnescapeShort(c: CodeUnit): CodeUnit {
    match c
    case 0x62 => 0x08
    case 0x74 => 0x09
    case 0x6E => 0x0A
    case 0x66 => 0x0C
    case 0x72 => 0x0D
    case _ => c
  }

  /** One code unit that is not half of a surrogate pair. */
  function EscapeUnit(c: CodeUnit): Text {
    if c in {0x08, 0x09, 0x0A, 0x0C, 0x0D, QUOTE, BACKSLASH} then [BACKSLASH, ShortEscape(c)]
    else if c < 0x20 || IsHigh(c) || IsLow(c) then UnicodeEscape(c)
    else [c]
  }

  function Escape(s: Text): Text {
    if s == [] then []
    else if |s| >= 2 && IsHigh(s[0]) && IsLow(s[1]) then [s[0], s[1]] + Escape(s[2..])
    else EscapeUnit(s[0]) + Escape(s[1..])
  }

  function Quote(s: Text): Text { [QUOTE] + Escape(s) + [QUOTE] }

  /** Reads escaped text up to the first unescaped quotation mark. */
  function Unescape(t: Text): Text {
    if t == [] || t[0] == QUOTE then []
    else if t[0] != BACKSLASH then [t[0]] + Unescape(t[1..])
    else if |t| >= 6 && t[1] == LOWER_U then
      var c := HexValue(t[2]) * 4096 + HexValue(t[3]) * 256 + HexValue(t[4]) * 16 + HexValue(t[5]);
      [c] + Unescape(t[6..])
    else if |t| >= 2 then [UnescapeShort(t[1])] + Unescape(t[2..])
    else []
  }

  lemma {:induction false} FourDigits(n: nat)
    ensures n == n / 4096 * 4096 + n / 256 % 16 * 256 + n / 16 % 16 * 16 + n % 16
  {
    assert n / 4096 == n / 256 / 16 && n / 256 == n / 16 / 16;
    assert n == n / 16 * 16 + n % 16;
    assert n / 16 == n / 256 * 16 + n / 16 % 16;
    assert n / 256 == n / 4096 * 16 + n / 256 % 16;
  }

  lemma {:induction false} HexRoundTrip(c: CodeUnit)
    ensures var e := UnicodeEscape(c);
      HexValue(e[2]) * 4096 + HexValue(e[3]) * 256 + HexValue(e[4]) * 16 + HexValue(e[5]) == c
  {
    FourDigits(c as int);
  }

  lemma {:induction false} UnescapeUnit(c: CodeUnit, rest: Text)
    ensures Unescape(EscapeUnit(c) + rest) == [c] + Unescape(rest)
  {
    var e := EscapeUnit(c);
    var t := e + rest;
    assert t[|e|..] == rest;
    if |e| == 6 {
      HexRoundTrip(c);
      assert t[..6] == e;
    }
  }

  lemma {:induction false} EscapePair(s: Text, tail: Text)
    requires |s| >= 2 && IsHigh(s[0]) && IsLow(s[1])
    ensures Escape(s) + tail == [s[0]] + ([s[1]] + (Escape(s[2..]) + tail))
  {
  }

  lemma {:induction false} EscapeOne(s: Text, tail: Text)
    requires s != [] && !(|s| >= 2 && IsHigh(s[0]) && IsLow(s[1]))
    ensures Escape(s) + tail == EscapeUnit(s[0]) + (Escape(s[1..]) + tail)
  {
    assert Escape(s) == EscapeUnit(s[0]) + Escape(s[1..]);
  }

  /** Reading back a quoted string yields the string, whatever follows it. */
  lemma {:induction false} UnescapeEscape(s: Text, tail: Text)
    requires tail != [] && tail[0] == QUOTE
    ensures Unescape(Escape(s) + tail) == s
  {
    if s == [] {
      assert Escape(s) + tail == tail;
    } else if |s| >= 2 && IsHigh(s[0]) && IsLow(s[1]) {
      var t := Escape(s[2..]) + tail;
      UnescapeEscape(s[2..], tail);
      EscapePair(s, tail);
      assert s == [s[0]] + ([s[1]] + s[2..]);
    } else {
      UnescapeEscape(s[1..], tail);
      EscapeOne(s, tail);
      UnescapeUnit(s[0], Escape(s[1..]) + tail);
      assert s == [s[0]] + s[1..];
    }
  }

  lemma {:induction false} QuotedReads(a: Text, x: Text)
    ensures Unescape((Quote(a) + x)[1..]) == a
    ensures x == (Quote(a) + x)[|Quote(a)|..]
  {
    var tail := [QUOTE] + x;
    assert (Quote(a) + x)[1..] == Escape(a) + tail;
    UnescapeEscape(a, tail);
  }

  /** Quoted strings are uniquely readable: neither the string nor the rest is ambiguous. */
  lemma {:induction false} QuoteUnique(a: Text, x: Text, b: Text, y: Text)
    requires Quote(a) + x == Quote(b) + y
    ensures a == b && x == y
  {
    QuotedReads(a, x);
    QuotedReads(b, y);
  }
}
