/**
 The Nimiq address gate: compact form, the ISO/IEC 7064 MOD 97-10 check characters
 and exactly which corruptions they detect.
 */
module NimiqAddress {
  import opened JsText
  import opened Decimal

  predicate IsUpper(c: char) { 'A' <= c <= 'Z' }
  predicate AlphaNumeric(s: string) { forall i :: 0 <= i < |s| ==> IsDigit(s[i]) || IsUpper(s[i]) }

  /** Two decimal digits, padded with a zero. */
  function TwoDigits(n: nat): string
    requires n < 100
  {
    [DigitChar(n / 10), DigitChar(n % 10)]
  }

  /** The digits one character contributes: itself, or 10..35 for a letter; nothing for anything else. */
  function Expand(c: char): string {
    if IsDigit(c) then [c] else if IsUpper(c) then TwoDigits(c as int - 'A' as int + 10) else ""
  }

  function Numeric(s: string): string {
    if s == "" then "" else Numeric(s[..|s| - 1]) + Expand(s[|s| - 1])
  }

  /** The running remainder after the digits of s. */
  function Streamed(s: string): int {
    if s == "" then 0 else (Streamed(s[..|s| - 1]) * 10 + DigitValue(s[|s| - 1])) % 97
  }

  method Mod97(digits: string) returns (rem: int)
    ensures rem == Streamed(digits)
  {
    rem := 0;
    for i := 0 to |digits|
      invariant rem == Streamed(digits[..i])
    {
      rem := (rem * 10 + DigitValue(digits[i])) % 97;
      assert digits[..i + 1][..i] == digits[..i];
    }
    assert digits[..|digits|] == digits;
  }

  /** Streaming the remainder is taking the remainder of the whole number, for any number of digits. */
  lemma {:induction false} StreamedIsValueMod97(s: string)
    ensures Streamed(s) == Value(s) % 97
  {
    if s != "" {
      var v, d := Value(s[..|s| - 1]), DigitValue(s[|s| - 1]);
      StreamedIsValueMod97(s[..|s| - 1]);
      ReduceFirst(v, 10, d);
    }
  }

  /** The four leading characters go to the end before the letters are expanded. */
  function Moved(s: string): string {
    s[Front(s)..] + s[..Front(s)]
  }

  function Front(s: string): (k: nat)
    ensures k <= |s|
  {
    if |s| < 4 then |s| else 4
  }

  function CheckDigits(s: string): string {
    StreamedIsValueMod97(Numeric(Moved(s)));
    TwoDigits(98 - Streamed(Numeric(Moved(s))))
  }

  method Iso7064Check(rearranged: string) returns (check: string)
    ensures check == CheckDigits(rearranged)
  {
    var cut := if |rearranged| < 4 then |rearranged| else 4;
    var moved := rearranged[cut..] + rearranged[..cut];
    var numeric := "";
    for i := 0 to |moved|
      invariant numeric == Numeric(moved[..i])
    {
      var c := moved[i];
      if IsDigit(c) {
        numeric := numeric + [c];
      } else if IsUpper(c) {
        numeric := numeric + TwoDigits(c as int - 'A' as int + 10);
      }
      assert moved[..i + 1][..i] == moved[..i];
    }
    assert moved[..|moved|] == moved;
    var rem := Mod97(numeric);
    StreamedIsValueMod97(numeric);
    check := TwoDigits(98 - rem);
  }

  predicate Shape(norm: string) {
    |norm| == 36 && norm[..2] == "NQ" && AlphaNumeric(norm)
  }

  predicate IsValid(norm: string) {
    Shape(norm) && CheckDigits("NQ00" + norm[4..]) == norm[2..4]
  }

  /** Without white space, in upper case. */
  function Compact(s: string): string {
    if s == "" then "" else (if IsSpace(s[0]) then "" else UpperOf(s[0])) + Compact(s[1..])
  }

  // ---- the remainder as a fold over characters

  function Code(c: char): nat {
    if IsDigit(c) then c as int - '0' as int else if IsUpper(c) then c as int - 'A' as int + 10 else 0
  }

  function Weight(c: char): nat { if IsDigit(c) then 10 else 100 }

  /** One character: ten times the remainder for a digit, a hundred times for a letter. */
  function Feed(r: int, c: char): int {
    (r * Weight(c) + Code(c)) % 97
  }

  function Fold(r: int, s: string): int
    decreases s
  {
    if s == "" then r else Fold(Feed(r, s[0]), s[1..])
  }

  lemma {:induction false} FoldConcat(r: int, s: string, t: string)
    ensures Fold(r, s + t) == Fold(Fold(r, s), t)
    decreases s
  {
    if s == "" {
      assert s + t == t;
    } else {
      assert (s + t)[1..] == s[1..] + t;
      FoldConcat(Feed(r, s[0]), s[1..], t);
    }
  }

  lemma {:induction false} StreamedDigit(s: string, c: char)
    ensures Streamed(s + [c]) == (Streamed(s) * 10 + DigitValue(c)) % 97
  {
    assert (s + [c])[..|s|] == s;
  }

  lemma {:induction false} TwoSteps(r: int, d: int, e: int)
    ensures ((r * 10 + d) % 97 * 10 + e) % 97 == (r * 100 + (d * 10 + e)) % 97
  {
    ReduceFirst(r * 10 + d, 10, e);
  }

  lemma {:induction false} StreamedPair(s: string, c: char, d: char)
    ensures Streamed(s + [c, d]) == (Streamed(s) * 100 + (DigitValue(c) * 10 + DigitValue(d))) % 97
  {
    assert s + [c, d] == s + [c] + [d];
    StreamedDigit(s, c);
    StreamedDigit(s + [c], d);
    TwoSteps(Streamed(s), DigitValue(c), DigitValue(d));
  }

  lemma {:induction false} ExpandFeeds(s: string, c: char)
    requires IsDigit(c) || IsUpper(c)
    ensures Streamed(s + Expand(c)) == Feed(Streamed(s), c)
  {
    if IsUpper(c) {
      var k := Code(c);
      StreamedPair(s, DigitChar(k / 10), DigitChar(k % 10));
      assert k / 10 * 10 + k % 10 == k;
    } else {
      StreamedDigit(s, c);
    }
  }

  lemma {:induction false} FoldIsStreamed(s: string)
    requires AlphaNumeric(s)
    ensures Streamed(Numeric(s)) == Fold(0, s)
  {
    if s != "" {
      var p, c := s[..|s| - 1], s[|s| - 1];
      FoldIsStreamed(p);
      assert Numeric(s) == Numeric(p) + Expand(c);
      assert s == p + [c];
      assert Streamed(Numeric(s)) == Feed(Fold(0, p), c) by { ExpandFeeds(Numeric(p), c); }
      FoldSnoc(0, p, c);
    }
  }

  lemma {:induction false} FoldSnoc(r: int, p: string, c: char)
    ensures Fold(r, p + [c]) == Feed(Fold(r, p), c)
  {
    FoldConcat(r, p, [c]);
    assert [c][1..] == "";
  }

  predicate Residue(r: int) { 0 <= r < 97 }

  lemma {:induction false} FoldResidue(r: int, s: string)
    requires Residue(r)
    ensures Residue(Fold(r, s))
    decreases s
  {
    if s != "" { FoldResidue(Feed(r, s[0]), s[1..]); }
  }

  lemma {:induction false} ReduceFirst(x: int, b: int, k: int)
    requires b == 1 || b == 10 || b == 100
    ensures (x % 97 * b + k) % 97 == (x * b + k) % 97
  {
    var q := x / 97;
    assert x == 97 * q + x % 97;
    assert x * b + k == x % 97 * b + k + 97 * (q * b);
    AddMultiple(x % 97 * b + k, q * b);
  }

  lemma {:induction false} AddMultiple(x: int, q: int)
    ensures (x + 97 * q) % 97 == x % 97
  {
  }

  lemma {:induction false} SameRemainder(x: int, y: int)
    ensures x % 97 == y % 97 <==> (x - y) % 97 == 0
  {
  }

  /** Feeding one character never merges two remainders, because 10 and 100 are invertible modulo 97. */
  lemma {:induction false} FeedInjective(r: int, r': int, c: char)
    requires Residue(r) && Residue(r') && Feed(r, c) == Feed(r', c)
    ensures r == r'
  {
    var d := r - r';
    if IsDigit(c) {
      SameRemainder(r * 10 + Code(c), r' * 10 + Code(c));
      TenInvertible(d);
    } else {
      SameRemainder(r * 100 + Code(c), r' * 100 + Code(c));
      HundredInvertible(d);
    }
  }

  lemma {:induction false} TenInvertible(d: int)
    requires -97 < d < 97 && 10 * d % 97 == 0
    ensures d == 0
  {
  }

  lemma {:induction false} HundredInvertible(d: int)
    requires -97 < d < 97 && 100 * d % 97 == 0
    ensures d == 0
  {
    var e := 100 * d / 97;
    assert 100 * d == 97 * e;
  }

  lemma {:induction false} FoldInjective(r: int, r': int, s: string)
    requires Residue(r) && Residue(r')
    ensures Fold(r, s) == Fold(r', s) <==> r == r'
    decreases s
  {
    if s != "" {
      if Feed(r, s[0]) == Feed(r', s[0]) { FeedInjective(r, r', s[0]); }
      FoldInjective(Feed(r, s[0]), Feed(r', s[0]), s[1..]);
    }
  }

  /** Equal context on both sides: the whole remainders agree exactly when the middles do. */
  lemma {:induction false} MiddleDecides(p: string, m: string, m': string, t: string)
    ensures Fold(0, p + m + t) == Fold(0, p + m' + t) <==> Fold(Fold(0, p), m) == Fold(Fold(0, p), m')
  {
    FoldResidue(0, p);
    FoldResidue(Fold(0, p), m);
    FoldResidue(Fold(0, p), m');
    FoldConcat(0, p + m, t);
    FoldConcat(0, p, m);
    FoldConcat(0, p + m', t);
    FoldConcat(0, p, m');
    FoldInjective(Fold(Fold(0, p), m), Fold(Fold(0, p), m'), t);
  }

  // ---- what makes an address valid

  /** The remainder the check characters are computed from. */
  function BodyRemainder(body: string): int { Fold(0, body + "NQ00") }

  lemma {:induction false} CheckOfBody(body: string)
    requires AlphaNumeric(body)
    ensures Residue(BodyRemainder(body))
    ensures CheckDigits("NQ00" + body) == TwoDigits(98 - BodyRemainder(body))
  {
    var s := "NQ00" + body;
    assert s[4..] == body && s[..4] == "NQ00";
    FoldIsStreamed(body + "NQ00");
    FoldResidue(0, body + "NQ00");
  }

  lemma {:induction false} ValidMeans(norm: string)
    requires Shape(norm)
    ensures Residue(BodyRemainder(norm[4..]))
    ensures IsValid(norm) <==> norm[2..4] == TwoDigits(98 - BodyRemainder(norm[4..]))
  {
    CheckOfBody(norm[4..]);
  }

  lemma {:induction false} TwoDigitsInjective(m: nat, n: nat)
    requires m < 100 && n < 100
    ensures TwoDigits(m) == TwoDigits(n) <==> m == n
  {
    if TwoDigits(m) == TwoDigits(n) {
      assert TwoDigits(m)[0] == TwoDigits(n)[0] && TwoDigits(m)[1] == TwoDigits(n)[1];
    }
  }

  /**
   An address is valid exactly when its check characters are two digits denoting a
   number from 2 to 98 that makes the rearranged number congruent to 1.
   */
  lemma {:induction false} ValidIffCongruent(norm: string)
    requires Shape(norm)
    ensures IsValid(norm) <==> ChecksOut(norm)
  {
    ValidMeans(norm);
    if IsValid(norm) {
      CongruentWhen(norm, 98 - BodyRemainder(norm[4..]));
    }
    if k: nat :| 2 <= k <= 98 && norm[2..4] == TwoDigits(k) && CongruentToOne(norm) {
      CongruentWhen(norm, k);
    }
  }

  /** The check characters denote a number from 2 to 98 that makes the rearranged number congruent to 1. */
  predicate ChecksOut(norm: string)
    requires |norm| >= 4
  {
    exists k: nat :: 2 <= k <= 98 && norm[2..4] == TwoDigits(k) && CongruentToOne(norm)
  }

  /** Text without spaces or small letters is its own compact form. */
  lemma {:induction false} CompactTwice(s: string)
    requires AlphaNumeric(s)
    ensures Compact(s) == s
  {
    if s != "" { CompactTwice(s[1..]); }
  }

  /**
   The compact form of the input when that is an address whose number is congruent to 1,
   and nothing otherwise; the result normalises to itself.
   */
  method NormalizeValidator(addr: string) returns (r: string)
    ensures r != "" <==> Shape(Compact(addr)) && ChecksOut(Compact(addr))
    ensures r != "" ==> r == Compact(addr) && Compact(r) == r && IsValid(r)
  {
    var norm := Compact(addr);
    r := if IsValid(norm) then norm else "";
    if Shape(norm) {
      ValidIffCongruent(norm);
      CompactTwice(norm);
    }
  }

  predicate CongruentToOne(norm: string) {
    Value(Numeric(Moved(norm))) % 97 == 1
  }

  lemma {:induction false} CongruentWhen(norm: string, k: nat)
    requires Shape(norm) && 2 <= k <= 98 && norm[2..4] == TwoDigits(k)
    ensures CongruentToOne(norm) <==> k == 98 - BodyRemainder(norm[4..])
  {
    ValidMeans(norm);
    RearrangedRemainder(norm, k);
    UniqueComplement(BodyRemainder(norm[4..]), k);
  }

  lemma {:induction false} UniqueComplement(r: int, k: int)
    requires Residue(r) && 2 <= k <= 98
    ensures (r + k) % 97 == 1 <==> k == 98 - r
  {
  }

  /** Two decimal digits after a remainder. */
  lemma {:induction false} FoldNumber(q: int, k: nat)
    requires k < 100
    ensures Fold(q, TwoDigits(k)) == (q * 100 + k) % 97
  {
    FoldTwo(q, DigitChar(k / 10), DigitChar(k % 10));
    assert k / 10 * 10 + k % 10 == k;
  }

  lemma {:induction false} RearrangedRemainder(norm: string, k: nat)
    requires Shape(norm) && k < 100 && norm[2..4] == TwoDigits(k)
    ensures Value(Numeric(Moved(norm))) % 97 == (BodyRemainder(norm[4..]) + k) % 97
  {
    var body := norm[4..];
    var q := Fold(0, body + "NQ");
    MovedRemainder(norm);
    assert Moved(norm) == body + "NQ" + TwoDigits(k);
    FoldConcat(0, body + "NQ", TwoDigits(k));
    FoldNumber(q, k);
    ZerosAtEnd(body, q);
    ReduceFirst(q * 100, 1, k);
  }

  lemma {:induction false} ZerosAtEnd(body: string, q: int)
    requires q == Fold(0, body + "NQ")
    ensures BodyRemainder(body) == q * 100 % 97
  {
    assert body + "NQ00" == body + "NQ" + "00" && TwoDigits(0) == "00";
    FoldConcat(0, body + "NQ", "00");
    FoldNumber(q, 0);
  }

  lemma {:induction false} MovedRemainder(norm: string)
    requires Shape(norm)
    ensures Value(Numeric(Moved(norm))) % 97 == Fold(0, Moved(norm))
  {
    FoldIsStreamed(Moved(norm));
    StreamedIsValueMod97(Numeric(Moved(norm)));
  }

  lemma {:induction false} FoldTwo(r: int, a: char, b: char)
    ensures Fold(r, [a, b]) == (r * (Weight(a) * Weight(b)) + Code(a) * Weight(b) + Code(b)) % 97
  {
    FoldSnoc(r, [a], b);
    assert [a] + [b] == [a, b] && [a][1..] == "";
    assert Fold(r, [a]) == Feed(r, a);
    ReduceFirst(r * Weight(a) + Code(a), Weight(b), Code(b));
  }

  /** For every body there is exactly one pair of check characters. */
  lemma {:induction false} ExactlyOneCheck(body: string)
    requires |body| == 32 && AlphaNumeric(body)
    ensures exists c :: |c| == 2 && IsValid("NQ" + c + body)
    ensures forall c, d :: |c| == 2 && |d| == 2 && IsValid("NQ" + c + body) && IsValid("NQ" + d + body) ==> c == d
  {
    CheckOfBody(body);
    forall c | |c| == 2 && AlphaNumeric(c)
      ensures IsValid("NQ" + c + body) <==> c == TwoDigits(98 - BodyRemainder(body))
    {
      var norm := "NQ" + c + body;
      assert norm[..2] == "NQ" && norm[2..4] == c && norm[4..] == body;
      ValidMeans(norm);
    }
    var c := TwoDigits(98 - BodyRemainder(body));
    assert IsValid("NQ" + c + body);
    forall d | |d| == 2 && IsValid("NQ" + d + body) ensures AlphaNumeric(d) {
      var norm := "NQ" + d + body;
      assert norm[2] == d[0] && norm[3] == d[1];
    }
  }

  // ---- which corruptions are detected

  /** Two valid addresses with the same check characters have equal body remainders, and conversely. */
  lemma {:induction false} SameCheck(a: string, b: string)
    requires IsValid(a) && Shape(b) && a[2..4] == b[2..4]
    ensures IsValid(b) <==> Fold(0, a[4..]) == Fold(0, b[4..])
  {
    ValidMeans(a);
    ValidMeans(b);
    TwoDigitsInjective(98 - BodyRemainder(a[4..]), 98 - BodyRemainder(b[4..]));
    FoldResidue(0, a[4..]);
    FoldResidue(0, b[4..]);
    FoldConcat(0, a[4..], "NQ00");
    FoldConcat(0, b[4..], "NQ00");
    FoldInjective(Fold(0, a[4..]), Fold(0, b[4..]), "NQ00");
  }

  predicate SameKind(c: char, d: char) {
    (IsDigit(c) && IsDigit(d)) || (IsUpper(c) && IsUpper(d))
  }

  /** Replacing one body character by another of its kind is always caught. */
  lemma {:induction false} SubstitutionDetected(a: string, i: nat, c: char)
    requires IsValid(a) && 4 <= i < 36 && SameKind(a[i], c) && a[i] != c
    ensures !IsValid(a[i := c])
  {
    var b := a[i := c];
    var p, t := a[4..i], a[i + 1..];
    assert b[2..4] == a[2..4] && b[..2] == a[..2];
    assert a[4..] == p + [a[i]] + t && b[4..] == p + [c] + t;
    if Shape(b) {
      SameCheck(a, b);
      MiddleDecides(p, [a[i]], [c], t);
      FoldResidue(0, p);
      OneCharacter(Fold(0, p), a[i], c);
    }
  }

  lemma {:induction false} FoldOne(r: int, c: char)
    ensures Fold(r, [c]) == Feed(r, c)
  {
    assert [c][1..] == "";
  }

  lemma {:induction false} OneCharacter(r: int, c: char, d: char)
    requires Residue(r) && SameKind(c, d) && c != d
    ensures Fold(r, [c]) != Fold(r, [d])
  {
    FoldOne(r, c);
    FoldOne(r, d);
    OneFeed(c, d, r * Weight(c));
  }

  lemma {:induction false} OneFeed(c: char, d: char, w: int)
    requires SameKind(c, d) && c != d
    ensures (w + Code(c)) % 97 != (w + Code(d)) % 97
  {
    SameRemainder(w + Code(c), w + Code(d));
    assert -97 < Code(c) - Code(d) < 97;
  }

  /** The adjacent pairs whose exchange the check cannot see. */
  predicate Blind(c: char, d: char) {
    (c, d) in {('B', '1'), ('1', 'B'), ('M', '2'), ('2', 'M'), ('X', '3'), ('3', 'X')}
  }

  /** Exchanging two adjacent different body characters is caught exactly when the pair is not blind. */
  lemma {:induction false} TranspositionDetectedIff(a: string, i: nat)
    requires IsValid(a) && 4 <= i < 35 && a[i] != a[i + 1]
    ensures IsValid(a[i := a[i + 1]][i + 1 := a[i]]) <==> Blind(a[i], a[i + 1])
  {
    var c, d := a[i], a[i + 1];
    var b := a[i := d][i + 1 := c];
    var p, t := a[4..i], a[i + 2..];
    assert b[2..4] == a[2..4] && b[..2] == a[..2];
    assert AlphaNumeric(b);
    assert a[4..] == p + [c, d] + t && b[4..] == p + [d, c] + t;
    SameCheck(a, b);
    MiddleDecides(p, [c, d], [d, c], t);
    FoldResidue(0, p);
    TwoCharacters(Fold(0, p), c, d);
  }

  lemma {:induction false} TwoCharacters(r: int, c: char, d: char)
    requires Residue(r) && (IsDigit(c) || IsUpper(c)) && (IsDigit(d) || IsUpper(d)) && c != d
    ensures Fold(r, [c, d]) == Fold(r, [d, c]) <==> Blind(c, d)
  {
    FoldTwo(r, c, d);
    FoldTwo(r, d, c);
    var x, y := Code(c) * Weight(d) + Code(d), Code(d) * Weight(c) + Code(c);
    var w := r * (Weight(c) * Weight(d));
    assert w == r * (Weight(d) * Weight(c));
    SameRemainder(w + x, w + y);
    Exchanged(c, d);
  }

  lemma {:induction false} Exchanged(c: char, d: char)
    requires (IsDigit(c) || IsUpper(c)) && (IsDigit(d) || IsUpper(d)) && c != d
    ensures (Code(c) * Weight(d) + Code(d) - (Code(d) * Weight(c) + Code(c))) % 97 == 0 <==> Blind(c, d)
  {
    if IsDigit(c) && IsDigit(d) {
      DigitPair(Code(c), Code(d));
    } else if IsUpper(c) && IsUpper(d) {
      LetterPair(Code(c), Code(d));
    } else if IsDigit(c) {
      MixedPair(Code(c), Code(d));
    } else {
      MixedPair(Code(d), Code(c));
      Negated(99 * Code(d) - 9 * Code(c));
    }
  }

  lemma {:induction false} DigitPair(x: int, y: int)
    requires 0 <= x < 10 && 0 <= y < 10 && x != y
    ensures (x * 10 + y - (y * 10 + x)) % 97 != 0
  {
    NineTimes(x - y);
  }

  lemma {:induction false} LetterPair(x: int, y: int)
    requires 10 <= x < 36 && 10 <= y < 36 && x != y
    ensures (x * 100 + y - (y * 100 + x)) % 97 != 0
  {
    AddMultiple(2 * (x - y), x - y);
  }

  lemma {:induction false} Negated(x: int)
    ensures x % 97 == 0 <==> (-x) % 97 == 0
  {
  }

  lemma {:induction false} NineTimes(d: int)
    requires -10 < d < 10 && d != 0
    ensures 9 * d % 97 != 0
  {
  }

  /** 99x = 9y modulo 97 for a digit x and a letter code y. */
  lemma {:induction false} MixedPair(x: int, y: int)
    requires 0 <= x < 10 && 10 <= y < 36
    ensures (99 * x - 9 * y) % 97 == 0 <==> (x, y) in {(1, 11), (2, 22), (3, 33)}
  {
    var z := 2 * x - 9 * y;
    AddMultiple(z, x);
    assert z + 97 * x == 99 * x - 9 * y;
    assert z % 97 == 0 <==> z == -97 || z == -194 || z == -291;
  }

  function ZeroDigits(n: nat): string { seq(n, _ => '0') }

  lemma {:induction false} FoldZeros(n: nat)
    ensures Fold(0, ZeroDigits(n)) == 0
  {
    if n > 0 {
      FoldZeros(n - 1);
      FoldSnoc(0, ZeroDigits(n - 1), '0');
      assert ZeroDigits(n) == ZeroDigits(n - 1) + ['0'];
    }
  }

  lemma {:induction false} FoldB1()
    ensures Fold(0, "B1") == 14
  {
    FoldTwo(0, 'B', '1');
  }

  /** Leading zeros do not count, so every body of zeros and B1 leaves the same remainder. */
  lemma {:induction false} BodyOfZeros(n: nat)
    ensures AlphaNumeric(ZeroDigits(n) + "B1") && BodyRemainder(ZeroDigits(n) + "B1") == 81
  {
    FoldZeros(n);
    FoldB1();
    EndOfHeader();
    FoldPieces(ZeroDigits(n), "B1", "NQ00");
  }

  lemma {:induction false} FoldPieces(a: string, b: string, c: string)
    ensures Fold(0, a + b + c) == Fold(Fold(Fold(0, a), b), c)
  {
    FoldConcat(0, a, b);
    FoldConcat(0, a + b, c);
  }

  lemma {:induction false} AddressParts(check: string, body: string)
    requires |check| == 2 && AlphaNumeric(check) && |body| == 32 && AlphaNumeric(body)
    ensures var a := "NQ" + check + body; Shape(a) && a[2..4] == check && a[4..] == body
  {
    var a := "NQ" + check + body;
    assert a[..2] == "NQ" && a[2..4] == check && a[4..] == body;
    assert forall i :: 2 <= i < 4 ==> a[i] == check[i - 2];
    assert forall i :: 4 <= i < 36 ==> a[i] == body[i - 4];
  }

  /** A valid address that ends in B1, and the exchanged one, which is valid too. */
  lemma {:induction false} ExchangeEscapes()
    ensures var a := "NQ" + "17" + (ZeroDigits(30) + "B1");
      IsValid(a) && a[34] == 'B' && a[35] == '1' && IsValid(a[34 := '1'][35 := 'B'])
  {
    var body := ZeroDigits(30) + "B1";
    var a := "NQ" + "17" + body;
    BodyOfZeros(30);
    AddressParts("17", body);
    ValidMeans(a);
    assert TwoDigits(17) == "17";
    assert a[34] == a[4..][30] == 'B' && a[35] == a[4..][31] == '1';
    TranspositionDetectedIff(a, 34);
  }

  lemma {:induction false} EndOfHeader()
    ensures Fold(14, "NQ00") == 81
  {
    FoldConcat(14, "NQ", "00");
    assert "NQ" + "00" == "NQ00";
    FoldNQ();
    FoldTwo(27, '0', '0');
  }

  lemma {:induction false} FoldNQ()
    ensures Fold(14, "NQ") == 27
  {
    FoldTwo(14, 'N', 'Q');
  }
}
