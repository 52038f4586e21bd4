/**
 What the invoice checksum computes (BIP-173): the remainder of a polynomial over GF(32) by
 x^6 + 29 x^5 + 22 x^4 + 20 x^3 + 21 x^2 + 29 x + 18, in a field where a^5 = a^3 + 1.
 */
module ChecksumField {
  import opened BitXor
  import opened Bech32

  // ---- the field

  /** A symbol times a. */
  function Alpha(v: nat): nat { if v < 16 then 2 * v else Xor(2 * v - 32, 9) }

  /** The product of two symbols: the bits of b choose from g, g a, g a^2 and so on. */
  function Times(b: nat, g: nat): nat
    decreases b
  {
    if b == 0 then 0 else Xor(if b % 2 == 1 then g else 0, Times(b / 2, Alpha(g)))
  }

  // ---- polynomials, highest coefficient first

  /** The generator below its leading 1. */
  const LOWER: seq<nat> := [29, 22, 20, 21, 29, 18]

  function Scaled(b: nat): seq<nat> { seq(6, i requires 0 <= i < 6 => Times(b, LOWER[i])) }

  /** Long division: the leading coefficient times the generator is taken off until six coefficients are left. */
  function Remainder(p: seq<nat>): seq<nat>
    requires |p| >= 6
    decreases |p|
  {
    if |p| == 6 then p else Remainder(XorSeq(p[1..7], Scaled(p[0])) + p[7..])
  }

  // ---- a state as six symbols

  function Digit(c: nat, j: nat): nat { if j == 0 then c % 32 else Digit(c / 32, j - 1) }

  function Six(c: nat): seq<nat> { [Digit(c, 5), Digit(c, 4), Digit(c, 3), Digit(c, 2), Digit(c, 1), Digit(c, 0)] }

  lemma {:induction false} Cuts5(a: nat, b: nat)
    ensures Xor(a, b) / 32 == Xor(a / 32, b / 32) && Xor(a, b) % 32 == Xor(a % 32, b % 32)
  {
    Splits5(a / 32, a % 32, b / 32, b % 32);
  }

  lemma {:induction false} DigitXor(a: nat, b: nat, j: nat)
    ensures Digit(Xor(a, b), j) == Xor(Digit(a, j), Digit(b, j))
  {
    Cuts5(a, b);
    if j > 0 { DigitXor(a / 32, b / 32, j - 1); }
  }

  lemma {:induction false} DigitZero(j: nat)
    ensures Digit(0, j) == 0
  {
    if j > 0 { DigitZero(j - 1); }
  }

  function Digits(gens: seq<nat>, j: nat): seq<nat> { seq(|gens|, i requires 0 <= i < |gens| => Digit(gens[i], j)) }

  lemma {:induction false} DigitMix(b: nat, gens: seq<nat>, j: nat)
    ensures Digit(Mix(b, gens), j) == Mix(b, Digits(gens, j))
    decreases gens
  {
    if gens == [] {
      DigitZero(j);
    } else {
      DigitZero(j);
      DigitMix(b / 2, gens[1..], j);
      DigitXor(Pick(b, gens[0]), Mix(b / 2, gens[1..]), j);
      assert Digits(gens, j)[1..] == Digits(gens[1..], j);
    }
  }

  /** g, g a, g a^2 and so on. */
  function Powers(g: nat, n: nat): seq<nat>
    decreases n
  {
    if n == 0 then [] else [g] + Powers(Alpha(g), n - 1)
  }

  lemma {:induction false} MixIsTimes(b: nat, g: nat, n: nat, bound: nat)
    requires b < bound && bound == ShiftLeft(1, n)
    ensures Mix(b, Powers(g, n)) == Times(b, g)
    decreases n
  {
    if n == 0 {
    } else {
      assert Powers(g, n)[1..] == Powers(Alpha(g), n - 1);
      MixIsTimes(b / 2, Alpha(g), n - 1, ShiftLeft(1, n - 1));
      if b == 0 { Zero(0); }
    }
  }

  predicate IsXor(a: nat, b: nat, c: nat) { Xor(a, b) == c }

  predicate IsAlpha(v: nat, x: nat) { Alpha(v) == x }

  lemma {:induction false} FivePowers(g: nat, b: nat, c: nat, d: nat, e: nat)
    requires IsAlpha(g, b) && IsAlpha(b, c) && IsAlpha(c, d) && IsAlpha(d, e)
    ensures Powers(g, 5) == [g, b, c, d, e]
  {
    assert Powers(e, 1) == [e];
    assert Powers(d, 2) == [d, e];
    assert Powers(c, 3) == [c, d, e];
    assert Powers(b, 4) == [b, c, d, e];
  }

  lemma {:induction false} BitNext(m: nat, n: nat, c: nat, x: nat, y: nat)
    requires x < 2 && y < 2 && Xor(m, n) == c
    ensures Xor(2 * m + x, 2 * n + y) == 2 * c + (x + y) % 2
  {
    AppendBit(m, x, n, y);
  }

  /** Two symbols bit by bit, the highest first. */
  lemma {:induction false} XorIs(a: nat, b: nat, c: nat, p: nat, q: nat, r: nat, s: nat, t: nat, u: nat, v: nat, w: nat, x: nat, y: nat)
    requires p < 2 && q < 2 && r < 2 && s < 2 && t < 2 && u < 2 && v < 2 && w < 2 && x < 2 && y < 2
    requires a == 2 * (2 * (2 * (2 * p + q) + r) + s) + t && b == 2 * (2 * (2 * (2 * u + v) + w) + x) + y
    requires c == 2 * (2 * (2 * (2 * ((p + u) % 2) + (q + v) % 2) + (r + w) % 2) + (s + x) % 2) + (t + y) % 2
    ensures IsXor(a, b, c)
  {
    OneBit(p, u);
    TwoBits(p, u, (p + u) % 2, q, r, v, w);
    TwoBits(2 * (2 * p + q) + r, 2 * (2 * u + v) + w, 2 * (2 * ((p + u) % 2) + (q + v) % 2) + (r + w) % 2, s, t, x, y);
  }

  lemma {:induction false} TwoBits(m: nat, n: nat, c: nat, s: nat, t: nat, x: nat, y: nat)
    requires s < 2 && t < 2 && x < 2 && y < 2 && Xor(m, n) == c
    ensures Xor(2 * (2 * m + s) + t, 2 * (2 * n + x) + y) == 2 * (2 * c + (s + x) % 2) + (t + y) % 2
  {
    BitNext(m, n, c, s, x);
    BitNext(2 * m + s, 2 * n + x, 2 * c + (s + x) % 2, t, y);
  }

  lemma {:induction false} OneBit(p: nat, u: nat)
    requires p < 2 && u < 2
    ensures Xor(p, u) == (p + u) % 2
  {
  }

  lemma {:induction false} Wraps(v: nat, low: nat, x: nat)
    requires 16 <= v < 32 && low == 2 * v - 32 && IsXor(low, 9, x)
    ensures IsAlpha(v, x)
  {
  }

  lemma {:induction false} Doubles(v: nat, x: nat)
    requires v < 16 && x == 2 * v
    ensures IsAlpha(v, x)
  {
  }

  lemma {:induction false} PowersOf29()
    ensures Powers(29, 5) == [29, 19, 15, 30, 21]
  {
    XorIs(26, 9, 19, 1, 1, 0, 1, 0, 0, 1, 0, 0, 1);
    Wraps(29, 26, 19);
    XorIs(6, 9, 15, 0, 0, 1, 1, 0, 0, 1, 0, 0, 1);
    Wraps(19, 6, 15);
    Doubles(15, 30);
    XorIs(28, 9, 21, 1, 1, 1, 0, 0, 0, 1, 0, 0, 1);
    Wraps(30, 28, 21);
    FivePowers(29, 19, 15, 30, 21);
  }

  lemma {:induction false} PowersOf22()
    ensures Powers(22, 5) == [22, 5, 10, 20, 1]
  {
    XorIs(12, 9, 5, 0, 1, 1, 0, 0, 0, 1, 0, 0, 1);
    Wraps(22, 12, 5);
    Doubles(5, 10);
    Doubles(10, 20);
    XorIs(8, 9, 1, 0, 1, 0, 0, 0, 0, 1, 0, 0, 1);
    Wraps(20, 8, 1);
    FivePowers(22, 5, 10, 20, 1);
  }

  lemma {:induction false} PowersOf20()
    ensures Powers(20, 5) == [20, 1, 2, 4, 8]
  {
    XorIs(8, 9, 1, 0, 1, 0, 0, 0, 0, 1, 0, 0, 1);
    Wraps(20, 8, 1);
    Doubles(1, 2);
    Doubles(2, 4);
    Doubles(4, 8);
    FivePowers(20, 1, 2, 4, 8);
  }

  lemma {:induction false} PowersOf21()
    ensures Powers(21, 5) == [21, 3, 6, 12, 24]
  {
    XorIs(10, 9, 3, 0, 1, 0, 1, 0, 0, 1, 0, 0, 1);
    Wraps(21, 10, 3);
    Doubles(3, 6);
    Doubles(6, 12);
    Doubles(12, 24);
    FivePowers(21, 3, 6, 12, 24);
  }

  lemma {:induction false} PowersOf18()
    ensures Powers(18, 5) == [18, 13, 26, 29, 19]
  {
    XorIs(4, 9, 13, 0, 0, 1, 0, 0, 0, 1, 0, 0, 1);
    Wraps(18, 4, 13);
    Doubles(13, 26);
    XorIs(20, 9, 29, 1, 0, 1, 0, 0, 0, 1, 0, 0, 1);
    Wraps(26, 20, 29);
    XorIs(26, 9, 19, 1, 1, 0, 1, 0, 0, 1, 0, 0, 1);
    Wraps(29, 26, 19);
    FivePowers(18, 13, 26, 29, 19);
  }

  lemma {:induction false} Column(j: nat)
    requires j < 6
    ensures Digits(GEN, j) == [Six(GEN[0])[5 - j], Six(GEN[1])[5 - j], Six(GEN[2])[5 - j], Six(GEN[3])[5 - j], Six(GEN[4])[5 - j]]
  {
    SixAt(GEN[0], 5 - j);
    SixAt(GEN[1], 5 - j);
    SixAt(GEN[2], 5 - j);
    SixAt(GEN[3], 5 - j);
    SixAt(GEN[4], 5 - j);
  }

  /** The five constants are the generator times 1, a, a^2, a^3 and a^4. */
  lemma {:induction false} ConstantsArePowers(j: nat)
    requires j < 6
    ensures Digits(GEN, j) == Powers(LOWER[5 - j], 5)
  {
    Column(j);
    SixOfConstants();
    if j == 0 { PowersOf18(); } else if j == 2 { PowersOf21(); } else if j == 3 { PowersOf20(); }
    else if j == 4 { PowersOf22(); } else { PowersOf29(); }
  }

  lemma {:induction false} SixDigits(c: nat, a: nat, b: nat, d: nat, e: nat, f: nat, g: nat)
    requires a < 32 && b < 32 && d < 32 && e < 32 && f < 32 && g < 32
    requires c == ((((a * 32 + b) * 32 + d) * 32 + e) * 32 + f) * 32 + g
    ensures Six(c) == [a, b, d, e, f, g]
  {
    var x4 := (((a * 32 + b) * 32 + d) * 32 + e) * 32 + f;
    var x3 := ((a * 32 + b) * 32 + d) * 32 + e;
    var x2 := (a * 32 + b) * 32 + d;
    var x1 := a * 32 + b;
    assert c / 32 == x4 && x4 / 32 == x3 && x3 / 32 == x2 && x2 / 32 == x1 && x1 / 32 == a;
    assert Digit(c, 0) == g && Digit(c, 1) == Digit(x4, 0) == f && Digit(c, 2) == Digit(x4, 1) == Digit(x3, 0) == e;
    assert Digit(c, 3) == Digit(x4, 2) == Digit(x3, 1) == Digit(x2, 0) == d;
    assert Digit(c, 4) == Digit(x4, 3) == Digit(x3, 2) == Digit(x2, 1) == Digit(x1, 0) == b;
    assert Digit(c, 5) == Digit(x4, 4) == Digit(x3, 3) == Digit(x2, 2) == Digit(x1, 1) == Digit(a, 0) == a;
  }

  lemma {:induction false} SixOfConstants()
    ensures Six(GEN[0]) == [29, 22, 20, 21, 29, 18] && Six(GEN[1]) == [19, 5, 1, 3, 19, 13]
    ensures Six(GEN[2]) == [15, 10, 2, 6, 15, 26] && Six(GEN[3]) == [30, 20, 4, 12, 30, 29]
    ensures Six(GEN[4]) == [21, 1, 8, 24, 21, 19]
  {
    SixDigits(GEN[0], 29, 22, 20, 21, 29, 18);
    SixDigits(GEN[1], 19, 5, 1, 3, 19, 13);
    SixDigits(GEN[2], 15, 10, 2, 6, 15, 26);
    SixDigits(GEN[3], 30, 20, 4, 12, 30, 29);
    SixDigits(GEN[4], 21, 1, 8, 24, 21, 19);
  }

  lemma {:induction false} DigitOfMix(b: nat, j: nat)
    requires b < 32 && j < 6
    ensures Digit(Mix(b, GEN), j) == Times(b, LOWER[5 - j])
  {
    DigitMix(b, GEN, j);
    ConstantsArePowers(j);
    assert ShiftLeft(1, 5) == 32;
    MixIsTimes(b, LOWER[5 - j], 5, 32);
  }

  // ---- one step is one coefficient of the long division

  /** Shifted by one symbol, and v in the last place. */
  lemma {:induction false} DigitOfShift(c: nat, v: nat, j: nat)
    requires v < 32
    ensures Digit(Xor(0x20 * c, v), j) == if j == 0 then v else Digit(c, j - 1)
  {
    Beside(c, v, 0x20 * c);
    assert (0x20 * c + v) / 32 == c && (0x20 * c + v) % 32 == v;
  }

  /** Below the fifth symbol the top one does not matter. */
  lemma {:induction false} DigitOfLow(c: nat, j: nat)
    requires j < 5
    ensures Digit(c % 0x2000000, j) == Digit(c, j)
  {
    Lowered(c, j, 0x2000000, 0x100000);
  }

  lemma {:induction false} Lowered(c: nat, j: nat, m: nat, rest: nat)
    requires rest >= 1 && m == 32 * rest && (j > 0 ==> rest == 0x20 || rest == 0x400 || rest == 0x8000 || rest == 0x100000)
    requires j == 0 || (j == 1 && rest >= 0x20) || (j == 2 && rest >= 0x400) || (j == 3 && rest >= 0x8000) || (j == 4 && rest >= 0x100000)
    ensures Digit(c % m, j) == Digit(c, j)
    decreases j
  {
    HalfLow(c, rest);
    if j > 0 { Lowered(c / 32, j - 1, rest, rest / 32); }
  }

  lemma {:induction false} HalfLow(c: nat, rest: nat)
    requires rest >= 1
    ensures (c % (32 * rest)) / 32 == (c / 32) % rest && (c % (32 * rest)) % 32 == c % 32
  {
    var m, q, r := 32 * rest, c / 32, c % 32;
    var h, l := q / rest, q % rest;
    assert c == 32 * q + r && q == rest * h + l;
    assert c == m * h + (32 * l + r) by { assert 32 * (rest * h) == m * h; }
    Divided(c, m, h, 32 * l + r);
  }

  lemma {:induction false} Divided(c: nat, m: nat, h: nat, l: nat)
    requires c == m * h + l && l < m
    ensures c % m == l
  {
    var q := c / m;
    assert c == m * q + c % m;
    if q < h { LessFactor(m, q, h); }
    if h < q { LessFactor(m, h, q); }
  }

  lemma {:induction false} LessFactor(m: nat, a: nat, b: nat)
    requires a < b
    ensures m * a + m <= m * b
  {
    assert m * (b - a) >= m by { assert b - a >= 1; MonotoneFactor(m, 1, b - a); }
  }

  lemma {:induction false} MonotoneFactor(m: nat, a: nat, b: nat)
    requires a <= b
    ensures m * a <= m * b
  {
  }

  lemma {:induction false} DigitsDown(c: nat)
    ensures Digit(c, 1) == c / 32 % 32 && Digit(c, 2) == c / 32 / 32 % 32 && Digit(c, 3) == c / 32 / 32 / 32 % 32
    ensures Digit(c, 4) == c / 32 / 32 / 32 / 32 % 32 && Digit(c, 5) == c / 32 / 32 / 32 / 32 / 32 % 32
  {
    var d, e, f := c / 32, c / 32 / 32, c / 32 / 32 / 32;
    assert Digit(c, 1) == Digit(d, 0) && Digit(c, 2) == Digit(d, 1) == Digit(e, 0);
    assert Digit(c, 3) == Digit(d, 2) == Digit(e, 1) == Digit(f, 0);
    assert Digit(c, 4) == Digit(d, 3) == Digit(e, 2) == Digit(f, 1) == Digit(f / 32, 0);
    assert Digit(c, 5) == Digit(d, 4) == Digit(e, 3) == Digit(f, 2) == Digit(f / 32, 1) == Digit(f / 32 / 32, 0);
  }

  lemma {:induction false} TopDigit(c: nat)
    requires c < LIMIT
    ensures c / 0x2000000 == Digit(c, 5) < 32
  {
    DigitsDown(c);
    assert c / 32 / 32 / 32 / 32 / 32 == c / 0x2000000;
  }

  lemma {:induction false} StepDigit(c: nat, v: nat, j: nat)
    requires c < LIMIT && v < 32 && j < 6
    ensures Digit(Step(c, v), j) == Xor(if j == 0 then v else Digit(c, j - 1), Times(Digit(c, 5), LOWER[5 - j]))
  {
    var l, h := c % 0x2000000, c / 0x2000000;
    TopDigit(c);
    DigitXor(Xor(0x20 * l, v), Mix(h, GEN), j);
    DigitOfShift(l, v, j);
    DigitOfMix(h, j);
    if j > 0 { DigitOfLow(c, j - 1); }
  }

  /** A step moves the symbols up by one and takes off the leading one times the generator. */
  lemma {:induction false} StepDivides(c: nat, v: nat)
    requires c < LIMIT && v < 32
    ensures Six(Step(c, v)) == XorSeq(Six(c)[1..] + [v], Scaled(Six(c)[0]))
  {
    var out := XorSeq(Six(c)[1..] + [v], Scaled(Six(c)[0]));
    forall i | 0 <= i < 6 ensures Six(Step(c, v))[i] == out[i] {
      SixAt(Step(c, v), i);
      if i < 5 { SixAt(c, i + 1); }
      StepDigit(c, v, 5 - i);
    }
  }

  lemma {:induction false} SixAt(c: nat, i: nat)
    requires i < 6
    ensures Six(c)[i] == Digit(c, 5 - i)
  {
  }

  lemma {:induction false} RemainderNext(s: seq<nat>, vals: seq<nat>)
    requires |s| == 6 && vals != []
    ensures Remainder(s + vals) == Remainder(XorSeq(s[1..] + [vals[0]], Scaled(s[0])) + vals[1..])
  {
    var p := s + vals;
    assert p[1..7] == s[1..] + [vals[0]] && p[7..] == vals[1..] && p[0] == s[0];
  }

  /** The checksum value is the remainder of its start and the symbols, of any number, read as one polynomial. */
  lemma {:induction false} PolyIsRemainder(c: nat, vals: seq<nat>)
    requires c < LIMIT && Symbols(vals)
    ensures Six(Poly(c, vals)) == Remainder(Six(c) + vals)
    decreases vals
  {
    if vals == [] {
      assert Six(c) + [] == Six(c);
    } else {
      var next := Step(c, vals[0]);
      StepBelow(c, vals[0]);
      StepDivides(c, vals[0]);
      RemainderNext(Six(c), vals);
      PolyIsRemainder(next, vals[1..]);
      PolyNext(c, vals);
    }
  }

  // ---- the remainder is one: what was taken off is a multiple of the generator

  function Zeros(n: nat): seq<nat> { seq(n, i => 0) }

  /** q times the generator: every coefficient of q leads a copy of it. */
  function Multiple(q: seq<nat>): seq<nat>
    ensures |Multiple(q)| == |q| + 6
    decreases |q|
  {
    if q == [] then Zeros(6)
    else XorSeq([q[0]] + Scaled(q[0]) + Zeros(|q| - 1), [0] + Multiple(q[1..]))
  }

  lemma {:induction false} Folded(a: nat, b: nat, c: nat)
    requires c == Xor(a, b)
    ensures a == Xor(b, c)
  {
    Associates(b, b, a);
    Commutes(a, b);
    Cancels(b);
    Zero(a);
    Commutes(0, a);
  }

  /** Every polynomial is a multiple of the generator and its remainder. */
  lemma {:induction false} Division(p: seq<nat>) returns (q: seq<nat>)
    requires |p| >= 6
    ensures |q| == |p| - 6 && |Remainder(p)| == 6 && p == XorSeq(Multiple(q), Zeros(|q|) + Remainder(p))
    decreases |p|
  {
    if |p| == 6 {
      q := [];
      forall i | 0 <= i < 6 ensures Xor(0, p[i]) == p[i] { Zero(p[i]); Commutes(0, p[i]); }
      assert Zeros(0) + p == p;
    } else {
      var rest := XorSeq(p[1..7], Scaled(p[0])) + p[7..];
      var t := Division(rest);
      q := [p[0]] + t;
      TakeOff(p, rest, t);
    }
  }

  lemma {:induction false} TakeOff(p: seq<nat>, rest: seq<nat>, t: seq<nat>)
    requires |p| >= 7 && rest == XorSeq(p[1..7], Scaled(p[0])) + p[7..] && |t| == |rest| - 6 && |Remainder(rest)| == 6
    requires rest == XorSeq(Multiple(t), Zeros(|t|) + Remainder(rest))
    ensures p == XorSeq(Multiple([p[0]] + t), Zeros(|t| + 1) + Remainder(rest))
  {
    var q, r := [p[0]] + t, Zeros(|t| + 1) + Remainder(rest);
    assert q[1..] == t;
    var lead, tail := [p[0]] + Scaled(p[0]) + Zeros(|t|), [0] + Multiple(t);
    assert Multiple(q) == XorSeq(lead, tail);
    forall i | 0 <= i < |p| ensures p[i] == Xor(Multiple(q)[i], r[i]) {
      Associates(lead[i], tail[i], r[i]);
      if i == 0 {
        Zero(0);
        Zero(p[0]);
      } else {
        assert Xor(tail[i], r[i]) == rest[i - 1];
        if i < 7 {
          Folded(p[i], lead[i], rest[i - 1]);
        } else {
          Zero(p[i]);
          Commutes(0, p[i]);
        }
      }
    }
  }

  /** A checksum is 1 exactly when the polynomial that starts with 1 leaves the remainder 1. */
  lemma {:induction false} AcceptedIff(vals: seq<nat>)
    requires Symbols(vals)
    ensures Poly(1, vals) == 1 <==> Remainder([0, 0, 0, 0, 0, 1] + vals) == [0, 0, 0, 0, 0, 1]
  {
    PolyIsRemainder(1, vals);
    PolyBelow(1, vals);
    SixDigits(1, 0, 0, 0, 0, 0, 1);
    if Six(Poly(1, vals)) == Six(1) { SixInjective(Poly(1, vals), 1); }
  }

  lemma {:induction false} SixInjective(a: nat, b: nat)
    requires a < LIMIT && b < LIMIT && Six(a) == Six(b)
    ensures a == b
  {
    FromSix(a);
    FromSix(b);
  }

  lemma {:induction false} FromSix(c: nat)
    requires c < LIMIT
    ensures c == Six(c)[0] * 0x2000000 + Six(c)[1] * 0x100000 + Six(c)[2] * 0x8000 + Six(c)[3] * 0x400 + Six(c)[4] * 0x20 + Six(c)[5]
  {
    TopDigit(c);
    DigitsDown(c);
  }
}
