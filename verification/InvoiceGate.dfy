/** The invoice gate with the alphabet of BIP-173. */
module InvoiceGate {
  import opened JsText
  import opened Bech32
  import opened BitXor
  import opened ChecksumField
  import Bolt11

  const CHARSET: string := "qpzry9x8gf2tvdw0s3jn54khce6mua7l"

  method Bolt11ChecksumOk(inv: string) returns (ok: bool)
    ensures ok <==> Bolt11.Accepts(CHARSET, LowerText(inv))
  {
    ok := Bolt11.ChecksumOk(CHARSET, inv);
  }

  /** The inverse of the alphabet, written out. */
  function Rank(c: char): int {
    match c
    case 'q' => 0 case 'p' => 1 case 'z' => 2 case 'r' => 3 case 'y' => 4 case '9' => 5 case 'x' => 6 case '8' => 7
    case 'g' => 8 case 'f' => 9 case '2' => 10 case 't' => 11 case 'v' => 12 case 'd' => 13 case 'w' => 14 case '0' => 15
    case 's' => 16 case '3' => 17 case 'j' => 18 case 'n' => 19 case '5' => 20 case '4' => 21 case 'k' => 22 case 'h' => 23
    case 'c' => 24 case 'e' => 25 case '6' => 26 case 'm' => 27 case 'u' => 28 case 'a' => 29 case '7' => 30 case 'l' => 31
    case _ => -1
  }

  /** The alphabet is that of BIP-173: thirty-two distinct characters in its order, none of them the separator. */
  lemma {:induction false} CharsetProper()
    ensures Bolt11.Proper(CHARSET) && |CHARSET| == 32 && forall i :: 0 <= i < 32 ==> Rank(CHARSET[i]) == i
  {
    forall i | 0 <= i < 32 ensures |CHARSET| == 32 && Rank(CHARSET[i]) == i { }
    RankedIsProper(CHARSET);
  }

  lemma {:induction false} RankedIsProper(t: string)
    requires |t| == 32 && forall i :: 0 <= i < 32 ==> Rank(t[i]) == i
    ensures Bolt11.Proper(t)
  {
  }

  // ---- a string of BIP-173

  lemma {:induction false} RankIsIndex(c: char)
    requires Rank(c) >= 0
    ensures Bolt11.IndexOf(CHARSET, c) == Rank(c)
  {
    CharsetProper();
    var i := Bolt11.IndexOf(CHARSET, c);
    assert CHARSET[Rank(c)] == c;
  }

  /** One coefficient of the division, with the multiple of the generator written out. */
  lemma {:induction false} Divides(s: seq<nat>, vals: seq<nat>, scaled: seq<nat>, next: seq<nat>)
    requires |s| == 6 && vals != [] && IsScaled(s[0], scaled) && next == XorSeq(s[1..] + [vals[0]], scaled)
    ensures Remainder(s + vals) == Remainder(next + vals[1..])
  {
    RemainderNext(s, vals);
  }

  lemma {:induction false} ScaledZero()
    ensures Scaled(0) == [0, 0, 0, 0, 0, 0]
  {
  }

  lemma {:induction false} ScaledOne()
    ensures IsScaled(1, [29, 22, 20, 21, 29, 18])
  {
    forall g: nat ensures Times(1, g) == g { Zero(g); }
  }

  /** A leading zero is dropped. */
  lemma {:induction false} DropsZero(a: nat, b: nat, c: nat, d: nat, e: nat, vals: seq<nat>)
    requires vals != []
    ensures Remainder([0, a, b, c, d, e] + vals) == Remainder([a, b, c, d, e, vals[0]] + vals[1..])
  {
    ScaledZero();
    Zero(a); Zero(b); Zero(c); Zero(d); Zero(e); Zero(vals[0]);
    Divides([0, a, b, c, d, e], vals, [0, 0, 0, 0, 0, 0], [a, b, c, d, e, vals[0]]);
  }

  lemma {:induction false} LeadingZeros()
    ensures Remainder([0, 0, 0, 0, 0, 1] + [3, 0, 1, 10, 28, 25, 31, 20, 31]) == Remainder([1, 3, 0, 1, 10, 28] + [25, 31, 20, 31])
  {
    DropsZero(0, 0, 0, 0, 1, [3, 0, 1, 10, 28, 25, 31, 20, 31]);
    DropsZero(0, 0, 0, 1, 3, [0, 1, 10, 28, 25, 31, 20, 31]);
    DropsZero(0, 0, 1, 3, 0, [1, 10, 28, 25, 31, 20, 31]);
    DropsZero(0, 1, 3, 0, 1, [10, 28, 25, 31, 20, 31]);
    DropsZero(1, 3, 0, 1, 10, [28, 25, 31, 20, 31]);
  }

  predicate IsTimes(b: nat, g: nat, z: nat) { Times(b, g) == z }

  lemma {:induction false} ThirtyTimes(g: nat, b: nat, c: nat, d: nat, e: nat, x: nat, y: nat, z: nat)
    requires IsAlpha(g, b) && IsAlpha(b, c) && IsAlpha(c, d) && IsAlpha(d, e) && IsXor(d, e, x) && IsXor(c, x, y) && IsXor(b, y, z)
    ensures IsTimes(30, g, z)
  {
    Zero(e);
    Zero(z);
    assert Times(1, e) == e;
    assert Times(3, d) == x;
    assert Times(7, c) == y;
    assert Times(15, b) == z;
  }

  lemma {:induction false} EighteenTimes(g: nat, b: nat, c: nat, d: nat, e: nat, x: nat)
    requires IsAlpha(g, b) && IsAlpha(b, c) && IsAlpha(c, d) && IsAlpha(d, e) && IsXor(b, e, x)
    ensures IsTimes(18, g, x)
  {
    Zero(e);
    Zero(x);
    assert Times(1, e) == e;
    assert Times(2, d) == e;
    assert Times(4, c) == e;
    assert Times(9, b) == x;
  }

  lemma {:induction false} ThirtyTimes29()
    ensures IsTimes(30, 29, 23)
  {
    XorIs(26, 9, 19, 1, 1, 0, 1, 0, 0, 1, 0, 0, 1);
    Wraps(29, 26, 19);
    XorIs(6, 9, 15, 0, 0, 1, 1, 0, 0, 1, 0, 0, 1);
    Wraps(19, 6, 15);
    Doubles(15, 30);
    XorIs(28, 9, 21, 1, 1, 1, 0, 0, 0, 1, 0, 0, 1);
    Wraps(30, 28, 21);
    XorIs(30, 21, 11, 1, 1, 1, 1, 0, 1, 0, 1, 0, 1);
    XorIs(15, 11, 4, 0, 1, 1, 1, 1, 0, 1, 0, 1, 1);
    XorIs(19, 4, 23, 1, 0, 0, 1, 1, 0, 0, 1, 0, 0);
    ThirtyTimes(29, 19, 15, 30, 21, 11, 4, 23);
  }

  lemma {:induction false} ThirtyTimes22()
    ensures IsTimes(30, 22, 26)
  {
    XorIs(12, 9, 5, 0, 1, 1, 0, 0, 0, 1, 0, 0, 1);
    Wraps(22, 12, 5);
    Doubles(5, 10);
    Doubles(10, 20);
    XorIs(8, 9, 1, 0, 1, 0, 0, 0, 0, 1, 0, 0, 1);
    Wraps(20, 8, 1);
    XorIs(20, 1, 21, 1, 0, 1, 0, 0, 0, 0, 0, 0, 1);
    XorIs(10, 21, 31, 0, 1, 0, 1, 0, 1, 0, 1, 0, 1);
    XorIs(5, 31, 26, 0, 0, 1, 0, 1, 1, 1, 1, 1, 1);
    ThirtyTimes(22, 5, 10, 20, 1, 21, 31, 26);
  }

  lemma {:induction false} ThirtyTimes20()
    ensures IsTimes(30, 20, 15)
  {
    XorIs(8, 9, 1, 0, 1, 0, 0, 0, 0, 1, 0, 0, 1);
    Wraps(20, 8, 1);
    Doubles(1, 2);
    Doubles(2, 4);
    Doubles(4, 8);
    XorIs(4, 8, 12, 0, 0, 1, 0, 0, 0, 1, 0, 0, 0);
    XorIs(2, 12, 14, 0, 0, 0, 1, 0, 0, 1, 1, 0, 0);
    XorIs(1, 14, 15, 0, 0, 0, 0, 1, 0, 1, 1, 1, 0);
    ThirtyTimes(20, 1, 2, 4, 8, 12, 14, 15);
  }

  lemma {:induction false} ThirtyTimes21()
    ensures IsTimes(30, 21, 17)
  {
    XorIs(10, 9, 3, 0, 1, 0, 1, 0, 0, 1, 0, 0, 1);
    Wraps(21, 10, 3);
    Doubles(3, 6);
    Doubles(6, 12);
    Doubles(12, 24);
    XorIs(12, 24, 20, 0, 1, 1, 0, 0, 1, 1, 0, 0, 0);
    XorIs(6, 20, 18, 0, 0, 1, 1, 0, 1, 0, 1, 0, 0);
    XorIs(3, 18, 17, 0, 0, 0, 1, 1, 1, 0, 0, 1, 0);
    ThirtyTimes(21, 3, 6, 12, 24, 20, 18, 17);
  }

  lemma {:induction false} ThirtyTimes18()
    ensures IsTimes(30, 18, 25)
  {
    XorIs(4, 9, 13, 0, 0, 1, 0, 0, 0, 1, 0, 0, 1);
    Wraps(18, 4, 13);
    Doubles(13, 26);
    XorIs(20, 9, 29, 1, 0, 1, 0, 0, 0, 1, 0, 0, 1);
    Wraps(26, 20, 29);
    XorIs(26, 9, 19, 1, 1, 0, 1, 0, 0, 1, 0, 0, 1);
    Wraps(29, 26, 19);
    XorIs(29, 19, 14, 1, 1, 1, 0, 1, 1, 0, 0, 1, 1);
    XorIs(26, 14, 20, 1, 1, 0, 1, 0, 0, 1, 1, 1, 0);
    XorIs(13, 20, 25, 0, 1, 1, 0, 1, 1, 0, 1, 0, 0);
    ThirtyTimes(18, 13, 26, 29, 19, 14, 20, 25);
  }

  lemma {:induction false} EighteenTimes29()
    ensures IsTimes(18, 29, 6)
  {
    XorIs(26, 9, 19, 1, 1, 0, 1, 0, 0, 1, 0, 0, 1);
    Wraps(29, 26, 19);
    XorIs(6, 9, 15, 0, 0, 1, 1, 0, 0, 1, 0, 0, 1);
    Wraps(19, 6, 15);
    Doubles(15, 30);
    XorIs(28, 9, 21, 1, 1, 1, 0, 0, 0, 1, 0, 0, 1);
    Wraps(30, 28, 21);
    XorIs(19, 21, 6, 1, 0, 0, 1, 1, 1, 0, 1, 0, 1);
    EighteenTimes(29, 19, 15, 30, 21, 6);
  }

  lemma {:induction false} EighteenTimes22()
    ensures IsTimes(18, 22, 4)
  {
    XorIs(12, 9, 5, 0, 1, 1, 0, 0, 0, 1, 0, 0, 1);
    Wraps(22, 12, 5);
    Doubles(5, 10);
    Doubles(10, 20);
    XorIs(8, 9, 1, 0, 1, 0, 0, 0, 0, 1, 0, 0, 1);
    Wraps(20, 8, 1);
    XorIs(5, 1, 4, 0, 0, 1, 0, 1, 0, 0, 0, 0, 1);
    EighteenTimes(22, 5, 10, 20, 1, 4);
  }

  lemma {:induction false} EighteenTimes20()
    ensures IsTimes(18, 20, 9)
  {
    XorIs(8, 9, 1, 0, 1, 0, 0, 0, 0, 1, 0, 0, 1);
    Wraps(20, 8, 1);
    Doubles(1, 2);
    Doubles(2, 4);
    Doubles(4, 8);
    XorIs(1, 8, 9, 0, 0, 0, 0, 1, 0, 1, 0, 0, 0);
    EighteenTimes(20, 1, 2, 4, 8, 9);
  }

  lemma {:induction false} EighteenTimes21()
    ensures IsTimes(18, 21, 27)
  {
    XorIs(10, 9, 3, 0, 1, 0, 1, 0, 0, 1, 0, 0, 1);
    Wraps(21, 10, 3);
    Doubles(3, 6);
    Doubles(6, 12);
    Doubles(12, 24);
    XorIs(3, 24, 27, 0, 0, 0, 1, 1, 1, 1, 0, 0, 0);
    EighteenTimes(21, 3, 6, 12, 24, 27);
  }

  lemma {:induction false} EighteenTimes18()
    ensures IsTimes(18, 18, 30)
  {
    XorIs(4, 9, 13, 0, 0, 1, 0, 0, 0, 1, 0, 0, 1);
    Wraps(18, 4, 13);
    Doubles(13, 26);
    XorIs(20, 9, 29, 1, 0, 1, 0, 0, 0, 1, 0, 0, 1);
    Wraps(26, 20, 29);
    XorIs(26, 9, 19, 1, 1, 0, 1, 0, 0, 1, 0, 0, 1);
    Wraps(29, 26, 19);
    XorIs(13, 19, 30, 0, 1, 1, 0, 1, 1, 0, 0, 1, 1);
    EighteenTimes(18, 13, 26, 29, 19, 30);
  }

  lemma {:induction false} ScaledIs(b: nat, g: nat, h: nat, i: nat, j: nat, k: nat)
    requires IsTimes(b, 29, g) && IsTimes(b, 22, h) && IsTimes(b, 20, i) && IsTimes(b, 21, j) && IsTimes(b, 18, k)
    ensures Scaled(b) == [g, h, i, j, g, k]
  {
  }

  lemma {:induction false} ScaledThirty()
    ensures IsScaled(30, [23, 26, 15, 17, 23, 25])
  {
    ThirtyTimes29();
    ThirtyTimes22();
    ThirtyTimes20();
    ThirtyTimes21();
    ThirtyTimes18();
    ScaledIs(30, 23, 26, 15, 17, 25);
  }

  lemma {:induction false} ScaledEighteen()
    ensures IsScaled(18, [6, 4, 9, 27, 6, 30])
  {
    EighteenTimes29();
    EighteenTimes22();
    EighteenTimes20();
    EighteenTimes21();
    EighteenTimes18();
    ScaledIs(18, 6, 4, 9, 27, 30);
  }

  predicate IsScaled(b: nat, s: seq<nat>) { Scaled(b) == s }

  lemma {:induction false} XorSix(
    a: nat, b: nat, c: nat, d: nat, e: nat, f: nat, g: nat, h: nat, i: nat, j: nat, k: nat, l: nat,
    m: nat, n: nat, o: nat, p: nat, q: nat, r: nat)
    requires IsXor(a, g, m) && IsXor(b, h, n) && IsXor(c, i, o) && IsXor(d, j, p) && IsXor(e, k, q) && IsXor(f, l, r)
    ensures XorSeq([a, b, c, d, e, f], [g, h, i, j, k, l]) == [m, n, o, p, q, r]
  {
  }

  lemma {:induction false} FirstDifference()
    ensures XorSeq([3, 0, 1, 10, 28, 25], [29, 22, 20, 21, 29, 18]) == [30, 22, 21, 31, 1, 11]
  {
    XorIs(3, 29, 30, 0, 0, 0, 1, 1, 1, 1, 1, 0, 1);
    XorIs(0, 22, 22, 0, 0, 0, 0, 0, 1, 0, 1, 1, 0);
    XorIs(1, 20, 21, 0, 0, 0, 0, 1, 1, 0, 1, 0, 0);
    XorIs(10, 21, 31, 0, 1, 0, 1, 0, 1, 0, 1, 0, 1);
    XorIs(28, 29, 1, 1, 1, 1, 0, 0, 1, 1, 1, 0, 1);
    XorIs(25, 18, 11, 1, 1, 0, 0, 1, 1, 0, 0, 1, 0);
    XorSix(3, 0, 1, 10, 28, 25, 29, 22, 20, 21, 29, 18, 30, 22, 21, 31, 1, 11);
  }

  lemma {:induction false} SecondDifference()
    ensures XorSeq([22, 21, 31, 1, 11, 31], [23, 26, 15, 17, 23, 25]) == [1, 15, 16, 16, 28, 6]
  {
    XorIs(22, 23, 1, 1, 0, 1, 1, 0, 1, 0, 1, 1, 1);
    XorIs(21, 26, 15, 1, 0, 1, 0, 1, 1, 1, 0, 1, 0);
    XorIs(31, 15, 16, 1, 1, 1, 1, 1, 0, 1, 1, 1, 1);
    XorIs(1, 17, 16, 0, 0, 0, 0, 1, 1, 0, 0, 0, 1);
    XorIs(11, 23, 28, 0, 1, 0, 1, 1, 1, 0, 1, 1, 1);
    XorIs(31, 25, 6, 1, 1, 1, 1, 1, 1, 1, 0, 0, 1);
    XorSix(22, 21, 31, 1, 11, 31, 23, 26, 15, 17, 23, 25, 1, 15, 16, 16, 28, 6);
  }

  lemma {:induction false} ThirdDifference()
    ensures XorSeq([15, 16, 16, 28, 6, 20], [29, 22, 20, 21, 29, 18]) == [18, 6, 4, 9, 27, 6]
  {
    XorIs(15, 29, 18, 0, 1, 1, 1, 1, 1, 1, 1, 0, 1);
    XorIs(16, 22, 6, 1, 0, 0, 0, 0, 1, 0, 1, 1, 0);
    XorIs(16, 20, 4, 1, 0, 0, 0, 0, 1, 0, 1, 0, 0);
    XorIs(28, 21, 9, 1, 1, 1, 0, 0, 1, 0, 1, 0, 1);
    XorIs(6, 29, 27, 0, 0, 1, 1, 0, 1, 1, 1, 0, 1);
    XorIs(20, 18, 6, 1, 0, 1, 0, 0, 1, 0, 0, 1, 0);
    XorSix(15, 16, 16, 28, 6, 20, 29, 22, 20, 21, 29, 18, 18, 6, 4, 9, 27, 6);
  }

  lemma {:induction false} FourthDifference()
    ensures XorSeq([6, 4, 9, 27, 6, 31], [6, 4, 9, 27, 6, 30]) == [0, 0, 0, 0, 0, 1]
  {
    XorIs(6, 6, 0, 0, 0, 1, 1, 0, 0, 0, 1, 1, 0);
    XorIs(4, 4, 0, 0, 0, 1, 0, 0, 0, 0, 1, 0, 0);
    XorIs(9, 9, 0, 0, 1, 0, 0, 1, 0, 1, 0, 0, 1);
    XorIs(27, 27, 0, 1, 1, 0, 1, 1, 1, 1, 0, 1, 1);
    XorIs(6, 6, 0, 0, 0, 1, 1, 0, 0, 0, 1, 1, 0);
    XorIs(31, 30, 1, 1, 1, 1, 1, 1, 1, 1, 1, 1, 0);
    XorSix(6, 4, 9, 27, 6, 31, 6, 4, 9, 27, 6, 30, 0, 0, 0, 0, 0, 1);
  }

  /** The readable part a and the data 2uel5l leave the remainder 1. */
  lemma {:induction false} KnownRemainder()
    ensures LeavesOne([3, 0, 1, 10, 28, 25, 31, 20, 31])
  {
    LeadingZeros();
    FirstQuarter();
    SecondQuarter();
    ThirdQuarter();
    FourthQuarter();
  }

  lemma {:induction false} FirstQuarter()
    ensures Remainder([1, 3, 0, 1, 10, 28] + [25, 31, 20, 31]) == Remainder([30, 22, 21, 31, 1, 11] + [31, 20, 31])
  {
    ScaledOne();
    FirstDifference();
    assert [1, 3, 0, 1, 10, 28][1..] + [25] == [3, 0, 1, 10, 28, 25];
    Divides([1, 3, 0, 1, 10, 28], [25, 31, 20, 31], [29, 22, 20, 21, 29, 18], [30, 22, 21, 31, 1, 11]);
  }

  lemma {:induction false} SecondQuarter()
    ensures Remainder([30, 22, 21, 31, 1, 11] + [31, 20, 31]) == Remainder([1, 15, 16, 16, 28, 6] + [20, 31])
  {
    ScaledThirty();
    SecondDifference();
    assert [30, 22, 21, 31, 1, 11][1..] + [31] == [22, 21, 31, 1, 11, 31];
    Divides([30, 22, 21, 31, 1, 11], [31, 20, 31], [23, 26, 15, 17, 23, 25], [1, 15, 16, 16, 28, 6]);
  }

  lemma {:induction false} ThirdQuarter()
    ensures Remainder([1, 15, 16, 16, 28, 6] + [20, 31]) == Remainder([18, 6, 4, 9, 27, 6] + [31])
  {
    ScaledOne();
    ThirdDifference();
    assert [1, 15, 16, 16, 28, 6][1..] + [20] == [15, 16, 16, 28, 6, 20];
    Divides([1, 15, 16, 16, 28, 6], [20, 31], [29, 22, 20, 21, 29, 18], [18, 6, 4, 9, 27, 6]);
  }

  lemma {:induction false} FourthQuarter()
    ensures Remainder([18, 6, 4, 9, 27, 6] + [31]) == Remainder([0, 0, 0, 0, 0, 1] + [])
  {
    ScaledEighteen();
    FourthDifference();
    assert [18, 6, 4, 9, 27, 6][1..] + [31] == [6, 4, 9, 27, 6, 31];
    Divides([18, 6, 4, 9, 27, 6], [31], [6, 4, 9, 27, 6, 30], [0, 0, 0, 0, 0, 1]);
  }

  /** The string a12uel5l of BIP-173 is accepted. */
  lemma {:induction false} KnownString()
    ensures GateAccepts("a12uel5l")
  {
    KnownSymbols();
    KnownRemainder();
    KnownText();
    RemainderOne("a", "2uel5l", [3, 0, 1, 10, 28, 25, 31, 20, 31], "a12uel5l");
  }

  predicate GateAccepts(s: string) { Bolt11.Accepts(CHARSET, s) }

  predicate Joined(hrp: string, data: string, s: string) { s == hrp + "1" + data && '1' !in data }

  lemma {:induction false} KnownText()
    ensures Joined("a", "2uel5l", "a12uel5l")
  {
  }

  predicate LeavesOne(vals: seq<nat>) { Remainder([0, 0, 0, 0, 0, 1] + vals) == [0, 0, 0, 0, 0, 1] }

  predicate ReadsAs(hrp: string, data: string, vals: seq<nat>) {
    Bolt11.ValidHrp(hrp) && Bolt11.ValidData(CHARSET, data) && Bolt11.Prefix(hrp) + Bolt11.DataSymbols(CHARSET, data) == vals
  }

  lemma {:induction false} RemainderOne(hrp: string, data: string, vals: seq<nat>, s: string)
    requires |hrp| >= 1 && |data| >= 6 && ReadsAs(hrp, data, vals) && LeavesOne(vals) && Joined(hrp, data, s)
    ensures GateAccepts(s)
  {
    Bolt11.AcceptsParts(CHARSET, hrp, data);
    ReadsSymbols(hrp, data, vals);
    AcceptedIff(vals);
  }

  lemma {:induction false} ReadsSymbols(hrp: string, data: string, vals: seq<nat>)
    requires ReadsAs(hrp, data, vals)
    ensures Symbols(vals)
  {
    assert |CHARSET| == 32;
  }

  /** The symbols of six characters by their ranks. */
  lemma {:induction false} SymbolsAre(data: string, syms: seq<nat>)
    requires |data| == |syms| && forall i :: 0 <= i < |data| ==> Rank(data[i]) == syms[i]
    ensures Bolt11.ValidData(CHARSET, data) && Bolt11.DataSymbols(CHARSET, data) == syms
  {
    forall i | 0 <= i < |data| ensures Bolt11.IndexOf(CHARSET, data[i]) == syms[i] { RankIsIndex(data[i]); }
  }

  lemma {:induction false} KnownSymbols()
    ensures ReadsAs("a", "2uel5l", [3, 0, 1, 10, 28, 25, 31, 20, 31])
  {
    SymbolsAre("2uel5l", [10, 28, 25, 31, 20, 31]);
    assert Bolt11.Prefix("a") == [3, 0, 1];
  }
}
