/**
 The bech32 checksum gate for BOLT11 invoices (BIP-173, section "Checksum"), for
 strings of any length. JavaScript's 32-bit operators are modelled on naturals:
 the running value is proved to stay below 2^30, where they coincide.
 */
module Bech32 {
  import opened BitXor

  const GEN: seq<nat> := [0x3b6a57b2, 0x26508e6d, 0x1ea119fa, 0x3d4233dd, 0x2a1462b3]
  const LIMIT: nat := 0x40000000

  function Pick(b: nat, g: nat): nat { if b % 2 == 1 then g else 0 }

  /** The generators selected by the low bits of b. */
  function Mix(b: nat, gens: seq<nat>): nat
    decreases gens
  {
    if gens == [] then 0 else Xor(Pick(b, gens[0]), Mix(b / 2, gens[1..]))
  }

  function Step(chk: nat, v: nat): nat {
    Xor(Xor(0x20 * (chk % 0x2000000), v), Mix(chk / 0x2000000, GEN))
  }

  function Poly(chk: nat, vals: seq<nat>): nat
    decreases vals
  {
    if vals == [] then chk else Poly(Step(chk, vals[0]), vals[1..])
  }

  predicate Symbols(vals: seq<nat>) { forall i :: 0 <= i < |vals| ==> vals[i] < 32 }

  function ShiftRight(a: nat, k: nat): nat {
    if k == 0 then a else ShiftRight(a, k - 1) / 2
  }

  method Polymod(vals: seq<nat>) returns (chk: nat)
    ensures chk == Poly(1, vals)
  {
    chk := 1;
    for k := 0 to |vals|
      invariant Poly(chk, vals[k..]) == Poly(1, vals)
    {
      var b := chk / 0x2000000;
      ghost var next := Step(chk, vals[k]);
      chk := Xor(0x20 * (chk % 0x2000000), vals[k]);
      for i := 0 to 5
        invariant Xor(chk, Mix(ShiftRight(b, i), GEN[i..])) == next
      {
        Associates(chk, GEN[i], Mix(ShiftRight(b, i + 1), GEN[i + 1..]));
        Zero(Mix(ShiftRight(b, i + 1), GEN[i + 1..]));
        assert GEN[i..][1..] == GEN[i + 1..];
        if ShiftRight(b, i) % 2 == 1 {
          chk := Xor(chk, GEN[i]);
        }
      }
      Zero(chk);
      assert vals[k..][1..] == vals[k + 1..];
    }
  }

  // ---- the step is linear, bounded, and injective on a zero symbol

  lemma {:induction false} PickLinear(a: nat, b: nat, g: nat)
    ensures Pick(Xor(a, b), g) == Xor(Pick(a, g), Pick(b, g))
  {
    assert Pick(Xor(a, b), g) == if (a + b) % 2 == 1 then g else 0 by { Parity(a, b); }
    Cancels(g);
    Zero(g);
    assert Xor(0, 0) == 0;
  }

  lemma {:induction false} MixLinear(a: nat, b: nat, gens: seq<nat>)
    ensures Mix(Xor(a, b), gens) == Xor(Mix(a, gens), Mix(b, gens))
    decreases gens
  {
    if gens == [] {
      Zero(0);
    } else {
      var g, r := gens[0], gens[1..];
      PickLinear(a, b, g);
      Parity(a, b);
      MixLinear(a / 2, b / 2, r);
      Exchange(Pick(a, g), Pick(b, g), Mix(a / 2, r), Mix(b / 2, r));
    }
  }

  lemma {:induction false} LowLinear(a: nat, b: nat)
    ensures 0x20 * (Xor(a, b) % 0x2000000) == Xor(0x20 * (a % 0x2000000), 0x20 * (b % 0x2000000))
  {
    Cuts25(a, b);
    Times32(a % 0x2000000, b % 0x2000000);
  }

  lemma {:induction false} Blend(x: nat, y: nat, u: nat, v: nat, m: nat, n: nat)
    ensures Xor(Xor(Xor(x, y), Xor(u, v)), Xor(m, n)) == Xor(Xor(Xor(x, u), m), Xor(Xor(y, v), n))
  {
    Exchange(x, y, u, v);
    Exchange(Xor(x, u), Xor(y, v), m, n);
  }

  lemma {:induction false} StepLinear(a: nat, b: nat, u: nat, v: nat)
    ensures Step(Xor(a, b), Xor(u, v)) == Xor(Step(a, u), Step(b, v))
  {
    var h, k := a / 0x2000000, b / 0x2000000;
    LowLinear(a, b);
    Cuts25(a, b);
    MixLinear(h, k, GEN);
    Blend(0x20 * (a % 0x2000000), 0x20 * (b % 0x2000000), u, v, Mix(h, GEN), Mix(k, GEN));
  }

  function XorSeq(u: seq<nat>, v: seq<nat>): seq<nat>
    requires |u| == |v|
  {
    seq(|u|, i requires 0 <= i < |u| => Xor(u[i], v[i]))
  }

  lemma {:induction false} PolyLinear(a: nat, b: nat, u: seq<nat>, v: seq<nat>)
    requires |u| == |v|
    ensures Poly(Xor(a, b), XorSeq(u, v)) == Xor(Poly(a, u), Poly(b, v))
    decreases u
  {
    if u != [] {
      XorSeqParts(u, v);
      StepLinear(a, b, u[0], v[0]);
      PolyLinear(Step(a, u[0]), Step(b, v[0]), u[1..], v[1..]);
    }
  }

  lemma {:induction false} XorSeqParts(u: seq<nat>, v: seq<nat>)
    requires |u| == |v| && u != []
    ensures XorSeq(u, v) != [] && XorSeq(u, v)[0] == Xor(u[0], v[0]) && XorSeq(u, v)[1..] == XorSeq(u[1..], v[1..])
  {
  }

  lemma {:induction false} Below30(a: nat, b: nat)
    requires a < LIMIT && b < LIMIT
    ensures Xor(a, b) < LIMIT
  {
    Splits25(a / 0x2000000, a % 0x2000000, b / 0x2000000, b % 0x2000000);
    Splits5(0, a / 0x2000000, 0, b / 0x2000000);
    Zero(0);
  }

  lemma {:induction false} MixBelow(b: nat, gens: seq<nat>)
    requires forall i :: 0 <= i < |gens| ==> gens[i] < LIMIT
    ensures Mix(b, gens) < LIMIT
  {
    if gens != [] {
      MixBelow(b / 2, gens[1..]);
      Below30(Pick(b, gens[0]), Mix(b / 2, gens[1..]));
    }
  }

  lemma {:induction false} StepBelow(chk: nat, v: nat)
    requires v < 32
    ensures Step(chk, v) < LIMIT
  {
    var l := 0x20 * (chk % 0x2000000);
    Below30(l, v);
    MixBelow(chk / 0x2000000, GEN);
    Below30(Xor(l, v), Mix(chk / 0x2000000, GEN));
  }

  /** The running value fits in thirty bits, so no JavaScript operator wraps. */
  lemma {:induction false} PolyBelow(chk: nat, vals: seq<nat>)
    requires chk < LIMIT && Symbols(vals)
    ensures Poly(chk, vals) < LIMIT
    decreases vals
  {
    if vals != [] {
      StepBelow(chk, vals[0]);
      PolyBelow(Step(chk, vals[0]), vals[1..]);
    }
  }

  function Bit(a: nat, k: nat): nat { ShiftRight(a, k) % 2 }

  lemma {:induction false} ShiftXor(a: nat, b: nat, k: nat)
    ensures ShiftRight(Xor(a, b), k) == Xor(ShiftRight(a, k), ShiftRight(b, k))
  {
    if k > 0 {
      ShiftXor(a, b, k - 1);
      Parity(ShiftRight(a, k - 1), ShiftRight(b, k - 1));
    }
  }

  lemma {:induction false} BitOfXor(a: nat, b: nat, k: nat)
    ensures Bit(Xor(a, b), k) == (Bit(a, k) + Bit(b, k)) % 2
  {
    ShiftXor(a, b, k);
    LowBitOfXor(ShiftRight(a, k), ShiftRight(b, k), ShiftRight(Xor(a, b), k));
  }

  lemma {:induction false} LowBitOfXor(p: nat, q: nat, r: nat)
    requires r == Xor(p, q)
    ensures r % 2 == (p % 2 + q % 2) % 2
  {
    Parity(p, q);
  }

  lemma {:induction false} ShiftZero(k: nat)
    ensures ShiftRight(0, k) == 0
  {
    if k > 0 { ShiftZero(k - 1); }
  }

  /** Bit k of g when the selector s is 1. */
  function Sel(s: nat, g: nat, k: nat): nat { Masked(s, Bit(g, k)) }

  /** How many of the generators selected by b have bit k set. */
  function Votes(b: nat, gens: seq<nat>, k: nat): nat
    decreases gens
  {
    if gens == [] then 0 else Sel(b % 2, gens[0], k) + Votes(b / 2, gens[1..], k)
  }

  lemma {:induction false} MixBit(b: nat, gens: seq<nat>, k: nat)
    ensures Bit(Mix(b, gens), k) == Votes(b, gens, k) % 2
    decreases gens
  {
    if gens == [] {
      ShiftZero(k);
    } else {
      MixBit(b / 2, gens[1..], k);
      BitOfXor(Pick(b, gens[0]), Mix(b / 2, gens[1..]), k);
      PickBit(b, gens[0], k);
    }
  }

  lemma {:induction false} PickBit(b: nat, g: nat, k: nat)
    ensures Bit(Pick(b, g), k) == Sel(b % 2, g, k)
  {
    ShiftZero(k);
  }

  /** The votes for bit k when a to e select the generators. */
  function Ballot(a: nat, b: nat, c: nat, d: nat, e: nat, k: nat): nat {
    Sel(a, GEN[0], k) + Sel(b, GEN[1], k) + Sel(c, GEN[2], k) + Sel(d, GEN[3], k) + Sel(e, GEN[4], k)
  }

  lemma {:induction false} VotesGen(b: nat, k: nat)
    ensures Votes(b, GEN, k) == Ballot(b % 2, b / 2 % 2, b / 4 % 2, b / 8 % 2, b / 16 % 2, k)
  {
    Halves(b);
    FiveVotes(b, b / 2, b / 4, b / 8, b / 16, GEN, k);
  }

  lemma {:induction false} FiveVotes(a: nat, b: nat, c: nat, d: nat, e: nat, gens: seq<nat>, k: nat)
    requires b == a / 2 && c == b / 2 && d == c / 2 && e == d / 2 && |gens| == 5
    ensures Votes(a, gens, k) ==
            Sel(a % 2, gens[0], k) + Sel(b % 2, gens[1], k) + Sel(c % 2, gens[2], k) + Sel(d % 2, gens[3], k) + Sel(e % 2, gens[4], k)
  {
    assert gens[1..][1..] == gens[2..] && gens[2..][1..] == gens[3..] && gens[3..][1..] == gens[4..] && gens[4..][1..] == [];
    assert Votes(e, gens[4..], k) == Sel(e % 2, gens[4], k);
    assert Votes(d, gens[3..], k) == Sel(d % 2, gens[3], k) + Votes(e, gens[4..], k);
    assert Votes(c, gens[2..], k) == Sel(c % 2, gens[2], k) + Votes(d, gens[3..], k);
  }

  lemma {:induction false} Halves(a: nat)
    ensures a / 2 / 2 == a / 4 && a / 4 / 2 == a / 8 && a / 8 / 2 == a / 16
  {
  }

  lemma {:induction false} ShiftNext(a: nat, k: nat)
    ensures ShiftRight(a, k + 1) == ShiftRight(a, k) / 2
  {
  }

  lemma {:induction false} LowShifts(a: nat)
    ensures Bit(a, 0) == a % 2 && Bit(a, 1) == a / 2 % 2 && Bit(a, 2) == a / 4 % 2
    ensures Bit(a, 3) == a / 8 % 2 && Bit(a, 4) == a / 16 % 2
  {
    Halves(a);
    ShiftNext(a, 0);
    ShiftNext(a, 1);
    ShiftNext(a, 2);
    ShiftNext(a, 3);
  }

  /** Bit k of each generator, from the lowest generator up. */
  lemma {:induction false} LowBits(k: nat)
    requires k < 5
    ensures Bit(GEN[0], k) == [0, 1, 0, 0, 1][k]
    ensures Bit(GEN[1], k) == [1, 0, 1, 1, 0][k]
    ensures Bit(GEN[2], k) == [0, 1, 0, 1, 1][k]
    ensures Bit(GEN[3], k) == [1, 0, 1, 1, 1][k]
    ensures Bit(GEN[4], k) == [1, 1, 0, 0, 1][k]
  {
    LowShifts(GEN[0]);
    LowShifts(GEN[1]);
    LowShifts(GEN[2]);
    LowShifts(GEN[3]);
    LowShifts(GEN[4]);
  }

  lemma {:induction false} LowVotes(h: nat, k: nat)
    requires k < 5 && Mix(h, GEN) % 32 == 0
    ensures Votes(h, GEN, k) % 2 == 0
  {
    MixBit(h, GEN, k);
    MultipleOf32(Mix(h, GEN), k);
  }

  lemma {:induction false} MultipleOf32(m: nat, k: nat)
    requires k < 5 && m % 32 == 0
    ensures Bit(m, k) == 0
  {
    var q := m / 32;
    assert ShiftRight(m, 0) == 32 * q;
    assert ShiftRight(m, 1) == 16 * q;
    assert ShiftRight(m, 2) == 8 * q;
    assert ShiftRight(m, 3) == 4 * q;
    assert ShiftRight(m, 4) == 2 * q;
  }

  /** The five low bits of h, lowest first. */
  ghost predicate BitsOf(h: nat, a: nat, b: nat, c: nat, d: nat, e: nat) {
    a == h % 2 && b == h / 2 % 2 && c == h / 4 % 2 && d == h / 8 % 2 && e == h / 16 % 2
  }

  lemma {:induction false} Equation(h: nat, a: nat, b: nat, c: nat, d: nat, e: nat, k: nat)
    requires k < 5 && Mix(h, GEN) % 32 == 0 && BitsOf(h, a, b, c, d, e)
    ensures Ballot(a, b, c, d, e, k) % 2 == 0
  {
    LowVotes(h, k);
    VotesGen(h, k);
  }

  lemma {:induction false} Solve(a: nat, b: nat, c: nat, d: nat, e: nat)
    requires a < 2 && b < 2 && c < 2 && d < 2 && e < 2
    requires (b + d + e) % 2 == 0 && (a + c + e) % 2 == 0 && (b + d) % 2 == 0
    requires (b + c + d) % 2 == 0 && (a + c + d + e) % 2 == 0
    ensures a == b == c == d == e == 0
  {
  }

  ghost predicate Row(k: nat, a: nat, b: nat, c: nat, d: nat, e: nat) {
    match k
    case 0 => (b + d + e) % 2 == 0
    case 1 => (a + c + e) % 2 == 0
    case 2 => (b + d) % 2 == 0
    case 3 => (b + c + d) % 2 == 0
    case _ => (a + c + d + e) % 2 == 0
  }

  function Masked(s: nat, x: nat): nat { if s == 1 then x else 0 }

  lemma {:induction false} RowOf(k: nat, a: nat, b: nat, c: nat, d: nat, e: nat, u: nat, v: nat, x: nat, y: nat, z: nat)
    requires k < 5 && a < 2 && b < 2 && c < 2 && d < 2 && e < 2
    requires u == [0, 1, 0, 0, 1][k] && v == [1, 0, 1, 1, 0][k] && x == [0, 1, 0, 1, 1][k]
    requires y == [1, 0, 1, 1, 1][k] && z == [1, 1, 0, 0, 1][k]
    requires (Masked(a, u) + Masked(b, v) + Masked(c, x) + Masked(d, y) + Masked(e, z)) % 2 == 0
    ensures Row(k, a, b, c, d, e)
  {
  }

  lemma {:induction false} RowFrom(k: nat, a: nat, b: nat, c: nat, d: nat, e: nat)
    requires k < 5 && a < 2 && b < 2 && c < 2 && d < 2 && e < 2
    requires Ballot(a, b, c, d, e, k) % 2 == 0
    ensures Row(k, a, b, c, d, e)
  {
    LowBits(k);
    var u, v, x, y, z := Bit(GEN[0], k), Bit(GEN[1], k), Bit(GEN[2], k), Bit(GEN[3], k), Bit(GEN[4], k);
    RowOf(k, a, b, c, d, e, u, v, x, y, z);
  }

  lemma {:induction false} RowHolds(h: nat, a: nat, b: nat, c: nat, d: nat, e: nat, k: nat)
    requires k < 5 && Mix(h, GEN) % 32 == 0 && BitsOf(h, a, b, c, d, e)
    ensures Row(k, a, b, c, d, e)
  {
    Equation(h, a, b, c, d, e, k);
    RowFrom(k, a, b, c, d, e);
  }

  /** The low-bit matrix of the generators is invertible over GF(2). */
  lemma {:induction false} GeneratorsIndependent(h: nat)
    requires h < 32 && Mix(h, GEN) % 32 == 0
    ensures h == 0
  {
    var a, b, c, d, e := h % 2, h / 2 % 2, h / 4 % 2, h / 8 % 2, h / 16 % 2;
    forall k: nat | k < 5 ensures Row(k, a, b, c, d, e) { RowHolds(h, a, b, c, d, e, k); }
    SolveRows(a, b, c, d, e);
    FiveBits(h);
  }

  lemma {:induction false} SolveRows(a: nat, b: nat, c: nat, d: nat, e: nat)
    requires a < 2 && b < 2 && c < 2 && d < 2 && e < 2
    requires forall k: nat :: k < 5 ==> Row(k, a, b, c, d, e)
    ensures a == b == c == d == e == 0
  {
    assert Row(0, a, b, c, d, e) && Row(1, a, b, c, d, e) && Row(2, a, b, c, d, e);
    assert Row(3, a, b, c, d, e) && Row(4, a, b, c, d, e);
    Solve(a, b, c, d, e);
  }

  lemma {:induction false} FiveBits(h: nat)
    requires h < 32 && BitsOf(h, 0, 0, 0, 0, 0)
    ensures h == 0
  {
  }

  /** Feeding a zero symbol never turns a non-zero state into zero. */
  lemma {:induction false} StepZeroInjective(d: nat)
    requires d < LIMIT && Step(d, 0) == 0
    ensures d == 0
  {
    PartsZero(d % 0x2000000, d / 0x2000000);
  }

  lemma {:induction false} PartsZero(l: nat, h: nat)
    requires h < 32 && Xor(Xor(0x20 * l, 0), Mix(h, GEN)) == 0
    ensures h == l == 0
  {
    CancelledBy(0x20 * l, Mix(h, GEN));
    MultipleSelectsNothing(h, l);
  }

  lemma {:induction false} MultipleSelectsNothing(h: nat, l: nat)
    requires h < 32 && Mix(h, GEN) == 0x20 * l
    ensures h == l == 0
  {
    MultipleOf(l);
    GeneratorsIndependent(h);
    ZeroSelection(h);
  }

  lemma {:induction false} ZeroSelection(h: nat)
    requires h == 0
    ensures Mix(h, GEN) == 0
  {
    MixZero(GEN);
  }

  lemma {:induction false} MultipleOf(l: nat)
    ensures (0x20 * l) % 32 == 0
  {
  }

  lemma {:induction false} CancelledBy(a: nat, m: nat)
    requires Xor(Xor(a, 0), m) == 0
    ensures m == a
  {
    Zero(a);
    EqualIffZero(a, m);
  }

  lemma {:induction false} MixZero(gens: seq<nat>)
    ensures Mix(0, gens) == 0
  {
    if gens != [] { MixZero(gens[1..]); }
  }

  // ---- runs of zero symbols, and windows too short to be reduced

  predicate AllZero(vals: seq<nat>) { forall i :: 0 <= i < |vals| ==> vals[i] == 0 }

  lemma {:induction false} ZerosKeepZero(z: seq<nat>)
    requires AllZero(z)
    ensures Poly(0, z) == 0
  {
    if z != [] {
      MixZero(GEN);
      Zero(0);
      ZerosKeepZero(z[1..]);
    }
  }

  lemma {:induction false} ZerosKeepNonzero(d: nat, z: seq<nat>)
    requires AllZero(z) && 0 < d < LIMIT
    ensures Poly(d, z) != 0
    decreases z
  {
    if z != [] {
      if Step(d, 0) == 0 { StepZeroInjective(d); }
      StepBelow(d, 0);
      ZerosKeepNonzero(Step(d, 0), z[1..]);
    }
  }

  lemma {:induction false} PolyConcat(c: nat, u: seq<nat>, v: seq<nat>)
    ensures Poly(c, u + v) == Poly(Poly(c, u), v)
    decreases u
  {
    if u == [] {
      assert u + v == v;
    } else {
      assert (u + v)[0] == u[0] && (u + v)[1..] == u[1..] + v;
      PolyNext(c, u);
      PolyNext(c, u + v);
      PolyConcat(Step(c, u[0]), u[1..], v);
    }
  }

  lemma {:induction false} PolyNext(c: nat, w: seq<nat>)
    requires w != []
    ensures Poly(c, w) == Poly(Step(c, w[0]), w[1..])
  {
  }

  function Power32(k: nat): (p: nat)
    ensures p >= 1
  {
    if k == 0 then 1 else 32 * Power32(k - 1)
  }

  /** Symbols as the digits of a base-32 numeral that continues c. */
  function Base32(c: nat, w: seq<nat>): nat
    decreases w
  {
    if w == [] then c else Base32(32 * c + w[0], w[1..])
  }

  lemma {:induction false} RoomStep(c: nat, v: nat)
    requires c < 0x2000000 && v < 32
    ensures Step(c, v) == 32 * c + v
  {
    LowStep(c, v, c % 0x2000000, c / 0x2000000);
    Appended(c, v);
  }

  lemma {:induction false} LowStep(c: nat, v: nat, l: nat, h: nat)
    requires l == c % 0x2000000 && h == c / 0x2000000 == 0
    ensures Step(c, v) == Xor(Xor(0x20 * l, v), 0)
  {
    MixZero(GEN);
  }

  lemma {:induction false} Appended(c: nat, v: nat)
    requires v < 32
    ensures Xor(Xor(0x20 * c, v), 0) == 32 * c + v
  {
    Zero(Xor(0x20 * c, v));
    Beside(c, v, 0x20 * c);
  }

  lemma {:induction false} Beside(c: nat, v: nat, x: nat)
    requires v < 32 && x == 0x20 * c
    ensures Xor(x, v) == x + v
  {
    Splits5(c, 0, 0, v);
    Zero(c);
    Zero(v);
  }

  lemma {:induction false} Power32Six()
    ensures Power32(6) == LIMIT && Power32(5) == 0x2000000
  {
    assert Power32(2) == 32 * Power32(1) && Power32(4) == 32 * Power32(3) && Power32(6) == 32 * Power32(5);
  }

  lemma {:induction false} PowerMonotone(j: nat, k: nat)
    requires j <= k
    ensures Power32(j) <= Power32(k)
  {
    if j < k { PowerMonotone(j, k - 1); }
  }

  /** As long as the numeral has at most six digits the remainder is the numeral itself. */
  lemma {:induction false} Unreduced(c: nat, w: seq<nat>, n: nat)
    requires |w| + n == 6 && Symbols(w) && c < Power32(n)
    ensures Poly(c, w) == Base32(c, w)
    ensures Base32(c, w) < LIMIT
    decreases w
  {
    if w == [] {
      Power32Six();
    } else {
      NextDigit(c, w, n, 32 * c + w[0]);
      Unreduced(32 * c + w[0], w[1..], n + 1);
    }
  }

  lemma {:induction false} NextDigit(c: nat, w: seq<nat>, n: nat, d: nat)
    requires w != [] && n <= 5 && w[0] < 32 && c < Power32(n) && d == 32 * c + w[0]
    ensures Poly(c, w) == Poly(d, w[1..]) && Base32(c, w) == Base32(d, w[1..]) && d < Power32(n + 1)
  {
    RoomFor(c, n);
    PolyRoom(c, w, d);
    Base32Next(c, w, d);
    OneMoreDigit(c, w[0], n);
  }

  lemma {:induction false} Base32Next(c: nat, w: seq<nat>, d: nat)
    requires w != [] && d == 32 * c + w[0]
    ensures Base32(c, w) == Base32(d, w[1..])
  {
  }

  lemma {:induction false} PolyRoom(c: nat, w: seq<nat>, d: nat)
    requires w != [] && c < 0x2000000 && w[0] < 32 && d == 32 * c + w[0]
    ensures Poly(c, w) == Poly(d, w[1..])
  {
    RoomStep(c, w[0]);
  }

  lemma {:induction false} RoomFor(c: nat, n: nat)
    requires c < Power32(n) && n <= 5
    ensures c < 0x2000000
  {
    Power32Six();
    PowerMonotone(n, 5);
  }

  lemma {:induction false} OneMoreDigit(c: nat, v: nat, k: nat)
    requires c < Power32(k) && v < 32
    ensures 32 * c + v < Power32(k + 1)
  {
  }

  lemma {:induction false} Base32Positive(c: nat, w: seq<nat>)
    ensures Base32(c, w) == 0 <==> c == 0 && AllZero(w)
    decreases w
  {
    if w != [] {
      Base32Positive(32 * c + w[0], w[1..]);
      assert w == [w[0]] + w[1..];
    }
  }

  /**
   Burst detection at any length: two symbol strings that differ, and differ only
   inside six consecutive positions, never have the same checksum value.
   */
  lemma {:induction false} BurstDetected(c: nat, u: seq<nat>, v: seq<nat>, i: nat)
    requires |u| == |v| && Symbols(u) && Symbols(v) && u != v && i <= |u|
    requires forall k :: 0 <= k < |u| && !(i <= k < i + 6) ==> u[k] == v[k]
    ensures Poly(c, u) != Poly(c, v)
  {
    DifferenceNonzero(u, v, i);
    PolyLinear(c, c, u, v);
    Cancels(c);
    EqualIffZero(Poly(c, u), Poly(c, v));
  }

  lemma {:induction false} DifferenceNonzero(u: seq<nat>, v: seq<nat>, i: nat)
    requires |u| == |v| && Symbols(u) && Symbols(v) && u != v && i <= |u|
    requires forall k :: 0 <= k < |u| && !(i <= k < i + 6) ==> u[k] == v[k]
    ensures Poly(0, XorSeq(u, v)) != 0
  {
    DifferenceSymbols(u, v);
    var k :| 0 <= k < |u| && u[k] != v[k];
    BurstNonzero(XorSeq(u, v), i, k);
  }

  /** Symbols that are zero outside six positions, and not zero everywhere, have a non-zero value. */
  lemma {:induction false} BurstNonzero(e: seq<nat>, i: nat, k: nat)
    requires Symbols(e) && i <= |e| && k < |e| && e[k] != 0
    requires forall j :: 0 <= j < |e| && !(i <= j < i + 6) ==> e[j] == 0
    ensures Poly(0, e) != 0
  {
    var j := if i + 6 <= |e| then i + 6 else |e|;
    var x, w, z := e[..i], e[i..j], e[j..];
    assert w[k - i] == e[k];
    WindowNonzero(x, w, z);
    assert e == x + w + z;
  }

  lemma {:induction false} DifferenceSymbols(u: seq<nat>, v: seq<nat>)
    requires |u| == |v| && Symbols(u) && Symbols(v)
    ensures Symbols(XorSeq(u, v))
    ensures forall k :: 0 <= k < |u| ==> (XorSeq(u, v)[k] == 0 <==> u[k] == v[k])
  {
    forall k | 0 <= k < |u| ensures XorSeq(u, v)[k] < 32 && (XorSeq(u, v)[k] == 0 <==> u[k] == v[k]) {
      EqualIffZero(u[k], v[k]);
      Splits5(0, u[k], 0, v[k]);
    }
  }

  lemma {:induction false} WindowNonzero(x: seq<nat>, w: seq<nat>, z: seq<nat>)
    requires AllZero(x) && AllZero(z) && Symbols(w) && |w| <= 6 && !AllZero(w)
    ensures Poly(0, x + w + z) != 0
  {
    PolyConcat(0, x + w, z);
    PolyConcat(0, x, w);
    ZerosKeepZero(x);
    Unreduced(0, w, 6 - |w|);
    Base32Positive(0, w);
    ZerosKeepNonzero(Poly(0, w), z);
  }
}
