/**
 Bitwise exclusive or on natural numbers, and how it commutes with cutting a
 number into its high and low bits.
 */
module BitXor {
  function Xor(a: nat, b: nat): nat {
    if a == 0 && b == 0 then 0 else (a + b) % 2 + 2 * Xor(a / 2, b / 2)
  }

  /** `a` shifted left by k bits. */
  function ShiftLeft(a: nat, k: nat): nat {
    if k == 0 then a else 2 * ShiftLeft(a, k - 1)
  }

  lemma {:induction false} Commutes(a: nat, b: nat)
    ensures Xor(a, b) == Xor(b, a)
  {
    if a != 0 || b != 0 { Commutes(a / 2, b / 2); }
  }

  lemma {:induction false} Zero(a: nat)
    ensures Xor(a, 0) == a && Xor(0, a) == a
  {
    if a != 0 { Zero(a / 2); }
  }

  lemma {:induction false} Cancels(a: nat)
    ensures Xor(a, a) == 0
  {
    if a != 0 { Cancels(a / 2); }
  }

  /** One more low bit on each side. */
  lemma {:induction false} AppendBit(m: nat, x: nat, n: nat, y: nat)
    requires x < 2 && y < 2
    ensures Xor(2 * m + x, 2 * n + y) == 2 * Xor(m, n) + (x + y) % 2
  {
    var a, b := 2 * m + x, 2 * n + y;
    assert a / 2 == m && b / 2 == n;
    assert (a + b) % 2 == (x + y) % 2;
  }

  lemma {:induction false} Parity(a: nat, b: nat)
    ensures Xor(a, b) % 2 == (a + b) % 2 && Xor(a, b) / 2 == Xor(a / 2, b / 2)
  {
    var r := Xor(a / 2, b / 2);
    AppendBit(a / 2, a % 2, b / 2, b % 2);
    assert a == 2 * (a / 2) + a % 2 && b == 2 * (b / 2) + b % 2;
    assert Xor(a, b) == 2 * r + (a + b) % 2;
  }

  lemma {:induction false} SameHalves(x: nat, y: nat)
    requires x % 2 == y % 2 && x / 2 == y / 2
    ensures x == y
  {
  }

  lemma {:induction false} AddToParity(x: nat, y: nat, c: nat)
    requires x % 2 == y % 2
    ensures (x + c) % 2 == (y + c) % 2
  {
  }

  /** The lowest bit of an exclusive or of three numbers, grouped either way. */
  lemma {:induction false} ParityOfThree(a: nat, b: nat, c: nat)
    ensures Xor(Xor(a, b), c) % 2 == (a + b + c) % 2 == Xor(a, Xor(b, c)) % 2
  {
    Parity(a, b);
    Parity(Xor(a, b), c);
    Parity(b, c);
    Parity(a, Xor(b, c));
    AddToParity(Xor(a, b), a + b, c);
    AddToParity(Xor(b, c), b + c, a);
  }

  lemma {:induction false} HalfOfThree(a: nat, b: nat, c: nat)
    ensures Xor(Xor(a, b), c) / 2 == Xor(Xor(a / 2, b / 2), c / 2)
    ensures Xor(a, Xor(b, c)) / 2 == Xor(a / 2, Xor(b / 2, c / 2))
  {
    Parity(a, b);
    Parity(Xor(a, b), c);
    Parity(b, c);
    Parity(a, Xor(b, c));
  }

  lemma {:induction false} Associates(a: nat, b: nat, c: nat)
    ensures Xor(Xor(a, b), c) == Xor(a, Xor(b, c))
    decreases a + b + c
  {
    if a + b + c > 0 {
      Associates(a / 2, b / 2, c / 2);
      HalfOfThree(a, b, c);
      ParityOfThree(a, b, c);
      SameHalves(Xor(Xor(a, b), c), Xor(a, Xor(b, c)));
    }
  }

  /** (a ^ b) ^ (c ^ d) == (a ^ c) ^ (b ^ d) */
  lemma {:induction false} Exchange(a: nat, b: nat, c: nat, d: nat)
    ensures Xor(Xor(a, b), Xor(c, d)) == Xor(Xor(a, c), Xor(b, d))
  {
    Associates(a, b, Xor(c, d));
    Associates(b, c, d);
    Commutes(b, c);
    Associates(c, b, d);
    Associates(a, c, Xor(b, d));
  }

  lemma {:induction false} EqualIffZero(a: nat, b: nat)
    ensures Xor(a, b) == 0 <==> a == b
  {
    Cancels(b);
    if Xor(a, b) == 0 {
      Associates(a, b, b);
      Zero(a);
      Zero(b);
    }
  }

  /** Exclusive or of k-bit numbers has k bits. */
  lemma {:induction false} Fits(x: nat, y: nat, k: nat)
    requires x < ShiftLeft(1, k) && y < ShiftLeft(1, k)
    ensures Xor(x, y) < ShiftLeft(1, k)
  {
    if k > 0 {
      Fits(x / 2, y / 2, k - 1);
      AppendBit(x / 2, x % 2, y / 2, y % 2);
    }
  }

  /** Exclusive or acts separately on the high part and on the k low bits. */
  lemma {:induction false} Splits(a: nat, x: nat, b: nat, y: nat, k: nat)
    requires x < ShiftLeft(1, k) && y < ShiftLeft(1, k)
    ensures Xor(ShiftLeft(a, k) + x, ShiftLeft(b, k) + y) == ShiftLeft(Xor(a, b), k) + Xor(x, y)
  {
    if k > 0 {
      var u, v, w := ShiftLeft(a, k - 1), ShiftLeft(b, k - 1), ShiftLeft(Xor(a, b), k - 1);
      Splits(a, x / 2, b, y / 2, k - 1);
      SplitBit(u, x / 2, x % 2, v, y / 2, y % 2, w);
    }
  }

  lemma {:induction false} SplitBit(a: nat, x: nat, i: nat, b: nat, y: nat, j: nat, c: nat)
    requires i < 2 && j < 2 && Xor(a + x, b + y) == c + Xor(x, y)
    ensures Xor(2 * a + 2 * x + i, 2 * b + 2 * y + j) == 2 * c + Xor(2 * x + i, 2 * y + j)
    ensures Xor(2 * x + i, 2 * y + j) == 2 * Xor(x, y) + (i + j) % 2
  {
    AppendBit(a + x, i, b + y, j);
    AppendBit(x, i, y, j);
    assert 2 * (a + x) + i == 2 * a + 2 * x + i && 2 * (b + y) + j == 2 * b + 2 * y + j;
  }

  lemma {:induction false} Shift5(a: nat)
    ensures ShiftLeft(a, 5) == 0x20 * a
  {
    assert ShiftLeft(a, 1) == 2 * a;
    assert ShiftLeft(a, 2) == 4 * a;
    assert ShiftLeft(a, 3) == 8 * a;
    assert ShiftLeft(a, 4) == 16 * a;
  }

  lemma {:induction false} Shift25(a: nat)
    ensures ShiftLeft(a, 25) == 0x2000000 * a
  {
    ShiftAdds(a, 5, 5);
    ShiftAdds(a, 10, 5);
    ShiftAdds(a, 15, 5);
    ShiftAdds(a, 20, 5);
    Shift5(a);
    Shift5(ShiftLeft(a, 5));
    Shift5(ShiftLeft(a, 10));
    Shift5(ShiftLeft(a, 15));
    Shift5(ShiftLeft(a, 20));
  }

  lemma {:induction false} ShiftAdds(a: nat, j: nat, k: nat)
    ensures ShiftLeft(a, j + k) == ShiftLeft(ShiftLeft(a, j), k)
  {
    if k > 0 { ShiftAdds(a, j, k - 1); }
  }

  lemma {:induction false} Splits5(a: nat, x: nat, b: nat, y: nat)
    requires x < 0x20 && y < 0x20
    ensures Xor(0x20 * a + x, 0x20 * b + y) == 0x20 * Xor(a, b) + Xor(x, y) && Xor(x, y) < 0x20
  {
    Shift5(1); Shift5(a); Shift5(b); Shift5(Xor(a, b));
    Splits(a, x, b, y, 5);
    Fits(x, y, 5);
  }

  lemma {:induction false} Splits25(a: nat, x: nat, b: nat, y: nat)
    requires x < 0x2000000 && y < 0x2000000
    ensures Xor(0x2000000 * a + x, 0x2000000 * b + y) == 0x2000000 * Xor(a, b) + Xor(x, y) && Xor(x, y) < 0x2000000
  {
    Shift25(1); Shift25(a); Shift25(b); Shift25(Xor(a, b));
    Splits(a, x, b, y, 25);
    Fits(x, y, 25);
  }

  lemma {:induction false} Cut25(h: nat, l: nat, k: nat, m: nat)
    requires l < 0x2000000 && m < 0x2000000
    ensures Xor(0x2000000 * h + l, 0x2000000 * k + m) / 0x2000000 == Xor(h, k)
    ensures Xor(0x2000000 * h + l, 0x2000000 * k + m) % 0x2000000 == Xor(l, m)
  {
    Splits25(h, l, k, m);
  }

  lemma {:induction false} Cuts25(a: nat, b: nat)
    ensures Xor(a, b) / 0x2000000 == Xor(a / 0x2000000, b / 0x2000000)
    ensures Xor(a, b) % 0x2000000 == Xor(a % 0x2000000, b % 0x2000000)
  {
    var (h, l) := (a / 0x2000000, a % 0x2000000);
    var (k, m) := (b / 0x2000000, b % 0x2000000);
    Cut25(h, l, k, m);
    assert a == 0x2000000 * h + l && b == 0x2000000 * k + m;
  }

  lemma {:induction false} Times32(a: nat, b: nat)
    ensures Xor(0x20 * a, 0x20 * b) == 0x20 * Xor(a, b)
  {
    Splits5(a, 0, b, 0);
    assert Xor(0, 0) == 0;
  }
}
