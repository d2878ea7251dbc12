/** Bitwise operators on unsigned machine words, as functions on natural numbers. */
module Bits {

  function And(x: nat, y: nat): nat {
    if x == 0 || y == 0 then 0
    else (if x % 2 == 1 && y % 2 == 1 then 1 else 0) + 2 * And(x / 2, y / 2)
  }

  function Or(x: nat, y: nat): nat {
    if x == 0 then y else if y == 0 then x
    else (if x % 2 == 1 || y % 2 == 1 then 1 else 0) + 2 * Or(x / 2, y / 2)
  }

  function Xor(x: nat, y: nat): nat {
    if x == 0 then y else if y == 0 then x
    else (if x % 2 != y % 2 then 1 else 0) + 2 * Xor(x / 2, y / 2)
  }

  // x << k
  function Shl(x: nat, k: nat): nat { if k == 0 then x else 2 * Shl(x, k - 1) }

  function Pow2(k: nat): (r: nat)
    ensures r > 0
  {
    if k == 0 then 1 else 2 * Pow2(k - 1)
  }

  // Bit i, counted from the least significant.
  predicate Bit(x: nat, i: nat) { if i == 0 then x % 2 == 1 else Bit(x / 2, i - 1) }

  // ---- one bit at a time ----

  lemma {:induction false} AndHalve(x: nat, y: nat)
    ensures And(x, y) == (if x % 2 == 1 && y % 2 == 1 then 1 else 0) + 2 * And(x / 2, y / 2)
  {}

  lemma {:induction false} OrHalve(x: nat, y: nat)
    ensures Or(x, y) == (if x % 2 == 1 || y % 2 == 1 then 1 else 0) + 2 * Or(x / 2, y / 2)
  {}

  lemma {:induction false} XorHalve(x: nat, y: nat)
    ensures Xor(x, y) == (if x % 2 != y % 2 then 1 else 0) + 2 * Xor(x / 2, y / 2)
  {}

  lemma {:induction false} Halve(m: nat, b: nat)
    ensures (2 * m + b) / 2 == m + b / 2 && (2 * m + b) % 2 == b % 2
  {}

  // ---- shifts and powers of two ----

  lemma {:induction false} ShlIsMul(x: nat, k: nat)
    ensures Shl(x, k) == x * Pow2(k)
  {
    if k > 0 {
      ShlIsMul(x, k - 1);
      MulDouble(x, Pow2(k - 1));
    }
  }

  lemma {:induction false} MulDouble(x: nat, n: nat)
    ensures x * (2 * n) == 2 * (x * n)
  {}

  lemma {:induction false} Pow2Sum(i: nat, j: nat)
    ensures Pow2(i + j) == Pow2(i) * Pow2(j)
  {
    if i > 0 {
      Pow2Sum(i - 1, j);
      MulDouble(Pow2(j), Pow2(i - 1));
    }
  }

  lemma {:induction false} Pow2Monotone(i: nat, j: nat)
    requires i < j
    ensures Pow2(i) < Pow2(j)
  {
    if i + 1 < j { Pow2Monotone(i, j - 1); }
  }

  lemma {:induction false} Pow2Small()
    ensures Pow2(2) == 4 && Pow2(3) == 8 && Pow2(4) == 16 && Pow2(5) == 32 && Pow2(6) == 64
    ensures Pow2(7) == 0x80 && Pow2(8) == 0x100
  {
    assert Pow2(4) == 16;
  }

  lemma {:induction false} Pow2Large()
    ensures Pow2(14) == 0x4000 && Pow2(16) == 0x1_0000 && Pow2(21) == 0x20_0000
    ensures Pow2(28) == 0x1000_0000 && Pow2(32) == 0x1_0000_0000
    ensures Pow2(64) == 0x1_0000_0000_0000_0000
  {
    Pow2Small();
    Pow2Sum(8, 8);
    Pow2Sum(7, 7);
    Pow2Sum(7, 14);
    Pow2Sum(14, 14);
    Pow2Sum(16, 16);
    Pow2Sum(32, 32);
  }

  // ---- division by a power of two ----

  lemma {:induction false} DivModUnique(q: nat, r: nat, n: nat)
    requires r < n
    ensures (q * n + r) / n == q && (q * n + r) % n == r
  {
    var x := q * n + r;
    var d := x / n - q;
    assert d * n == r - x % n by { assert x == (x / n) * n + x % n; }
    assert d >= 1 ==> d * n >= n;
    assert d <= -1 ==> d * n <= 0 - n;
  }

  // The low k bits, one at a time.
  function Low(x: nat, k: nat): nat { if k == 0 then 0 else x % 2 + 2 * Low(x / 2, k - 1) }

  function High(x: nat, k: nat): nat { if k == 0 then x else High(x / 2, k - 1) }

  lemma {:induction false} HighLow(x: nat, k: nat)
    ensures x == Shl(High(x, k), k) + Low(x, k) && Low(x, k) < Pow2(k)
  {
    if k > 0 { HighLow(x / 2, k - 1); }
  }

  lemma {:induction false} HighLowDivMod(x: nat, k: nat)
    ensures High(x, k) == x / Pow2(k) && Low(x, k) == x % Pow2(k)
  {
    HighLow(x, k);
    ShlIsMul(High(x, k), k);
    DivModUnique(High(x, k), Low(x, k), Pow2(k));
  }

  // ---- masks ----

  // Keeping the low k bits is reduction modulo 2^k.
  lemma {:induction false} AndOnes(x: nat, k: nat)
    ensures And(x, Pow2(k) - 1) == Low(x, k)
  {
    if k > 0 {
      AndOnes(x / 2, k - 1);
      Halve(Pow2(k - 1) - 1, 1);
      AndHalve(x, Pow2(k) - 1);
    }
  }

  lemma {:induction false} AndMask(x: nat, k: nat)
    ensures And(x, Pow2(k) - 1) == x % Pow2(k)
  {
    AndOnes(x, k);
    HighLowDivMod(x, k);
  }

  // Setting all of the low k bits.
  lemma {:induction false} OrOnes(x: nat, k: nat)
    requires x < Pow2(k)
    ensures Or(x, Pow2(k) - 1) == Pow2(k) - 1
  {
    if k > 0 {
      OrOnes(x / 2, k - 1);
      Halve(Pow2(k - 1) - 1, 1);
      OrHalve(x, Pow2(k) - 1);
    }
  }

  // Flipping k bits is subtraction from 2^k - 1.
  lemma {:induction false} XorOnes(x: nat, k: nat)
    requires x < Pow2(k)
    ensures Xor(x, Pow2(k) - 1) == Pow2(k) - 1 - x
  {
    if k > 0 {
      XorOnes(x / 2, k - 1);
      Halve(Pow2(k - 1) - 1, 1);
      XorHalve(x, Pow2(k) - 1);
    }
  }

  // Setting bits from position k up leaves the low part alone.
  lemma {:induction false} OrHigh(a: nat, b: nat, c: nat, k: nat)
    requires b < Pow2(k)
    ensures Or(Shl(a, k) + b, Shl(c, k)) == Shl(Or(a, c), k) + b
  {
    if k > 0 {
      OrHigh(a, b / 2, c, k - 1);
      Halve(Shl(a, k - 1), b);
      Halve(Shl(c, k - 1), 0);
      OrHalve(Shl(a, k) + b, Shl(c, k));
    }
  }

  // Bits above position k and bits below it do not meet: or is addition.
  lemma {:induction false} OrDisjoint(a: nat, b: nat, k: nat)
    requires b < Pow2(k)
    ensures Or(b, Shl(a, k)) == Shl(a, k) + b
  {
    OrHigh(0, b, a, k);
    ZeroShl(k);
  }

  lemma {:induction false} OrCommutes(x: nat, y: nat)
    ensures Or(x, y) == Or(y, x)
  {
    if x > 0 && y > 0 { OrCommutes(x / 2, y / 2); }
  }

  lemma {:induction false} ZeroShl(k: nat)
    ensures Shl(0, k) == 0
  {
    if k > 0 { ZeroShl(k - 1); }
  }

  // Masking with ones in the high positions keeps the high part.
  lemma {:induction false} AndHigh(a: nat, b: nat, c: nat, k: nat)
    requires b < Pow2(k)
    ensures And(Shl(a, k) + b, Shl(c, k)) == Shl(And(a, c), k)
  {
    if k > 0 {
      AndHigh(a, b / 2, c, k - 1);
      Halve(Shl(a, k - 1), b);
      Halve(Shl(c, k - 1), 0);
      AndHalve(Shl(a, k) + b, Shl(c, k));
    }
  }

  // ---- single bits ----

  lemma {:induction false} ZeroBit(i: nat)
    ensures !Bit(0, i)
  {
    if i > 0 { ZeroBit(i - 1); }
  }

  lemma {:induction false} Pow2Bit(i: nat, j: nat)
    ensures Bit(Pow2(i), j) <==> i == j
  {
    if i == 0 {
      if j > 0 { ZeroBit(j - 1); }
    } else if j > 0 {
      Pow2Bit(i - 1, j - 1);
    }
  }

  lemma {:induction false} AndBit(x: nat, i: nat)
    ensures And(x, Pow2(i)) == if Bit(x, i) then Pow2(i) else 0
  {
    AndHalve(x, Pow2(i));
    if i > 0 { AndBit(x / 2, i - 1); }
  }

  lemma {:induction false} OrBit(x: nat, y: nat, i: nat)
    ensures Bit(Or(x, y), i) <==> Bit(x, i) || Bit(y, i)
  {
    OrHalve(x, y);
    if i > 0 {
      Halve(Or(x / 2, y / 2), if x % 2 == 1 || y % 2 == 1 then 1 else 0);
      OrBit(x / 2, y / 2, i - 1);
    }
  }

  lemma {:induction false} OrBound(x: nat, y: nat, k: nat)
    requires x < Pow2(k) && y < Pow2(k)
    ensures Or(x, y) < Pow2(k)
  {
    if k > 0 {
      OrHalve(x, y);
      OrBound(x / 2, y / 2, k - 1);
    }
  }

  // A word is determined by its bits.
  lemma {:induction false} BitsDetermine(x: nat, y: nat, k: nat)
    requires x < Pow2(k) && y < Pow2(k)
    requires forall i :: 0 <= i < k ==> (Bit(x, i) <==> Bit(y, i))
    ensures x == y
  {
    if k > 0 {
      assert Bit(x, 0) <==> Bit(y, 0);
      forall i | 0 <= i < k - 1 ensures Bit(x / 2, i) <==> Bit(y / 2, i) {
        assert Bit(x, i + 1) <==> Bit(y, i + 1);
      }
      BitsDetermine(x / 2, y / 2, k - 1);
    }
  }
}
