/**
  C's bit operators on non-negative integers, defined bit by bit, and the arithmetic they come
  to for the masks and shifts of the UTF-8 table.
*/
module Bits {

  function Bit(x: nat): nat { x % 2 }

  function And(x: nat, y: nat): nat {
    if x == 0 || y == 0 then 0 else 2 * And(x / 2, y / 2) + Bit(x) * Bit(y)
  }

  function Or(x: nat, y: nat): nat {
    if x == 0 then y
    else if y == 0 then x
    else 2 * Or(x / 2, y / 2) + if Bit(x) == 1 || Bit(y) == 1 then 1 else 0
  }

  function Xor(x: nat, y: nat): nat {
    if x == 0 then y
    else if y == 0 then x
    else 2 * Xor(x / 2, y / 2) + if Bit(x) != Bit(y) then 1 else 0
  }

  function Shl(x: nat, k: nat): nat {
    if k == 0 then x else 2 * Shl(x, k - 1)
  }

  function Shr(x: nat, k: nat): nat {
    if k == 0 then x else Shr(x / 2, k - 1)
  }

  lemma {:induction false} ShlPositive(x: nat, k: nat)
    ensures x > 0 ==> Shl(x, k) > 0
    ensures Shl(0, k) == 0
  {
    if k > 0 {
      ShlPositive(x, k - 1);
    }
  }

  /** Masking with k ones keeps the k low bits. */
  lemma {:induction false} AndOnes(q: nat, r: nat, k: nat)
    requires r < Shl(1, k)
    ensures And(Shl(q, k) + r, Shl(1, k) - 1) == r
  {
    if k > 0 {
      AndOnes(q, r / 2, k - 1);
      var x := Shl(q, k) + r;
      var m := Shl(1, k) - 1;
      assert x == 2 * Shl(q, k - 1) + r && m == 2 * (Shl(1, k - 1) - 1) + 1;
      assert x / 2 == Shl(q, k - 1) + r / 2 && Bit(x) == Bit(r);
      assert m / 2 == Shl(1, k - 1) - 1 && Bit(m) == 1;
    }
  }

  lemma {:induction false} ShrZero(k: nat)
    ensures Shr(0, k) == 0
  {
    if k > 0 {
      ShrZero(k - 1);
    }
  }

  /** Masking with m shifted up only sees the bits from k on. */
  lemma {:induction false} AndShifted(x: nat, m: nat, k: nat)
    ensures And(x, Shl(m, k)) == Shl(And(Shr(x, k), m), k)
  {
    if k > 0 {
      AndShifted(x / 2, m, k - 1);
      AndDouble(x, Shl(m, k - 1));
    }
  }

  lemma AndDouble(x: nat, m: nat)
    ensures And(x, 2 * m) == 2 * And(x / 2, m)
  {
    assert 2 * m / 2 == m && Bit(2 * m) == 0;
  }

  /** Filling the k low bits of a shifted value is addition. */
  lemma {:induction false} OrLow(x: nat, c: nat, k: nat)
    requires c < Shl(1, k)
    ensures Or(Shl(x, k), c) == Shl(x, k) + c
  {
    if k > 0 {
      OrLow(x, c / 2, k - 1);
      var a := Shl(x, k - 1);
      assert Or(2 * a, c) == 2 * Or(a, c / 2) + Bit(c) by {
        assert 2 * a / 2 == a && Bit(2 * a) == 0;
      }
    }
  }

  /** Flipping bit k adds or subtracts its weight. */
  lemma {:induction false} XorBit(x: nat, k: nat)
    ensures Xor(x, Shl(1, k)) == if Bit(Shr(x, k)) == 0 then x + Shl(1, k) else x - Shl(1, k)
    ensures Bit(Shr(x, k)) == 1 ==> x >= Shl(1, k)
  {
    if k == 0 {
      if x > 0 {
        assert 1 / 2 == 0 && Xor(x / 2, 0) == x / 2;
      }
    } else {
      XorBit(x / 2, k - 1);
      ShlPositive(1, k - 1);
      var w := Shl(1, k - 1);
      assert 2 * w / 2 == w && Bit(2 * w) == 0;
      if x == 0 {
        ShrZero(k);
      }
    }
  }

  // ---------------------------------------------------------------- shifts as arithmetic

  lemma {:induction false} ShlTimes(x: nat, k: nat)
    ensures Shl(x, k) == x * Shl(1, k)
  {
    if k > 0 {
      ShlTimes(x, k - 1);
      DoubleProduct(x, Shl(1, k - 1));
    }
  }

  lemma DoubleProduct(x: nat, y: nat)
    ensures x * (2 * y) == 2 * (x * y)
  {
  }

  lemma MulMonotone(a: int, b: int, d: nat)
    ensures a <= b ==> a * d <= b * d
  {
  }

  lemma DivUnique(x: nat, d: nat, q: nat)
    requires d > 0 && q * d <= x < q * d + d
    ensures x / d == q
  {
    var r := x / d;
    assert r * d <= x < r * d + d;
    MulMonotone(r + 1, q, d);
    MulMonotone(q + 1, r, d);
  }

  lemma HalfThenDivide(x: nat, w: nat)
    requires w > 0
    ensures x / 2 / w == x / (2 * w)
  {
    var q := x / 2 / w;
    assert q * w <= x / 2 < q * w + w;
    assert q * (2 * w) == 2 * (q * w);
    DivUnique(x, 2 * w, q);
  }

  lemma {:induction false} ShrDivides(x: nat, k: nat)
    ensures Shl(1, k) > 0 && Shr(x, k) == x / Shl(1, k)
  {
    ShlPositive(1, k);
    if k > 0 {
      ShlPositive(1, k - 1);
      ShrDivides(x / 2, k - 1);
      HalfThenDivide(x, Shl(1, k - 1));
    }
  }

  /** A mask of j ones above k zeroes clears the k low bits of a value that has at most j + k bits. */
  lemma HighMask(x: nat, j: nat, k: nat)
    requires Shl(1, j) > 0 && Shl(1, k) > 0 && x / Shl(1, k) < Shl(1, j)
    ensures And(x, Shl(Shl(1, j) - 1, k)) == x / Shl(1, k) * Shl(1, k)
  {
    var q := x / Shl(1, k);
    AndShifted(x, Shl(1, j) - 1, k);
    ShrDivides(x, k);
    ShlPositive(0, j);
    AndOnes(0, q, j);
    ShlTimes(q, k);
  }
}
