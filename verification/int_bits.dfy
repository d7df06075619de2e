/**
 * Java's bitwise operators on non-negative ints, written arithmetically:
 * ^ (Xor), | (Or), << (Shl) and flipping one bit (x ^ (1 << k)). Bit k of x
 * is Binary.Bit, so (x >> k) & 1 needs no function of its own.
 */
module IntBits {
  import opened Binary

  function Xor(a: nat, b: nat): nat
    decreases a + b
  {
    if a == 0 && b == 0 then 0 else 2 * Xor(a / 2, b / 2) + (a % 2 + b % 2) % 2
  }

  function Or(a: nat, b: nat): nat
    decreases a + b
  {
    if a == 0 && b == 0 then 0 else 2 * Or(a / 2, b / 2) + (if a % 2 == 1 || b % 2 == 1 then 1 else 0)
  }

  /** x << k, for results that stay below the sign bit. */
  function Shl(x: nat, k: nat): nat
  {
    x * Pow2(k)
  }

  /** x ^ (1 << k): bit k of x inverted. */
  function Flip(x: nat, k: nat): nat
  {
    if k == 0 then (if x % 2 == 1 then x - 1 else x + 1)
    else 2 * Flip(x / 2, k - 1) + x % 2
  }

  lemma {:induction false} BitOfZero(k: nat)
    ensures Bit(0, k) == 0
  {
    if k > 0 {
      BitOfZero(k - 1);
    }
  }

  /** Bits of 2y + d: d at position 0, the bits of y above it. */
  lemma BitOfDouble(y: nat, d: nat, k: nat)
    requires d <= 1
    ensures Bit(2 * y + d, k) == if k == 0 then d else Bit(y, k - 1)
  {
    if k > 0 {
      assert (2 * y + d) / 2 == y;
    }
  }

  lemma {:induction false} XorBit(a: nat, b: nat, k: nat)
    ensures Bit(Xor(a, b), k) == (Bit(a, k) + Bit(b, k)) % 2
    decreases k
  {
    if a == 0 && b == 0 {
      BitOfZero(k);
    } else {
      BitOfDouble(Xor(a / 2, b / 2), (a % 2 + b % 2) % 2, k);
      if k > 0 {
        XorBit(a / 2, b / 2, k - 1);
      }
    }
  }

  lemma {:induction false} OrBit(a: nat, b: nat, k: nat)
    ensures Bit(Or(a, b), k) == if Bit(a, k) == 1 || Bit(b, k) == 1 then 1 else 0
    decreases k
  {
    if a == 0 && b == 0 {
      BitOfZero(k);
    } else {
      BitOfDouble(Or(a / 2, b / 2), if a % 2 == 1 || b % 2 == 1 then 1 else 0, k);
      if k > 0 {
        OrBit(a / 2, b / 2, k - 1);
      }
    }
  }

  lemma {:induction false} ShlBit(x: nat, w: nat, k: nat)
    ensures Bit(Shl(x, w), k) == if k < w then 0 else Bit(x, k - w)
    decreases w
  {
    if w > 0 {
      assert Shl(x, w) == 2 * Shl(x, w - 1) + 0;
      BitOfDouble(Shl(x, w - 1), 0, k);
      if k > 0 {
        ShlBit(x, w - 1, k - 1);
      }
    }
  }

  lemma {:induction false} FlipBit(x: nat, k: nat, j: nat)
    ensures Bit(Flip(x, k), j) == if j == k then 1 - Bit(x, k) else Bit(x, j)
    decreases k
  {
    if k == 0 {
      if x % 2 == 1 {
        BitOfDouble(x / 2, 0, j);
        assert x - 1 == 2 * (x / 2) + 0;
        BitOfDouble(x / 2, 1, j);
      } else {
        BitOfDouble(x / 2, 1, j);
        assert x + 1 == 2 * (x / 2) + 1;
        BitOfDouble(x / 2, 0, j);
      }
    } else {
      BitOfDouble(Flip(x / 2, k - 1), x % 2, j);
      BitOfDouble(x / 2, x % 2, j);
      if j > 0 {
        FlipBit(x / 2, k - 1, j - 1);
      }
    }
  }

  /** Two numbers with the same bits everywhere are equal. */
  lemma {:induction false} BitsDetermine(a: nat, b: nat)
    requires forall k: nat :: Bit(a, k) == Bit(b, k)
    ensures a == b
    decreases a + b
  {
    if a != 0 || b != 0 {
      assert Bit(a, 0) == Bit(b, 0);
      forall k: nat
        ensures Bit(a / 2, k) == Bit(b / 2, k)
      {
        assert Bit(a, k + 1) == Bit(b, k + 1);
      }
      BitsDetermine(a / 2, b / 2);
    }
  }

  /** The numeric effect of a flip: 2^k added or removed. */
  lemma {:induction false} FlipValue(x: nat, k: nat)
    ensures Flip(x, k) == if Bit(x, k) == 0 then x + Pow2(k) else x - Pow2(k)
    decreases k
  {
    if k > 0 {
      FlipValue(x / 2, k - 1);
    }
  }

  lemma {:induction false} FlipPopcount(x: nat, k: nat)
    ensures Popcount(Flip(x, k)) == if Bit(x, k) == 0 then Popcount(x) + 1 else Popcount(x) - 1
    decreases k
  {
    var h := x / 2;
    var d := x % 2;
    assert x == 2 * h + d;
    PopcountDouble(h, d);
    if k == 0 {
      assert Flip(x, k) == 2 * h + (1 - d);
      PopcountDouble(h, 1 - d);
    } else {
      var f := Flip(h, k - 1);
      assert Flip(x, k) == 2 * f + d;
      assert Bit(x, k) == Bit(h, k - 1);
      FlipPopcount(h, k - 1);
      PopcountDouble(f, d);
    }
  }

  lemma PopcountDouble(y: nat, d: nat)
    requires d <= 1
    ensures Popcount(2 * y + d) == d + Popcount(y)
  {
    if 2 * y + d != 0 {
      assert (2 * y + d) / 2 == y;
    }
  }

  lemma {:induction false} FlipBelow(x: nat, k: nat, m: nat)
    requires x < Pow2(m) && k < m
    ensures Flip(x, k) < Pow2(m)
    decreases k
  {
    var h := Pow2(m - 1);
    assert Pow2(m) == 2 * h;
    if k == 0 {
      assert x % 2 == 0 ==> x + 1 < 2 * h;
    } else {
      assert x / 2 < h;
      FlipBelow(x / 2, k - 1, m - 1);
      assert Flip(x, k) == 2 * Flip(x / 2, k - 1) + x % 2;
    }
  }

  /** Flips of two positions can be done in either order. */
  lemma FlipsCommute(x: nat, a: nat, b: nat)
    ensures Flip(Flip(x, a), b) == Flip(Flip(x, b), a)
  {
    forall k: nat
      ensures Bit(Flip(Flip(x, a), b), k) == Bit(Flip(Flip(x, b), a), k)
    {
      FlipBit(x, a, k);
      FlipBit(x, b, k);
      FlipBit(Flip(x, a), b, k);
      FlipBit(Flip(x, b), a, k);
      FlipBit(x, a, b);
      FlipBit(x, b, a);
    }
    BitsDetermine(Flip(Flip(x, a), b), Flip(Flip(x, b), a));
  }

  lemma XorZero(x: nat)
    ensures Xor(x, 0) == x
  {
    forall k: nat
      ensures Bit(Xor(x, 0), k) == Bit(x, k)
    {
      XorBit(x, 0, k);
      BitOfZero(k);
    }
    BitsDetermine(Xor(x, 0), x);
  }

  /** x ^ ((1 << a) | (1 << b)) for a != b flips both bits. */
  lemma XorTwoBits(x: nat, a: nat, b: nat)
    requires a != b
    ensures Xor(x, Or(Shl(1, a), Shl(1, b))) == Flip(Flip(x, a), b)
  {
    var mask := Or(Shl(1, a), Shl(1, b));
    forall k: nat
      ensures Bit(Xor(x, mask), k) == Bit(Flip(Flip(x, a), b), k)
    {
      XorBit(x, mask, k);
      OrBit(Shl(1, a), Shl(1, b), k);
      ShlBit(1, a, k);
      ShlBit(1, b, k);
      if k >= a {
        BitOfOne(k - a);
      }
      if k >= b {
        BitOfOne(k - b);
      }
      FlipBit(x, a, k);
      FlipBit(Flip(x, a), b, k);
    }
    BitsDetermine(Xor(x, mask), Flip(Flip(x, a), b));
  }

  lemma BitOfOne(k: nat)
    ensures Bit(1, k) == if k == 0 then 1 else 0
  {
    if k > 0 {
      BitOfZero(k - 1);
    }
  }

  lemma {:induction false} Pow2Monotone(a: nat, b: nat)
    requires a < b
    ensures Pow2(a) < Pow2(b)
    decreases b
  {
    if a < b - 1 {
      Pow2Monotone(a, b - 1);
    }
  }
}
