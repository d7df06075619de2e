/**
 * Arithmetic shared by every engine: powers of two, the bits of a natural
 * number, Java's Integer.bitCount and Integer.toBinaryString, and the
 * fixed-width, most-significant-bit-first reading of a 0/1 sequence.
 */
module Binary {

  function Pow2(k: nat): (p: nat)
    ensures p >= 1
  {
    if k == 0 then 1 else 2 * Pow2(k - 1)
  }

  /** Bit k of x, bit 0 being the least significant one (Java's (x >> k) & 1). */
  function Bit(x: nat, k: nat): (b: nat)
    ensures b <= 1
  {
    if k == 0 then x % 2 else Bit(x / 2, k - 1)
  }

  /** Integer.bitCount for a non-negative int. */
  function Popcount(x: nat): nat
  {
    if x == 0 then 0 else x % 2 + Popcount(x / 2)
  }

  /** The character Java prints for a binary digit. */
  function Digit(b: int): char
  {
    if b == 0 then '0' else '1'
  }

  /** The characters of a 0/1 sequence, one digit each. */
  function Digits(s: seq<int>): (cs: seq<char>)
    ensures |cs| == |s|
  {
    if s == [] then [] else Digits(s[..|s| - 1]) + [Digit(s[|s| - 1])]
  }

  /** Integer.toBinaryString for a non-negative int: no leading zeros, "0" for zero. */
  function BinaryString(x: nat): (s: seq<char>)
    ensures |s| >= 1
    decreases x
  {
    if x < 2 then [Digit(x)] else BinaryString(x / 2) + [Digit(x % 2)]
  }

  /** The n low bits of x as a 0/1 sequence, most significant bit first. */
  function ToBits(x: nat, n: nat): (s: seq<int>)
    ensures |s| == n
  {
    if n == 0 then [] else ToBits(x / 2, n - 1) + [x % 2]
  }

  lemma {:induction false} ToBitsIsBinary(x: nat, n: nat)
    ensures IsBinary(ToBits(x, n))
  {
    if n > 0 {
      ToBitsIsBinary(x / 2, n - 1);
    }
  }

  /** The number a sequence spells when index 0 is read as the most significant digit. */
  function Value(s: seq<int>): int
  {
    if s == [] then 0 else 2 * Value(s[..|s| - 1]) + s[|s| - 1]
  }

  predicate IsBinary(s: seq<int>)
  {
    forall i :: 0 <= i < |s| ==> s[i] == 0 || s[i] == 1
  }

  function Zeros(n: nat): (s: seq<int>)
    ensures |s| == n && forall i :: 0 <= i < n ==> s[i] == 0
  {
    seq(n, _ => 0)
  }

  /** nextInt(bound) of java.util.Random, given the generator's raw value. */
  function NextInt(draw: nat, bound: nat): (r: nat)
    requires bound > 0
    ensures r < bound
  {
    draw % bound
  }

  function Min(a: int, b: int): int
  {
    if a <= b then a else b
  }

  /** The smallest element of a non-empty sequence. */
  function MinOf(s: seq<int>): (m: int)
    requires |s| > 0
    ensures m in s && forall i :: 0 <= i < |s| ==> m <= s[i]
  {
    if |s| == 1 then s[0] else Min(MinOf(s[..|s| - 1]), s[|s| - 1])
  }

  lemma {:induction false} ToBitsZero(n: nat)
    ensures ToBits(0, n) == Zeros(n)
  {
    if n > 0 {
      ToBitsZero(n - 1);
    }
  }

  /** Reading the n-bit form of x < 2^n back gives x. */
  lemma {:induction false} ValueOfToBits(x: nat, n: nat)
    requires x < Pow2(n)
    ensures Value(ToBits(x, n)) == x
  {
    if n > 0 {
      var s := ToBits(x, n);
      assert s[..n - 1] == ToBits(x / 2, n - 1);
      ValueOfToBits(x / 2, n - 1);
    }
  }

  /** A 0/1 sequence is the fixed-width form of its own value, which fits in its width. */
  lemma {:induction false} ToBitsOfValue(s: seq<int>)
    requires IsBinary(s)
    ensures 0 <= Value(s) < Pow2(|s|)
    ensures ToBits(Value(s), |s|) == s
  {
    if s != [] {
      var n := |s|;
      ToBitsOfValue(s[..n - 1]);
      assert s == s[..n - 1] + [s[n - 1]];
    }
  }

  /** Two numbers below 2^n have the same n-bit form only if they are equal. */
  lemma ToBitsInjective(x: nat, y: nat, n: nat)
    requires x < Pow2(n) && y < Pow2(n)
    requires ToBits(x, n) == ToBits(y, n)
    ensures x == y
  {
    ValueOfToBits(x, n);
    ValueOfToBits(y, n);
  }

  lemma {:induction false} ToBitsAllZero(x: nat, n: nat)
    requires x < Pow2(n)
    ensures ToBits(x, n) == Zeros(n) <==> x == 0
  {
    ToBitsZero(n);
    if ToBits(x, n) == Zeros(n) {
      ToBitsInjective(x, 0, n);
    }
  }

  /** 2^n written on n bits reads as zero: the counter wraps around. */
  lemma {:induction false} ToBitsPow2(n: nat)
    ensures ToBits(Pow2(n), n) == Zeros(n)
  {
    if n > 0 {
      if n == 1 {
        assert ToBits(Pow2(n), n) == ToBits(1, 0) + [0];
      } else {
        assert Pow2(n) / 2 == Pow2(n - 1);
        ToBitsPow2(n - 1);
        assert Zeros(n) == Zeros(n - 1) + [0];
      }
    }
  }

  lemma {:induction false} PopcountBounds(x: nat)
    ensures Popcount(x) <= |BinaryString(x)|
    ensures x > 0 ==> Popcount(x) >= 1
    decreases x
  {
    if x >= 2 {
      PopcountBounds(x / 2);
    }
  }

  /**
   * The "sorted output" test of the bit-level engine: zero, or a value whose
   * binary string is as long as its number of ones, i.e. x = 2^k - 1.
   */
  predicate AllLowOnes(x: nat)
  {
    x == 0 || |BinaryString(x)| == Popcount(x)
  }

  lemma {:induction false} AllLowOnesIsMersenne(x: nat)
    ensures AllLowOnes(x) <==> exists k: nat :: x + 1 == Pow2(k)
    decreases x
  {
    if x == 0 {
      assert x + 1 == Pow2(0);
    } else if x == 1 {
      assert x + 1 == Pow2(1);
    } else {
      PopcountBounds(x / 2);
      AllLowOnesIsMersenne(x / 2);
      assert AllLowOnes(x) <==> x % 2 == 1 && AllLowOnes(x / 2);
      if AllLowOnes(x) {
        var k: nat :| x / 2 + 1 == Pow2(k);
        assert x + 1 == Pow2(k + 1);
      }
      if exists k: nat :: x + 1 == Pow2(k) {
        var k: nat :| x + 1 == Pow2(k);
        assert k >= 2;
        assert x / 2 + 1 == Pow2(k - 1);
      }
    }
  }

  /** The zero-padded binary string of x on n digits spells the n-bit form of x. */
  lemma {:induction false} PaddedBinaryString(x: nat, n: nat)
    requires 1 <= n && x < Pow2(n)
    ensures |BinaryString(x)| <= n
    ensures seq(n - |BinaryString(x)|, _ => '0') + BinaryString(x) == Digits(ToBits(x, n))
    decreases n
  {
    if x < 2 {
      PaddedSingleDigit(x, n);
    } else {
      assert n >= 2;
      PaddedBinaryString(x / 2, n - 1);
      PaddedNextDigit(x, n);
    }
  }

  lemma PaddedSingleDigit(x: nat, n: nat)
    requires x < 2 && 1 <= n
    ensures seq(n - 1, _ => '0') + [Digit(x)] == Digits(ToBits(x, n))
  {
    var z := ToBits(0, n - 1);
    assert ToBits(x, n) == z + [x];
    ToBitsZero(n - 1);
    ZeroDigits(n - 1);
    assert Digits(z + [x])[..n - 1] == Digits(z);
  }

  lemma PaddedNextDigit(x: nat, n: nat)
    requires x >= 2 && n >= 2
    requires |BinaryString(x / 2)| <= n - 1
    requires seq(n - 1 - |BinaryString(x / 2)|, _ => '0') + BinaryString(x / 2) == Digits(ToBits(x / 2, n - 1))
    ensures |BinaryString(x)| <= n
    ensures seq(n - |BinaryString(x)|, _ => '0') + BinaryString(x) == Digits(ToBits(x, n))
  {
    var t := ToBits(x, n);
    var h := BinaryString(x / 2);
    var d := Digit(x % 2);
    var pad := seq(n - 1 - |h|, _ => '0');
    assert t[..n - 1] == ToBits(x / 2, n - 1) && t[n - 1] == x % 2;
    assert Digits(t) == Digits(ToBits(x / 2, n - 1)) + [d];
    assert BinaryString(x) == h + [d];
    assert seq(n - |BinaryString(x)|, _ => '0') == pad;
    assert pad + (h + [d]) == (pad + h) + [d];
  }

  lemma {:induction false} ZeroDigits(n: nat)
    ensures Digits(Zeros(n)) == seq(n, _ => '0')
  {
    if n > 0 {
      ZeroDigits(n - 1);
      assert Zeros(n)[..n - 1] == Zeros(n - 1);
    }
  }

}
