/**
 * A binary sequence: one input vector of a comparison network, stored in a
 * mutable int array. Index 0 is the top wire and, for the counter used to
 * enumerate every input, the most significant digit.
 */
module BinarySequences {
  import opened Binary

  /** Compare-swap on values: a 1 above a 0 becomes a 0 above a 1; anything else stays. */
  function CompareSwap(s: seq<int>, top: int, bottom: int): (r: seq<int>)
    requires 0 <= top < |s| && 0 <= bottom < |s|
    ensures |r| == |s|
  {
    if s[top] == 1 && s[bottom] == 0 then s[top := 0][bottom := 1] else s
  }

  /**
   * What a compare-swap does: it permutes the sequence, touches only its two
   * indices, and acts exactly when a 1 sits on top of a 0, moving the 0 up.
   */
  lemma CompareSwapEffect(s: seq<int>, top: int, bottom: int)
    requires 0 <= top < |s| && 0 <= bottom < |s|
    ensures var r := CompareSwap(s, top, bottom);
      multiset(r) == multiset(s) &&
      (forall i :: 0 <= i < |s| && i != top && i != bottom ==> r[i] == s[i]) &&
      (r != s <==> s[top] == 1 && s[bottom] == 0) &&
      (r != s ==> r[top] == 0 && r[bottom] == 1)
  {
    if s[top] == 1 && s[bottom] == 0 {
      assert CompareSwap(s, top, bottom)[top] != s[top];
    }
  }

  /** Non-decreasing along adjacent pairs, the test isSorted runs. */
  predicate Sorted(s: seq<int>)
  {
    forall i :: 0 <= i < |s| - 1 ==> s[i] <= s[i + 1]
  }

  /** One step of the carry loop of incrementByOne, from the last index up. */
  function Increment(s: seq<int>): (r: seq<int>)
    ensures |r| == |s|
  {
    if s == [] then []
    else if s[|s| - 1] == 0 then s[..|s| - 1] + [1]
    else Increment(s[..|s| - 1]) + [0]
  }

  lemma IncrementLast(p: seq<int>)
    requires |p| > 0
    ensures p[|p| - 1] == 0 ==> Increment(p) == p[..|p| - 1] + [1]
    ensures p[|p| - 1] != 0 ==> Increment(p) == Increment(p[..|p| - 1]) + [0]
  {
  }

  /**
   * The closed form of Increment: with j the last index holding 0 (or -1 if
   * none), everything before j stays, j becomes 1 and everything after becomes 0.
   */
  lemma {:induction false} IncrementShape(s: seq<int>, j: int)
    requires -1 <= j < |s|
    requires j >= 0 ==> s[j] == 0
    requires forall k :: j < k < |s| ==> s[k] != 0
    ensures forall k :: 0 <= k < |s| ==>
      Increment(s)[k] == (if k < j then s[k] else if k == j then 1 else 0)
  {
    if s != [] {
      var n := |s|;
      if j < n - 1 {
        IncrementShape(s[..n - 1], j);
      }
    }
  }

  /** What equals answers, including the exception a shorter argument can raise. */
  datatype Verdict = Same | Different | IndexOutOfBounds

  /** The element-by-element scan of equals over this sequence's indices, from index i on. */
  function CompareFrom(a: seq<int>, b: seq<int>, i: nat): Verdict
    decreases |a| - i
  {
    if i >= |a| then Same
    else if i >= |b| then IndexOutOfBounds
    else if a[i] < b[i] || a[i] > b[i] then Different
    else CompareFrom(a, b, i + 1)
  }

  class BinarySequence {
    /** The wire values; the array itself is never replaced. */
    const bits: array<int>

    /** The all-zero sequence on numWires wires. */
    constructor (numWires: nat)
      ensures fresh(bits) && bits[..] == Zeros(numWires)
    {
      var a := new int[numWires];
      var i := 0;
      while i < numWires
        invariant 0 <= i <= numWires
        invariant forall k :: 0 <= k < i ==> a[k] == 0
      {
        a[i] := 0;
        i := i + 1;
      }
      bits := a;
    }

    /** A copy of another array: the two never share storage. */
    constructor Clone(seqToClone: array<int>)
      ensures fresh(bits) && bits[..] == seqToClone[..]
    {
      var a := new int[seqToClone.Length];
      var i := 0;
      while i < seqToClone.Length
        invariant 0 <= i <= seqToClone.Length
        invariant a[..i] == seqToClone[..i]
      {
        a[i] := seqToClone[i];
        i := i + 1;
      }
      bits := a;
    }

    method Sort(top: int, bottom: int)
      requires 0 <= top < bits.Length && 0 <= bottom < bits.Length
      modifies bits
      ensures bits[..] == CompareSwap(old(bits[..]), top, bottom)
    {
      if bits[top] == 1 && bits[bottom] == 0 {
        bits[top] := 0;
        bits[bottom] := 1;
      }
    }

    method IsSorted() returns (sorted: bool)
      ensures sorted <==> Sorted(bits[..])
    {
      var i := 0;
      while i < bits.Length - 1
        invariant 0 <= i <= bits.Length
        invariant i <= bits.Length - 1 || bits.Length == 0
        invariant forall k :: 0 <= k < i ==> bits[k] <= bits[k + 1]
      {
        if bits[i + 1] < bits[i] {
          return false;
        }
        i := i + 1;
      }
      return true;
    }

    method IncrementByOne()
      modifies bits
      ensures bits[..] == Increment(old(bits[..]))
    {
      ghost var s := bits[..];
      ghost var j := -1;
      var carry := true;
      var i := bits.Length - 1;
      while i >= 0
        invariant -1 <= i < bits.Length && |s| == bits.Length
        invariant forall k :: 0 <= k <= i ==> bits[k] == s[k]
        invariant carry ==> j == -1
        invariant carry ==> forall k :: i < k < |s| ==> s[k] != 0 && bits[k] == 0
        invariant !carry ==> i < j < |s| && s[j] == 0 && bits[j] == 1
        invariant !carry ==> forall k :: i < k < j ==> bits[k] == s[k]
        invariant !carry ==> forall k :: j < k < |s| ==> s[k] != 0 && bits[k] == 0
      {
        if carry {
          if bits[i] == 0 {
            bits[i] := 1;
            carry := false;
            j := i;
          } else {
            bits[i] := 0;
            carry := true;
          }
        }
        i := i - 1;
      }
      IncrementShape(s, j);
    }

    method AllZeros() returns (zero: bool)
      ensures zero <==> bits[..] == Zeros(bits.Length)
    {
      var i := 0;
      while i < bits.Length
        invariant 0 <= i <= bits.Length
        invariant forall k :: 0 <= k < i ==> bits[k] == 0
      {
        if bits[i] != 0 {
          assert bits[..][i] != Zeros(bits.Length)[i];
          return false;
        }
        i := i + 1;
      }
      return true;
    }

    /** Structural equality as equals computes it: only this sequence's indices are scanned. */
    method Equals(o: BinarySequence?) returns (v: Verdict)
      ensures o == null ==> v == Different
      ensures o == this ==> v == Same
      ensures o != null && o != this ==> v == CompareFrom(bits[..], o.bits[..], 0)
    {
      if o == this {
        return Same;
      }
      if o == null {
        return Different;
      }
      var i := 0;
      while i < bits.Length
        invariant 0 <= i <= bits.Length
        invariant CompareFrom(bits[..], o.bits[..], 0) == CompareFrom(bits[..], o.bits[..], i)
      {
        if i >= o.bits.Length {
          return IndexOutOfBounds;
        }
        if bits[i] < o.bits[i] || bits[i] > o.bits[i] {
          return Different;
        }
        i := i + 1;
      }
      return Same;
    }
  }

  /** Applying the same compare-swap twice changes nothing the second time. */
  lemma CompareSwapIdempotent(s: seq<int>, top: int, bottom: int)
    requires 0 <= top < |s| && 0 <= bottom < |s|
    ensures CompareSwap(CompareSwap(s, top, bottom), top, bottom) == CompareSwap(s, top, bottom)
  {
  }

  /** On 0/1 data the compared pair ends in order and stays 0/1. */
  lemma CompareSwapOrders(s: seq<int>, top: int, bottom: int)
    requires 0 <= top < |s| && 0 <= bottom < |s| && IsBinary(s)
    ensures var r := CompareSwap(s, top, bottom); IsBinary(r) && r[top] <= r[bottom]
  {
    CompareSwapEffect(s, top, bottom);
  }

  /** A degenerate comparator (top == bottom) never changes the sequence. */
  lemma CompareSwapDegenerate(s: seq<int>, w: int)
    requires 0 <= w < |s|
    ensures CompareSwap(s, w, w) == s
  {
  }

  /** The all-zero vector is sorted, and so is every 0...01...1 vector. */
  lemma SortedStaircase(zeros: nat, ones: nat)
    ensures Sorted(Zeros(zeros + ones))
    ensures Sorted(Zeros(zeros) + seq(ones, _ => 1))
  {
  }

  /** incrementByOne adds one modulo 2^n to the value read most significant digit first. */
  lemma {:induction false} IncrementToBits(x: nat, n: nat)
    ensures Increment(ToBits(x, n)) == ToBits(x + 1, n)
  {
    if n > 0 {
      var s := ToBits(x, n);
      assert s[..n - 1] == ToBits(x / 2, n - 1);
      if x % 2 == 1 {
        IncrementToBits(x / 2, n - 1);
        assert (x + 1) / 2 == x / 2 + 1;
      }
    }
  }

  lemma {:induction false} IncrementValue(s: seq<int>)
    requires IsBinary(s)
    ensures IsBinary(Increment(s))
    ensures Value(Increment(s)) == (Value(s) + 1) % Pow2(|s|)
  {
    var n := |s|;
    var v := Value(s);
    var p := Pow2(n);
    var r := Increment(s);
    assert v < p && r == ToBits(v + 1, n) && IsBinary(r) by {
      ToBitsOfValue(s);
      IncrementToBits(v, n);
      ToBitsIsBinary(v + 1, n);
    }
    if v + 1 < p {
      assert Value(r) == (v + 1) % p by {
        ValueOfToBits(v + 1, n);
        ModBelow(v + 1, p);
      }
    } else {
      assert Value(r) == (v + 1) % p by {
        assert v + 1 == p;
        ToBitsPow2(n);
        ToBitsZero(n);
        ValueOfToBits(0, n);
        ModBelow(0, p);
      }
    }
  }

  lemma ModBelow(a: int, m: int)
    requires 0 <= a < m
    ensures a % m == a && (a + m) % m == a
  {
  }

  /** All ones wraps around to all zeros. */
  lemma IncrementWraps(n: nat)
    ensures Increment(seq(n, _ => 1)) == Zeros(n)
  {
    if n > 0 {
      assert seq(n, _ => 1)[..n - 1] == seq(n - 1, _ => 1);
      IncrementWraps(n - 1);
    }
  }

  /** For sequences of one length equals holds exactly when they agree everywhere. */
  lemma {:induction false} CompareEqualLength(a: seq<int>, b: seq<int>, i: nat)
    requires |a| == |b| && i <= |a|
    ensures CompareFrom(a, b, i) != IndexOutOfBounds
    ensures CompareFrom(a, b, i) == Same <==> a[i..] == b[i..]
    decreases |a| - i
  {
    if i < |a| {
      CompareEqualLength(a, b, i + 1);
      assert a[i..] == [a[i]] + a[i + 1..];
      assert b[i..] == [b[i]] + b[i + 1..];
    }
  }
}
