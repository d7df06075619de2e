/**
 * The bit-level engine: an input is a non-negative Java int whose bit w is
 * the value on wire w, and a comparator exchanges two bits so that a 1 ends
 * on the lower bit position. A sorted output is 0 or 2^k - 1.
 */
module SensoNetworks {
  import opened Binary
  import opened IntBits
  import opened SensoComparators

  /** 2^31: the non-negative Java ints are the numbers below it. */
  const IntLimit: nat := 0x8000_0000

  /** Wire numbers that stay below the sign bit of a Java int. */
  predicate WiresOk(cs: seq<Comparator>)
  {
    forall i :: 0 <= i < |cs| ==> 0 <= cs[i].wireOne < 31 && 0 <= cs[i].wireTwo < 31
  }

  /**
   * One comparator of run: the two bits are read, their xor is shifted onto
   * both positions, and the flipped input is kept only when it is smaller.
   */
  function Step(input: nat, wireOne: nat, wireTwo: nat): (r: nat)
    ensures r <= input
  {
    var bitOne := Bit(input, wireOne);
    var bitTwo := Bit(input, wireTwo);
    var x := Xor(bitOne, bitTwo);
    var intermediate := Or(Shl(x, wireOne), Shl(x, wireTwo));
    var result := Xor(input, intermediate);
    if result < input then result else input
  }

  /** The network applied comparator by comparator, in list order. */
  function RunSpec(cs: seq<Comparator>, input: nat): (r: nat)
    requires WiresOk(cs)
    ensures r <= input
  {
    if cs == [] then input
    else
      var c := cs[|cs| - 1];
      Step(RunSpec(cs[..|cs| - 1], input), c.wireOne, c.wireTwo)
  }

  /** The outputs over the given inputs that are neither 0 nor of the form 2^k - 1. */
  function UnsortedOf(cs: seq<Comparator>, inputs: set<nat>): set<nat>
    requires WiresOk(cs)
  {
    set x | x in inputs && !AllLowOnes(RunSpec(cs, x)) :: RunSpec(cs, x)
  }

  class ComparisonNetwork {
    var wires: int
    var comparisons: seq<Comparator>

    constructor (wires: int)
      ensures this.wires == wires && comparisons == []
    {
      this.wires := wires;
      comparisons := [];
    }

    constructor WithList(wires: int, comparisons: seq<Comparator>)
      ensures this.wires == wires && this.comparisons == comparisons
    {
      this.wires := wires;
      this.comparisons := comparisons;
    }

    method Run(input: int) returns (output: int)
      requires 0 <= input < IntLimit && WiresOk(comparisons)
      ensures output == RunSpec(comparisons, input)
    {
      output := input;
      var k := 0;
      while k < |comparisons|
        invariant 0 <= k <= |comparisons| && WiresOk(comparisons[..k])
        invariant output >= 0 && output == RunSpec(comparisons[..k], input)
      {
        RunSpecNext(comparisons, k, input);
        output := Exchange(output, comparisons[k].wireOne, comparisons[k].wireTwo);
        k := k + 1;
      }
      assert comparisons[..k] == comparisons;
    }

    /** The body of run's loop for one comparator: the bits are exchanged when that lowers the value. */
    static method Exchange(input: nat, wireOne: nat, wireTwo: nat) returns (output: nat)
      ensures output == Step(input, wireOne, wireTwo)
    {
      output := input;
      var bitOne := Bit(output, wireOne);
      var bitTwo := Bit(output, wireTwo);
      var intermediate := Xor(bitOne, bitTwo);
      intermediate := Or(Shl(intermediate, wireOne), Shl(intermediate, wireTwo));
      var result := Xor(output, intermediate);
      if result < output {
        output := result;
      }
    }

    method GetUnsorted(inputs: set<nat>) returns (unsorted: set<nat>)
      requires forall x :: x in inputs ==> x < IntLimit
      requires WiresOk(comparisons)
      ensures unsorted == UnsortedOf(comparisons, inputs)
    {
      unsorted := {};
      var remaining := inputs;
      while remaining != {}
        invariant remaining <= inputs
        invariant unsorted == UnsortedOf(comparisons, inputs - remaining)
        decreases remaining
      {
        var input :| input in remaining;
        var output := Run(input);
        var sorted := output == 0 || |BinaryString(output)| == Popcount(output);
        UnsortedOfStep(comparisons, inputs, remaining, input, unsorted);
        if !sorted {
          unsorted := unsorted + {output};
        }
        remaining := remaining - {input};
      }
      assert inputs - remaining == inputs;
    }

    method AddComparator(comparator: Comparator)
      modifies this
      ensures comparisons == old(comparisons) + [comparator] && wires == old(wires)
    {
      comparisons := comparisons + [comparator];
    }

    function Length(): nat
      reads this
    {
      |comparisons|
    }
  }

  lemma RunSpecNext(cs: seq<Comparator>, k: nat, x: nat)
    requires WiresOk(cs) && k < |cs|
    ensures WiresOk(cs[..k]) && WiresOk(cs[..k + 1])
    ensures RunSpec(cs[..k + 1], x) == Step(RunSpec(cs[..k], x), cs[k].wireOne, cs[k].wireTwo)
  {
    assert cs[..k + 1][..k] == cs[..k];
  }

  lemma UnsortedOfStep(cs: seq<Comparator>, inputs: set<nat>, remaining: set<nat>, x: nat, acc: set<nat>)
    requires WiresOk(cs) && x in remaining && remaining <= inputs
    requires acc == UnsortedOf(cs, inputs - remaining)
    ensures (if AllLowOnes(RunSpec(cs, x)) then acc else acc + {RunSpec(cs, x)})
      == UnsortedOf(cs, inputs - (remaining - {x}))
  {
    assert inputs - (remaining - {x}) == (inputs - remaining) + {x};
  }

  /**
   * A step acts exactly when the two bits differ and the 1 sits on the
   * higher position; it then moves that 1 down, leaves every other bit
   * alone and keeps the number of ones.
   */
  lemma StepEffect(x: nat, lo: nat, hi: nat)
    requires lo < hi
    ensures var r := Step(x, lo, hi);
      (r != x <==> Bit(x, lo) == 0 && Bit(x, hi) == 1) &&
      (r != x ==> Bit(r, lo) == 1 && Bit(r, hi) == 0) &&
      (forall k: nat :: k != lo && k != hi ==> Bit(r, k) == Bit(x, k)) &&
      Popcount(r) == Popcount(x)
  {
    var r := Step(x, lo, hi);
    if Bit(x, lo) == Bit(x, hi) {
      StepWhenEqual(x, lo, hi);
    } else {
      StepWhenDifferent(x, lo, hi);
      var f1 := Flip(x, lo);
      var f := Flip(f1, hi);
      FlipValue(x, lo);
      FlipBit(x, lo, hi);
      FlipValue(f1, hi);
      Pow2Monotone(lo, hi);
      if Bit(x, lo) == 0 {
        assert f < x;
        FlipPopcount(x, lo);
        FlipPopcount(f1, hi);
        forall k: nat
          ensures Bit(r, k) == if k == lo then 1 else if k == hi then 0 else Bit(x, k)
        {
          FlipBit(x, lo, k);
          FlipBit(f1, hi, k);
        }
      } else {
        assert f > x;
      }
    }
  }

  lemma StepWhenEqual(x: nat, a: nat, b: nat)
    requires Bit(x, a) == Bit(x, b)
    ensures Step(x, a, b) == x
  {
    var bit := Bit(x, a);
    if bit == 0 {
      assert Xor(bit, bit) == 0;
    } else {
      assert Xor(bit, bit) == 2 * Xor(0, 0) + 0;
    }
    assert Shl(0, a) == 0 && Shl(0, b) == 0;
    assert Or(0, 0) == 0;
    XorZero(x);
  }

  lemma StepWhenDifferent(x: nat, a: nat, b: nat)
    requires Bit(x, a) != Bit(x, b)
    ensures a != b
    ensures Step(x, a, b) == var f := Flip(Flip(x, a), b); if f < x then f else x
  {
    assert Xor(Bit(x, a), Bit(x, b)) == 1;
    XorTwoBits(x, a, b);
  }

  /** The two wires of a step can be given in either order; equal wires do nothing. */
  lemma StepSymmetric(x: nat, a: nat, b: nat)
    ensures Step(x, a, b) == Step(x, b, a)
    ensures Step(x, a, a) == x
  {
    StepWhenEqual(x, a, a);
    if Bit(x, a) == Bit(x, b) {
      StepWhenEqual(x, a, b);
      StepWhenEqual(x, b, a);
    } else {
      StepWhenDifferent(x, a, b);
      StepWhenDifferent(x, b, a);
      FlipsCommute(x, a, b);
    }
  }

  /** Running a network keeps the number of ones and never increases the input. */
  lemma {:induction false} RunPopcount(cs: seq<Comparator>, x: nat)
    requires WiresOk(cs)
    ensures Popcount(RunSpec(cs, x)) == Popcount(x)
    ensures RunSpec(cs, x) <= x
  {
    if cs != [] {
      var c := cs[|cs| - 1];
      var y := RunSpec(cs[..|cs| - 1], x);
      RunPopcount(cs[..|cs| - 1], x);
      if c.wireOne < c.wireTwo {
        StepEffect(y, c.wireOne, c.wireTwo);
      } else if c.wireTwo < c.wireOne {
        StepSymmetric(y, c.wireOne, c.wireTwo);
        StepEffect(y, c.wireTwo, c.wireOne);
      } else {
        StepSymmetric(y, c.wireOne, c.wireTwo);
      }
    }
  }

  /** At most one unsorted output per input, and none of them is 0 or 2^k - 1. */
  lemma UnsortedOfBound(cs: seq<Comparator>, inputs: set<nat>)
    requires WiresOk(cs)
    ensures |UnsortedOf(cs, inputs)| <= |inputs|
    ensures forall y :: y in UnsortedOf(cs, inputs) ==> y > 0 && forall k: nat :: y + 1 != Pow2(k)
  {
    UnsortedOfCard(cs, inputs);
    forall y | y in UnsortedOf(cs, inputs)
      ensures y > 0 && forall k: nat :: y + 1 != Pow2(k)
    {
      var x :| x in inputs && !AllLowOnes(RunSpec(cs, x)) && y == RunSpec(cs, x);
      AllLowOnesIsMersenne(y);
    }
  }

  lemma {:induction false} UnsortedOfCard(cs: seq<Comparator>, inputs: set<nat>)
    requires WiresOk(cs)
    ensures |UnsortedOf(cs, inputs)| <= |inputs|
    decreases |inputs|
  {
    if inputs != {} {
      var x :| x in inputs;
      var rest := inputs - {x};
      UnsortedOfCard(cs, rest);
      UnsortedOfAdd(cs, rest, x);
      assert rest + {x} == inputs;
    }
  }

  lemma UnsortedOfAdd(cs: seq<Comparator>, done: set<nat>, x: nat)
    requires WiresOk(cs)
    ensures UnsortedOf(cs, done + {x}) ==
      UnsortedOf(cs, done) + (if !AllLowOnes(RunSpec(cs, x)) then {RunSpec(cs, x)} else {})
  {
  }
}
