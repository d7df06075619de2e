/**
 * The Boolean lattice of one wire: for every input i < 2^n, the value wire
 * carries on input i (wires numbered 1..n from the most significant digit),
 * grouped by level n - popcount(i) + 1 and, inside a level, in increasing i.
 */
module Lattices {
  import opened Binary

  datatype Option<T> = None | Some(value: T)

  /** The level input i lands in. */
  function Level(n: nat, i: nat): int
  {
    n - Popcount(i) + 1
  }

  /** What wire (1-based, 1 = most significant) carries on input i. */
  function Column(n: nat, wire: nat, i: nat): bool
    requires 1 <= wire <= n
  {
    Bit(i, n - wire) == 1
  }

  /** The level map after the constructor has handled inputs 0 .. m - 1. */
  function Built(n: nat, wire: nat, m: nat): map<nat, seq<bool>>
    requires 1 <= wire <= n && m <= Pow2(n)
  {
    if m == 0 then map[]
    else
      var prev := Built(n, wire, m - 1);
      var level := LevelBelow(n, m - 1);
      prev[level := (if level in prev then prev[level] else []) + [Column(n, wire, m - 1)]]
  }

  /** The inputs below m on level L, in increasing order. */
  function Indices(n: nat, level: int, m: nat): seq<nat>
  {
    if m == 0 then []
    else Indices(n, level, m - 1) + (if Level(n, m - 1) == level then [m - 1] else [])
  }

  /** Pointwise conjunction over the left list's positions. */
  function And(a: seq<bool>, b: seq<bool>): (r: seq<bool>)
    requires |a| <= |b|
    ensures |r| == |a|
  {
    AndUpTo(a, b, |a|)
  }

  /** Pointwise disjunction over the right list, at the positions the left list has. */
  function Or(a: seq<bool>, b: seq<bool>): (r: seq<bool>)
    requires |a| <= |b|
    ensures |r| == |b|
  {
    OrUpTo(a, b, |a|)
  }

  /** The left list once its first i positions hold the conjunction. */
  function AndUpTo(a: seq<bool>, b: seq<bool>, i: nat): (r: seq<bool>)
    requires i <= |a| <= |b|
    ensures |r| == |a|
  {
    seq(|a|, j requires 0 <= j < |a| => if j < i then a[j] && b[j] else a[j])
  }

  /** The right list once its first i positions hold the disjunction. */
  function OrUpTo(a: seq<bool>, b: seq<bool>, i: nat): (r: seq<bool>)
    requires i <= |a| <= |b|
    ensures |r| == |b|
  {
    seq(|b|, j requires 0 <= j < |b| => if j < i then a[j] || b[j] else b[j])
  }

  /** Every level of the left lattice exists on the right and is no longer there. */
  predicate Covers(a: map<nat, seq<bool>>, b: map<nat, seq<bool>>)
  {
    forall level :: level in a ==> level in b && |a[level]| <= |b[level]|
  }

  function AndLevels(a: map<nat, seq<bool>>, b: map<nat, seq<bool>>): map<nat, seq<bool>>
    requires Covers(a, b)
  {
    map level | level in a :: And(a[level], b[level])
  }

  function OrLevels(a: map<nat, seq<bool>>, b: map<nat, seq<bool>>): map<nat, seq<bool>>
    requires Covers(a, b)
  {
    map level | level in b :: if level in a then Or(a[level], b[level]) else b[level]
  }

  /** zfill: pad on the left with '0' until the string has the given length. */
  method Zfill(s: seq<char>, length: int) returns (r: seq<char>)
    requires |s| <= length
    ensures r == seq(length - |s|, _ => '0') + s
  {
    r := s;
    while |r| != length
      invariant |s| <= |r| <= length
      invariant r == seq(|r| - |s|, _ => '0') + s
      decreases length - |r|
    {
      assert "0" + r == seq(|r| + 1 - |s|, _ => '0') + s;
      r := "0" + r;
    }
  }

  class Lattice {
    var lattice: map<nat, seq<bool>>
    var numWires: int

    constructor (numWires: nat, wire: nat)
      requires 1 <= wire <= numWires
      ensures this.numWires == numWires
      ensures lattice == Built(numWires, wire, Pow2(numWires))
    {
      this.numWires := numWires;
      lattice := map[];
      new;
      var i := 0;
      while i < Pow2(numWires)
        invariant 0 <= i <= Pow2(numWires)
        invariant this.numWires == numWires
        invariant lattice == Built(numWires, wire, i)
      {
        lattice := AddInput(lattice, numWires, wire, i);
        i := i + 1;
      }
    }

    /** One pass of the constructor's loop: input i's column entry appended to the list of its level. */
    static method AddInput(lattice0: map<nat, seq<bool>>, numWires: nat, wire: nat, i: nat)
      returns (lattice: map<nat, seq<bool>>)
      requires 1 <= wire <= numWires && i < Pow2(numWires)
      requires lattice0 == Built(numWires, wire, i)
      ensures lattice == Built(numWires, wire, i + 1)
    {
      lattice := lattice0;
      var level := numWires - Popcount(i) + 1;
      var node := BinaryString(i);
      ColumnIsDigit(numWires, wire, i);
      node := Zfill(node, numWires);
      BuiltNext(numWires, wire, i, level, node[wire - 1] == '1');
      if level !in lattice {
        lattice := lattice[level := []];
      }
      lattice := lattice[level := lattice[level] + [node[wire - 1] == '1']];
    }

    /** getLevel: the list of a level, or nothing (null) for a level the map lacks. */
    function GetLevel(level: int): (r: Option<seq<bool>>)
      reads this
      ensures r.Some? <==> level >= 0 && level in lattice
    {
      if level >= 0 && level in lattice then Some(lattice[level]) else None
    }

    /**
     * Adding a comparator with this lattice's wire above rhs's: this becomes
     * the pointwise AND and rhs the pointwise OR of the two old lattices.
     */
    method AddComparatorBetween(rhs: Lattice)
      requires rhs != this && Covers(lattice, rhs.lattice)
      modifies this, rhs
      ensures numWires == old(numWires) && rhs.numWires == old(rhs.numWires)
      ensures lattice == AndLevels(old(lattice), old(rhs.lattice))
      ensures rhs.lattice == OrLevels(old(lattice), old(rhs.lattice))
    {
      ghost var a := lattice;
      ghost var b := rhs.lattice;
      var remaining := lattice.Keys;
      while remaining != {}
        invariant remaining <= a.Keys
        invariant numWires == old(numWires) && rhs.numWires == old(rhs.numWires)
        invariant lattice == Partial(a, b, remaining, true)
        invariant rhs.lattice == Partial(a, b, remaining, false)
        decreases remaining
      {
        var key :| key in remaining;
        CombineLevel(rhs, key);
        PartialStep(a, b, remaining, key);
        remaining := remaining - {key};
      }
      PartialDone(a, b);
    }

    /** The inner loop of addComparatorBetween, over the positions of one level. */
    method CombineLevel(rhs: Lattice, key: nat)
      requires rhs != this && key in lattice && key in rhs.lattice
      requires |lattice[key]| <= |rhs.lattice[key]|
      modifies this, rhs
      ensures numWires == old(numWires) && rhs.numWires == old(rhs.numWires)
      ensures lattice == old(lattice)[key := And(old(lattice[key]), old(rhs.lattice[key]))]
      ensures rhs.lattice == old(rhs.lattice)[key := Or(old(lattice[key]), old(rhs.lattice[key]))]
    {
      ghost var a := lattice[key];
      ghost var b := rhs.lattice[key];
      assert AndUpTo(a, b, 0) == a && OrUpTo(a, b, 0) == b;
      var i := 0;
      while i < |lattice[key]|
        invariant 0 <= i <= |a|
        invariant numWires == old(numWires) && rhs.numWires == old(rhs.numWires)
        invariant lattice == old(lattice)[key := AndUpTo(a, b, i)]
        invariant rhs.lattice == old(rhs.lattice)[key := OrUpTo(a, b, i)]
      {
        var lhsVal := lattice[key][i];
        var rhsVal := rhs.lattice[key][i];
        lattice := lattice[key := lattice[key][i := lhsVal && rhsVal]];
        rhs.lattice := rhs.lattice[key := rhs.lattice[key][i := lhsVal || rhsVal]];
        assert AndUpTo(a, b, i + 1) == AndUpTo(a, b, i)[i := lhsVal && rhsVal];
        assert OrUpTo(a, b, i + 1) == OrUpTo(a, b, i)[i := lhsVal || rhsVal];
        i := i + 1;
      }
    }
  }

  /** Both lattices part-way through addComparatorBetween: the levels not in remaining are done. */
  function Partial(a: map<nat, seq<bool>>, b: map<nat, seq<bool>>, remaining: set<nat>, left: bool): map<nat, seq<bool>>
    requires Covers(a, b)
  {
    if left then map level | level in a :: if level in remaining then a[level] else And(a[level], b[level])
    else map level | level in b :: if level in a && level !in remaining then Or(a[level], b[level]) else b[level]
  }

  lemma PartialStep(a: map<nat, seq<bool>>, b: map<nat, seq<bool>>, remaining: set<nat>, key: nat)
    requires Covers(a, b) && key in remaining && remaining <= a.Keys
    ensures Partial(a, b, remaining, true)[key := And(a[key], b[key])] == Partial(a, b, remaining - {key}, true)
    ensures Partial(a, b, remaining, false)[key := Or(a[key], b[key])] == Partial(a, b, remaining - {key}, false)
  {
  }

  lemma PartialDone(a: map<nat, seq<bool>>, b: map<nat, seq<bool>>)
    requires Covers(a, b)
    ensures Partial(a, b, {}, true) == AndLevels(a, b)
    ensures Partial(a, b, {}, false) == OrLevels(a, b)
  {
  }

  /** One more input on the constructor's loop: appended to its level's list. */
  lemma BuiltNext(n: nat, wire: nat, i: nat, level: int, entry: bool)
    requires 1 <= wire <= n && i < Pow2(n)
    requires level == n - Popcount(i) + 1 && entry == Column(n, wire, i)
    ensures level >= 1
    ensures var prev := Built(n, wire, i);
      Built(n, wire, i + 1) == prev[level := (if level in prev then prev[level] else []) + [entry]]
  {
    assert level == LevelBelow(n, i);
  }

  /** Level as a nat, for inputs below 2^n. */
  function LevelBelow(n: nat, i: nat): (level: nat)
    requires i < Pow2(n)
    ensures level == Level(n, i) && 1 <= level <= n + 1
  {
    PopcountBelow(i, n);
    n - Popcount(i) + 1
  }

  lemma {:induction false} PopcountBelow(i: nat, n: nat)
    requires i < Pow2(n)
    ensures Popcount(i) <= n
    decreases n
  {
    if n > 0 && i > 0 {
      PopcountBelow(i / 2, n - 1);
    }
  }

  lemma {:induction false} PopcountMersenne(k: nat)
    ensures Pow2(k) >= 1 && Popcount(Pow2(k) - 1) == k
  {
    if k > 0 {
      PopcountMersenne(k - 1);
      assert (Pow2(k) - 1) / 2 == Pow2(k - 1) - 1;
    }
  }

  lemma {:induction false} ToBitsAt(x: nat, n: nat, j: nat)
    requires j < n
    ensures ToBits(x, n)[j] == Bit(x, n - 1 - j)
    decreases n
  {
    if j < n - 1 {
      ToBitsAt(x / 2, n - 1, j);
    }
  }

  lemma {:induction false} DigitsAt(t: seq<int>, j: nat)
    requires j < |t|
    ensures Digits(t)[j] == Digit(t[j])
    decreases |t|
  {
    if j < |t| - 1 {
      DigitsAt(t[..|t| - 1], j);
    }
  }

  /** The character the constructor tests is the wire's bit of the input. */
  lemma ColumnIsDigit(n: nat, wire: nat, i: nat)
    requires 1 <= wire <= n && i < Pow2(n)
    ensures |BinaryString(i)| <= n
    ensures (seq(n - |BinaryString(i)|, _ => '0') + BinaryString(i))[wire - 1] == '1' <==> Column(n, wire, i)
  {
    PaddedBinaryString(i, n);
    DigitsAt(ToBits(i, n), wire - 1);
    ToBitsAt(i, n, wire - 1);
  }

  /** An input below m is on its level's list of indices, and that list holds nothing else. */
  lemma {:induction false} IndicesExact(n: nat, level: int, m: nat)
    ensures forall k :: 0 <= k < |Indices(n, level, m)| ==>
      Indices(n, level, m)[k] < m && Level(n, Indices(n, level, m)[k]) == level
    ensures forall k, l :: 0 <= k < l < |Indices(n, level, m)| ==>
      Indices(n, level, m)[k] < Indices(n, level, m)[l]
    ensures forall i: nat :: i < m && Level(n, i) == level ==> i in Indices(n, level, m)
  {
    if m > 0 {
      IndicesExact(n, level, m - 1);
    }
  }

  /**
   * The constructor's map: a level is present exactly when some input below
   * m is on it, and its list is the wire's column over that level's inputs,
   * in increasing order.
   */
  lemma {:induction false} BuiltIsIndices(n: nat, wire: nat, m: nat, level: nat)
    requires 1 <= wire <= n && m <= Pow2(n)
    ensures level in Built(n, wire, m) <==> |Indices(n, level, m)| > 0
    ensures level in Built(n, wire, m) ==>
      Built(n, wire, m)[level] == seq(|Indices(n, level, m)|, k requires 0 <= k < |Indices(n, level, m)| =>
        Column(n, wire, Indices(n, level, m)[k]))
  {
    if m > 0 {
      BuiltIsIndices(n, wire, m - 1, level);
      var here := LevelBelow(n, m - 1);
      if here == level {
        var idx := Indices(n, level, m - 1);
        assert Indices(n, level, m) == idx + [m - 1];
      }
    }
  }

  /** Every input below 2^n lands on one of the levels 1 .. n + 1, and each of them is used. */
  lemma LatticeLevels(n: nat, wire: nat, level: nat)
    requires 1 <= wire <= n
    ensures level in Built(n, wire, Pow2(n)) <==> 1 <= level <= n + 1
  {
    BuiltIsIndices(n, wire, Pow2(n), level);
    IndicesExact(n, level, Pow2(n));
    var idx := Indices(n, level, Pow2(n));
    if |idx| > 0 {
      var i := idx[0];
      assert LevelBelow(n, i) == level;
    }
    if 1 <= level <= n + 1 {
      var k := n + 1 - level;
      PopcountMersenne(k);
      MersenneBelow(k, n);
      assert Level(n, Pow2(k) - 1) == level;
      assert Pow2(k) - 1 in idx;
    }
  }

  lemma {:induction false} MersenneBelow(k: nat, n: nat)
    requires k <= n
    ensures Pow2(k) <= Pow2(n)
    decreases n
  {
    if k < n {
      MersenneBelow(k, n - 1);
    }
  }

  /** Two lattices on the same number of wires have the same levels, of the same lengths. */
  lemma LatticesAlike(n: nat, w1: nat, w2: nat, level: nat)
    requires 1 <= w1 <= n && 1 <= w2 <= n
    ensures level in Built(n, w1, Pow2(n)) <==> level in Built(n, w2, Pow2(n))
    ensures level in Built(n, w1, Pow2(n)) ==> |Built(n, w1, Pow2(n))[level]| == |Built(n, w2, Pow2(n))[level]|
  {
    BuiltIsIndices(n, w1, Pow2(n), level);
    BuiltIsIndices(n, w2, Pow2(n), level);
  }

  /**
   * After a comparator the upper wire's value is at most the lower one's at
   * every shared position, and the pair still holds as many trues as before.
   */
  lemma CombinePointwise(a: seq<bool>, b: seq<bool>)
    requires |a| <= |b|
    ensures |And(a, b)| == |a| && |Or(a, b)| == |b|
    ensures forall j :: 0 <= j < |a| ==> (And(a, b)[j] ==> Or(a, b)[j])
    ensures forall j :: 0 <= j < |a| ==>
      (if And(a, b)[j] then 1 else 0) + (if Or(a, b)[j] then 1 else 0) == (if a[j] then 1 else 0) + (if b[j] then 1 else 0)
    ensures forall j :: |a| <= j < |b| ==> Or(a, b)[j] == b[j]
  {
  }

  /** Applying the same comparator a second time changes neither lattice. */
  lemma CombineIdempotent(a: map<nat, seq<bool>>, b: map<nat, seq<bool>>)
    requires Covers(a, b)
    ensures Covers(AndLevels(a, b), OrLevels(a, b))
    ensures AndLevels(AndLevels(a, b), OrLevels(a, b)) == AndLevels(a, b)
    ensures OrLevels(AndLevels(a, b), OrLevels(a, b)) == OrLevels(a, b)
  {
    var a2 := AndLevels(a, b);
    var b2 := OrLevels(a, b);
    forall level | level in a2
      ensures And(a2[level], b2[level]) == a2[level]
      ensures Or(a2[level], b2[level]) == b2[level]
    {
      var x := a[level];
      var y := b[level];
      assert And(And(x, y), Or(x, y)) == And(x, y);
      assert Or(And(x, y), Or(x, y)) == Or(x, y);
    }
  }
}
