/**
 * The two hand-written Green32 prefixes agree. The list engine's getGreen32
 * adds the third layer as (0,4), (1,5), (2,6), (3,7), (8,12), ..., while the
 * 0/1 engine's createGreen32 interleaves the two halves: (0,4), (8,12),
 * (1,5), .... The comparators of that layer touch disjoint wires, so the order
 * does not matter, and on 0/1 inputs the list engine's exchange is the 0/1
 * engine's compare-swap: both networks give the same output on every input
 * and therefore the same fitness set.
 */
module Green32Agreement {
  import opened Binary
  import opened BinarySequences
  import JC = Comparators
  import JN = Networks
  import JU = NetworkUtilities
  import CC = SensoComparators
  import CN = ListNetworks
  import T = Tester

  /** A comparator of the list engine read as one of the 0/1 engine, on the same two wires. */
  function Convert(c: CC.Comparator): JC.Comparator
  {
    JC.Comparator(c.wireOne, c.wireTwo)
  }

  function ConvertAll(cs: seq<CC.Comparator>): (r: seq<JC.Comparator>)
    ensures |r| == |cs| && forall i :: 0 <= i < |cs| ==> r[i] == Convert(cs[i])
  {
    seq(|cs|, i requires 0 <= i < |cs| => Convert(cs[i]))
  }

  /** On 0/1 values the exchange of run is the compare-swap of sort, whatever the order of the wires. */
  lemma SwapIsCompareSwap(s: seq<int>, c: CC.Comparator)
    requires IsBinary(s) && 0 <= c.wireOne < |s| && 0 <= c.wireTwo < |s|
    ensures CN.Swap(s, c) == CompareSwap(s, c.wireOne, c.wireTwo)
    ensures IsBinary(CN.Swap(s, c))
  {
  }

  /** On 0/1 inputs the list engine and the 0/1 engine compute the same outputs for the same comparators. */
  lemma {:induction false} ApplyAgree(cs: seq<CC.Comparator>, s: seq<int>)
    requires IsBinary(s) && CN.Fits(cs, |s|)
    ensures JN.InRange(ConvertAll(cs), |s|)
    ensures CN.Apply(cs, s) == JN.Apply(ConvertAll(cs), s) && IsBinary(CN.Apply(cs, s))
  {
    if cs != [] {
      var p := cs[..|cs| - 1];
      var c := cs[|cs| - 1];
      assert CN.Fits(p, |s|);
      ApplyAgree(p, s);
      assert ConvertAll(cs)[..|cs| - 1] == ConvertAll(p);
      SwapIsCompareSwap(CN.Apply(p, s), c);
    }
  }

  /** Running a concatenation runs the first part, then the second. */
  lemma {:induction false} ApplyAppend(a: seq<JC.Comparator>, b: seq<JC.Comparator>, s: seq<int>)
    requires JN.InRange(a, |s|) && JN.InRange(b, |s|)
    ensures JN.InRange(a + b, |s|)
    ensures JN.Apply(a + b, s) == JN.Apply(b, JN.Apply(a, s))
  {
    if b != [] {
      var p := b[..|b| - 1];
      assert (a + b)[..|a + b| - 1] == a + p;
      ApplyAppend(a, p, s);
    } else {
      assert a + b == a;
    }
  }

  /** Both wires of the comparator are among the first n. */
  predicate WiresFit(c: JC.Comparator, n: int)
  {
    0 <= c.topWire < n && 0 <= c.bottomWire < n
  }

  /** The two comparators share no wire. */
  predicate Disjoint(x: JC.Comparator, y: JC.Comparator)
  {
    x.topWire != y.topWire && x.topWire != y.bottomWire && x.bottomWire != y.topWire && x.bottomWire != y.bottomWire
  }

  /** The comparators applied first to last, passing over any whose wires do not fit. */
  function Sweep(cs: seq<JC.Comparator>, s: seq<int>): (r: seq<int>)
    ensures |r| == |s|
  {
    if cs == [] then s
    else
      var t := Sweep(cs[..|cs| - 1], s);
      var c := cs[|cs| - 1];
      if WiresFit(c, |t|) then CompareSwap(t, c.topWire, c.bottomWire) else t
  }

  /** Where every comparator fits, the sweep is the network's evaluation. */
  lemma {:induction false} SweepIsApply(cs: seq<JC.Comparator>, s: seq<int>)
    requires JN.InRange(cs, |s|)
    ensures Sweep(cs, s) == JN.Apply(cs, s)
  {
    if cs != [] {
      SweepIsApply(cs[..|cs| - 1], s);
    }
  }

  /** Sweeping a concatenation sweeps the first part, then the second. */
  lemma {:induction false} SweepAppend(a: seq<JC.Comparator>, b: seq<JC.Comparator>, s: seq<int>)
    ensures Sweep(a + b, s) == Sweep(b, Sweep(a, s))
  {
    if b != [] {
      assert (a + b)[..|a + b| - 1] == a + b[..|b| - 1];
      SweepAppend(a, b[..|b| - 1], s);
    } else {
      assert a + b == a;
    }
  }

  /** Compare-swaps on disjoint wires commute. */
  lemma CompareSwapsCommute(s: seq<int>, x: JC.Comparator, y: JC.Comparator)
    requires WiresFit(x, |s|) && WiresFit(y, |s|) && Disjoint(x, y)
    ensures CompareSwap(CompareSwap(s, x.topWire, x.bottomWire), y.topWire, y.bottomWire)
         == CompareSwap(CompareSwap(s, y.topWire, y.bottomWire), x.topWire, x.bottomWire)
  {
  }

  /** Exchanging two neighbouring comparators on disjoint wires leaves every output unchanged. */
  lemma SwapNeighbours(p: seq<JC.Comparator>, x: JC.Comparator, y: JC.Comparator, q: seq<JC.Comparator>, s: seq<int>)
    requires Disjoint(x, y)
    ensures Sweep(p + [x, y] + q, s) == Sweep(p + [y, x] + q, s)
  {
    var t := Sweep(p, s);
    SweepPair(x, y, t);
    SweepPair(y, x, t);
    SweepAppend(p, [x, y], s);
    SweepAppend(p + [x, y], q, s);
    SweepAppend(p, [y, x], s);
    SweepAppend(p + [y, x], q, s);
    if WiresFit(x, |t|) && WiresFit(y, |t|) {
      CompareSwapsCommute(t, x, y);
    }
  }

  /** A sweep of two comparators: the first, then the second, each only where it fits. */
  lemma SweepPair(x: JC.Comparator, y: JC.Comparator, t: seq<int>)
    ensures var u := if WiresFit(x, |t|) then CompareSwap(t, x.topWire, x.bottomWire) else t;
      Sweep([x, y], t) == if WiresFit(y, |t|) then CompareSwap(u, y.topWire, y.bottomWire) else u
  {
    assert [x][..0] == [];
    assert Sweep([x], t) == if WiresFit(x, |t|) then CompareSwap(t, x.topWire, x.bottomWire) else t;
    assert [x, y][..1] == [x];
  }

  /** The third layer in the list engine's order. */
  function Layer3ByHalves(): seq<JC.Comparator>
  {
    [JC.Comparator(0, 4), JC.Comparator(1, 5), JC.Comparator(2, 6), JC.Comparator(3, 7),
     JC.Comparator(8, 12), JC.Comparator(9, 13), JC.Comparator(10, 14), JC.Comparator(11, 15)]
  }

  /**
   * Six exchanges of neighbours turn the interleaving a0 b0 a1 b1 a2 b2 a3 b3
   * into a0 a1 a2 a3 b0 b1 b2 b3 without changing any output, when no a
   * shares a wire with a b that it passes.
   */
  lemma Uninterleave(a0: JC.Comparator, a1: JC.Comparator, a2: JC.Comparator, a3: JC.Comparator,
                     b0: JC.Comparator, b1: JC.Comparator, b2: JC.Comparator, b3: JC.Comparator, s: seq<int>)
    requires Disjoint(b0, a1) && Disjoint(b0, a2) && Disjoint(b0, a3)
    requires Disjoint(b1, a2) && Disjoint(b1, a3) && Disjoint(b2, a3)
    ensures Sweep([a0, b0, a1, b1, a2, b2, a3, b3], s) == Sweep([a0, a1, a2, a3, b0, b1, b2, b3], s)
  {
    var l0 := [a0, b0, a1, b1, a2, b2, a3, b3];
    var l1 := [a0, a1, b0, b1, a2, b2, a3, b3];
    var l2 := [a0, a1, b0, a2, b1, b2, a3, b3];
    var l3 := [a0, a1, a2, b0, b1, b2, a3, b3];
    var l4 := [a0, a1, a2, b0, b1, a3, b2, b3];
    var l5 := [a0, a1, a2, b0, a3, b1, b2, b3];
    var l6 := [a0, a1, a2, a3, b0, b1, b2, b3];
    SwapNeighbours([a0], b0, a1, [b1, a2, b2, a3, b3], s);
    assert [a0] + [b0, a1] + [b1, a2, b2, a3, b3] == l0 && [a0] + [a1, b0] + [b1, a2, b2, a3, b3] == l1;
    SwapNeighbours([a0, a1, b0], b1, a2, [b2, a3, b3], s);
    assert [a0, a1, b0] + [b1, a2] + [b2, a3, b3] == l1 && [a0, a1, b0] + [a2, b1] + [b2, a3, b3] == l2;
    SwapNeighbours([a0, a1], b0, a2, [b1, b2, a3, b3], s);
    assert [a0, a1] + [b0, a2] + [b1, b2, a3, b3] == l2 && [a0, a1] + [a2, b0] + [b1, b2, a3, b3] == l3;
    SwapNeighbours([a0, a1, a2, b0, b1], b2, a3, [b3], s);
    assert [a0, a1, a2, b0, b1] + [b2, a3] + [b3] == l3 && [a0, a1, a2, b0, b1] + [a3, b2] + [b3] == l4;
    SwapNeighbours([a0, a1, a2, b0], b1, a3, [b2, b3], s);
    assert [a0, a1, a2, b0] + [b1, a3] + [b2, b3] == l4 && [a0, a1, a2, b0] + [a3, b1] + [b2, b3] == l5;
    SwapNeighbours([a0, a1, a2], b0, a3, [b1, b2, b3], s);
    assert [a0, a1, a2] + [b0, a3] + [b1, b2, b3] == l5 && [a0, a1, a2] + [a3, b0] + [b1, b2, b3] == l6;
  }

  /** The third layer of createGreen32 and of getGreen32 have the same effect. */
  lemma Layer3Reorder(s: seq<int>)
    requires |s| >= 16
    ensures JN.InRange(JU.Layer3(), |s|) && JN.InRange(Layer3ByHalves(), |s|)
    ensures JN.Apply(JU.Layer3(), s) == JN.Apply(Layer3ByHalves(), s)
  {
    var a0, a1, a2, a3 := JC.Comparator(0, 4), JC.Comparator(1, 5), JC.Comparator(2, 6), JC.Comparator(3, 7);
    var b0, b1, b2, b3 := JC.Comparator(8, 12), JC.Comparator(9, 13), JC.Comparator(10, 14), JC.Comparator(11, 15);
    Uninterleave(a0, a1, a2, a3, b0, b1, b2, b3, s);
    assert JU.Layer3() == [a0, b0, a1, b1, a2, b2, a3, b3];
    JU.LayersShape();
    SweepIsApply(JU.Layer3(), s);
    SweepIsApply(Layer3ByHalves(), s);
  }

  /** getGreen32's list, read in the 0/1 engine, is createGreen32's with the third layer by halves. */
  lemma ConvertGreen32()
    ensures ConvertAll(T.Green32Layers()) == JU.Layer1() + JU.Layer2() + Layer3ByHalves() + JU.Layer4()
  {
    var c := ConvertAll(T.Green32Layers());
    var j := JU.Layer1() + JU.Layer2() + Layer3ByHalves() + JU.Layer4();
    forall i | 0 <= i < 8 ensures c[i] == j[i] {
      assert j[i] == JU.Layer1()[i];
    }
    forall i | 8 <= i < 16 ensures c[i] == j[i] {
      assert j[i] == JU.Layer2()[i - 8];
    }
    forall i | 16 <= i < 24 ensures c[i] == j[i] {
      assert j[i] == Layer3ByHalves()[i - 16];
    }
    forall i | 24 <= i < 32 ensures c[i] == j[i] {
      assert j[i] == JU.Layer4()[i - 24];
    }
  }

  /**
   * getGreen32 and createGreen32 produce the same output on every 16-wire
   * 0/1 input.
   */
  lemma Green32Agree(s: seq<int>)
    requires |s| == 16 && IsBinary(s)
    ensures CN.Fits(T.Green32Layers(), |s|) && JN.InRange(JU.Green32(), |s|)
    ensures CN.Apply(T.Green32Layers(), s) == JN.Apply(JU.Green32(), s)
  {
    T.Green32Shape();
    ApplyAgree(T.Green32Layers(), s);
    ConvertGreen32();
    JU.LayersShape();
    var l1, l2, l3, l4 := JU.Layer1(), JU.Layer2(), JU.Layer3(), JU.Layer4();
    ApplyAppend(l1, l2, s);
    var t := JN.Apply(l1 + l2, s);
    Layer3Reorder(t);
    ApplyAppend(l1 + l2, l3, s);
    ApplyAppend(l1 + l2 + l3, l4, s);
    ApplyAppend(l1 + l2, Layer3ByHalves(), s);
    ApplyAppend(l1 + l2 + Layer3ByHalves(), l4, s);
  }

  /** Hence both prefixes leave the same unsorted outputs over any set of 16-wire 0/1 inputs. */
  lemma Green32SameOutputs(inputs: set<seq<int>>)
    requires forall s :: s in inputs ==> |s| == 16 && IsBinary(s)
    ensures CN.UnsortedOf(T.Green32Layers(), inputs) == JN.UnsortedOutputs(JU.Green32(), inputs)
  {
    forall s | s in inputs
      ensures CN.Fits(T.Green32Layers(), |s|) && JN.InRange(JU.Green32(), |s|)
      ensures CN.Apply(T.Green32Layers(), s) == JN.Apply(JU.Green32(), s)
    {
      Green32Agree(s);
    }
  }
}
