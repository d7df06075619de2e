/**
 * Helpers around the 0/1 engine: the first 32 comparators of Green's
 * 16-wire sorting network, random networks, and the hill-climbing mutation.
 * Every random number is a parameter: `Draw(index, top, bottom)` holds the
 * three nextInt results one comparator consumes.
 */
module NetworkUtilities {
  import opened Binary
  import opened Comparators
  import opened Networks

  /** Green32, layer 1: neighbouring wires (0,1), (2,3), ..., (14,15). */
  function Layer1(): (cs: seq<Comparator>)
    ensures |cs| == 8
  {
    seq(8, k => Create(2 * k, 2 * k + 1))
  }

  /** Layer 2: (0,2), (1,3), (4,6), (5,7), ... within each block of four. */
  function Layer2(): (cs: seq<Comparator>)
    ensures |cs| == 8
  {
    seq(8, k => if k % 2 == 0 then Create(2 * k, 2 * k + 2) else Create(2 * k - 1, 2 * k + 1))
  }

  /** Layer 3: (0,4), (8,12), (1,5), (9,13), ... four apart within each half. */
  function Layer3(): (cs: seq<Comparator>)
    ensures |cs| == 8
  {
    seq(8, k => if k % 2 == 0 then Create(k / 2, k / 2 + 4) else Create(k / 2 + 8, k / 2 + 12))
  }

  /** Layer 4: (0,8), (1,9), ..., (7,15), across the halves. */
  function Layer4(): (cs: seq<Comparator>)
    ensures |cs| == 8
  {
    seq(8, k => Create(k, k + 8))
  }

  /** The first 32 comparators of Green's sorting network on 16 wires, in insertion order. */
  function Green32(): (cs: seq<Comparator>)
    ensures |cs| == 32 && InRange(cs, 16)
  {
    LayersShape();
    Layer1() + Layer2() + Layer3() + Layer4()
  }

  /** Every layer joins two distinct wires among the 16, top above bottom. */
  lemma LayersShape()
    ensures forall k :: 0 <= k < 8 ==> 0 <= Layer1()[k].topWire < Layer1()[k].bottomWire < 16
    ensures forall k :: 0 <= k < 8 ==> 0 <= Layer2()[k].topWire < Layer2()[k].bottomWire < 16
    ensures forall k :: 0 <= k < 8 ==> 0 <= Layer3()[k].topWire < Layer3()[k].bottomWire < 16
    ensures forall k :: 0 <= k < 8 ==> 0 <= Layer4()[k].topWire < Layer4()[k].bottomWire < 16
  {
  }

  /** createGreen32: a fresh 16-wire network, then one loop per layer. */
  method CreateGreen32() returns (green32: ComparisonNetwork)
    ensures fresh(green32) && fresh(green32.network)
    ensures green32.numWires == 16 && green32.network.items == Green32()
  {
    var NUM_WIRES := 16;
    green32 := new ComparisonNetwork(NUM_WIRES);
    AddLayer1(green32);
    AddLayer2(green32);
    AddLayer3(green32);
    AddLayer4(green32);
  }

  /** The first loop of createGreen32: neighbouring pairs. */
  method AddLayer1(green32: ComparisonNetwork)
    modifies green32.network
    ensures green32.network.items == old(green32.network.items) + Layer1()
  {
    ghost var done := green32.network.items;
    var i := 0;
    while i < 16
      invariant 0 <= i <= 16 && i % 2 == 0
      invariant green32.network.items == done + Layer1()[..i / 2]
    {
      Layer1Step(i);
      green32.AddComparator(i, i + 1);
      i := i + 2;
    }
  }

  /** The second loop: pairs two apart in each block of four. */
  method AddLayer2(green32: ComparisonNetwork)
    modifies green32.network
    ensures green32.network.items == old(green32.network.items) + Layer2()
  {
    ghost var done := green32.network.items;
    var i := 0;
    while i < 16
      invariant 0 <= i <= 16 && i % 4 == 0
      invariant green32.network.items == done + Layer2()[..i / 2]
    {
      Layer2Step(i);
      green32.AddComparator(i, i + 2);
      green32.AddComparator(i + 1, i + 3);
      i := i + 4;
    }
  }

  /** The third loop: pairs four apart within each half. */
  method AddLayer3(green32: ComparisonNetwork)
    modifies green32.network
    ensures green32.network.items == old(green32.network.items) + Layer3()
  {
    ghost var done := green32.network.items;
    var i := 0;
    while i < 4
      invariant 0 <= i <= 4
      invariant green32.network.items == done + Layer3()[..2 * i]
    {
      Layer3Step(i);
      green32.AddComparator(i, i + 4);
      green32.AddComparator(i + 8, i + 12);
      i := i + 1;
    }
  }

  /** The fourth loop: pairs eight apart, across the halves. */
  method AddLayer4(green32: ComparisonNetwork)
    modifies green32.network
    ensures green32.network.items == old(green32.network.items) + Layer4()
  {
    ghost var done := green32.network.items;
    var i := 0;
    while i < 8
      invariant 0 <= i <= 8
      invariant green32.network.items == done + Layer4()[..i]
    {
      Layer4Step(i);
      green32.AddComparator(i, i + 8);
      i := i + 1;
    }
  }

  lemma Layer1Step(i: int)
    requires 0 <= i < 16 && i % 2 == 0
    ensures Layer1()[..i / 2] + [Create(i, i + 1)] == Layer1()[..(i + 2) / 2]
  {
    assert (i + 2) / 2 == i / 2 + 1;
  }

  lemma Layer2Step(i: int)
    requires 0 <= i < 16 && i % 4 == 0
    ensures Layer2()[..i / 2] + [Create(i, i + 2), Create(i + 1, i + 3)] == Layer2()[..(i + 4) / 2]
  {
    var k := i / 2;
    assert (i + 4) / 2 == k + 2 && k % 2 == 0;
    assert Layer2()[..k + 2] == Layer2()[..k] + [Layer2()[k], Layer2()[k + 1]];
  }

  lemma Layer3Step(i: int)
    requires 0 <= i < 4
    ensures Layer3()[..2 * i] + [Create(i, i + 4), Create(i + 8, i + 12)] == Layer3()[..2 * (i + 1)]
  {
    var k := 2 * i;
    assert Layer3()[..k + 2] == Layer3()[..k] + [Layer3()[k], Layer3()[k + 1]];
  }

  lemma Layer4Step(i: int)
    requires 0 <= i < 8
    ensures Layer4()[..i] + [Create(i, i + 8)] == Layer4()[..i + 1]
  {
  }

  /** Green32 has 32 comparators, each joining two distinct wires among the 16, top above bottom. */
  lemma Green32Shape()
    ensures |Green32()| == 32
    ensures InRange(Green32(), 16)
    ensures forall k :: 0 <= k < 32 ==> Green32()[k].topWire < Green32()[k].bottomWire
  {
    var g := Green32();
    forall k | 0 <= k < 32
      ensures 0 <= g[k].topWire < g[k].bottomWire < 16
    {
      if k < 8 {
        assert g[k] == Layer1()[k];
      } else if k < 16 {
        assert g[k] == Layer2()[k - 8];
      } else if k < 24 {
        assert g[k] == Layer3()[k - 16];
      } else {
        assert g[k] == Layer4()[k - 24];
      }
    }
  }

  /** getGreen32Outputs: every unsorted output of Green32 over all 2^16 inputs. */
  method GetGreen32Outputs() returns (outputs: set<seq<int>>)
    ensures outputs == UnsortedAll(Green32(), 16)
  {
    var green32 := CreateGreen32();
    outputs := green32.OperateOnAllBinary();
  }

  /** The three random numbers one comparator of createRandomNetwork consumes. */
  datatype Draw = Draw(index: int, top: int, bottom: int)

  /** The draws are the values nextInt(i + 1), nextInt(numWires), nextInt(numWires) can return. */
  predicate ValidDraws(draws: seq<Draw>, numWires: int)
  {
    forall i :: 0 <= i < |draws| ==>
      0 <= draws[i].index <= i && 0 <= draws[i].top < numWires && 0 <= draws[i].bottom < numWires
  }

  /** The list after inserting each drawn comparator at its drawn index. */
  function InsertAll(draws: seq<Draw>): (cs: seq<Comparator>)
    requires forall i :: 0 <= i < |draws| ==> 0 <= draws[i].index <= i
    ensures |cs| == |draws|
  {
    if draws == [] then []
    else
      var prev := InsertAll(draws[..|draws| - 1]);
      var d := draws[|draws| - 1];
      prev[..d.index] + [Create(d.top, d.bottom)] + prev[d.index..]
  }

  /** The comparators a sequence of draws creates, in draw order. */
  function Drawn(draws: seq<Draw>): (cs: seq<Comparator>)
    ensures |cs| == |draws|
  {
    seq(|draws|, i requires 0 <= i < |draws| => Create(draws[i].top, draws[i].bottom))
  }

  /**
   * createRandomNetwork: numComparators comparators, each inserted at a random
   * index among the ones already there, with random wires.
   */
  method CreateRandomNetwork(numWires: int, numComparators: int, draws: seq<Draw>) returns (randomNetwork: ComparisonNetwork)
    requires |draws| == if numComparators < 0 then 0 else numComparators
    requires ValidDraws(draws, numWires)
    ensures fresh(randomNetwork) && fresh(randomNetwork.network)
    ensures randomNetwork.numWires == numWires
    ensures randomNetwork.network.items == InsertAll(draws)
  {
    randomNetwork := new ComparisonNetwork(numWires);
    var i := 0;
    while i < numComparators
      invariant 0 <= i <= |draws|
      invariant fresh(randomNetwork) && fresh(randomNetwork.network)
      invariant randomNetwork.numWires == numWires
      invariant randomNetwork.network.items == InsertAll(draws[..i])
    {
      var d := draws[i];
      assert draws[..i + 1][..i] == draws[..i];
      randomNetwork.AddComparatorAt(d.index, d.top, d.bottom);
      i := i + 1;
    }
    assert draws[..i] == draws;
  }

  /** A random network holds exactly the drawn comparators, in some order. */
  lemma {:induction false} RandomNetworkContents(draws: seq<Draw>)
    requires forall i :: 0 <= i < |draws| ==> 0 <= draws[i].index <= i
    ensures multiset(InsertAll(draws)) == multiset(Drawn(draws))
  {
    if draws != [] {
      var n := |draws|;
      var prefix := draws[..n - 1];
      RandomNetworkContents(prefix);
      var prev := InsertAll(prefix);
      var d := draws[n - 1];
      var c := Create(d.top, d.bottom);
      assert InsertAll(draws) == prev[..d.index] + [c] + prev[d.index..];
      InsertKeepsOthers(prev, d.index, c);
      DrawnStep(draws);
      assert multiset(Drawn(draws)) == multiset(Drawn(prefix)) + multiset{c};
    }
  }

  lemma DrawnStep(draws: seq<Draw>)
    requires draws != []
    ensures var d := draws[|draws| - 1];
      Drawn(draws) == Drawn(draws[..|draws| - 1]) + [Create(d.top, d.bottom)]
  {
  }

  lemma InsertKeepsOthers(prev: seq<Comparator>, k: int, c: Comparator)
    requires 0 <= k <= |prev|
    ensures multiset(prev[..k] + [c] + prev[k..]) == multiset(prev) + multiset{c}
  {
    assert prev == prev[..k] + prev[k..];
  }

  /** Every comparator of a random network lies within the wires, top above bottom. */
  lemma {:induction false} RandomNetworkWires(draws: seq<Draw>, numWires: int)
    requires ValidDraws(draws, numWires)
    ensures InRange(InsertAll(draws), numWires)
    ensures forall i :: 0 <= i < |draws| ==> InsertAll(draws)[i].topWire <= InsertAll(draws)[i].bottomWire
  {
    if draws != [] {
      var n := |draws|;
      var prefix := draws[..n - 1];
      assert ValidDraws(prefix, numWires);
      RandomNetworkWires(prefix, numWires);
      var prev := InsertAll(prefix);
      var d := draws[n - 1];
      var c := Create(d.top, d.bottom);
      var cs := InsertAll(draws);
      forall i | 0 <= i < n
        ensures 0 <= cs[i].topWire <= cs[i].bottomWire < numWires
      {
        if i < d.index {
          assert cs[i] == prev[i];
        } else if i > d.index {
          assert cs[i] == prev[i - 1];
        } else {
          assert cs[i] == c;
        }
      }
    }
  }

  /**
   * hillClimbMutate: the "new" network is built over the argument's own list,
   * so replacing a comparator in it rewrites the argument's list as well.
   */
  method HillClimbMutate(networkToMutate: ComparisonNetwork, randComparatorIndex: int, topIndex: int, bottomIndex: int)
    returns (newNetwork: ComparisonNetwork)
    requires 0 <= randComparatorIndex < networkToMutate.Size()
    requires 0 <= topIndex < networkToMutate.numWires && 0 <= bottomIndex < networkToMutate.numWires
    modifies networkToMutate.network
    ensures fresh(newNetwork)
    ensures newNetwork.network == networkToMutate.network
    ensures newNetwork.numWires == networkToMutate.numWires
    ensures networkToMutate.network.items
         == old(networkToMutate.network.items)[randComparatorIndex := Create(topIndex, bottomIndex)]
  {
    newNetwork := new ComparisonNetwork.WithList(networkToMutate.numWires, networkToMutate.network);
    var mutatedComparator := Create(topIndex, bottomIndex);
    newNetwork.Replace(randComparatorIndex, mutatedComparator);
  }

  /** A mutation keeps the size and the wire range, and changes at most the chosen comparator. */
  lemma MutationKeepsShape(cs: seq<Comparator>, numWires: int, index: int, top: int, bottom: int)
    requires InRange(cs, numWires) && 0 <= index < |cs|
    requires 0 <= top < numWires && 0 <= bottom < numWires
    ensures var m := cs[index := Create(top, bottom)];
      |m| == |cs| && InRange(m, numWires) &&
      (forall i :: 0 <= i < |cs| && i != index ==> m[i] == cs[i]) &&
      m[index].topWire <= m[index].bottomWire
  {
  }
}
