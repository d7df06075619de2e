/**
 * The comparison network of the 0/1 engine: an ordered list of comparators
 * over a number of wires, and its evaluation on a set of inputs or on every
 * input. The list is a separate object (a java.util.ArrayList), so that two
 * networks built over the same list share it, as they do in the source.
 */
module Networks {
  import opened Binary
  import opened BinarySequences
  import opened Comparators

  /** Every comparator has both wires in [0, n). */
  predicate InRange(cs: seq<Comparator>, n: int)
  {
    forall i :: 0 <= i < |cs| ==> 0 <= cs[i].topWire < n && 0 <= cs[i].bottomWire < n
  }

  /** The network's effect on one input: the comparators applied first to last. */
  function Apply(cs: seq<Comparator>, s: seq<int>): (r: seq<int>)
    requires InRange(cs, |s|)
    ensures |r| == |s|
  {
    if cs == [] then s
    else
      var c := cs[|cs| - 1];
      CompareSwap(Apply(cs[..|cs| - 1], s), c.topWire, c.bottomWire)
  }

  /**
   * The fitness set: every output that is not sorted, over the given inputs
   * (inputs the comparators do not fit are never evaluated).
   */
  function UnsortedOutputs(cs: seq<Comparator>, inputs: set<seq<int>>): set<seq<int>>
  {
    set s | s in inputs && InRange(cs, |s|) && !Sorted(Apply(cs, s)) :: Apply(cs, s)
  }

  /** The unsorted outputs produced by the n-bit inputs with values in [lo, hi), gathered in counting order. */
  function UnsortedBetween(cs: seq<Comparator>, n: nat, lo: nat, hi: nat): set<seq<int>>
    requires InRange(cs, n)
    decreases hi - lo
  {
    if hi <= lo then {}
    else
      var out := Apply(cs, ToBits(hi - 1, n));
      UnsortedBetween(cs, n, lo, hi - 1) + (if Sorted(out) then {} else {out})
  }

  /** The non-zero inputs on n wires, as the counter spells them. */
  function NonZeroInputs(n: nat): set<seq<int>>
  {
    set v | 1 <= v < Pow2(n) :: ToBits(v, n)
  }

  /** The fitness set over all 2^n inputs (the all-zero input is sorted by every network). */
  function UnsortedAll(cs: seq<Comparator>, n: nat): set<seq<int>>
    requires InRange(cs, n)
  {
    UnsortedBetween(cs, n, 1, Pow2(n))
  }

  /** The java.util.ArrayList holding a network's comparators. */
  class ComparatorList {
    var items: seq<Comparator>

    constructor ()
      ensures items == []
    {
      items := [];
    }
  }

  class ComparisonNetwork {
    const network: ComparatorList
    var numWires: int

    /** A network over an existing list, which it shares (not copies). */
    constructor WithList(numWires: int, comparators: ComparatorList)
      ensures this.numWires == numWires && network == comparators
    {
      this.numWires := numWires;
      network := comparators;
    }

    /** An empty network over a fresh list. */
    constructor (numWires: int)
      ensures this.numWires == numWires && fresh(network) && network.items == []
    {
      this.numWires := numWires;
      network := new ComparatorList();
    }

    function Size(): nat
      reads this, network
    {
      |network.items|
    }

    /** Runs the input through every comparator in list order, in place. */
    method OperateOnOneBinary(binarySequence: BinarySequence)
      requires InRange(network.items, binarySequence.bits.Length)
      modifies binarySequence.bits
      ensures binarySequence.bits[..] == Apply(network.items, old(binarySequence.bits[..]))
    {
      var cs := network.items;
      ghost var input := binarySequence.bits[..];
      var k := 0;
      while k < |cs|
        invariant 0 <= k <= |cs|
        invariant binarySequence.bits[..] == Apply(cs[..k], input)
      {
        assert cs[..k + 1][..k] == cs[..k];
        cs[k].Sort(binarySequence);
        k := k + 1;
      }
      assert cs[..k] == cs;
    }

    /** The body of both evaluation loops: a copy of the input is run through the network and checked for sortedness. */
    method RunCopy(input: array<int>) returns (output: seq<int>, sorted: bool)
      requires InRange(network.items, input.Length)
      ensures output == Apply(network.items, input[..]) && (sorted <==> Sorted(output))
    {
      var testSeq := new BinarySequence.Clone(input);
      OperateOnOneBinary(testSeq);
      sorted := testSeq.IsSorted();
      output := testSeq.bits[..];
    }

    /**
     * Evaluates a copy of each input and collects the outputs left unsorted.
     * It modifies no existing object: the inputs are only read.
     */
    method OperateOnTheseBinary(binarySequences: set<seq<int>>) returns (unsortedOutputs: set<seq<int>>)
      requires forall s :: s in binarySequences ==> InRange(network.items, |s|)
      ensures unsortedOutputs == UnsortedOutputs(network.items, binarySequences)
    {
      var cs := network.items;
      unsortedOutputs := {};
      var remaining := binarySequences;
      while remaining != {}
        invariant remaining <= binarySequences
        invariant unsortedOutputs == UnsortedOutputs(cs, binarySequences - remaining)
        decreases remaining
      {
        var s :| s in remaining;
        var stored := new int[|s|](i requires 0 <= i < |s| => s[i]);
        assert stored[..] == s;
        var output, sorted := RunCopy(stored);
        UnsortedOutputsStep(cs, binarySequences, remaining, s, output, sorted, unsortedOutputs);
        if !sorted {
          unsortedOutputs := unsortedOutputs + {output};
        }
        remaining := remaining - {s};
      }
    }

    /**
     * Evaluates every non-zero input on numWires wires, counting upwards from 1
     * until the counter wraps to all zeros.
     */
    method OperateOnAllBinary() returns (unsortedOutputs: set<seq<int>>)
      requires numWires >= 0 && InRange(network.items, numWires)
      ensures unsortedOutputs == UnsortedAll(network.items, numWires)
    {
      var n: nat := numWires;
      var cs := network.items;
      unsortedOutputs := {};
      var counter := new BinarySequence(n);
      counter.IncrementByOne();
      CounterStart(n);
      ghost var v := 1;
      CounterAtZero(v, n);
      var zero := counter.AllZeros();
      while !zero
        invariant counter.bits.Length == n && fresh(counter.bits)
        invariant 1 <= v <= Pow2(n)
        invariant counter.bits[..] == ToBits(v, n)
        invariant zero <==> v == Pow2(n)
        invariant unsortedOutputs == UnsortedBetween(cs, n, 1, v)
        decreases Pow2(n) - v
      {
        unsortedOutputs, zero := EvaluateNext(counter, v, unsortedOutputs);
        v := v + 1;
      }
    }

    /** One pass of that loop: the counter's input is run, and the counter moves on by one. */
    method EvaluateNext(counter: BinarySequence, ghost v: nat, acc: set<seq<int>>)
      returns (unsorted: set<seq<int>>, zero: bool)
      requires numWires >= 0 && InRange(network.items, numWires)
      requires counter.bits.Length == numWires && 1 <= v < Pow2(numWires)
      requires counter.bits[..] == ToBits(v, numWires)
      requires acc == UnsortedBetween(network.items, numWires, 1, v)
      modifies counter.bits
      ensures counter.bits[..] == ToBits(v + 1, numWires)
      ensures zero <==> v + 1 == Pow2(numWires)
      ensures unsorted == UnsortedBetween(network.items, numWires, 1, v + 1)
    {
      var output, sorted := RunCopy(counter.bits);
      unsorted := acc;
      if !sorted {
        unsorted := unsorted + {output};
      }
      counter.IncrementByOne();
      assert counter.bits[..] == ToBits(v + 1, numWires) by {
        IncrementToBits(v, numWires);
      }
      CounterAtZero(v + 1, numWires);
      zero := counter.AllZeros();
    }

    /** Appends a new comparator, its wires put in order. */
    method AddComparator(topWire: int, bottomWire: int)
      modifies network
      ensures network.items == old(network.items) + [Create(topWire, bottomWire)]
    {
      network.items := network.items + [Create(topWire, bottomWire)];
    }

    /** Inserts a new comparator at index i, shifting the later ones back by one. */
    method AddComparatorAt(i: int, topWire: int, bottomWire: int)
      requires 0 <= i <= Size()
      modifies network
      ensures network.items == old(network.items)[..i] + [Create(topWire, bottomWire)] + old(network.items)[i..]
    {
      network.items := network.items[..i] + [Create(topWire, bottomWire)] + network.items[i..];
    }

    /** Overwrites the comparator at index; nothing else changes. */
    method Replace(index: int, c: Comparator)
      requires 0 <= index < Size()
      modifies network
      ensures network.items == old(network.items)[index := c]
    {
      network.items := network.items[index := c];
    }

    /** The "clone": a new network over the SAME list, with numWires set to the size. */
    method Clone() returns (copy: ComparisonNetwork)
      ensures fresh(copy) && copy.network == network && copy.numWires == Size()
    {
      copy := new ComparisonNetwork.WithList(Size(), network);
    }
  }

  /** The counter's first value: one step up from all zeros. */
  lemma CounterStart(n: nat)
    ensures Increment(Zeros(n)) == ToBits(1, n)
  {
    ToBitsZero(n);
    IncrementToBits(0, n);
  }

  /** The all-zero test on the counter holding v (1 <= v <= 2^n) succeeds exactly at the wrap. */
  lemma CounterAtZero(v: nat, n: nat)
    requires 1 <= v <= Pow2(n)
    ensures ToBits(v, n) == Zeros(n) <==> v == Pow2(n)
  {
    if v < Pow2(n) {
      ToBitsAllZero(v, n);
    } else {
      ToBitsPow2(n);
    }
  }

  /** One iteration of the evaluation loop: taking s out of the remaining inputs adds at most its output. */
  lemma UnsortedOutputsStep(cs: seq<Comparator>, inputs: set<seq<int>>, remaining: set<seq<int>>, s: seq<int>,
                            out: seq<int>, sorted: bool, acc: set<seq<int>>)
    requires s in remaining && remaining <= inputs && InRange(cs, |s|)
    requires acc == UnsortedOutputs(cs, inputs - remaining)
    requires out == Apply(cs, s) && (sorted <==> Sorted(out))
    ensures (if sorted then acc else acc + {out}) == UnsortedOutputs(cs, inputs - (remaining - {s}))
  {
    var done := inputs - remaining;
    UnsortedOutputsAdd(cs, done, s);
    assert done + {s} == inputs - (remaining - {s});
  }

  /** Adding one input to the evaluated set adds at most its own output. */
  lemma UnsortedOutputsAdd(cs: seq<Comparator>, done: set<seq<int>>, s: seq<int>)
    ensures UnsortedOutputs(cs, done + {s})
         == UnsortedOutputs(cs, done) + (if InRange(cs, |s|) && !Sorted(Apply(cs, s)) then {Apply(cs, s)} else {})
  {
  }

  /** There are no more unsorted outputs than inputs. */
  lemma {:induction false} UnsortedOutputsBound(cs: seq<Comparator>, inputs: set<seq<int>>)
    ensures |UnsortedOutputs(cs, inputs)| <= |inputs|
    decreases |inputs|
  {
    if inputs != {} {
      var s :| s in inputs;
      var rest := inputs - {s};
      UnsortedOutputsBound(cs, rest);
      UnsortedOutputsAdd(cs, rest, s);
      assert rest + {s} == inputs;
    }
  }

  /** Over all inputs there are at most 2^n - 1 unsorted outputs. */
  lemma {:induction false} UnsortedBetweenBound(cs: seq<Comparator>, n: nat, lo: nat, hi: nat)
    requires InRange(cs, n) && lo <= hi
    ensures |UnsortedBetween(cs, n, lo, hi)| <= hi - lo
    decreases hi - lo
  {
    if lo < hi {
      UnsortedBetweenBound(cs, n, lo, hi - 1);
    }
  }

  lemma UnsortedAllBound(cs: seq<Comparator>, n: nat)
    requires InRange(cs, n)
    ensures |UnsortedAll(cs, n)| <= Pow2(n) - 1
  {
    UnsortedBetweenBound(cs, n, 1, Pow2(n));
  }

  /** Every unsorted output of a counter value in [lo, hi) is gathered. */
  lemma {:induction false} UnsortedBetweenHas(cs: seq<Comparator>, n: nat, lo: nat, hi: nat, v: nat)
    requires InRange(cs, n) && lo <= v < hi
    requires !Sorted(Apply(cs, ToBits(v, n)))
    ensures Apply(cs, ToBits(v, n)) in UnsortedBetween(cs, n, lo, hi)
    decreases hi - lo
  {
    if v < hi - 1 {
      UnsortedBetweenHas(cs, n, lo, hi - 1, v);
    }
  }

  /** Everything gathered is the unsorted output of some counter value in [lo, hi). */
  lemma {:induction false} UnsortedBetweenFrom(cs: seq<Comparator>, n: nat, lo: nat, hi: nat, o: seq<int>)
    returns (v: nat)
    requires InRange(cs, n) && o in UnsortedBetween(cs, n, lo, hi)
    ensures lo <= v < hi && !Sorted(Apply(cs, ToBits(v, n))) && o == Apply(cs, ToBits(v, n))
    decreases hi - lo
  {
    if o in UnsortedBetween(cs, n, lo, hi - 1) {
      v := UnsortedBetweenFrom(cs, n, lo, hi - 1, o);
    } else {
      v := hi - 1;
    }
  }

  /** Evaluating every input gives what evaluating the set of non-zero inputs gives. */
  lemma UnsortedAllIsUnsortedOutputs(cs: seq<Comparator>, n: nat)
    requires InRange(cs, n)
    ensures UnsortedAll(cs, n) == UnsortedOutputs(cs, NonZeroInputs(n))
  {
    forall o | o in UnsortedAll(cs, n) ensures o in UnsortedOutputs(cs, NonZeroInputs(n)) {
      var v := UnsortedBetweenFrom(cs, n, 1, Pow2(n), o);
      assert ToBits(v, n) in NonZeroInputs(n);
    }
    forall o | o in UnsortedOutputs(cs, NonZeroInputs(n)) ensures o in UnsortedAll(cs, n) {
      var s :| s in NonZeroInputs(n) && !Sorted(Apply(cs, s)) && o == Apply(cs, s);
      var v :| 1 <= v < Pow2(n) && s == ToBits(v, n);
      UnsortedBetweenHas(cs, n, 1, Pow2(n), v);
    }
  }

  /** With no comparators the unsorted outputs are exactly the unsorted inputs. */
  lemma EmptyNetworkOutputs(inputs: set<seq<int>>)
    ensures UnsortedOutputs([], inputs) == set s | s in inputs && !Sorted(s)
  {
  }

  /**
   * The counter values 1 .. 2^n - 1 feed pairwise distinct, non-zero inputs,
   * and every non-zero 0/1 input of length n is fed by one of them.
   */
  lemma EnumerationIsBijective(n: nat)
    ensures forall u, v :: 1 <= u < v < Pow2(n) ==> ToBits(u, n) != ToBits(v, n)
    ensures forall v :: 1 <= v < Pow2(n) ==> ToBits(v, n) != Zeros(n)
    ensures forall s :: |s| == n && IsBinary(s) && s != Zeros(n) ==>
      1 <= Value(s) < Pow2(n) && ToBits(Value(s), n) == s
  {
    forall u, v | 1 <= u < v < Pow2(n) ensures ToBits(u, n) != ToBits(v, n) {
      if ToBits(u, n) == ToBits(v, n) {
        ToBitsInjective(u, v, n);
      }
    }
    forall v | 1 <= v < Pow2(n) ensures ToBits(v, n) != Zeros(n) {
      ToBitsAllZero(v, n);
    }
    forall s | |s| == n && IsBinary(s) && s != Zeros(n)
      ensures 1 <= Value(s) < Pow2(n) && ToBits(Value(s), n) == s
    {
      ToBitsOfValue(s);
      ToBitsZero(n);
    }
  }

  /** A network only permutes its input, and keeps 0/1 inputs 0/1. */
  lemma {:induction false} ApplyPermutes(cs: seq<Comparator>, s: seq<int>)
    requires InRange(cs, |s|)
    ensures multiset(Apply(cs, s)) == multiset(s)
    ensures IsBinary(s) ==> IsBinary(Apply(cs, s))
  {
    if cs != [] {
      var c := cs[|cs| - 1];
      var prefix := cs[..|cs| - 1];
      assert InRange(prefix, |s|);
      ApplyPermutes(prefix, s);
      CompareSwapEffect(Apply(prefix, s), c.topWire, c.bottomWire);
      if IsBinary(s) {
        CompareSwapOrders(Apply(prefix, s), c.topWire, c.bottomWire);
      }
    }
  }

  /** The all-zero input leaves every network unchanged, so it never needs to be evaluated. */
  lemma {:induction false} ApplyZeros(cs: seq<Comparator>, n: nat)
    requires InRange(cs, n)
    ensures Apply(cs, Zeros(n)) == Zeros(n)
  {
    if cs != [] {
      var prefix := cs[..|cs| - 1];
      assert InRange(prefix, n);
      ApplyZeros(prefix, n);
    }
  }

  /**
   * The fitness over all inputs is empty exactly when the network sorts every
   * 0/1 input of its width.
   */
  lemma SortsAllIffNoUnsorted(cs: seq<Comparator>, n: nat)
    requires InRange(cs, n)
    ensures UnsortedAll(cs, n) == {} <==>
      forall s :: |s| == n && IsBinary(s) ==> Sorted(Apply(cs, s))
  {
    EnumerationIsBijective(n);
    if UnsortedAll(cs, n) == {} {
      forall s | |s| == n && IsBinary(s) ensures Sorted(Apply(cs, s)) {
        if s == Zeros(n) {
          ApplyZeros(cs, n);
        } else if !Sorted(Apply(cs, s)) {
          UnsortedBetweenHas(cs, n, 1, Pow2(n), Value(s));
          assert false;
        }
      }
    } else {
      var o :| o in UnsortedAll(cs, n);
      var v := UnsortedBetweenFrom(cs, n, 1, Pow2(n), o);
      ToBitsIsBinary(v, n);
      assert !Sorted(Apply(cs, ToBits(v, n)));
    }
  }
}
