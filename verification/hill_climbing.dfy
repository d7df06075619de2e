/**
 * The hill-climbing experiment of the 0/1 engine: K times, a random network
 * of the best known size is drawn and mutated M times, a mutant replacing the
 * current best when it leaves strictly fewer unsorted outputs; the best of the
 * K climbs is kept. The mutate of the experiment builds its "new" network over
 * the list of the network it mutates, so the current best is rewritten by every
 * mutation, kept or not. Both that climb and the climb with a copying mutate
 * are modelled; the experiment's outer loop uses the latter.
 */
module HillClimbing {
  import opened Comparators
  import opened Networks
  import opened NetworkUtilities
  import opened Binary
  import opened BinarySequences
  import opened Experiments

  /** The three random numbers one mutation consumes: nextInt(size), nextInt(numWires), nextInt(numWires). */
  datatype Mutation = Mutation(index: int, top: int, bottom: int)

  predicate ValidMutations(moves: seq<Mutation>, size: int, numWires: int)
  {
    forall m :: 0 <= m < |moves| ==>
      0 <= moves[m].index < size && 0 <= moves[m].top < numWires && 0 <= moves[m].bottom < numWires
  }

  /** The list with the comparator at the drawn index replaced by the drawn one. */
  function Mutant(cs: seq<Comparator>, mv: Mutation): (m: seq<Comparator>)
    requires 0 <= mv.index < |cs|
    ensures |m| == |cs|
  {
    cs[mv.index := Create(mv.top, mv.bottom)]
  }

  lemma MutantInRange(cs: seq<Comparator>, n: nat, mv: Mutation)
    requires InRange(cs, n) && 0 <= mv.index < |cs| && 0 <= mv.top < n && 0 <= mv.bottom < n
    ensures InRange(Mutant(cs, mv), n)
  {
    MutationKeepsShape(cs, n, mv.index, mv.top, mv.bottom);
  }

  // ----- The climb as written: one shared list -----

  /** The shared list after the mutations: each one is written into it, kept or not. */
  function Walk(cs: seq<Comparator>, n: nat, moves: seq<Mutation>): (w: seq<Comparator>)
    requires InRange(cs, n) && ValidMutations(moves, |cs|, n)
    ensures |w| == |cs| && InRange(w, n)
    decreases |moves|
  {
    if moves == [] then cs
    else
      var prev := Walk(cs, n, moves[..|moves| - 1]);
      var mv := moves[|moves| - 1];
      MutantInRange(prev, n, mv);
      Mutant(prev, mv)
  }

  /** The outputs the climb as written records as the best: the fewest met along the walk, the first on a tie. */
  function RecordedBest(cs: seq<Comparator>, n: nat, moves: seq<Mutation>): set<seq<int>>
    requires InRange(cs, n) && ValidMutations(moves, |cs|, n)
    decreases |moves|
  {
    if moves == [] then UnsortedAll(cs, n)
    else
      var prev := RecordedBest(cs, n, moves[..|moves| - 1]);
      var outputs := UnsortedAll(Walk(cs, n, moves), n);
      if |outputs| < |prev| then outputs else prev
  }

  /**
   * The inner loop of the experiment as written: the network kept as best is
   * always the shared list, which performs a random walk, while the recorded
   * outputs are those of the best list met on the way.
   */
  method ClimbAsWritten(start: ComparisonNetwork, startOutputs: set<seq<int>>, moves: seq<Mutation>)
    returns (bestCurrentNetwork: ComparisonNetwork, bestCurrentOutputs: set<seq<int>>)
    requires start.numWires >= 0 && InRange(start.network.items, start.numWires)
    requires ValidMutations(moves, start.Size(), start.numWires)
    requires startOutputs == UnsortedAll(start.network.items, start.numWires)
    modifies start.network
    ensures bestCurrentNetwork.network == start.network && bestCurrentNetwork.numWires == start.numWires
    ensures start.network.items == Walk(old(start.network.items), start.numWires, moves)
    ensures bestCurrentOutputs == RecordedBest(old(start.network.items), start.numWires, moves)
  {
    var n: nat := start.numWires;
    ghost var cs := start.network.items;
    bestCurrentNetwork := start;
    bestCurrentOutputs := startOutputs;
    for m := 0 to |moves|
      invariant bestCurrentNetwork.network == start.network && bestCurrentNetwork.numWires == n
      invariant ValidMutations(moves[..m], |cs|, n)
      invariant start.network.items == Walk(cs, n, moves[..m])
      invariant bestCurrentOutputs == RecordedBest(cs, n, moves[..m])
    {
      WalkStep(cs, n, moves, m);
      var mv := moves[m];
      var mutatedNetwork := HillClimbMutate(bestCurrentNetwork, mv.index, mv.top, mv.bottom);
      var mutatedOutputs := mutatedNetwork.OperateOnAllBinary();
      if |mutatedOutputs| < |bestCurrentOutputs| {
        bestCurrentNetwork := mutatedNetwork;
        bestCurrentOutputs := mutatedOutputs;
      }
    }
    assert moves[..|moves|] == moves;
  }

  /** A step of the walk: the mutant is written into the list, and the recorded outputs change only on strict improvement. */
  lemma WalkStep(cs: seq<Comparator>, n: nat, moves: seq<Mutation>, m: nat)
    requires InRange(cs, n) && ValidMutations(moves, |cs|, n) && m < |moves|
    ensures ValidMutations(moves[..m], |cs|, n) && ValidMutations(moves[..m + 1], |cs|, n)
    ensures InRange(Mutant(Walk(cs, n, moves[..m]), moves[m]), n)
    ensures Walk(cs, n, moves[..m + 1]) == Mutant(Walk(cs, n, moves[..m]), moves[m])
    ensures RecordedBest(cs, n, moves[..m + 1]) ==
      if |UnsortedAll(Walk(cs, n, moves[..m + 1]), n)| < |RecordedBest(cs, n, moves[..m])|
      then UnsortedAll(Walk(cs, n, moves[..m + 1]), n) else RecordedBest(cs, n, moves[..m])
  {
    assert moves[..m + 1][..m] == moves[..m];
    MutantInRange(Walk(cs, n, moves[..m]), n, moves[m]);
  }

  /**
   * One rejected mutation is enough to separate the two: on two wires the
   * network (0,1) sorts everything, the mutant (0,0) leaves [1,0] unsorted and
   * is rejected, yet it is what the shared list now holds, while the recorded
   * outputs are still the empty set of (0,1).
   */
  lemma AliasedClimbLosesBest()
    ensures RecordedBest([Comparator(0, 1)], 2, [Mutation(0, 0, 0)]) == {}
    ensures Walk([Comparator(0, 1)], 2, [Mutation(0, 0, 0)]) == [Comparator(0, 0)]
    ensures UnsortedAll([Comparator(0, 0)], 2) == {[1, 0]}
  {
    var moves := [Mutation(0, 0, 0)];
    assert moves[..0] == [];
    SorterOnTwo();
    IdleOnTwo();
  }

  /** The three non-zero inputs on two wires, in counting order. */
  lemma TwoWireInputs()
    ensures Pow2(2) == 4 && ToBits(1, 2) == [0, 1] && ToBits(2, 2) == [1, 0] && ToBits(3, 2) == [1, 1]
  {
    assert ToBits(0, 1) == [0] && ToBits(1, 1) == [1];
  }

  /** The comparator (0,1) sorts every input on two wires. */
  lemma SorterOnTwo()
    ensures UnsortedAll([Comparator(0, 1)], 2) == {}
  {
    var cs := [Comparator(0, 1)];
    TwoWireInputs();
    assert cs[..0] == [];
    assert Apply(cs, [0, 1]) == [0, 1] && Apply(cs, [1, 0]) == [0, 1] && Apply(cs, [1, 1]) == [1, 1];
    assert Sorted([0, 1]) && Sorted([1, 1]);
    assert UnsortedBetween(cs, 2, 1, 2) == {};
    assert UnsortedBetween(cs, 2, 1, 3) == {};
  }

  /** The comparator (0,0) does nothing, so [1,0] stays unsorted. */
  lemma IdleOnTwo()
    ensures UnsortedAll([Comparator(0, 0)], 2) == {[1, 0]}
  {
    var cs := [Comparator(0, 0)];
    TwoWireInputs();
    assert cs[..0] == [];
    assert Apply(cs, [0, 1]) == [0, 1] && Apply(cs, [1, 0]) == [1, 0] && Apply(cs, [1, 1]) == [1, 1];
    assert Sorted([0, 1]) && Sorted([1, 1]);
    assert [1, 0][0] > [1, 0][1];
    assert UnsortedBetween(cs, 2, 1, 2) == {};
    assert UnsortedBetween(cs, 2, 1, 3) == {[1, 0]};
  }

  // ----- The climb with a copying mutate -----

  /** mutate with its own copy of the list: the argument is left as it was. */
  method Mutate(networkToMutate: ComparisonNetwork, randComparatorIndex: int, topIndex: int, bottomIndex: int)
    returns (newNetwork: ComparisonNetwork)
    requires 0 <= randComparatorIndex < networkToMutate.Size()
    requires 0 <= topIndex < networkToMutate.numWires && 0 <= bottomIndex < networkToMutate.numWires
    ensures fresh(newNetwork) && fresh(newNetwork.network)
    ensures newNetwork.numWires == networkToMutate.numWires
    ensures newNetwork.network.items == Mutant(networkToMutate.network.items, Mutation(randComparatorIndex, topIndex, bottomIndex))
  {
    var copy := new ComparatorList();
    copy.items := networkToMutate.network.items;
    newNetwork := new ComparisonNetwork.WithList(networkToMutate.numWires, copy);
    var mutatedComparator := Create(topIndex, bottomIndex);
    newNetwork.Replace(randComparatorIndex, mutatedComparator);
  }

  /** The best list of a climb with copies: each mutant of the current best replaces it when strictly fitter. */
  function Climbed(cs: seq<Comparator>, n: nat, moves: seq<Mutation>): (best: seq<Comparator>)
    requires InRange(cs, n) && ValidMutations(moves, |cs|, n)
    ensures |best| == |cs| && InRange(best, n)
    decreases |moves|
  {
    if moves == [] then cs
    else
      var prev := Climbed(cs, n, moves[..|moves| - 1]);
      var mv := moves[|moves| - 1];
      MutantInRange(prev, n, mv);
      var mutant := Mutant(prev, mv);
      if Fitness(mutant, n) < Fitness(prev, n) then mutant else prev
  }

  /** The fitness of the best never increases along the climb: each step keeps the better of two. */
  lemma {:induction false} ClimbNeverWorse(cs: seq<Comparator>, n: nat, moves: seq<Mutation>, k: nat)
    requires InRange(cs, n) && ValidMutations(moves, |cs|, n) && k <= |moves|
    ensures ValidMutations(moves[..k], |cs|, n)
    ensures Fitness(Climbed(cs, n, moves), n) <= Fitness(Climbed(cs, n, moves[..k]), n)
    decreases |moves|
  {
    if k < |moves| {
      var prefix := moves[..|moves| - 1];
      assert prefix[..k] == moves[..k];
      ClimbNeverWorse(cs, n, prefix, k);
    } else {
      assert moves[..k] == moves;
    }
  }

  /** A step of the climb keeps the current best or takes the mutant, and takes it exactly when it is strictly fitter. */
  lemma ClimbedStep(cs: seq<Comparator>, n: nat, moves: seq<Mutation>, m: nat)
    requires InRange(cs, n) && ValidMutations(moves, |cs|, n) && m < |moves|
    ensures ValidMutations(moves[..m], |cs|, n) && ValidMutations(moves[..m + 1], |cs|, n)
    ensures InRange(Mutant(Climbed(cs, n, moves[..m]), moves[m]), n)
    ensures Climbed(cs, n, moves[..m + 1]) ==
      var prev := Climbed(cs, n, moves[..m]);
      var mutant := Mutant(prev, moves[m]);
      if Fitness(mutant, n) < Fitness(prev, n) then mutant else prev
  {
    assert moves[..m + 1][..m] == moves[..m];
    MutantInRange(Climbed(cs, n, moves[..m]), n, moves[m]);
  }

  /** The inner loop with copies: the network kept is always the one whose outputs are recorded. */
  method Climb(start: ComparisonNetwork, startOutputs: set<seq<int>>, moves: seq<Mutation>)
    returns (bestCurrentNetwork: ComparisonNetwork, bestCurrentOutputs: set<seq<int>>)
    requires start.numWires >= 0 && InRange(start.network.items, start.numWires)
    requires ValidMutations(moves, start.Size(), start.numWires)
    requires startOutputs == UnsortedAll(start.network.items, start.numWires)
    ensures bestCurrentNetwork.numWires == start.numWires
    ensures bestCurrentNetwork.network.items == Climbed(start.network.items, start.numWires, moves)
    ensures bestCurrentOutputs == UnsortedAll(bestCurrentNetwork.network.items, start.numWires)
  {
    var n: nat := start.numWires;
    ghost var cs := start.network.items;
    bestCurrentNetwork := start;
    bestCurrentOutputs := startOutputs;
    for m := 0 to |moves|
      invariant bestCurrentNetwork.numWires == n
      invariant ValidMutations(moves[..m], |cs|, n)
      invariant bestCurrentNetwork.network.items == Climbed(cs, n, moves[..m])
      invariant bestCurrentOutputs == UnsortedAll(bestCurrentNetwork.network.items, n)
    {
      ClimbedStep(cs, n, moves, m);
      bestCurrentNetwork, bestCurrentOutputs := TryMutation(bestCurrentNetwork, bestCurrentOutputs, moves[m]);
    }
    assert moves[..|moves|] == moves;
  }

  /** One pass of the inner loop: the mutant is evaluated and kept when strictly fitter. */
  method TryMutation(current: ComparisonNetwork, currentOutputs: set<seq<int>>, mv: Mutation)
    returns (best: ComparisonNetwork, bestOutputs: set<seq<int>>)
    requires current.numWires >= 0 && InRange(current.network.items, current.numWires)
    requires 0 <= mv.index < current.Size() && 0 <= mv.top < current.numWires && 0 <= mv.bottom < current.numWires
    requires currentOutputs == UnsortedAll(current.network.items, current.numWires)
    ensures InRange(Mutant(current.network.items, mv), current.numWires)
    ensures best.numWires == current.numWires
    ensures best.network.items ==
      var mutant := Mutant(current.network.items, mv);
      if Fitness(mutant, current.numWires) < Fitness(current.network.items, current.numWires)
      then mutant else current.network.items
    ensures bestOutputs == UnsortedAll(best.network.items, current.numWires)
  {
    MutantInRange(current.network.items, current.numWires, mv);
    var mutatedNetwork := Mutate(current, mv.index, mv.top, mv.bottom);
    var mutatedOutputs := mutatedNetwork.OperateOnAllBinary();
    best, bestOutputs := current, currentOutputs;
    if |mutatedOutputs| < |bestOutputs| {
      best, bestOutputs := mutatedNetwork, mutatedOutputs;
    }
  }

  // ----- The experiment for one wire count -----

  /** The random numbers of one of the K climbs: the starting network's draws, then the mutations. */
  datatype Run = Run(draws: seq<Draw>, moves: seq<Mutation>)

  predicate ValidRun(r: Run, numWires: nat, size: nat)
  {
    |r.draws| == size && ValidDraws(r.draws, numWires) && ValidMutations(r.moves, size, numWires)
  }

  predicate ValidRuns(runs: seq<Run>, numWires: nat, size: nat)
  {
    forall k :: 0 <= k < |runs| ==> ValidRun(runs[k], numWires, size)
  }

  /** The network a climb starts from. */
  function Start(r: Run, n: nat, size: nat): (cs: seq<Comparator>)
    requires ValidRun(r, n, size)
    ensures |cs| == size && InRange(cs, n)
  {
    RandomNetwork(r.draws, n)
  }

  /** The network a climb ends with. */
  function Finish(r: Run, n: nat, size: nat): (cs: seq<Comparator>)
    requires ValidRun(r, n, size)
    ensures |cs| == size && InRange(cs, n)
  {
    Climbed(Start(r, n, size), n, r.moves)
  }

  /** A climb never ends less fit than it started. */
  lemma ClimbImproves(r: Run, n: nat, size: nat)
    requires ValidRun(r, n, size)
    ensures Fitness(Finish(r, n, size), n) <= Fitness(Start(r, n, size), n)
  {
    ClimbNeverWorse(Start(r, n, size), n, r.moves, 0);
  }

  /** The results of the climbs, each with its score. */
  function Results(runs: seq<Run>, n: nat, size: nat): (rs: seq<Scored>)
    requires ValidRuns(runs, n, size)
    ensures |rs| == |runs|
  {
    seq(|runs|, k requires 0 <= k < |runs| => Score(Finish(runs[k], n, size), n))
  }

  /** One more climb adds one result. */
  lemma ResultsNext(runs: seq<Run>, n: nat, size: nat, k: nat)
    requires ValidRuns(runs, n, size) && k < |runs|
    ensures ValidRuns(runs[..k], n, size) && ValidRuns(runs[..k + 1], n, size)
    ensures Results(runs[..k + 1], n, size) == Results(runs[..k], n, size) + [Score(Finish(runs[k], n, size), n)]
  {
    assert ValidRuns(runs[..k], n, size);
    assert ValidRuns(runs[..k + 1], n, size);
  }

  /**
   * The best overall after the climbs: the network of the first draw when there
   * is no climb; otherwise the starting network of the first climb, replaced by
   * a climb's result whenever that is strictly fitter.
   */
  function Overall(n: nat, size: nat, first: seq<Draw>, runs: seq<Run>): (cs: seq<Comparator>)
    requires |first| == size && ValidDraws(first, n)
    requires ValidRuns(runs, n, size)
  {
    if runs == [] then InsertAll(first)
    else Pick(Score(Start(runs[0], n, size), n), Results(runs, n, size)).network
  }

  /**
   * The best overall is as fit as the fittest climb result: it is the result of
   * climb j (or the start of the first climb, when that climb found nothing
   * fitter), and no climb ends strictly fitter.
   */
  lemma OverallIsBest(n: nat, size: nat, first: seq<Draw>, runs: seq<Run>) returns (j: nat)
    requires |first| == size && ValidDraws(first, n)
    requires ValidRuns(runs, n, size)
    requires runs != []
    ensures j < |runs| && InRange(Overall(n, size, first, runs), n)
    ensures Overall(n, size, first, runs) == Finish(runs[j], n, size) || Overall(n, size, first, runs) == Start(runs[0], n, size)
    ensures Fitness(Overall(n, size, first, runs), n) == Fitness(Finish(runs[j], n, size), n)
    ensures forall k :: 0 <= k < |runs| ==> Fitness(Overall(n, size, first, runs), n) <= Fitness(Finish(runs[k], n, size), n)
  {
    var start := Score(Start(runs[0], n, size), n);
    var results := Results(runs, n, size);
    var i := PickIsBest(start, results);
    var best := Pick(start, results);
    assert best.score == Fitness(best.network, n) && InRange(best.network, n);
    if i < 0 {
      ClimbImproves(runs[0], n, size);
      j := 0;
    } else {
      j := i;
    }
    forall k | 0 <= k < |runs|
      ensures Fitness(best.network, n) <= Fitness(Finish(runs[k], n, size), n)
    {
      assert best.score <= results[k].score;
    }
  }

  /**
   * The loop over the K climbs for one wire count: a first network, then for
   * each climb a random start (which becomes the best overall at the first
   * climb), the climb, and the best overall replaced on strict improvement.
   */
  method Experiment(numWires: nat, size: nat, first: seq<Draw>, runs: seq<Run>)
    returns (bestOverallNetwork: ComparisonNetwork, bestOverallOutputs: set<seq<int>>)
    requires |first| == size && ValidDraws(first, numWires)
    requires ValidRuns(runs, numWires, size)
    ensures bestOverallNetwork.network.items == Overall(numWires, size, first, runs)
    ensures InRange(bestOverallNetwork.network.items, numWires)
    ensures bestOverallOutputs == UnsortedAll(bestOverallNetwork.network.items, numWires)
  {
    bestOverallNetwork := CreateRandomNetwork(numWires, size, first);
    RandomNetworkWires(first, numWires);
    bestOverallOutputs := bestOverallNetwork.OperateOnAllBinary();
    for k := 0 to |runs|
      invariant BestAfter(numWires, size, first, runs, k, bestOverallNetwork.network.items)
      invariant bestOverallOutputs == UnsortedAll(bestOverallNetwork.network.items, numWires)
    {
      bestOverallNetwork, bestOverallOutputs := NextClimb(numWires, size, first, runs, k, bestOverallNetwork, bestOverallOutputs);
    }
    assert runs[..|runs|] == runs;
  }

  /** The invariant of the experiment's loop: the best overall after the first k climbs. */
  predicate BestAfter(n: nat, size: nat, first: seq<Draw>, runs: seq<Run>, k: nat, cs: seq<Comparator>)
    requires |first| == size && ValidDraws(first, n)
    requires ValidRuns(runs, n, size) && k <= |runs|
  {
    InRange(cs, n) &&
    (k == 0 ==> cs == InsertAll(first)) &&
    (k > 0 ==> (ValidRuns(runs[..k], n, size) &&
      Score(cs, n) == Pick(Score(Start(runs[0], n, size), n), Results(runs[..k], n, size))))
  }

  /** The body of the experiment's loop: climb k, and the invariant is kept. */
  method NextClimb(numWires: nat, size: nat, first: seq<Draw>, runs: seq<Run>, k: nat,
                   overall: ComparisonNetwork, overallOutputs: set<seq<int>>)
    returns (bestOverallNetwork: ComparisonNetwork, bestOverallOutputs: set<seq<int>>)
    requires |first| == size && ValidDraws(first, numWires)
    requires ValidRuns(runs, numWires, size) && k < |runs|
    requires BestAfter(numWires, size, first, runs, k, overall.network.items)
    requires overallOutputs == UnsortedAll(overall.network.items, numWires)
    ensures BestAfter(numWires, size, first, runs, k + 1, bestOverallNetwork.network.items)
    ensures bestOverallOutputs == UnsortedAll(bestOverallNetwork.network.items, numWires)
  {
    OverallNext(numWires, size, runs, k, overall.network.items);
    bestOverallNetwork, bestOverallOutputs := Iteration(numWires, size, runs[k], k == 0, overall, overallOutputs);
  }

  /** The best overall after one more climb, in the terms Iteration promises. */
  lemma OverallNext(n: nat, size: nat, runs: seq<Run>, k: nat, overall: seq<Comparator>)
    requires ValidRuns(runs, n, size) && k < |runs| && InRange(overall, n)
    requires k > 0 ==> (ValidRuns(runs[..k], n, size) &&
      Score(overall, n) == Pick(Score(Start(runs[0], n, size), n), Results(runs[..k], n, size)))
    ensures ValidRuns(runs[..k + 1], n, size)
    ensures
      var prev := if k == 0 then Start(runs[k], n, size) else overall;
      var best := if Fitness(Finish(runs[k], n, size), n) < Fitness(prev, n) then Finish(runs[k], n, size) else prev;
      Score(best, n) == Pick(Score(Start(runs[0], n, size), n), Results(runs[..k + 1], n, size))
  {
    ResultsNext(runs, n, size, k);
    var start := Score(Start(runs[0], n, size), n);
    PickAppend(start, Results(runs[..k], n, size), Score(Finish(runs[k], n, size), n));
    if k == 0 {
      assert Results(runs[..0], n, size) == [];
    }
  }

  /** One of the K climbs. */
  method Iteration(numWires: nat, size: nat, r: Run, firstRun: bool,
                   overall: ComparisonNetwork, overallOutputs: set<seq<int>>)
    returns (bestOverallNetwork: ComparisonNetwork, bestOverallOutputs: set<seq<int>>)
    requires ValidRun(r, numWires, size) && InRange(overall.network.items, numWires)
    requires overallOutputs == UnsortedAll(overall.network.items, numWires)
    ensures InRange(bestOverallNetwork.network.items, numWires)
    ensures bestOverallNetwork.network.items ==
      var prev := if firstRun then Start(r, numWires, size) else overall.network.items;
      if Fitness(Finish(r, numWires, size), numWires) < Fitness(prev, numWires) then Finish(r, numWires, size) else prev
    ensures bestOverallOutputs == UnsortedAll(bestOverallNetwork.network.items, numWires)
  {
    bestOverallNetwork, bestOverallOutputs := overall, overallOutputs;
    var bestCurrentNetwork := CreateRandomNetwork(numWires, size, r.draws);
    RandomNetworkWires(r.draws, numWires);
    var bestCurrentOutputs := bestCurrentNetwork.OperateOnAllBinary();
    if firstRun {
      bestOverallNetwork, bestOverallOutputs := bestCurrentNetwork, bestCurrentOutputs;
    }
    bestCurrentNetwork, bestCurrentOutputs := Climb(bestCurrentNetwork, bestCurrentOutputs, r.moves);
    if |bestCurrentOutputs| < |bestOverallOutputs| {
      bestOverallNetwork, bestOverallOutputs := bestCurrentNetwork, bestCurrentOutputs;
    }
  }
}
