/**
 * The search driver of the list engine: pure random sampling, and hill
 * climbing or a linear, integer-only simulated annealing over networks with
 * a fixed number of comparators, plus the Green32 prefix written out by
 * hand. Fitness is the number of unsorted outputs over a set of inputs.
 * Every java.util.Random value is a parameter.
 */
module Tester {
  import opened Binary
  import opened BinarySequences
  import opened SensoComparators
  import opened ListNetworks

  const NumTestCases: nat := 100000
  const NumAlgoTests: nat := 10
  /** The mutation budget of one run: NUM_TEST_CASES / NUM_ALGO_TESTS, written out. */
  const Budget: nat := 10000
  /** The smallest known sorting networks, by number of wires. */
  const BestKnownComparisons: map<int, int> := map[12 := 39, 13 := 45, 14 := 51, 15 := 56, 16 := 60]

  datatype Algorithm = HC | SA

  /** The fitness of a network: how many different unsorted outputs it leaves. */
  function Fitness(cs: seq<Comparator>, inputs: set<seq<int>>): nat
  {
    |UnsortedOf(cs, inputs)|
  }

  /** The running minimum a best-so-far variable ends with: init, lowered by each value in turn. */
  function MinFrom(init: int, s: seq<int>): int
  {
    if s == [] then init else Min(MinFrom(init, s[..|s| - 1]), s[|s| - 1])
  }

  lemma MinFromAppend(init: int, s: seq<int>, x: int)
    ensures MinFrom(init, s + [x]) == Min(MinFrom(init, s), x)
  {
    assert (s + [x])[..|s|] == s;
  }

  /** Each random network's comparators come from its own group of getRandom draws. */
  predicate TrialDrawsOk(wires: int, numComparisons: int, draws: seq<seq<seq<int>>>)
  {
    forall i :: 0 <= i < |draws| ==> |draws[i]| == numComparisons && DrawsOk(wires, draws[i])
  }

  /** The fitness of each of the first n random networks, in the order they are drawn. */
  function TrialFitnesses(draws: seq<seq<seq<int>>>, inputs: set<seq<int>>, n: nat): (fs: seq<int>)
    requires forall i :: 0 <= i < |draws| ==> AllDiffer(draws[i])
    requires n <= |draws|
    ensures |fs| == n
  {
    if n == 0 then []
    else TrialFitnesses(draws, inputs, n - 1) + [Fitness(DrawnAll(draws[n - 1]), inputs)]
  }

  /**
   * randomNetworks: numTestCases random networks of numComparisons
   * comparators; the result is the best fitness, starting from 2^wires.
   */
  method RandomNetworks(wires: nat, inputs: set<seq<int>>, numComparisons: nat, draws: seq<seq<seq<int>>>)
    returns (bestFitness: int)
    requires Long(inputs, wires)
    requires |draws| == NumTestCases && TrialDrawsOk(wires, numComparisons, draws)
    ensures bestFitness == MinFrom(Pow2(wires), TrialFitnesses(draws, inputs, |draws|))
  {
    bestFitness := Pow2(wires);
    var network := new ComparisonNetwork(wires);
    for i := 0 to |draws|
      invariant fresh(network) && network.wires == wires
      invariant network.comparisons == [] || |network.comparisons| == numComparisons
      invariant bestFitness == MinFrom(Pow2(wires), TrialFitnesses(draws, inputs, i))
    {
      bestFitness := Trial(network, inputs, numComparisons, draws, i, bestFitness, Pow2(wires));
    }
  }

  /** Random network i of randomNetworks: its fitness lowers the best one when smaller. */
  method Trial(network: ComparisonNetwork, inputs: set<seq<int>>, numComparisons: nat, draws: seq<seq<seq<int>>>,
               i: nat, bestFitness0: int, ghost init: int) returns (bestFitness: int)
    requires network.comparisons == [] || |network.comparisons| == numComparisons
    requires TrialDrawsOk(network.wires, numComparisons, draws) && i < |draws|
    requires Long(inputs, network.wires)
    requires bestFitness0 == MinFrom(init, TrialFitnesses(draws, inputs, i))
    modifies network
    ensures network.wires == old(network.wires) && |network.comparisons| == numComparisons
    ensures bestFitness == MinFrom(init, TrialFitnesses(draws, inputs, i + 1))
  {
    network.Randomize(numComparisons, draws[i]);
    assert network.comparisons == DrawnAll(draws[i]);
    assert Fits(network.comparisons, network.wires);
    FitsInputs(network.comparisons, network.wires, inputs);
    var unsorted := network.GetUnsorted(inputs);
    var fitness := |unsorted|;
    MinFromAppend(init, TrialFitnesses(draws, inputs, i), fitness);
    bestFitness := bestFitness0;
    if fitness < bestFitness {
      bestFitness := fitness;
    }
  }

  /** Every input has at least the given number of entries. */
  predicate Long(inputs: set<seq<int>>, wires: int)
  {
    forall s :: s in inputs ==> wires <= |s|
  }

  /** Comparators within [0, wires) fit every input of at least wires entries. */
  lemma FitsInputs(cs: seq<Comparator>, wires: int, inputs: set<seq<int>>)
    requires Fits(cs, wires)
    requires Long(inputs, wires)
    ensures forall s :: s in inputs ==> Fits(cs, |s|)
  {
  }

  /** The network with one comparator replaced by the one getRandom makes from the draws. */
  function Mutation(cs: seq<Comparator>, index: int, draws: seq<int>): (r: seq<Comparator>)
    requires 0 <= index < |cs| && Differs(draws)
    ensures |r| == |cs|
  {
    cs[index := Drawn(draws)]
  }

  /**
   * mutate as written: a copy of the list with the comparator at
   * nextInt(wires) replaced by a random one.
   */
  method Mutate(network: ComparisonNetwork, raw: nat, draws: seq<int>) returns (mutated: ComparisonNetwork)
    requires network.wires > 0 && NextInt(raw, network.wires) < |network.comparisons|
    requires Differs(draws) && forall k :: 0 <= k < |draws| ==> 0 <= draws[k] < network.wires
    ensures fresh(mutated) && mutated.wires == network.wires
    ensures mutated.comparisons == Mutation(network.comparisons, NextInt(raw, network.wires), draws)
  {
    mutated := new ComparisonNetwork.WithList(network.wires, network.comparisons);
    var index := NextInt(raw, network.wires);
    var c := GetRandom(network.wires, draws);
    mutated.comparisons := mutated.comparisons[index := c];
  }

  /**
   * Only a comparator in one of the first wires positions can be replaced:
   * with 12 wires and 39 comparators the last one never changes.
   */
  lemma MutationMissesTail(cs: seq<Comparator>, wires: nat, raw: nat, draws: seq<int>, k: int)
    requires wires > 0 && NextInt(raw, wires) < |cs| && Differs(draws)
    requires wires <= k < |cs|
    ensures Mutation(cs, NextInt(raw, wires), draws)[k] == cs[k]
  {
  }

  /** The mutation the search evidently means: any position of the list can be chosen. */
  method MutateAnywhere(network: ComparisonNetwork, raw: nat, draws: seq<int>) returns (mutated: ComparisonNetwork)
    requires |network.comparisons| > 0
    requires Differs(draws) && forall k :: 0 <= k < |draws| ==> 0 <= draws[k] < network.wires
    ensures fresh(mutated) && mutated.wires == network.wires
    ensures mutated.comparisons == Mutation(network.comparisons, NextInt(raw, |network.comparisons|), draws)
  {
    mutated := new ComparisonNetwork.WithList(network.wires, network.comparisons);
    var index := NextInt(raw, |mutated.comparisons|);
    var c := GetRandom(network.wires, draws);
    mutated.comparisons := mutated.comparisons[index := c];
  }

  /** With the index drawn over the whole list, every position can receive the new comparator. */
  lemma MutationReachesAll(cs: seq<Comparator>, draws: seq<int>, k: int)
    requires Differs(draws) && 0 <= k < |cs|
    ensures Mutation(cs, NextInt(k, |cs|), draws)[k] == Drawn(draws)
    ensures forall i :: 0 <= i < |cs| && i != k ==> Mutation(cs, NextInt(k, |cs|), draws)[i] == cs[i]
  {
  }

  /** The generator values one iteration of the inner loop consumes. */
  datatype Move = Move(index: nat, draws: seq<int>, accept: nat)

  /** Every redraw loop of the moves can stop. */
  predicate Redrawable(moves: seq<Move>)
  {
    forall t :: 0 <= t < |moves| ==> Differs(moves[t].draws)
  }

  /** Redrawable, and every getRandom draw is a nextInt(wires) value. */
  predicate MovesOk(moves: seq<Move>, wires: int)
  {
    Redrawable(moves) &&
    forall t :: 0 <= t < |moves| ==> forall k :: 0 <= k < |moves[t].draws| ==> 0 <= moves[t].draws[k] < wires
  }

  /** The current network of a run and its best fitness so far. */
  datatype Climber = Climber(network: seq<Comparator>, best: int)

  /**
   * Iteration j of the inner loop: the mutant replaces the current network
   * when it is strictly fitter; under SA it is also taken, without changing
   * the best fitness, when nextInt(Budget) falls below Budget - j.
   */
  function Next(algorithm: Algorithm, inputs: set<seq<int>>, s: Climber, mv: Move, j: int, wires: int): (r: Climber)
    requires 0 < wires <= |s.network| && Differs(mv.draws)
    ensures |r.network| == |s.network|
  {
    var mutated := Mutant(s, mv, wires);
    var fitness := Fitness(mutated, inputs);
    if fitness < s.best then Climber(mutated, fitness)
    else if algorithm == SA && NextInt(mv.accept, Budget) < Budget - j then Climber(mutated, s.best)
    else s
  }

  /** The mutant mutate makes of the current network: the index is nextInt(wires). */
  function Mutant(s: Climber, mv: Move, wires: int): (m: seq<Comparator>)
    requires 0 < wires <= |s.network| && Differs(mv.draws)
    ensures |m| == |s.network|
  {
    Mutation(s.network, NextInt(mv.index, wires), mv.draws)
  }

  /** The inner loop after its first n moves, iteration numbers starting at 1. */
  function Climb(algorithm: Algorithm, inputs: set<seq<int>>, start: Climber, moves: seq<Move>, n: nat, wires: int): (r: Climber)
    requires 0 < wires <= |start.network| && Redrawable(moves) && n <= |moves|
    ensures |r.network| == |start.network|
  {
    if n == 0 then start
    else Next(algorithm, inputs, Climb(algorithm, inputs, start, moves, n - 1, wires), moves[n - 1], n, wires)
  }

  /** The fitness of every mutant the first n iterations of the inner loop evaluate, in order. */
  function Candidates(algorithm: Algorithm, inputs: set<seq<int>>, start: Climber, moves: seq<Move>, n: nat, wires: int): (fs: seq<int>)
    requires 0 < wires <= |start.network| && Redrawable(moves) && n <= |moves|
    ensures |fs| == n
  {
    if n == 0 then []
    else
      var s := Climb(algorithm, inputs, start, moves, n - 1, wires);
      var mv := moves[n - 1];
      Candidates(algorithm, inputs, start, moves, n - 1, wires) + [Fitness(Mutant(s, mv, wires), inputs)]
  }

  /** The network a run starts from, and its fitness. */
  function Start(draws: seq<seq<int>>, inputs: set<seq<int>>): Climber
    requires AllDiffer(draws)
  {
    Climber(DrawnAll(draws), Fitness(DrawnAll(draws), inputs))
  }

  /**
   * What runAlgorithm's random values satisfy: each run draws numComparisons
   * comparators within the wires and makes Budget - 1 moves. mutate draws its
   * index below the wire count, so the network has at least as many
   * comparators as wires, as every entry of the size table has.
   */
  predicate RunArgs(wires: int, numComparisons: nat, draws: seq<seq<seq<int>>>, moves: seq<seq<Move>>)
  {
    0 < wires <= numComparisons && |moves| == |draws| &&
    forall i :: 0 <= i < |draws| ==>
      |draws[i]| == numComparisons && DrawsOk(wires, draws[i]) && |moves[i]| == Budget - 1 && MovesOk(moves[i], wires)
  }

  /** The best fitness each of the first n runs of runAlgorithm ends with. */
  function RunBests(algorithm: Algorithm, inputs: set<seq<int>>, wires: int, numComparisons: nat,
                    draws: seq<seq<seq<int>>>, moves: seq<seq<Move>>, n: nat): (bs: seq<int>)
    requires RunArgs(wires, numComparisons, draws, moves) && n <= |draws|
    ensures |bs| == n
  {
    if n == 0 then []
    else
      RunBests(algorithm, inputs, wires, numComparisons, draws, moves, n - 1)
        + [Climb(algorithm, inputs, Start(draws[n - 1], inputs), moves[n - 1], |moves[n - 1]|, wires).best]
  }

  /**
   * runAlgorithm: NUM_ALGO_TESTS runs, each from a fresh random network,
   * of Budget - 1 mutations accepted by the HC or SA rule; the result is the
   * best fitness over the runs, starting from 2^wires.
   */
  method RunAlgorithm(wires: nat, algorithm: Algorithm, inputs: set<seq<int>>, numComparisons: nat,
                      draws: seq<seq<seq<int>>>, moves: seq<seq<Move>>) returns (bestFitness: int)
    requires Long(inputs, wires)
    requires |draws| == NumAlgoTests && RunArgs(wires, numComparisons, draws, moves)
    ensures bestFitness == MinFrom(Pow2(wires), RunBests(algorithm, inputs, wires, numComparisons, draws, moves, |draws|))
  {
    bestFitness := Pow2(wires);
    var network := new ComparisonNetwork(wires);
    for i := 0 to |draws|
      invariant fresh(network) && network.wires == wires
      invariant network.comparisons == [] || |network.comparisons| == numComparisons
      invariant bestFitness == MinFrom(Pow2(wires), RunBests(algorithm, inputs, wires, numComparisons, draws, moves, i))
    {
      network, bestFitness := OneRun(network, wires, algorithm, inputs, numComparisons, draws, moves, i, bestFitness, Pow2(wires));
    }
  }

  /**
   * Run i of runAlgorithm: a fresh random network, the inner loop from its
   * fitness, and the best fitness over the runs lowered by the run's best.
   */
  method OneRun(network0: ComparisonNetwork, wires: int, algorithm: Algorithm, inputs: set<seq<int>>, numComparisons: nat,
                draws: seq<seq<seq<int>>>, moves: seq<seq<Move>>, i: nat, bestFitness0: int, ghost init: int)
    returns (network: ComparisonNetwork, bestFitness: int)
    requires network0.comparisons == [] || |network0.comparisons| == numComparisons
    requires network0.wires == wires && RunArgs(wires, numComparisons, draws, moves) && i < |draws|
    requires Long(inputs, wires)
    requires bestFitness0 == MinFrom(init, RunBests(algorithm, inputs, wires, numComparisons, draws, moves, i))
    modifies network0
    ensures (network == network0 || fresh(network)) && network.wires == wires
    ensures |network.comparisons| == numComparisons
    ensures bestFitness == MinFrom(init, RunBests(algorithm, inputs, wires, numComparisons, draws, moves, i + 1))
  {
    network0.Randomize(numComparisons, draws[i]);
    assert network0.comparisons == DrawnAll(draws[i]);
    assert Fits(network0.comparisons, network0.wires);
    FitsInputs(network0.comparisons, network0.wires, inputs);
    var unsorted := network0.GetUnsorted(inputs);
    var bestIterFitness := |unsorted|;
    network, bestIterFitness := Improve(network0, algorithm, inputs, bestIterFitness, moves[i]);
    MinFromAppend(init, RunBests(algorithm, inputs, wires, numComparisons, draws, moves, i), bestIterFitness);
    bestFitness := bestFitness0;
    if bestIterFitness < bestFitness {
      bestFitness := bestIterFitness;
    }
  }

  /** A network the inner loop can mutate and evaluate on the inputs. */
  predicate Ready(cs: seq<Comparator>, wires: int, inputs: set<seq<int>>)
  {
    0 < wires <= |cs| && Fits(cs, wires) && Long(inputs, wires)
  }

  /** The inner loop of runAlgorithm, for j from 1 to Budget - 1. */
  method Improve(network0: ComparisonNetwork, algorithm: Algorithm, inputs: set<seq<int>>, bestIterFitness0: int,
                 moves: seq<Move>) returns (network: ComparisonNetwork, bestIterFitness: int)
    requires Ready(network0.comparisons, network0.wires, inputs)
    requires |moves| == Budget - 1 && MovesOk(moves, network0.wires)
    ensures (network == network0 || fresh(network)) && network.wires == network0.wires
    ensures Climber(network.comparisons, bestIterFitness)
      == Climb(algorithm, inputs, Climber(network0.comparisons, bestIterFitness0), moves, |moves|, network0.wires)
  {
    network, bestIterFitness := network0, bestIterFitness0;
    ghost var start := Climber(network0.comparisons, bestIterFitness0);
    for j := 1 to Budget
      invariant (network == network0 || fresh(network)) && network.wires == network0.wires
      invariant Ready(network.comparisons, network.wires, inputs)
      invariant Climber(network.comparisons, bestIterFitness) == Climb(algorithm, inputs, start, moves, j - 1, network0.wires)
    {
      network, bestIterFitness := Iterate(network, algorithm, inputs, bestIterFitness, start, moves, j);
    }
  }

  /** One iteration j of the inner loop: mutate, evaluate, then accept by the HC or SA rule. */
  method Iterate(network0: ComparisonNetwork, algorithm: Algorithm, inputs: set<seq<int>>, bestIterFitness0: int,
                 ghost start: Climber, moves: seq<Move>, j: int) returns (network: ComparisonNetwork, bestIterFitness: int)
    requires Ready(network0.comparisons, network0.wires, inputs)
    requires MovesOk(moves, network0.wires) && 1 <= j <= |moves| && network0.wires <= |start.network|
    requires Climber(network0.comparisons, bestIterFitness0) == Climb(algorithm, inputs, start, moves, j - 1, network0.wires)
    ensures (network == network0 || fresh(network)) && network.wires == network0.wires
    ensures Ready(network.comparisons, network.wires, inputs)
    ensures Climber(network.comparisons, bestIterFitness) == Climb(algorithm, inputs, start, moves, j, network0.wires)
  {
    network, bestIterFitness := network0, bestIterFitness0;
    var mv := moves[j - 1];
    MoveOk(moves, network.wires, j - 1);
    var mutated := Mutate(network, mv.index, mv.draws);
    MutationFits(network.comparisons, network.wires, NextInt(mv.index, network.wires), mv.draws);
    FitsInputs(mutated.comparisons, mutated.wires, inputs);
    var unsortedMutant := mutated.GetUnsorted(inputs);
    var fitness := |unsortedMutant|;
    if fitness < bestIterFitness {
      network := mutated;
      bestIterFitness := fitness;
    } else if algorithm == SA {
      var probability := Budget - j;
      if NextInt(mv.accept, Budget) < probability {
        network := mutated;
      }
    }
  }

  lemma MoveOk(moves: seq<Move>, wires: int, t: int)
    requires MovesOk(moves, wires) && 0 <= t < |moves|
    ensures Differs(moves[t].draws) && forall k :: 0 <= k < |moves[t].draws| ==> 0 <= moves[t].draws[k] < wires
  {
  }

  /** A mutation keeps every comparator within the wires. */
  lemma MutationFits(cs: seq<Comparator>, wires: int, index: int, draws: seq<int>)
    requires Fits(cs, wires) && 0 <= index < |cs|
    requires Differs(draws) && forall k :: 0 <= k < |draws| ==> 0 <= draws[k] < wires
    ensures Fits(Mutation(cs, index, draws), wires)
  {
    DrawnWithin(draws, wires);
  }

  /** The running minimum is at most init and every value, and it is one of them. */
  lemma {:induction false} MinFromIsMin(init: int, s: seq<int>)
    ensures MinFrom(init, s) <= init
    ensures forall i :: 0 <= i < |s| ==> MinFrom(init, s) <= s[i]
    ensures MinFrom(init, s) == init || exists i :: 0 <= i < |s| && MinFrom(init, s) == s[i]
  {
    if s != [] {
      var p := s[..|s| - 1];
      MinFromIsMin(init, p);
      forall i | 0 <= i < |s|
        ensures MinFrom(init, s) <= s[i]
      {
        if i < |s| - 1 {
          assert s[i] == p[i];
        }
      }
      if MinFrom(init, s) != init && MinFrom(init, s) != s[|s| - 1] {
        var i :| 0 <= i < |p| && MinFrom(init, p) == p[i];
        assert s[i] == p[i];
      }
    }
  }

  /** One step of a running minimum. */
  lemma MinStep(init: int, prev: seq<int>, x: int, before: int, after: int, s: seq<int>)
    requires before == MinFrom(init, prev) && after == Min(before, x) && s == prev + [x]
    ensures after == MinFrom(init, s)
  {
    MinFromAppend(init, prev, x);
  }

  /**
   * Under both rules the best fitness of a run is the minimum of the
   * starting fitness and the fitness of every mutant evaluated so far.
   */
  lemma {:induction false} ClimbIsMin(algorithm: Algorithm, inputs: set<seq<int>>, start: Climber, moves: seq<Move>, n: nat, wires: int)
    requires 0 < wires <= |start.network| && Redrawable(moves) && n <= |moves|
    ensures Climb(algorithm, inputs, start, moves, n, wires).best == MinFrom(start.best, Candidates(algorithm, inputs, start, moves, n, wires))
  {
    if n > 0 {
      ClimbIsMin(algorithm, inputs, start, moves, n - 1, wires);
      ClimbStep(algorithm, inputs, start, moves, n, wires);
    }
  }

  /** Iteration n keeps the best fitness equal to the running minimum of the mutants' fitnesses. */
  lemma ClimbStep(algorithm: Algorithm, inputs: set<seq<int>>, start: Climber, moves: seq<Move>, n: nat, wires: int)
    requires 0 < wires <= |start.network| && Redrawable(moves) && 0 < n <= |moves|
    requires Climb(algorithm, inputs, start, moves, n - 1, wires).best
      == MinFrom(start.best, Candidates(algorithm, inputs, start, moves, n - 1, wires))
    ensures Climb(algorithm, inputs, start, moves, n, wires).best == MinFrom(start.best, Candidates(algorithm, inputs, start, moves, n, wires))
  {
    var s := Climb(algorithm, inputs, start, moves, n - 1, wires);
    var mv := moves[n - 1];
    NextRule(algorithm, inputs, s, mv, n, wires);
    MinStep(start.best, Candidates(algorithm, inputs, start, moves, n - 1, wires), Fitness(Mutant(s, mv, wires), inputs),
            s.best, Climb(algorithm, inputs, start, moves, n, wires).best, Candidates(algorithm, inputs, start, moves, n, wires));
  }

  /**
   * The whole inner loop, as written, never changes a comparator at a
   * position at or beyond the wire count: such a comparator of the start
   * network is still there after every move.
   */
  lemma {:induction false} ClimbKeepsTail(algorithm: Algorithm, inputs: set<seq<int>>, start: Climber, moves: seq<Move>,
                                          n: nat, wires: int, k: int)
    requires 0 < wires <= |start.network| && Redrawable(moves) && n <= |moves|
    requires wires <= k < |start.network|
    ensures Climb(algorithm, inputs, start, moves, n, wires).network[k] == start.network[k]
  {
    if n > 0 {
      ClimbKeepsTail(algorithm, inputs, start, moves, n - 1, wires, k);
      NextKeepsTail(algorithm, inputs, Climb(algorithm, inputs, start, moves, n - 1, wires), moves[n - 1], n, wires, k);
    }
  }

  /** One iteration as written leaves a comparator at a position at or beyond the wire count alone. */
  lemma NextKeepsTail(algorithm: Algorithm, inputs: set<seq<int>>, s: Climber, mv: Move, j: int, wires: int, k: int)
    requires 0 < wires <= k < |s.network| && Differs(mv.draws)
    ensures Next(algorithm, inputs, s, mv, j, wires).network[k] == s.network[k]
  {
    NextRule(algorithm, inputs, s, mv, j, wires);
    MutationMissesTail(s.network, wires, mv.index, mv.draws, k);
  }

  /**
   * One iteration: the best fitness becomes the smaller of itself and the
   * mutant's; under HC the state changes exactly on a strict improvement;
   * the network is either kept or replaced by the mutant; and under SA an
   * accept draw of 0 always takes the mutant, since Budget - j >= 1.
   */
  lemma NextRule(algorithm: Algorithm, inputs: set<seq<int>>, s: Climber, mv: Move, j: int, wires: int)
    requires 0 < wires <= |s.network| && Differs(mv.draws)
    ensures Next(algorithm, inputs, s, mv, j, wires).best == Min(s.best, Fitness(Mutant(s, mv, wires), inputs))
    ensures Next(algorithm, inputs, s, mv, j, wires) == s || Next(algorithm, inputs, s, mv, j, wires).network == Mutant(s, mv, wires)
    ensures algorithm == HC ==> (Next(algorithm, inputs, s, mv, j, wires) != s <==> Fitness(Mutant(s, mv, wires), inputs) < s.best)
    ensures algorithm == SA && j < Budget && NextInt(mv.accept, Budget) == 0
      ==> Next(algorithm, inputs, s, mv, j, wires).network == Mutant(s, mv, wires)
  {
  }

  /** getGreen32 as written: the 32 comparators added one by one, layer after layer. */
  method GetGreen32() returns (green32: ComparisonNetwork)
    ensures fresh(green32) && green32.wires == 16 && green32.comparisons == Green32Layers()
  {
    var comparators: seq<Comparator> := [];
    comparators := comparators + [Comparator(0, 1), Comparator(2, 3), Comparator(4, 5), Comparator(6, 7)];
    comparators := comparators + [Comparator(8, 9), Comparator(10, 11), Comparator(12, 13), Comparator(14, 15)];
    comparators := comparators + [Comparator(0, 2), Comparator(1, 3), Comparator(4, 6), Comparator(5, 7)];
    comparators := comparators + [Comparator(8, 10), Comparator(9, 11), Comparator(12, 14), Comparator(13, 15)];
    comparators := comparators + [Comparator(0, 4), Comparator(1, 5), Comparator(2, 6), Comparator(3, 7)];
    comparators := comparators + [Comparator(8, 12), Comparator(9, 13), Comparator(10, 14), Comparator(11, 15)];
    comparators := comparators + [Comparator(0, 8), Comparator(1, 9), Comparator(2, 10), Comparator(3, 11)];
    comparators := comparators + [Comparator(4, 12), Comparator(5, 13), Comparator(6, 14), Comparator(7, 15)];
    green32 := new ComparisonNetwork.WithList(16, comparators);
  }

  /**
   * The same four layers as a rule: neighbours; two apart in blocks of four;
   * four apart, first half then second half; eight apart.
   */
  function Green32Layers(): seq<Comparator>
  {
    seq(8, k => Comparator(2 * k, 2 * k + 1)) +
    seq(8, k => if k % 2 == 0 then Comparator(2 * k, 2 * k + 2) else Comparator(2 * k - 1, 2 * k + 1)) +
    seq(8, k => if k < 4 then Comparator(k, k + 4) else Comparator(k + 4, k + 8)) +
    seq(8, k => Comparator(k, k + 8))
  }

  /** Green32 has 32 comparators on 16 wires, each with its first wire the lower. */
  lemma Green32Shape()
    ensures |Green32Layers()| == 32
    ensures forall i :: 0 <= i < 32 ==> 0 <= Green32Layers()[i].wireOne < Green32Layers()[i].wireTwo < 16
  {
  }
}
