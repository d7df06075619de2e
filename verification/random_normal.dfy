/**
 * The plain random-search experiment of the 0/1 engine: for one wire count,
 * a number of random networks of the best known size are drawn and the one
 * leaving the fewest unsorted outputs is kept, the first one drawn on a tie.
 */
module RandomNormal {
  import opened Comparators
  import opened Networks
  import opened NetworkUtilities
  import opened Experiments

  /** Every trial draws size comparators on numWires wires. */
  predicate ValidTrials(trials: seq<seq<Draw>>, numWires: nat, size: nat)
  {
    forall j :: 0 <= j < |trials| ==> |trials[j]| == size && ValidDraws(trials[j], numWires)
  }

  /** The networks of the trials, each with its score. */
  function Trials(trials: seq<seq<Draw>>, n: nat, size: nat): (ts: seq<Scored>)
    requires ValidTrials(trials, n, size)
    ensures |ts| == |trials|
  {
    seq(|trials|, j requires 0 <= j < |trials| => Score(RandomNetwork(trials[j], n), n))
  }

  /** One more trial adds one scored network. */
  lemma TrialsNext(trials: seq<seq<Draw>>, n: nat, size: nat, j: nat)
    requires ValidTrials(trials, n, size) && j < |trials|
    ensures ValidTrials(trials[..j], n, size) && ValidTrials(trials[..j + 1], n, size)
    ensures Trials(trials[..j + 1], n, size) == Trials(trials[..j], n, size) + [Score(RandomNetwork(trials[j], n), n)]
  {
    assert ValidTrials(trials[..j], n, size);
    assert ValidTrials(trials[..j + 1], n, size);
  }

  /** The best network after the trials: the first one, replaced on strict improvement. */
  function BestTrial(trials: seq<seq<Draw>>, n: nat, size: nat): seq<Comparator>
    requires ValidTrials(trials, n, size) && trials != []
  {
    Pick(Score(RandomNetwork(trials[0], n), n), Trials(trials, n, size)).network
  }

  /**
   * The best network is trial j's, leaves no more unsorted outputs than any
   * trial, and strictly fewer than every trial before j.
   */
  lemma BestTrialIsMin(trials: seq<seq<Draw>>, n: nat, size: nat) returns (j: nat)
    requires ValidTrials(trials, n, size) && trials != []
    ensures j < |trials| && BestTrial(trials, n, size) == RandomNetwork(trials[j], n)
    ensures forall k :: 0 <= k < |trials| ==>
      Fitness(BestTrial(trials, n, size), n) <= Fitness(RandomNetwork(trials[k], n), n)
    ensures forall k :: 0 <= k < j ==>
      Fitness(BestTrial(trials, n, size), n) < Fitness(RandomNetwork(trials[k], n), n)
  {
    var first := Score(RandomNetwork(trials[0], n), n);
    var ts := Trials(trials, n, size);
    var i := PickIsBest(first, ts);
    var best := Pick(first, ts);
    j := if i < 0 then 0 else i;
    forall k | 0 <= k < |trials|
      ensures best.score <= Fitness(RandomNetwork(trials[k], n), n)
      ensures k < j ==> best.score < Fitness(RandomNetwork(trials[k], n), n)
    {
      assert ts[k].score == Fitness(RandomNetwork(trials[k], n), n);
    }
  }

  /** createRandomNetwork: size comparators, each within the wires. */
  method CreateRandomNetwork(numWires: nat, numComparators: nat, draws: seq<Draw>)
    returns (randomNetwork: ComparisonNetwork)
    requires |draws| == numComparators && ValidDraws(draws, numWires)
    ensures fresh(randomNetwork) && fresh(randomNetwork.network) && randomNetwork.numWires == numWires
    ensures randomNetwork.network.items == RandomNetwork(draws, numWires)
    ensures randomNetwork.Size() == numComparators && InRange(randomNetwork.network.items, numWires)
  {
    randomNetwork := NetworkUtilities.CreateRandomNetwork(numWires, numComparators, draws);
  }

  /**
   * The trial loop for one wire count: the best network starts empty with no
   * outputs, the first trial becomes the best, and a later trial replaces it
   * only with strictly fewer unsorted outputs.
   */
  method BestRandomNetwork(numWires: nat, size: nat, trials: seq<seq<Draw>>)
    returns (bestNetwork: ComparisonNetwork, bestUnsortedOutputs: set<seq<int>>)
    requires ValidTrials(trials, numWires, size)
    ensures bestNetwork.numWires == numWires
    ensures trials == [] ==> bestNetwork.network.items == [] && bestUnsortedOutputs == {}
    ensures trials != [] ==> bestNetwork.network.items == BestTrial(trials, numWires, size)
    ensures trials != [] ==> InRange(bestNetwork.network.items, numWires)
    ensures trials != [] ==> bestUnsortedOutputs == UnsortedAll(bestNetwork.network.items, numWires)
  {
    bestNetwork := new ComparisonNetwork(numWires);
    bestUnsortedOutputs := {};
    for j := 0 to |trials|
      invariant bestNetwork.numWires == numWires
      invariant BestAfter(trials, numWires, size, j, bestNetwork.network.items, bestUnsortedOutputs)
    {
      bestNetwork, bestUnsortedOutputs := NextTrial(numWires, size, trials, j, bestNetwork, bestUnsortedOutputs);
    }
    assert trials[..|trials|] == trials;
  }

  /** The invariant of the trial loop: the best after the first j trials. */
  predicate BestAfter(trials: seq<seq<Draw>>, n: nat, size: nat, j: nat,
                      best: seq<Comparator>, outputs: set<seq<int>>)
    requires ValidTrials(trials, n, size) && j <= |trials|
  {
    (j == 0 ==> best == [] && outputs == {}) &&
    (j > 0 ==> (ValidTrials(trials[..j], n, size) && InRange(best, n) &&
      Score(best, n) == Pick(Score(RandomNetwork(trials[0], n), n), Trials(trials[..j], n, size)) &&
      outputs == UnsortedAll(best, n)))
  }

  /** The body of the trial loop: trial j, and the invariant is kept. */
  method NextTrial(numWires: nat, size: nat, trials: seq<seq<Draw>>, j: nat,
                   best: ComparisonNetwork, bestOutputs: set<seq<int>>)
    returns (bestNetwork: ComparisonNetwork, bestUnsortedOutputs: set<seq<int>>)
    requires ValidTrials(trials, numWires, size) && j < |trials|
    requires best.numWires == numWires
    requires BestAfter(trials, numWires, size, j, best.network.items, bestOutputs)
    ensures bestNetwork.numWires == numWires
    ensures BestAfter(trials, numWires, size, j + 1, bestNetwork.network.items, bestUnsortedOutputs)
  {
    TrialsNext(trials, numWires, size, j);
    var first := Score(RandomNetwork(trials[0], numWires), numWires);
    PickAppend(first, Trials(trials[..j], numWires, size), Score(RandomNetwork(trials[j], numWires), numWires));
    if j == 0 {
      assert Trials(trials[..0], numWires, size) == [];
    }
    bestNetwork, bestUnsortedOutputs := best, bestOutputs;
    var randomNetwork := CreateRandomNetwork(numWires, size, trials[j]);
    var unsortedOutputs := randomNetwork.OperateOnAllBinary();
    if j == 0 {
      bestUnsortedOutputs := unsortedOutputs;
      bestNetwork := randomNetwork;
    }
    if |unsortedOutputs| < |bestUnsortedOutputs| {
      bestUnsortedOutputs := unsortedOutputs;
      bestNetwork := randomNetwork;
    }
  }
}
