/**
 * The random completion experiment of the 0/1 engine: random networks of 28
 * comparators on 16 wires are tried as the second half of a sorter whose
 * first half is Green32, so each one is run only on the inputs Green32 leaves
 * unsorted. The best starts as the empty network with all of those outputs
 * and is replaced only by a strictly better candidate.
 */
module RandomCompleter {
  import opened Comparators
  import opened Networks
  import opened NetworkUtilities
  import opened Experiments
  import opened BinarySequences
  import opened Binary

  const NumWires := 16
  const NumComparators := 28

  /** A candidate scored by the unsorted outputs it leaves on the given inputs only. */
  function Completion(cs: seq<Comparator>, inputs: set<seq<int>>): Scored
  {
    Scored(cs, |UnsortedOutputs(cs, inputs)|)
  }

  /** Every trial draws 28 comparators on 16 wires. */
  predicate ValidTrials(trials: seq<seq<Draw>>)
  {
    forall j :: 0 <= j < |trials| ==> |trials[j]| == NumComparators && ValidDraws(trials[j], NumWires)
  }

  /** The candidates of the trials, each scored on the inputs. */
  function Candidates(trials: seq<seq<Draw>>, inputs: set<seq<int>>): (cs: seq<Scored>)
    requires ValidTrials(trials)
    ensures |cs| == |trials|
    decreases |trials|
  {
    if trials == [] then []
    else
      var prefix := trials[..|trials| - 1];
      assert ValidTrials(prefix);
      Candidates(prefix, inputs) + [Completion(RandomNetwork(trials[|trials| - 1], NumWires), inputs)]
  }

  /** One more trial adds one scored candidate. */
  lemma CandidatesNext(trials: seq<seq<Draw>>, inputs: set<seq<int>>, i: nat)
    requires ValidTrials(trials) && i < |trials|
    ensures ValidTrials(trials[..i]) && ValidTrials(trials[..i + 1])
    ensures Candidates(trials[..i + 1], inputs) ==
      Candidates(trials[..i], inputs) + [Completion(RandomNetwork(trials[i], NumWires), inputs)]
  {
    assert ValidTrials(trials[..i]);
    assert ValidTrials(trials[..i + 1]);
    assert trials[..i + 1][..i] == trials[..i];
  }

  /** Candidate k is trial k's network, scored on the inputs. */
  lemma {:induction false} CandidateAt(trials: seq<seq<Draw>>, inputs: set<seq<int>>, k: nat)
    requires ValidTrials(trials) && k < |trials|
    ensures Candidates(trials, inputs)[k] == Completion(RandomNetwork(trials[k], NumWires), inputs)
    decreases |trials|
  {
    if k < |trials| - 1 {
      var prefix := trials[..|trials| - 1];
      assert ValidTrials(prefix);
      CandidateAt(prefix, inputs, k);
    }
  }

  /** The best completion: the empty network, replaced by a candidate only on strict improvement. */
  function BestCompletion(inputs: set<seq<int>>, trials: seq<seq<Draw>>): seq<Comparator>
    requires ValidTrials(trials)
  {
    Pick(Completion([], inputs), Candidates(trials, inputs)).network
  }

  /**
   * The best completion is the empty network (j = -1) or trial j's network,
   * which then leaves strictly fewer unsorted outputs than the empty one; and
   * it leaves no more than the empty network or any trial.
   */
  lemma CompletionIsBest(inputs: set<seq<int>>, trials: seq<seq<Draw>>) returns (j: int)
    requires ValidTrials(trials)
    ensures -1 <= j < |trials|
    ensures j < 0 ==> BestCompletion(inputs, trials) == []
    ensures j >= 0 ==> BestCompletion(inputs, trials) == RandomNetwork(trials[j], NumWires)
    ensures j >= 0 ==> |UnsortedOutputs(BestCompletion(inputs, trials), inputs)| < |UnsortedOutputs([], inputs)|
    ensures |UnsortedOutputs(BestCompletion(inputs, trials), inputs)| <= |UnsortedOutputs([], inputs)|
    ensures forall k :: 0 <= k < |trials| ==>
      |UnsortedOutputs(BestCompletion(inputs, trials), inputs)| <= |UnsortedOutputs(RandomNetwork(trials[k], NumWires), inputs)|
  {
    var empty := Completion([], inputs);
    var cands := Candidates(trials, inputs);
    j := PickIsBest(empty, cands);
    var best := Pick(empty, cands);
    if j >= 0 {
      CandidateAt(trials, inputs, j);
    }
    forall k | 0 <= k < |trials|
      ensures best.score <= |UnsortedOutputs(RandomNetwork(trials[k], NumWires), inputs)|
    {
      CandidateAt(trials, inputs, k);
    }
  }

  /** When no trial does strictly better than the empty network, the best stays the empty network. */
  lemma NoImprovementKeepsEmpty(inputs: set<seq<int>>, trials: seq<seq<Draw>>)
    requires ValidTrials(trials)
    requires forall k :: 0 <= k < |trials| ==>
      |UnsortedOutputs([], inputs)| <= |UnsortedOutputs(RandomNetwork(trials[k], NumWires), inputs)|
    ensures BestCompletion(inputs, trials) == []
  {
    var j := CompletionIsBest(inputs, trials);
  }

  /** Every output a network leaves unsorted is an n-long unsorted sequence, so the empty network leaves them all. */
  lemma OutputsUnsorted(cs: seq<Comparator>, n: nat, outputs: set<seq<int>>)
    requires InRange(cs, n) && outputs == UnsortedAll(cs, n)
    ensures forall s :: s in outputs ==> |s| == n && !Sorted(s)
    ensures UnsortedOutputs([], outputs) == outputs
  {
    forall s | s in outputs
      ensures |s| == n && !Sorted(s)
    {
      var v := UnsortedBetweenFrom(cs, n, 1, Pow2(n), s);
    }
    EmptyNetworkOutputs(outputs);
  }

  /** The loop invariant holds before the first trial. */
  lemma BestAfterStart(inputs: set<seq<int>>, trials: seq<seq<Draw>>)
    requires ValidTrials(trials) && UnsortedOutputs([], inputs) == inputs
    ensures BestAfter(inputs, trials, 0, [], inputs)
  {
    assert Candidates(trials[..0], inputs) == [];
  }

  /** On the Green32 outputs, the best completion never leaves more than Green32 left. */
  lemma CompletionNeverWorse(green: set<seq<int>>, trials: seq<seq<Draw>>)
    requires green == UnsortedAll(Green32(), NumWires) && ValidTrials(trials)
    ensures |UnsortedOutputs(BestCompletion(green, trials), green)| <= |green|
  {
    var j := CompletionIsBest(green, trials);
    OutputsUnsorted(Green32(), NumWires, green);
  }

  /** createRandomNetwork: 28 comparators on 16 wires. */
  method CreateRandomNetwork(draws: seq<Draw>) returns (randomNetwork: ComparisonNetwork)
    requires |draws| == NumComparators && ValidDraws(draws, NumWires)
    ensures fresh(randomNetwork) && fresh(randomNetwork.network) && randomNetwork.numWires == NumWires
    ensures randomNetwork.network.items == RandomNetwork(draws, NumWires)
    ensures randomNetwork.Size() == NumComparators && InRange(randomNetwork.network.items, NumWires)
  {
    randomNetwork := NetworkUtilities.CreateRandomNetwork(NumWires, NumComparators, draws);
  }

  /**
   * The trial loop: the best starts as an empty 16-wire network with the
   * Green32 outputs, and each candidate, run on those outputs only, replaces
   * it when it leaves strictly fewer unsorted.
   */
  method Complete(trials: seq<seq<Draw>>) returns (bestNetwork: ComparisonNetwork, bestUnsortedOutputs: set<seq<int>>)
    requires ValidTrials(trials)
    ensures bestNetwork.numWires == NumWires
    ensures bestNetwork.network.items == BestCompletion(UnsortedAll(Green32(), NumWires), trials)
    ensures bestUnsortedOutputs == UnsortedOutputs(bestNetwork.network.items, UnsortedAll(Green32(), NumWires))
  {
    var unsortedGreenOutputs;
    bestNetwork, unsortedGreenOutputs, bestUnsortedOutputs := Begin(trials);
    bestNetwork, bestUnsortedOutputs := Search(unsortedGreenOutputs, trials, bestNetwork, bestUnsortedOutputs);
  }

  /** The set-up before the loop: an empty 16-wire network, with the Green32 outputs as its outputs. */
  method Begin(trials: seq<seq<Draw>>)
    returns (bestNetwork: ComparisonNetwork, unsortedGreenOutputs: set<seq<int>>, bestUnsortedOutputs: set<seq<int>>)
    requires ValidTrials(trials)
    ensures bestNetwork.numWires == NumWires && bestNetwork.network.items == []
    ensures unsortedGreenOutputs == UnsortedAll(Green32(), NumWires) && bestUnsortedOutputs == unsortedGreenOutputs
    ensures forall s :: s in unsortedGreenOutputs ==> |s| == NumWires
    ensures BestAfter(unsortedGreenOutputs, trials, 0, bestNetwork.network.items, bestUnsortedOutputs)
  {
    bestNetwork := new ComparisonNetwork(NumWires);
    unsortedGreenOutputs := GetGreen32Outputs();
    bestUnsortedOutputs := unsortedGreenOutputs;
    OutputsUnsorted(Green32(), NumWires, unsortedGreenOutputs);
    BestAfterStart(unsortedGreenOutputs, trials);
  }

  /** The loop over the trials, from the empty network with the Green32 outputs. */
  method Search(unsortedGreenOutputs: set<seq<int>>, trials: seq<seq<Draw>>,
                start: ComparisonNetwork, startOutputs: set<seq<int>>)
    returns (bestNetwork: ComparisonNetwork, bestUnsortedOutputs: set<seq<int>>)
    requires ValidTrials(trials) && start.numWires == NumWires
    requires forall s :: s in unsortedGreenOutputs ==> |s| == NumWires
    requires BestAfter(unsortedGreenOutputs, trials, 0, start.network.items, startOutputs)
    ensures bestNetwork.numWires == NumWires
    ensures bestNetwork.network.items == BestCompletion(unsortedGreenOutputs, trials)
    ensures bestUnsortedOutputs == UnsortedOutputs(bestNetwork.network.items, unsortedGreenOutputs)
  {
    bestNetwork, bestUnsortedOutputs := start, startOutputs;
    for i := 0 to |trials|
      invariant bestNetwork.numWires == NumWires
      invariant BestAfter(unsortedGreenOutputs, trials, i, bestNetwork.network.items, bestUnsortedOutputs)
    {
      bestNetwork, bestUnsortedOutputs := NextCandidate(unsortedGreenOutputs, trials, i, bestNetwork, bestUnsortedOutputs);
    }
    assert trials[..|trials|] == trials;
  }

  /** The invariant of the trial loop: the best after the first i trials, with its outputs on the inputs. */
  predicate BestAfter(inputs: set<seq<int>>, trials: seq<seq<Draw>>, i: nat, best: seq<Comparator>, outputs: set<seq<int>>)
    requires ValidTrials(trials) && i <= |trials|
  {
    ValidTrials(trials[..i]) &&
    Completion(best, inputs) == Pick(Completion([], inputs), Candidates(trials[..i], inputs)) &&
    outputs == UnsortedOutputs(best, inputs)
  }

  /** The body of the trial loop: candidate i, and the invariant is kept. */
  method NextCandidate(unsortedGreenOutputs: set<seq<int>>, trials: seq<seq<Draw>>, i: nat,
                       best: ComparisonNetwork, bestOutputs: set<seq<int>>)
    returns (bestNetwork: ComparisonNetwork, bestUnsortedOutputs: set<seq<int>>)
    requires ValidTrials(trials) && i < |trials|
    requires forall s :: s in unsortedGreenOutputs ==> |s| == NumWires
    requires best.numWires == NumWires
    requires BestAfter(unsortedGreenOutputs, trials, i, best.network.items, bestOutputs)
    ensures bestNetwork.numWires == NumWires
    ensures BestAfter(unsortedGreenOutputs, trials, i + 1, bestNetwork.network.items, bestUnsortedOutputs)
  {
    CandidatesNext(trials, unsortedGreenOutputs, i);
    PickAppend(Completion([], unsortedGreenOutputs), Candidates(trials[..i], unsortedGreenOutputs),
      Completion(RandomNetwork(trials[i], NumWires), unsortedGreenOutputs));
    bestNetwork, bestUnsortedOutputs := best, bestOutputs;
    var randomNetwork := CreateRandomNetwork(trials[i]);
    var unsortedOutputs := randomNetwork.OperateOnTheseBinary(unsortedGreenOutputs);
    if |unsortedOutputs| < |bestUnsortedOutputs| {
      bestUnsortedOutputs := unsortedOutputs;
      bestNetwork := randomNetwork;
    }
  }
}
