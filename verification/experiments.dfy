/**
 * What the random-search experiments on the 0/1 engine share: the table of
 * the best known network sizes they build at start-up, and the fitness they
 * minimise (the number of unsorted outputs over every input).
 */
module Experiments {
  import opened Comparators
  import opened Networks
  import opened NetworkUtilities

  const MinWires := 12
  const MaxWires := 17

  /** The number of unsorted outputs over all 2^n inputs: 0 exactly for a sorting network. */
  function Fitness(cs: seq<Comparator>, n: nat): nat
    requires InRange(cs, n)
  {
    |UnsortedAll(cs, n)|
  }

  /** The network createRandomNetwork builds from its draws. */
  function RandomNetwork(draws: seq<Draw>, n: nat): (cs: seq<Comparator>)
    requires ValidDraws(draws, n)
    ensures |cs| == |draws| && InRange(cs, n)
  {
    RandomNetworkWires(draws, n);
    InsertAll(draws)
  }

  /** A network together with the size of its fitness set. */
  datatype Scored = Scored(network: seq<Comparator>, score: nat)

  function Score(cs: seq<Comparator>, n: nat): (s: Scored)
    requires InRange(cs, n)
    ensures s.network == cs && s.score == |UnsortedAll(cs, n)|
  {
    Scored(cs, Fitness(cs, n))
  }

  /**
   * The best-so-far after the candidates are tried in order, starting from the
   * initial one: a candidate replaces it only when its score is strictly lower.
   */
  function Pick(initial: Scored, candidates: seq<Scored>): Scored
    decreases |candidates|
  {
    if candidates == [] then initial
    else
      var best := Pick(initial, candidates[..|candidates| - 1]);
      var c := candidates[|candidates| - 1];
      if c.score < best.score then c else best
  }

  /** Trying one more candidate. */
  lemma PickAppend(initial: Scored, candidates: seq<Scored>, c: Scored)
    ensures Pick(initial, candidates + [c]) ==
      if c.score < Pick(initial, candidates).score then c else Pick(initial, candidates)
  {
    assert (candidates + [c])[..|candidates|] == candidates;
  }

  /**
   * The pick has the lowest score of the initial one and the candidates, and
   * on a tie it is the earliest: it is the initial one (j = -1) or candidate j,
   * and everything tried before it scores strictly higher.
   */
  lemma {:induction false} PickIsBest(initial: Scored, candidates: seq<Scored>) returns (j: int)
    ensures -1 <= j < |candidates|
    ensures Pick(initial, candidates) == if j < 0 then initial else candidates[j]
    ensures Pick(initial, candidates).score <= initial.score
    ensures forall k :: 0 <= k < |candidates| ==> Pick(initial, candidates).score <= candidates[k].score
    ensures j >= 0 ==> Pick(initial, candidates).score < initial.score
    ensures forall k :: 0 <= k < j ==> Pick(initial, candidates).score < candidates[k].score
    decreases |candidates|
  {
    if candidates != [] {
      var prefix := candidates[..|candidates| - 1];
      var i := PickIsBest(initial, prefix);
      j := PickStep(initial, candidates, prefix, i);
    } else {
      j := -1;
    }
  }

  /** The inductive step of PickIsBest. */
  lemma PickStep(initial: Scored, candidates: seq<Scored>, prefix: seq<Scored>, i: int) returns (j: int)
    requires candidates != [] && prefix == candidates[..|candidates| - 1]
    requires -1 <= i < |prefix|
    requires Pick(initial, prefix) == if i < 0 then initial else prefix[i]
    requires Pick(initial, prefix).score <= initial.score
    requires forall k :: 0 <= k < |prefix| ==> Pick(initial, prefix).score <= prefix[k].score
    requires i >= 0 ==> Pick(initial, prefix).score < initial.score
    requires forall k :: 0 <= k < i ==> Pick(initial, prefix).score < prefix[k].score
    ensures -1 <= j < |candidates|
    ensures Pick(initial, candidates) == if j < 0 then initial else candidates[j]
    ensures Pick(initial, candidates).score <= initial.score
    ensures forall k :: 0 <= k < |candidates| ==> Pick(initial, candidates).score <= candidates[k].score
    ensures j >= 0 ==> Pick(initial, candidates).score < initial.score
    ensures forall k :: 0 <= k < j ==> Pick(initial, candidates).score < candidates[k].score
  {
    var last := |candidates| - 1;
    var p := Pick(initial, prefix);
    j := if candidates[last].score < p.score then last else i;
    forall k | 0 <= k < |candidates|
      ensures Pick(initial, candidates).score <= candidates[k].score
      ensures k < j ==> Pick(initial, candidates).score < candidates[k].score
    {
      if k < last {
        assert candidates[k] == prefix[k];
      }
    }
  }

  /** The size the table gives a wire count, when it gives one. */
  function SizeFor(wires: int): int
  {
    if wires == 12 then 39
    else if wires == 13 then 45
    else if wires == 14 then 51
    else if wires == 15 then 56
    else 60
  }

  /** The wiresToSize loop: one entry per wire count from 12 to 16, set by the switch. */
  method WiresToSize() returns (wiresToSize: map<int, int>)
    ensures wiresToSize == map[12 := 39, 13 := 45, 14 := 51, 15 := 56, 16 := 60]
  {
    wiresToSize := map[];
    for i := MinWires to MaxWires
      invariant wiresToSize == map w | MinWires <= w < i :: SizeFor(w)
    {
      if i == 12 {
        wiresToSize := wiresToSize[i := 39];
      } else if i == 13 {
        wiresToSize := wiresToSize[i := 45];
      } else if i == 14 {
        wiresToSize := wiresToSize[i := 51];
      } else if i == 15 {
        wiresToSize := wiresToSize[i := 56];
      } else if i == 16 {
        wiresToSize := wiresToSize[i := 60];
      }
    }
  }
}
