# Sorting-network search: a verified model

This project models the core of a Java code base that searches for small
sorting networks. It has three engines and the search loops built on them.

- **The 0/1 engine.** A `BinarySequence` is an `int[]` of zeros and ones,
  changed in place by `sort(top, bottom)` and by the counter `incrementByOne`.
  - A `Comparator` stores `min`/`max` of its two wires.
  - A `ComparisonNetwork` owns an `ArrayList` of comparators. It evaluates one
    sequence, a given set of sequences, or every non-zero n-bit input counted
    up until the counter wraps. It collects the outputs left unsorted.
  - `NetworkUtilities` builds Green's 32-comparator prefix on 16 wires, random
    networks (random insertion positions) and the hill-climbing mutant.
  - `clone` and `hillClimbMutate` share the comparator list with their
    argument. The model keeps that sharing: the network holds a reference to a
    `ComparatorList` object.
- **Experiments on the 0/1 engine.** Three loops use the engine.
  - *Pure random sampling* keeps the first network and then every strictly
    better one.
  - *Hill climbing* runs K climbs and keeps the best overall result.
  - *Random completion of Green32* scores networks of 28 comparators on the
    outputs Green32 leaves unsorted (151 by the source's doc comment, not
    proved), and starts from the empty network.

  The size of each network comes from the wires-to-size table (12→39 …
  16→60). The fitness of a network is the number of distinct unsorted outputs.
- **The integer engine (SENSO).**
  - A network runs on an `int` whose bits are the wires. A step swaps two
    bits by XOR when that lowers the value.
  - An output counts as sorted when it is 0 or `2^k - 1`.
  - A `Lattice` holds, for one wire and for every input `i < 2^n`, the bit of
    `i` on that wire. It files these bits by level `n - popcount(i) + 1`, in
    increasing order of `i`.
  - Adding a comparator between two lattices replaces them by their AND and
    their OR.
  - The greedy synthesiser works subgoal by subgoal:
    - it scans for `zeros` and `ones`;
    - it ranks every candidate pair into utility tiers 2/1/0;
    - it picks at random from the best non-empty tier;
    - it adds that comparator to the network and both lattices, until nothing
      is left to fix.
- **The list engine.** A network runs on `ArrayList<Integer>` values.
  - `getAllBinarySequences` spells every `i < 2^w` as a zero-padded list of
    digits.
  - `randomize` draws comparators with `Comparator.getRandom`.
  - The `Tester` driver does random sampling and hill climbing. It also does
    an integer-only simulated annealing, which accepts a worse mutant when a
    draw falls below a threshold that shrinks linearly.

Every `java.util.Random` value is a parameter of the model: a `Draw`,
`Mutation` or `Move` record, or a sequence of drawn integers. Ranges are
stated as preconditions (`0 <= d < bound`). Where the bound is only known
inside the operation, `nextInt(bound)` is `draw % bound`. Java's hash sets
of sequences with structural `equals` become `set<seq<int>>`. Java's `int`
becomes `nat`. The bit engine bounds its inputs explicitly (`IntLimit = 2^31`).
The enumeration of the list engine and the lattice constructor take
unbounded wire counts. What Java's `int` does to them at 31 wires or more is
listed under "## Left out".

Module layout: one module per source class.

| source class | module |
|---|---|
| `BinarySequence` | `BinarySequences` |
| Jake's `Comparator` | `Comparators` |
| Jake's `ComparisonNetwork` | `Networks` |
| `NetworkUtilities` | `NetworkUtilities` |
| SENSO `Comparator` | `SensoComparators` |
| SENSO `ComparisonNetwork` | `SensoNetworks` |
| `Lattice` | `Lattices` |
| `GreedyAlgorithm` | `Greedy` |
| Wk1 `ComparisonNetwork` | `ListNetworks` |
| `Tester` | `Tester` |
| `RandomNetworksHillClimbing` | `HillClimbing` |
| `RandomNetworksNormal` | `RandomNormal` |
| `RandomCompleter` | `RandomCompleter` |

Supporting modules:
- `Binary` models the Java integer helpers: `Integer.toBinaryString`,
  `bitCount`, `>>`/`& 1`, `Math.pow(2, n)` and `nextInt`.
- `IntBits` models XOR, OR, shift and bit flips.
- `Experiments` holds what the three 0/1 experiments share.
- `Green32Agreement` relates the two hand-built Green32 prefixes.

## Model

| member | source | states |
|---|---|---|
| BinarySequences.BinarySequence.constructor | src/environment/BinarySequence.java:23-27 | the new sequence owns a fresh array of numWires entries, all 0 |
| BinarySequences.BinarySequence.Clone | src/environment/BinarySequence.java:34-36 | the copy owns a fresh array equal to the argument, so later writes to one do not reach the other |
| BinarySequences.BinarySequence.Sort | src/environment/BinarySequence.java:52-58 | the array becomes the compare-swap of its old contents at (top, bottom) |
| BinarySequences.CompareSwapEffect | src/environment/BinarySequence.java:52-58 | the swap keeps the multiset of values and every other position; it changes the sequence iff top holds 1 and bottom holds 0, and then leaves 0 at top and 1 at bottom |
| BinarySequences.CompareSwapOrders | src/environment/BinarySequence.java:52-58 | on 0/1 data the result is 0/1 and has a[top] <= a[bottom] |
| BinarySequences.CompareSwapIdempotent | src/environment/BinarySequence.java:52-58 | a second sort with the same wires changes nothing |
| BinarySequences.BinarySequence.IsSorted | src/environment/BinarySequence.java:65-70 | true iff every adjacent pair is non-decreasing |
| BinarySequences.SortedStaircase | src/environment/BinarySequence.java:65-70 | the all-zero sequence and every 0…01…1 sequence are sorted |
| BinarySequences.BinarySequence.IncrementByOne | src/environment/BinarySequence.java:75-88 | the array becomes the carry-increment of its old contents (index 0 most significant) |
| BinarySequences.IncrementShape | src/environment/BinarySequence.java:75-88 | the increment flips the trailing ones to 0 and the last 0 before them to 1, and keeps the prefix |
| BinarySequences.IncrementValue | src/environment/BinarySequence.java:75-88 | on 0/1 data the value v becomes (v + 1) mod 2^n and the result stays 0/1 |
| BinarySequences.IncrementToBits | src/environment/BinarySequence.java:75-88 | incrementing the n-bit spelling of x gives the n-bit spelling of x + 1 |
| BinarySequences.IncrementWraps | src/environment/BinarySequence.java:75-88 | all ones wrap round to all zeros |
| BinarySequences.BinarySequence.AllZeros | src/environment/BinarySequence.java:95-100 | true iff every entry is 0 |
| BinarySequences.BinarySequence.Equals | src/environment/BinarySequence.java:108-123 | the same object is equal; a missing object is not; otherwise the verdict of the elementwise scan, an index error when the other array is shorter |
| BinarySequences.CompareEqualLength | src/environment/BinarySequence.java:108-123 | for arrays of equal length the scan never fails, and says equal iff the arrays agree elementwise |
| Comparators.Create | JakeCode/environment/Comparator.java:31-34 | topWire <= bottomWire and the pair is the two arguments in some order |
| Comparators.CreateSymmetric | JakeCode/environment/Comparator.java:31-34 | the comparator made from (a, b) equals the one made from (b, a) |
| Comparators.Comparator.Sort | JakeCode/environment/Comparator.java:42-48 | the sequence's array becomes the compare-swap at (topWire, bottomWire) of its old contents |
| Comparators.SortOrdersPair | JakeCode/environment/Comparator.java:42-48 | the number of 1s is kept and on 0/1 data seq[top] <= seq[bottom] afterwards |
| BinarySequences.CompareSwapDegenerate | JakeCode/environment/Comparator.java:42-48 | a comparator whose two wires are the same never changes the sequence |
| Networks.ComparisonNetwork.WithList | JakeCode/environment/ComparisonNetwork.java:27-30 | the network keeps the given list object itself, not a copy |
| Networks.ComparisonNetwork.constructor | JakeCode/environment/ComparisonNetwork.java:35-38 | a fresh, empty comparator list |
| Networks.ComparisonNetwork.OperateOnOneBinary | JakeCode/environment/ComparisonNetwork.java:45-49 | the sequence becomes the left-to-right composition of the comparators' compare-swaps; the list is unchanged |
| Networks.ComparisonNetwork.RunCopy | JakeCode/environment/ComparisonNetwork.java:60-62 | a copy of the input is run through the network and its output is reported unsorted or not, with the input untouched |
| Networks.ComparisonNetwork.OperateOnTheseBinary | JakeCode/environment/ComparisonNetwork.java:57-66 | exactly the set of network outputs of the given inputs that are unsorted |
| Networks.UnsortedOutputsBound | JakeCode/environment/ComparisonNetwork.java:57-66 | there are no more unsorted outputs than inputs |
| Networks.EmptyNetworkOutputs | JakeCode/environment/ComparisonNetwork.java:45-66 | the empty network returns exactly the unsorted inputs |
| Networks.ComparisonNetwork.OperateOnAllBinary | JakeCode/environment/ComparisonNetwork.java:76-92 | exactly the unsorted outputs over the inputs 1 … 2^n - 1, fed in counting order until the counter wraps |
| Networks.ComparisonNetwork.EvaluateNext | JakeCode/environment/ComparisonNetwork.java:85-89 | one loop round: the output of input v is added iff unsorted, the counter moves to v + 1, and it reads zero iff v + 1 = 2^n |
| Networks.CounterStart | JakeCode/environment/ComparisonNetwork.java:78-81 | the first increment turns the all-zero counter into the spelling of 1 |
| Networks.CounterAtZero | JakeCode/environment/ComparisonNetwork.java:84-89 | the counter reads all zeros again exactly after 2^n - 1 increments |
| Networks.EnumerationIsBijective | JakeCode/environment/ComparisonNetwork.java:76-92 | the counter visits each non-zero n-bit 0/1 vector exactly once |
| Networks.UnsortedAllIsUnsortedOutputs | JakeCode/environment/ComparisonNetwork.java:76-92 | evaluating all inputs equals evaluating the set of non-zero n-bit inputs |
| Networks.UnsortedAllBound | JakeCode/environment/ComparisonNetwork.java:76-92 | at most 2^n - 1 unsorted outputs |
| Networks.ApplyZeros | JakeCode/environment/ComparisonNetwork.java:80-81 | the skipped all-zero input is left all zero, hence sorted |
| Networks.ApplyPermutes | JakeCode/environment/ComparisonNetwork.java:45-49 | running a network keeps the multiset of values and keeps 0/1 data 0/1 |
| Networks.SortsAllIffNoUnsorted | JakeCode/environment/ComparisonNetwork.java:76-92 | no unsorted outputs iff the network sorts every n-bit 0/1 input |
| Networks.ComparisonNetwork.AddComparator | JakeCode/environment/ComparisonNetwork.java:100-102 | the list gains one canonical comparator at its end |
| Networks.ComparisonNetwork.AddComparatorAt | JakeCode/environment/ComparisonNetwork.java:111-113 | the canonical comparator is inserted at i (0 <= i <= size) and later entries shift by one |
| Networks.ComparisonNetwork.Replace | JakeCode/environment/ComparisonNetwork.java:144-146 | only position index changes (0 <= index < size) |
| Networks.ComparisonNetwork.Clone | JakeCode/environment/ComparisonNetwork.java:151-153 | the clone shares this network's list object, and its wire count is this network's size |
| NetworkUtilities.Green32 | JakeCode/environment/NetworkUtilities.java:83-101 | the Green32 prefix has 32 comparators, all within 16 wires |
| NetworkUtilities.LayersShape | JakeCode/environment/NetworkUtilities.java:88-99 | every comparator of each of the four layers has top < bottom <= 15 |
| NetworkUtilities.Green32Shape | JakeCode/environment/NetworkUtilities.java:83-101 | 32 comparators on 16 wires, each with top < bottom |
| NetworkUtilities.CreateGreen32 | JakeCode/environment/NetworkUtilities.java:83-101 | a fresh 16-wire network whose list is the four layers in order |
| NetworkUtilities.AddLayer1 | JakeCode/environment/NetworkUtilities.java:88-89 | appends (i, i+1) for every even i |
| NetworkUtilities.AddLayer2 | JakeCode/environment/NetworkUtilities.java:90-93 | appends (i, i+2), (i+1, i+3) for i = 0, 4, 8, 12 |
| NetworkUtilities.AddLayer3 | JakeCode/environment/NetworkUtilities.java:94-97 | appends (i, i+4), (i+8, i+12) for i = 0 … 3 |
| NetworkUtilities.AddLayer4 | JakeCode/environment/NetworkUtilities.java:98-99 | appends (i, i+8) for i = 0 … 7 |
| NetworkUtilities.GetGreen32Outputs | JakeCode/environment/NetworkUtilities.java:22-25 | exactly the unsorted outputs of Green32 over all 16-bit inputs |
| NetworkUtilities.InsertAll | JakeCode/environment/NetworkUtilities.java:35-40 | one comparator per draw |
| NetworkUtilities.CreateRandomNetwork | JakeCode/environment/NetworkUtilities.java:32-42 | a fresh network on numWires wires whose list is the draws inserted one by one at their drawn positions |
| NetworkUtilities.RandomNetworkContents | JakeCode/environment/NetworkUtilities.java:32-42 | the random network holds exactly the drawn comparators, as a multiset |
| NetworkUtilities.RandomNetworkWires | JakeCode/environment/NetworkUtilities.java:32-42 | every comparator lies within [0, numWires) with top <= bottom |
| NetworkUtilities.HillClimbMutate | JakeCode/environment/NetworkUtilities.java:55-66 | the new network shares the argument's list and wire count, and that shared list changes only at the chosen index |
| NetworkUtilities.MutationKeepsShape | JakeCode/environment/NetworkUtilities.java:55-66 | a mutant keeps size and wire range and differs from the old list only at the chosen index |
| Experiments.WiresToSize | JakeCode/experiments/RandomNetworksHillClimbing.java:124-143 | the table maps 12→39, 13→45, 14→51, 15→56, 16→60 and nothing else |
| Experiments.RandomNetwork | JakeCode/experiments/RandomNetworksHillClimbing.java:200-209 | a random network has one comparator per draw, all within the wires |
| Experiments.PickIsBest | src/experiments/RandomNetworksNormal.java:94-101 | keeping a candidate only on strict improvement ends with the lowest score, the earliest on a tie, and never worse than the start |
| HillClimbing.Mutate | JakeCode/experiments/RandomNetworksHillClimbing.java:222-230 | the mutant as a separate list: a fresh network with one comparator replaced |
| HillClimbing.MutantInRange | JakeCode/experiments/RandomNetworksHillClimbing.java:222-230 | a mutant keeps every comparator within the wires |
| HillClimbing.Walk | JakeCode/experiments/RandomNetworksHillClimbing.java:164-172 | the shared list after the mutations keeps its size and wire range |
| HillClimbing.ClimbAsWritten | JakeCode/experiments/RandomNetworksHillClimbing.java:164-172 | the aliased climb: the shared list takes every mutation while the recorded outputs keep only the improvements |
| HillClimbing.WalkStep | JakeCode/experiments/RandomNetworksHillClimbing.java:164-172 | one round of the aliased climb: the list takes the mutation and the record changes only on a strictly smaller output set |
| HillClimbing.AliasedClimbLosesBest | JakeCode/experiments/RandomNetworksHillClimbing.java:222-230 | a two-wire case where the recorded outputs are empty but the network left behind leaves one output unsorted |
| HillClimbing.SorterOnTwo | JakeCode/environment/ComparisonNetwork.java:76-92 | the comparator (0, 1) sorts all two-wire inputs |
| HillClimbing.IdleOnTwo | JakeCode/environment/ComparisonNetwork.java:76-92 | the comparator (0, 0) leaves the input [1,0] unsorted |
| HillClimbing.Climbed | JakeCode/experiments/RandomNetworksHillClimbing.java:164-172 | the climbed network keeps its size and stays within the wires |
| HillClimbing.ClimbedStep | JakeCode/experiments/RandomNetworksHillClimbing.java:164-172 | one round: the mutant is kept iff its fitness is strictly lower |
| HillClimbing.ClimbNeverWorse | JakeCode/experiments/RandomNetworksHillClimbing.java:164-172 | the best-current fitness never increases along the climb |
| HillClimbing.TryMutation | JakeCode/experiments/RandomNetworksHillClimbing.java:165-171 | the mutant replaces the current best exactly when it has strictly fewer unsorted outputs, and the outputs follow the network |
| HillClimbing.Climb | JakeCode/experiments/RandomNetworksHillClimbing.java:164-172 | the climb (mutants on their own lists) ends with the climbed network and its exact unsorted outputs |
| HillClimbing.Start | JakeCode/experiments/RandomNetworksHillClimbing.java:154 | a run starts from a random network of the table size |
| HillClimbing.Finish | JakeCode/experiments/RandomNetworksHillClimbing.java:154-172 | a run ends with a network of the same size within the wires |
| HillClimbing.ClimbImproves | JakeCode/experiments/RandomNetworksHillClimbing.java:164-172 | a run never ends worse than its random start |
| HillClimbing.ResultsNext | JakeCode/experiments/RandomNetworksHillClimbing.java:152-177 | each finished run adds its final network to the results in order |
| HillClimbing.OverallNext | JakeCode/experiments/RandomNetworksHillClimbing.java:158-176 | the k==0 initialisation then strict improvement is the pick over the runs so far |
| HillClimbing.OverallIsBest | JakeCode/experiments/RandomNetworksHillClimbing.java:158-176 | the best overall is some run's result and has fitness no higher than every run's final network |
| HillClimbing.Iteration | JakeCode/experiments/RandomNetworksHillClimbing.java:154-176 | one outer round: climb, then replace the best overall (the run's start on the first round) only on strict improvement |
| HillClimbing.NextClimb | JakeCode/experiments/RandomNetworksHillClimbing.java:152-177 | the outer loop's invariant holds for one more run |
| HillClimbing.Experiment | JakeCode/experiments/RandomNetworksHillClimbing.java:147-177 | the experiment for one wire count ends with the best overall network and its exact unsorted outputs |
| RandomNormal.CreateRandomNetwork | src/experiments/RandomNetworksNormal.java:124-133 | exactly numComparators comparators, all within [0, numWires) |
| RandomNormal.TrialsNext | src/experiments/RandomNetworksNormal.java:90-102 | each trial adds its random network's score in order |
| RandomNormal.BestTrialIsMin | src/experiments/RandomNetworksNormal.java:90-102 | the best is one of the trials, no worse than any trial, and strictly better than every earlier one |
| RandomNormal.NextTrial | src/experiments/RandomNetworksNormal.java:91-101 | the first trial initialises the best; later trials replace it only on strict improvement |
| RandomNormal.BestRandomNetwork | src/experiments/RandomNetworksNormal.java:84-102 | with no trials the best stays empty; otherwise it is the best trial with its exact unsorted outputs |
| RandomCompleter.CreateRandomNetwork | src/experiments/RandomCompleter.java:53-63 | 28 comparators on 16 wires |
| RandomCompleter.OutputsUnsorted | src/experiments/RandomCompleter.java:30-31 | Green32's outputs are all 16 long and unsorted, so the empty network leaves all of them unsorted |
| RandomCompleter.BestAfterStart | src/experiments/RandomCompleter.java:29-31 | the search starts from the empty network with the Green32 outputs as its score |
| RandomCompleter.Begin | src/experiments/RandomCompleter.java:29-31 | an empty 16-wire network, and the Green32 outputs as both the inputs and the best outputs |
| RandomCompleter.CandidatesNext | src/experiments/RandomCompleter.java:33-41 | each trial adds its network scored on the Green32 outputs |
| RandomCompleter.CandidateAt | src/experiments/RandomCompleter.java:36 | candidate k is trial k's network scored on the given inputs only |
| RandomCompleter.NextCandidate | src/experiments/RandomCompleter.java:35-40 | one trial: the best changes only on strictly fewer unsorted outputs |
| RandomCompleter.Search | src/experiments/RandomCompleter.java:33-41 | the loop ends with the best completion and its unsorted outputs among the Green32 outputs |
| RandomCompleter.Complete | src/experiments/RandomCompleter.java:27-41 | the program ends with the best completion of Green32 and its exact unsorted outputs |
| RandomCompleter.CompletionIsBest | src/experiments/RandomCompleter.java:33-41 | the best is the empty network or a trial that strictly improves on it, and is no worse than the empty network or any trial |
| RandomCompleter.NoImprovementKeepsEmpty | src/experiments/RandomCompleter.java:29-40 | if no trial beats the start, the best network stays the empty one |
| RandomCompleter.CompletionNeverWorse | src/experiments/RandomCompleter.java:31-40 | the final best count is at most the number of Green32 outputs |
| SensoComparators.Ordered | CalebCode/Wk1/SENSO/src/Comparator.java:33 | the smaller wire comes first and the pair is the two draws in some order |
| SensoComparators.OrderedSymmetric | CalebCode/Wk1/SENSO/src/Comparator.java:33 | the order of the two different draws does not matter, and the result has wireOne < wireTwo |
| SensoComparators.Redraw | CalebCode/Wk1/SENSO/src/Comparator.java:30-31 | the redraw loop stops at the first draw that differs from wireOne |
| SensoComparators.DrawnMeaning | CalebCode/Wk1/SENSO/src/Comparator.java:27-33 | the result is the first draw with the first later draw that differs from it, smaller first, with wireOne < wireTwo |
| SensoComparators.DrawnWithin | CalebCode/Wk1/SENSO/src/Comparator.java:27-33 | draws in [0, wires) give 0 <= wireOne < wireTwo < wires |
| SensoComparators.GetRandom | CalebCode/Wk1/SENSO/src/Comparator.java:25-34 | two different wires in [0, wires), smaller first, chosen as the redraw loop chooses them |
| Binary.NextInt | CalebCode/Wk1/SENSO/src/GreedyAlgorithm.java:117 | a drawn index is below its bound |
| Binary.AllLowOnesIsMersenne | CalebCode/Wk1/SENSO/src/ComparisonNetwork.java:65 | bit length equal to popcount iff the value is 2^k - 1 |
| Binary.PopcountBounds | CalebCode/Wk1/SENSO/src/ComparisonNetwork.java:65 | popcount is at most the bit length and positive for non-zero values |
| Binary.PaddedBinaryString | CalebCode/Wk1/SENSO/src/Lattice.java:20-21 | the zero-filled binary string of i < 2^n is the MSB-first n-digit spelling of i |
| Binary.ValueOfToBits | JakeCode/environment/ComparisonNetwork.java:76-92 | the value of the n-bit spelling of x < 2^n is x |
| Binary.ToBitsOfValue | JakeCode/environment/ComparisonNetwork.java:76-92 | every 0/1 sequence is the spelling of its value, which is below 2^length |
| IntBits.XorBit | CalebCode/Wk1/SENSO/src/ComparisonNetwork.java:39 | bit k of a ^ b is the sum of the bits mod 2 |
| IntBits.OrBit | CalebCode/Wk1/SENSO/src/ComparisonNetwork.java:41 | bit k of a \| b is 1 iff either bit is 1 |
| IntBits.ShlBit | CalebCode/Wk1/SENSO/src/ComparisonNetwork.java:41 | bit k of x << w is 0 below w and bit k - w of x above |
| IntBits.XorTwoBits | CalebCode/Wk1/SENSO/src/ComparisonNetwork.java:39-42 | XOR with (1 << a) \| (1 << b) flips exactly bits a and b |
| IntBits.FlipValue | CalebCode/Wk1/SENSO/src/ComparisonNetwork.java:42-45 | flipping bit k adds or removes 2^k |
| IntBits.FlipPopcount | CalebCode/Wk1/SENSO/src/ComparisonNetwork.java:42 | flipping a bit changes popcount by one in the matching direction |
| SensoNetworks.ComparisonNetwork.constructor | CalebCode/Wk1/SENSO/src/ComparisonNetwork.java:13-16 | the given wire count and no comparators |
| SensoNetworks.ComparisonNetwork.WithList | CalebCode/Wk1/SENSO/src/ComparisonNetwork.java:18-21 | the given wire count and list |
| SensoNetworks.Step | CalebCode/Wk1/SENSO/src/ComparisonNetwork.java:37-45 | a step never increases the integer |
| SensoNetworks.StepEffect | CalebCode/Wk1/SENSO/src/ComparisonNetwork.java:37-45 | a step changes the input iff the low wire holds 0 and the high wire 1; it then moves that 1 down, keeps every other bit and keeps popcount |
| SensoNetworks.StepWhenEqual | CalebCode/Wk1/SENSO/src/ComparisonNetwork.java:37-45 | equal bits leave the input unchanged |
| SensoNetworks.StepWhenDifferent | CalebCode/Wk1/SENSO/src/ComparisonNetwork.java:37-45 | different bits: the result is the input with both bits flipped if that is smaller, else the input |
| SensoNetworks.StepSymmetric | CalebCode/Wk1/SENSO/src/ComparisonNetwork.java:37-45 | a step is symmetric in its two wires and the identity when they are equal |
| SensoNetworks.RunSpec | CalebCode/Wk1/SENSO/src/ComparisonNetwork.java:33-48 | running a network never increases the integer |
| SensoNetworks.RunSpecNext | CalebCode/Wk1/SENSO/src/ComparisonNetwork.java:33-46 | one more comparator applies one more step |
| SensoNetworks.RunPopcount | CalebCode/Wk1/SENSO/src/ComparisonNetwork.java:33-48 | running keeps popcount and never increases the value |
| SensoNetworks.ComparisonNetwork.Run | CalebCode/Wk1/SENSO/src/ComparisonNetwork.java:30-49 | the loop returns the input passed through every step in order |
| SensoNetworks.UnsortedOfStep | CalebCode/Wk1/SENSO/src/ComparisonNetwork.java:62-67 | an output is added iff it is neither 0 nor of the form 2^k - 1 |
| SensoNetworks.UnsortedOfAdd | CalebCode/Wk1/SENSO/src/ComparisonNetwork.java:62-67 | one more input adds its output iff that output is unsorted |
| SensoNetworks.ComparisonNetwork.GetUnsorted | CalebCode/Wk1/SENSO/src/ComparisonNetwork.java:58-70 | exactly the outputs that fail the sorted test |
| SensoNetworks.UnsortedOfBound | CalebCode/Wk1/SENSO/src/ComparisonNetwork.java:58-70 | no more unsorted outputs than inputs, each positive and never 2^k - 1 |
| SensoNetworks.UnsortedOfCard | CalebCode/Wk1/SENSO/src/ComparisonNetwork.java:58-70 | no more unsorted outputs than inputs |
| SensoNetworks.ComparisonNetwork.AddComparator | CalebCode/Wk1/SENSO/src/ComparisonNetwork.java:78-80 | the list grows by the comparator at its end and nothing else changes |
| Lattices.Lattice.constructor | CalebCode/Wk1/SENSO/src/Lattice.java:14-28 | the lattice built by the loop over every i < 2^n |
| Lattices.BuiltNext | CalebCode/Wk1/SENSO/src/Lattice.java:18-27 | one round files the bit of i at level n - popcount(i) + 1, creating the level when missing |
| Lattices.LevelBelow | CalebCode/Wk1/SENSO/src/Lattice.java:19 | every i < 2^n lands in a level between 1 and n + 1 |
| Lattices.PopcountBelow | CalebCode/Wk1/SENSO/src/Lattice.java:18-19 | popcount of i < 2^n is at most n |
| Lattices.LatticeLevels | CalebCode/Wk1/SENSO/src/Lattice.java:18-24 | the levels are exactly 1 … n + 1 |
| Lattices.ColumnIsDigit | CalebCode/Wk1/SENSO/src/Lattice.java:20-26 | an entry is true iff character wire - 1 of the zero-filled string of i is '1' |
| Lattices.IndicesExact | CalebCode/Wk1/SENSO/src/Lattice.java:18-27 | a level lists exactly the i of that level, in increasing order |
| Lattices.BuiltIsIndices | CalebCode/Wk1/SENSO/src/Lattice.java:18-27 | each level holds the wire's bit for each of its i, in increasing order of i |
| Lattices.LatticesAlike | CalebCode/Wk1/SENSO/src/Lattice.java:14-28 | all wires' lattices have the same levels and level lengths |
| Lattices.Lattice.GetLevel | CalebCode/Wk1/SENSO/src/Lattice.java:56-58 | a level is returned exactly when the map holds it |
| Lattices.Lattice.CombineLevel | CalebCode/Wk1/SENSO/src/Lattice.java:39-45 | one level becomes the AND on this side and the OR on rhs, from the old values |
| Lattices.PartialStep | CalebCode/Wk1/SENSO/src/Lattice.java:38-46 | combining one more key extends the partial result |
| Lattices.PartialDone | CalebCode/Wk1/SENSO/src/Lattice.java:37-47 | after every key the lattices are the levelwise AND and OR |
| Lattices.Lattice.AddComparatorBetween | CalebCode/Wk1/SENSO/src/Lattice.java:37-47 | this becomes this AND rhs and rhs becomes this OR rhs at every level, from the old values |
| Lattices.CombinePointwise | CalebCode/Wk1/SENSO/src/Lattice.java:40-44 | after the update this <= rhs pointwise, level sizes are kept and the number of trues at each position is kept |
| Lattices.CombineIdempotent | CalebCode/Wk1/SENSO/src/Lattice.java:37-47 | adding the same comparator again changes nothing |
| Lattices.Zfill | CalebCode/Wk1/SENSO/src/Lattice.java:68-73 | the string left-padded with '0' up to the length |
| Greedy.FreshGrid | CalebCode/Wk1/SENSO/src/GreedyAlgorithm.java:15-17 | freshly built lattices form a well-shaped grid |
| Greedy.FreshColumn | CalebCode/Wk1/SENSO/src/GreedyAlgorithm.java:15-17 | every fresh lattice has levels 1 … 17 with the lengths of the first one |
| Greedy.InitialGrid | CalebCode/Wk1/SENSO/src/GreedyAlgorithm.java:15-17 | the 16 fresh lattices form a well-shaped grid |
| Greedy.NewLattice | CalebCode/Wk1/SENSO/src/GreedyAlgorithm.java:17 | a fresh lattice for the wire |
| Greedy.NewLattices | CalebCode/Wk1/SENSO/src/GreedyAlgorithm.java:15-17 | 16 distinct fresh lattices forming a well-shaped grid |
| Greedy.ScanZeros | CalebCode/Wk1/SENSO/src/GreedyAlgorithm.java:50-66 | the zeros set of the current lattices |
| Greedy.ZeroRow | CalebCode/Wk1/SENSO/src/GreedyAlgorithm.java:56-65 | one row adds its first false wire after the subgoal, when the row is true |
| Greedy.FindFalse | CalebCode/Wk1/SENSO/src/GreedyAlgorithm.java:58-63 | the first wire in (subgoal, dual] false at that row |
| Greedy.FirstFalseIs | CalebCode/Wk1/SENSO/src/GreedyAlgorithm.java:58-63 | the search stops at w iff w is false and every wire before it is true |
| Greedy.FirstFalseRange | CalebCode/Wk1/SENSO/src/GreedyAlgorithm.java:58-63 | the search result lies in [j, dual + 1] |
| Greedy.ScanOnes | CalebCode/Wk1/SENSO/src/GreedyAlgorithm.java:68-81 | the ones set of the current lattices |
| Greedy.OneRow | CalebCode/Wk1/SENSO/src/GreedyAlgorithm.java:71-80 | one row adds its first true wire below dual, when the row is false |
| Greedy.FindTrue | CalebCode/Wk1/SENSO/src/GreedyAlgorithm.java:73-78 | the first wire descending from dual - 1 to subgoal that is true at that row |
| Greedy.LastTrueIs | CalebCode/Wk1/SENSO/src/GreedyAlgorithm.java:73-78 | the search stops at w iff w is true and every wire above it is false |
| Greedy.LastTrueRange | CalebCode/Wk1/SENSO/src/GreedyAlgorithm.java:73-78 | the search result lies in [subgoal - 1, j] |
| Greedy.ZeroWitnessIs | CalebCode/Wk1/SENSO/src/GreedyAlgorithm.java:56-64 | a row contributes w to zeros iff the row is true and w is the first false wire |
| Greedy.OneWitnessIs | CalebCode/Wk1/SENSO/src/GreedyAlgorithm.java:71-79 | a row contributes w to ones iff the row is false and w is the first true wire going down |
| Greedy.ZeroRowsMembers | CalebCode/Wk1/SENSO/src/GreedyAlgorithm.java:56-65 | w is in the rows' contribution iff some row witnesses it |
| Greedy.OneRowsMembers | CalebCode/Wk1/SENSO/src/GreedyAlgorithm.java:71-80 | w is in the rows' contribution iff some row witnesses it |
| Greedy.ZeroRowsBelow | CalebCode/Wk1/SENSO/src/GreedyAlgorithm.java:56-65 | the rows only add wires in (subgoal, dual] |
| Greedy.OneRowsAbove | CalebCode/Wk1/SENSO/src/GreedyAlgorithm.java:71-80 | the rows only add wires in [subgoal, dual) |
| Greedy.ZerosMeaning | CalebCode/Wk1/SENSO/src/GreedyAlgorithm.java:53-66 | subgoal is in zeros iff its level holds true; no wire below subgoal is; a wire above is iff some row witnesses it |
| Greedy.OnesMeaning | CalebCode/Wk1/SENSO/src/GreedyAlgorithm.java:68-81 | dual is in ones iff its level holds false; no wire above dual is; a wire below is iff some row witnesses it |
| Greedy.Scan | CalebCode/Wk1/SENSO/src/GreedyAlgorithm.java:47-84 | both sets, and they are both empty exactly when the subgoal is done |
| Greedy.DoneMeaning | CalebCode/Wk1/SENSO/src/GreedyAlgorithm.java:83-84 | the loop stops iff level subgoal+1 of wire subgoal is all false and level dual of wire dual is all true |
| Greedy.RowTierMembers | CalebCode/Wk1/SENSO/src/GreedyAlgorithm.java:89-98 | one row of the double loop lists exactly its pairs of the given tier |
| Greedy.RowsTierMembers | CalebCode/Wk1/SENSO/src/GreedyAlgorithm.java:88-99 | the rows list exactly the pairs of the given tier |
| Greedy.TierListMembers | CalebCode/Wk1/SENSO/src/GreedyAlgorithm.java:88-99 | each tier list holds exactly the candidate pairs of that tier, so every pair is in exactly one tier |
| Greedy.UtilitiesRow | CalebCode/Wk1/SENSO/src/GreedyAlgorithm.java:89-98 | one row appends its pairs to their tier lists |
| Greedy.Utilities | CalebCode/Wk1/SENSO/src/GreedyAlgorithm.java:86-99 | the three tier lists |
| Greedy.BestNonEmpty | CalebCode/Wk1/SENSO/src/GreedyAlgorithm.java:101-107 | the list chosen from is never empty |
| Greedy.Choice | CalebCode/Wk1/SENSO/src/GreedyAlgorithm.java:114-118 | choice returns an element of the list |
| Greedy.Select | CalebCode/Wk1/SENSO/src/GreedyAlgorithm.java:101-107 | the chosen comparator is a candidate pair |
| Greedy.BestAreCandidates | CalebCode/Wk1/SENSO/src/GreedyAlgorithm.java:101-107 | every pair in the list chosen from is a candidate |
| Greedy.SelectTier | CalebCode/Wk1/SENSO/src/GreedyAlgorithm.java:101-107 | the choice comes from the highest non-empty tier |
| Greedy.SelectIsBest | CalebCode/Wk1/SENSO/src/GreedyAlgorithm.java:101-107 | no candidate pair has a higher tier than the choice |
| Greedy.ChooseComparator | CalebCode/Wk1/SENSO/src/GreedyAlgorithm.java:101-107 | the comparator the tiers and the draw select |
| Greedy.Pick | CalebCode/Wk1/SENSO/src/GreedyAlgorithm.java:47-107 | the choice on the current lattices is a candidate pair |
| Greedy.PickIsSelect | CalebCode/Wk1/SENSO/src/GreedyAlgorithm.java:47-107 | scanning then selecting is the choice on the current lattices |
| Greedy.CandidateWires | CalebCode/Wk1/SENSO/src/GreedyAlgorithm.java:88-90 | every candidate has 0-based wires subgoal-1 <= wireOne < wireTwo <= dual-1 within the 16 wires |
| Greedy.Apply | CalebCode/Wk1/SENSO/src/GreedyAlgorithm.java:110 | updating two lattices keeps the grid well-shaped |
| Greedy.GridStep | CalebCode/Wk1/SENSO/src/GreedyAlgorithm.java:110 | the two lattices can be combined and the grid stays well-shaped |
| Greedy.ApplyToLattices | CalebCode/Wk1/SENSO/src/GreedyAlgorithm.java:110 | only the two chosen lattices change, to their AND and OR, the lower wire on the left |
| Greedy.PlayRound | CalebCode/Wk1/SENSO/src/GreedyAlgorithm.java:86-110 | one round appends the selected comparator and applies it to the lattices |
| Greedy.SolveStops | CalebCode/Wk1/SENSO/src/GreedyAlgorithm.java:83-84 | when the subgoal is done or the draws run out, nothing more is added |
| Greedy.SolveStep | CalebCode/Wk1/SENSO/src/GreedyAlgorithm.java:46-111 | a round not yet done adds the picked comparator and continues from the updated lattices |
| Greedy.SolveShape | CalebCode/Wk1/SENSO/src/GreedyAlgorithm.java:46-111 | the subgoal ends finished iff its lattices are done; otherwise one comparator per draw was added |
| Greedy.SolveCandidates | CalebCode/Wk1/SENSO/src/GreedyAlgorithm.java:88-110 | every comparator the subgoal adds is a candidate pair |
| Greedy.ComputeSubgoal | CalebCode/Wk1/SENSO/src/GreedyAlgorithm.java:43-112 | the lattices and the network end as the subgoal's outcome; the flag says whether it was done |
| Greedy.InRangeAppend | CalebCode/Wk1/SENSO/src/GreedyAlgorithm.java:109 | the comparators added keep the network within the 16 wires |
| Greedy.SolveInRange | CalebCode/Wk1/SENSO/src/GreedyAlgorithm.java:21-24 | the subgoal loop keeps the network within the 16 wires |
| Greedy.InRangeWires | CalebCode/Wk1/SENSO/src/GreedyAlgorithm.java:36 | the synthesised network has wires the integer engine can run |
| Greedy.InputsAreInts | CalebCode/Wk1/SENSO/src/GreedyAlgorithm.java:30 | 2^16 inputs fit in a Java int |
| Greedy.Below | CalebCode/Wk1/SENSO/src/GreedyAlgorithm.java:29-33 | every input is below the bound |
| Greedy.AllInputs | CalebCode/Wk1/SENSO/src/GreedyAlgorithm.java:29-33 | the set of all inputs below the bound |
| Greedy.CountUnsorted | CalebCode/Wk1/SENSO/src/GreedyAlgorithm.java:29-36 | the unsorted outputs of the network over every 16-bit input |
| Greedy.FreshColumnsOk | CalebCode/Wk1/SENSO/src/GreedyAlgorithm.java:15-17 | the lattices main starts from form a well-shaped grid |
| Greedy.Subgoals | CalebCode/Wk1/SENSO/src/GreedyAlgorithm.java:21-24 | after each subgoal the lattices are still a well-shaped grid, with one flag per subgoal so far |
| Greedy.SubgoalsShape | CalebCode/Wk1/SENSO/src/GreedyAlgorithm.java:21-24 | every comparator the subgoals add joins two of the 16 wires, lower first, and subgoal i's flag is set iff the lattices it leaves have both of its levels in order |
| Greedy.NextSubgoal | CalebCode/Wk1/SENSO/src/GreedyAlgorithm.java:21-24 | subgoal i continues from the lattices and comparators of subgoals 1 … i - 1 and records its flag |
| Greedy.Synthesise | CalebCode/Wk1/SENSO/src/GreedyAlgorithm.java:13-36 | one synthesis: a 16-wire network whose comparators are exactly those the eight subgoals add in turn from the fresh lattices, the subgoals' flags, and its exact unsorted outputs |
| ListNetworks.ComparisonNetwork.constructor | CalebCode/Wk1/src/ComparisonNetwork.java:13-16 | the given wire count and no comparators |
| ListNetworks.ComparisonNetwork.WithList | CalebCode/Wk1/src/ComparisonNetwork.java:18-21 | the given wire count and list |
| ListNetworks.ComparisonNetwork.SpellOne | CalebCode/Wk1/src/ComparisonNetwork.java:35-42 | the digits of i's binary string, zeros in front up to wires entries |
| ListNetworks.PaddedDigits | CalebCode/Wk1/src/ComparisonNetwork.java:35-42 | padding the digit values gives back the 0/1 sequence |
| ListNetworks.NumeralsOfDigits | CalebCode/Wk1/src/ComparisonNetwork.java:38-39 | reading back the digit characters gives the 0/1 values |
| ListNetworks.SpelledIsToBits | CalebCode/Wk1/src/ComparisonNetwork.java:35-42 | the spelling of i < 2^w is its MSB-first w-bit form |
| ListNetworks.SpelledValue | CalebCode/Wk1/src/ComparisonNetwork.java:34-44 | the spelling of i has w entries, is 0/1 and has value i, and no other such list does |
| ListNetworks.SpelledBelowMembers | CalebCode/Wk1/src/ComparisonNetwork.java:31-48 | after m rounds the set holds exactly the m w-long 0/1 lists of value below m |
| ListNetworks.ComparisonNetwork.GetAllBinarySequences | CalebCode/Wk1/src/ComparisonNetwork.java:31-48 | the set of the spellings of every i < 2^w |
| ListNetworks.AllBinarySequences | CalebCode/Wk1/src/ComparisonNetwork.java:31-48 | 2^w distinct lists: exactly every w-long 0/1 list |
| ListNetworks.NoWires | CalebCode/Wk1/src/ComparisonNetwork.java:31-48 | with no wires the set is the single list [0] |
| ListNetworks.DrawnAllAppend | CalebCode/Wk1/src/ComparisonNetwork.java:56-63 | each round adds the next getRandom comparator |
| ListNetworks.ComparisonNetwork.Randomize | CalebCode/Wk1/src/ComparisonNetwork.java:56-63 | an empty network gets the drawn comparators; otherwise the first numComparisons are overwritten and the rest kept; each drawn one has 0 <= wireOne < wireTwo < wires |
| ListNetworks.Swap | CalebCode/Wk1/src/ComparisonNetwork.java:80-83 | a step keeps the length |
| ListNetworks.SwapEffect | CalebCode/Wk1/src/ComparisonNetwork.java:80-83 | a step keeps the multiset, leaves input[w1] <= input[w2], touches no other index, changes the list iff input[w1] > input[w2], and is idempotent |
| ListNetworks.Apply | CalebCode/Wk1/src/ComparisonNetwork.java:76-84 | running keeps the length |
| ListNetworks.ApplyPermutes | CalebCode/Wk1/src/ComparisonNetwork.java:76-84 | running keeps the multiset of values and keeps 0/1 lists 0/1 |
| ListNetworks.ComparisonNetwork.Run | CalebCode/Wk1/src/ComparisonNetwork.java:72-87 | the list is changed in place to the network's output and the same list is returned |
| ListNetworks.UnsortedOfStep | CalebCode/Wk1/src/ComparisonNetwork.java:100-107 | an output is added iff some adjacent pair descends |
| ListNetworks.ComparisonNetwork.GetUnsorted | CalebCode/Wk1/src/ComparisonNetwork.java:96-111 | exactly the unsorted outputs, each computed on a copy |
| ListNetworks.UnsortedOfBound | CalebCode/Wk1/src/ComparisonNetwork.java:96-111 | no more unsorted outputs than inputs |
| ListNetworks.EmptyNetworkOutputs | CalebCode/Wk1/src/ComparisonNetwork.java:96-111 | the empty network returns exactly the unsorted inputs |
| ListNetworks.SortsAllIffNoUnsorted | CalebCode/Wk1/src/ComparisonNetwork.java:96-111 | no unsorted outputs over all w-long 0/1 lists iff the network sorts them all |
| Tester.MinFromIsMin | CalebCode/Wk1/src/Tester.java:57-58 | the best-so-far ends no higher than its start or any value, and equal to one of them |
| Tester.Trial | CalebCode/Wk1/src/Tester.java:53-58 | one round: randomize, evaluate, keep the minimum |
| Tester.RandomNetworks | CalebCode/Wk1/src/Tester.java:44-69 | the best fitness is the minimum of 2^wires and every random network's fitness |
| Tester.Mutate | CalebCode/Wk1/src/Tester.java:134-145 | a fresh copy with the comparator at nextInt(wires) replaced by a getRandom comparator |
| Tester.MutationMissesTail | CalebCode/Wk1/src/Tester.java:140-142 | no comparator at a position >= wires is ever replaced |
| Tester.MutateAnywhere | CalebCode/Wk1/src/Tester.java:134-145 | a fresh copy with the comparator at nextInt(size) replaced |
| Tester.MutationReachesAll | CalebCode/Wk1/src/Tester.java:140-142 | every position can be chosen, and only that one changes |
| Tester.MutationFits | CalebCode/Wk1/src/Tester.java:138-142 | a mutant stays within the wires |
| Tester.NextRule | CalebCode/Wk1/src/Tester.java:101-108 | best fitness becomes min(best, mutant); HC moves to the mutant iff it is strictly better; SA always takes the mutant on an accept draw of 0 while j < Budget, and otherwise keeps the network or takes the mutant, never anything else |
| Tester.ClimbStep | CalebCode/Wk1/src/Tester.java:95-111 | one more iteration keeps best equal to the minimum of the start and the mutants' fitnesses |
| Tester.ClimbIsMin | CalebCode/Wk1/src/Tester.java:92-111 | after the inner loop the best is the minimum of the initial fitness and the fitness of every mutant mutate made (index nextInt(wires)), for HC and SA |
| Tester.NextKeepsTail | CalebCode/Wk1/src/Tester.java:96-108 | one iteration never changes a comparator at a position at or beyond the wire count |
| Tester.ClimbKeepsTail | CalebCode/Wk1/src/Tester.java:95-111 | the comparators at positions at or beyond the wire count are the start network's ones after the whole inner loop |
| Tester.Iterate | CalebCode/Wk1/src/Tester.java:96-110 | one iteration, mutating through mutate as written, advances the climb by one move |
| Tester.Improve | CalebCode/Wk1/src/Tester.java:95-111 | the inner loop ends in the climb's state |
| Tester.OneRun | CalebCode/Wk1/src/Tester.java:90-115 | one run keeps the overall minimum over the runs so far |
| Tester.RunAlgorithm | CalebCode/Wk1/src/Tester.java:81-115 | the best fitness is the minimum of 2^wires and every run's best, each run climbing with mutate as written |
| Tester.GetGreen32 | CalebCode/Wk1/src/Tester.java:153-192 | a fresh 16-wire network with the 32 comparators written out |
| Tester.Green32Shape | CalebCode/Wk1/src/Tester.java:153-192 | 32 comparators on 16 wires, each with wireOne < wireTwo |
| Green32Agreement.SwapIsCompareSwap | CalebCode/Wk1/src/ComparisonNetwork.java:80-83 | on 0/1 lists the list step and the 0/1 sort agree |
| Green32Agreement.ApplyAgree | CalebCode/Wk1/src/ComparisonNetwork.java:76-84 | on 0/1 lists both engines compute the same output |
| Green32Agreement.ApplyAppend | JakeCode/environment/ComparisonNetwork.java:45-49 | running a concatenation runs the parts in order |
| Green32Agreement.SweepIsApply | JakeCode/environment/ComparisonNetwork.java:45-49 | the total run agrees with the network run on in-range networks |
| Green32Agreement.CompareSwapsCommute | JakeCode/environment/NetworkUtilities.java:94-97 | comparators on disjoint wires commute |
| Green32Agreement.SwapNeighbours | JakeCode/environment/NetworkUtilities.java:94-97 | exchanging neighbouring disjoint comparators keeps the output |
| Green32Agreement.Uninterleave | JakeCode/environment/NetworkUtilities.java:94-97 | the interleaved third layer can be regrouped by halves |
| Green32Agreement.Layer3Reorder | JakeCode/environment/NetworkUtilities.java:94-97 | the two orders of the third layer give the same output |
| Green32Agreement.ConvertGreen32 | CalebCode/Wk1/src/Tester.java:153-192 | the written-out list is the four layers, the third regrouped by halves |
| Green32Agreement.Green32Agree | JakeCode/environment/NetworkUtilities.java:83-101 | both Green32 prefixes give the same output on every 16-bit 0/1 input |
| Green32Agreement.Green32SameOutputs | CalebCode/Wk1/src/Tester.java:28-29 | both Green32 prefixes leave the same unsorted outputs on any 0/1 inputs |

## Left out

- Console output, `toString`, `printLattices` and `printUnsortedOutputs` are not modelled. Neither is the print-only driver `JakeCode/experiments/Green32.java`.
- `BinarySequence.hashCode` (src/environment/BinarySequence.java:131-136) is left out. Sets use value equality.
- Timing through `System.currentTimeMillis` is left out.
- The `avgFitness`/`totalFitness` averages are not modelled: they are floating point.
- `src/experiments/RandomNetworksSimulatedAnnealing.java` is not modelled. Its acceptance test uses `Math.exp` on doubles against `Math.random()`, and its temperature reaches zero.
- `java.util.Random` is not modelled. Every draw is a parameter, and the model covers whatever values the generator returns within their stated ranges.
- The `main` loops over the wire counts 12 … 16 are not modelled. Each experiment takes the wire count and its table size as parameters.
- The trial counts NUM_NETWORKS, K and M in the 0/1 experiments are not fixed. They are the lengths of the draw sequences passed in.
- The `while (true)` retry loop of `GreedyAlgorithm.main` is not modelled. `Greedy.Synthesise` models one pass of its body.
- Greedy.ComputeSubgoal: the `while (true)` has no decreasing measure. The model gives it one draw per round as fuel and reports an unfinished subgoal when the draws run out, so termination is not claimed.
- The count 151 in the doc comment of `getGreen32Outputs` is not proved, because that needs the evaluation of 65,536 inputs. `RandomCompleter.CompletionNeverWorse` bounds the result by the size of that set instead.
- The level sizes C(n, n - L + 1) of a `Lattice` are not proved. The model proves that the levels are 1 … n + 1, that each lists its inputs in increasing order, and that all wires' lattices have the same level lengths.
- Lattices.Lattice.AddComparatorBetween: requires `rhs != this`. A lattice combined with itself is not modelled; the greedy loop always passes two different wires.
- SensoNetworks.ComparisonNetwork.Run: inputs are limited to 0 <= input < 2^31 and wires to [0, 31). Negative ints and shifts by 31 or more are not modelled.
- SensoComparators.GetRandom: requires some draw after the first to differ from it. The endless redraw loop for fewer than two wires is not modelled.
- Tester.Mutate: requires the drawn index to be below the list size. The `IndexOutOfBoundsException` for a network shorter than its wire count is not modelled.
- Tester.RunAlgorithm, Tester.OneRun, Tester.Improve, Tester.Iterate: require 0 < wires <= numComparisons. Every entry of the size table meets this. The exception mutate can raise on a network with fewer comparators than wires is not modelled.
- Networks.ComparisonNetwork.OperateOnOneBinary, Networks.ComparisonNetwork.OperateOnTheseBinary, Networks.ComparisonNetwork.OperateOnAllBinary: require every comparator to lie within the inputs. The `ArrayIndexOutOfBoundsException` for a comparator beyond the end is not modelled.
- BinarySequences.BinarySequence.constructor: takes a natural wire count. The `NegativeArraySizeException` for a negative one is not modelled.
- Lattices.Lattice.constructor: requires 1 <= wire <= numWires and a natural numWires. The `StringIndexOutOfBoundsException` from `charAt(wire - 1)` for a wire above numWires is not modelled. With numWires = 0 the source never terminates: `zfill("0", 0)` only lengthens a string that is already longer than its target. A negative numWires gives an empty map in the source, and that is not modelled either.
- Lattices.Lattice.constructor: at numWires >= 31 the source's bound `(int) Math.pow(2, numWires)` saturates at 2^31 - 1. The loop then never visits the all-ones input 2^31 - 1 or any larger one, so level 1 is missing, and at more than 31 wires other levels are short as well. The model counts to 2^numWires for every numWires, so `Lattices.LatticeLevels` holds only for numWires <= 30.
- Lattices.Zfill: requires the string to be no longer than the target length. On a longer string the source's `while (string.length() != length)` never ends.
- ListNetworks.ComparisonNetwork.GetAllBinarySequences: at wires >= 31 the source's `int` counter stays below `Math.pow(2, wires)` until it wraps negative, so the loop never ends. The model returns the 2^wires lists for every wire count, so `ListNetworks.AllBinarySequences` describes the source only for wires <= 30.
- ListNetworks.ComparisonNetwork.Randomize: on a non-empty network, requires numComparisons <= size. The `IndexOutOfBoundsException` beyond the end is not modelled.
- Networks.ComparisonNetwork.AddComparatorAt and Networks.ComparisonNetwork.Replace: require an index within the list. The Java exceptions for other indices are not modelled.
- HillClimbing.Experiment: models the climb with each mutant on its own list (`HillClimbing.Climb`). The aliased climb is modelled separately by `HillClimbing.ClimbAsWritten`. The experiment does not model the later sharing of run 0's list with the best-overall network.
- The getters (`getWires`, `getComparisons`, `numWires`, `getNetwork`, `getWireOne`, `getWireTwo`, `getBinarySequence`, `getLevel`'s map) are the model's fields.

## Findings

| source | as written | input that shows it | evidently intended | confidence | as-written member | corrected member |
|---|---|---|---|---|---|---|
| CalebCode/Wk1/src/Tester.java:140 | `mutate` picks the index with `nextInt(network.getWires())`, so only the first `wires` comparators can ever be replaced | 12 wires and 39 comparators: positions 12 … 38 never change during hill climbing or annealing | draw the index over the whole list, `nextInt(size)` | not executed | Tester.Mutate, Tester.MutationMissesTail, Tester.ClimbKeepsTail | Tester.MutateAnywhere, Tester.MutationReachesAll |
| JakeCode/experiments/RandomNetworksHillClimbing.java:222-230 | `mutate` builds the new network on the argument's own list and replaces a comparator in it, so the current best network changes with every mutant; the loop at lines 164-172 then records the outputs of a network that no longer exists | two wires, start [(0,1)] (no unsorted outputs), one mutation to (0,0): the recorded outputs stay empty while the list left behind is [(0,0)], which leaves the output [1,0] unsorted | give the mutant its own copy of the list and keep the best network unchanged | not executed | HillClimbing.ClimbAsWritten, HillClimbing.AliasedClimbLosesBest | HillClimbing.Mutate, HillClimbing.Climb, HillClimbing.ClimbNeverWorse |
