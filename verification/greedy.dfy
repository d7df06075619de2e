/**
 * The lattice-guided greedy synthesiser on 16 wires. For a subgoal s the
 * dual wire is 17 - s; zeros and ones collect the wires the lattices say are
 * still wrong on level s + 1 (for wire s) and level dual (for wire dual),
 * candidate comparators between s and dual are ranked into three utility
 * tiers, and one comparator from the best non-empty tier is appended to the
 * network and applied to the two lattices it joins.
 */
module Greedy {
  import opened Binary
  import opened Lattices
  import opened IntBits
  import opened SensoComparators
  import SensoNetworks

  const NumWires: nat := 16

  /** The level maps of all lattices, wire w at index w - 1. */
  type Columns = seq<map<nat, seq<bool>>>

  /** Every lattice has levels 1 .. NumWires + 1, and a level has one length on every wire. */
  ghost predicate GridOk(g: Columns)
  {
    |g| == NumWires &&
    forall k :: 0 <= k < NumWires ==>
      (forall level: nat :: level in g[k] <==> 1 <= level <= NumWires + 1) &&
      (forall level :: level in g[k] ==> level in g[0] && |g[k][level]| == |g[0][level]|)
  }

  function Snapshot(ls: seq<Lattice>): (g: Columns)
    reads set l | l in ls
    ensures |g| == |ls|
  {
    seq(|ls|, k requires 0 <= k < |ls| reads set l | l in ls => ls[k].lattice)
  }

  lemma SnapshotAt(ls: seq<Lattice>, k: int)
    requires 0 <= k < |ls|
    ensures Snapshot(ls)[k] == ls[k].lattice
  {
  }

  predicate Distinct(ls: seq<Lattice>)
  {
    forall i, j :: 0 <= i < j < |ls| ==> ls[i] != ls[j]
  }

  predicate SubgoalOk(subgoal: int)
  {
    1 <= subgoal <= NumWires / 2
  }

  function Dual(subgoal: int): int
  {
    NumWires - subgoal + 1
  }

  /** The value of wire w on the given row of a level. */
  function Entry(g: Columns, w: int, level: nat, row: nat): bool
    requires GridOk(g) && 1 <= w <= NumWires && 1 <= level <= NumWires + 1 && row < |g[0][level]|
  {
    g[w - 1][level][row]
  }

  /** The first wire from j up to dual that is false on the row, or dual + 1 if none is. */
  function FirstFalse(g: Columns, level: nat, row: nat, j: int, dual: int): int
    requires GridOk(g) && 1 <= level <= NumWires + 1 && row < |g[0][level]|
    requires 1 <= j && dual <= NumWires
    decreases dual + 1 - j
  {
    if j > dual then dual + 1
    else if !Entry(g, j, level, row) then j
    else FirstFalse(g, level, row, j + 1, dual)
  }

  /** The first wire from j down to subgoal that is true on the row, or subgoal - 1 if none is. */
  function LastTrue(g: Columns, level: nat, row: nat, j: int, subgoal: int): int
    requires GridOk(g) && 1 <= level <= NumWires + 1 && row < |g[0][level]|
    requires 1 <= subgoal && j <= NumWires
    decreases j + 1 - subgoal
  {
    if j < subgoal then subgoal - 1
    else if Entry(g, j, level, row) then j
    else LastTrue(g, level, row, j - 1, subgoal)
  }

  /** The wires the zeros scan adds for rows 0 .. m - 1 of level subgoal + 1. */
  function ZeroRows(g: Columns, subgoal: int, m: nat): set<int>
    requires GridOk(g) && SubgoalOk(subgoal) && m <= |g[0][subgoal + 1]|
  {
    if m == 0 then {}
    else
      var w := FirstFalse(g, subgoal + 1, m - 1, subgoal + 1, Dual(subgoal));
      ZeroRows(g, subgoal, m - 1) + (if Entry(g, subgoal, subgoal + 1, m - 1) && w <= Dual(subgoal) then {w} else {})
  }

  /** The wires the ones scan adds for rows 0 .. m - 1 of level dual. */
  function OneRows(g: Columns, subgoal: int, m: nat): set<int>
    requires GridOk(g) && SubgoalOk(subgoal) && m <= |g[0][Dual(subgoal)]|
  {
    if m == 0 then {}
    else
      var w := LastTrue(g, Dual(subgoal), m - 1, Dual(subgoal) - 1, subgoal);
      OneRows(g, subgoal, m - 1) + (if !Entry(g, Dual(subgoal), Dual(subgoal), m - 1) && w >= subgoal then {w} else {})
  }

  function ZerosOf(g: Columns, subgoal: int): set<int>
    requires GridOk(g) && SubgoalOk(subgoal)
  {
    if true in g[subgoal - 1][subgoal + 1] then {subgoal} + ZeroRows(g, subgoal, |g[0][subgoal + 1]|) else {}
  }

  function OnesOf(g: Columns, subgoal: int): set<int>
    requires GridOk(g) && SubgoalOk(subgoal)
  {
    var dual := Dual(subgoal);
    if false in g[dual - 1][dual] then {dual} + OneRows(g, subgoal, |g[0][dual]|) else {}
  }

  /** The utility of a candidate pair of wires. */
  function Tier(wireOne: int, wireTwo: int, zeros: set<int>, ones: set<int>): nat
  {
    if wireOne in zeros && wireTwo in zeros && wireOne in ones && wireTwo in ones then 2
    else if (wireOne in zeros && wireTwo in zeros) || (wireOne in ones && wireTwo in ones) then 1
    else 0
  }

  /** Tier-t comparators (wireOne, v) for wireOne < v < bound, in increasing v. */
  function RowTier(wireOne: int, bound: int, zeros: set<int>, ones: set<int>, t: nat): seq<Comparator>
    decreases bound - wireOne
  {
    if bound <= wireOne + 1 then []
    else
      RowTier(wireOne, bound - 1, zeros, ones, t) +
      (if Tier(wireOne, bound - 1, zeros, ones) == t then [Comparator(wireOne - 1, bound - 2)] else [])
  }

  /** Tier-t comparators of the rows wireOne = subgoal .. upTo - 1, in the scan's order. */
  function RowsTier(subgoal: int, upTo: int, dual: int, zeros: set<int>, ones: set<int>, t: nat): seq<Comparator>
    decreases upTo - subgoal
  {
    if upTo <= subgoal then []
    else RowsTier(subgoal, upTo - 1, dual, zeros, ones, t) + RowTier(upTo - 1, dual + 1, zeros, ones, t)
  }

  function TierList(subgoal: int, zeros: set<int>, ones: set<int>, t: nat): seq<Comparator>
  {
    RowsTier(subgoal, Dual(subgoal), Dual(subgoal), zeros, ones, t)
  }

  /** choice: the element that nextInt(size) of the draw selects. */
  function Choice(comparators: seq<Comparator>, draw: nat): (c: Comparator)
    requires |comparators| > 0
    ensures c in comparators
  {
    comparators[NextInt(draw, |comparators|)]
  }

  /** Both scans of one round of computeSubgoal. */
  method Scan(subgoal: int, lattices: seq<Lattice>) returns (zeros: set<int>, ones: set<int>)
    requires SubgoalOk(subgoal) && GridOk(Snapshot(lattices))
    ensures zeros == ZerosOf(Snapshot(lattices), subgoal) && ones == OnesOf(Snapshot(lattices), subgoal)
    ensures zeros == {} && ones == {} <==> Done(Snapshot(lattices), subgoal)
  {
    zeros := ScanZeros(subgoal, lattices);
    ones := ScanOnes(subgoal, lattices);
  }

  /** The zeros scan of one round of computeSubgoal. */
  method ScanZeros(subgoal: int, lattices: seq<Lattice>) returns (zeros: set<int>)
    requires SubgoalOk(subgoal) && GridOk(Snapshot(lattices))
    ensures zeros == ZerosOf(Snapshot(lattices), subgoal)
  {
    ghost var g := Snapshot(lattices);
    zeros := {};
    SnapshotAt(lattices, subgoal - 1);
    var subgoalLevel := lattices[subgoal - 1].lattice[subgoal + 1];
    if true in subgoalLevel {
      zeros := zeros + {subgoal};
      var i := 0;
      while i < |subgoalLevel|
        invariant 0 <= i <= |subgoalLevel| == |g[0][subgoal + 1]|
        invariant zeros == {subgoal} + ZeroRows(g, subgoal, i)
      {
        zeros := ZeroRow(subgoal, lattices, subgoalLevel, i, zeros);
        i := i + 1;
      }
    }
  }

  /** One row of the zeros scan: a row true on the subgoal adds the first wire above it that is false. */
  method ZeroRow(subgoal: int, lattices: seq<Lattice>, subgoalLevel: seq<bool>, i: nat, zeros0: set<int>) returns (zeros: set<int>)
    requires SubgoalOk(subgoal) && GridOk(Snapshot(lattices)) && i < |subgoalLevel|
    requires subgoalLevel == Snapshot(lattices)[subgoal - 1][subgoal + 1]
    requires zeros0 == {subgoal} + ZeroRows(Snapshot(lattices), subgoal, i)
    ensures zeros == {subgoal} + ZeroRows(Snapshot(lattices), subgoal, i + 1)
  {
    zeros := zeros0;
    if subgoalLevel[i] {
      var w := FindFalse(subgoal, lattices, i);
      if w <= Dual(subgoal) {
        zeros := zeros + {w};
      }
    }
  }

  /** The inner loop of the zeros scan: the first wire above the subgoal that is false on the row. */
  method FindFalse(subgoal: int, lattices: seq<Lattice>, row: nat) returns (w: int)
    requires SubgoalOk(subgoal) && GridOk(Snapshot(lattices)) && row < |Snapshot(lattices)[0][subgoal + 1]|
    ensures w == FirstFalse(Snapshot(lattices), subgoal + 1, row, subgoal + 1, Dual(subgoal))
  {
    ghost var g := Snapshot(lattices);
    var dual := NumWires - subgoal + 1;
    var j := subgoal + 1;
    while j <= dual
      invariant subgoal + 1 <= j <= dual + 1
      invariant FirstFalse(g, subgoal + 1, row, j, dual) == FirstFalse(g, subgoal + 1, row, subgoal + 1, dual)
    {
      if !lattices[j - 1].lattice[subgoal + 1][row] {
        return j;
      }
      j := j + 1;
    }
    return dual + 1;
  }

  /** The ones scan of one round of computeSubgoal. */
  method ScanOnes(subgoal: int, lattices: seq<Lattice>) returns (ones: set<int>)
    requires SubgoalOk(subgoal) && GridOk(Snapshot(lattices))
    ensures ones == OnesOf(Snapshot(lattices), subgoal)
  {
    ghost var g := Snapshot(lattices);
    var dual := NumWires - subgoal + 1;
    ones := {};
    SnapshotAt(lattices, NumWires - subgoal);
    var dualLevel := lattices[NumWires - subgoal].lattice[dual];
    if false in dualLevel {
      ones := ones + {dual};
      var i := 0;
      while i < |dualLevel|
        invariant 0 <= i <= |dualLevel| == |g[0][dual]|
        invariant ones == {dual} + OneRows(g, subgoal, i)
      {
        ones := OneRow(subgoal, lattices, dualLevel, i, ones);
        i := i + 1;
      }
    }
  }

  /** One row of the ones scan: a row false on the dual adds the last wire below it that is true. */
  method OneRow(subgoal: int, lattices: seq<Lattice>, dualLevel: seq<bool>, i: nat, ones0: set<int>) returns (ones: set<int>)
    requires SubgoalOk(subgoal) && GridOk(Snapshot(lattices)) && i < |dualLevel|
    requires dualLevel == Snapshot(lattices)[Dual(subgoal) - 1][Dual(subgoal)]
    requires ones0 == {Dual(subgoal)} + OneRows(Snapshot(lattices), subgoal, i)
    ensures ones == {Dual(subgoal)} + OneRows(Snapshot(lattices), subgoal, i + 1)
  {
    ones := ones0;
    if !dualLevel[i] {
      var w := FindTrue(subgoal, lattices, i);
      if w >= subgoal {
        ones := ones + {w};
      }
    }
  }

  /** The inner loop of the ones scan: the last wire below the dual that is true on the row. */
  method FindTrue(subgoal: int, lattices: seq<Lattice>, row: nat) returns (w: int)
    requires SubgoalOk(subgoal) && GridOk(Snapshot(lattices)) && row < |Snapshot(lattices)[0][Dual(subgoal)]|
    ensures w == LastTrue(Snapshot(lattices), Dual(subgoal), row, Dual(subgoal) - 1, subgoal)
  {
    ghost var g := Snapshot(lattices);
    var dual := NumWires - subgoal + 1;
    var j := dual - 1;
    while j >= subgoal
      invariant subgoal - 1 <= j <= dual - 1
      invariant LastTrue(g, dual, row, j, subgoal) == LastTrue(g, dual, row, dual - 1, subgoal)
    {
      if lattices[j - 1].lattice[dual][row] {
        return j;
      }
      j := j - 1;
    }
    return subgoal - 1;
  }

  /** The nested loop that sorts every candidate comparator into its utility tier. */
  method Utilities(subgoal: int, zeros: set<int>, ones: set<int>)
    returns (two: seq<Comparator>, one: seq<Comparator>, none: seq<Comparator>)
    requires SubgoalOk(subgoal)
    ensures two == TierList(subgoal, zeros, ones, 2)
    ensures one == TierList(subgoal, zeros, ones, 1)
    ensures none == TierList(subgoal, zeros, ones, 0)
  {
    var dual := NumWires - subgoal + 1;
    two, one, none := [], [], [];
    var wireOne := subgoal;
    while wireOne < dual
      invariant subgoal <= wireOne <= dual
      invariant two == RowsTier(subgoal, wireOne, dual, zeros, ones, 2)
      invariant one == RowsTier(subgoal, wireOne, dual, zeros, ones, 1)
      invariant none == RowsTier(subgoal, wireOne, dual, zeros, ones, 0)
    {
      two, one, none := UtilitiesRow(wireOne, dual, zeros, ones, two, one, none);
      wireOne := wireOne + 1;
    }
  }

  /** The inner loop of the tier sort: the candidates (wireOne, wireTwo) for wireOne < wireTwo <= dual. */
  method UtilitiesRow(wireOne: int, dual: int, zeros: set<int>, ones: set<int>,
                      two0: seq<Comparator>, one0: seq<Comparator>, none0: seq<Comparator>)
    returns (two: seq<Comparator>, one: seq<Comparator>, none: seq<Comparator>)
    requires wireOne < dual
    ensures two == two0 + RowTier(wireOne, dual + 1, zeros, ones, 2)
    ensures one == one0 + RowTier(wireOne, dual + 1, zeros, ones, 1)
    ensures none == none0 + RowTier(wireOne, dual + 1, zeros, ones, 0)
  {
    two, one, none := two0, one0, none0;
    var wireTwo := wireOne + 1;
    while wireTwo <= dual
      invariant wireOne + 1 <= wireTwo <= dual + 1
      invariant two == two0 + RowTier(wireOne, wireTwo, zeros, ones, 2)
      invariant one == one0 + RowTier(wireOne, wireTwo, zeros, ones, 1)
      invariant none == none0 + RowTier(wireOne, wireTwo, zeros, ones, 0)
    {
      var comparator := Comparator(wireOne - 1, wireTwo - 1);
      if wireOne in zeros && wireTwo in zeros && wireOne in ones && wireTwo in ones {
        two := two + [comparator];
      } else if (wireOne in zeros && wireTwo in zeros) || (wireOne in ones && wireTwo in ones) {
        one := one + [comparator];
      } else {
        none := none + [comparator];
      }
      wireTwo := wireTwo + 1;
    }
  }

  /** A candidate of the subgoal: a comparator between two wires of subgoal .. dual, lower wire first. */
  predicate Candidate(subgoal: int, c: Comparator)
  {
    subgoal <= c.wireOne + 1 < c.wireTwo + 1 <= Dual(subgoal)
  }

  /** Nothing on either level is out of place: computeSubgoal's loop exits. */
  predicate Done(g: Columns, subgoal: int)
    requires GridOk(g) && SubgoalOk(subgoal)
  {
    ZerosOf(g, subgoal) == {} && OnesOf(g, subgoal) == {}
  }

  /** The first non-empty tier, from utility 2 down. */
  function Best(two: seq<Comparator>, one: seq<Comparator>, none: seq<Comparator>): seq<Comparator>
  {
    if two != [] then two else if one != [] then one else none
  }

  /** The comparator one round of computeSubgoal appends; the draw stands for the generator. */
  function Pick(g: Columns, subgoal: int, draw: nat): (c: Comparator)
    requires GridOk(g) && SubgoalOk(subgoal)
    ensures Candidate(subgoal, c)
  {
    Select(subgoal, ZerosOf(g, subgoal), OnesOf(g, subgoal), draw)
  }

  /** The choice from the best non-empty tier; draw % size stands for nextInt(size). */
  function Select(subgoal: int, zeros: set<int>, ones: set<int>, draw: nat): (c: Comparator)
    requires SubgoalOk(subgoal)
    ensures Candidate(subgoal, c)
  {
    var best := Best(TierList(subgoal, zeros, ones, 2), TierList(subgoal, zeros, ones, 1), TierList(subgoal, zeros, ones, 0));
    BestNonEmpty(subgoal, zeros, ones);
    var c := Choice(best, draw);
    BestAreCandidates(subgoal, zeros, ones, c);
    c
  }

  lemma BestAreCandidates(subgoal: int, zeros: set<int>, ones: set<int>, c: Comparator)
    requires c in Best(TierList(subgoal, zeros, ones, 2), TierList(subgoal, zeros, ones, 1), TierList(subgoal, zeros, ones, 0))
    ensures Candidate(subgoal, c)
  {
    TierListMembers(subgoal, zeros, ones, 2, c);
    TierListMembers(subgoal, zeros, ones, 1, c);
    TierListMembers(subgoal, zeros, ones, 0, c);
  }

  /** The two lattices a comparator joins after addComparatorBetween: AND on the lower wire, OR on the higher. */
  function Apply(g: Columns, c: Comparator): (r: Columns)
    requires GridOk(g) && 0 <= c.wireOne < c.wireTwo < NumWires
    ensures GridOk(r)
  {
    GridStep(g, c.wireOne, c.wireTwo);
    g[c.wireOne := AndLevels(g[c.wireOne], g[c.wireTwo])][c.wireTwo := OrLevels(g[c.wireOne], g[c.wireTwo])]
  }

  /** What computeSubgoal leaves behind: the lattices, the comparators it appended, and whether it finished. */
  datatype Outcome = Outcome(grid: Columns, added: seq<Comparator>, finished: bool)

  /**
   * computeSubgoal with one draw per round: rounds go on until the subgoal
   * is done, or stop unfinished once the draws run out.
   */
  function Solve(g: Columns, subgoal: int, draws: seq<nat>): Outcome
    requires GridOk(g) && SubgoalOk(subgoal)
    decreases |draws|
  {
    if Done(g, subgoal) then Outcome(g, [], true)
    else if draws == [] then Outcome(g, [], false)
    else
      var c := Pick(g, subgoal, draws[0]);
      Prepend([c], Solve(Apply(g, c), subgoal, draws[1..]))
  }

  /** An outcome with comparators appended before it. */
  function Prepend(cs: seq<Comparator>, o: Outcome): Outcome
  {
    o.(added := cs + o.added)
  }

  /**
   * computeSubgoal: rounds of scan, rank, pick and apply until no wire is
   * out of place on the two levels of the subgoal. The k-th round's choice
   * uses draws[k]; with no draw left the method gives up unfinished.
   */
  method ComputeSubgoal(subgoal: int, lattices: seq<Lattice>, network: SensoNetworks.ComparisonNetwork, draws: seq<nat>)
    returns (finished: bool)
    requires SubgoalOk(subgoal) && Distinct(lattices) && GridOk(Snapshot(lattices))
    modifies network, set l | l in lattices
    ensures GridOk(Snapshot(lattices))
    ensures var o := Solve(old(Snapshot(lattices)), subgoal, draws);
      Snapshot(lattices) == o.grid && network.comparisons == old(network.comparisons) + o.added &&
      finished == o.finished && network.wires == old(network.wires)
  {
    ghost var g0 := Snapshot(lattices);
    ghost var acc: seq<Comparator> := [];
    var t := 0;
    PrependNothing(Solve(g0, subgoal, draws), draws);
    while true
      invariant 0 <= t <= |draws|
      invariant GridOk(Snapshot(lattices))
      invariant network.comparisons == old(network.comparisons) + acc && network.wires == old(network.wires)
      invariant Solve(g0, subgoal, draws) == Prepend(acc, Solve(Snapshot(lattices), subgoal, draws[t..]))
      decreases |draws| - t
    {
      ghost var g := Snapshot(lattices);
      var zeros, ones := Scan(subgoal, lattices);
      if zeros == {} && ones == {} {
        SolveStops(g, subgoal, draws[t..], old(network.comparisons), acc);
        return true;
      }
      if t == |draws| {
        assert draws[t..] == [];
        SolveStops(g, subgoal, draws[t..], old(network.comparisons), acc);
        return false;
      }
      var comparator := PlayRound(subgoal, lattices, network, zeros, ones, draws[t]);
      PickIsSelect(g, subgoal, zeros, ones, draws[t]);
      SolveStep(g, subgoal, draws, t);
      PrependTwice(old(network.comparisons), acc, comparator, Solve(Snapshot(lattices), subgoal, draws[t + 1..]));
      acc := acc + [comparator];
      t := t + 1;
    }
  }

  lemma PickIsSelect(g: Columns, subgoal: int, zeros: set<int>, ones: set<int>, draw: nat)
    requires GridOk(g) && SubgoalOk(subgoal) && zeros == ZerosOf(g, subgoal) && ones == OnesOf(g, subgoal)
    ensures Pick(g, subgoal, draw) == Select(subgoal, zeros, ones, draw)
  {
  }

  /** One round after the scans found work to do: rank the candidates, pick one, append and apply it. */
  method PlayRound(subgoal: int, lattices: seq<Lattice>, network: SensoNetworks.ComparisonNetwork,
                   zeros: set<int>, ones: set<int>, draw: nat) returns (comparator: Comparator)
    requires SubgoalOk(subgoal) && Distinct(lattices) && GridOk(Snapshot(lattices))
    modifies network, set l | l in lattices
    ensures comparator == Select(subgoal, zeros, ones, draw)
    ensures Snapshot(lattices) == Apply(old(Snapshot(lattices)), comparator)
    ensures network.comparisons == old(network.comparisons) + [comparator] && network.wires == old(network.wires)
  {
    ghost var g := Snapshot(lattices);
    comparator := ChooseComparator(subgoal, zeros, ones, draw);
    CandidateWires(subgoal, comparator);
    network.AddComparator(comparator);
    assert Snapshot(lattices) == g;
    ghost var cs := network.comparisons;
    ApplyToLattices(lattices, comparator);
    assert network.comparisons == cs;
  }

  /** The ranking and the pick of a round: a random comparator of the best non-empty tier. */
  method ChooseComparator(subgoal: int, zeros: set<int>, ones: set<int>, draw: nat) returns (comparator: Comparator)
    requires SubgoalOk(subgoal)
    ensures comparator == Select(subgoal, zeros, ones, draw)
  {
    var two, one, none := Utilities(subgoal, zeros, ones);
    var best := if two != [] then two else if one != [] then one else none;
    BestNonEmpty(subgoal, zeros, ones);
    comparator := Choice(best, draw);
  }

  /** The last line of a round: the lattice of the comparator's lower wire is combined with the higher one's. */
  method ApplyToLattices(lattices: seq<Lattice>, comparator: Comparator)
    requires Distinct(lattices) && GridOk(Snapshot(lattices)) && 0 <= comparator.wireOne < comparator.wireTwo < NumWires
    modifies lattices[comparator.wireOne], lattices[comparator.wireTwo]
    ensures Snapshot(lattices) == Apply(old(Snapshot(lattices)), comparator)
  {
    ghost var g := Snapshot(lattices);
    GridStep(g, comparator.wireOne, comparator.wireTwo);
    lattices[comparator.wireOne].AddComparatorBetween(lattices[comparator.wireTwo]);
    assert forall k :: 0 <= k < |lattices| && k != comparator.wireOne && k != comparator.wireTwo ==>
      lattices[k] != lattices[comparator.wireOne] && lattices[k] != lattices[comparator.wireTwo];
  }

  /** Solve when no round is played: the grid unchanged and nothing appended. */
  lemma SolveStops(g: Columns, subgoal: int, draws: seq<nat>, cs: seq<Comparator>, acc: seq<Comparator>)
    requires GridOk(g) && SubgoalOk(subgoal) && (Done(g, subgoal) || draws == [])
    ensures Prepend(acc, Solve(g, subgoal, draws)) == Outcome(g, acc, Done(g, subgoal))
    ensures cs + acc + [] == cs + acc
  {
  }

  lemma PrependNothing(o: Outcome, draws: seq<nat>)
    ensures Prepend([], o) == o && draws[0..] == draws
  {
  }

  lemma PrependTwice(cs: seq<Comparator>, acc: seq<Comparator>, c: Comparator, o: Outcome)
    ensures Prepend(acc, Prepend([c], o)) == Prepend(acc + [c], o)
    ensures cs + (acc + [c]) == (cs + acc) + [c]
  {
  }

  /** One round of Solve, unfolded at position t of the draws. */
  lemma SolveStep(g: Columns, subgoal: int, draws: seq<nat>, t: nat)
    requires GridOk(g) && SubgoalOk(subgoal) && t < |draws| && !Done(g, subgoal)
    ensures var c := Pick(g, subgoal, draws[t]);
      Solve(g, subgoal, draws[t..]) == Prepend([c], Solve(Apply(g, c), subgoal, draws[t + 1..]))
  {
    assert draws[t..][1..] == draws[t + 1..];
  }

  /** Comparators of a row of the tier sort: exactly the pairs (wireOne, v), wireOne < v < bound, of that tier. */
  lemma {:induction false} RowTierMembers(wireOne: int, bound: int, zeros: set<int>, ones: set<int>, t: nat, c: Comparator)
    ensures c in RowTier(wireOne, bound, zeros, ones, t) <==>
      c.wireOne == wireOne - 1 && wireOne < c.wireTwo + 1 < bound && Tier(wireOne, c.wireTwo + 1, zeros, ones) == t
    decreases bound - wireOne
  {
    if bound > wireOne + 1 {
      RowTierMembers(wireOne, bound - 1, zeros, ones, t, c);
    }
  }

  lemma {:induction false} RowsTierMembers(subgoal: int, upTo: int, dual: int, zeros: set<int>, ones: set<int>, t: nat, c: Comparator)
    ensures c in RowsTier(subgoal, upTo, dual, zeros, ones, t) <==>
      subgoal <= c.wireOne + 1 < upTo && c.wireOne + 1 < c.wireTwo + 1 <= dual && Tier(c.wireOne + 1, c.wireTwo + 1, zeros, ones) == t
    decreases upTo - subgoal
  {
    if upTo > subgoal {
      RowsTierMembers(subgoal, upTo - 1, dual, zeros, ones, t, c);
      RowTierMembers(upTo - 1, dual + 1, zeros, ones, t, c);
    }
  }

  /** Tier t holds exactly the candidates of utility t. */
  lemma TierListMembers(subgoal: int, zeros: set<int>, ones: set<int>, t: nat, c: Comparator)
    ensures c in TierList(subgoal, zeros, ones, t) <==> Candidate(subgoal, c) && Tier(c.wireOne + 1, c.wireTwo + 1, zeros, ones) == t
  {
    RowsTierMembers(subgoal, Dual(subgoal), Dual(subgoal), zeros, ones, t, c);
  }

  /** Some tier is non-empty, so the choice of the last branch never meets an empty list. */
  lemma BestNonEmpty(subgoal: int, zeros: set<int>, ones: set<int>)
    requires SubgoalOk(subgoal)
    ensures |Best(TierList(subgoal, zeros, ones, 2), TierList(subgoal, zeros, ones, 1), TierList(subgoal, zeros, ones, 0))| > 0
  {
    var c := Comparator(subgoal - 1, subgoal);
    var t := Tier(subgoal, subgoal + 1, zeros, ones);
    TierListMembers(subgoal, zeros, ones, t, c);
  }

  /** A comparator leaves every lattice with its levels and their lengths. */
  lemma GridStep(g: Columns, a: int, b: int)
    requires GridOk(g) && 0 <= a < b < NumWires
    ensures Covers(g[a], g[b])
    ensures GridOk(g[a := AndLevels(g[a], g[b])][b := OrLevels(g[a], g[b])])
  {
  }

  /** The highest utility that some candidate has. */
  function TopTier(subgoal: int, zeros: set<int>, ones: set<int>): nat
  {
    if TierList(subgoal, zeros, ones, 2) != [] then 2
    else if TierList(subgoal, zeros, ones, 1) != [] then 1
    else 0
  }

  /** The greedy choice: no candidate has a higher utility than the comparator selected. */
  lemma SelectIsBest(subgoal: int, zeros: set<int>, ones: set<int>, draw: nat, p: Comparator, c: Comparator)
    requires SubgoalOk(subgoal) && p == Select(subgoal, zeros, ones, draw) && Candidate(subgoal, c)
    ensures Tier(c.wireOne + 1, c.wireTwo + 1, zeros, ones) <= Tier(p.wireOne + 1, p.wireTwo + 1, zeros, ones)
  {
    SelectTier(subgoal, zeros, ones, draw);
    TopBeatsAll(subgoal, zeros, ones, p, c);
  }

  lemma TopBeatsAll(subgoal: int, zeros: set<int>, ones: set<int>, p: Comparator, c: Comparator)
    requires Candidate(subgoal, c) && p in TierList(subgoal, zeros, ones, TopTier(subgoal, zeros, ones))
    ensures Tier(c.wireOne + 1, c.wireTwo + 1, zeros, ones) <= Tier(p.wireOne + 1, p.wireTwo + 1, zeros, ones)
  {
    InTopTier(subgoal, zeros, ones, p);
    BelowTopTier(subgoal, zeros, ones, c);
  }

  lemma SelectTier(subgoal: int, zeros: set<int>, ones: set<int>, draw: nat)
    requires SubgoalOk(subgoal)
    ensures Select(subgoal, zeros, ones, draw) in TierList(subgoal, zeros, ones, TopTier(subgoal, zeros, ones))
  {
    BestNonEmpty(subgoal, zeros, ones);
  }

  lemma InTopTier(subgoal: int, zeros: set<int>, ones: set<int>, c: Comparator)
    requires c in TierList(subgoal, zeros, ones, TopTier(subgoal, zeros, ones))
    ensures Tier(c.wireOne + 1, c.wireTwo + 1, zeros, ones) == TopTier(subgoal, zeros, ones)
  {
    TierListMembers(subgoal, zeros, ones, TopTier(subgoal, zeros, ones), c);
  }

  lemma BelowTopTier(subgoal: int, zeros: set<int>, ones: set<int>, c: Comparator)
    requires Candidate(subgoal, c)
    ensures Tier(c.wireOne + 1, c.wireTwo + 1, zeros, ones) <= TopTier(subgoal, zeros, ones)
  {
    TierListMembers(subgoal, zeros, ones, Tier(c.wireOne + 1, c.wireTwo + 1, zeros, ones), c);
  }

  /**
   * What a run of computeSubgoal produces: lattices of the same shape, at
   * most one comparator per draw, and, when it finishes, both levels of the
   * subgoal in order. It stops unfinished only after using every draw.
   */
  lemma {:induction false} SolveShape(g: Columns, subgoal: int, draws: seq<nat>)
    requires GridOk(g) && SubgoalOk(subgoal)
    ensures var o := Solve(g, subgoal, draws);
      GridOk(o.grid) && |o.added| <= |draws| &&
      (o.finished <==> Done(o.grid, subgoal)) &&
      (!o.finished ==> |o.added| == |draws|)
    decreases |draws|
  {
    if !Done(g, subgoal) && draws != [] {
      SolveShape(Apply(g, Pick(g, subgoal, draws[0])), subgoal, draws[1..]);
    }
  }

  /** Every comparator of the list is a candidate of the subgoal. */
  predicate AllCandidates(subgoal: int, cs: seq<Comparator>)
  {
    forall k :: 0 <= k < |cs| ==> Candidate(subgoal, cs[k])
  }

  lemma AllCandidatesCons(subgoal: int, c: Comparator, rest: seq<Comparator>)
    requires Candidate(subgoal, c) && AllCandidates(subgoal, rest)
    ensures AllCandidates(subgoal, [c] + rest)
  {
    assert forall k :: 0 < k < 1 + |rest| ==> ([c] + rest)[k] == rest[k - 1];
  }

  /** Every comparator computeSubgoal appends joins two wires of the subgoal's range, lower wire first. */
  lemma {:induction false} SolveCandidates(g: Columns, subgoal: int, draws: seq<nat>)
    requires GridOk(g) && SubgoalOk(subgoal)
    ensures AllCandidates(subgoal, Solve(g, subgoal, draws).added)
    decreases |draws|
  {
    if !Done(g, subgoal) && draws != [] {
      var c := Pick(g, subgoal, draws[0]);
      var rest := Solve(Apply(g, c), subgoal, draws[1..]);
      SolveCandidates(Apply(g, c), subgoal, draws[1..]);
      AllCandidatesCons(subgoal, c, rest.added);
    }
  }

  /** A candidate's wires are valid lattice positions, lower wire first. */
  lemma CandidateWires(subgoal: int, c: Comparator)
    requires SubgoalOk(subgoal) && Candidate(subgoal, c)
    ensures 0 <= c.wireOne < c.wireTwo < NumWires
    ensures subgoal - 1 <= c.wireOne && c.wireTwo <= Dual(subgoal) - 1
  {
  }

  /** Wires from .. to - 1 all carry value on the row. */
  predicate AllEntries(g: Columns, level: nat, row: nat, from: int, to: int, value: bool)
    requires GridOk(g) && 1 <= level <= NumWires + 1 && row < |g[0][level]| && 1 <= from && to <= NumWires + 1
  {
    forall v :: from <= v < to ==> Entry(g, v, level, row) == value
  }

  /** Every position of the list holds value. */
  predicate Constant(s: seq<bool>, value: bool)
  {
    forall i :: 0 <= i < |s| ==> s[i] == value
  }

  /** FirstFalse finds w exactly when w is false on the row and every wire from j to w - 1 is true. */
  lemma {:induction false} FirstFalseIs(g: Columns, level: nat, row: nat, j: int, dual: int, w: int)
    requires GridOk(g) && 1 <= level <= NumWires + 1 && row < |g[0][level]|
    requires 1 <= j <= w <= dual <= NumWires
    ensures FirstFalse(g, level, row, j, dual) == w <==>
      !Entry(g, w, level, row) && AllEntries(g, level, row, j, w, true)
    decreases w - j
  {
    if j < w {
      FirstFalseIs(g, level, row, j + 1, dual, w);
    } else {
      FirstFalseRange(g, level, row, j + 1, dual);
    }
  }

  /** LastTrue finds w exactly when w is true on the row and every wire from w + 1 to j is false. */
  lemma {:induction false} LastTrueIs(g: Columns, level: nat, row: nat, j: int, subgoal: int, w: int)
    requires GridOk(g) && 1 <= level <= NumWires + 1 && row < |g[0][level]|
    requires 1 <= subgoal <= w <= j <= NumWires
    ensures LastTrue(g, level, row, j, subgoal) == w <==>
      Entry(g, w, level, row) && AllEntries(g, level, row, w + 1, j + 1, false)
    decreases j - w
  {
    if w < j {
      LastTrueIs(g, level, row, j - 1, subgoal, w);
    } else {
      LastTrueRange(g, level, row, j - 1, subgoal);
    }
  }

  /** FirstFalse never reports a wire outside j .. dual + 1. */
  lemma {:induction false} FirstFalseRange(g: Columns, level: nat, row: nat, j: int, dual: int)
    requires GridOk(g) && 1 <= level <= NumWires + 1 && row < |g[0][level]|
    requires 1 <= j <= dual + 1 && dual <= NumWires
    ensures j <= FirstFalse(g, level, row, j, dual) <= dual + 1
    decreases dual + 1 - j
  {
    if j <= dual {
      FirstFalseRange(g, level, row, j + 1, dual);
    }
  }

  lemma {:induction false} LastTrueRange(g: Columns, level: nat, row: nat, j: int, subgoal: int)
    requires GridOk(g) && 1 <= level <= NumWires + 1 && row < |g[0][level]|
    requires 1 <= subgoal && subgoal - 1 <= j <= NumWires
    ensures subgoal - 1 <= LastTrue(g, level, row, j, subgoal) <= j
    decreases j + 1 - subgoal
  {
    if j >= subgoal {
      LastTrueRange(g, level, row, j - 1, subgoal);
    }
  }

  /**
   * Row row of level subgoal + 1 puts wire w into zeros: the subgoal's wire
   * is true there, w is the first wire after it that is false, and w is at
   * most the dual.
   */
  predicate ZeroWitness(g: Columns, subgoal: int, row: nat, w: int)
    requires GridOk(g) && SubgoalOk(subgoal)
  {
    row < |g[0][subgoal + 1]| && subgoal < w <= Dual(subgoal) &&
    Entry(g, subgoal, subgoal + 1, row) && !Entry(g, w, subgoal + 1, row) &&
    AllEntries(g, subgoal + 1, row, subgoal + 1, w, true)
  }

  /**
   * Row row of level dual puts wire w into ones: the dual's wire is false
   * there, w is the last wire before it that is true, and w is at least the
   * subgoal.
   */
  predicate OneWitness(g: Columns, subgoal: int, row: nat, w: int)
    requires GridOk(g) && SubgoalOk(subgoal)
  {
    row < |g[0][Dual(subgoal)]| && subgoal <= w < Dual(subgoal) &&
    !Entry(g, Dual(subgoal), Dual(subgoal), row) && Entry(g, w, Dual(subgoal), row) &&
    AllEntries(g, Dual(subgoal), row, w + 1, Dual(subgoal), false)
  }

  /** The zeros scan's test on one row, stated through FirstFalse. */
  lemma ZeroWitnessIs(g: Columns, subgoal: int, row: nat, w: int)
    requires GridOk(g) && SubgoalOk(subgoal) && row < |g[0][subgoal + 1]| && subgoal < w
    ensures ZeroWitness(g, subgoal, row, w) <==>
      Entry(g, subgoal, subgoal + 1, row) && w <= Dual(subgoal) &&
      FirstFalse(g, subgoal + 1, row, subgoal + 1, Dual(subgoal)) == w
  {
    if w <= Dual(subgoal) {
      FirstFalseIs(g, subgoal + 1, row, subgoal + 1, Dual(subgoal), w);
    }
  }

  lemma OneWitnessIs(g: Columns, subgoal: int, row: nat, w: int)
    requires GridOk(g) && SubgoalOk(subgoal) && row < |g[0][Dual(subgoal)]| && w < Dual(subgoal)
    ensures OneWitness(g, subgoal, row, w) <==>
      !Entry(g, Dual(subgoal), Dual(subgoal), row) && subgoal <= w &&
      LastTrue(g, Dual(subgoal), row, Dual(subgoal) - 1, subgoal) == w
  {
    if subgoal <= w {
      LastTrueIs(g, Dual(subgoal), row, Dual(subgoal) - 1, subgoal, w);
    }
  }

  lemma {:induction false} ZeroRowsMembers(g: Columns, subgoal: int, m: nat, w: int)
    requires GridOk(g) && SubgoalOk(subgoal) && m <= |g[0][subgoal + 1]| && subgoal < w
    ensures w in ZeroRows(g, subgoal, m) <==> exists row: nat :: row < m && ZeroWitness(g, subgoal, row, w)
  {
    if m > 0 {
      var row := m - 1;
      ZeroRowsMembers(g, subgoal, row, w);
      ZeroWitnessIs(g, subgoal, row, w);
      if exists r: nat :: r < m && ZeroWitness(g, subgoal, r, w) {
        var r: nat :| r < m && ZeroWitness(g, subgoal, r, w);
        if r < row {
          assert w in ZeroRows(g, subgoal, row);
        }
      }
      if w in ZeroRows(g, subgoal, row) {
        var r: nat :| r < row && ZeroWitness(g, subgoal, r, w);
      }
    }
  }

  lemma {:induction false} OneRowsMembers(g: Columns, subgoal: int, m: nat, w: int)
    requires GridOk(g) && SubgoalOk(subgoal) && m <= |g[0][Dual(subgoal)]| && w < Dual(subgoal)
    ensures w in OneRows(g, subgoal, m) <==> exists row: nat :: row < m && OneWitness(g, subgoal, row, w)
  {
    if m > 0 {
      var row := m - 1;
      OneRowsMembers(g, subgoal, row, w);
      OneWitnessIs(g, subgoal, row, w);
      if exists r: nat :: r < m && OneWitness(g, subgoal, r, w) {
        var r: nat :| r < m && OneWitness(g, subgoal, r, w);
        if r < row {
          assert w in OneRows(g, subgoal, row);
        }
      }
      if w in OneRows(g, subgoal, row) {
        var r: nat :| r < row && OneWitness(g, subgoal, r, w);
      }
    }
  }

  /**
   * zeros: the subgoal's own wire when it is true on some row of level
   * subgoal + 1, and every other wire exactly when some row witnesses it.
   */
  lemma ZerosMeaning(g: Columns, subgoal: int, w: int)
    requires GridOk(g) && SubgoalOk(subgoal)
    ensures subgoal in ZerosOf(g, subgoal) <==> true in g[subgoal - 1][subgoal + 1]
    ensures w < subgoal ==> w !in ZerosOf(g, subgoal)
    ensures subgoal < w ==> (w in ZerosOf(g, subgoal) <==> exists row: nat :: ZeroWitness(g, subgoal, row, w))
  {
    if subgoal < w {
      ZeroRowsMembers(g, subgoal, |g[0][subgoal + 1]|, w);
    } else if w != subgoal {
      ZeroRowsMembers(g, subgoal, |g[0][subgoal + 1]|, subgoal + 1);
      ZeroRowsBelow(g, subgoal, |g[0][subgoal + 1]|);
    }
  }

  lemma {:induction false} ZeroRowsBelow(g: Columns, subgoal: int, m: nat)
    requires GridOk(g) && SubgoalOk(subgoal) && m <= |g[0][subgoal + 1]|
    ensures forall w :: w in ZeroRows(g, subgoal, m) ==> subgoal < w <= Dual(subgoal)
  {
    if m > 0 {
      ZeroRowsBelow(g, subgoal, m - 1);
      FirstFalseRange(g, subgoal + 1, m - 1, subgoal + 1, Dual(subgoal));
    }
  }

  lemma {:induction false} OneRowsAbove(g: Columns, subgoal: int, m: nat)
    requires GridOk(g) && SubgoalOk(subgoal) && m <= |g[0][Dual(subgoal)]|
    ensures forall w :: w in OneRows(g, subgoal, m) ==> subgoal <= w < Dual(subgoal)
  {
    if m > 0 {
      OneRowsAbove(g, subgoal, m - 1);
      LastTrueRange(g, Dual(subgoal), m - 1, Dual(subgoal) - 1, subgoal);
    }
  }

  /**
   * ones: the dual's own wire when it is false on some row of level dual,
   * and every other wire exactly when some row witnesses it.
   */
  lemma OnesMeaning(g: Columns, subgoal: int, w: int)
    requires GridOk(g) && SubgoalOk(subgoal)
    ensures Dual(subgoal) in OnesOf(g, subgoal) <==> false in g[Dual(subgoal) - 1][Dual(subgoal)]
    ensures w > Dual(subgoal) ==> w !in OnesOf(g, subgoal)
    ensures w < Dual(subgoal) ==> (w in OnesOf(g, subgoal) <==> exists row: nat :: OneWitness(g, subgoal, row, w))
  {
    OneRowsAbove(g, subgoal, |g[0][Dual(subgoal)]|);
    if w < Dual(subgoal) {
      OneRowsMembers(g, subgoal, |g[0][Dual(subgoal)]|, w);
    }
  }

  /**
   * The loop of computeSubgoal stops exactly when the subgoal's wire is
   * false on every input of level subgoal + 1 and the dual's wire is true on
   * every input of level dual.
   */
  lemma DoneMeaning(g: Columns, subgoal: int)
    requires GridOk(g) && SubgoalOk(subgoal)
    ensures Done(g, subgoal) <==>
      Constant(g[subgoal - 1][subgoal + 1], false) && Constant(g[Dual(subgoal) - 1][Dual(subgoal)], true)
  {
    ZerosMeaning(g, subgoal, subgoal);
    OnesMeaning(g, subgoal, Dual(subgoal));
  }

  /** Every comparator joins two of the 16 wires, lower wire first. */
  predicate InRange(cs: seq<Comparator>)
  {
    forall k :: 0 <= k < |cs| ==> 0 <= cs[k].wireOne < cs[k].wireTwo < NumWires
  }

  lemma InRangeAppend(subgoal: int, cs: seq<Comparator>, added: seq<Comparator>)
    requires SubgoalOk(subgoal) && InRange(cs) && AllCandidates(subgoal, added)
    ensures InRange(cs + added)
  {
    forall k | 0 <= k < |cs + added|
      ensures 0 <= (cs + added)[k].wireOne < (cs + added)[k].wireTwo < NumWires
    {
      if k >= |cs| {
        assert (cs + added)[k] == added[k - |cs|];
      }
    }
  }

  /** The lattices of a fresh 16-wire network have levels 1 .. 17, of equal lengths on every wire. */
  lemma FreshGrid(g: Columns)
    requires |g| == NumWires && forall k :: 0 <= k < NumWires ==> g[k] == Built(NumWires, k + 1, Pow2(NumWires))
    ensures GridOk(g)
  {
    forall k | 0 <= k < NumWires
      ensures forall level: nat :: level in g[k] <==> 1 <= level <= NumWires + 1
      ensures forall level :: level in g[k] ==> level in g[0] && |g[k][level]| == |g[0][level]|
    {
      FreshColumn(g[k], g[0], k + 1);
    }
  }

  lemma FreshColumn(col: map<nat, seq<bool>>, first: map<nat, seq<bool>>, wire: nat)
    requires 1 <= wire <= NumWires
    requires col == Built(NumWires, wire, Pow2(NumWires)) && first == Built(NumWires, 1, Pow2(NumWires))
    ensures forall level: nat :: level in col <==> 1 <= level <= NumWires + 1
    ensures forall level :: level in col ==> level in first && |col[level]| == |first[level]|
  {
    forall level: nat
      ensures level in col <==> 1 <= level <= NumWires + 1
      ensures level in col ==> level in first && |col[level]| == |first[level]|
    {
      LatticeLevels(NumWires, wire, level);
      LatticesAlike(NumWires, wire, 1, level);
    }
  }

  /** The lattice the constructor builds for a wire of the 16-wire network. */
  function Initial(wire: nat): map<nat, seq<bool>>
    requires 1 <= wire <= NumWires
  {
    Built(NumWires, wire, Pow2(NumWires))
  }

  /** The lattices main builds before the first subgoal, wire w at index w - 1. */
  function FreshColumns(): (g: Columns)
    ensures |g| == NumWires
  {
    seq(NumWires, k requires 0 <= k < NumWires => Initial(k + 1))
  }

  lemma FreshColumnsOk()
    ensures GridOk(FreshColumns())
  {
    FreshGrid(FreshColumns());
  }

  lemma InitialGrid(ls: seq<Lattice>)
    requires |ls| == NumWires && forall k :: 0 <= k < |ls| ==> ls[k].lattice == Initial(k + 1)
    ensures Snapshot(ls) == FreshColumns() && GridOk(Snapshot(ls))
  {
    forall k | 0 <= k < NumWires
      ensures Snapshot(ls)[k] == FreshColumns()[k]
    {
      SnapshotAt(ls, k);
    }
    FreshColumnsOk();
  }

  method NewLattice(wire: nat) returns (l: Lattice)
    requires 1 <= wire <= NumWires
    ensures fresh(l) && l.lattice == Initial(wire)
  {
    l := new Lattice(NumWires, wire);
  }

  lemma AppendFresh(ls: seq<Lattice>, l: Lattice)
    requires Distinct(ls) && forall k :: 0 <= k < |ls| ==> ls[k] != l
    ensures Distinct(ls + [l])
    ensures forall k :: 0 <= k < |ls| ==> (ls + [l])[k] == ls[k]
  {
  }

  /** The loop of main that creates one lattice per wire. */
  method NewLattices() returns (lattices: seq<Lattice>)
    ensures |lattices| == NumWires && Distinct(lattices) && Snapshot(lattices) == FreshColumns() && GridOk(Snapshot(lattices))
    ensures forall k :: 0 <= k < |lattices| ==> fresh(lattices[k])
  {
    lattices := [];
    var wire := 1;
    while wire <= NumWires
      invariant 1 <= wire <= NumWires + 1 && |lattices| == wire - 1
      invariant forall k :: 0 <= k < |lattices| ==> fresh(lattices[k])
      invariant forall k :: 0 <= k < |lattices| ==> lattices[k].lattice == Initial(k + 1)
      invariant Distinct(lattices)
    {
      var l := NewLattice(wire);
      AppendFresh(lattices, l);
      lattices := lattices + [l];
      wire := wire + 1;
    }
    InitialGrid(lattices);
  }

  /** What the subgoal loop of main has built: the lattices, the network's comparators and one flag per subgoal. */
  datatype Progress = Progress(grid: Columns, added: seq<Comparator>, finished: seq<bool>)

  /**
   * The subgoal loop of main after subgoals 1 .. n: subgoal i runs
   * computeSubgoal, with draws[i - 1], on the lattices the earlier subgoals
   * left, starting from the fresh ones.
   */
  function Subgoals(draws: seq<seq<nat>>, n: nat): (p: Progress)
    requires n <= |draws| && n <= NumWires / 2
    ensures GridOk(p.grid) && |p.finished| == n
  {
    if n == 0 then
      FreshColumnsOk();
      Progress(FreshColumns(), [], [])
    else
      var prev := Subgoals(draws, n - 1);
      var o := Solve(prev.grid, n, draws[n - 1]);
      SolveShape(prev.grid, n, draws[n - 1]);
      Progress(o.grid, prev.added + o.added, prev.finished + [o.finished])
  }

  /**
   * What the subgoal loop guarantees: every comparator joins two of the 16
   * wires, lower wire first, and the flag of subgoal i is set exactly when
   * the lattices it leaves have both of its levels in order.
   */
  lemma {:induction false} SubgoalsShape(draws: seq<seq<nat>>, n: nat)
    requires n <= |draws| && n <= NumWires / 2
    ensures InRange(Subgoals(draws, n).added)
    ensures forall i :: 1 <= i <= n ==> (Subgoals(draws, n).finished[i - 1] <==> Done(Subgoals(draws, i).grid, i))
  {
    if n > 0 {
      var prev := Subgoals(draws, n - 1);
      SubgoalsShape(draws, n - 1);
      SolveShape(prev.grid, n, draws[n - 1]);
      SolveInRange(prev.grid, n, draws[n - 1], prev.added);
      forall i | 1 <= i <= n
        ensures Subgoals(draws, n).finished[i - 1] <==> Done(Subgoals(draws, i).grid, i)
      {
        if i < n {
          assert Subgoals(draws, n).finished[i - 1] == prev.finished[i - 1];
        }
      }
    }
  }

  /**
   * One pass of main: a 16-wire network and one lattice per wire, then the
   * subgoals 1 .. 8 in order, subgoal i using draws[i - 1]; finally the
   * unsorted outputs over every input below 2^16.
   */
  method Synthesise(draws: seq<seq<nat>>)
    returns (network: SensoNetworks.ComparisonNetwork, finished: seq<bool>, unsorted: set<nat>)
    requires |draws| == NumWires / 2
    ensures network.wires == NumWires
    ensures network.comparisons == Subgoals(draws, |draws|).added && finished == Subgoals(draws, |draws|).finished
    ensures InRange(network.comparisons)
    ensures unsorted == SensoNetworks.UnsortedOf(network.comparisons, Below(Pow2(NumWires)))
  {
    network := new SensoNetworks.ComparisonNetwork(NumWires);
    var lattices := NewLattices();
    finished := [];
    var i := 1;
    while i <= |draws|
      invariant 1 <= i <= |draws| + 1
      invariant Distinct(lattices) && GridOk(Snapshot(lattices))
      invariant forall k :: 0 <= k < |lattices| ==> fresh(lattices[k])
      invariant fresh(network) && network.wires == NumWires
      invariant Progress(Snapshot(lattices), network.comparisons, finished) == Subgoals(draws, i - 1)
    {
      finished := NextSubgoal(draws, i, lattices, network, finished);
      i := i + 1;
    }
    SubgoalsShape(draws, |draws|);
    unsorted := CountUnsorted(network);
  }

  /** Subgoal i of main's loop: computeSubgoal on the lattices the earlier subgoals left, and its flag recorded. */
  method NextSubgoal(draws: seq<seq<nat>>, i: int, lattices: seq<Lattice>, network: SensoNetworks.ComparisonNetwork,
                     finished0: seq<bool>) returns (finished: seq<bool>)
    requires 1 <= i <= |draws| && i <= NumWires / 2
    requires Distinct(lattices) && GridOk(Snapshot(lattices))
    requires Progress(Snapshot(lattices), network.comparisons, finished0) == Subgoals(draws, i - 1)
    modifies network, set l | l in lattices
    ensures GridOk(Snapshot(lattices)) && network.wires == old(network.wires)
    ensures Progress(Snapshot(lattices), network.comparisons, finished) == Subgoals(draws, i)
  {
    var done := ComputeSubgoal(i, lattices, network, draws[i - 1]);
    finished := finished0 + [done];
  }

  /** The end of main: every input below 2^16 is run through the network and its unsorted outputs kept. */
  method CountUnsorted(network: SensoNetworks.ComparisonNetwork) returns (unsorted: set<nat>)
    requires InRange(network.comparisons)
    ensures unsorted == SensoNetworks.UnsortedOf(network.comparisons, Below(Pow2(NumWires)))
  {
    var input := AllInputs(Pow2(NumWires));
    InputsAreInts();
    InRangeWires(network.comparisons);
    unsorted := network.GetUnsorted(input);
  }

  /** Every input below 2^16 is a non-negative Java int. */
  lemma InputsAreInts()
    ensures Pow2(NumWires) <= SensoNetworks.IntLimit
  {
    assert Pow2(8) == 256;
    assert Pow2(NumWires) == 65536;
  }

  /** The comparators a subgoal adds keep the network's wires in range. */
  lemma SolveInRange(g: Columns, subgoal: int, draws: seq<nat>, cs: seq<Comparator>)
    requires GridOk(g) && SubgoalOk(subgoal) && InRange(cs)
    ensures InRange(cs + Solve(g, subgoal, draws).added)
  {
    SolveCandidates(g, subgoal, draws);
    InRangeAppend(subgoal, cs, Solve(g, subgoal, draws).added);
  }

  /** The numbers 0 .. n - 1. */
  function Below(n: nat): (r: set<nat>)
    ensures forall x :: x in r ==> x < n
  {
    if n == 0 then {} else Below(n - 1) + {n - 1}
  }

  /** The loop of main that adds every input below n to a set. */
  method AllInputs(n: nat) returns (input: set<nat>)
    ensures input == Below(n)
  {
    input := {};
    var i := 0;
    while i < n
      invariant 0 <= i <= n && input == Below(i)
    {
      input := input + {i};
      i := i + 1;
    }
  }

  lemma InRangeWires(cs: seq<Comparator>)
    requires InRange(cs)
    ensures SensoNetworks.WiresOk(cs)
  {
  }
}
