/**
 * The comparator of the bit-level engine: two wire numbers kept exactly as
 * given. Its getters are the datatype's fields wireOne and wireTwo.
 */
module SensoComparators {

  datatype Comparator = Comparator(wireOne: int, wireTwo: int)

  /** The comparator getRandom builds from two different draws: smaller wire first. */
  function Ordered(a: int, b: int): (c: Comparator)
    ensures c.wireOne <= c.wireTwo
    ensures (c.wireOne, c.wireTwo) == (a, b) || (c.wireOne, c.wireTwo) == (b, a)
  {
    Comparator(if a < b then a else b, if a < b then b else a)
  }

  /** Some later draw differs from the first: the redraw loop can stop. */
  predicate Differs(draws: seq<int>)
  {
    |draws| >= 2 && exists k :: 1 <= k < |draws| && draws[k] != draws[0]
  }

  /**
   * Where the redraw loop that starts at draws[i] stops: at the first draw
   * from i on that differs from draws[0], or at the last draw.
   */
  function Redraw(draws: seq<int>, i: nat): (k: nat)
    requires 1 <= i < |draws|
    ensures i <= k < |draws|
    ensures forall j :: i <= j < k ==> draws[j] == draws[0]
    ensures draws[k] != draws[0] || k == |draws| - 1
    decreases |draws| - i
  {
    if draws[i] != draws[0] || i == |draws| - 1 then i else Redraw(draws, i + 1)
  }

  /** The comparator getRandom returns for these draws. */
  function Drawn(draws: seq<int>): Comparator
    requires Differs(draws)
  {
    Ordered(draws[0], draws[Redraw(draws, 1)])
  }

  /**
   * The draws getRandom keeps: wireOne is the first draw, wireTwo the first
   * later draw that differs from it, and the comparator holds them smaller first.
   */
  lemma DrawnMeaning(draws: seq<int>)
    requires Differs(draws)
    ensures Drawn(draws).wireOne < Drawn(draws).wireTwo
    ensures exists k :: 1 <= k < |draws| && draws[k] != draws[0] &&
                        (forall j :: 1 <= j < k ==> draws[j] == draws[0]) &&
                        Drawn(draws) == Ordered(draws[0], draws[k])
  {
    var k := Redraw(draws, 1);
    assert draws[k] != draws[0];
  }

  /** Draws that are nextInt(wires) values give a comparator on two wires of [0, wires), smaller first. */
  lemma DrawnWithin(draws: seq<int>, wires: int)
    requires Differs(draws) && forall i :: 0 <= i < |draws| ==> 0 <= draws[i] < wires
    ensures 0 <= Drawn(draws).wireOne < Drawn(draws).wireTwo < wires
  {
    DrawnMeaning(draws);
  }

  /**
   * getRandom with the generator's values passed in: draws[0] is wireOne,
   * draws[1], draws[2], ... are the successive values of wireTwo until one
   * differs from wireOne. Every draw is a nextInt(wires) value.
   */
  method GetRandom(wires: int, draws: seq<int>) returns (c: Comparator)
    requires forall i :: 0 <= i < |draws| ==> 0 <= draws[i] < wires
    requires Differs(draws)
    ensures 0 <= c.wireOne < c.wireTwo < wires
    ensures c == Drawn(draws)
  {
    DrawnMeaning(draws);
    ghost var last := Redraw(draws, 1);
    assert draws[last] != draws[0];
    var wireOne := draws[0];
    var i := 1;
    var wireTwo := draws[i];
    while wireTwo == wireOne
      invariant 1 <= i <= last && wireTwo == draws[i]
      decreases last - i
    {
      i := i + 1;
      wireTwo := draws[i];
    }
    c := Comparator(if wireOne < wireTwo then wireOne else wireTwo, if wireOne < wireTwo then wireTwo else wireOne);
  }

  /** The two draws can come in either order. */
  lemma OrderedSymmetric(a: int, b: int)
    requires a != b
    ensures Ordered(a, b) == Ordered(b, a)
    ensures Ordered(a, b).wireOne < Ordered(a, b).wireTwo
  {
  }
}
