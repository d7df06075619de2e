/**
 * A comparator of the 0/1 engine: two wire indices, always stored with the
 * smaller one on top, whatever order they were given in.
 */
module Comparators {
  import opened BinarySequences

  datatype Comparator = Comparator(topWire: int, bottomWire: int) {

    /** Compare-swap this comparator's wires inside the sequence's own array. */
    method Sort(binarySequence: BinarySequence)
      requires 0 <= topWire < binarySequence.bits.Length
      requires 0 <= bottomWire < binarySequence.bits.Length
      modifies binarySequence.bits
      ensures binarySequence.bits[..] == CompareSwap(old(binarySequence.bits[..]), topWire, bottomWire)
    {
      var a := binarySequence.bits;
      if a[topWire] == 1 && a[bottomWire] == 0 {
        a[topWire] := 0;
        a[bottomWire] := 1;
      }
    }
  }

  /** The constructor: the two indices, smaller one on top. */
  function Create(topWire: int, bottomWire: int): (c: Comparator)
    ensures c.topWire <= c.bottomWire
    ensures (c.topWire, c.bottomWire) == (topWire, bottomWire) || (c.topWire, c.bottomWire) == (bottomWire, topWire)
  {
    Comparator(if topWire <= bottomWire then topWire else bottomWire,
               if topWire <= bottomWire then bottomWire else topWire)
  }

  /** The argument order does not matter. */
  lemma CreateSymmetric(a: int, b: int)
    ensures Create(a, b) == Create(b, a)
  {
  }

  /** Sorting through a comparator keeps the number of ones and orders its pair on 0/1 data. */
  lemma SortOrdersPair(c: Comparator, s: seq<int>)
    requires 0 <= c.topWire < |s| && 0 <= c.bottomWire < |s|
    requires Binary.IsBinary(s)
    ensures var r := CompareSwap(s, c.topWire, c.bottomWire);
      multiset(r)[1] == multiset(s)[1] && r[c.topWire] <= r[c.bottomWire]
  {
    CompareSwapOrders(s, c.topWire, c.bottomWire);
  }
}
