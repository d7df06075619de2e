/**
 * The list engine: an input is a list of ints, one entry per wire, and a
 * comparator exchanges the entries on its two wires when the first is the
 * greater. An output is sorted when no entry is greater than the next.
 * Comparators are the two-wire records of the bit-level engine.
 */
module ListNetworks {
  import opened Binary
  import opened BinarySequences
  import opened SensoComparators

  /** Both wires of every comparator index into a list of length n. */
  predicate Fits(cs: seq<Comparator>, n: int)
  {
    forall i :: 0 <= i < |cs| ==> 0 <= cs[i].wireOne < n && 0 <= cs[i].wireTwo < n
  }

  /** One comparator of run: the two entries exchanged when the first is the larger. */
  function Swap(s: seq<int>, c: Comparator): (r: seq<int>)
    requires 0 <= c.wireOne < |s| && 0 <= c.wireTwo < |s|
    ensures |r| == |s|
  {
    if s[c.wireOne] > s[c.wireTwo] then s[c.wireOne := s[c.wireTwo]][c.wireTwo := s[c.wireOne]] else s
  }

  /** The network's effect on one list: the comparators applied first to last. */
  function Apply(cs: seq<Comparator>, s: seq<int>): (r: seq<int>)
    requires Fits(cs, |s|)
    ensures |r| == |s|
  {
    if cs == [] then s else Swap(Apply(cs[..|cs| - 1], s), cs[|cs| - 1])
  }

  /** The fitness set: the outputs over the given inputs that descend somewhere. */
  function UnsortedOf(cs: seq<Comparator>, inputs: set<seq<int>>): set<seq<int>>
  {
    set s | s in inputs && Fits(cs, |s|) && !Sorted(Apply(cs, s)) :: Apply(cs, s)
  }

  /** Character.getNumericValue on a decimal digit. */
  function NumericValue(c: char): int
  {
    c as int - '0' as int
  }

  /** The numeric value of every character, in order. */
  function Numerals(cs: seq<char>): (r: seq<int>)
    ensures |r| == |cs|
  {
    seq(|cs|, j requires 0 <= j < |cs| => NumericValue(cs[j]))
  }

  /** A list with zeros added at the front until it has at least w entries. */
  function Padded(s: seq<int>, w: int): (r: seq<int>)
  {
    if |s| < w then Zeros(w - |s|) + s else s
  }

  /** The list getAllBinarySequences builds for i: the digits of Integer.toBinaryString(i), padded. */
  function Spelled(i: nat, w: int): seq<int>
  {
    Padded(Numerals(BinaryString(i)), w)
  }

  /** The lists built for 0, 1, ..., m - 1. */
  function SpelledBelow(w: int, m: nat): set<seq<int>>
  {
    if m == 0 then {} else SpelledBelow(w, m - 1) + {Spelled(m - 1, w)}
  }

  /** Each group of draws lets its redraw loop stop. */
  predicate AllDiffer(draws: seq<seq<int>>)
  {
    forall i :: 0 <= i < |draws| ==> Differs(draws[i])
  }

  /** Every getRandom draw is a nextInt(wires) value, and each redraw loop can stop. */
  predicate DrawsOk(wires: int, draws: seq<seq<int>>)
  {
    AllDiffer(draws) && forall i :: 0 <= i < |draws| ==> forall j :: 0 <= j < |draws[i]| ==> 0 <= draws[i][j] < wires
  }

  /** The comparators getRandom returns for each group of draws in turn. */
  function DrawnAll(draws: seq<seq<int>>): (cs: seq<Comparator>)
    requires AllDiffer(draws)
    ensures |cs| == |draws|
  {
    seq(|draws|, i requires 0 <= i < |draws| && Differs(draws[i]) => Drawn(draws[i]))
  }

  class ComparisonNetwork {
    var wires: int
    var comparisons: seq<Comparator>

    constructor (wires: int)
      ensures this.wires == wires && comparisons == []
    {
      this.wires := wires;
      comparisons := [];
    }

    constructor WithList(wires: int, comparisons: seq<Comparator>)
      ensures this.wires == wires && this.comparisons == comparisons
    {
      this.wires := wires;
      this.comparisons := comparisons;
    }

    /**
     * getAllBinarySequences: for every i below 2^wires, the digits of i's
     * binary string, with zeros put in front until the list has wires entries.
     */
    static method GetAllBinarySequences(wires: nat) returns (sequences: set<seq<int>>)
      ensures sequences == SpelledBelow(wires, Pow2(wires))
    {
      sequences := {};
      var i := 0;
      while i < Pow2(wires)
        invariant 0 <= i <= Pow2(wires)
        invariant sequences == SpelledBelow(wires, i)
      {
        var intArrayOfVal := SpellOne(i, wires);
        sequences := sequences + {intArrayOfVal};
        i := i + 1;
      }
    }

    /** One round of getAllBinarySequences: the digits of i's binary string, then zeros in front up to wires entries. */
    static method SpellOne(i: nat, wires: nat) returns (intArrayOfVal: seq<int>)
      ensures intArrayOfVal == Spelled(i, wires)
    {
      var val := BinaryString(i);
      intArrayOfVal := [];
      var j := 0;
      while j < |val|
        invariant 0 <= j <= |val|
        invariant intArrayOfVal == Numerals(val[..j])
      {
        NumeralsAppend(val, j);
        intArrayOfVal := intArrayOfVal + [NumericValue(val[j])];
        j := j + 1;
      }
      assert val[..j] == val;
      var digits := intArrayOfVal;
      while |intArrayOfVal| < wires
        invariant |digits| <= |intArrayOfVal| <= (if |digits| < wires then wires else |digits|)
        invariant intArrayOfVal == Zeros(|intArrayOfVal| - |digits|) + digits
        decreases wires - |intArrayOfVal|
      {
        PrependZero(intArrayOfVal, digits);
        intArrayOfVal := [0] + intArrayOfVal;
      }
      PaddingDone(intArrayOfVal, digits, wires);
    }

    /**
     * randomize: an empty network gets numComparisons new comparators;
     * otherwise the first numComparisons are replaced. draws[i] holds the
     * generator's values for the i-th getRandom call.
     */
    method Randomize(numComparisons: nat, draws: seq<seq<int>>)
      requires |draws| == numComparisons && DrawsOk(wires, draws)
      requires comparisons == [] || numComparisons <= |comparisons|
      modifies this
      ensures wires == old(wires)
      ensures comparisons == DrawnAll(draws) + (if old(comparisons) == [] then [] else old(comparisons)[numComparisons..])
      ensures forall i :: 0 <= i < numComparisons ==> 0 <= comparisons[i].wireOne < comparisons[i].wireTwo < wires
    {
      if comparisons == [] {
        var i := 0;
        while i < numComparisons
          invariant 0 <= i <= numComparisons && wires == old(wires)
          invariant comparisons == DrawnAll(draws[..i])
          invariant forall k :: 0 <= k < i ==> 0 <= comparisons[k].wireOne < comparisons[k].wireTwo < wires
        {
          var c := GetRandom(wires, draws[i]);
          DrawnAllAppend(draws, i);
          comparisons := comparisons + [c];
          i := i + 1;
        }
        assert draws[..i] == draws;
      } else {
        var i := 0;
        while i < numComparisons
          invariant 0 <= i <= numComparisons && wires == old(wires)
          invariant comparisons == DrawnAll(draws[..i]) + old(comparisons)[i..]
          invariant forall k :: 0 <= k < i ==> 0 <= comparisons[k].wireOne < comparisons[k].wireTwo < wires
        {
          var c := GetRandom(wires, draws[i]);
          DrawnAllAppend(draws, i);
          ReplaceNext(DrawnAll(draws[..i]), old(comparisons), i, c);
          comparisons := comparisons[i := c];
          i := i + 1;
        }
        assert draws[..i] == draws;
      }
    }

    /** run: the comparators in order, each swapping its two entries in place when they descend. */
    method Run(input: array<int>) returns (output: array<int>)
      requires Fits(comparisons, input.Length)
      modifies input
      ensures output == input
      ensures input[..] == Apply(comparisons, old(input[..]))
    {
      var k := 0;
      while k < |comparisons|
        invariant 0 <= k <= |comparisons|
        invariant input[..] == Apply(comparisons[..k], old(input[..]))
      {
        var comparator := comparisons[k];
        var wireOne := input[comparator.wireOne];
        var wireTwo := input[comparator.wireTwo];
        if wireOne > wireTwo {
          input[comparator.wireOne] := wireTwo;
          input[comparator.wireTwo] := wireOne;
        }
        assert comparisons[..k + 1][..k] == comparisons[..k];
        k := k + 1;
      }
      assert comparisons[..k] == comparisons;
      output := input;
    }

    /** getUnsorted: each input is run on a copy, and the output is kept when some entry exceeds the next. */
    method GetUnsorted(inputs: set<seq<int>>) returns (unsorted: set<seq<int>>)
      requires forall s :: s in inputs ==> Fits(comparisons, |s|)
      ensures unsorted == UnsortedOf(comparisons, inputs)
    {
      unsorted := {};
      var remaining := inputs;
      while remaining != {}
        invariant remaining <= inputs
        invariant unsorted == UnsortedOf(comparisons, inputs - remaining)
        decreases remaining
      {
        var input :| input in remaining;
        var copy := new int[|input|](j requires 0 <= j < |input| => input[j]);
        assert copy[..] == input;
        var output := Run(copy);
        UnsortedOfStep(comparisons, inputs, remaining, input, unsorted);
        unsorted := AddIfDescends(output, unsorted);
        remaining := remaining - {input};
      }
      assert inputs - remaining == inputs;
    }

    /** The inner loop of getUnsorted: the output joins the set at the first entry greater than the next. */
    static method AddIfDescends(output: array<int>, acc: set<seq<int>>) returns (unsorted: set<seq<int>>)
      ensures unsorted == if Sorted(output[..]) then acc else acc + {output[..]}
    {
      unsorted := acc;
      var i := 0;
      while i < output.Length - 1
        invariant 0 <= i && (i == 0 || i < output.Length)
        invariant forall j :: 0 <= j < i ==> output[j] <= output[j + 1]
      {
        if output[i] > output[i + 1] {
          unsorted := unsorted + {output[..]};
          return;
        }
        i := i + 1;
      }
    }
  }

  lemma DrawnAllAppend(draws: seq<seq<int>>, i: int)
    requires 0 <= i < |draws| && AllDiffer(draws)
    ensures DrawnAll(draws[..i + 1]) == DrawnAll(draws[..i]) + [Drawn(draws[i])]
  {
  }

  lemma ReplaceNext(done: seq<Comparator>, cs: seq<Comparator>, i: int, c: Comparator)
    requires |done| == i && 0 <= i < |cs|
    ensures (done + cs[i..])[i := c] == (done + [c]) + cs[i + 1..]
  {
  }

  lemma NumeralsAppend(val: seq<char>, j: int)
    requires 0 <= j < |val|
    ensures Numerals(val[..j + 1]) == Numerals(val[..j]) + [NumericValue(val[j])]
  {
  }

  lemma PaddingDone(list: seq<int>, digits: seq<int>, wires: int)
    requires |digits| <= |list| <= (if |digits| < wires then wires else |digits|)
    requires list == Zeros(|list| - |digits|) + digits
    requires |list| >= wires
    ensures list == Padded(digits, wires)
  {
    if |digits| >= wires {
      assert Zeros(0) + digits == digits;
    }
  }

  lemma PrependZero(list: seq<int>, digits: seq<int>)
    requires |digits| <= |list| && list == Zeros(|list| - |digits|) + digits
    ensures [0] + list == Zeros(|list| + 1 - |digits|) + digits
  {
  }

  lemma UnsortedOfStep(cs: seq<Comparator>, inputs: set<seq<int>>, remaining: set<seq<int>>, s: seq<int>,
                       acc: set<seq<int>>)
    requires s in remaining && remaining <= inputs && Fits(cs, |s|)
    requires acc == UnsortedOf(cs, inputs - remaining)
    ensures (if Sorted(Apply(cs, s)) then acc else acc + {Apply(cs, s)})
      == UnsortedOf(cs, inputs - (remaining - {s}))
  {
    assert inputs - (remaining - {s}) == (inputs - remaining) + {s};
  }

  /**
   * What one comparator does: it permutes the list, touches only its two
   * entries, acts exactly when they descend, leaves them in order, and a
   * second application changes nothing.
   */
  lemma SwapEffect(s: seq<int>, c: Comparator)
    requires 0 <= c.wireOne < |s| && 0 <= c.wireTwo < |s|
    ensures var r := Swap(s, c);
      multiset(r) == multiset(s) &&
      r[c.wireOne] <= r[c.wireTwo] &&
      (forall i :: 0 <= i < |s| && i != c.wireOne && i != c.wireTwo ==> r[i] == s[i]) &&
      (r != s <==> s[c.wireOne] > s[c.wireTwo]) &&
      Swap(r, c) == r
  {
    var r := Swap(s, c);
    var a, b := s[c.wireOne], s[c.wireTwo];
    if a > b {
      assert r == s[c.wireOne := b][c.wireTwo := a];
      assert r[c.wireOne] == b && r[c.wireTwo] == a;
      ExchangeMultiset(s, c.wireOne, c.wireTwo);
    } else {
      assert r == s;
    }
  }

  /** Exchanging two entries of a list keeps its multiset. */
  lemma ExchangeMultiset(s: seq<int>, i: int, j: int)
    requires 0 <= i < |s| && 0 <= j < |s|
    ensures multiset(s[i := s[j]][j := s[i]]) == multiset(s)
  {
    var t := s[i := s[j]];
    assert multiset(t) == multiset(s) - multiset{s[i]} + multiset{s[j]};
    assert multiset(t[j := s[i]]) == multiset(t) - multiset{t[j]} + multiset{s[i]};
  }

  /** A network only permutes its input, and keeps 0/1 lists 0/1. */
  lemma {:induction false} ApplyPermutes(cs: seq<Comparator>, s: seq<int>)
    requires Fits(cs, |s|)
    ensures multiset(Apply(cs, s)) == multiset(s)
    ensures IsBinary(s) ==> IsBinary(Apply(cs, s))
  {
    if cs != [] {
      var prefix := cs[..|cs| - 1];
      var c := cs[|cs| - 1];
      assert Fits(prefix, |s|);
      ApplyPermutes(prefix, s);
      var t := Apply(prefix, s);
      SwapEffect(t, c);
      if IsBinary(s) {
        forall i | 0 <= i < |s|
          ensures Swap(t, c)[i] in multiset(t)
        {
          assert Swap(t, c)[i] in multiset(Swap(t, c));
        }
        assert forall i :: 0 <= i < |t| ==> t[i] == 0 || t[i] == 1;
        forall i | 0 <= i < |s|
          ensures Swap(t, c)[i] == 0 || Swap(t, c)[i] == 1
        {
          var k :| 0 <= k < |t| && t[k] == Swap(t, c)[i];
        }
      }
    }
  }

  /** The numeric values of the digits of a 0/1 sequence are the sequence itself. */
  lemma {:induction false} NumeralsOfDigits(t: seq<int>)
    requires IsBinary(t)
    ensures Numerals(Digits(t)) == t
  {
    if t != [] {
      var n := |t|;
      NumeralsOfDigits(t[..n - 1]);
      assert Digits(t) == Digits(t[..n - 1]) + [Digit(t[n - 1])];
      assert t == t[..n - 1] + [t[n - 1]];
    }
  }

  /** For i below 2^w (w >= 1), the list built for i is the w-bit form of i, most significant bit first. */
  lemma SpelledIsToBits(i: nat, w: nat)
    requires 1 <= w && i < Pow2(w)
    ensures Spelled(i, w) == ToBits(i, w)
  {
    PaddedBinaryString(i, w);
    ToBitsIsBinary(i, w);
    PaddedDigits(BinaryString(i), ToBits(i, w), w);
  }

  /** Digits padded with '0' characters read back, entry by entry, as zeros before the digits' values. */
  lemma PaddedDigits(b: seq<char>, t: seq<int>, w: nat)
    requires |b| <= w && IsBinary(t)
    requires seq(w - |b|, _ => '0') + b == Digits(t)
    ensures Padded(Numerals(b), w) == t
  {
    var pad := seq(w - |b|, _ => '0');
    NumeralsOfDigits(t);
    NumeralsConcat(pad, b);
    NumeralsOfZeroChars(w - |b|);
    if |b| == w {
      assert Zeros(0) + Numerals(b) == Numerals(b);
    }
  }

  lemma NumeralsConcat(a: seq<char>, b: seq<char>)
    ensures Numerals(a + b) == Numerals(a) + Numerals(b)
  {
  }

  lemma NumeralsOfZeroChars(k: nat)
    ensures Numerals(seq(k, _ => '0')) == Zeros(k)
  {
  }


  /**
   * The lists built for 0, ..., m - 1 are m different lists: exactly the
   * 0/1 lists of length w whose value is below m.
   */
  lemma {:induction false} SpelledBelowMembers(w: nat, m: nat)
    requires 1 <= w && m <= Pow2(w)
    ensures |SpelledBelow(w, m)| == m
    ensures forall s :: s in SpelledBelow(w, m) <==> |s| == w && IsBinary(s) && Value(s) < m
  {
    if m == 0 {
      forall s | |s| == w && IsBinary(s)
        ensures Value(s) >= 0
      {
        ToBitsOfValue(s);
      }
    } else {
      SpelledBelowMembers(w, m - 1);
      SpelledBelowNext(w, m);
    }
  }

  lemma SpelledBelowNext(w: nat, m: nat)
    requires 1 <= w && 1 <= m <= Pow2(w)
    requires |SpelledBelow(w, m - 1)| == m - 1
    requires forall s :: s in SpelledBelow(w, m - 1) <==> |s| == w && IsBinary(s) && Value(s) < m - 1
    ensures |SpelledBelow(w, m)| == m
    ensures forall s :: s in SpelledBelow(w, m) <==> |s| == w && IsBinary(s) && Value(s) < m
  {
    SpelledValue(m - 1, w);
    assert SpelledBelow(w, m) == SpelledBelow(w, m - 1) + {Spelled(m - 1, w)};
    AddNextValue(SpelledBelow(w, m - 1), Spelled(m - 1, w), w, m);
  }

  /** The w-bit lists of value below m - 1, plus the one of value m - 1, are those below m. */
  lemma AddNextValue(prev: set<seq<int>>, t: seq<int>, w: nat, m: nat)
    requires 1 <= m && |prev| == m - 1
    requires forall s :: s in prev <==> |s| == w && IsBinary(s) && Value(s) < m - 1
    requires |t| == w && IsBinary(t) && Value(t) == m - 1
    requires forall s :: |s| == w && IsBinary(s) && Value(s) == m - 1 ==> s == t
    ensures |prev + {t}| == m
    ensures forall s :: s in prev + {t} <==> |s| == w && IsBinary(s) && Value(s) < m
  {
    assert t !in prev;
  }

  lemma SpelledValue(i: nat, w: nat)
    requires 1 <= w && i < Pow2(w)
    ensures |Spelled(i, w)| == w && IsBinary(Spelled(i, w)) && Value(Spelled(i, w)) == i
    ensures forall s :: |s| == w && IsBinary(s) && Value(s) == i ==> s == Spelled(i, w)
  {
    SpelledIsToBits(i, w);
    ToBitsIsBinary(i, w);
    ValueOfToBits(i, w);
    forall s | |s| == w && IsBinary(s) && Value(s) == i
      ensures s == Spelled(i, w)
    {
      ToBitsOfValue(s);
    }
  }

  /**
   * getAllBinarySequences(w) for w >= 1 yields 2^w different lists, and they
   * are exactly the 0/1 lists of length w; each is the w-bit form of its value.
   */
  lemma AllBinarySequences(w: nat)
    requires 1 <= w
    ensures |SpelledBelow(w, Pow2(w))| == Pow2(w)
    ensures forall s :: s in SpelledBelow(w, Pow2(w)) <==> |s| == w && IsBinary(s)
    ensures forall s :: s in SpelledBelow(w, Pow2(w)) ==> 0 <= Value(s) && ToBits(Value(s), w) == s
  {
    SpelledBelowMembers(w, Pow2(w));
    var all := SpelledBelow(w, Pow2(w));
    forall s
      ensures s in all <==> |s| == w && IsBinary(s)
      ensures s in all ==> 0 <= Value(s) && ToBits(Value(s), w) == s
    {
      if |s| == w && IsBinary(s) {
        ToBitsOfValue(s);
      }
    }
  }

  /** With no wires the single list built is [0]: Integer.toBinaryString(0) is "0" and no padding removes it. */
  lemma NoWires()
    ensures SpelledBelow(0, Pow2(0)) == {[0]}
  {
    assert BinaryString(0) == ['0'];
    assert Numerals(['0']) == [0];
    assert SpelledBelow(0, 1) == {} + {Spelled(0, 0)};
  }

  /** At most one unsorted output per input. */
  lemma {:induction false} UnsortedOfBound(cs: seq<Comparator>, inputs: set<seq<int>>)
    ensures |UnsortedOf(cs, inputs)| <= |inputs|
    decreases |inputs|
  {
    if inputs != {} {
      var s :| s in inputs;
      var rest := inputs - {s};
      UnsortedOfBound(cs, rest);
      assert inputs == rest + {s};
      assert UnsortedOf(cs, inputs) <= UnsortedOf(cs, rest) + (if Fits(cs, |s|) then {Apply(cs, s)} else {});
      SubsetCard(UnsortedOf(cs, inputs), UnsortedOf(cs, rest), if Fits(cs, |s|) then {Apply(cs, s)} else {});
    }
  }

  lemma SubsetCard(a: set<seq<int>>, b: set<seq<int>>, c: set<seq<int>>)
    requires a <= b + c && |c| <= 1
    ensures |a| <= |b| + 1
  {
    assert |b + c| <= |b| + |c|;
    SubsetSize(a, b + c);
  }

  lemma SubsetSize(a: set<seq<int>>, b: set<seq<int>>)
    requires a <= b
    ensures |a| <= |b|
  {
    assert b == a + (b - a);
  }

  /** For the empty network the fitness set is exactly the unsorted inputs. */
  lemma EmptyNetworkOutputs(inputs: set<seq<int>>)
    ensures UnsortedOf([], inputs) == set s | s in inputs && !Sorted(s)
  {
  }

  /**
   * A network on w >= 1 wires leaves no unsorted output over every
   * getAllBinarySequences(w) list exactly when it sorts every 0/1 list of length w.
   */
  lemma SortsAllIffNoUnsorted(cs: seq<Comparator>, w: nat)
    requires 1 <= w && Fits(cs, w)
    ensures UnsortedOf(cs, SpelledBelow(w, Pow2(w))) == {} <==>
      forall s :: |s| == w && IsBinary(s) ==> Sorted(Apply(cs, s))
  {
    AllBinarySequences(w);
    if UnsortedOf(cs, SpelledBelow(w, Pow2(w))) == {} {
      forall s | |s| == w && IsBinary(s)
        ensures Sorted(Apply(cs, s))
      {
        assert s in SpelledBelow(w, Pow2(w));
        assert Apply(cs, s) !in UnsortedOf(cs, SpelledBelow(w, Pow2(w)));
      }
    }
  }
}
