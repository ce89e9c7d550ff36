/** `itertools.combinations` by increasing size: the reference enumeration of
    every intervention subset (src/witnessgap/oracle.py:82-83 and
    src/witnessgap/workspace100/views.py:1478-1481). */
module Subsets {
  import opened Model
  import opened Order

  function Prefixed(head: string, rows: seq<Witness>): (r: seq<Witness>)
    ensures |r| == |rows| && forall i :: 0 <= i < |rows| ==> r[i] == [head] + rows[i]
  {
    seq(|rows|, i requires 0 <= i < |rows| => [head] + rows[i])
  }

  /** `tuple(combinations(names, size))`. */
  function Combinations(names: seq<string>, size: nat): seq<Witness>
    decreases |names|
  {
    if size == 0 then [[]]
    else if names == [] then []
    else Prefixed(names[0], Combinations(names[1..], size - 1)) + Combinations(names[1..], size)
  }

  function SubsetsUpTo(names: seq<string>, sizes: nat): seq<Witness> {
    if sizes == 0 then [] else SubsetsUpTo(names, sizes - 1) + Combinations(names, sizes - 1)
  }

  /** Every subset, smaller sizes first. */
  function AllSubsets(names: seq<string>): seq<Witness> {
    SubsetsUpTo(names, |names| + 1)
  }

  /** Subset tuples are compared by size, then as tuples of names. */
  predicate SizeThenNames(a: Witness, b: Witness) {
    |a| < |b| || (|a| == |b| && TupleLe(a, b))
  }

  ghost predicate IsSubsetTuple(names: seq<string>, w: Witness) {
    StrictlySorted(StringLe, w) && Elements(w) <= Elements(names)
  }

  lemma SizeThenNamesIsOrder()
    ensures TotalOrder(SizeThenNames)
  {
    TuplesAreOrdered();
  }

  lemma SortedTail(names: seq<string>)
    requires names != [] && StrictlySorted(StringLe, names)
    ensures StrictlySorted(StringLe, names[1..])
    ensures Elements(names) == {names[0]} + Elements(names[1..]) && names[0] !in names[1..]
    ensures forall x :: x in names[1..] ==> StringLe(names[0], x) && x != names[0]
  {
    assert names == [names[0]] + names[1..];
  }

  lemma ConsSorted(head: string, w: Witness)
    requires StrictlySorted(StringLe, w)
    requires forall x :: x in w ==> StringLe(head, x) && x != head
    ensures StrictlySorted(StringLe, [head] + w)
  {
  }

  lemma TupleWithHead(names: seq<string>, w: Witness)
    requires names != [] && StrictlySorted(StringLe, names)
    requires w != [] && w[0] == names[0]
    ensures IsSubsetTuple(names, w) <==> IsSubsetTuple(names[1..], w[1..])
  {
    SortedTail(names);
    assert w == [w[0]] + w[1..];
    if IsSubsetTuple(names, w) {
      assert StrictlySorted(StringLe, w[1..]) && w[0] !in w[1..];
      assert forall x :: x in w[1..] ==> x in Elements(w);
    } else if IsSubsetTuple(names[1..], w[1..]) {
      assert forall x :: x in w[1..] ==> x in Elements(w[1..]);
      ConsSorted(names[0], w[1..]);
    }
  }

  lemma TupleWithoutHead(names: seq<string>, w: Witness)
    requires names != [] && StrictlySorted(StringLe, names)
    requires w != [] ==> w[0] != names[0]
    ensures IsSubsetTuple(names, w) <==> IsSubsetTuple(names[1..], w)
  {
    SortedTail(names);
    if IsSubsetTuple(names, w) {
      StringsAreOrdered();
      forall x | x in w ensures x in Elements(names[1..]) {
        assert x in Elements(w) && w[0] in Elements(w) && StringLe(w[0], x);
      }
    }
  }

  lemma PrefixedMembers(head: string, rows: seq<Witness>, w: Witness)
    ensures w in Prefixed(head, rows) <==> w != [] && w[0] == head && w[1..] in rows
  {
    if w != [] && w[0] == head && w[1..] in rows {
      var i :| 0 <= i < |rows| && rows[i] == w[1..];
      assert Prefixed(head, rows)[i] == [head] + w[1..] == w;
    }
  }

  /** The tuples that use the first name come first, the others after them. */
  lemma CombinationsSplit(names: seq<string>, size: nat, w: Witness)
    requires names != [] && size > 0
    ensures w in Combinations(names, size) <==>
      w in Prefixed(names[0], Combinations(names[1..], size - 1)) || w in Combinations(names[1..], size)
  {
  }

  /** Whether `w` is listed exactly if it should be. */
  ghost function ListedRightly(names: seq<string>, size: nat): Witness -> bool {
    (w: Witness) => w in Combinations(names, size) <==> |w| == size && IsSubsetTuple(names, w)
  }

  /** A tuple that starts with the first name is listed with it. */
  lemma ListedWithHead(names: seq<string>, size: nat, w: Witness)
    requires names != [] && size > 0 && StrictlySorted(StringLe, names) && w != [] && w[0] == names[0]
    requires ListedRightly(names[1..], size - 1)(w[1..]) && ListedRightly(names[1..], size)(w)
    ensures ListedRightly(names, size)(w)
  {
    CombinationsSplit(names, size, w);
    PrefixedMembers(names[0], Combinations(names[1..], size - 1), w);
    TupleWithHead(names, w);
    SortedTail(names);
    assert w[0] in Elements(w) && w[0] !in Elements(names[1..]);
  }

  /** Any other tuple is listed among those of the remaining names. */
  lemma ListedWithoutHead(names: seq<string>, size: nat, w: Witness)
    requires names != [] && size > 0 && StrictlySorted(StringLe, names) && (w != [] ==> w[0] != names[0])
    requires ListedRightly(names[1..], size)(w)
    ensures ListedRightly(names, size)(w)
  {
    CombinationsSplit(names, size, w);
    PrefixedMembers(names[0], Combinations(names[1..], size - 1), w);
    TupleWithoutHead(names, w);
  }

  /** A property of names, size and tuple holds if it does without the first name. */
  ghost predicate CarriedAt(p: (seq<string>, nat, Witness) -> bool, names: seq<string>, size: nat, w: Witness) {
    if size == 0 || names == [] then p(names, size, w)
    else p(names[1..], size, w) && (w != [] ==> p(names[1..], size - 1, w[1..])) ==> p(names, size, w)
  }

  ghost predicate CarriedByFirst(p: (seq<string>, nat, Witness) -> bool) {
    forall names, size: nat, w :: CarriedAt(p, names, size, w)
  }

  lemma {:induction false} HoldsByFirst(
      p: (seq<string>, nat, Witness) -> bool, names: seq<string>, size: nat, w: Witness)
    requires CarriedByFirst(p)
    ensures p(names, size, w)
    decreases |names|
  {
    assert CarriedAt(p, names, size, w);
    if size > 0 && names != [] {
      HoldsByFirst(p, names[1..], size, w);
      if w != [] {
        HoldsByFirst(p, names[1..], size - 1, w[1..]);
      }
    }
  }

  ghost function ListedIfSorted(): (seq<string>, nat, Witness) -> bool {
    (names: seq<string>, size: nat, w: Witness) =>
      StrictlySorted(StringLe, names) ==> ListedRightly(names, size)(w)
  }

  lemma ListedStep(names: seq<string>, size: nat, w: Witness)
    requires names != [] && size > 0 && StrictlySorted(StringLe, names)
    requires ListedIfSorted()(names[1..], size, w)
    requires w != [] ==> ListedIfSorted()(names[1..], size - 1, w[1..])
    ensures ListedRightly(names, size)(w)
  {
    SortedTail(names);
    if w != [] && w[0] == names[0] {
      ListedWithHead(names, size, w);
    } else {
      ListedWithoutHead(names, size, w);
    }
  }

  lemma ListingIsCarried()
    ensures CarriedByFirst(ListedIfSorted())
  {
    var p := ListedIfSorted();
    forall names, size: nat, w ensures CarriedAt(p, names, size, w) {
      if size == 0 || names == [] {
        NoNamesLeft(names, size, w);
      } else if StrictlySorted(StringLe, names) && p(names[1..], size, w)
        && (w != [] ==> p(names[1..], size - 1, w[1..])) {
        ListedStep(names, size, w);
      }
    }
  }

  /** `combinations` lists exactly the sorted tuples of the given size. */
  lemma CombinationsExact(names: seq<string>, size: nat, w: Witness)
    requires StrictlySorted(StringLe, names)
    ensures w in Combinations(names, size) <==> |w| == size && IsSubsetTuple(names, w)
  {
    ListingIsCarried();
    HoldsByFirst(ListedIfSorted(), names, size, w);
    assert ListedRightly(names, size)(w);
  }

  lemma NoNamesLeft(names: seq<string>, size: nat, w: Witness)
    requires size == 0 || names == []
    ensures ListedRightly(names, size)(w)
  {
    if w == [] {
      assert |w| == 0;
    } else if names == [] {
      assert w[0] in Elements(w) && w[0] !in Elements(names);
    }
  }

  lemma {:induction false} CombinationsSorted(names: seq<string>, size: nat)
    requires StrictlySorted(StringLe, names)
    ensures StrictlySorted(TupleLe, Combinations(names, size))
    decreases |names|
  {
    if size > 0 && names != [] {
      SortedTail(names);
      var short := Combinations(names[1..], size - 1);
      var rest := Combinations(names[1..], size);
      CombinationsSorted(names[1..], size - 1);
      CombinationsSorted(names[1..], size);
      PrefixedSorted(names[0], short);
      forall x, y | x in Prefixed(names[0], short) && y in rest ensures TupleLe(x, y) && x != y {
        CombinationsExact(names[1..], size, y);
        assert y[0] in Elements(y);
      }
      ConcatenationSorted(TupleLe, Prefixed(names[0], short), rest);
    }
  }

  lemma PrefixedSorted(head: string, rows: seq<Witness>)
    requires StrictlySorted(TupleLe, rows)
    ensures StrictlySorted(TupleLe, Prefixed(head, rows))
  {
    var p := Prefixed(head, rows);
    forall i, j | 0 <= i < j < |p| ensures TupleLe(p[i], p[j]) && p[i] != p[j] {
      assert p[i][1..] == rows[i] && p[j][1..] == rows[j];
    }
  }

  lemma {:induction false} SubsetsUpToExact(names: seq<string>, sizes: nat, w: Witness)
    requires StrictlySorted(StringLe, names)
    ensures w in SubsetsUpTo(names, sizes) <==> |w| < sizes && IsSubsetTuple(names, w)
  {
    if sizes > 0 {
      SubsetsUpToExact(names, sizes - 1, w);
      CombinationsExact(names, sizes - 1, w);
    }
  }

  lemma {:induction false} SubsetsUpToSorted(names: seq<string>, sizes: nat)
    requires StrictlySorted(StringLe, names)
    ensures StrictlySorted(SizeThenNames, SubsetsUpTo(names, sizes))
  {
    if sizes > 0 {
      SubsetsUpToSorted(names, sizes - 1);
      RowSorted(names, sizes - 1);
      SizesAscend(names, sizes - 1);
      ConcatenationSorted(SizeThenNames, SubsetsUpTo(names, sizes - 1), Combinations(names, sizes - 1));
    }
  }

  lemma SizesAscend(names: seq<string>, size: nat)
    requires StrictlySorted(StringLe, names)
    ensures forall x, y :: x in SubsetsUpTo(names, size) && y in Combinations(names, size) ==>
      SizeThenNames(x, y) && x != y
  {
    forall x, y | x in SubsetsUpTo(names, size) && y in Combinations(names, size) ensures |x| < |y| {
      SubsetsUpToExact(names, size, x);
      CombinationsExact(names, size, y);
    }
  }

  lemma RowSorted(names: seq<string>, size: nat)
    requires StrictlySorted(StringLe, names)
    ensures StrictlySorted(SizeThenNames, Combinations(names, size))
  {
    CombinationsSorted(names, size);
    var row := Combinations(names, size);
    forall i | 0 <= i < |row| ensures |row[i]| == size {
      CombinationsExact(names, size, row[i]);
    }
  }

  lemma SubsetTupleLength(names: seq<string>, w: Witness)
    requires StrictlySorted(StringLe, names) && IsSubsetTuple(names, w)
    ensures |w| <= |names|
  {
    DistinctCardinality(names);
    DistinctCardinality(w);
    CardinalityOfSubset(Elements(w), Elements(names));
  }

  lemma {:induction false} CardinalityOfSubset<T>(a: set<T>, b: set<T>)
    requires a <= b
    ensures |a| <= |b|
  {
    if a != {} {
      var x :| x in a;
      CardinalityOfSubset(a - {x}, b - {x});
    }
  }

  /** The enumeration is complete, free of repetitions and in canonical order. */
  lemma AllSubsetsCanonical(names: seq<string>)
    requires StrictlySorted(StringLe, names)
    ensures StrictlySorted(SizeThenNames, AllSubsets(names))
    ensures forall w :: w in AllSubsets(names) <==> IsSubsetTuple(names, w)
  {
    SubsetsUpToSorted(names, |names| + 1);
    forall w ensures w in AllSubsets(names) <==> IsSubsetTuple(names, w) {
      SubsetsUpToExact(names, |names| + 1, w);
      if IsSubsetTuple(names, w) {
        SubsetTupleLength(names, w);
      }
    }
  }

  lemma {:induction false} SubsetsUpToLeads(names: seq<string>, sizes: nat)
    requires sizes > 0
    ensures SubsetsUpTo(names, sizes) != [] && SubsetsUpTo(names, sizes)[0] == []
  {
    if sizes == 1 {
      assert SubsetsUpTo(names, 1) == SubsetsUpTo(names, 0) + [[]];
    } else {
      SubsetsUpToLeads(names, sizes - 1);
    }
  }

  /** `receipts[0]` is the unmodified episode. */
  lemma AllSubsetsLeads(names: seq<string>)
    ensures AllSubsets(names) != [] && AllSubsets(names)[0] == []
  {
    SubsetsUpToLeads(names, |names| + 1);
  }

  /** Each set of atom names is listed once, as its sorted tuple. */
  lemma SubsetsAreTuples(names: seq<string>, chosen: set<string>)
    requires StrictlySorted(StringLe, names) && chosen <= Elements(names)
    ensures TotalOrder(StringLe)
    ensures SortedSet(StringLe, chosen) in AllSubsets(names)
    ensures Elements(SortedSet(StringLe, chosen)) == chosen
  {
    StringsAreOrdered();
    AllSubsetsCanonical(names);
  }
}
