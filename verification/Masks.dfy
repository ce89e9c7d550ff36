/** Subsets as integer bitmasks (src/witnessgap/verifier.py:496-503, 541-546,
    860-861). `&`, `bit_count` and the bit test are written on naturals. */
module Masks {
  import opened Model
  import opened Order
  import opened Subsets

  function Pow2(n: nat): nat {
    if n == 0 then 1 else 2 * Pow2(n - 1)
  }

  function BitCount(mask: nat): nat {
    if mask == 0 then 0 else mask % 2 + BitCount(mask / 2)
  }

  function BitAnd(a: nat, b: nat): nat {
    if a == 0 || b == 0 then 0
    else (if a % 2 == 1 && b % 2 == 1 then 1 else 0) + 2 * BitAnd(a / 2, b / 2)
  }

  /** The names whose bit is set; bit 0 belongs to the first name. */
  function WitnessForMask(mask: nat, names: seq<string>): Witness {
    if names == [] then []
    else (if mask % 2 == 1 then [names[0]] else []) + WitnessForMask(mask / 2, names[1..])
  }

  /** `key=lambda mask: (mask.bit_count(), _witness_for_mask(mask, names))` */
  function MaskOrder(names: seq<string>): (nat, nat) -> bool {
    (a: nat, b: nat) =>
      BitCount(a) < BitCount(b)
      || (BitCount(a) == BitCount(b) && TupleLe(WitnessForMask(a, names), WitnessForMask(b, names)))
  }

  function Range(n: nat): (r: seq<nat>)
    ensures |r| == n && forall i :: 0 <= i < n ==> r[i] == i
  {
    seq(n, i requires 0 <= i => i)
  }

  function SortedMasks(names: seq<string>): seq<nat> {
    Sort(MaskOrder(names), Range(Pow2(|names|)))
  }

  function Decoder(names: seq<string>): nat -> Witness {
    (mask: nat) => WitnessForMask(mask, names)
  }

  lemma {:induction false} MaskIsTuple(mask: nat, names: seq<string>)
    requires StrictlySorted(StringLe, names)
    ensures IsSubsetTuple(names, WitnessForMask(mask, names))
  {
    if names != [] {
      SortedTail(names);
      MaskIsTuple(mask / 2, names[1..]);
      TupleGrows(names, WitnessForMask(mask / 2, names[1..]));
    }
  }

  /** A tuple over the later names, with or without the first one. */
  lemma TupleGrows(names: seq<string>, rest: Witness)
    requires names != [] && StrictlySorted(StringLe, names) && IsSubsetTuple(names[1..], rest)
    ensures IsSubsetTuple(names, rest) && IsSubsetTuple(names, [names[0]] + rest) && [] + rest == rest
  {
    SortedTail(names);
    forall x | x in rest ensures StringLe(names[0], x) && x != names[0] {
      assert x in Elements(rest) && x in Elements(names[1..]);
    }
    ConsSorted(names[0], rest);
  }

  lemma {:induction false} MaskSize(mask: nat, names: seq<string>)
    requires mask < Pow2(|names|)
    ensures |WitnessForMask(mask, names)| == BitCount(mask)
  {
    if names != [] {
      MaskSize(mask / 2, names[1..]);
    }
  }

  lemma MaskHead(mask: nat, names: seq<string>)
    requires names != [] && StrictlySorted(StringLe, names)
    ensures mask % 2 == 1 <==> names[0] in WitnessForMask(mask, names)
    ensures Elements(WitnessForMask(mask / 2, names[1..])) == Elements(WitnessForMask(mask, names)) - {names[0]}
  {
    SortedTail(names);
    MaskIsTuple(mask / 2, names[1..]);
    var rest := WitnessForMask(mask / 2, names[1..]);
    assert forall x :: x in rest ==> x in Elements(rest) && x in Elements(names[1..]);
  }

  /** `other & mask == other` is set inclusion of the decoded witnesses. */
  lemma {:induction false} AndIsInclusion(other: nat, mask: nat, names: seq<string>)
    requires StrictlySorted(StringLe, names)
    requires other < Pow2(|names|) && mask < Pow2(|names|)
    ensures BitAnd(other, mask) == other
            <==> Elements(WitnessForMask(other, names)) <= Elements(WitnessForMask(mask, names))
  {
    if names != [] {
      AndIsInclusion(other / 2, mask / 2, names[1..]);
      MaskHead(other, names);
      MaskHead(mask, names);
      AndBound(other / 2, mask / 2);
      var a, b := Elements(WitnessForMask(other, names)), Elements(WitnessForMask(mask, names));
      var h := names[0];
      assert a <= b <==> a - {h} <= b - {h} && (h in a ==> h in b) by {
        if a - {h} <= b - {h} && (h in a ==> h in b) {
          forall x | x in a ensures x in b {
            assert x != h ==> x in a - {h};
          }
        }
      }
      if other != 0 && mask != 0 {
        assert BitAnd(other, mask) == other <==>
          BitAnd(other / 2, mask / 2) == other / 2 && (other % 2 == 1 ==> mask % 2 == 1);
      } else if mask == 0 && other != 0 {
        assert BitAnd(other / 2, 0) == 0;
      }
    }
  }

  lemma {:induction false} AndBound(a: nat, b: nat)
    ensures BitAnd(a, b) <= a
  {
    if a != 0 && b != 0 {
      AndBound(a / 2, b / 2);
    }
  }

  /** Distinct masks name distinct sets. */
  lemma {:induction false} MaskInjective(a: nat, b: nat, names: seq<string>)
    requires StrictlySorted(StringLe, names)
    requires a < Pow2(|names|) && b < Pow2(|names|)
    requires Elements(WitnessForMask(a, names)) == Elements(WitnessForMask(b, names))
    ensures a == b
  {
    if names != [] {
      MaskHead(a, names);
      MaskHead(b, names);
      assert names[0] in Elements(WitnessForMask(a, names)) <==> names[0] in Elements(WitnessForMask(b, names));
      MaskInjective(a / 2, b / 2, names[1..]);
    }
  }

  lemma FirstIsElement(w: Witness)
    ensures w != [] ==> w[0] in Elements(w)
  {
  }

  lemma OnlyTheEmptyTuple(w: Witness)
    requires IsSubsetTuple([], w)
    ensures w == []
  {
    var none: seq<string> := [];
    assert Elements(none) == {};
    FirstIsElement(w);
  }

  lemma MaskWithHead(mask: nat, names: seq<string>, w: Witness)
    requires names != [] && w != [] && w[0] == names[0]
    requires mask % 2 == 1 && mask / 2 < Pow2(|names| - 1) && WitnessForMask(mask / 2, names[1..]) == w[1..]
    ensures mask < Pow2(|names|) && WitnessForMask(mask, names) == w
  {
    assert WitnessForMask(mask, names) == [names[0]] + WitnessForMask(mask / 2, names[1..]);
    assert w == [w[0]] + w[1..];
  }

  lemma MaskWithoutHead(mask: nat, names: seq<string>, w: Witness)
    requires names != [] && mask % 2 == 0
    requires mask / 2 < Pow2(|names| - 1) && WitnessForMask(mask / 2, names[1..]) == w
    ensures mask < Pow2(|names|) && WitnessForMask(mask, names) == w
  {
    var none: Witness := [];
    assert WitnessForMask(mask, names) == none + w;
    assert none + w == w;
  }

  lemma {:induction false} MaskOnto(w: Witness, names: seq<string>) returns (mask: nat)
    requires StrictlySorted(StringLe, names) && IsSubsetTuple(names, w)
    ensures mask < Pow2(|names|) && WitnessForMask(mask, names) == w
  {
    if names == [] {
      OnlyTheEmptyTuple(w);
      mask := 0;
    } else {
      SortedTail(names);
      if w != [] && w[0] == names[0] {
        TupleWithHead(names, w);
        var rest := MaskOnto(w[1..], names[1..]);
        mask := 1 + 2 * rest;
        assert mask / 2 == rest && mask % 2 == 1;
        MaskWithHead(mask, names, w);
      } else {
        TupleWithoutHead(names, w);
        var rest := MaskOnto(w, names[1..]);
        mask := 2 * rest;
        assert mask / 2 == rest && mask % 2 == 0;
        MaskWithoutHead(mask, names, w);
      }
    }
  }

  lemma MaskOrderIsPreOrder(names: seq<string>)
    ensures PreOrder(MaskOrder(names))
  {
    TuplesAreOrdered();
  }

  lemma SortedMasksAreMasks(names: seq<string>)
    ensures Distinct(SortedMasks(names))
    ensures forall m: nat :: m in SortedMasks(names) <==> m < Pow2(|names|)
  {
    var range := Range(Pow2(|names|));
    SameMultiset(range, SortedMasks(names));
    DistinctPermutation(range, SortedMasks(names));
    forall m: nat ensures m in SortedMasks(names) <==> m < Pow2(|names|) {
      assert m < Pow2(|names|) ==> range[m] == m;
      assert m in Elements(SortedMasks(names)) <==> m in Elements(range);
    }
  }

  lemma DecodedIsSorted(names: seq<string>)
    requires StrictlySorted(StringLe, names)
    ensures StrictlySorted(SizeThenNames, Apply(SortedMasks(names), Decoder(names)))
  {
    var masks := SortedMasks(names);
    SortedMasksAreMasks(names);
    MaskOrderIsPreOrder(names);
    SortSorts(MaskOrder(names), Range(Pow2(|names|)));
    forall i, j | 0 <= i < j < |masks|
      ensures SizeThenNames(WitnessForMask(masks[i], names), WitnessForMask(masks[j], names))
      ensures WitnessForMask(masks[i], names) != WitnessForMask(masks[j], names)
    {
      assert masks[i] in masks && masks[j] in masks;
      assert MaskOrder(names)(masks[i], masks[j]);
      MaskSize(masks[i], names);
      MaskSize(masks[j], names);
      if WitnessForMask(masks[i], names) == WitnessForMask(masks[j], names) {
        MaskInjective(masks[i], masks[j], names);
      }
    }
  }

  lemma DecodedIsComplete(names: seq<string>, w: Witness)
    requires StrictlySorted(StringLe, names)
    ensures w in Apply(SortedMasks(names), Decoder(names)) <==> IsSubsetTuple(names, w)
  {
    var masks := SortedMasks(names);
    var decoded := Apply(masks, Decoder(names));
    SortedMasksAreMasks(names);
    if w in decoded {
      var i :| 0 <= i < |decoded| && decoded[i] == w;
      MaskIsTuple(masks[i], names);
    }
    if IsSubsetTuple(names, w) {
      var mask := MaskOnto(w, names);
      assert mask in masks;
      var i :| 0 <= i < |masks| && masks[i] == mask;
      assert decoded[i] == w;
    }
  }

  /** Masks in (popcount, witness) order decode to the reference enumeration. */
  lemma SortedMasksDecode(names: seq<string>)
    requires StrictlySorted(StringLe, names)
    ensures Apply(SortedMasks(names), Decoder(names)) == AllSubsets(names)
  {
    var decoded := Apply(SortedMasks(names), Decoder(names));
    DecodedIsSorted(names);
    AllSubsetsCanonical(names);
    SizeThenNamesIsOrder();
    forall w ensures w in Elements(decoded) <==> w in Elements(AllSubsets(names)) {
      DecodedIsComplete(names, w);
    }
    StrictlySortedUnique(SizeThenNames, decoded, AllSubsets(names));
  }
}
