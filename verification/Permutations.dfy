/** Filtering and mapping respect permutation. */
module Permutations {
  import opened Model
  import opened Order

  lemma {:induction false} FilterMultiset<T(!new)>(s: seq<T>, p: T -> bool, x: T)
    ensures multiset(Filter(s, p))[x] == if p(x) then multiset(s)[x] else 0
  {
    if s != [] {
      assert s == [s[0]] + s[1..];
      assert multiset(s) == multiset{s[0]} + multiset(s[1..]);
      FilterMultiset(s[1..], p, x);
    }
  }

  lemma FilterPermutation<T(!new)>(a: seq<T>, b: seq<T>, p: T -> bool)
    requires multiset(a) == multiset(b)
    ensures multiset(Filter(a, p)) == multiset(Filter(b, p))
    ensures |Filter(a, p)| == |Filter(b, p)|
  {
    forall x ensures multiset(Filter(a, p))[x] == multiset(Filter(b, p))[x] {
      FilterMultiset(a, p, x);
      FilterMultiset(b, p, x);
    }
    assert multiset(Filter(a, p)) == multiset(Filter(b, p));
    SameMultiset(Filter(a, p), Filter(b, p));
  }

  lemma CancelOne<T>(m: multiset<T>, m': multiset<T>, x: T)
    requires m + multiset{x} == m' + multiset{x}
    ensures m == m'
  {
    forall y ensures m[y] == m'[y] {
      assert (m + multiset{x})[y] == (m' + multiset{x})[y];
    }
  }

  lemma RemoveSame<T>(a: seq<T>, b: seq<T>, i: nat)
    requires a != [] && multiset(a) == multiset(b) && i < |b| && b[i] == a[|a| - 1]
    ensures multiset(a[..|a| - 1]) == multiset(b[..i] + b[i + 1..])
  {
    assert a == a[..|a| - 1] + [a[|a| - 1]];
    assert b == b[..i] + [b[i]] + b[i + 1..];
    CancelOne(multiset(a[..|a| - 1]), multiset(b[..i] + b[i + 1..]), b[i]);
  }

  lemma {:induction false} ApplyPermutation<S, T>(a: seq<S>, b: seq<S>, f: S -> T)
    requires multiset(a) == multiset(b)
    ensures multiset(Apply(a, f)) == multiset(Apply(b, f))
    decreases |a|
  {
    if a == [] {
      assert |b| == |multiset(a)|;
    } else {
      var i := IndexOfSame(a, b, |a| - 1);
      RemoveSame(a, b, i);
      ApplyPermutation(a[..|a| - 1], b[..i] + b[i + 1..], f);
      AppliedWithout(a, |a| - 1, f);
      AppliedWithout(b, i, f);
      assert a[..|a| - 1] + a[|a|..] == a[..|a| - 1];
    }
  }

  lemma IndexOfSame<T>(a: seq<T>, b: seq<T>, k: nat) returns (i: nat)
    requires multiset(a) == multiset(b) && k < |a|
    ensures i < |b| && b[i] == a[k]
  {
    assert a[k] in multiset(b);
    i :| 0 <= i < |b| && b[i] == a[k];
  }

  /** What one element contributes to a mapped list. */
  lemma AppliedWithout<S, T>(s: seq<S>, i: nat, f: S -> T)
    requires i < |s|
    ensures multiset(Apply(s, f)) == multiset(Apply(s[..i] + s[i + 1..], f)) + multiset{f(s[i])}
  {
    var before, later := Apply(s[..i], f), Apply(s[i + 1..], f);
    assert Apply(s, f) == before + [f(s[i])] + later;
    assert Apply(s[..i] + s[i + 1..], f) == before + later;
  }

  // ---------- concatenating what each element contributes ----------

  function Flat<S, T>(s: seq<S>, part: S -> seq<T>): seq<T> {
    if s == [] then [] else Flat(s[..|s| - 1], part) + part(s[|s| - 1])
  }

  lemma FlatMore<S, T>(s: seq<S>, x: S, part: S -> seq<T>)
    ensures Flat(s + [x], part) == Flat(s, part) + part(x)
  {
    assert (s + [x])[..|s|] == s;
  }

  lemma {:induction false} FlatMembers<S, T>(s: seq<S>, part: S -> seq<T>, x: T)
    ensures x in Flat(s, part) <==> exists m :: m in s && x in part(m)
  {
    if s != [] {
      var last := s[|s| - 1];
      FlatMembers(s[..|s| - 1], part, x);
      assert s == s[..|s| - 1] + [last];
      if m :| m in s && x in part(m) {
        assert m in s[..|s| - 1] || m == last;
      }
    }
  }

  lemma {:induction false} FlatLength<S, T>(s: seq<S>, part: S -> seq<T>, size: nat)
    requires forall m :: m in s ==> |part(m)| == size
    ensures |Flat(s, part)| == size * |s|
  {
    if s != [] {
      var before, last := s[..|s| - 1], s[|s| - 1];
      FlatLength(before, part, size);
      assert |Flat(s, part)| == |Flat(before, part)| + size;
      assert size * |s| == size * |before| + size;
    }
  }

  lemma {:induction false} FlatConcatenation<S, T>(a: seq<S>, b: seq<S>, part: S -> seq<T>)
    ensures Flat(a + b, part) == Flat(a, part) + Flat(b, part)
  {
    if b == [] {
      assert a + b == a;
    } else {
      var before, last := b[..|b| - 1], b[|b| - 1];
      FlatConcatenation(a, before, part);
      assert a + b == (a + before) + [last] && b == before + [last];
      FlatMore(a + before, last, part);
      FlatMore(before, last, part);
      Reassociate(Flat(a, part), Flat(before, part), part(last));
    }
  }

  lemma Reassociate<T>(a: seq<T>, b: seq<T>, c: seq<T>)
    ensures (a + b) + c == a + (b + c)
  {
  }

  /** Counting in a concatenation: `c` for each element that satisfies `q`. */
  lemma {:induction false} FlatCount<S(!new), T(!new)>(s: seq<S>, part: S -> seq<T>, p: T -> bool, q: S -> bool, c: nat)
    requires forall x :: x in s ==> |Filter(part(x), p)| == if q(x) then c else 0
    ensures |Filter(Flat(s, part), p)| == c * |Filter(s, q)|
  {
    if s != [] {
      var before, last := s[..|s| - 1], s[|s| - 1];
      assert before + [last] == s && last in s;
      FlatCount(before, part, p, q, c);
      FlatCountNext(before, last, part, p, q, c);
    }
  }

  lemma FlatCountNext<S(!new), T(!new)>(
      before: seq<S>, last: S, part: S -> seq<T>, p: T -> bool, q: S -> bool, c: nat)
    requires |Filter(Flat(before, part), p)| == c * |Filter(before, q)|
    requires |Filter(part(last), p)| == if q(last) then c else 0
    ensures |Filter(Flat(before + [last], part), p)| == c * |Filter(before + [last], q)|
  {
    FlatMore(before, last, part);
    FilterAppend(Flat(before, part), part(last), p);
    FilterLast(before, last, q);
    OneMore(c, |Filter(before, q)|);
  }

  lemma FilterLast<T(!new)>(s: seq<T>, x: T, p: T -> bool)
    ensures Filter(s + [x], p) == Filter(s, p) + if p(x) then [x] else []
  {
    FilterAppend(s, [x], p);
    assert Filter([x], p) == if p(x) then [x] else [];
  }

  lemma OneMore(c: nat, n: nat)
    ensures c * (n + 1) == c * n + c
  {
  }

  lemma {:induction false} FlatPermutation<S, T>(a: seq<S>, b: seq<S>, part: S -> seq<T>)
    requires multiset(a) == multiset(b)
    ensures multiset(Flat(a, part)) == multiset(Flat(b, part))
    decreases |a|
  {
    SameMultiset(a, b);
    if a != [] {
      var before, last := a[..|a| - 1], a[|a| - 1];
      assert last in Elements(b);
      var i :| 0 <= i < |b| && b[i] == last;
      RemoveSame(a, b, i);
      FlatPermutation(before, b[..i] + b[i + 1..], part);
      FlatMiddle(b[..i], last, b[i + 1..], part);
      assert b == b[..i] + [last] + b[i + 1..];
    }
  }

  lemma FlatMiddle<S, T>(a: seq<S>, x: S, b: seq<S>, part: S -> seq<T>)
    ensures multiset(Flat(a + [x] + b, part)) == multiset(Flat(a + b, part)) + multiset(part(x))
  {
    FlatConcatenation(a, b, part);
    FlatMore(a, x, part);
    FlatConcatenation(a + [x], b, part);
  }

  /** Flattening twice is flattening once, up to the order within an element. */
  lemma {:induction false} FlatTwice<R, S, T>(
      rs: seq<R>, outer: R -> seq<S>, inner: S -> seq<T>, both: R -> seq<T>)
    requires forall r :: r in rs ==> multiset(Flat(outer(r), inner)) == multiset(both(r))
    ensures multiset(Flat(Flat(rs, outer), inner)) == multiset(Flat(rs, both))
  {
    if rs != [] {
      var before, last := rs[..|rs| - 1], rs[|rs| - 1];
      FlatTwice(before, outer, inner, both);
      FlatConcatenation(Flat(before, outer), outer(last), inner);
    }
  }

  lemma {:induction false} ApplyFlat<R, S, T>(rs: seq<R>, part: R -> seq<S>, f: S -> T, both: R -> seq<T>)
    requires forall r :: r in rs ==> Apply(part(r), f) == both(r)
    ensures Apply(Flat(rs, part), f) == Flat(rs, both)
  {
    if rs != [] {
      var before, last := rs[..|rs| - 1], rs[|rs| - 1];
      ApplyFlat(before, part, f, both);
      assert Apply(Flat(before, part) + part(last), f) == Apply(Flat(before, part), f) + Apply(part(last), f);
    }
  }

  // ---------- sorting by a key that the mapping keeps ----------

  /** On the elements of `s` one order is the other, seen through `f`. */
  ghost predicate SameOrder<S, T>(le: (S, S) -> bool, le': (T, T) -> bool, f: S -> T, s: seq<S>) {
    forall x, y :: x in s && y in s ==> (le(x, y) <==> le'(f(x), f(y)))
  }

  lemma {:induction false} InsertApply<S, T>(le: (S, S) -> bool, le': (T, T) -> bool, f: S -> T, x: S, s: seq<S>)
    requires forall k :: 0 <= k < |s| ==> (le(x, s[k]) <==> le'(f(x), f(s[k])))
    ensures Apply(Insert(le, x, s), f) == Insert(le', f(x), Apply(s, f))
  {
    if s == [] || le(x, s[0]) {
      assert Apply([x] + s, f) == [f(x)] + Apply(s, f);
    } else {
      InsertApply(le, le', f, x, s[1..]);
      ApplyTail(s, f);
      ApplyHead(s[0], Insert(le, x, s[1..]), f);
    }
  }

  lemma ApplyHead<S, T>(x: S, s: seq<S>, f: S -> T)
    ensures Apply([x] + s, f) == [f(x)] + Apply(s, f)
  {
  }

  lemma {:induction false} SortApply<S, T>(le: (S, S) -> bool, le': (T, T) -> bool, f: S -> T, s: seq<S>)
    requires SameOrder(le, le', f, s)
    ensures Apply(Sort(le, s), f) == Sort(le', Apply(s, f))
  {
    if s != [] {
      ApplyTail(s, f);
      SortApply(le, le', f, s[1..]);
      SortedTail(le, s);
      var sorted := Sort(le, s[1..]);
      forall k | 0 <= k < |sorted| ensures le(s[0], sorted[k]) <==> le'(f(s[0]), f(sorted[k])) {
        assert sorted[k] in [s[0]] + sorted;
      }
      InsertApply(le, le', f, s[0], sorted);
    }
  }

  lemma SortedTail<S>(le: (S, S) -> bool, s: seq<S>)
    requires s != []
    ensures forall y :: y in [s[0]] + Sort(le, s[1..]) ==> y in s
  {
    SameMultiset(s[1..], Sort(le, s[1..]));
    forall y | y in Sort(le, s[1..]) ensures y in s {
      assert y in Elements(s[1..]);
    }
  }

  lemma ApplyTail<S, T>(s: seq<S>, f: S -> T)
    requires s != []
    ensures Apply(s, f)[0] == f(s[0]) && Apply(s, f)[1..] == Apply(s[1..], f)
  {
  }

  /** Flattening rearranged parts gives a rearranged list. */
  lemma {:induction false} FlatRearranged<S, T>(s: seq<S>, p: S -> seq<T>, q: S -> seq<T>)
    requires forall x :: x in s ==> multiset(p(x)) == multiset(q(x))
    ensures multiset(Flat(s, p)) == multiset(Flat(s, q))
  {
    if s != [] {
      FlatRearranged(s[..|s| - 1], p, q);
    }
  }

  // ---------- how often an element occurs ----------

  function Is<T(==)>(x: T): T -> bool {
    (y: T) => y == x
  }

  lemma {:induction false} FilterSplits<T(!new)>(s: seq<T>, p: T -> bool, q: T -> bool)
    requires forall x :: x in s ==> (q(x) <==> !p(x))
    ensures |s| == |Filter(s, p)| + |Filter(s, q)|
  {
    if s != [] {
      FilterSplits(s[1..], p, q);
    }
  }

  lemma {:induction false} FilterNarrows<T(!new)>(s: seq<T>, p: T -> bool, q: T -> bool)
    requires forall x :: x in s && q(x) ==> p(x)
    ensures Filter(Filter(s, p), q) == Filter(s, q)
  {
    if s != [] {
      assert s[0] in s;
      FilterNarrows(s[1..], p, q);
    }
  }

  function IsNot<T(==)>(x: T): T -> bool {
    (y: T) => y != x
  }

  /** Removing one of several elements that occur `c` times each. */
  lemma RestMultiplicity<T(!new)>(s: seq<T>, c: nat, x: T)
    requires x in s && forall y :: y in s ==> |Filter(s, Is(y))| == c
    ensures var rest := Filter(s, IsNot(x));
      && (forall y :: y in rest ==> |Filter(rest, Is(y))| == c)
      && |s| == c + |rest| && |Elements(s)| == |Elements(rest)| + 1 && |rest| < |s|
  {
    var rest := Filter(s, IsNot(x));
    FilterSplits(s, Is(x), IsNot(x));
    assert x in Filter(s, Is(x));
    forall y | y in rest ensures |Filter(rest, Is(y))| == c {
      FilterNarrows(s, IsNot(x), Is(y));
    }
    assert Elements(s) == Elements(rest) + {x};
  }

  /** If every element of a list occurs `c` times, there are `|s| / c` of them. */
  lemma {:induction false} EvenMultiplicity<T(!new)>(s: seq<T>, c: nat)
    requires forall x :: x in s ==> |Filter(s, Is(x))| == c
    ensures |s| == c * |Elements(s)|
    decreases |s|
  {
    if s == [] {
      assert Elements(s) == {};
    } else {
      var rest := Filter(s, IsNot(s[0]));
      RestMultiplicity(s, c, s[0]);
      EvenMultiplicity(rest, c);
      OneMore(c, |Elements(rest)|);
    }
  }

  lemma {:induction false} FilterNothing<T(!new)>(s: seq<T>, p: T -> bool)
    requires forall x :: x in s ==> !p(x)
    ensures Filter(s, p) == []
  {
    if Filter(s, p) != [] {
      assert Filter(s, p)[0] in Filter(s, p);
    }
  }

  lemma {:induction false} FilterEverything<T(!new)>(s: seq<T>, p: T -> bool)
    requires forall x :: x in s ==> p(x)
    ensures Filter(s, p) == s
  {
    if s != [] {
      assert s == [s[0]] + s[1..];
      FilterEverything(s[1..], p);
    }
  }
}
