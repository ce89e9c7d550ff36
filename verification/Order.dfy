/** Python's `sorted`: the orders on strings and tuples of strings, a stable
    sort over any comparison, and why the result of a sort is unique. */
module Order {
  ghost predicate PreOrder<T(!new)>(le: (T, T) -> bool) {
    && (forall x :: le(x, x))
    && (forall x, y, z :: le(x, y) && le(y, z) ==> le(x, z))
    && (forall x, y :: le(x, y) || le(y, x))
  }

  ghost predicate TotalOrder<T(!new)>(le: (T, T) -> bool) {
    && PreOrder(le)
    && (forall x, y :: le(x, y) && le(y, x) ==> x == y)
  }

  predicate CharLe(a: char, b: char) {
    a <= b
  }

  /** Python's `<=` on sequences: the first difference decides, then the length. */
  predicate LexLe<T(==)>(le: (T, T) -> bool, a: seq<T>, b: seq<T>) {
    a == [] || (b != [] && if a[0] == b[0] then LexLe(le, a[1..], b[1..]) else le(a[0], b[0]))
  }

  predicate StringLe(a: string, b: string) {
    LexLe(CharLe, a, b)
  }

  predicate TupleLe(a: seq<string>, b: seq<string>) {
    LexLe(StringLe, a, b)
  }

  lemma {:induction false} LexReflexive<T>(le: (T, T) -> bool, a: seq<T>)
    ensures LexLe(le, a, a)
  {
    if a != [] {
      LexReflexive(le, a[1..]);
    }
  }

  lemma {:induction false} LexAntisymmetric<T(!new)>(le: (T, T) -> bool, a: seq<T>, b: seq<T>)
    requires TotalOrder(le)
    requires LexLe(le, a, b) && LexLe(le, b, a)
    ensures a == b
  {
    if a != [] && b != [] {
      assert a[0] == b[0];
      LexAntisymmetric(le, a[1..], b[1..]);
      assert a == [a[0]] + a[1..] && b == [b[0]] + b[1..];
    }
  }

  lemma {:induction false} LexTransitive<T(!new)>(le: (T, T) -> bool, a: seq<T>, b: seq<T>, c: seq<T>)
    requires TotalOrder(le)
    requires LexLe(le, a, b) && LexLe(le, b, c)
    ensures LexLe(le, a, c)
  {
    if a != [] && a[0] == b[0] == c[0] {
      LexTransitive(le, a[1..], b[1..], c[1..]);
    }
  }

  lemma {:induction false} LexTotal<T(!new)>(le: (T, T) -> bool, a: seq<T>, b: seq<T>)
    requires TotalOrder(le)
    ensures LexLe(le, a, b) || LexLe(le, b, a)
  {
    if a != [] && b != [] && a[0] == b[0] {
      LexTotal(le, a[1..], b[1..]);
    }
  }

  lemma StringsAreOrdered()
    ensures TotalOrder(StringLe)
  {
    assert TotalOrder(CharLe);
    forall a, b ensures StringLe(a, a) && (StringLe(a, b) || StringLe(b, a)) {
      LexReflexive(CharLe, a);
      LexTotal(CharLe, a, b);
    }
    forall a, b | StringLe(a, b) && StringLe(b, a) ensures a == b {
      LexAntisymmetric(CharLe, a, b);
    }
    forall a, b, c | StringLe(a, b) && StringLe(b, c) ensures StringLe(a, c) {
      LexTransitive(CharLe, a, b, c);
    }
  }

  lemma TuplesAreOrdered()
    ensures TotalOrder(TupleLe)
  {
    StringsAreOrdered();
    forall a, b ensures TupleLe(a, a) && (TupleLe(a, b) || TupleLe(b, a)) {
      LexReflexive(StringLe, a);
      LexTotal(StringLe, a, b);
    }
    forall a, b | TupleLe(a, b) && TupleLe(b, a) ensures a == b {
      LexAntisymmetric(StringLe, a, b);
    }
    forall a, b, c | TupleLe(a, b) && TupleLe(b, c) ensures TupleLe(a, c) {
      LexTransitive(StringLe, a, b, c);
    }
  }

  // ---------- sorting a list ----------

  ghost predicate Sorted<T>(le: (T, T) -> bool, s: seq<T>) {
    forall i, j :: 0 <= i < j < |s| ==> le(s[i], s[j])
  }

  ghost predicate Distinct<T>(s: seq<T>) {
    forall i, j :: 0 <= i < j < |s| ==> s[i] != s[j]
  }

  ghost predicate StrictlySorted<T>(le: (T, T) -> bool, s: seq<T>) {
    Sorted(le, s) && Distinct(s)
  }

  lemma ConcatenationSorted<T>(le: (T, T) -> bool, a: seq<T>, b: seq<T>)
    requires StrictlySorted(le, a) && StrictlySorted(le, b)
    requires forall x, y :: x in a && y in b ==> le(x, y) && x != y
    ensures StrictlySorted(le, a + b)
  {
    var c := a + b;
    forall i, j | 0 <= i < j < |c| ensures le(c[i], c[j]) && c[i] != c[j] {
      if j < |a| {
        assert c[i] == a[i] && c[j] == a[j];
      } else if i < |a| {
        assert c[i] in a && c[j] in b;
      } else {
        assert c[i] == b[i - |a|] && c[j] == b[j - |a|];
      }
    }
  }

  function Elements<T>(s: seq<T>): set<T> {
    set x | x in s
  }

  function Insert<T>(le: (T, T) -> bool, x: T, s: seq<T>): (r: seq<T>)
    ensures multiset(r) == multiset{x} + multiset(s)
  {
    if s == [] || le(x, s[0]) then [x] + s
    else
      assert s == [s[0]] + s[1..];
      [s[0]] + Insert(le, x, s[1..])
  }

  /** `sorted(s, key=...)`, with the key folded into the comparison. */
  function Sort<T>(le: (T, T) -> bool, s: seq<T>): (r: seq<T>)
    ensures multiset(r) == multiset(s)
  {
    if s == [] then []
    else
      assert s == [s[0]] + s[1..];
      Insert(le, s[0], Sort(le, s[1..]))
  }

  lemma SortOfPair<T>(le: (T, T) -> bool, a: T, b: T)
    ensures Sort(le, [a, b]) == if le(a, b) then [a, b] else [b, a]
  {
    assert [a, b][1..] == [b] && [b][1..] == [];
    assert Sort(le, [b]) == [b];
  }

  lemma SameMultiset<T>(a: seq<T>, b: seq<T>)
    requires multiset(a) == multiset(b)
    ensures |a| == |b| && Elements(a) == Elements(b)
  {
    assert |a| == |multiset(a)| && |b| == |multiset(b)|;
    forall x ensures x in a <==> x in b {
      assert x in multiset(a) <==> x in multiset(b);
    }
  }

  lemma {:induction false} InsertKeepsSorted<T(!new)>(le: (T, T) -> bool, x: T, s: seq<T>)
    requires PreOrder(le) && Sorted(le, s)
    ensures Sorted(le, Insert(le, x, s))
  {
    if s != [] && !le(x, s[0]) {
      InsertKeepsSorted(le, x, s[1..]);
      var tail := Insert(le, x, s[1..]);
      forall k | 0 <= k < |tail| ensures le(s[0], tail[k]) {
        assert tail[k] in multiset(tail);
        assert tail[k] == x || tail[k] in s[1..];
      }
    }
  }

  lemma {:induction false} SortSorts<T(!new)>(le: (T, T) -> bool, s: seq<T>)
    requires PreOrder(le)
    ensures Sorted(le, Sort(le, s))
  {
    if s != [] {
      SortSorts(le, s[1..]);
      InsertKeepsSorted(le, s[0], Sort(le, s[1..]));
    }
  }

  /** The order can tell the elements of `s` apart. */
  ghost predicate Separates<T>(le: (T, T) -> bool, s: seq<T>) {
    forall i, j :: 0 <= i < |s| && 0 <= j < |s| && le(s[i], s[j]) && le(s[j], s[i]) ==> s[i] == s[j]
  }

  lemma HeadsAgree<T(!new)>(le: (T, T) -> bool, a: seq<T>, b: seq<T>)
    requires multiset(a) == multiset(b) && Sorted(le, a) && Sorted(le, b)
    requires PreOrder(le) && Separates(le, a) && a != []
    ensures b != [] && a[0] == b[0]
  {
    SameMultiset(a, b);
    assert a[0] in Elements(b) && b[0] in Elements(a);
    var i :| 0 <= i < |a| && a[i] == b[0];
    var j :| 0 <= j < |b| && b[j] == a[0];
    assert le(a[0], a[i]) && le(b[0], b[j]);
  }

  lemma TailsStaySorted<T(!new)>(le: (T, T) -> bool, a: seq<T>)
    requires a != [] && Sorted(le, a) && Separates(le, a)
    ensures Sorted(le, a[1..]) && Separates(le, a[1..])
    ensures multiset(a[1..]) == multiset(a) - multiset{a[0]}
  {
    assert a == [a[0]] + a[1..];
    var t := a[1..];
    assert forall i :: 0 <= i < |t| ==> t[i] == a[i + 1];
  }

  lemma SeparatesPermutation<T>(le: (T, T) -> bool, a: seq<T>, b: seq<T>)
    requires multiset(a) == multiset(b) && Separates(le, a)
    ensures Separates(le, b)
  {
    SameMultiset(a, b);
    forall i, j | 0 <= i < |b| && 0 <= j < |b| && le(b[i], b[j]) && le(b[j], b[i]) ensures b[i] == b[j] {
      assert b[i] in Elements(a) && b[j] in Elements(a);
    }
  }

  lemma TailsAgree<T(!new)>(le: (T, T) -> bool, a: seq<T>, b: seq<T>)
    requires a != [] && b != [] && multiset(a) == multiset(b) && a[0] == b[0]
    requires Sorted(le, a) && Sorted(le, b) && Separates(le, a)
    ensures multiset(a[1..]) == multiset(b[1..])
    ensures Sorted(le, a[1..]) && Sorted(le, b[1..]) && Separates(le, a[1..])
  {
    SeparatesPermutation(le, a, b);
    TailsStaySorted(le, a);
    TailsStaySorted(le, b);
  }

  /** Two sorted arrangements of one multiset agree as soon as the order can
      tell the elements involved apart. */
  lemma {:induction false} SortedArrangementsAgree<T(!new)>(le: (T, T) -> bool, a: seq<T>, b: seq<T>)
    requires multiset(a) == multiset(b) && Sorted(le, a) && Sorted(le, b)
    requires PreOrder(le) && Separates(le, a)
    ensures a == b
  {
    if a == [] {
      SameMultiset(a, b);
    } else {
      HeadsAgree(le, a, b);
      TailsAgree(le, a, b);
      SortedArrangementsAgree(le, a[1..], b[1..]);
      assert a == [a[0]] + a[1..] && b == [b[0]] + b[1..];
    }
  }

  /** Sorting is insensitive to the order of its input. */
  lemma SortOfPermutation<T(!new)>(le: (T, T) -> bool, a: seq<T>, b: seq<T>)
    requires PreOrder(le) && multiset(a) == multiset(b) && Separates(le, a)
    ensures Sort(le, a) == Sort(le, b)
  {
    SortSorts(le, a);
    SortSorts(le, b);
    SeparatesPermutation(le, a, Sort(le, a));
    SortedArrangementsAgree(le, Sort(le, a), Sort(le, b));
  }

  lemma {:induction false} SortFixesSorted<T(!new)>(le: (T, T) -> bool, s: seq<T>)
    requires PreOrder(le) && Sorted(le, s)
    ensures Sort(le, s) == s
  {
    if s != [] {
      SortFixesSorted(le, s[1..]);
      assert s == [s[0]] + s[1..];
    }
  }

  lemma {:induction false} DistinctIffMultiset<T>(s: seq<T>)
    ensures Distinct(s) <==> forall x :: x in s ==> multiset(s)[x] == 1
  {
    if s != [] {
      DistinctIffMultiset(s[1..]);
      assert s == [s[0]] + s[1..];
      assert multiset(s) == multiset{s[0]} + multiset(s[1..]);
      if Distinct(s) {
        assert s[0] !in s[1..];
      } else if Distinct(s[1..]) {
        var i, j :| 0 <= i < j < |s| && s[i] == s[j];
        assert s[j] == s[1..][j - 1];
        assert s[0] in multiset(s[1..]);
        assert multiset(s)[s[0]] >= 2;
      } else {
        var x :| x in s[1..] && multiset(s[1..])[x] != 1;
        assert x in multiset(s[1..]) && multiset(s)[x] >= 2;
      }
    }
  }

  lemma DistinctPermutation<T>(a: seq<T>, b: seq<T>)
    requires multiset(a) == multiset(b) && Distinct(a)
    ensures Distinct(b)
  {
    DistinctIffMultiset(a);
    DistinctIffMultiset(b);
    SameMultiset(a, b);
    forall x | x in b ensures multiset(b)[x] == 1 {
      assert x in Elements(a);
    }
  }

  lemma {:induction false} DistinctCardinality<T>(s: seq<T>)
    ensures |Elements(s)| <= |s|
    ensures Distinct(s) <==> |Elements(s)| == |s|
  {
    if s == [] {
      assert Elements(s) == {};
    } else {
      DistinctCardinality(s[1..]);
      assert Elements(s) == {s[0]} + Elements(s[1..]);
      if s[0] in s[1..] {
        var k :| 0 <= k < |s[1..]| && s[1..][k] == s[0];
        assert s[0] == s[k + 1];
        assert Elements(s) == Elements(s[1..]);
      } else {
        assert Distinct(s) <==> Distinct(s[1..]) by {
          if Distinct(s[1..]) {
            forall i, j | 0 <= i < j < |s| ensures s[i] != s[j] {
              assert s[j] == s[1..][j - 1];
              if i > 0 { assert s[i] == s[1..][i - 1]; }
            }
          }
        }
      }
    }
  }

  // ---------- sorting a set ----------

  /** A strictly sorted list is determined by its elements. */
  lemma {:induction false} StrictlySortedUnique<T(!new)>(le: (T, T) -> bool, a: seq<T>, b: seq<T>)
    requires StrictlySorted(le, a) && StrictlySorted(le, b)
    requires forall x, y :: x in a && y in a && le(x, y) && le(y, x) ==> x == y
    requires Elements(a) == Elements(b)
    ensures a == b
  {
    assert forall k :: 0 <= k < |a| ==> a[k] in Elements(b);
    assert forall k :: 0 <= k < |b| ==> b[k] in Elements(a);
    if a != [] {
      assert a[0] in Elements(b) && b[0] in Elements(a);
      assert a[0] == b[0];
      forall x ensures x in Elements(a[1..]) <==> x in Elements(b[1..]) {
        assert x in a[1..] <==> x in Elements(a) && x != a[0];
        assert x in b[1..] <==> x in Elements(b) && x != b[0];
      }
      StrictlySortedUnique(le, a[1..], b[1..]);
      assert a == [a[0]] + a[1..] && b == [b[0]] + b[1..];
    }
  }

  lemma {:induction false} LeastExists<T(!new)>(le: (T, T) -> bool, s: set<T>)
    requires TotalOrder(le) && s != {}
    ensures exists m :: m in s && forall x :: x in s ==> le(m, x)
  {
    var x :| x in s;
    if s - {x} == {} {
      assert s == {x};
    } else {
      LeastExists(le, s - {x});
      var m :| m in s - {x} && forall y :: y in s - {x} ==> le(m, y);
      var least := if le(x, m) then x else m;
      forall y | y in s ensures le(least, y) {}
    }
  }

  /** `tuple(sorted(s))` for a set `s`. */
  function SortedSet<T(==, !new)>(le: (T, T) -> bool, s: set<T>): (r: seq<T>)
    requires TotalOrder(le)
    ensures StrictlySorted(le, r) && Elements(r) == s
  {
    if s == {} then []
    else
      LeastExists(le, s);
      var m :| m in s && forall x :: x in s ==> le(m, x);
      var rest := SortedSet(le, s - {m});
      assert forall k :: 0 <= k < |rest| ==> rest[k] in Elements(rest);
      var r := [m] + rest;
      assert Elements(r) == s by {
        assert forall x :: x in r <==> x == m || x in Elements(rest);
      }
      r
  }

  lemma SortedSetUnique<T(!new)>(le: (T, T) -> bool, s: set<T>, a: seq<T>)
    requires TotalOrder(le) && StrictlySorted(le, a) && Elements(a) == s
    ensures a == SortedSet(le, s)
  {
    StrictlySortedUnique(le, a, SortedSet(le, s));
  }

  /** `tuple(sorted(set(names))) == names` */
  predicate SortedUnique(names: seq<string>)
    ensures SortedUnique(names) <==> StrictlySorted(StringLe, names)
  {
    SortedUniqueTest(names);
    SortedSet(StringLe, Elements(names)) == names
  }

  lemma SortedUniqueTest(names: seq<string>)
    ensures TotalOrder(StringLe)
    ensures SortedSet(StringLe, Elements(names)) == names <==> StrictlySorted(StringLe, names)
  {
    StringsAreOrdered();
    if StrictlySorted(StringLe, names) {
      SortedSetUnique(StringLe, Elements(names), names);
    }
  }

  /** `tuple(sorted(interventions))` */
  function LogOf(interventions: set<string>): seq<string> {
    StringsAreOrdered();
    SortedSet(StringLe, interventions)
  }

  lemma LogReadsBack(interventions: set<string>)
    ensures SortedUnique(LogOf(interventions)) && Elements(LogOf(interventions)) == interventions
  {
    StringsAreOrdered();
  }
}
