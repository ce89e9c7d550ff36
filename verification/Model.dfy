/** Types shared by the whole model (src/witnessgap/model.py), and the list
    comprehensions that the source writes over them. */
module Model {
  newtype byte = b: int | 0 <= b < 256

  type Bytes = seq<byte>

  type Witness = seq<string>

  type TargetSet = seq<string>

  type TargetFamily = seq<TargetSet>

  datatype Option<+T> = None | Some(value: T)

  datatype Result<+T, +E> = Ok(value: T) | Err(error: E)

  datatype Outcome = Failure | Success

  // Of an identifier's syntax the model keeps the length. Authored records
  // admit longer names (records.py:18) than the core does (model.py:10).

  const MAX_RECORD_NAME := 96
  const MAX_CORE_NAME := 64

  predicate RecordName(name: string) {
    0 < |name| <= MAX_RECORD_NAME
  }

  predicate CoreName(name: string) {
    0 < |name| <= MAX_CORE_NAME
  }

  predicate CoreNames(names: seq<string>) {
    forall i :: 0 <= i < |names| ==> CoreName(names[i])
  }

  /** `_opaque_id`: a prefix and the first 24 characters of a digest. */
  function OpaqueId(prefix: string, digest: string): (id: string)
    ensures |prefix| < |id| <= |prefix| + 25
  {
    prefix + "_" + digest[..if |digest| < 24 then |digest| else 24]
  }

  datatype Atom = Atom(name: string, target: string)

  function TargetNames(atoms: seq<Atom>): (targets: seq<string>)
    ensures |targets| == |atoms| && forall i :: 0 <= i < |atoms| ==> targets[i] == atoms[i].target
  {
    seq(|atoms|, i requires 0 <= i < |atoms| => atoms[i].target)
  }

  function AtomNames(atoms: seq<Atom>): (names: seq<string>)
    ensures |names| == |atoms| && forall i :: 0 <= i < |atoms| ==> names[i] == atoms[i].name
  {
    seq(|atoms|, i requires 0 <= i < |atoms| => atoms[i].name)
  }

  /** `{atom.name: atom.target for atom in atoms}` (later entries win). */
  function AtomTargets(atoms: seq<Atom>): (m: map<string, string>)
    ensures forall x :: x in m <==> exists i :: 0 <= i < |atoms| && atoms[i].name == x
  {
    if atoms == [] then map[]
    else
      var last := atoms[|atoms| - 1];
      AtomTargets(atoms[..|atoms| - 1])[last.name := last.target]
  }

  function Filter<T(!new)>(s: seq<T>, keep: T -> bool): (r: seq<T>)
    ensures forall x :: x in r <==> x in s && keep(x)
  {
    if s == [] then []
    else if keep(s[0]) then [s[0]] + Filter(s[1..], keep)
    else Filter(s[1..], keep)
  }

  lemma {:induction false} FilterAppend<T(!new)>(a: seq<T>, b: seq<T>, keep: T -> bool)
    ensures Filter(a + b, keep) == Filter(a, keep) + Filter(b, keep)
  {
    if a == [] {
      assert a + b == b;
    } else {
      assert (a + b)[1..] == a[1..] + b;
      FilterAppend(a[1..], b, keep);
    }
  }

  /** Filters that agree on the elements of `s` select the same list. */
  lemma {:induction false} FilterAgree<T(!new)>(s: seq<T>, p: T -> bool, q: T -> bool)
    requires forall x :: x in s ==> (p(x) <==> q(x))
    ensures Filter(s, p) == Filter(s, q)
  {
    if s != [] {
      FilterAgree(s[1..], p, q);
    }
  }

  function Apply<S, T>(s: seq<S>, f: S -> T): (r: seq<T>)
    ensures |r| == |s| && forall i :: 0 <= i < |s| ==> r[i] == f(s[i])
  {
    seq(|s|, i requires 0 <= i < |s| => f(s[i]))
  }

  /** Mapping after filtering is filtering after mapping. */
  lemma {:induction false} ApplyFilter<S(!new), T(!new)>(s: seq<S>, f: S -> T, p: S -> bool, q: T -> bool)
    requires forall x :: x in s ==> (p(x) <==> q(f(x)))
    ensures Apply(Filter(s, p), f) == Filter(Apply(s, f), q)
  {
    if s != [] {
      assert Apply(s, f) == [f(s[0])] + Apply(s[1..], f);
      ApplyFilter(s[1..], f, p, q);
      assert Apply(Filter(s, p), f) ==
        (if p(s[0]) then [f(s[0])] else []) + Apply(Filter(s[1..], p), f);
    }
  }

  lemma ApplyPair<S, T>(a: S, b: S, f: S -> T)
    ensures Apply([a, b], f) == [f(a), f(b)]
  {
  }

  /** A loop that appends the next expected element keeps a prefix. */
  lemma PrefixGrows<T>(built: seq<T>, expected: seq<T>, i: nat, next: T)
    requires i < |expected| && built == expected[..i] && next == expected[i]
    ensures built + [next] == expected[..i + 1]
    ensures expected[..i + 1][..i] == expected[..i]
  {
  }

  /** The list that a loop builds by appending `f(x)` for each `x`. */
  function Appended<S, T>(s: seq<S>, f: S -> T): seq<T> {
    if s == [] then [] else Appended(s[..|s| - 1], f) + [f(s[|s| - 1])]
  }

  lemma AppendedNext<S, T>(s: seq<S>, f: S -> T, i: nat)
    requires i < |s|
    ensures Appended(s[..i + 1], f) == Appended(s[..i], f) + [f(s[i])]
  {
    assert s[..i + 1][..i] == s[..i];
  }

  lemma {:induction false} AppendedIsApply<S, T>(s: seq<S>, f: S -> T)
    ensures Appended(s, f) == Apply(s, f)
  {
    if s != [] {
      AppendedIsApply(s[..|s| - 1], f);
    }
  }

  /** The results of a loop that stops at the first `None`. */
  ghost predicate Answers<A, B>(f: A -> Option<B>, xs: seq<A>, ys: seq<B>) {
    |ys| == |xs| && forall i :: 0 <= i < |xs| ==> f(xs[i]) == Some(ys[i])
  }

  lemma AnswersNext<A, B>(f: A -> Option<B>, xs: seq<A>, ys: seq<B>, i: nat, y: B)
    requires i < |xs| && Answers(f, xs[..i], ys) && f(xs[i]) == Some(y)
    ensures Answers(f, xs[..i + 1], ys + [y])
  {
  }
}
