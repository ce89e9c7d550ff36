/** The bookkeeping loop of the claim-set validator: three tables built in one
    pass, then four tests on them (src/witnessgap/workspace100/claims.py:898-947). */
module ClaimContext {
  import opened Model
  import opened Order
  import opened Subsets
  import opened Claims
  import opened ClaimRuns

  /** `evidence_by_method`, `request_by_evidence` and `counts`. */
  datatype Tables = Tables(
    evidence: map<string, seq<string>>, requests: map<string, set<string>>, counts: map<string, nat>)

  function Lookup<V>(m: map<string, V>, key: string, default: V): V {
    if key in m then m[key] else default
  }

  /** One iteration of the loop. */
  function Enter(t: Tables, r: ClaimRun): Tables {
    Tables(
      t.evidence[r.methodDigest := Lookup(t.evidence, r.methodDigest, []) + [r.record.evidenceDigest]],
      t.requests[r.record.evidenceDigest := Lookup(t.requests, r.record.evidenceDigest, {}) + {r.record.requestDigest}],
      t.counts[r.methodDigest := Lookup(t.counts, r.methodDigest, 0) + 1])
  }

  ghost predicate TablesOf(t: Tables, runs: seq<ClaimRun>) {
    && (forall d :: Lookup(t.evidence, d, []) == EvidenceList(runs, d))
    && (forall d :: Lookup(t.counts, d, 0) == |EvidenceList(runs, d)|)
    && (forall d :: d in t.counts ==> t.counts[d] > 0)
    && (forall e :: Lookup(t.requests, e, {}) == Requests(runs, e))
    && t.requests.Keys == AllEvidence(runs)
  }

  lemma EvidenceGrows(runs: seq<ClaimRun>, r: ClaimRun, d: string)
    ensures EvidenceList(runs + [r], d) == EvidenceList(runs, d) + if r.methodDigest == d then [EvidenceOf(r)] else []
  {
    FilterAppend(runs, [r], OfMethod(d));
    assert Filter([r], OfMethod(d)) == if r.methodDigest == d then [r] else [];
  }

  lemma RequestsGrow(runs: seq<ClaimRun>, r: ClaimRun, e: string)
    ensures Requests(runs + [r], e) == Requests(runs, e) + if EvidenceOf(r) == e then {r.record.requestDigest} else {}
  {
    var grown := Requests(runs, e) + if EvidenceOf(r) == e then {r.record.requestDigest} else {};
    assert forall x :: x in runs + [r] <==> x in runs || x == r;
    forall q ensures q in Requests(runs + [r], e) <==> q in grown {
      if q in Requests(runs + [r], e) {
        var x :| x in runs + [r] && EvidenceOf(x) == e && x.record.requestDigest == q;
      }
      if q in Requests(runs, e) {
        var x :| x in runs && EvidenceOf(x) == e && x.record.requestDigest == q;
        assert x in runs + [r];
      }
      if EvidenceOf(r) == e && q == r.record.requestDigest {
        assert r in runs + [r];
      }
    }
  }

  lemma TablesGrow(t: Tables, runs: seq<ClaimRun>, r: ClaimRun)
    requires TablesOf(t, runs)
    ensures TablesOf(Enter(t, r), runs + [r])
  {
    var next := Enter(t, r);
    forall d
      ensures Lookup(next.evidence, d, []) == EvidenceList(runs + [r], d)
      ensures Lookup(next.counts, d, 0) == |EvidenceList(runs + [r], d)|
    {
      EvidenceGrows(runs, r, d);
    }
    forall e ensures Lookup(next.requests, e, {}) == Requests(runs + [r], e) {
      RequestsGrow(runs, r, e);
    }
    assert forall x :: x in runs + [r] <==> x in runs || x == r;
    assert AllEvidence(runs + [r]) == AllEvidence(runs) + {EvidenceOf(r)};
  }

  /** The tests on counts and evidence sets. */
  predicate EvidencePasses(t: Tables, c: ClaimSet, cases: nat) {
    var digests := Apply(c.methods, MethodDigest);
    && t.counts.Values == {cases} && t.counts.Keys == Elements(digests)
    && (forall d :: d in digests ==> |Elements(Lookup(t.evidence, d, []))| == cases)
    && |set d | d in digests :: Elements(Lookup(t.evidence, d, []))| == 1
  }

  /** The tests on requests. */
  predicate RequestsPass(t: Tables, cases: nat) {
    && |t.requests.Keys| == cases
    && (forall e :: e in t.requests ==> |t.requests[e]| == 1)
    && |set e, q | e in t.requests && q in t.requests[e] :: q| == cases
  }

  lemma TablesNext(t: Tables, runs: seq<ClaimRun>, i: nat)
    requires i < |runs| && TablesOf(t, runs[..i])
    ensures TablesOf(Enter(t, runs[i]), runs[..i + 1])
  {
    TablesGrow(t, runs[..i], runs[i]);
    PrefixGrows(runs[..i], runs, i, runs[i]);
  }

  ghost predicate AllIdentified(c: ClaimSet) {
    forall r :: r in c.runs ==> Identified(c, r)
  }

  /** The loop; `None` stands for its refusals. */
  method BuildTables(c: ClaimSet) returns (t: Option<Tables>)
    ensures t.Some? <==> AllIdentified(c)
    ensures t.Some? ==> TablesOf(t.value, c.runs)
  {
    var tables := Tables(map[], map[], map[]);
    var i := 0;
    assert TablesOf(tables, c.runs[..0]);
    while i < |c.runs| && Identified(c, c.runs[i])
      invariant 0 <= i <= |c.runs|
      invariant TablesOf(tables, c.runs[..i])
      invariant forall k :: 0 <= k < i ==> Identified(c, c.runs[k])
    {
      TablesNext(tables, c.runs, i);
      tables := Enter(tables, c.runs[i]);
      i := i + 1;
    }
    if i < |c.runs| {
      assert c.runs[i] in c.runs;
      return None;
    }
    assert c.runs[..i] == c.runs;
    t := Some(tables);
  }

  /** `_validate_claim_run_context` */
  method ValidateContext(c: ClaimSet, cases: nat) returns (ok: bool)
    requires cases > 0 && DigestsKnown(c)
    ensures ok <==> ContextHolds(c, cases)
  {
    var built := BuildTables(c);
    match built {
      case None => ok := false;
      case Some(t) =>
        EvidenceDecides(t, c, cases);
        RequestsDecide(t, c, cases);
        ok := EvidencePasses(t, c, cases) && RequestsPass(t, cases);
    }
  }

  // ---------- what the tests amount to ----------

  lemma Singleton<T>(s: set<T>, x: T)
    requires |s| == 1 && x in s
    ensures s == {x}
  {
    if y :| y in s && y != x {
      CardinalityOfSubset({x, y}, s);
    }
  }

  lemma {:induction false} ImageBound(s: set<string>, f: string -> string)
    ensures |set e | e in s :: f(e)| <= |s|
  {
    var image := set e | e in s :: f(e);
    if s == {} {
      assert image == {};
    } else {
      var x :| x in s;
      ImageBound(s - {x}, f);
      var less := set e | e in s - {x} :: f(e);
      assert image == less + {f(x)};
    }
  }

  /** An image as large as its domain is one-to-one. */
  lemma ImageInjective(s: set<string>, f: string -> string, a: string, b: string)
    requires |set e | e in s :: f(e)| == |s| && a in s && b in s && f(a) == f(b)
    ensures a == b
  {
    if a != b {
      var less := set e | e in s - {a} :: f(e);
      assert b in s - {a} && f(b) in less;
      assert (set e | e in s :: f(e)) == less;
      ImageBound(s - {a}, f);
    }
  }

  lemma {:induction false} InjectiveImage(s: set<string>, f: string -> string)
    requires forall a, b :: a in s && b in s && f(a) == f(b) ==> a == b
    ensures |set e | e in s :: f(e)| == |s|
  {
    var image := set e | e in s :: f(e);
    if s == {} {
      assert image == {};
    } else {
      var x :| x in s;
      InjectiveImage(s - {x}, f);
      var less := set e | e in s - {x} :: f(e);
      assert f(x) !in less;
      assert image == less + {f(x)};
    }
  }

  ghost predicate DigestsKnown(c: ClaimSet) {
    forall r :: r in c.runs ==> r.methodDigest in Apply(c.methods, MethodDigest)
  }

  lemma ListedDigest(c: ClaimSet, d: string)
    requires DigestsKnown(c) && EvidenceList(c.runs, d) != []
    ensures d in Apply(c.methods, MethodDigest)
  {
    var kept := Filter(c.runs, OfMethod(d));
    assert kept[0] in kept;
  }

  /** One count per method, each equal to `cases`. */
  lemma CountsDecide(t: Tables, c: ClaimSet, cases: nat)
    requires TablesOf(t, c.runs) && DigestsKnown(c) && cases > 0 && c.methods != []
    ensures t.counts.Values == {cases} && t.counts.Keys == Elements(Apply(c.methods, MethodDigest))
      <==> forall d :: d in Apply(c.methods, MethodDigest) ==> |EvidenceList(c.runs, d)| == cases
  {
    var digests := Apply(c.methods, MethodDigest);
    forall d ensures d in t.counts <==> EvidenceList(c.runs, d) != [] {
      assert Lookup(t.counts, d, 0) == |EvidenceList(c.runs, d)|;
    }
    if t.counts.Values == {cases} && t.counts.Keys == Elements(digests) {
      forall d | d in digests ensures |EvidenceList(c.runs, d)| == cases {
        assert d in t.counts && t.counts[d] in t.counts.Values;
      }
    }
    if forall d :: d in digests ==> |EvidenceList(c.runs, d)| == cases {
      forall d ensures d in t.counts.Keys <==> d in Elements(digests) {
        if d in t.counts {
          ListedDigest(c, d);
        }
      }
      CountsAreAll(t, c, cases, digests[0]);
    }
  }

  lemma CountsAreAll(t: Tables, c: ClaimSet, cases: nat, first: string)
    requires TablesOf(t, c.runs) && first in t.counts
    requires forall d :: d in t.counts ==> |EvidenceList(c.runs, d)| == cases
    ensures t.counts.Values == {cases}
  {
    forall n ensures n in t.counts.Values <==> n == cases {
      if n in t.counts.Values {
        var d :| d in t.counts && t.counts[d] == n;
        assert Lookup(t.counts, d, 0) == |EvidenceList(c.runs, d)|;
      }
      assert Lookup(t.counts, first, 0) == |EvidenceList(c.runs, first)|;
      assert t.counts[first] in t.counts.Values;
    }
  }

  /** One evidence set, shared by all methods. */
  lemma SetsDecide(t: Tables, c: ClaimSet)
    requires TablesOf(t, c.runs) && c.methods != []
    ensures |set d | d in Apply(c.methods, MethodDigest) :: Elements(Lookup(t.evidence, d, []))| == 1
      <==> forall d :: d in Apply(c.methods, MethodDigest) ==>
             Elements(EvidenceList(c.runs, d)) == Elements(EvidenceList(c.runs, c.methods[0].digest))
  {
    var digests := Apply(c.methods, MethodDigest);
    var sets := set d | d in digests :: Elements(Lookup(t.evidence, d, []));
    var first := Elements(EvidenceList(c.runs, c.methods[0].digest));
    assert digests[0] == c.methods[0].digest && digests[0] in digests;
    assert Lookup(t.evidence, digests[0], []) == EvidenceList(c.runs, digests[0]);
    assert first in sets;
    if |sets| == 1 {
      Singleton(sets, first);
      forall d | d in digests ensures Elements(EvidenceList(c.runs, d)) == first {
        assert Elements(Lookup(t.evidence, d, [])) in sets;
      }
    }
    if forall d :: d in digests ==> Elements(EvidenceList(c.runs, d)) == first {
      forall x ensures x in sets <==> x == first {
        if x in sets {
          var d :| d in digests && x == Elements(Lookup(t.evidence, d, []));
          assert Lookup(t.evidence, d, []) == EvidenceList(c.runs, d);
        }
      }
      assert sets == {first};
    }
  }

  lemma EvidenceDecides(t: Tables, c: ClaimSet, cases: nat)
    requires TablesOf(t, c.runs) && DigestsKnown(c) && cases > 0
    ensures SameEvidence(c, cases) <==> EvidencePasses(t, c, cases)
  {
    var digests := Apply(c.methods, MethodDigest);
    if c.methods == [] {
      assert (set d | d in digests :: Elements(Lookup(t.evidence, d, []))) == {};
    } else {
      CountsDecide(t, c, cases);
      SetsDecide(t, c);
      assert forall d :: Lookup(t.evidence, d, []) == EvidenceList(c.runs, d);
    }
  }

  // ---------- requests ----------

  /** The request of some run on this evidence. */
  ghost function RequestOf(runs: seq<ClaimRun>): string -> string {
    (e: string) =>
      if exists r :: r in runs && EvidenceOf(r) == e
      then var r :| r in runs && EvidenceOf(r) == e; r.record.requestDigest
      else ""
  }

  lemma RequestIn(runs: seq<ClaimRun>, e: string)
    requires e in AllEvidence(runs)
    ensures RequestOf(runs)(e) in Requests(runs, e)
  {
    var r :| r in runs && EvidenceOf(r) == e && RequestOf(runs)(e) == r.record.requestDigest;
  }

  lemma RunRequest(runs: seq<ClaimRun>, r: ClaimRun)
    requires r in runs
    ensures EvidenceOf(r) in AllEvidence(runs) && r.record.requestDigest in Requests(runs, EvidenceOf(r))
  {
  }

  /** Each evidence has one request, so the requests are an image. */
  lemma RequestsAreImage(t: Tables, c: ClaimSet)
    requires TablesOf(t, c.runs) && forall e :: e in t.requests ==> |t.requests[e]| == 1
    ensures (set e, q | e in t.requests && q in t.requests[e] :: q)
      == set e | e in t.requests.Keys :: RequestOf(c.runs)(e)
    ensures forall r :: r in c.runs ==> r.record.requestDigest == RequestOf(c.runs)(EvidenceOf(r))
  {
    forall e | e in t.requests ensures t.requests[e] == {RequestOf(c.runs)(e)} {
      assert Lookup(t.requests, e, {}) == Requests(c.runs, e);
      RequestIn(c.runs, e);
      Singleton(t.requests[e], RequestOf(c.runs)(e));
    }
    forall r | r in c.runs ensures r.record.requestDigest == RequestOf(c.runs)(EvidenceOf(r)) {
      RunRequest(c.runs, r);
      assert Lookup(t.requests, EvidenceOf(r), {}) == Requests(c.runs, EvidenceOf(r));
    }
  }

  lemma RequestsSuffice(t: Tables, c: ClaimSet, cases: nat)
    requires TablesOf(t, c.runs) && RequestsPass(t, cases)
    ensures UniqueRequests(c, cases)
  {
    var f := RequestOf(c.runs);
    RequestsAreImage(t, c);
    forall a, b | a in c.runs && b in c.runs ensures SameEvidenceIffSameRequest(a, b) {
      if f(EvidenceOf(a)) == f(EvidenceOf(b)) {
        RunRequest(c.runs, a);
        RunRequest(c.runs, b);
        ImageInjective(t.requests.Keys, f, EvidenceOf(a), EvidenceOf(b));
      }
    }
  }

  lemma OneRequest(c: ClaimSet, cases: nat, e: string, q: string, q': string)
    requires UniqueRequests(c, cases) && q in Requests(c.runs, e) && q' in Requests(c.runs, e)
    ensures q == q'
  {
    var a :| a in c.runs && EvidenceOf(a) == e && a.record.requestDigest == q;
    var b :| b in c.runs && EvidenceOf(b) == e && b.record.requestDigest == q';
    assert SameEvidenceIffSameRequest(a, b);
  }

  lemma OneEvidence(c: ClaimSet, cases: nat, e: string, e': string)
    requires UniqueRequests(c, cases) && e in AllEvidence(c.runs) && e' in AllEvidence(c.runs)
    requires RequestOf(c.runs)(e) == RequestOf(c.runs)(e')
    ensures e == e'
  {
    RequestIn(c.runs, e);
    RequestIn(c.runs, e');
    var a :| a in c.runs && EvidenceOf(a) == e && a.record.requestDigest == RequestOf(c.runs)(e);
    var b :| b in c.runs && EvidenceOf(b) == e' && b.record.requestDigest == RequestOf(c.runs)(e');
    assert SameEvidenceIffSameRequest(a, b);
  }

  lemma RequestsNecessary(t: Tables, c: ClaimSet, cases: nat)
    requires TablesOf(t, c.runs) && UniqueRequests(c, cases)
    ensures RequestsPass(t, cases)
  {
    var f := RequestOf(c.runs);
    forall e | e in t.requests ensures t.requests[e] == {f(e)} {
      assert Lookup(t.requests, e, {}) == Requests(c.runs, e);
      RequestIn(c.runs, e);
      forall q | q in t.requests[e] ensures q == f(e) {
        OneRequest(c, cases, e, q, f(e));
      }
    }
    RequestsAreImage(t, c);
    forall a, b | a in t.requests.Keys && b in t.requests.Keys && f(a) == f(b) ensures a == b {
      OneEvidence(c, cases, a, b);
    }
    InjectiveImage(t.requests.Keys, f);
  }

  lemma RequestsDecide(t: Tables, c: ClaimSet, cases: nat)
    requires TablesOf(t, c.runs)
    ensures UniqueRequests(c, cases) <==> RequestsPass(t, cases)
  {
    if UniqueRequests(c, cases) {
      RequestsNecessary(t, c, cases);
    }
    if RequestsPass(t, cases) {
      RequestsSuffice(t, c, cases);
    }
  }
}
