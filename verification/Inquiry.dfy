/** Asking a registry about one of its worlds, again and again
    (src/witnessgap/identifiability.py:680-782). */
module Inquiry {
  import opened Model
  import opened Subsets
  import opened Attribution
  import opened Registry

  /** The probes and the intervention subsets that a caller asks for. */
  datatype Request = Request(probes: seq<string>, interventions: seq<Witness>)

  function Ask(r: CandidateRegistry, worldId: string): Request -> Result<Evidence, LookupError> {
    (q: Request) => Observe(r, worldId, q.probes, q.interventions)
  }

  /** The diagnosis that `attribute` gives on what `observe` reports. */
  function DiagnosisOf(r: CandidateRegistry, worldId: string): Request -> Result<Diagnosis, LookupError> {
    (q: Request) =>
      match Ask(r, worldId)(q)
      case Err(error) => Err(error)
      case Ok(e) =>
        match Attribute(r, e)
        case Err(error) => Err(error)
        case Ok(v) => Ok(v.diagnosis)
  }

  /** `b` asks for everything that `a` asks for. */
  ghost predicate AsksMore(a: Request, b: Request) {
    && (forall n :: n in a.probes ==> n in b.probes)
    && (forall w :: w in a.interventions ==> w in b.interventions)
  }

  /** Growing requests about one world, each of which `observe` answers. */
  ghost predicate GrowingRequests(r: CandidateRegistry, worldId: string, run: seq<Request>) {
    && (forall i :: 0 <= i < |run| ==> Ask(r, worldId)(run[i]).Ok?)
    && (forall i :: 0 < i < |run| ==> AsksMore(run[i - 1], run[i]))
  }

  /** What a run of requests reports, given how each is answered. */
  ghost function Answered(ask: Request -> Result<Evidence, LookupError>, run: seq<Request>): seq<Evidence>
    requires forall i :: 0 <= i < |run| ==> ask(run[i]).Ok?
  {
    seq(|run|, i requires 0 <= i < |run| => ask(run[i]).value)
  }

  lemma ReadingsGrow<S, T>(a: seq<S>, b: seq<S>, f: S -> T, y: T)
    requires (forall x :: x in a ==> x in b) && y in Apply(a, f)
    ensures y in Apply(b, f)
  {
    var i :| 0 <= i < |a| && Apply(a, f)[i] == y;
    assert a[i] in b;
    var j :| 0 <= j < |b| && b[j] == a[i];
    assert Apply(b, f)[j] == y;
  }

  /** More is asked, more is seen. */
  lemma MoreIsSeen(r: CandidateRegistry, worldId: string, a: Request, b: Request)
    requires Ask(r, worldId)(a).Ok? && Ask(r, worldId)(b).Ok? && AsksMore(a, b)
    ensures Extends(Ask(r, worldId)(a).value, Ask(r, worldId)(b).value)
  {
    var c := FindCandidate(r.candidates, worldId).value;
    var e, e' := Ask(r, worldId)(a).value, Ask(r, worldId)(b).value;
    forall p | p in e.probes ensures p in e'.probes {
      ReadingsGrow(a.probes, b.probes, ProbeReading(c), p);
    }
    forall o | o in e.interventions ensures o in e'.interventions {
      ReadingsGrow(a.interventions, b.interventions, ReceiptReading(c), o);
    }
  }

  /** The completion behind a world's name. */
  function TruthOf(r: CandidateRegistry, worldId: string): Completion
    requires FindCandidate(r.candidates, worldId).Some?
  {
    AsCompletion(FindCandidate(r.candidates, worldId).value)
  }

  lemma AnswerIsTrue(r: CandidateRegistry, worldId: string, q: Request)
    requires ExactRegistry(r) && Ask(r, worldId)(q).Ok? && FindCandidate(r.candidates, worldId).Some?
    ensures Matches(TruthOf(r, worldId), Ask(r, worldId)(q).value)
  {
    ObservationsMatch(r, worldId, q.probes, q.interventions);
  }

  lemma AnswersFormARun(ask: Request -> Result<Evidence, LookupError>, truth: Completion, run: seq<Request>)
    requires forall i :: 0 <= i < |run| ==> ask(run[i]).Ok? && Matches(truth, ask(run[i]).value)
    requires forall i :: 0 < i < |run| ==> Extends(ask(run[i - 1]).value, ask(run[i]).value)
    ensures ObservationRun(truth, Answered(ask, run))
  {
  }

  lemma RequestsFormARun(r: CandidateRegistry, worldId: string, run: seq<Request>)
    requires ExactRegistry(r) && GrowingRequests(r, worldId, run) && FindCandidate(r.candidates, worldId).Some?
    ensures ObservationRun(TruthOf(r, worldId), Answered(Ask(r, worldId), run))
  {
    var truth, ask := TruthOf(r, worldId), Ask(r, worldId);
    forall i | 0 <= i < |run| ensures ask(run[i]).Ok? && Matches(truth, ask(run[i]).value) {
      AnswerIsTrue(r, worldId, run[i]);
    }
    forall i | 0 < i < |run| ensures Extends(ask(run[i - 1]).value, ask(run[i]).value) {
      MoreIsSeen(r, worldId, run[i - 1], run[i]);
    }
    AnswersFormARun(ask, truth, run);
  }

  lemma TruthIsRegistered(r: CandidateRegistry, worldId: string)
    requires FindCandidate(r.candidates, worldId).Some?
    ensures TruthOf(r, worldId) in Apply(r.candidates, AsCompletion)
  {
    var c := FindCandidate(r.candidates, worldId).value;
    var i :| 0 <= i < |r.candidates| && r.candidates[i] == c;
    assert Apply(r.candidates, AsCompletion)[i] == AsCompletion(c);
  }

  lemma AnswerIsLicensed(r: CandidateRegistry, worldId: string, q: Request)
    requires ExactRegistry(r) && Ask(r, worldId)(q).Ok?
    ensures DiagnosisOf(r, worldId)(q).Ok?
    ensures LicensedBy(Apply(r.candidates, AsCompletion), Ask(r, worldId)(q).value, DiagnosisOf(r, worldId)(q).value)
  {
    ObservedWorldIsAttributed(r, worldId, q.probes, q.interventions);
    AttributeIsLicensed(r, Ask(r, worldId)(q).value);
  }

  /** Growing requests about one registered world are all attributed, and the
      diagnosis changes at most once: from ambiguous to that world's own family. */
  lemma DiagnosisSettles(r: CandidateRegistry, worldId: string, run: seq<Request>, verdicts: seq<Diagnosis>)
    requires ExactRegistry(r) && GrowingRequests(r, worldId, run) && FindCandidate(r.candidates, worldId).Some?
    requires Apply(run, DiagnosisOf(r, worldId)) == Apply(verdicts, (d: Diagnosis) => Ok(d))
    ensures exists k: nat :: SettlesAt(k, verdicts, DefiniteFor(ProfileOf(TruthOf(r, worldId))))
  {
    var family, seen := Apply(r.candidates, AsCompletion), Answered(Ask(r, worldId), run);
    var answers := Apply(run, DiagnosisOf(r, worldId));
    TruthIsRegistered(r, worldId);
    RequestsFormARun(r, worldId, run);
    forall i | 0 <= i < |run| ensures LicensedBy(family, seen[i], verdicts[i]) {
      AnswerIsLicensed(r, worldId, run[i]);
      assert answers[i] == Ok(verdicts[i]);
    }
    DiagnosisChangesOnce(family, TruthOf(r, worldId), seen, verdicts);
  }

  /** No request is ever refused a diagnosis, so such verdicts exist. */
  lemma EveryRequestIsDiagnosed(r: CandidateRegistry, worldId: string, run: seq<Request>)
    returns (verdicts: seq<Diagnosis>)
    requires ExactRegistry(r) && GrowingRequests(r, worldId, run)
    ensures Apply(run, DiagnosisOf(r, worldId)) == Apply(verdicts, (d: Diagnosis) => Ok(d))
  {
    forall i | 0 <= i < |run| ensures DiagnosisOf(r, worldId)(run[i]).Ok? {
      AnswerIsLicensed(r, worldId, run[i]);
    }
    verdicts := seq(|run|, i requires 0 <= i < |run| => DiagnosisOf(r, worldId)(run[i]).value);
  }

  /** Asking for every non-empty subset of the atoms settles the diagnosis. */
  lemma FullRequestSettles(r: CandidateRegistry, worldId: string, q: Request)
    requires ExactRegistry(r) && Ask(r, worldId)(q).Ok? && FindCandidate(r.candidates, worldId).Some?
    requires forall w :: w in AllSubsets(AtomNames(r.manifest.atoms)) && w != [] ==> w in q.interventions
    ensures DiagnosisOf(r, worldId)(q) == Ok(DefiniteFor(ProfileOf(TruthOf(r, worldId))))
  {
    var atoms, family, e := r.manifest.atoms, Apply(r.candidates, AsCompletion), Ask(r, worldId)(q).value;
    AnswerIsLicensed(r, worldId, q);
    FullRequestReveals(r, worldId, q);
    FamilyIsGenuine(r);
    FullEvidenceDecides(atoms, family, e, DiagnosisOf(r, worldId)(q).value);
    ObservedWorldIsAttributed(r, worldId, q.probes, q.interventions);
  }

  lemma FamilyIsGenuine(r: CandidateRegistry)
    requires ExactRegistry(r)
    ensures forall c :: c in Apply(r.candidates, AsCompletion) ==> Genuine(r.manifest.atoms, c)
  {
    var family := Apply(r.candidates, AsCompletion);
    forall c | c in family ensures Genuine(r.manifest.atoms, c) {
      var i :| 0 <= i < |family| && family[i] == c;
      assert r.candidates[i] in r.candidates;
    }
  }

  lemma FullRequestReveals(r: CandidateRegistry, worldId: string, q: Request)
    requires Ask(r, worldId)(q).Ok?
    requires forall w :: w in AllSubsets(AtomNames(r.manifest.atoms)) && w != [] ==> w in q.interventions
    ensures RevealsEverySubset(r.manifest.atoms, Ask(r, worldId)(q).value)
  {
    var e := Ask(r, worldId)(q).value;
    forall w | w in AllSubsets(AtomNames(r.manifest.atoms)) && w != []
      ensures exists o :: o in e.interventions && o.interventions == w
    {
      var i :| 0 <= i < |q.interventions| && q.interventions[i] == w;
      assert e.interventions[i].interventions == w;
    }
  }
}
