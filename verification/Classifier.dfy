/** How one worker run is scored against one truth case
    (src/witnessgap/workspace100/scoring.py:1889-1932). */
module Classifier {
  import opened Model
  import opened Attribution
  import opened WorkerRun
  import opened Truth
  import opened Scores
  import opened Slices

  predicate TruthIsAmbiguous(c: TruthCase) {
    c.certificate.diagnosis.kind == NotIdentifiable
  }

  /** `_classify_worker_run` and `_classify_participant_claim` */
  function Classify(run: RunOutcome, c: TruthCase): Category {
    var ambiguous := TruthIsAmbiguous(c);
    match run
    case Failed(_) => if ambiguous then FailedAmbiguous else FailedIdentifiable
    case Claimed(claim) =>
      if claim.kind == NotIdentifiable then
        if !ambiguous then MissedIdentifiable
        else if claim.unknownReason == Some(AmbiguousWorlds) then CorrectAbstention
        else WrongReasonAbstention
      else if ambiguous then DecisiveOnAmbiguous
      else if claim.targetFamily != c.certificate.diagnosis.targetFamily then WrongTarget
      else if claim.minimalWitnesses != c.minimalWitnesses then WrongWitness
      else ExactDecisive
  }

  /** The observation that a scored run contributes to the slices. */
  function Observe(run: RunOutcome, c: TruthCase): Observation {
    Observation(
      c.publicCase.view, c.publicCase.templateId, Classify(run, c),
      match run case Failed(f) => Some(f) case Claimed(_) => None)
  }

  predicate OnAmbiguous(k: Category) {
    k == FailedAmbiguous || k == CorrectAbstention || k == WrongReasonAbstention || k == DecisiveOnAmbiguous
  }

  predicate Decisive(k: Category) {
    k == ExactDecisive || k == WrongWitness || k == WrongTarget || k == DecisiveOnAmbiguous
  }

  /** The claim commits to a cause. */
  predicate Commits(run: RunOutcome) {
    run.Claimed? && run.claim.kind != NotIdentifiable
  }

  /** The claim states the truth: the cause with its repair, or the ambiguity. */
  predicate StatesTruth(run: RunOutcome, c: TruthCase) {
    && run.Claimed?
    && if TruthIsAmbiguous(c) then
         run.claim.kind == NotIdentifiable && run.claim.unknownReason == Some(AmbiguousWorlds)
       else
         && run.claim.kind != NotIdentifiable
         && run.claim.targetFamily == c.certificate.diagnosis.targetFamily
         && run.claim.minimalWitnesses == c.minimalWitnesses
  }

  /** The claim names the true target family, whatever repair it gives. */
  predicate NamesFamily(run: RunOutcome, c: TruthCase) {
    Commits(run) && run.claim.targetFamily == c.certificate.diagnosis.targetFamily
  }

  /** What the nine categories mean, read off the run and the truth alone: the
      counts behind every metric count what their names say. */
  lemma CategoriesMean(run: RunOutcome, c: TruthCase)
    ensures var k := Classify(run, c);
      && (OnAmbiguous(k) <==> TruthIsAmbiguous(c))
      && (Decisive(k) <==> Commits(run))
      && (k == FailedAmbiguous || k == FailedIdentifiable <==> run.Failed?)
      && (k == CorrectAbstention <==> TruthIsAmbiguous(c) && StatesTruth(run, c))
      && (k == ExactDecisive <==> !TruthIsAmbiguous(c) && StatesTruth(run, c))
      && (k == ExactDecisive || k == WrongWitness <==> !TruthIsAmbiguous(c) && NamesFamily(run, c))
      && (k == DecisiveOnAmbiguous <==> TruthIsAmbiguous(c) && Commits(run))
      && (Decisive(k) && k != ExactDecisive <==> Commits(run) && !StatesTruth(run, c))
      && Consistent(Observe(run, c))
  {
  }
}
