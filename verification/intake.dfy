/** The submission step of the intake form (bono-pad/src/App.js): resolve the selected
    surgery to its rule set and evaluate the case, or ask for review when no rule set
    matches. Form validation, the clock and storage are not part of this model. */
module Intake {
  import opened Options
  import opened Text
  import opened Evaluate
  import opened EvaluateProperties
  import opened PadRules

  const MissingSurgery := "Falta selección de cirugía"

  /** The decision recorded for a submitted case. */
  function Outcome(cirugia: Option<string>, payload: Payload): (d: Decision)
    ensures |d.reasons| >= 1
  {
    match MapCirugiaKey(cirugia)
    case None => Decision(Revision, [MissingSurgery])
    case Some(key) => Decide(Catalogue[key], payload)
  }

  /** Runs the evaluator on the rule set of the selected surgery. */
  method Submit(cirugia: Option<string>, payload: Payload) returns (d: Decision)
    ensures MapCirugiaKey(cirugia).None? ==> d == Decision(Revision, [MissingSurgery])
    ensures MapCirugiaKey(cirugia).Some? ==> d == Decide(Catalogue[MapCirugiaKey(cirugia).value], payload)
    ensures d == Outcome(cirugia, payload)
  {
    var key := MapCirugiaKey(cirugia);
    d := Decision(Revision, [MissingSurgery]);
    if key.Some? {
      d := EvaluateCase(Catalogue[key.value], payload);
    }
  }

  /** Whichever way a case goes, CUMPLE comes with the sentinel reason alone and the
      sentinel reason alone only with CUMPLE. */
  lemma OutcomeCumpleIffSentinel(cirugia: Option<string>, payload: Payload)
    ensures Outcome(cirugia, payload).status == Cumple <==>
      Outcome(cirugia, payload).reasons == [Sentinel]
  {
    match MapCirugiaKey(cirugia)
    case None =>
      assert MissingSurgery[0] != Sentinel[0];
    case Some(key) =>
      CumpleIffSentinel(Catalogue[key], payload);
  }

  /** The letter case of the surgery label does not change the decision. */
  lemma OutcomeIgnoresCase(cirugia: string, payload: Payload)
    ensures Outcome(Some(cirugia), payload) == Outcome(Some(Lower(cirugia)), payload)
  {
    ResolutionIgnoresCase(cirugia);
  }
}
