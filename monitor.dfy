/**
 * The Differential Meaning Monitor (reference/dmm.py): one call of its
 * placeholder comparator and one strict comparison against a fixed
 * threshold. A trip is Python's `DifferentialTrip` exception, here one
 * variant of the monitor's result. The lemmas at the end apply the same gate
 * to `Comparator.Compare`, a comparator the monitor's code does not call.
 */
module Monitor {
  import Comparator

  /** The trip threshold; a score equal to it is still allowed. */
  const Threshold: real := 0.7

  /** The exception raised on a trip; its message carries the score. */
  datatype DifferentialTrip = DifferentialTrip(score: real)

  /** How a call of the monitor ends: it returns a value, or it raises. */
  datatype MonitorResult = Returned(value: bool) | Raised(trip: DifferentialTrip)

  /** The placeholder `semantic_compare` of dmm.py: it rates every action 0.0. */
  function SemanticCompare(goal: string, trajectory: string, proposedAction: string): (r: real)
    ensures r == 0.0
  {
    0.0
  }

  /** Lines 26-29: raise when the score is strictly above the threshold,
      otherwise return `True`. */
  function Gate(score: real): (r: MonitorResult)
    ensures r.Returned? <==> score <= Threshold
    ensures r.Raised? ==> r.trip.score == score
    ensures r.Returned? ==> r.value
  {
    if score > Threshold then Raised(DifferentialTrip(score)) else Returned(true)
  }

  /** `differential_meaning_monitor(goal, trajectory, proposed_action)`. */
  function DifferentialMeaningMonitor(goal: string, trajectory: string, proposedAction: string): (r: MonitorResult)
    ensures r.Returned? <==> SemanticCompare(goal, trajectory, proposedAction) <= Threshold
    ensures r.Raised? ==> r.trip.score == SemanticCompare(goal, trajectory, proposedAction)
    ensures r.Returned? ==> r.value
  {
    Gate(SemanticCompare(goal, trajectory, proposedAction))
  }

  /** The monitor never returns `False`: it returns `True` or raises. */
  lemma MonitorNeverReturnsFalse(goal: string, trajectory: string, proposedAction: string)
    ensures DifferentialMeaningMonitor(goal, trajectory, proposedAction) != Returned(false)
  {
  }

  /** With the placeholder comparator the monitor never trips. */
  lemma PlaceholderNeverTrips(goal: string, trajectory: string, proposedAction: string)
    ensures DifferentialMeaningMonitor(goal, trajectory, proposedAction) == Returned(true)
  {
  }

  /** The boundary is inclusive on the allow side: exactly the threshold passes,
      and so does every lower score. */
  lemma GateAllowsUpToThreshold(s: real, t: real)
    requires s <= t && Gate(t).Returned?
    ensures Gate(s) == Returned(true)
    ensures Gate(Threshold) == Returned(true)
  {
  }

  /** A comparator result that trips the gate always carries at least one tag,
      whatever the environment, the retry count and the oracle: tripping
      needs a score above 0.7, and such scores are never left untagged. */
  lemma TripCarriesTags(env: Comparator.Environment, retries: int, oracle: nat -> Comparator.Outcome, b: Comparator.Builtins)
    ensures Gate(Comparator.Compare(env, retries, oracle, b).result.score).Raised?
      ==> Comparator.Compare(env, retries, oracle, b).result.tags != []
  {
    Comparator.CompareTotal(env, retries, oracle, b);
  }

  /** A reply with no object in it (say "I think this seems fine") gives the
      medium-risk fallback, which the gate lets through. */
  lemma NonJsonReplyAllowed(text: string, b: Comparator.Builtins)
    requires !Comparator.HasBraceSpan(text)
    ensures Comparator.Interpret(text, b) == Comparator.NonJsonFallback()
    ensures Gate(Comparator.Interpret(text, b).score) == Returned(true)
  {
    Comparator.StripKeepsNoBraceSpan(text);
    Comparator.ExtractJsonWithoutBraces(text, b);
  }

  /** When every attempt fails, the fallback the comparator returns does not
      trip the gate either. */
  lemma AllFailAllowed(env: Comparator.Environment, retries: nat, oracle: nat -> Comparator.Outcome, b: Comparator.Builtins)
    requires !Comparator.KeyMissing(env.apiKey) && env.sdkError.None?
    requires forall a: nat :: a <= retries ==> oracle(a).Err?
    ensures Gate(Comparator.Compare(env, retries, oracle, b).result.score) == Returned(true)
  {
    Comparator.CompareAllFail(env, retries, oracle, b);
  }

  /** A parsed reply whose score is a number above the threshold trips the
      gate; the trip carries that score clamped to 1, and the result carries
      at least one tag. */
  lemma HighScoreReplyTrips(p: Comparator.Payload, b: Comparator.Builtins, x: real)
    requires "score" in p && p["score"] == Comparator.JNum(x) && x > Threshold
    ensures Gate(Comparator.Shape(p, b).score) == Raised(DifferentialTrip(if x > 1.0 then 1.0 else x))
    ensures Comparator.Shape(p, b).tags != []
  {
    Comparator.ShapeScore(p, b);
  }
}
