/** The form checks of the controller: `_validInputs` and `_povInputs`,
    and the way the create and edit flows combine them for each kind of
    workout. */
module Validation {
  import opened Numbers

  /** `_validInputs(...inputs)`: `inputs.every(Number.isFinite)`. */
  function ValidInputs(inputs: seq<Num>): (ok: bool)
    ensures ok <==> forall i :: 0 <= i < |inputs| ==> IsFinite(inputs[i])
  {
    inputs == [] || (IsFinite(inputs[0]) && ValidInputs(inputs[1..]))
  }

  /** `_povInputs(...inputs)`: `inputs.every(inp => inp > 0)`. */
  function PovInputs(inputs: seq<Num>): (ok: bool)
    ensures ok <==> forall i :: 0 <= i < |inputs| ==> IsPositive(inputs[i])
  {
    inputs == [] || (IsPositive(inputs[0]) && PovInputs(inputs[1..]))
  }

  /** The running form's rule: all three values finite and all three
      positive. */
  function RunningAccepted(distance: Num, duration: Num, cadence: Num): (ok: bool)
    ensures ok <==> (distance.Finite? && distance.value > 0.0
                     && duration.Finite? && duration.value > 0.0
                     && cadence.Finite? && cadence.value > 0.0)
  {
    var inputs := [distance, duration, cadence];
    assert inputs[0] == distance && inputs[1] == duration && inputs[2] == cadence;
    ValidInputs(inputs) && PovInputs(inputs)
  }

  /** The cycling form's rule: all three values finite, but only distance
      and duration positive; any finite elevation, negative included, is
      accepted. */
  function CyclingAccepted(distance: Num, duration: Num, elevation: Num): (ok: bool)
    ensures ok <==> (distance.Finite? && distance.value > 0.0
                     && duration.Finite? && duration.value > 0.0
                     && elevation.Finite?)
  {
    var inputs := [distance, duration, elevation];
    assert inputs[0] == distance && inputs[1] == duration && inputs[2] == elevation;
    ValidInputs(inputs) && PovInputs(inputs[..2])
  }

  /** The two rules differ only in the metric's sign: with the same finite
      positive distance and duration, a cycling form accepts a metric that
      the running form rejects exactly when that metric is not positive. */
  lemma CyclingAcceptsWhatRunningRejects(distance: Num, duration: Num, metric: Num)
    requires CyclingAccepted(distance, duration, metric)
    ensures RunningAccepted(distance, duration, metric) <==> metric.value > 0.0
  {
  }
}
