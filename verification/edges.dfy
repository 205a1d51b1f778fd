/** Rising edges of a boolean observed once per frame: the transition from
    false at the previous frame to true at this one. */
module Edges {

  /** Rising edges of a run of observations, counted against the value before the run. */
  function RisingCount(was: bool, observed: seq<bool>): nat
    decreases |observed|
  {
    if |observed| == 0 then 0
    else (if observed[0] && !was then 1 else 0) + RisingCount(observed[0], observed[1..])
  }

  /** A condition held over k consecutive frames rises once if it was false
      before the run, and never if it was already true. */
  lemma {:induction false} SustainedRisesOnce(was: bool, observed: seq<bool>)
    requires |observed| > 0
    requires forall i :: 0 <= i < |observed| ==> observed[i]
    ensures RisingCount(was, observed) == if was then 0 else 1
    decreases |observed|
  {
    if |observed| > 1 {
      SustainedRisesOnce(true, observed[1..]);
    } else {
      assert observed[1..] == [];
    }
  }
}
