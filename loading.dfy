/**
 * The loading animation shown on the loading step of each path: an
 * interval timer that shows three phases and then sends the user to the
 * path's results step. A tick is one firing of that interval.
 */
module Loading {
  import opened Steps

  /** What the loading bar and its caption show during one phase. */
  datatype LoadingPhase = LoadingPhase(progress: nat, text: string)

  const LoadingPhases: seq<LoadingPhase> := [
    LoadingPhase(33, "Matching responses to research..."),
    LoadingPhase(66, "Reviewing clinical data..."),
    LoadingPhase(100, "Building personalized recommendation...")
  ]

  /** A running loading animation: the loading step that started it and how many phases it has shown. */
  datatype LoadingRun = LoadingRun(step: StepId, phase: nat)

  /** What one tick does: show the next phase, or stop and schedule the results step. */
  datatype TickOutcome = Show(shown: LoadingPhase, run: LoadingRun) | Finish(target: StepId)

  function TickRun(r: LoadingRun): (o: TickOutcome)
    requires r.phase <= |LoadingPhases|
    ensures o.Show? <==> r.phase < |LoadingPhases|
    ensures o.Show? ==> o.run.step == r.step && o.run.phase == r.phase + 1 && o.shown.progress <= 100
    ensures o.Finish? ==> o.target == ResultsStep(r.step)
  {
    if r.phase < |LoadingPhases| then Show(LoadingPhases[r.phase], r.(phase := r.phase + 1))
    else Finish(ResultsStep(r.step))
  }

  /** The progress values a run still shows before it finishes. */
  function Emitted(r: LoadingRun): (ws: seq<nat>)
    requires r.phase <= |LoadingPhases|
    ensures |ws| == |LoadingPhases| - r.phase
    decreases |LoadingPhases| - r.phase
  {
    match TickRun(r)
    case Show(ph, next) => [ph.progress] + Emitted(next)
    case Finish(_) => []
  }

  /**
   * A fresh run shows 33, 66 and 100 in that order, exactly three updates, and
   * its next tick schedules the results step of the loading step's path.
   */
  lemma {:induction false} LoadingSequence(step: StepId)
    ensures Emitted(LoadingRun(step, 0)) == [33, 66, 100]
    ensures TickRun(LoadingRun(step, 3)) == Finish(ResultsStep(step))
  {
    var r3 := LoadingRun(step, 3);
    assert Emitted(r3) == [];
    assert Emitted(LoadingRun(step, 2)) == [100] + Emitted(r3);
    assert Emitted(LoadingRun(step, 1)) == [66] + Emitted(LoadingRun(step, 2));
  }

  /** Whatever phase a run is in, the values it still shows strictly increase. */
  lemma {:induction false} EmittedIncreases(r: LoadingRun, i: nat, j: nat)
    requires r.phase <= |LoadingPhases|
    requires i < j < |Emitted(r)|
    ensures Emitted(r)[i] < Emitted(r)[j]
    decreases |LoadingPhases| - r.phase
  {
    var next := TickRun(r).run;
    if i == 0 {
      assert Emitted(r)[0] == LoadingPhases[r.phase].progress;
      assert Emitted(r)[j] == Emitted(next)[j - 1];
      if j == 1 {
        assert Emitted(next)[0] == LoadingPhases[r.phase + 1].progress;
      } else {
        EmittedIncreases(next, 0, j - 1);
        assert Emitted(next)[0] == LoadingPhases[r.phase + 1].progress;
      }
    } else {
      EmittedIncreases(next, i - 1, j - 1);
    }
  }
}
