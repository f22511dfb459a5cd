/**
 * Sequences of events on one controller and what they add up to: what the
 * quiz promises across several clicks and timer firings.
 */
module QuizScenarios {
  import opened Steps
  import opened Choices
  import opened Loading
  import opened QuizFlow

  /**
   * Two clicks on the same multi-select button restore every button, and
   * the stored answer is again the step's selected values in page order.
   */
  method ToggleTwice(q: QuizController, i: nat)
    requires q.Valid() && q.showing && i < |q.OptionsOf(q.currentStep)|
    modifies q`options, q`continueDisabled, q`pathScores, q`answers
    ensures q.Valid()
    ensures q.options == old(q.options)
    ensures q.answers == old(q.answers)[old(q.currentStep) := Multi(SelectedValues(old(q.OptionsOf(q.currentStep))))]
    ensures q.continueDisabled == if old(q.currentStep) in old(q.continueDisabled)
      then old(q.continueDisabled)[old(q.currentStep) := SelectedCount(old(q.OptionsOf(q.currentStep))) == 0]
      else old(q.continueDisabled)
    ensures q.pathScores == if old(q.currentStep) == RoutingStep then Tally(old(q.OptionsOf(RoutingStep))) else old(q.pathScores)
  {
    ghost var orig := q.OptionsOf(q.currentStep);
    q.MultiSelect(i);
    ToggledCount(orig, i);
    q.MultiSelect(i);
    ToggledTwice(orig, i);
  }

  /**
   * A single-select click and the firing of the timer it scheduled: the user
   * lands on the clicked button's target if that step exists, the step left
   * is recorded, and the clicked button is the only one selected.
   */
  method SelectAndAdvance(q: QuizController, i: nat)
    requires q.Valid() && q.showing && i < |q.OptionsOf(q.currentStep)|
    modifies q
    ensures q.Valid()
    ensures var next := old(q.OptionsOf(q.currentStep))[i].next;
      q.currentStep == if next in q.steps then next else old(q.currentStep)
    ensures q.stepHistory == old(q.stepHistory) + [old(q.currentStep)]
    ensures q.answers == old(q.answers)[old(q.currentStep) := Single(old(q.OptionsOf(q.currentStep))[i].value)]
    ensures q.options == old(q.options)[old(q.currentStep) := SelectOnly(old(q.OptionsOf(q.currentStep)), i)]
    ensures SelectedCount(q.OptionsOf(old(q.currentStep))) == 1
    ensures q.NavigationEffects(old(q.OptionsOf(q.currentStep))[i].next)
    ensures q.pending == old(q.pending)
    ensures unchanged(q`selectedPath, q`pathScores, q`continueDisabled, q`loadingBarA, q`loadingBarB)
  {
    q.SingleSelect(i);
    q.FireTimer(|q.pending| - 1);
  }

  /** The bar a run drives. */
  function BarOf(q: QuizController, step: StepId): LoadingPhase
    reads q
  {
    if ForPathA(step) then q.loadingBarA else q.loadingBarB
  }

  /**
   * A loading run that has shown nothing yet, ticked four times: its bar
   * shows 33, 66 and 100 in turn, then the run stops and the results step
   * of its path is scheduled.
   */
  method RunLoading(q: QuizController, k: nat) returns (shown: seq<nat>)
    requires q.Valid() && k < |q.loadingRuns| && q.loadingRuns[k].phase == 0
    modifies q`loadingRuns, q`loadingBarA, q`loadingBarB, q`pending
    ensures q.Valid()
    ensures shown == [33, 66, 100]
    ensures q.loadingRuns == old(q.loadingRuns)[..k] + old(q.loadingRuns)[k + 1..]
    ensures q.pending == old(q.pending) + [ResultsStep(old(q.loadingRuns[k]).step)]
    ensures BarOf(q, old(q.loadingRuns[k]).step) == LoadingPhases[2]
    ensures ForPathA(old(q.loadingRuns[k]).step) ==> q.loadingBarB == old(q.loadingBarB)
    ensures !ForPathA(old(q.loadingRuns[k]).step) ==> q.loadingBarA == old(q.loadingBarA)
  {
    var step := q.loadingRuns[k].step;
    q.Tick(k);
    shown := [BarOf(q, step).progress];
    q.Tick(k);
    shown := shown + [BarOf(q, step).progress];
    q.Tick(k);
    shown := shown + [BarOf(q, step).progress];
    q.Tick(k);
  }
}
