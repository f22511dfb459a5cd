/**
 * The quiz-flow controller: the session record of the quiz (current step,
 * chosen path, path scores, answers, visited steps) together with an
 * abstract view of the page (which steps exist, the option buttons of each
 * step, the continue buttons, the progress bar, the chart registry, the
 * loading animations and the timers that will navigate later). Each event
 * handler of the page is a method.
 */
module QuizFlow {
  import opened Wrappers
  import opened Steps
  import opened Choices
  import opened Charts
  import opened Loading

  /** What a step's answer holds: the value of a single-select click or the selected values of a multi-select step. */
  datatype Answer = Single(value: string) | Multi(values: seq<string>)

  class QuizController {
    // the session record
    var currentStep: StepId
    var selectedPath: Option<Path>
    var pathScores: Scores
    var answers: map<StepId, Answer>
    var stepHistory: seq<StepId>

    // the view: the step blocks and canvases in the page
    const steps: set<StepId>
    const canvases: set<CanvasId>
    // option buttons of each step, in page order
    var options: map<StepId, seq<Choice>>
    // the disabled flag of each step that has a continue button
    var continueDisabled: map<StepId, bool>
    // whether the block of currentStep carries 'active' (otherwise no block does)
    var showing: bool
    var progressWidth: nat
    var charts: Registry
    // loading animations whose interval timer is running
    var loadingRuns: seq<LoadingRun>
    var loadingBarA: LoadingPhase
    var loadingBarB: LoadingPhase
    // targets of navigations scheduled with a timer that has not fired yet
    var pending: seq<StepId>

    ghost predicate Valid()
      reads this
    {
      && options.Keys <= steps
      && continueDisabled.Keys <= steps
      && (showing ==> currentStep in steps)
      && charts.Keys <= canvases
      && progressWidth <= 100
      && (forall r :: r in loadingRuns ==> r.phase <= |LoadingPhases| && IsLoadingStep(r.step))
    }

    /** The option buttons of a step; a step without any has none. */
    function OptionsOf(step: StepId): seq<Choice>
      reads this
    {
      if step in options then options[step] else []
    }

    /** The path scores agree with the live selection of the routing step. */
    ghost predicate ScoresCurrent()
      reads this
    {
      pathScores == Tally(OptionsOf(RoutingStep))
    }

    /** What navigating to target does to the record and the view. */
    twostate predicate NavigationEffects(target: StepId)
      reads this
    {
      && stepHistory == old(stepHistory) + [old(currentStep)]
      && showing == (target in steps)
      && (target in steps ==>
            && currentStep == target
            && progressWidth == Progress(target)
            && charts == AfterVisit(old(charts), canvases, target)
            && loadingRuns == old(loadingRuns) + (if IsLoadingStep(target) then [LoadingRun(target, 0)] else []))
      && (target !in steps ==>
            && currentStep == old(currentStep)
            && progressWidth == old(progressWidth)
            && charts == old(charts)
            && loadingRuns == old(loadingRuns))
    }

    /** The quiz record as the page declares it, over the given page. */
    constructor (steps: set<StepId>, options: map<StepId, seq<Choice>>,
                 continueDisabled: map<StepId, bool>, canvases: set<CanvasId>)
      requires options.Keys <= steps && continueDisabled.Keys <= steps
      ensures Valid()
      ensures currentStep == "step1" && selectedPath == None && pathScores == Scores(0, 0)
      ensures answers == map[] && stepHistory == []
      ensures this.steps == steps && this.canvases == canvases
      ensures this.options == options && this.continueDisabled == continueDisabled
      ensures !showing && progressWidth == 0 && charts == map[] && loadingRuns == [] && pending == []
      ensures loadingBarA == LoadingPhase(0, "") && loadingBarB == LoadingPhase(0, "")
    {
      currentStep := "step1";
      selectedPath := None;
      pathScores := Scores(0, 0);
      answers := map[];
      stepHistory := [];
      this.steps := steps;
      this.canvases := canvases;
      this.options := options;
      this.continueDisabled := continueDisabled;
      showing := false;
      progressWidth := 0;
      charts := map[];
      loadingRuns := [];
      loadingBarA := LoadingPhase(0, "");
      loadingBarB := LoadingPhase(0, "");
      pending := [];
    }

    /** Page load: show the first step and set the progress bar. */
    method Load()
      requires Valid() && !showing
      modifies this`currentStep, this`showing, this`progressWidth
      ensures Valid()
      ensures showing == ("step1" in steps)
      ensures currentStep == if "step1" in steps then "step1" else old(currentStep)
      ensures progressWidth == Progress(currentStep)
    {
      ShowStep("step1");
      UpdateProgress();
    }

    /** Shows a step without recording history; a step that does not exist changes nothing. */
    method ShowStep(id: StepId)
      requires Valid() && !showing
      modifies this`currentStep, this`showing
      ensures Valid()
      ensures id in steps ==> currentStep == id && showing
      ensures id !in steps ==> currentStep == old(currentStep) && !showing
    {
      if id in steps {
        showing := true;
        currentStep := id;
      }
    }

    /** Sets the progress bar from the table, 0 for a step it does not know. */
    method UpdateProgress()
      requires Valid()
      modifies this`progressWidth
      ensures Valid()
      ensures progressWidth == Progress(currentStep)
    {
      progressWidth := Progress(currentStep);
    }

    /** A click on button i of the shown single-select step. */
    method SingleSelect(i: nat)
      requires Valid() && showing && i < |OptionsOf(currentStep)|
      modifies this`options, this`answers, this`pending
      ensures Valid()
      ensures options == old(options)[currentStep := SelectOnly(old(OptionsOf(currentStep)), i)]
      ensures SelectedCount(OptionsOf(currentStep)) == 1
      ensures forall k :: 0 <= k < |OptionsOf(currentStep)| ==> (OptionsOf(currentStep)[k].selected <==> k == i)
      ensures answers == old(answers)[currentStep := Single(old(OptionsOf(currentStep))[i].value)]
      ensures pending == old(pending) + [old(OptionsOf(currentStep))[i].next]
    {
      var step := currentStep;
      var cs := OptionsOf(step);
      ghost var orig := cs;
      var j := 0;
      while j < |cs|
        invariant 0 <= j <= |cs| && |cs| == |orig|
        invariant forall k :: 0 <= k < j ==> cs[k] == orig[k].(selected := false)
        invariant forall k :: j <= k < |cs| ==> cs[k] == orig[k]
      {
        cs := cs[j := cs[j].(selected := false)];
        j := j + 1;
      }
      cs := cs[i := cs[i].(selected := true)];
      assert cs == SelectOnly(orig, i);
      SelectOnlyIsExclusive(orig, i);
      options := options[step := cs];
      answers := answers[step := Single(cs[i].value)];
      pending := pending + [cs[i].next];
    }

    /** A click on button i of the shown multi-select step. */
    method MultiSelect(i: nat)
      requires Valid() && showing && i < |OptionsOf(currentStep)|
      modifies this`options, this`continueDisabled, this`pathScores, this`answers
      ensures Valid()
      ensures options == old(options)[currentStep := Toggled(old(OptionsOf(currentStep)), i)]
      ensures continueDisabled == if currentStep in old(continueDisabled)
        then old(continueDisabled)[currentStep := SelectedCount(OptionsOf(currentStep)) == 0]
        else old(continueDisabled)
      ensures pathScores == if currentStep == RoutingStep then Tally(OptionsOf(RoutingStep)) else old(pathScores)
      ensures currentStep == RoutingStep || old(ScoresCurrent()) ==> ScoresCurrent()
      ensures answers == old(answers)[currentStep := Multi(SelectedValues(OptionsOf(currentStep)))]
    {
      var step := currentStep;
      var cs := OptionsOf(step);
      cs := cs[i := cs[i].(selected := !cs[i].selected)];
      options := options[step := cs];
      if step in continueDisabled {
        continueDisabled := continueDisabled[step := SelectedCount(cs) == 0];
      }
      if step == RoutingStep {
        UpdatePathScores();
      }
      answers := answers[step := Multi(SelectedValues(cs))];
    }

    /** Recounts the path scores from the routing step's selected buttons. */
    method UpdatePathScores()
      requires Valid() && RoutingStep in steps
      modifies this`pathScores
      ensures Valid()
      ensures ScoresCurrent()
    {
      pathScores := Scores(0, 0);
      var cs := OptionsOf(RoutingStep);
      var j := 0;
      while j < |cs|
        invariant 0 <= j <= |cs|
        invariant pathScores == Tally(cs[..j])
      {
        var c := cs[j];
        if c.selected {
          if c.path == "A" {
            pathScores := pathScores.(a := pathScores.a + 1);
          } else if c.path == "B" {
            pathScores := pathScores.(b := pathScores.b + 1);
          }
        }
        assert cs[..j + 1][..j] == cs[..j];
        j := j + 1;
      }
      assert cs[..j] == cs;
    }

    /** Chooses the path from the scores, a tie going to A, and enters it. */
    method RouteToPath()
      requires Valid()
      modifies this
      ensures Valid()
      ensures selectedPath == Some(Route(old(pathScores)))
      ensures NavigationEffects(PathEntry(Route(old(pathScores))))
      ensures unchanged(this`pathScores, this`answers, this`options, this`continueDisabled)
      ensures unchanged(this`pending, this`loadingBarA, this`loadingBarB)
    {
      if pathScores.a > pathScores.b {
        selectedPath := Some(A);
        NavigateTo("step3a");
      } else if pathScores.b > pathScores.a {
        selectedPath := Some(B);
        NavigateTo("step3b");
      } else {
        selectedPath := Some(A);
        NavigateTo("step3a");
      }
    }

    /** The continue button of a step without its own target: store the selection, then follow the table. */
    method HandleContinue()
      requires Valid() && showing
      modifies this
      ensures Valid()
      ensures answers == old(answers)[old(currentStep) := Multi(SelectedValues(old(OptionsOf(currentStep))))]
      ensures NextStep(old(currentStep)).Some? ==> NavigationEffects(NextStep(old(currentStep)).value)
      ensures NextStep(old(currentStep)).None? ==>
        unchanged(this`currentStep, this`stepHistory, this`showing, this`progressWidth, this`charts, this`loadingRuns)
      ensures unchanged(this`selectedPath, this`pathScores, this`options, this`continueDisabled)
      ensures unchanged(this`pending, this`loadingBarA, this`loadingBarB)
    {
      var step := currentStep;
      answers := answers[step := Multi(SelectedValues(OptionsOf(step)))];
      var next := NextStep(step);
      if next.Some? {
        NavigateTo(next.value);
      }
    }

    /**
     * A click on the shown step's continue button, which the page only
     * delivers while the button is enabled: its own data-next if it has a
     * non-empty one, the continue handler otherwise; the routing step's
     * button then also routes to a path.
     */
    method ClickContinue(dataNext: string, isRoutingButton: bool)
      requires Valid() && showing
      requires currentStep in continueDisabled ==> !continueDisabled[currentStep]
      modifies this
      ensures Valid()
      ensures dataNext != "" ==> answers == old(answers)
      ensures dataNext == "" ==> answers == old(answers)[old(currentStep) := Multi(SelectedValues(old(OptionsOf(currentStep))))]
      ensures !isRoutingButton && dataNext != "" ==> NavigationEffects(dataNext) && selectedPath == old(selectedPath)
      ensures !isRoutingButton && dataNext == "" && NextStep(old(currentStep)).Some? ==>
        NavigationEffects(NextStep(old(currentStep)).value)
      ensures !isRoutingButton && dataNext == "" && NextStep(old(currentStep)).None? ==>
        unchanged(this`currentStep, this`stepHistory, this`showing, this`progressWidth, this`charts, this`loadingRuns)
      ensures !isRoutingButton ==> selectedPath == old(selectedPath)
      ensures isRoutingButton ==> selectedPath == Some(Route(old(pathScores)))
      ensures isRoutingButton && dataNext == "" && NextStep(old(currentStep)).None? ==>
        NavigationEffects(PathEntry(Route(old(pathScores))))
      ensures isRoutingButton ==>
        |stepHistory| == |old(stepHistory)| + (if dataNext != "" || NextStep(old(currentStep)).Some? then 2 else 1)
      ensures isRoutingButton && PathEntry(Route(old(pathScores))) in steps ==>
        currentStep == PathEntry(Route(old(pathScores))) && showing && progressWidth == Progress(currentStep)
      ensures unchanged(this`pathScores, this`options, this`continueDisabled)
      ensures unchanged(this`pending, this`loadingBarA, this`loadingBarB)
    {
      if dataNext != "" {
        NavigateTo(dataNext);
      } else {
        HandleContinue();
      }
      if isRoutingButton {
        RouteToPath();
      }
    }

    /**
     * Hides the shown step, records the step being left, and, if the target
     * exists, shows it: progress bar, its chart, and its loading animation.
     */
    method NavigateTo(target: StepId)
      requires Valid()
      modifies this
      ensures Valid()
      ensures NavigationEffects(target)
      ensures unchanged(this`selectedPath, this`pathScores, this`answers, this`options, this`continueDisabled)
      ensures unchanged(this`pending, this`loadingBarA, this`loadingBarB)
    {
      stepHistory := stepHistory + [currentStep];
      showing := false;
      if target in steps {
        showing := true;
        currentStep := target;
        UpdateProgress();
        InitializeChartsForStep(target);
        if IsLoadingStep(target) {
          StartLoadingAnimation(target);
        }
      }
    }

    /** Requests the chart that the step shows, if it has one. */
    method InitializeChartsForStep(step: StepId)
      requires Valid()
      modifies this`charts
      ensures Valid()
      ensures charts == AfterVisit(old(charts), canvases, step)
    {
      var req := ChartFor(step);
      if req.Some? {
        CreateChart(req.value);
      }
    }

    /** Creates a chart unless its canvas is missing or it already exists. */
    method CreateChart(req: ChartRequest)
      requires Valid()
      modifies this`charts
      ensures Valid()
      ensures charts == Registered(old(charts), canvases, req)
      ensures req.canvas in old(charts) ==> charts == old(charts)
    {
      if req.canvas !in canvases || req.canvas in charts {
        return;
      }
      charts := charts[req.canvas := req.kind];
    }

    /** Starts the interval timer of a loading step's animation. */
    method StartLoadingAnimation(step: StepId)
      requires Valid() && IsLoadingStep(step)
      modifies this`loadingRuns
      ensures Valid()
      ensures loadingRuns == old(loadingRuns) + [LoadingRun(step, 0)]
    {
      loadingRuns := loadingRuns + [LoadingRun(step, 0)];
    }

    /**
     * One firing of the interval timer of loading run k: show the next phase,
     * or, after the last one, stop the timer and schedule the results step.
     */
    method Tick(k: nat)
      requires Valid() && k < |loadingRuns|
      modifies this`loadingRuns, this`loadingBarA, this`loadingBarB, this`pending
      ensures Valid()
      ensures match TickRun(old(loadingRuns[k]))
        case Show(shown, next) =>
          && loadingRuns == old(loadingRuns)[k := next]
          && (if ForPathA(next.step) then loadingBarA == shown && loadingBarB == old(loadingBarB)
              else loadingBarB == shown && loadingBarA == old(loadingBarA))
          && pending == old(pending)
        case Finish(target) =>
          && loadingRuns == old(loadingRuns)[..k] + old(loadingRuns)[k + 1..]
          && pending == old(pending) + [target]
          && loadingBarA == old(loadingBarA) && loadingBarB == old(loadingBarB)
    {
      var run := loadingRuns[k];
      var isPathA := ForPathA(run.step);
      if run.phase < |LoadingPhases| {
        var phase := LoadingPhases[run.phase];
        if isPathA {
          loadingBarA := phase;
        } else {
          loadingBarB := phase;
        }
        loadingRuns := loadingRuns[k := run.(phase := run.phase + 1)];
      } else {
        loadingRuns := loadingRuns[..k] + loadingRuns[k + 1..];
        pending := pending + [if isPathA then "resultsA" else "resultsB"];
      }
    }

    /** A scheduled navigation fires: the one at index k, whatever the user did since. */
    method FireTimer(k: nat)
      requires Valid() && k < |pending|
      modifies this
      ensures Valid()
      ensures pending == old(pending)[..k] + old(pending)[k + 1..]
      ensures NavigationEffects(old(pending)[k])
      ensures unchanged(this`selectedPath, this`pathScores, this`answers, this`options, this`continueDisabled)
      ensures unchanged(this`loadingBarA, this`loadingBarB)
    {
      var target := pending[k];
      pending := pending[..k] + pending[k + 1..];
      NavigateTo(target);
    }
  }
}
