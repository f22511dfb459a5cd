/**
 * Step identifiers of the quiz funnel and the fixed tables the controller
 * consults: the successor table used by the continue button, the progress
 * table, the routing rule between the two content paths and the order in
 * which each path visits its steps.
 */
module Steps {
  import opened Wrappers

  /** A step is identified by the id of its block in the page. */
  type StepId = string

  /** The two content paths a user can be routed down. */
  datatype Path = A | B

  /** Tagged-selection counts of the routing step, one per path. */
  datatype Scores = Scores(a: nat, b: nat)

  /** The multi-select step whose selections decide the path. */
  const RoutingStep: StepId := "step2"

  /** Successors used by the continue button of steps without their own target. */
  const NextStepMap: map<StepId, StepId> := map[
    "step4a" := "step4a-stats",
    "step5a" := "step5a-proof",
    "step6a" := "step7a",
    "step7a-achievability" := "step8a",
    "step4b" := "step4b-stats",
    "step5b" := "step5b-proof",
    "step6b" := "step7b",
    "step7b-achievability" := "step8b"
  ]

  /** Percentage of the progress bar for each step. */
  const ProgressMap: map<StepId, nat> := map[
    "step1" := 5,
    "step2" := 15,
    "step3a" := 25, "step3b" := 25,
    "step4a" := 35, "step4b" := 35,
    "step4a-stats" := 40, "step4b-stats" := 40,
    "step5a" := 50, "step5b" := 50,
    "step5a-proof" := 55, "step5b-proof" := 55,
    "step6a" := 65, "step6b" := 65,
    "step7a" := 75, "step7b" := 75,
    "step7a-achievability" := 80, "step7b-achievability" := 80,
    "step8a" := 90, "step8b" := 90,
    "loadingA" := 95, "loadingB" := 95,
    "resultsA" := 100, "resultsB" := 100
  ]

  /** The continue button's successor of a step, if the table has one. */
  function NextStep(step: StepId): (r: Option<StepId>)
    ensures r.Some? <==> step in NextStepMap
    ensures r.Some? ==> r.value in ProgressMap && r.value != step
  {
    if step in NextStepMap then Some(NextStepMap[step]) else None
  }

  /** The progress-bar percentage of a step; a step the table does not know shows 0. */
  function Progress(step: StepId): (p: nat)
    ensures p <= 100
    ensures step !in ProgressMap ==> p == 0
    ensures step in ProgressMap ==> p > 0
  {
    if step in ProgressMap then ProgressMap[step] else 0
  }

  /** The path the routing step's scores choose: the larger score wins, a tie goes to A. */
  function Route(s: Scores): (p: Path)
    ensures p == A <==> s.a >= s.b
    ensures p == B <==> s.b > s.a
  {
    if s.a > s.b then A
    else if s.b > s.a then B
    else A
  }

  /** The first step of a path, reached from the routing step. */
  function PathEntry(p: Path): StepId
  {
    match p
    case A => "step3a"
    case B => "step3b"
  }

  /** Whether entering a step starts the loading animation. */
  predicate IsLoadingStep(step: StepId)
  {
    step == "loadingA" || step == "loadingB"
  }

  /** Whether a loading step belongs to path A: loadingA does, every other step is taken as path B's. */
  predicate ForPathA(loadingStep: StepId)
  {
    loadingStep == "loadingA"
  }

  /** The results step a loading animation finishes in: path A's for loadingA, path B's otherwise. */
  function ResultsStep(loadingStep: StepId): (r: StepId)
    ensures r == "resultsA" || r == "resultsB"
    ensures r == "resultsA" <==> ForPathA(loadingStep)
    ensures Progress(r) == 100
  {
    if ForPathA(loadingStep) then "resultsA" else "resultsB"
  }

  /** The steps path A visits, from the first question to its results. */
  const ChainA: seq<StepId> := [
    "step1", "step2", "step3a", "step4a", "step4a-stats", "step5a", "step5a-proof",
    "step6a", "step7a", "step7a-achievability", "step8a", "loadingA", "resultsA"
  ]

  /** The steps path B visits, from the first question to its results. */
  const ChainB: seq<StepId> := [
    "step1", "step2", "step3b", "step4b", "step4b-stats", "step5b", "step5b-proof",
    "step6b", "step7b", "step7b-achievability", "step8b", "loadingB", "resultsB"
  ]

  function Chain(p: Path): seq<StepId>
  {
    match p
    case A => ChainA
    case B => ChainB
  }

  /** The percentages shown along either path, step by step. */
  const ChainLevels: seq<nat> := [5, 15, 25, 35, 40, 50, 55, 65, 75, 80, 90, 95, 100]

  lemma ChainProgressIsLevels(p: Path, k: nat)
    requires k < |Chain(p)|
    ensures Progress(Chain(p)[k]) == ChainLevels[k]
  {
    if k == 0 {} else if k == 1 {} else if k == 2 {} else if k == 3 {}
    else if k == 4 {} else if k == 5 {} else if k == 6 {} else if k == 7 {}
    else if k == 8 {} else if k == 9 {} else if k == 10 {} else if k == 11 {}
    else {}
  }

  lemma {:induction false} LevelsIncrease(i: nat, j: nat)
    requires i < j < |ChainLevels|
    ensures ChainLevels[i] < ChainLevels[j]
  {
    if j > i + 1 {
      LevelsIncrease(i, j - 1);
    }
  }

  /** The progress bar never goes back along either path: each later step shows strictly more. */
  lemma ChainProgressIncreases(p: Path, i: nat, j: nat)
    requires i < j < |Chain(p)|
    ensures Progress(Chain(p)[i]) < Progress(Chain(p)[j])
  {
    ChainProgressIsLevels(p, i);
    ChainProgressIsLevels(p, j);
    LevelsIncrease(i, j);
  }

  /** Every successor the continue table gives is the next step on the path it belongs to. */
  lemma NextStepFollowsChain(step: StepId)
    requires NextStep(step).Some?
    ensures exists p: Path, k: nat :: k + 1 < |Chain(p)| && Chain(p)[k] == step && Chain(p)[k + 1] == NextStep(step).value
  {
    var p, k;
    if step == "step4a" { p, k := A, 3; }
    else if step == "step5a" { p, k := A, 5; }
    else if step == "step6a" { p, k := A, 7; }
    else if step == "step7a-achievability" { p, k := A, 9; }
    else if step == "step4b" { p, k := B, 3; }
    else if step == "step5b" { p, k := B, 5; }
    else if step == "step6b" { p, k := B, 7; }
    else { p, k := B, 9; }
    assert k + 1 < |Chain(p)| && Chain(p)[k] == step && Chain(p)[k + 1] == NextStep(step).value;
  }

  /** Following the continue table always moves the progress bar forward. */
  lemma NextStepAdvancesProgress(step: StepId)
    requires NextStep(step).Some?
    ensures Progress(step) < Progress(NextStep(step).value)
  {
  }

  /** The routing step comes right before each path's entry, and each path ends in the results step its loading step leads to. */
  lemma ChainsMeetRouting(p: Path)
    ensures Chain(p)[1] == RoutingStep && Chain(p)[2] == PathEntry(p)
    ensures IsLoadingStep(Chain(p)[|Chain(p)| - 2])
    ensures ResultsStep(Chain(p)[|Chain(p)| - 2]) == Chain(p)[|Chain(p)| - 1]
  {
  }

  /** Only the two results steps fill the progress bar, and they have no successor. */
  lemma ResultsAreTerminal(step: StepId)
    ensures Progress(step) == 100 <==> step == "resultsA" || step == "resultsB"
    ensures (step == "resultsA" || step == "resultsB") ==> NextStep(step).None? && !IsLoadingStep(step)
  {
  }
}
