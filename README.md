# Nuora quiz funnel: the quiz-flow controller

This project models the decision logic of the Nuora quiz funnel, a browser
page that shows one quiz step at a time. The user answers single-select
questions, which advance on their own, and multi-select questions, which
advance through a continue button. The answers to the routing step
(`step2`) send the user down path A or path B. A loading animation then
leads to the path's results. The page also shows a few charts, each
created at most once.

The model is one class, `QuizFlow.QuizController`. It holds the session
record of `script.js` (`currentStep`, `selectedPath`, `pathScores`,
`answers`, `stepHistory`) together with an abstract view of the page:

- the step ids and canvas ids that exist;
- the option buttons of each step, in page order, with their `data-value`,
  `data-next` and `data-path` attributes and their `selected` flag;
- the disabled flag of each continue button;
- whether the current step's block is the one shown (`active`);
- the progress bar, the chart registry and the two loading bars;
- the loading animations whose interval timer is running;
- the navigations scheduled with `setTimeout` that have not fired yet.

Each event handler is a method that updates that state. Its `ensures`
clauses state the new state in terms of the old one and of pure functions
defined in the modules below:

- `Steps`: the successor table, the progress table, the routing rule and
  the order of steps along each path.
- `Choices`: exclusive selection, toggling, the selected values and the
  path tally.
- `Charts`: the chart each step asks for and the create-once registry.
- `Loading`: the three-phase loading sequence.

`QuizScenarios` chains several events together: two toggles of the same
button, a click followed by its timer, and a complete loading run.

Timers are modelled without time. A single-select click and the end of a
loading run put a target on the `pending` list, and `FireTimer(k)` fires
any one of them, in any order. One `Tick(k)` is one firing of a loading
animation's interval.

Behaviours of the code worth noting:

- Navigating to a step that does not exist is not a no-op. It still
  records the step being left in `stepHistory`, and it hides the shown
  step, so no step is shown afterwards (`showing` becomes false).
- Entering a loading step again starts a second animation next to the
  first. Nothing guards against it.
- The path scores are recomputed only by a multi-select click on the
  routing step. A single-select click there does not update them.
- A single-select click stores its answer under the active step, which is
  the step the clicked button belongs to.

## Model

| member | source | states |
|---|---|---|
| Steps.NextStep | script.js:156-170 | a successor exists exactly for the eight table entries; it is a different step that has a progress value |
| Steps.Progress | script.js:217-233 | the bar value is within 0..100, positive for every mapped step and 0 for an unmapped one |
| Steps.Route | script.js:128-141 | path A is chosen exactly when A's score is at least B's, so a tie goes to A; path B is chosen exactly when B's score is strictly larger |
| Steps.ChainProgressIsLevels | script.js:217-231 | along each path the steps show 5, 15, 25, 35, 40, 50, 55, 65, 75, 80, 90, 95, 100 in turn |
| Steps.ChainProgressIncreases | script.js:217-231 | the progress never decreases along either path: a later step always shows strictly more |
| Steps.NextStepFollowsChain | script.js:156-165 | each successor-table entry is a consecutive pair of steps on one of the two paths |
| Steps.NextStepAdvancesProgress | script.js:156-165 | following the successor table always moves the progress bar forward |
| Steps.ChainsMeetRouting | script.js:128-141 | each path enters right after the routing step at its own step 3; its loading step comes second to last and leads to its results step |
| Steps.ResultsStep | script.js:238-260 | a loading run ends in `resultsA` exactly when it was started by `loadingA`, and in `resultsB` otherwise; either shows 100 on the progress bar |
| Steps.ResultsAreTerminal | script.js:230 | only `resultsA` and `resultsB` show 100; they have no successor and start no loading animation |
| Choices.SelectOnly | script.js:64-71 | clearing every button of the container and selecting the clicked one keeps each button and its attributes |
| Choices.Toggled | script.js:86 | the clicked button's flag flips, its value stays and the list keeps its length |
| Choices.SelectedValues | script.js:104-107 | the selected values are exactly as many as the selected buttons |
| Choices.Tally | script.js:110-126 | the path scores never exceed the number of selected buttons, because untagged buttons add nothing |
| Choices.CountZeroIffNoneSelected | script.js:92-96 | the selected count, which decides the continue button's disabled flag, is 0 exactly when no button is selected |
| Choices.SelectedValuesMembers | script.js:150-153 | a value is stored in a multi-select answer exactly when some selected button carries it |
| Choices.SelectOnlyIsExclusive | script.js:64-71 | after a single-select click exactly the clicked button is selected, and the selected values are just its value |
| Choices.ToggledTwice | script.js:86 | toggling the same button twice restores every flag |
| Choices.ToggledCount | script.js:86-96 | a toggle flips only the clicked button and moves the selected count by exactly one |
| Choices.TallyToggled | script.js:110-126 | toggling a button moves the score of its own tag by one and leaves the other score alone; untagged buttons change no score |
| Choices.TallyExample | script.js:110-141 | two selected A-tagged buttons and an unselected B-tagged one score {A: 2, B: 0}, and routing picks A |
| Charts.ChartFor | script.js:266-291 | exactly the two results steps ask for a results chart; charts appear only from the proof steps on (progress at least 55) and never on a loading step |
| Charts.Registered | script.js:294-299 | a chart is registered only when its canvas exists and none is registered for it yet; existing entries never change (the same guard as script.js:351-353 and 434-436) |
| Charts.RegisteredIdempotent | script.js:294-296 | a second request for the same chart leaves the registry unchanged |
| Charts.RevisitCreatesNothing | script.js:266-291 | showing a step again creates no further chart |
| Charts.ChartCanvasesDistinct | script.js:268-291 | different steps draw on different canvases |
| Charts.ChartsLieOnChains | script.js:268-291 | only steps of the two paths have charts, and both results steps have one |
| Loading.TickRun | script.js:250-262 | a tick shows the next phase and advances the run while phases remain; otherwise it finishes and targets the results step of the run's path |
| Loading.Emitted | script.js:242-255 | a run still shows exactly as many updates as phases remain |
| Loading.LoadingSequence | script.js:237-264 | a fresh run shows 33, 66, 100 in that order and its fourth tick schedules `resultsA` for `loadingA` and `resultsB` otherwise |
| Loading.EmittedIncreases | script.js:242-246 | the values a run shows strictly increase |
| QuizFlow.QuizController.constructor | script.js:4-13 | the record starts on `step1` with no path, scores {0, 0}, no answers, empty history and an empty chart registry |
| QuizFlow.QuizController.Load | script.js:16-25 | page load shows `step1` if it exists and sets the progress bar to its value |
| QuizFlow.QuizController.ShowStep | script.js:205-211 | an existing step becomes the current, shown step, and history is not touched; a missing one changes nothing |
| QuizFlow.QuizController.UpdateProgress | script.js:213-235 | the bar shows the current step's table value, or 0 for an unmapped step |
| QuizFlow.QuizController.SingleSelect | script.js:63-82 | the clicked button becomes the only selected one, the answer is its value, and navigation to its `data-next` is scheduled |
| QuizFlow.QuizController.MultiSelect | script.js:84-108 | only the clicked flag toggles; the continue button is disabled exactly when the count is 0; on the routing step the scores are recomputed; the answer is the selected values in page order |
| QuizFlow.QuizController.UpdatePathScores | script.js:110-126 | the scores are reset and then count the routing step's selected buttons by tag, so they agree with the live selection whatever they were before |
| QuizFlow.QuizController.RouteToPath | script.js:128-141 | the path is set to the routing rule's choice and the user navigates to that path's entry step |
| QuizFlow.QuizController.HandleContinue | script.js:143-171 | the selected values are always stored as the answer; the user navigates to the table successor if there is one, and otherwise the current step and history are unchanged |
| QuizFlow.QuizController.ClickContinue | script.js:43-60 | a click on an enabled continue button: a non-empty `data-next` navigates there; otherwise the selection is stored and the user moves to the table successor, or stays put with history unchanged when there is none; the routing step's button then also routes, ending on the path's entry step with history grown by one entry per navigation |
| QuizFlow.QuizController.NavigateTo | script.js:173-203 | the history grows by the step being left, even for a missing target; the current step changes only if the target exists, and then the bar, the chart and the loading animation follow it; the rest of the record is unchanged |
| QuizFlow.QuizController.InitializeChartsForStep | script.js:266-292 | the registry afterwards is the one a visit to that step produces |
| QuizFlow.QuizController.CreateChart | script.js:294-299 | the registry follows the create-once guard; a chart already registered leaves the registry unchanged |
| QuizFlow.QuizController.StartLoadingAnimation | script.js:237-250 | a new run of the loading step starts at phase 0 |
| QuizFlow.QuizController.Tick | script.js:250-263 | a firing shows the next phase on the path's bar, or stops the run and schedules its results step |
| QuizFlow.QuizController.FireTimer | script.js:79-81 | a scheduled navigation (the `data-next` delay here, and the results timer of script.js:259-261) fires against the state as it is then, and it leaves the pending list |
| QuizScenarios.ToggleTwice | script.js:84-108 | two clicks on the same multi-select button restore the buttons, the stored answer is again the selected values and the continue flag follows them; the current step, history and path stay as they were |
| QuizScenarios.SelectAndAdvance | script.js:63-82 | after a single-select click and its timer, the user is on the button's target if it exists, with all the effects of that navigation; the clicked step's buttons are the exclusive selection of the clicked one, other steps' buttons are unchanged, and the path, scores and continue flags stay as they were |
| QuizScenarios.RunLoading | script.js:237-264 | a fresh loading run shows 33, 66, 100, ends with its path's bar on the last phase and the other bar untouched, and then schedules its path's results step; it touches only the runs, the loading bars and the scheduled navigations |

## Left out

- DOM querying, `classList` changes, `style.width` writes and `window.scrollTo`. They are browser I/O; the model keeps only their effect on the abstract view.
- The page markup: the steps, buttons, continue flags and canvases are constructor parameters. The model assumes that no step is marked `active` before page load and that each step has one list of option buttons.
- Timer delays (300 ms, 1200 ms, 500 ms). A pending navigation and a loading tick may fire in any order, and a stale navigation still fires, as in the page.
- Lookups that find no element and then throw: the progress bar, the loading bars and the active step. These elements are assumed present. The click handlers require a shown step, because the user can only click a visible button.
- QuizFlow.QuizController.ShowStep: modelled only for its page-load call, when no step is shown yet.
- Button attributes that are missing (`getAttribute` returns null). A missing `data-next` behaves like an id that has no step. A missing `data-path` is not a path tag. A missing `data-value` is not modelled; values are strings.
- Keys of JavaScript's object prototype (such as `constructor`) used as step ids in the successor and progress tables. Step ids are fixed by the page author.
- Chart.js and every chart setting (type options, colours, fonts, gradients, tooltips, titles), and the results-chart data formula, which divides in floating point. Only the create-once registry is kept.
- The loading captions are kept, but the initial bar width and caption from the markup are taken as 0 and empty.
- Keyboard activation, the accessibility attributes and the start-up console message, which are UI glue.
- QuizFlow.QuizController.ClickContinue: for the routing button, when a navigation happens before the routing (a non-empty `data-next` or a successor-table entry), the contract states the chosen path, the stored answer, the two history entries, and the final step, shown flag and progress bar when the path's entry step exists, but not the intermediate history entry or the charts and loading runs of the double navigation.
- The routing step's continue button (`step2Continue`) is taken to also carry the `continue-btn` class, so both of its listeners fire, the general continue listener first and then the routing one.
- A disabled continue button delivers no click, so `ClickContinue` requires the shown step's continue button to be enabled. The model takes each step to have one continue button, the one whose disabled flag `MultiSelect` sets.
