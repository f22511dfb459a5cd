/**
 * Which chart each step shows and the registry that makes chart creation
 * happen at most once per canvas.
 */
module Charts {
  import opened Wrappers
  import opened Steps

  /** A chart is drawn on the canvas element with this id. */
  type CanvasId = string

  /** The three chart builders: the bar comparison, the with/without timeline, the results journey. */
  datatype ChartKind = Comparison | Timeline | Results

  datatype ChartRequest = ChartRequest(canvas: CanvasId, kind: ChartKind)

  /** Created charts, by canvas id. */
  type Registry = map<CanvasId, ChartKind>

  /** The chart a step asks for when it is shown, if any. */
  function ChartFor(step: StepId): (r: Option<ChartRequest>)
    ensures r.Some? && r.value.kind == Results <==> step == "resultsA" || step == "resultsB"
    ensures r.Some? ==> !IsLoadingStep(step) && Progress(step) >= 55
  {
    if step == "step5a-proof" then Some(ChartRequest("chartPathA1", Comparison))
    else if step == "step7a-achievability" then Some(ChartRequest("chartPathA2", Timeline))
    else if step == "resultsA" then Some(ChartRequest("chartResultsA", Results))
    else if step == "step5b-proof" then Some(ChartRequest("chartPathB1", Comparison))
    else if step == "step7b-achievability" then Some(ChartRequest("chartPathB2", Timeline))
    else if step == "resultsB" then Some(ChartRequest("chartResultsB", Results))
    else None
  }

  /**
   * The registry after a chart request: the chart is added only when its
   * canvas exists and no chart is registered for it yet.
   */
  function Registered(reg: Registry, canvases: set<CanvasId>, req: ChartRequest): (r: Registry)
    ensures r.Keys == reg.Keys + (if req.canvas in canvases then {req.canvas} else {})
    ensures forall id :: id in reg ==> r[id] == reg[id]
    ensures req.canvas in r && req.canvas !in reg ==> r[req.canvas] == req.kind
  {
    if req.canvas !in canvases || req.canvas in reg then reg
    else reg[req.canvas := req.kind]
  }

  /** The registry after showing a step: its chart, if it has one, is requested. */
  function AfterVisit(reg: Registry, canvases: set<CanvasId>, step: StepId): Registry
  {
    match ChartFor(step)
    case None => reg
    case Some(req) => Registered(reg, canvases, req)
  }

  /** A repeated request for the same chart leaves the registry as the first one left it. */
  lemma RegisteredIdempotent(reg: Registry, canvases: set<CanvasId>, req: ChartRequest)
    ensures Registered(Registered(reg, canvases, req), canvases, req) == Registered(reg, canvases, req)
  {
  }

  /** Visiting a step again creates nothing new. */
  lemma RevisitCreatesNothing(reg: Registry, canvases: set<CanvasId>, step: StepId)
    ensures AfterVisit(AfterVisit(reg, canvases, step), canvases, step) == AfterVisit(reg, canvases, step)
  {
    match ChartFor(step)
    case None =>
    case Some(req) => RegisteredIdempotent(reg, canvases, req);
  }

  /** Different steps draw on different canvases, so no step's chart blocks another's. */
  lemma ChartCanvasesDistinct(s: StepId, t: StepId)
    requires s != t && ChartFor(s).Some? && ChartFor(t).Some?
    ensures ChartFor(s).value.canvas != ChartFor(t).value.canvas
  {
  }

  /** Only steps of the two paths carry a chart, and each path's results step has one. */
  lemma ChartsLieOnChains(step: StepId)
    ensures ChartFor(step).Some? ==> step in ChainA || step in ChainB
    ensures ChartFor("resultsA").Some? && ChartFor("resultsB").Some?
  {
    if step == "step5a-proof" { assert ChainA[6] == step; }
    else if step == "step7a-achievability" { assert ChainA[9] == step; }
    else if step == "resultsA" { assert ChainA[12] == step; }
    else if step == "step5b-proof" { assert ChainB[6] == step; }
    else if step == "step7b-achievability" { assert ChainB[9] == step; }
    else if step == "resultsB" { assert ChainB[12] == step; }
  }
}
