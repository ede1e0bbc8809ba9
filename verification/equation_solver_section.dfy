/** src/components/EquationSolverSection.tsx: a canvas whose export is sent
    to the equation solver once it loads and is not blank, followed by a
    tutorial search on the recognised text. */
module EquationSolverSection {
  import opened Wrappers
  import opened Pixels
  import opened Canvas
  import opened Hosts

  /** The component's state hooks. */
  datatype EquationState = EquationState(
    solution: Option<SolveOutput>,
    tutorials: Option<Tutorials>,
    isLoadingSolution: bool,
    isLoadingTutorials: bool,
    clearCanvasSignal: bool)

  const INITIAL := EquationState(None, None, false, false, false)

  /** `handleCanvasClear`: no outputs, and the signal raised. */
  function HandleCanvasClear(st: EquationState): (r: EquationState)
    ensures r.solution.None? && r.tutorials.None? && r.clearCanvasSignal
    ensures r.isLoadingSolution == st.isLoadingSolution && r.isLoadingTutorials == st.isLoadingTutorials
  {
    st.(solution := None, tutorials := None, clearCanvasSignal := true)
  }

  /** `onCanvasCleared`: only the signal is lowered. */
  function OnCanvasCleared(st: EquationState): (r: EquationState)
    ensures !r.clearCanvasSignal && r.(clearCanvasSignal := st.clearCanvasSignal) == st
  {
    st.(clearCanvasSignal := false)
  }

  /** A clear and the canvas's `onClear` that follows it: outputs gone,
      signal low again. */
  lemma ClearThenCleared(st: EquationState)
    ensures var r := OnCanvasCleared(HandleCanvasClear(st));
            r.solution.None? && r.tutorials.None? && !r.clearCanvasSignal
  {
  }

  const NO_DRAWING := Toast("Error", "Could not get equation drawing. Please try writing something.", true)
  const LOAD_FAILED := Toast("Error", "Could not load image from canvas for validation.", true)
  const EMPTY_CANVAS := Toast("Empty Canvas", "Please write an equation on the canvas before solving.", true)
  const EQUATION_PROCESSED := Toast("Equation Processed!", "The solution is displayed below.", false)
  const SOLVE_FAILED := Toast("Error", "Could not process the equation. Please try again.", true)

  datatype Solved = Solved(state: EquationState, calls: seq<AiCall>, toasts: seq<Toast>)

  /** The checks before the solver is called: data present, image loaded,
      not blank by the host test. */
  predicate Admitted(uri: Option<DataUrl>) {
    uri.Some? && ReadBack(uri.value).Some? && !BlankForHost(ReadBack(uri.value).value)
  }

  /** The `try` block: solve, then search tutorials on the recognised text
      (or the fixed query when there is none). The solution, then the
      tutorials, are stored as they arrive; either failure shows the same
      error toast and ends the block. */
  function RunFlows(st: EquationState, uri: DataUrl, flows: Flows): (r: (EquationState, seq<AiCall>, seq<Toast>))
    ensures flows.solve(uri).Failure? ==> r == (st, [SolveEquation(uri)], [SOLVE_FAILED])
    ensures flows.solve(uri).Success? ==>
              var query := TutorialQuery(flows.solve(uri).value.recognizedEquationText);
              var found := flows.recommend(query);
              && r.1 == [SolveEquation(uri), RecommendTutorials(query)]
              && r.0 == (if found.Failure? then st.(solution := Some(flows.solve(uri).value))
                         else st.(solution := Some(flows.solve(uri).value), tutorials := Some(found.value)))
              && r.2 == (if found.Failure? then [EQUATION_PROCESSED, SOLVE_FAILED] else [EQUATION_PROCESSED])
  {
    match flows.solve(uri)
    case Failure(_) => (st, [SolveEquation(uri)], [SOLVE_FAILED])
    case Success(out) =>
      var query := TutorialQuery(out.recognizedEquationText);
      var calls := [SolveEquation(uri), RecommendTutorials(query)];
      match flows.recommend(query)
      case Success(t) => (st.(solution := Some(out), tutorials := Some(t)), calls, [EQUATION_PROCESSED])
      case Failure(_) => (st.(solution := Some(out)), calls, [EQUATION_PROCESSED, SOLVE_FAILED])
  }

  /** `handleSolveEquation`: the export closure is called outside any `try`,
      so when it throws, the handler's promise rejects with nothing shown,
      nothing called and nothing changed; otherwise what it returned is
      checked and solved. */
  function HandleSolveEquation(st: EquationState, e: Export, flows: Flows): (r: Solved)
    ensures e.Threw? ==> r == Solved(st, [], [])
    ensures e.Returned? ==> r == SolveDataUrl(st, e.url, flows)
    ensures r.toasts == [] <==> e.Threw?
  {
    match e
    case Threw => Solved(st, [], [])
    case Returned(_, uri) => SolveDataUrl(st, uri, flows)
  }

  /** The handler after the export closure returned `uri`: missing data, an
      image that fails to load and a blank image are each refused with their
      own toast; otherwise the solution and tutorials are cleared, the
      flows run, and both loading flags end false. */
  function SolveDataUrl(st: EquationState, uri: Option<DataUrl>, flows: Flows): (r: Solved)
    ensures |r.calls| > 0 <==> Admitted(uri)
    ensures |r.toasts| > 0
    ensures !Admitted(uri) ==> r.state == st && |r.toasts| == 1 && r.toasts[0].destructive
    ensures uri.None? ==> r.toasts == [NO_DRAWING]
    ensures uri.Some? && ReadBack(uri.value).None? ==> r.toasts == [LOAD_FAILED]
    ensures uri.Some? && ReadBack(uri.value).Some? && BlankForHost(ReadBack(uri.value).value) ==>
              r.toasts == [EMPTY_CANVAS]
    ensures Admitted(uri) && flows.solve(uri.value).Failure? ==>
              r == Solved(st.(solution := None, tutorials := None, isLoadingSolution := false, isLoadingTutorials := false),
                          [SolveEquation(uri.value)], [SOLVE_FAILED])
    ensures Admitted(uri) && flows.solve(uri.value).Success? ==>
              var query := TutorialQuery(flows.solve(uri.value).value.recognizedEquationText);
              var found := flows.recommend(query);
              && r.calls == [SolveEquation(uri.value), RecommendTutorials(query)]
              && r.state == st.(solution := Some(flows.solve(uri.value).value),
                                tutorials := if found.Success? then Some(found.value) else None,
                                isLoadingSolution := false, isLoadingTutorials := false)
              && r.toasts == (if found.Failure? then [EQUATION_PROCESSED, SOLVE_FAILED] else [EQUATION_PROCESSED])
  {
    match uri
    case None => Solved(st, [], [NO_DRAWING])
    case Some(u) =>
      match ReadBack(u)
      case None => Solved(st, [], [LOAD_FAILED])
      case Some(pixels) =>
        if BlankForHost(pixels) then Solved(st, [], [EMPTY_CANVAS])
        else
          var started := st.(isLoadingSolution := true, solution := None, isLoadingTutorials := true, tutorials := None);
          var done := RunFlows(started, u, flows);
          Solved(done.0.(isLoadingSolution := false, isLoadingTutorials := false), done.1, done.2)
  }

  /** A solution without recognised text still searches tutorials, with the
      fixed query. */
  lemma UnrecognisedEquationSearchesHelp(st: EquationState, uri: DataUrl, flows: Flows, solution: string)
    requires Admitted(Some(uri)) && flows.solve(uri) == Success(SolveOutput(solution, None))
    ensures SolveDataUrl(st, Some(uri), flows).calls == [SolveEquation(uri), RecommendTutorials(EQUATION_HELP)]
  {
  }

  /** A mounted canvas without area makes the export closure throw: the
      handler aborts with no toast, no AI call and no state change. */
  lemma EmptyAreaCanvasAborts(st: EquationState, s: Surface, flows: Flows)
    requires NoArea(s)
    ensures HandleSolveEquation(st, RequestCanvasData(true, Some(s)), flows) == Solved(st, [], [])
  {
  }
}
