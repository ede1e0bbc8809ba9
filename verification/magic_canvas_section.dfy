/** src/components/MagicCanvasSection.tsx: one canvas in two modes, doodle
    and equation. `handleProcessCanvas` validates the export (data present,
    image loads, not blank, and in doodle mode a style prompt) before it
    calls any AI flow. */
module MagicCanvasSection {
  import opened Wrappers
  import opened JsBuiltins
  import opened Pixels
  import opened Canvas
  import opened Hosts

  datatype Mode = DoodleMode | EquationMode

  /** The component's state hooks. */
  datatype MagicState = MagicState(
    mode: Mode,
    prompt: string,
    enhancedArtwork: Option<string>,
    originalDoodleDataUrl: Option<DataUrl>,
    solution: Option<SolveOutput>,
    tutorials: Option<Tutorials>,
    isLoading: bool,
    clearCanvasSignal: bool)

  predicate NoOutputs(st: MagicState) {
    st.enhancedArtwork.None? && st.originalDoodleDataUrl.None? && st.solution.None? && st.tutorials.None?
  }

  /** The state the component mounts with. */
  const INITIAL := MagicState(DoodleMode, "", None, None, None, None, false, false)

  /** `resetOutputs`. */
  function ResetOutputs(st: MagicState): MagicState {
    st.(enhancedArtwork := None, originalDoodleDataUrl := None, solution := None, tutorials := None)
  }

  /** `handleModeChange`: the new mode, no outputs, and the prompt kept only
      when the new mode is doodle. */
  function HandleModeChange(st: MagicState, newMode: Mode): (r: MagicState)
    ensures r.mode == newMode && NoOutputs(r)
    ensures r.prompt == (if newMode == DoodleMode then st.prompt else "")
    ensures r.isLoading == st.isLoading && r.clearCanvasSignal == st.clearCanvasSignal
  {
    var changed := ResetOutputs(st.(mode := newMode));
    if newMode != DoodleMode then changed.(prompt := "") else changed
  }

  /** Choosing the same mode twice is choosing it once. */
  lemma ModeChangeIdempotent(st: MagicState, newMode: Mode)
    ensures HandleModeChange(HandleModeChange(st, newMode), newMode) == HandleModeChange(st, newMode)
  {
  }

  /** `handleCanvasClearRequest`. */
  function HandleCanvasClearRequest(st: MagicState): MagicState {
    st.(clearCanvasSignal := true)
  }

  /** `onCanvasActuallyCleared`: no outputs and the signal lowered; mode,
      prompt and loading flag kept. */
  function OnCanvasActuallyCleared(st: MagicState): (r: MagicState)
    ensures NoOutputs(r) && !r.clearCanvasSignal
    ensures r.mode == st.mode && r.prompt == st.prompt && r.isLoading == st.isLoading
  {
    ResetOutputs(st).(clearCanvasSignal := false)
  }

  /** A clear request followed by the canvas's `onClear` leaves the signal
      low, ready for the next request, and the outputs empty. */
  lemma ClearRoundTrip(st: MagicState)
    ensures var r := OnCanvasActuallyCleared(HandleCanvasClearRequest(st));
            !r.clearCanvasSignal && NoOutputs(r) && r == OnCanvasActuallyCleared(st)
  {
  }

  // ---------------------------------------------------------------------
  // handleProcessCanvas

  const NO_CANVAS_DATA := Toast("Error", "Could not get canvas data. Please draw something.", true)
  const LOAD_FAILED := Toast("Error", "Could not load image from canvas for validation.", true)
  const EMPTY_CANVAS := Toast("Empty Canvas", "Please draw or write something on the canvas.", true)
  const NO_PROMPT := Toast("Error", "Please enter an artwork style prompt for the doodle.", true)
  const DOODLE_ENHANCED := Toast("Doodle Enhanced!", "Your artwork is ready below.", false)
  const EQUATION_PROCESSED := Toast("Equation Processed!", "The solution is displayed below.", false)

  function ProcessingFailed(message: string): Toast {
    Toast("Error", "Could not process the canvas content. Please try again. " + message, true)
  }

  /** The end state, the AI calls made in order, and the toasts shown. */
  datatype Processed = Processed(state: MagicState, calls: seq<AiCall>, toasts: seq<Toast>)

  /** The validation that precedes any AI call: the data URL is present, its
      image loads and is not blank by the host test, and doodle mode has a
      prompt with some non-white-space character. */
  predicate Admitted(st: MagicState, uri: Option<DataUrl>) {
    && uri.Some?
    && ReadBack(uri.value).Some?
    && !BlankForHost(ReadBack(uri.value).value)
    && (st.mode == DoodleMode ==> exists i :: 0 <= i < |st.prompt| && !IsWhiteSpace(st.prompt[i]))
  }

  /** The tutorial step after a successful first flow: the answer is stored
      as the tutorials; a failure is reported and changes nothing. */
  function Recommend(st: MagicState, query: string, flows: Flows): (r: (MagicState, seq<AiCall>, seq<Toast>))
    ensures r.1 == [RecommendTutorials(query)]
    ensures flows.recommend(query).Success? ==> r.0 == st.(tutorials := Some(flows.recommend(query).value)) && r.2 == []
    ensures flows.recommend(query).Failure? ==> r.0 == st && r.2 == [ProcessingFailed(flows.recommend(query).error)]
  {
    match flows.recommend(query)
    case Success(t) => (st.(tutorials := Some(t)), [RecommendTutorials(query)], [])
    case Failure(message) => (st, [RecommendTutorials(query)], [ProcessingFailed(message)])
  }

  /** The doodle-mode `try` block: enhance, then search tutorials on the
      prompt. The artwork, then the tutorials, are stored as they arrive;
      the first failure is reported and ends the block. */
  function EnhanceFlows(st: MagicState, uri: DataUrl, flows: Flows): (r: (MagicState, seq<AiCall>, seq<Toast>))
    ensures var enhanced := flows.enhance(uri, st.prompt);
            var found := flows.recommend(st.prompt);
            && r.1 == (if enhanced.Success? then [EnhanceDoodle(uri, st.prompt), RecommendTutorials(st.prompt)]
                       else [EnhanceDoodle(uri, st.prompt)])
            && r.0 == (if enhanced.Failure? then st
                       else if found.Failure? then st.(enhancedArtwork := Some(enhanced.value))
                       else st.(enhancedArtwork := Some(enhanced.value), tutorials := Some(found.value)))
            && r.2 == (if enhanced.Failure? then [ProcessingFailed(enhanced.error)]
                       else if found.Failure? then [DOODLE_ENHANCED, ProcessingFailed(found.error)]
                       else [DOODLE_ENHANCED])
  {
    var first := EnhanceDoodle(uri, st.prompt);
    match flows.enhance(uri, st.prompt)
    case Failure(message) => (st, [first], [ProcessingFailed(message)])
    case Success(artwork) =>
      var rest := Recommend(st.(enhancedArtwork := Some(artwork)), st.prompt, flows);
      (rest.0, [first] + rest.1, [DOODLE_ENHANCED] + rest.2)
  }

  /** The equation-mode `try` block: solve, then search tutorials on the
      recognised text, or on the fixed query when there is none. */
  function SolveFlows(st: MagicState, uri: DataUrl, flows: Flows): (r: (MagicState, seq<AiCall>, seq<Toast>))
    ensures var solved := flows.solve(uri);
            solved.Success? ==>
              var query := TutorialQuery(solved.value.recognizedEquationText);
              var found := flows.recommend(query);
              && r.1 == [SolveEquation(uri), RecommendTutorials(query)]
              && r.0 == (if found.Failure? then st.(solution := Some(solved.value))
                         else st.(solution := Some(solved.value), tutorials := Some(found.value)))
              && r.2 == (if found.Failure? then [EQUATION_PROCESSED, ProcessingFailed(found.error)]
                         else [EQUATION_PROCESSED])
    ensures flows.solve(uri).Failure? ==> r == (st, [SolveEquation(uri)], [ProcessingFailed(flows.solve(uri).error)])
  {
    var first := SolveEquation(uri);
    match flows.solve(uri)
    case Failure(message) => (st, [first], [ProcessingFailed(message)])
    case Success(out) =>
      var rest := Recommend(st.(solution := Some(out)), TutorialQuery(out.recognizedEquationText), flows);
      (rest.0, [first] + rest.1, [EQUATION_PROCESSED] + rest.2)
  }

  /** `handleProcessCanvas`: the export closure is called outside any `try`,
      so when it throws, the handler's promise rejects with nothing shown,
      nothing called and nothing changed; otherwise what it returned is
      checked and processed. */
  function HandleProcessCanvas(st: MagicState, e: Export, flows: Flows): (r: Processed)
    ensures e.Threw? ==> r == Processed(st, [], [])
    ensures e.Returned? ==> r == ProcessDataUrl(st, e.url, flows)
    ensures r.toasts == [] <==> e.Threw?
  {
    match e
    case Threw => Processed(st, [], [])
    case Returned(_, uri) => ProcessDataUrl(st, uri, flows)
  }

  /** The handler after the export closure returned `uri`: the checks in
      order, each refusal with its own toast, then the flows. */
  function ProcessDataUrl(st: MagicState, uri: Option<DataUrl>, flows: Flows): (r: Processed)
    ensures |r.calls| > 0 <==> Admitted(st, uri)
    ensures |r.toasts| > 0
    ensures !Admitted(st, uri) ==> r.state == st && |r.toasts| == 1 && r.toasts[0].destructive
    ensures uri.None? ==> r.toasts == [NO_CANVAS_DATA]
    ensures uri.Some? && ReadBack(uri.value).None? ==> r.toasts == [LOAD_FAILED]
    ensures uri.Some? && ReadBack(uri.value).Some? && BlankForHost(ReadBack(uri.value).value) ==>
              r.toasts == [EMPTY_CANVAS]
    ensures (uri.Some? && ReadBack(uri.value).Some? && !BlankForHost(ReadBack(uri.value).value)
             && st.mode == DoodleMode && PromptMissing(st.prompt)) ==> r.toasts == [NO_PROMPT]
    ensures Admitted(st, uri) ==> r == Launch(st, uri.value, flows)
  {
    PromptMissingMeans(st.prompt);
    match uri
    case None => Processed(st, [], [NO_CANVAS_DATA])
    case Some(u) =>
      match ReadBack(u)
      case None => Processed(st, [], [LOAD_FAILED])
      case Some(pixels) =>
        if BlankForHost(pixels) then Processed(st, [], [EMPTY_CANVAS])
        else if st.mode == DoodleMode && PromptMissing(st.prompt) then Processed(st, [], [NO_PROMPT])
        else Launch(st, u, flows)
  }

  /** The admitted path: outputs cleared and the loading flag raised, the
      doodle's data URL kept in doodle mode, the mode's flows run, the flag
      lowered in the `finally`. Every output is then the answer of the flow
      that produced it, or empty. */
  function Launch(st: MagicState, u: DataUrl, flows: Flows): (r: Processed)
    ensures |r.toasts| > 0
    ensures st.mode == DoodleMode ==>
              var enhanced := flows.enhance(u, st.prompt);
              var found := flows.recommend(st.prompt);
              && r.calls == (if enhanced.Success? then [EnhanceDoodle(u, st.prompt), RecommendTutorials(st.prompt)]
                             else [EnhanceDoodle(u, st.prompt)])
              && r.state == st.(enhancedArtwork := if enhanced.Success? then Some(enhanced.value) else None,
                                originalDoodleDataUrl := Some(u), solution := None,
                                tutorials := if enhanced.Success? && found.Success? then Some(found.value) else None,
                                isLoading := false)
    ensures st.mode == DoodleMode ==>
              var enhanced := flows.enhance(u, st.prompt);
              var found := flows.recommend(st.prompt);
              r.toasts == (if enhanced.Failure? then [ProcessingFailed(enhanced.error)]
                           else if found.Failure? then [DOODLE_ENHANCED, ProcessingFailed(found.error)]
                           else [DOODLE_ENHANCED])
    ensures st.mode == EquationMode && flows.solve(u).Failure? ==>
              && r.calls == [SolveEquation(u)]
              && r.state == ResetOutputs(st).(isLoading := false)
              && r.toasts == [ProcessingFailed(flows.solve(u).error)]
    ensures st.mode == EquationMode && flows.solve(u).Success? ==>
              var query := TutorialQuery(flows.solve(u).value.recognizedEquationText);
              var found := flows.recommend(query);
              && r.calls == [SolveEquation(u), RecommendTutorials(query)]
              && r.state == ResetOutputs(st).(solution := Some(flows.solve(u).value),
                                              tutorials := if found.Success? then Some(found.value) else None,
                                              isLoading := false)
              && r.toasts == (if found.Failure? then [EQUATION_PROCESSED, ProcessingFailed(found.error)]
                              else [EQUATION_PROCESSED])
  {
    var started := ResetOutputs(st).(isLoading := true);
    if st.mode == DoodleMode then
      var done := EnhanceFlows(started.(originalDoodleDataUrl := Some(u)), u, flows);
      Processed(done.0.(isLoading := false), done.1, done.2)
    else
      var done := SolveFlows(started, u, flows);
      Processed(done.0.(isLoading := false), done.1, done.2)
  }

  /** The blank check comes first: a blank image is reported as an empty
      canvas whatever the prompt. */
  lemma BlankBeforePrompt(st: MagicState, uri: DataUrl, flows: Flows)
    requires ReadBack(uri).Some? && BlankForHost(ReadBack(uri).value)
    ensures ProcessDataUrl(st, Some(uri), flows) == Processed(st, [], [EMPTY_CANVAS])
    ensures ProcessDataUrl(st.(prompt := ""), Some(uri), flows) == Processed(st.(prompt := ""), [], [EMPTY_CANVAS])
  {
  }

  /** From the canvas to the flows: a mounted canvas with area that is blank
      at export is refused as empty; one holding a drawn pixel, in equation
      mode, is sent to the solver as the PNG of that canvas. */
  lemma CanvasToFlows(st: MagicState, s: Surface, flows: Flows)
    requires !NoArea(s)
    ensures var e := RequestCanvasData(true, Some(s));
            && (BlankAtExport(s.pixels) ==> HandleProcessCanvas(st, e, flows) == Processed(st, [], [EMPTY_CANVAS]))
            && (!BlankAtExport(s.pixels) && st.mode == EquationMode ==>
                  HandleProcessCanvas(st, e, flows).calls[0] == SolveEquation(PngDataUrl(s)))
  {
    HostSeesExport(s);
  }

  /** A mounted canvas without area makes the export closure throw: the
      handler aborts with no toast, no AI call and no state change. */
  lemma EmptyAreaCanvasAborts(st: MagicState, s: Surface, flows: Flows)
    requires NoArea(s)
    ensures HandleProcessCanvas(st, RequestCanvasData(true, Some(s)), flows) == Processed(st, [], [])
  {
  }
}
