/** src/components/DoodleSection.tsx: a canvas whose export, once it loads,
    is not blank by this component's own test and comes with a style prompt,
    is sent to the doodle enhancer, followed by a tutorial search on the
    prompt.

    The image load is awaited on `onload` alone (DoodleSection.tsx:46). An
    image that fails to load never fires it, so the handler would never get
    past that line: `EnhanceDataUrl` models this as an outcome that does not
    settle. No export of the current canvas yields such an image (a canvas
    without area throws before it is encoded), so the defect is latent.
    `EnhanceDataUrlSettling` is the handler with the load failure reported
    as the other two hosts report it. */
module DoodleSection {
  import opened Wrappers
  import opened JsBuiltins
  import opened Pixels
  import opened Canvas
  import opened Hosts

  /** The component's state hooks. */
  datatype DoodleState = DoodleState(
    prompt: string,
    enhancedArtwork: Option<string>,
    originalDoodleDataUrl: Option<DataUrl>,
    tutorials: Option<Tutorials>,
    isLoadingArtwork: bool,
    isLoadingTutorials: bool,
    clearCanvasSignal: bool)

  const INITIAL := DoodleState("", None, None, None, false, false, false)

  /** `handleCanvasClear`, the canvas's `onClear`: no outputs and the signal
      low. */
  function HandleCanvasClear(st: DoodleState): (r: DoodleState)
    ensures r.originalDoodleDataUrl.None? && r.enhancedArtwork.None? && r.tutorials.None? && !r.clearCanvasSignal
    ensures r.prompt == st.prompt && r.isLoadingArtwork == st.isLoadingArtwork && r.isLoadingTutorials == st.isLoadingTutorials
  {
    st.(originalDoodleDataUrl := None, enhancedArtwork := None, tutorials := None, clearCanvasSignal := false)
  }

  const NO_DOODLE_DATA := Toast("Error", "Could not get doodle data. Please try drawing something.", true)
  const EMPTY_DOODLE := Toast("Empty Doodle", "Please draw something on the canvas before enhancing.", true)
  const NO_PROMPT := Toast("Error", "Please enter a style prompt.", true)
  const DOODLE_ENHANCED := Toast("Doodle Enhanced!", "Your artwork is ready below.", false)
  const ENHANCE_FAILED := Toast("Error", "Could not enhance the doodle. Please try again.", true)
  /** The toast the other two hosts show for an image that does not load. */
  const LOAD_FAILED := Toast("Error", "Could not load image from canvas for validation.", true)

  /** `settled` is false when the handler is left waiting forever. */
  datatype Enhanced = Enhanced(state: DoodleState, calls: seq<AiCall>, toasts: seq<Toast>, settled: bool)

  /** The checks before the enhancer is called, on an image that loaded. */
  predicate Admitted(st: DoodleState, pixels: seq<Pixel>) {
    !BlankForDoodleSection(pixels) && exists i :: 0 <= i < |st.prompt| && !IsWhiteSpace(st.prompt[i])
  }

  /** Everything after the image has loaded: the blank check, the prompt
      check, then the flows. The artwork, then the tutorials, are stored as
      they arrive; the first failure shows the error toast and ends the
      run; both loading flags end false. */
  function EnhanceLoaded(st: DoodleState, uri: DataUrl, pixels: seq<Pixel>, flows: Flows): (r: Enhanced)
    ensures r.settled
    ensures |r.calls| > 0 <==> Admitted(st, pixels)
    ensures !Admitted(st, pixels) ==>
              r.state == st && r.toasts == [if BlankForDoodleSection(pixels) then EMPTY_DOODLE else NO_PROMPT]
    ensures Admitted(st, pixels) ==>
              var enhanced := flows.enhance(uri, st.prompt);
              var found := flows.recommend(st.prompt);
              && r.calls == (if enhanced.Success? then [EnhanceDoodle(uri, st.prompt), RecommendTutorials(st.prompt)]
                             else [EnhanceDoodle(uri, st.prompt)])
              && r.state == st.(originalDoodleDataUrl := Some(uri),
                                enhancedArtwork := if enhanced.Success? then Some(enhanced.value) else None,
                                tutorials := if enhanced.Success? && found.Success? then Some(found.value) else None,
                                isLoadingArtwork := false, isLoadingTutorials := false)
              && r.toasts == (if enhanced.Failure? then [ENHANCE_FAILED]
                              else if found.Failure? then [DOODLE_ENHANCED, ENHANCE_FAILED]
                              else [DOODLE_ENHANCED])
  {
    PromptMissingMeans(st.prompt);
    if BlankForDoodleSection(pixels) then Enhanced(st, [], [EMPTY_DOODLE], true)
    else if PromptMissing(st.prompt) then Enhanced(st, [], [NO_PROMPT], true)
    else
      var started := st.(originalDoodleDataUrl := Some(uri), isLoadingArtwork := true, enhancedArtwork := None,
                         isLoadingTutorials := true, tutorials := None);
      var first := EnhanceDoodle(uri, st.prompt);
      var done :=
        match flows.enhance(uri, st.prompt)
        case Failure(_) => Enhanced(started, [first], [ENHANCE_FAILED], true)
        case Success(artwork) =>
          var calls := [first, RecommendTutorials(st.prompt)];
          match flows.recommend(st.prompt)
          case Success(t) => Enhanced(started.(enhancedArtwork := Some(artwork), tutorials := Some(t)), calls, [DOODLE_ENHANCED], true)
          case Failure(_) => Enhanced(started.(enhancedArtwork := Some(artwork)), calls, [DOODLE_ENHANCED, ENHANCE_FAILED], true);
      done.(state := done.state.(isLoadingArtwork := false, isLoadingTutorials := false))
  }

  /** `handleEnhanceDoodle`: the export closure is called outside any `try`,
      so when it throws, the handler's promise rejects with nothing shown,
      nothing called and nothing changed; otherwise what it returned is
      checked and enhanced. */
  function HandleEnhanceDoodle(st: DoodleState, e: Export, flows: Flows): (r: Enhanced)
    ensures e.Threw? ==> r == Enhanced(st, [], [], true)
    ensures e.Returned? ==> r == EnhanceDataUrl(st, e.url, flows)
  {
    match e
    case Threw => Enhanced(st, [], [], true)
    case Returned(_, uri) => EnhanceDataUrl(st, uri, flows)
  }

  /** The handler after the export closure returned `uri`, as written: an
      image that fails to load leaves it waiting, with nothing shown and
      nothing called. */
  function EnhanceDataUrl(st: DoodleState, uri: Option<DataUrl>, flows: Flows): (r: Enhanced)
    ensures uri.None? ==> r == Enhanced(st, [], [NO_DOODLE_DATA], true)
    ensures uri.Some? && ReadBack(uri.value).None? ==> r == Enhanced(st, [], [], false)
    ensures uri.Some? && ReadBack(uri.value).Some? ==> r == EnhanceLoaded(st, uri.value, ReadBack(uri.value).value, flows)
    ensures |r.calls| > 0 ==> uri.Some? && ReadBack(uri.value).Some? && !BlankForDoodleSection(ReadBack(uri.value).value)
  {
    match uri
    case None => Enhanced(st, [], [NO_DOODLE_DATA], true)
    case Some(u) =>
      match ReadBack(u)
      case None => Enhanced(st, [], [], false)
      case Some(pixels) => EnhanceLoaded(st, u, pixels, flows)
  }

  /** "data:," fails to load, and the written handler never settles on it. */
  lemma UnloadableDataStalls(st: DoodleState, flows: Flows)
    ensures !EnhanceDataUrl(st, Some(EmptyDataUrl), flows).settled
  {
  }

  /** The stall is latent: through the export closure of the current canvas,
      registered or not, mounted or not, the handler always settles. */
  lemma ExportNeverStalls(st: DoodleState, registered: bool, canvas: Option<Surface>, flows: Flows)
    ensures HandleEnhanceDoodle(st, RequestCanvasData(registered, canvas), flows).settled
  {
    ReturnedDataLoads(registered, canvas);
  }

  /** A mounted canvas without area makes the export closure throw: the
      handler aborts with no toast, no AI call and no state change. */
  lemma EmptyAreaCanvasAborts(st: DoodleState, s: Surface, flows: Flows)
    requires NoArea(s)
    ensures HandleEnhanceDoodle(st, RequestCanvasData(true, Some(s)), flows) == Enhanced(st, [], [], true)
  {
  }

  /** The handler with the load failure reported, as the other hosts do. */
  function EnhanceDataUrlSettling(st: DoodleState, uri: Option<DataUrl>, flows: Flows): (r: Enhanced)
    ensures r.settled
    ensures uri.Some? && ReadBack(uri.value).None? ==> r == Enhanced(st, [], [LOAD_FAILED], true)
    ensures |r.calls| > 0 <==> uri.Some? && ReadBack(uri.value).Some? && Admitted(st, ReadBack(uri.value).value)
    ensures |r.calls| == 0 ==> r.state == st && |r.toasts| == 1 && r.toasts[0].destructive
  {
    match uri
    case None => Enhanced(st, [], [NO_DOODLE_DATA], true)
    case Some(u) =>
      match ReadBack(u)
      case None => Enhanced(st, [], [LOAD_FAILED], true)
      case Some(pixels) => EnhanceLoaded(st, u, pixels, flows)
  }

  /** The settling handler does what the written one does whenever the
      written one settles, and differs only where it would wait forever. */
  lemma SettlingAgreesWhenSettled(st: DoodleState, uri: Option<DataUrl>, flows: Flows)
    ensures EnhanceDataUrl(st, uri, flows).settled ==>
              EnhanceDataUrlSettling(st, uri, flows) == EnhanceDataUrl(st, uri, flows)
    ensures !EnhanceDataUrl(st, uri, flows).settled <==> uri.Some? && ReadBack(uri.value).None?
  {
  }

  /** Nothing in the component raises the clear signal: from the initial
      state, clears and enhance runs leave it low, so the canvas is never
      told to clear. */
  lemma SignalNeverRaised(st: DoodleState, e: Export, uri: Option<DataUrl>, flows: Flows)
    requires !st.clearCanvasSignal
    ensures !HandleCanvasClear(st).clearCanvasSignal
    ensures !HandleEnhanceDoodle(st, e, flows).state.clearCanvasSignal
    ensures !EnhanceDataUrlSettling(st, uri, flows).state.clearCanvasSignal
  {
  }

  /** The blank check comes before the prompt check. */
  lemma BlankBeforePrompt(st: DoodleState, uri: DataUrl, flows: Flows)
    requires ReadBack(uri).Some? && BlankForDoodleSection(ReadBack(uri).value)
    ensures EnhanceDataUrl(st.(prompt := ""), Some(uri), flows).toasts == [EMPTY_DOODLE]
  {
  }

  /** On an export from a canvas with area, this component's blank test
      answers as the other hosts' test does, though on arbitrary buffers it
      refuses more (transparent black, for one). */
  lemma {:induction false} ExportBlankAsOtherHosts(st: DoodleState, s: Surface, flows: Flows)
    requires !NoArea(s)
    ensures var r := HandleEnhanceDoodle(st, RequestCanvasData(true, Some(s)), flows);
            && r.settled
            && (BlankAtExport(s.pixels) ==> r.toasts == [EMPTY_DOODLE] && r.calls == [])
            && (!BlankAtExport(s.pixels) ==> (|r.calls| > 0 <==> exists i :: 0 <= i < |st.prompt| && !IsWhiteSpace(st.prompt[i])))
  {
    HostSeesExport(s);
  }
}
