/** What the three components that host a `DoodleCanvas`
    (src/components/MagicCanvasSection.tsx, EquationSolverSection.tsx and
    DoodleSection.tsx) share: the AI flows they call, the toasts they show,
    and the pixels their blank check reads back from an export.

    The AI flows of src/ai/flows are not part of this model: each is a
    parameter giving the answer it would return, or the message of the error
    it would throw. */
module Hosts {
  import opened Wrappers
  import opened JsBuiltins
  import opened Pixels
  import opened Canvas

  /** A toast; `destructive` is the error variant. */
  datatype Toast = Toast(title: string, description: string, destructive: bool)

  /** `SolveEquationOutput`, less its source URLs. */
  datatype SolveOutput = SolveOutput(solution: string, recognizedEquationText: Option<string>)

  /** `RecommendTutorialsOutput`. */
  datatype Tutorials = Tutorials(tutorialTitles: seq<string>, tutorialUrls: seq<string>)

  /** A call into an AI flow, with the input object it is given. */
  datatype AiCall =
    | EnhanceDoodle(doodleDataUri: DataUrl, prompt: string)
    | SolveEquation(equationImageDataUri: DataUrl)
    | RecommendTutorials(query: string)

  /** The answers of `enhanceDoodle` (its `enhancedArtworkDataUri`),
      `solveEquation` and `recommendTutorials`. */
  datatype Flows = Flows(
    enhance: (DataUrl, string) -> Result<string, string>,
    solve: DataUrl -> Result<SolveOutput, string>,
    recommend: string -> Result<Tutorials, string>)

  /** `getCanvasDataUrlRef.current ? getCanvasDataUrlRef.current() : null`:
      the export closure when the canvas has registered one, else a null
      data URL with the canvas untouched. */
  function RequestCanvasData(registered: bool, canvas: Option<Surface>): Export {
    if registered then GetCanvasDataUrl(canvas) else Returned(canvas, None)
  }

  /** The pixels the blank check reads: the data URL loaded into an `Image`,
      drawn at (0, 0) on a fresh canvas of the image's size, and read back;
      `None` when the image fails to load. */
  function ReadBack(uri: DataUrl): Option<seq<Pixel>> {
    match LoadImage(uri)
    case None => None
    case Some(image) => Some(image.pixels)
  }

  /** `!prompt.trim()`. */
  predicate PromptMissing(prompt: string) {
    Trim(prompt) == ""
  }

  /** A prompt is missing exactly when it is white space only. */
  lemma PromptMissingMeans(prompt: string)
    ensures PromptMissing(prompt) <==> forall i :: 0 <= i < |prompt| ==> IsWhiteSpace(prompt[i])
  {
    TrimEmptyIffBlank(prompt);
  }

  const EQUATION_HELP := "mathematical equation help"

  /** `solveOutput.recognizedEquationText || "mathematical equation help"`:
      the recognised text when there is any, else the fixed query; never
      empty. */
  function TutorialQuery(recognized: Option<string>): (q: string)
    ensures q != ""
    ensures recognized.Some? && recognized.value != "" ==> q == recognized.value
    ensures recognized.None? || recognized.value == "" ==> q == EQUATION_HELP
  {
    if recognized.Some? && recognized.value != "" then recognized.value else EQUATION_HELP
  }

  /** What a host's blank check sees of a registered, mounted canvas: the
      closure throws when the canvas has no area; otherwise the data loads,
      and its pixels are blank by either host test exactly when the canvas
      was blank at export. */
  lemma {:induction false} HostSeesExport(s: Surface)
    ensures RequestCanvasData(true, Some(s)).Threw? <==> NoArea(s)
    ensures !NoArea(s) ==>
              var data := RequestCanvasData(true, Some(s)).url;
              && data.Some? && ReadBack(data.value).Some?
              && (BlankForHost(ReadBack(data.value).value) <==> BlankAtExport(s.pixels))
              && (BlankForDoodleSection(ReadBack(data.value).value) <==> BlankAtExport(s.pixels))
  {
    ExportedImage(s);
    if !NoArea(s) {
      ExportedImageTestsAgree(s);
    }
  }

  /** Whatever the canvas, a data URL the closure returns always loads: a
      canvas without area throws before it reaches `toDataURL`. */
  lemma {:induction false} ReturnedDataLoads(registered: bool, canvas: Option<Surface>)
    ensures var e := RequestCanvasData(registered, canvas);
            e.Returned? && e.url.Some? ==> ReadBack(e.url.value).Some?
  {
    if registered && canvas.Some? {
      ExportedImage(canvas.value);
    }
  }
}
