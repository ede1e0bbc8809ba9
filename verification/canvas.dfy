/** The drawing surface of src/components/DoodleCanvas.tsx: its bitmap, the
    white fill on initialisation, resize and clear, and the export closure it
    hands to its host through `getCanvasDataUrl`.

    A canvas element that is not mounted (`canvasRef.current` is null) is
    `None`; a mounted one always yields its 2D context. PNG encoding is
    modelled as a data URL that carries the bitmap it was made from, so
    loading it gives that bitmap back. */
module Canvas {
  import opened Wrappers
  import opened Pixels

  datatype Bitmap = Bitmap(width: nat, height: nat, pixels: seq<Pixel>)

  /** A bitmap holding one pixel per cell, row by row. */
  type Surface = b: Bitmap | |b.pixels| == b.width * b.height witness Bitmap(0, 0, [])

  /** Every pixel of `s` is `p`. */
  predicate AllPixels(s: Surface, p: Pixel) {
    forall i :: 0 <= i < |s.pixels| ==> s.pixels[i] == p
  }

  function Filled(width: nat, height: nat, p: Pixel): (s: Surface)
    ensures s.width == width && s.height == height
    ensures AllPixels(s, p)
  {
    Bitmap(width, height, seq(width * height, _ => p))
  }

  /** A canvas element as created, before any sizing: 300 by 150 pixels of
      transparent black (the HTML standard's defaults). */
  const NEW_CANVAS: Surface := Filled(300, 150, TRANSPARENT_BLACK)

  /** Assigning a different `width`/`height` gives a fresh transparent
      bitmap of the new size. */
  function Resized(width: nat, height: nat): Surface {
    Filled(width, height, TRANSPARENT_BLACK)
  }

  /** `fillRect` of the whole canvas with `#FFFFFF`. */
  function FillWhite(s: Surface): Surface {
    Filled(s.width, s.height, WHITE)
  }

  /** `clearRect` of the whole canvas. */
  function ClearRect(s: Surface): Surface {
    Filled(s.width, s.height, TRANSPARENT_BLACK)
  }

  /** What `stableInitializeCanvas` leaves: the canvas, whether it threw, and
      whether the change listener was called. */
  datatype Init = Init(canvas: Option<Surface>, threw: bool, notified: bool)

  /** `getImageData` throws an "IndexSizeError" on a zero width or height. */
  predicate NoArea(s: Surface) {
    s.width == 0 || s.height == 0
  }

  /** `stableInitializeCanvas`: the mounted canvas is filled opaque white.
      With a change listener set, the pixels are then read back, which throws
      on a canvas without area; the call that would hand the listener a data
      URL is commented out, so it is never made. */
  function StableInitializeCanvas(canvas: Option<Surface>, hasChangeListener: bool): (r: Init)
    ensures r.canvas.Some? <==> canvas.Some?
    ensures canvas.Some? ==>
              && r.canvas.value.width == canvas.value.width && r.canvas.value.height == canvas.value.height
              && AllPixels(r.canvas.value, WHITE)
              && BlankAtInit(r.canvas.value.pixels)
    ensures r.threw <==> canvas.Some? && hasChangeListener && NoArea(canvas.value)
    ensures !r.notified
  {
    match canvas
    case None => Init(None, false, false)
    case Some(s) =>
      var filled := FillWhite(s);
      WhiteIsBlankForAll(filled.pixels);
      // both outcomes of the blank test end without notifying the listener
      Init(Some(filled), hasChangeListener && NoArea(filled), false)
  }

  /** The resize rule, used both by the resize observer and at mount: a size
      differing from the current one gives a white bitmap of that size (the
      size is assigned before the initialisation that may throw), the same
      size leaves the bitmap untouched. */
  function ObserveSize(canvas: Option<Surface>, newWidth: nat, newHeight: nat, hasChangeListener: bool): (r: Init)
    ensures r.canvas.Some? <==> canvas.Some?
    ensures canvas.Some? && canvas.value.width == newWidth && canvas.value.height == newHeight ==>
              r == Init(canvas, false, false)
    ensures canvas.Some? && (canvas.value.width != newWidth || canvas.value.height != newHeight) ==>
              r.canvas == Some(Filled(newWidth, newHeight, WHITE))
    ensures r.threw <==>
              && canvas.Some? && hasChangeListener
              && (canvas.value.width != newWidth || canvas.value.height != newHeight)
              && (newWidth == 0 || newHeight == 0)
    ensures !r.notified
  {
    match canvas
    case None => Init(None, false, false)
    case Some(s) =>
      if s.width != newWidth || s.height != newHeight then
        StableInitializeCanvas(Some(Resized(newWidth, newHeight)), hasChangeListener)
      else Init(canvas, false, false)
  }

  /** `clearInternalCanvas`: clear, then initialise again. */
  function ClearInternalCanvas(canvas: Option<Surface>, hasChangeListener: bool): (r: Init)
    ensures r.canvas.Some? <==> canvas.Some?
    ensures canvas.Some? ==> r.canvas == Some(FillWhite(canvas.value))
    ensures r.threw <==> canvas.Some? && hasChangeListener && NoArea(canvas.value)
  {
    match canvas
    case None => Init(None, false, false)
    case Some(s) => StableInitializeCanvas(Some(ClearRect(s)), hasChangeListener)
  }

  /** Clearing a cleared canvas changes nothing. */
  lemma ClearIdempotent(canvas: Option<Surface>, hasChangeListener: bool)
    ensures var once := ClearInternalCanvas(canvas, hasChangeListener);
            ClearInternalCanvas(once.canvas, hasChangeListener) == once
  {
  }

  /** The clear-signal effect: a raised signal clears the canvas (if mounted)
      and then calls `onClear` (if given), unless the clear threw. The second
      component says whether `onClear` was called. */
  function OnClearSignal(canvas: Option<Surface>, clearCanvasSignal: bool, hasOnClear: bool,
                         hasChangeListener: bool): (r: (Option<Surface>, bool))
    ensures !clearCanvasSignal ==> r == (canvas, false)
    ensures clearCanvasSignal ==> r.0 == ClearInternalCanvas(canvas, hasChangeListener).canvas
    ensures r.1 <==>
              && clearCanvasSignal && hasOnClear
              && !(canvas.Some? && hasChangeListener && NoArea(canvas.value))
  {
    if clearCanvasSignal then
      var cleared := ClearInternalCanvas(canvas, hasChangeListener);
      (cleared.canvas, hasOnClear && !cleared.threw)
    else (canvas, false)
  }

  // ---------------------------------------------------------------------
  // Export

  /** The result of `toDataURL('image/png')`: the HTML standard answers
      "data:," for a bitmap without pixels. Both forms are non-empty, hence
      truthy, strings. */
  datatype DataUrl = EmptyDataUrl | PngDataUrl(image: Surface)

  function ToDataUrl(s: Surface): DataUrl {
    if s.width == 0 || s.height == 0 then EmptyDataUrl else PngDataUrl(s)
  }

  /** Loading a data URL into an `Image`; "data:," fires `onerror`. */
  function LoadImage(url: DataUrl): Option<Surface> {
    match url
    case EmptyDataUrl => None
    case PngDataUrl(image) => Some(image)
  }

  /** Encoding then loading gives the same bitmap back, for any bitmap that has
      pixels; one without pixels does not load. */
  lemma LoadAfterEncode(s: Surface)
    ensures s.width > 0 && s.height > 0 ==> LoadImage(ToDataUrl(s)) == Some(s)
    ensures s.width == 0 || s.height == 0 ==> LoadImage(ToDataUrl(s)).None?
  {
  }

  /** What a call of the export closure does: it throws, or it returns the
      canvas afterwards and its result. */
  datatype Export = Threw | Returned(canvas: Option<Surface>, url: Option<DataUrl>)

  /** The export closure: with no canvas, null. Otherwise the pixels are read
      back first, which throws on a canvas without area before the guard on
      the size is reached; a canvas that is blank by the export test is
      filled white, and the (possibly filled) canvas is encoded. The canvas
      stays filled. */
  function GetCanvasDataUrl(canvas: Option<Surface>): (r: Export)
    ensures canvas.None? ==> r == Returned(None, None)
    ensures r.Threw? <==> canvas.Some? && NoArea(canvas.value)
    ensures canvas.Some? && !NoArea(canvas.value) ==>
              && r.Returned? && r.canvas.Some? && r.url == Some(PngDataUrl(r.canvas.value))
              && (BlankAtExport(canvas.value.pixels) ==> r.canvas == Some(FillWhite(canvas.value)))
              && (!BlankAtExport(canvas.value.pixels) ==> r.canvas == canvas)
  {
    match canvas
    case None => Returned(None, None)
    case Some(s) =>
      if NoArea(s) then Threw
      else
        var isEffectivelyBlank := BlankAtExport(s.pixels);
        var s' := if isEffectivelyBlank then FillWhite(s) else s;
        Returned(Some(s'), Some(ToDataUrl(s')))
  }

  /** What a host sees when it loads an export: the closure throws for a
      canvas without area; otherwise the image loads, and it is blank by the
      host test exactly when the canvas was blank by the export test, and
      then is all white. So an exported image never carries the transparency
      of a blank canvas. */
  lemma {:induction false} ExportedImage(s: Surface)
    ensures GetCanvasDataUrl(Some(s)).Threw? <==> NoArea(s)
    ensures !NoArea(s) ==>
              var image := LoadImage(GetCanvasDataUrl(Some(s)).url.value);
              && image.Some?
              && (BlankForHost(image.value.pixels) <==> BlankAtExport(s.pixels))
              && (BlankAtExport(s.pixels) ==> AllPixels(image.value, WHITE))
  {
    if !NoArea(s) {
      var exported := GetCanvasDataUrl(Some(s)).canvas.value;
      LoadAfterEncode(exported);
      BlankAtExportIsBlankForHost(s.pixels);
      if BlankAtExport(s.pixels) {
        WhiteIsBlankForAll(exported.pixels);
      }
    }
  }

  /** On exported images the DoodleSection test and the host test agree,
      though they differ on arbitrary buffers: the white fill removes the
      transparent pixels on which they part. */
  lemma {:induction false} ExportedImageTestsAgree(s: Surface)
    requires !NoArea(s)
    ensures var image := LoadImage(GetCanvasDataUrl(Some(s)).url.value).value;
            BlankForDoodleSection(image.pixels) <==> BlankForHost(image.pixels)
  {
    var image := LoadImage(GetCanvasDataUrl(Some(s)).url.value).value;
    ExportedImage(s);
    BlankTestsImplyHostBlank(image.pixels);
    if BlankForHost(image.pixels) {
      WhiteIsBlankForAll(image.pixels);
    }
  }

  /** A canvas that was mounted but never resized (its parent happens to be
      300 by 150) still holds transparent black; the export turns it white. */
  lemma UnsizedCanvasExportsWhite()
    ensures GetCanvasDataUrl(Some(NEW_CANVAS)) == Returned(Some(FillWhite(NEW_CANVAS)), Some(PngDataUrl(FillWhite(NEW_CANVAS))))
  {
    assert BlankAtExport(NEW_CANVAS.pixels) by {
      forall i | 0 <= i < |NEW_CANVAS.pixels|
        ensures !DrawnAtExport(NEW_CANVAS.pixels[i])
      {
        WordFacts(NEW_CANVAS.pixels[i]);
      }
    }
  }
}
