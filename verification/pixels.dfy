/** RGBA pixels and the four "is the canvas blank?" tests found in the
    components. Two of them (src/components/DoodleCanvas.tsx) read the pixel
    bytes through a `Uint32Array`, so a pixel is also a 32-bit word, packed
    little-endian: red in the low byte, alpha in the high byte. The other two
    (src/components/MagicCanvasSection.tsx and EquationSolverSection.tsx
    share one; src/components/DoodleSection.tsx has its own) read the bytes.

    Each test is stated as the source writes it, as "some pixel counts as
    drawn"; a buffer is blank when none does. */
module Pixels {

  /** Four bytes of `ImageData.data`, in order red, green, blue, alpha. */
  datatype Pixel = Pixel(r: bv8, g: bv8, b: bv8, a: bv8)

  const WHITE := Pixel(255, 255, 255, 255)
  const TRANSPARENT_BLACK := Pixel(0, 0, 0, 0)

  /** The `Uint32Array` element over the pixel's four bytes. */
  function Word(p: Pixel): bv32 {
    ((p.a as bv32) << 24) | ((p.b as bv32) << 16) | ((p.g as bv32) << 8) | (p.r as bv32)
  }

  /** DoodleCanvas.tsx:46, `pxColor !== 0 && pxColor !== 0xffffffff`. */
  predicate DrawnAtInit(p: Pixel) {
    Word(p) != 0 && Word(p) != 0xffff_ffff
  }

  /** DoodleCanvas.tsx:101, `(pxColor & 0xff000000) !== 0 && pxColor !== 0xffffffff`.
      JavaScript's `&` yields a signed 32-bit result, which differs from the
      unsigned one only in sign, so the test against 0 is the same. */
  predicate DrawnAtExport(p: Pixel) {
    Word(p) & 0xff00_0000 != 0 && Word(p) != 0xffff_ffff
  }

  /** MagicCanvasSection.tsx:106 and EquationSolverSection.tsx:81: not opaque
      white and not fully transparent. */
  predicate DrawnForHost(p: Pixel) {
    !(p.r == 255 && p.g == 255 && p.b == 255 && p.a == 255) && p.a != 0
  }

  /** DoodleSection.tsx:61. JavaScript's `&&` binds tighter than `||`, so the
      alpha test is one disjunct: any colour channel off 255, or alpha neither
      0 nor 255. */
  predicate DrawnForDoodleSection(p: Pixel) {
    p.r != 255 || p.g != 255 || p.b != 255 || (p.a != 0 && p.a != 255)
  }

  predicate BlankAtInit(px: seq<Pixel>) {
    !exists i :: 0 <= i < |px| && DrawnAtInit(px[i])
  }

  predicate BlankAtExport(px: seq<Pixel>) {
    !exists i :: 0 <= i < |px| && DrawnAtExport(px[i])
  }

  predicate BlankForHost(px: seq<Pixel>) {
    !exists i :: 0 <= i < |px| && DrawnForHost(px[i])
  }

  predicate BlankForDoodleSection(px: seq<Pixel>) {
    !exists i :: 0 <= i < |px| && DrawnForDoodleSection(px[i])
  }

  // ---------------------------------------------------------------------
  // What each test means, pixel by pixel

  /** The word is 0 exactly for transparent black and 0xffffffff exactly for
      opaque white; its top byte is the alpha channel. */
  lemma WordFacts(p: Pixel)
    ensures Word(p) == 0 <==> p == TRANSPARENT_BLACK
    ensures Word(p) == 0xffff_ffff <==> p == WHITE
    ensures Word(p) & 0xff00_0000 != 0 <==> p.a != 0
  {
  }

  /** At initialisation, only transparent black and opaque white pass. */
  lemma DrawnAtInitMeans(p: Pixel)
    ensures DrawnAtInit(p) <==> p != TRANSPARENT_BLACK && p != WHITE
  {
    WordFacts(p);
  }

  /** At export, any fully transparent pixel passes, as does opaque white: the
      same test as the host components'. */
  lemma DrawnAtExportMeans(p: Pixel)
    ensures DrawnAtExport(p) <==> p.a != 0 && p != WHITE
    ensures DrawnAtExport(p) <==> DrawnForHost(p)
  {
    WordFacts(p);
  }

  // ---------------------------------------------------------------------
  // How the buffer tests relate

  /** The export test and the host test are one predicate. */
  lemma {:induction false} BlankAtExportIsBlankForHost(px: seq<Pixel>)
    ensures BlankAtExport(px) <==> BlankForHost(px)
  {
    forall i | 0 <= i < |px| {
      DrawnAtExportMeans(px[i]);
    }
  }

  /** Both the initialisation test and the DoodleSection test are stronger
      than the host test. */
  lemma {:induction false} BlankTestsImplyHostBlank(px: seq<Pixel>)
    ensures BlankAtInit(px) ==> BlankForHost(px)
    ensures BlankForDoodleSection(px) ==> BlankForHost(px)
  {
    forall i | 0 <= i < |px| {
      DrawnAtInitMeans(px[i]);
    }
  }

  /** The DoodleSection test blanks exactly the buffers whose pixels are all
      white with alpha 0 or 255. */
  lemma BlankForDoodleSectionMeans(px: seq<Pixel>)
    ensures BlankForDoodleSection(px) <==>
              forall i :: 0 <= i < |px| ==>
                px[i].r == 255 && px[i].g == 255 && px[i].b == 255 && (px[i].a == 0 || px[i].a == 255)
  {
  }

  /** None of the stronger tests coincides with the host test, and the
      initialisation and DoodleSection tests are incomparable: a transparent
      black pixel is blank for the host and at initialisation but drawn for
      DoodleSection; a transparent coloured pixel is blank only for the
      host; transparent white is blank for DoodleSection but not at
      initialisation. */
  lemma BlankTestsDiffer()
    ensures BlankForHost([TRANSPARENT_BLACK]) && BlankAtInit([TRANSPARENT_BLACK])
    ensures !BlankForDoodleSection([TRANSPARENT_BLACK])
    ensures BlankForHost([Pixel(1, 2, 3, 0)])
    ensures !BlankAtInit([Pixel(1, 2, 3, 0)]) && !BlankForDoodleSection([Pixel(1, 2, 3, 0)])
    ensures BlankForDoodleSection([Pixel(255, 255, 255, 0)]) && !BlankAtInit([Pixel(255, 255, 255, 0)])
  {
    DrawnAtInitMeans(TRANSPARENT_BLACK);
    assert [TRANSPARENT_BLACK][0] == TRANSPARENT_BLACK;
    DrawnAtInitMeans(Pixel(1, 2, 3, 0));
    DrawnAtInitMeans(Pixel(255, 255, 255, 0));
    assert [Pixel(1, 2, 3, 0)][0] == Pixel(1, 2, 3, 0);
    assert [Pixel(255, 255, 255, 0)][0] == Pixel(255, 255, 255, 0);
  }

  /** An all-white buffer is blank by every test. */
  lemma {:induction false} WhiteIsBlankForAll(px: seq<Pixel>)
    requires forall i :: 0 <= i < |px| ==> px[i] == WHITE
    ensures BlankAtInit(px) && BlankAtExport(px) && BlankForHost(px) && BlankForDoodleSection(px)
  {
    WordFacts(WHITE);
  }
}
