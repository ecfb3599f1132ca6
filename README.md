# LayoutProcessor, modelled in Dafny

OpenPDF's `LayoutProcessor` shapes text runs for PDF output and paints them glyph
by glyph. It works with one of two layout engines. The JDK's `java.awt.Font`
layout is the AWT backend. Apache FOP's complex-script shaping is the FOP backend.

This project models the core of that class:

- **Process-wide state.** The static fields become one object of class
  `Processor.LayoutProcessor`. These are the enable switch, the layout flags
  (the Java int `-1` is the "not set" sentinel), the FOP switch, the global text
  attributes (kerning, ligatures), and the two font caches keyed by `BaseFont`.
  Every static method that changes them becomes a method with a `modifies`
  clause, and each states the whole new state. The invariant `Valid()` says
  what holds while the processor is off, and every lifecycle call preserves it.
- **Font loading.** `Locator` models how a font name becomes a byte stream:
  readable file, URL prefix, `"-"` for standard input, then packaged resource,
  after a possible rewrite through the font registry. `NewAwtFont` and
  `NewFopFont` build the font that gets cached, and the loaders fill the caches
  once per `BaseFont`. Every exception becomes a value of `Base.Error`.
- **Run parameters** (`RunParams`). These are the direction flags, from the
  global flags or else the text's bidi direction, with a font's run-direction
  attribute overriding both for AWT. They also cover FOP's script and language
  defaults, and the `(int)` cast of the size in millipoints.
- **Glyph vectors** (`GlyphVectors`). The FOP glyph vector holds its adjustment
  rows, widths and total width. The AWT glyph vector holds the positions the JDK
  reports. Each vector's `getAdjustments` is a method over a `double[n][4]`
  array. It is proved equal to a specification function `Deltas()`.
- **The FOP width loop** (`FopLayout`). It is an imperative loop over two arrays,
  which also handles surrogate pairs. It is proved equal to a step function
  `WidthStep` iterated by `WidthLoop`. The whole of `fopComputeGlyphVector` is
  the value `FopVector`, and the method is proved to return that value.
- **The painter** (`Painter`). It appends commands to a `ContentSink`. Each
  `moveTextBasic`/`showText` call on the page content becomes one appended
  command. `Paint` is proved to emit exactly `PaintSpec(gv).commands` and to
  return `PaintSpec(gv).result`. Lemmas then say what those commands do:
  - there is one move and one single-glyph show per glyph;
  - for the AWT vector, each glyph is shown at the position the layout gave it,
    the moves add up to the run-end position, and the returned correction
    cancels them;
  - for the FOP vector, which is the one `showText` actually paints, the moves
    add up to the placements plus the advance adjustments only. The returned
    correction is minus the total width, so it does not cancel the moves.

The JDK and FOP routines themselves are parameters of the model, as fields of
function type in `AwtBackend`, `FopBackend` and `FontEnv`. Examples are bidi
analysis, `layoutGlyphVector`, `performSubstitution`, `performPositioning`,
`reorderCombiningMarks`, `mapChar`, `getWidth` and `findGlyphIndex`, plus
`Font.createFont`, FOP's `LazyFont`, and the file system and its streams.
`Fonts` states what `deriveFont` does with attributes and sizes.
`isEnabled` and `getFlags` are plain field reads, `IsEnabled` and `GetFlags`,
with no contract of their own; the class invariant `Valid` says that a disabled
processor has the default flags, the FOP switch off and no cached AWT font.

The model follows the code as written. Some of its behaviour is not what the
surrounding comments and commented-out code suggest:

- The batch path of `showText` shows the whole run and returns `(0, 0)`. There
  is no final move. The move and the run-end correction are commented out
  (`LayoutProcessor.java:807-815`).
- `disable()` clears the AWT cache, the flags, the FOP switch and the global
  attributes. It does not clear the FOP font cache.
- `computeGlyphVector` runs the AWT layout and drops its result. It returns the
  FOP vector in every case, whatever `useFOP` says, so a font missing from the
  AWT cache still fails first. `loadFont` likewise loads both backends.
- The FOP `getAdjustments` copies the FOP rows. It does not default to zeros: a
  vector without positioning and with glyphs throws a `NullPointerException`.
- `enableFop()` sets the FOP switch before `enable()` checks the guard. After a
  refused second enable, the switch is therefore still on.
- In `fopComputeGlyphVector`, the bidi direction and the flags are computed but
  never used.

## Model

| member | source | states |
|---|---|---|
| Locator.EffectiveLocator | openpdf/src/main/java/com/lowagie/text/pdf/LayoutProcessor.java:385-389 | the name is replaced exactly when no such file exists and the registry has a path for it |
| Locator.ChooseStrategy | openpdf/src/main/java/com/lowagie/text/pdf/LayoutProcessor.java:390-399 | the strategies are tried in fixed order on the effective name: readable file, then URL prefix, then exactly "-", then resource; each is chosen iff all earlier ones do not apply |
| Locator.GetFontInputStream | openpdf/src/main/java/com/lowagie/text/pdf/LayoutProcessor.java:382-404 | succeeds iff the chosen strategy opens; a missing resource or a null standard input is "not found" under the effective name; a failed file or URL open is an I/O error |
| Locator.ReadableFileWins | openpdf/src/main/java/com/lowagie/text/pdf/LayoutProcessor.java:386-392 | an existing readable file is opened as a file, even when its name looks like a URL or "-" |
| Locator.StdinReachable | openpdf/src/main/java/com/lowagie/text/pdf/LayoutProcessor.java:390-397 | no URL prefix shadows "-", so "-" reaches standard input when it is not a readable file |
| Locator.RegistryOnlyForMissingFiles | openpdf/src/main/java/com/lowagie/text/pdf/LayoutProcessor.java:386-389 | a registered name is rewritten to its path only when no file of that name exists |
| RunParams.BidiFlags | openpdf/src/main/java/com/lowagie/text/pdf/LayoutProcessor.java:752-754 | the flag is left-to-right exactly when the bidi analysis says so, else right-to-left |
| RunParams.BaseFlags | openpdf/src/main/java/com/lowagie/text/pdf/LayoutProcessor.java:750-755 | set global flags are used unchanged; the sentinel is replaced by the bidi direction; the result is never the sentinel |
| RunParams.AwtFlags | openpdf/src/main/java/com/lowagie/text/pdf/LayoutProcessor.java:750-764 | a RUN_DIRECTION attribute of the font overrides the flags and the bidi direction, LTR giving left-to-right and RTL right-to-left; without it the base flags apply |
| RunParams.ResolveScript | openpdf/src/main/java/com/lowagie/text/pdf/LayoutProcessor.java:452-474 | an absent or "auto" script becomes the dominant script's tag; "zyyy" or "auto" then becomes the wildcard "*"; the result is never "zyyy" or "auto" |
| RunParams.ResolveLanguage | openpdf/src/main/java/com/lowagie/text/pdf/LayoutProcessor.java:453-462 | an absent or "none" language becomes "dflt"; any other is kept |
| RunParams.JavaFloatToInt | openpdf/src/main/java/com/lowagie/text/pdf/LayoutProcessor.java:418 | Java's (int) cast: rounds toward zero on both signs and saturates at the int range |
| RunParams.SizeInMillipoints | openpdf/src/main/java/com/lowagie/text/pdf/LayoutProcessor.java:418 | a non-negative size in range gives the floor of size*1000 |
| GlyphVectors.FopGlyphVector.LayoutFlags | openpdf/src/main/java/com/lowagie/text/pdf/LayoutProcessor.java:982-990 | the flags are FLAG_HAS_POSITION_ADJUSTMENTS iff adjustments exist, and 0 iff they are null |
| GlyphVectors.FopGlyphVector.GlyphPosition | openpdf/src/main/java/com/lowagie/text/pdf/LayoutProcessor.java:993-1001 | below the glyph count: the row's (x, y) placement, NPE on null rows, index error on a negative index; from the glyph count on: (total width, 0) |
| GlyphVectors.FopGlyphVector.Deltas | openpdf/src/main/java/com/lowagie/text/pdf/LayoutProcessor.java:1048-1060 | succeeds iff there are no glyphs or the rows cover the glyphs; null rows with glyphs are an NPE; row i is row i of the adjustments converted to doubles |
| GlyphVectors.FopGlyphVector.GetAdjustments | openpdf/src/main/java/com/lowagie/text/pdf/LayoutProcessor.java:1048-1060 | the array returned holds exactly the rows of Deltas(), and it fails exactly when Deltas() fails, with the same error |
| GlyphVectors.FopGlyphVector.GetGlyphCodes | openpdf/src/main/java/com/lowagie/text/pdf/LayoutProcessor.java:950-954 | succeeds iff every arraycopy bound holds; the first numEntries cells are glyphCodes[begin..], the rest of a given array is untouched; a null array gives a fresh one, or NegativeArraySize; on failure nothing is written |
| GlyphVectors.PositionDeltas | openpdf/src/main/java/com/lowagie/text/pdf/LayoutProcessor.java:707-734 | one row per glyph |
| GlyphVectors.PositionDeltasPrefix | openpdf/src/main/java/com/lowagie/text/pdf/LayoutProcessor.java:716-726 | the placements of the first k rows add up to the position before glyph k, and none of those rows has an advance |
| GlyphVectors.PositionDeltasTotal | openpdf/src/main/java/com/lowagie/text/pdf/LayoutProcessor.java:707-734 | the placements add up to the last glyph's position, and placements plus advances add up to the run end, on both axes |
| GlyphVectors.FillPlacements | openpdf/src/main/java/com/lowagie/text/pdf/LayoutProcessor.java:716-727 | after the loop each row's placement is its distance from the previous position, the advances are still zero, and lastX/lastY hold the last glyph's position |
| GlyphVectors.FilledHolds | openpdf/src/main/java/com/lowagie/text/pdf/LayoutProcessor.java:716-731 | the filled placements plus the last row's advance are exactly the differenced rows |
| GlyphVectors.AwtGlyphVector.GlyphPosition | openpdf/src/main/java/com/lowagie/text/pdf/LayoutProcessor.java:628-630 | the JDK answers for indexes 0..n with the reported position and throws for any other |
| GlyphVectors.AwtGlyphVector.Deltas | openpdf/src/main/java/com/lowagie/text/pdf/LayoutProcessor.java:707-734 | succeeds iff the run has a glyph and a run-end position; every failure is an index error; one row per glyph |
| GlyphVectors.AwtGlyphVector.GetAdjustments | openpdf/src/main/java/com/lowagie/text/pdf/LayoutProcessor.java:707-734 | the array returned holds exactly the differenced positions, and it fails exactly when Deltas() fails, with the same error |
| GlyphVectors.LPGlyphVector.GetAdjustments | openpdf/src/main/java/com/lowagie/text/pdf/LayoutProcessor.java:561-563 | either vector's array holds its Deltas() rows, and fails when they fail |
| GlyphVectors.HasAdjustments | openpdf/src/main/java/com/lowagie/text/pdf/LayoutProcessor.java:774-776 | an FOP vector reports adjustments iff FOP produced positioning rows; a vector with no layout flags never does |
| FopLayout.InitialState | openpdf/src/main/java/com/lowagie/text/pdf/LayoutProcessor.java:498-501 | the loop starts at glyph 0 and row 0, with width and index arrays of the glyph count holding only zeros |
| FopLayout.WidthStep | openpdf/src/main/java/com/lowagie/text/pdf/LayoutProcessor.java:501-522 | one pass advances the glyph index by one, or by two at a surrogate pair, and the row index by exactly one |
| FopLayout.WidthLoop | openpdf/src/main/java/com/lowagie/text/pdf/LayoutProcessor.java:500-523 | the loop ends with every glyph consumed and the arrays of the glyph count |
| FopLayout.ComputeWidths | openpdf/src/main/java/com/lowagie/text/pdf/LayoutProcessor.java:498-528 | the widths and subset-index arrays are those WidthLoop computes, and the total width is the sum of the widths |
| FopLayout.FillWidths | openpdf/src/main/java/com/lowagie/text/pdf/LayoutProcessor.java:500-523 | the arrays after the imperative loop are exactly the state WidthLoop reaches |
| FopLayout.WidthLoopBody | openpdf/src/main/java/com/lowagie/text/pdf/LayoutProcessor.java:501-522 | one pass on the arrays is one WidthStep on their contents |
| FopLayout.SumOf | openpdf/src/main/java/com/lowagie/text/pdf/LayoutProcessor.java:525-528 | the total is the sum of the widths |
| FopLayout.ComputeGlyphIndices | openpdf/src/main/java/com/lowagie/text/pdf/LayoutProcessor.java:536-543 | each glyph code is the font's glyph index for that reordered glyph |
| FopLayout.WidthLoopUniformFrom | openpdf/src/main/java/com/lowagie/text/pdf/LayoutProcessor.java:500-523 | from any state with row index equal to glyph index and a correct prefix, a run without surrogate pairs completes every slot correctly |
| FopLayout.WidthLoopUniform | openpdf/src/main/java/com/lowagie/text/pdf/LayoutProcessor.java:500-523 | without surrogate pairs, width i is max(0, font width) plus row i's x advance, and subset index i is mapChar of glyph i |
| FopLayout.WidthsNonNegativeFrom | openpdf/src/main/java/com/lowagie/text/pdf/LayoutProcessor.java:514-520 | without adjustments the loop never makes a width negative |
| FopLayout.WidthsNonNegative | openpdf/src/main/java/com/lowagie/text/pdf/LayoutProcessor.java:514-528 | without adjustments every width is at least zero, and so is the total |
| FopLayout.FopVector | openpdf/src/main/java/com/lowagie/text/pdf/LayoutProcessor.java:432-559 | an unloaded font is an NPE; a font without positioning always succeeds; on success the arrays match the glyphs, the total is the sum of the widths, and the codes are FOP's glyph indices; rows exist only if the font positions, and then they cover the glyphs |
| Painter.ContentSink.ShowGlyphs | openpdf/src/main/java/com/lowagie/text/pdf/LayoutProcessor.java:807 | one whole-run show is appended |
| Painter.ContentSink.ShowGlyphRange | openpdf/src/main/java/com/lowagie/text/pdf/LayoutProcessor.java:829 | one show of the given glyph range is appended |
| Painter.ContentSink.MoveTextBasic | openpdf/src/main/java/com/lowagie/text/pdf/LayoutProcessor.java:828 | one text move is appended |
| Painter.PaintSpec | openpdf/src/main/java/com/lowagie/text/pdf/LayoutProcessor.java:806-835 | without adjustment flags: one whole-run show and (0, 0); on failing rows: nothing and that error; on success with flags: the per-glyph commands and minus the run-end x with the run-end y |
| Painter.Paint | openpdf/src/main/java/com/lowagie/text/pdf/LayoutProcessor.java:806-835 | the page content gains exactly PaintSpec's commands and the result is PaintSpec's |
| Painter.PaintGlyphs | openpdf/src/main/java/com/lowagie/text/pdf/LayoutProcessor.java:822-830 | the loop appends a move and a one-glyph show for every row, in order |
| Painter.PaintFinalMove | openpdf/src/main/java/com/lowagie/text/pdf/LayoutProcessor.java:832-834 | the move after the loop is by the last row's advance, y negated |
| Painter.GlyphStepsShape | openpdf/src/main/java/com/lowagie/text/pdf/LayoutProcessor.java:822-830 | k glyphs give 2k commands: at 2i the move for glyph i, at 2i+1 the show of glyph i alone; never a whole-run show |
| Painter.PerGlyphShape | openpdf/src/main/java/com/lowagie/text/pdf/LayoutProcessor.java:822-834 | the per-glyph path emits 2n+1 commands: each glyph's move by its placement plus the previous advance with y negated, its show, and the final move by the last advance |
| Painter.NetMoveAppend | openpdf/src/main/java/com/lowagie/text/pdf/LayoutProcessor.java:822-834 | the displacement of two command lists in sequence is the sum of their displacements |
| Painter.GlyphStepsNet | openpdf/src/main/java/com/lowagie/text/pdf/LayoutProcessor.java:822-830 | after k glyphs the cursor stands at the sum of their placements and of every advance but the k-th glyph's own, y negated |
| Painter.PerGlyphNet | openpdf/src/main/java/com/lowagie/text/pdf/LayoutProcessor.java:822-834 | the moves of the per-glyph path add up to all placements plus all advances, y negated |
| Painter.ShownAtRows | openpdf/src/main/java/com/lowagie/text/pdf/LayoutProcessor.java:822-830 | the cursor when glyph i is shown is the sum of the first i+1 placements and the first i advances |
| Painter.PositionDeltasShownAt | openpdf/src/main/java/com/lowagie/text/pdf/LayoutProcessor.java:707-734 | painting differenced positions shows glyph i exactly at its layout position, y flipped |
| Painter.AwtPainting | openpdf/src/main/java/com/lowagie/text/pdf/LayoutProcessor.java:806-835 | an AWT vector with adjustment flags and rows is painted glyph by glyph and returns its run end, x negated |
| Painter.AwtPaintingPlacesGlyphs | openpdf/src/main/java/com/lowagie/text/pdf/LayoutProcessor.java:707-835 | AWT glyphs are each shown at their JDK position; the moves end at the run end; the correction returned cancels the net move on both axes |
| Painter.AwtShownAt | openpdf/src/main/java/com/lowagie/text/pdf/LayoutProcessor.java:707-734 | each AWT glyph is shown at its reported position, y flipped |
| Painter.AwtNetMove | openpdf/src/main/java/com/lowagie/text/pdf/LayoutProcessor.java:707-734 | the AWT per-glyph moves add up to the run-end position, y flipped |
| Painter.FopPaintingNet | openpdf/src/main/java/com/lowagie/text/pdf/LayoutProcessor.java:806-835 | an FOP vector with covering rows is painted glyph by glyph; the correction is minus the total width, while the moves add up to the placements and advance adjustments only |
| Painter.FopPaintingBatch | openpdf/src/main/java/com/lowagie/text/pdf/LayoutProcessor.java:806-816 | an FOP vector without positioning is one whole-run show with a zero correction |
| Painter.FopPaintingEmptyRunFails | openpdf/src/main/java/com/lowagie/text/pdf/LayoutProcessor.java:820-833 | an FOP vector with rows but no glyphs paints nothing and fails reading row -1 |
| Processor.NewAwtFont | openpdf/src/main/java/com/lowagie/text/pdf/LayoutProcessor.java:303-329 | succeeds iff the stream opens and the bytes make a font; the font has size 1 and exactly the global attributes; each failure is wrapped with the file name |
| Processor.NewFopFont | openpdf/src/main/java/com/lowagie/text/pdf/LayoutProcessor.java:338-380 | succeeds iff the stream opens and FOP builds the font; each failure is wrapped with the file name; no attributes are applied |
| Processor.FlagsContain | openpdf/src/main/java/com/lowagie/text/pdf/LayoutProcessor.java:271 | holds iff the flags were set and the query's bits are a subset of them; querying no bits only asks whether flags were set; the all-ones query never holds |
| Processor.QueryUnion | openpdf/src/main/java/com/lowagie/text/pdf/LayoutProcessor.java:270-272 | a query for q1 or q2 holds iff both queries hold |
| Processor.LayoutProcessor.constructor | openpdf/src/main/java/com/lowagie/text/pdf/LayoutProcessor.java:96-107 | the process starts disabled, with sentinel flags, FOP off, and no attributes or fonts |
| Processor.LayoutProcessor.Enable | openpdf/src/main/java/com/lowagie/text/pdf/LayoutProcessor.java:129-134 | a second enable fails with nothing changed; a first one switches on and changes nothing else |
| Processor.LayoutProcessor.EnableWithFlags | openpdf/src/main/java/com/lowagie/text/pdf/LayoutProcessor.java:143-146 | the flags are stored only when enabling succeeds |
| Processor.LayoutProcessor.EnableFop | openpdf/src/main/java/com/lowagie/text/pdf/LayoutProcessor.java:118-121 | the FOP switch is on afterwards, even when enabling is refused |
| Processor.LayoutProcessor.EnableKernLigaWithFlags | openpdf/src/main/java/com/lowagie/text/pdf/LayoutProcessor.java:164-172 | refused with nothing changed when enabled; else kerning and ligatures join the global attributes and the flags are stored |
| Processor.LayoutProcessor.EnableKernLiga | openpdf/src/main/java/com/lowagie/text/pdf/LayoutProcessor.java:153-155 | the same with the sentinel flags |
| Processor.LayoutProcessor.Disable | openpdf/src/main/java/com/lowagie/text/pdf/LayoutProcessor.java:838-844 | off, sentinel flags, FOP off, no AWT fonts and no global attributes; the FOP cache is kept |
| Processor.LayoutProcessor.IsSet | openpdf/src/main/java/com/lowagie/text/pdf/LayoutProcessor.java:270-272 | never holds while disabled, and never for the all-ones query |
| Processor.LayoutProcessor.SupportsFont | openpdf/src/main/java/com/lowagie/text/pdf/LayoutProcessor.java:274-276 | holds only when enabled with an AWT font cached; under the invariant, iff the AWT font is cached |
| Processor.LayoutProcessor.SetKerning | openpdf/src/main/java/com/lowagie/text/pdf/LayoutProcessor.java:184-186 | kerning joins the global attributes; nothing else changes |
| Processor.LayoutProcessor.SetLigatures | openpdf/src/main/java/com/lowagie/text/pdf/LayoutProcessor.java:204-206 | ligatures join the global attributes; nothing else changes |
| Processor.LayoutProcessor.SetTextAttributes | openpdf/src/main/java/com/lowagie/text/pdf/LayoutProcessor.java:257-264 | a cached AWT font is replaced by its derivation with the attributes; an uncached font changes nothing; the set of cached fonts is the same |
| Processor.LayoutProcessor.SetKerningFor | openpdf/src/main/java/com/lowagie/text/pdf/LayoutProcessor.java:195-199 | the cached font gains kerning; nothing else changes |
| Processor.LayoutProcessor.SetLigaturesFor | openpdf/src/main/java/com/lowagie/text/pdf/LayoutProcessor.java:213-217 | the cached font gains ligatures; nothing else changes |
| Processor.LayoutProcessor.SetRunDirectionRtl | openpdf/src/main/java/com/lowagie/text/pdf/LayoutProcessor.java:224-226 | the cached font gains RTL run direction and then lays out right-to-left whatever the flags and the text |
| Processor.LayoutProcessor.SetRunDirectionLtr | openpdf/src/main/java/com/lowagie/text/pdf/LayoutProcessor.java:233-235 | the cached font gains LTR run direction and then lays out left-to-right whatever the flags and the text |
| Processor.LayoutProcessor.LoadAwtFont | openpdf/src/main/java/com/lowagie/text/pdf/LayoutProcessor.java:303-329 | an already cached font is kept; else NewAwtFont's font is cached, or its error is returned with the cache unchanged |
| Processor.LayoutProcessor.LoadFopFont | openpdf/src/main/java/com/lowagie/text/pdf/LayoutProcessor.java:338-380 | an already cached font is kept; else NewFopFont's font is cached, or its error is returned with the cache unchanged |
| Processor.LayoutProcessor.LoadFont | openpdf/src/main/java/com/lowagie/text/pdf/LayoutProcessor.java:285-294 | nothing while disabled; a failing AWT load stops before FOP with its error; otherwise the new AWT font is cached, and the FOP load then caches its font or returns its error, leaving the AWT font cached; a font already cached in either map is kept |
| Processor.LayoutProcessor.FopFontOf | openpdf/src/main/java/com/lowagie/text/pdf/LayoutProcessor.java:444 | the FOP cache lookup: None exactly for a BaseFont never loaded, else its cached font |
| Processor.LayoutProcessor.AwtComputeGlyphVector | openpdf/src/main/java/com/lowagie/text/pdf/LayoutProcessor.java:744-766 | an uncached font is an NPE; else the cached font at the requested size, with its attributes, is laid out with AwtFlags |
| Processor.LayoutProcessor.FopComputeGlyphVector | openpdf/src/main/java/com/lowagie/text/pdf/LayoutProcessor.java:432-559 | the imperative code returns exactly FopVector of the cached FOP font |
| Processor.LayoutProcessor.GlyphVectorSpec | openpdf/src/main/java/com/lowagie/text/pdf/LayoutProcessor.java:413-423 | an uncached AWT font is an NPE; else the result is the FOP vector at (int)(size*1000), with FOP's error when it fails |
| Processor.LayoutProcessor.ComputeGlyphVector | openpdf/src/main/java/com/lowagie/text/pdf/LayoutProcessor.java:413-423 | the method returns exactly GlyphVectorSpec |
| Processor.LayoutProcessor.ShowText | openpdf/src/main/java/com/lowagie/text/pdf/LayoutProcessor.java:787-836 | a failed layout paints nothing and returns its error; else the page content gains PaintSpec's commands and PaintSpec's result is returned |

## Left out

- I/O: the streams are byte sequences returned by a parameter. Closing them, and
  the `finally` that ignores close errors, are not modelled.
- Concurrency: the `ConcurrentHashMap` caches are plain maps on one object, so
  races between threads are not modelled.
- Floating point: `float` and `double` are exact reals. The `(float)` casts in
  `showText`'s moves, and the rounding of `fontSize*1000` before the cast, are
  not modelled.
- FopLayout.SumOf: the `int` total width is an unbounded integer, so 32-bit
  wrap-around of the sum is not modelled. The same holds for `widths[i] +=`
  in the width loop.
- RunParams.JavaFloatToInt: the cast's behaviour on NaN is not modelled,
  because float values are reals.
- The behaviour of the JDK and FOP routines is not modelled. Bidi analysis, the
  dominant script, substitution, positioning, mark reordering, `mapChar`,
  `getWidth`, `findGlyphIndex`, `layoutGlyphVector`, `Font.createFont` and the
  LazyFont chain are uninterpreted functions. Their exceptions are folded into
  "the font could not be built" where the source wraps them.
- FopLayout.FopVector: its `IndexOutOfBounds` merges two loops. One is the
  width loop, which reads row `cpi`. The other is the listing loop, which reads
  row `i` when the rows are fewer than the glyphs. The listing loop exists only
  for its output.
- The FOP `associations` list and the `ipd` (`MinOptMax`) accumulator are not
  modelled. They are built but never read.
- The second `mapChar` of a surrogate pair's code point is not modelled. Its
  result is discarded.
- The debug output of `fopComputeGlyphVector` and `showText` is not modelled.
  This includes the `getGlyphCodes`/`getGlyphCharIndices` calls in `showText`,
  which only feed the debug output and cannot fail on those arguments.
- The glyph-vector members that only delegate to the JDK's `GlyphVector` (bounds,
  outlines, transforms, metrics, `getGlyphCharIndex`, …) are not modelled.
  Neither are the FOP members that throw `UnsupportedOperationException` or
  return constants. They are not used by the painter.
- `FopResourceResolver` is not modelled. It only hands the stream to FOP, inside
  `createFopFont`.
- A `null` `BaseFont` or `com.lowagie.text.Font` is not modelled. A font is
  identified by a `FontId`, so those `NullPointerException`s are not modelled.
- Processor.LayoutProcessor.LoadAwtFont: it requires an enabled processor, as
  its only caller `loadFont` guarantees. Loading while disabled would break the
  invariant that a disabled processor caches no AWT font.
- FopLayout.SurrogatePairAt: FOP's `CharUtilities.containsSurrogatePairAt` is
  modelled concretely, as a high surrogate followed by a low surrogate, not
  left uninterpreted.
- The Khmer demo program is not modelled. It is a caller of this class.
