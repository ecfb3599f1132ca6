/** The FOP backend of fopComputeGlyphVector: the FOP calls it makes (left
    uninterpreted) and the loops LayoutProcessor runs itself over their results:
    the width loop and the glyph-index loop. */
module FopLayout {
  import opened Base
  import opened Fonts
  import opened GlyphVectors
  import opened RunParams

  /** The FOP and JDK routines the complex backend calls; their behaviour is not modelled. */
  datatype FopBackend = FopBackend(
    /** CharScript.scriptTagFromCode(CharScript.dominantScript(text)) */
    dominantScriptTag: seq<JChar> -> string,
    /** MultiByteFont.performSubstitution(text, script, language, associations, true) */
    performSubstitution: (FopFont, seq<JChar>, string, string) -> seq<JChar>,
    /** MultiByteFont.performsPositioning() */
    performsPositioning: FopFont -> bool,
    /** MultiByteFont.performPositioning(glyphs, script, language, size); None is
        the null it returns when no positioning applies */
    performPositioning: (FopFont, seq<JChar>, string, string, int) -> Option<seq<Adjustment>>,
    /** MultiByteFont.reorderCombiningMarks: the reordered glyphs and the adjustment
        rows as reordered in place */
    reorderCombiningMarks: (FopFont, seq<JChar>, Option<seq<Adjustment>>, string, string)
                           -> (seq<JChar>, seq<Adjustment>),
    /** MultiByteFont.mapChar */
    mapChar: (FopFont, JChar) -> int,
    /** MultiByteFont.getWidth(glyphIndex, size) */
    getWidth: (FopFont, int, int) -> int,
    /** MultiByteFont.findGlyphIndex */
    findGlyphIndex: (FopFont, JChar) -> int)

  /** CharUtilities.containsSurrogatePairAt: a high surrogate followed by a low one. */
  predicate SurrogatePairAt(g: seq<JChar>, i: nat)
    requires i < |g|
  {
    IsHighSurrogate(g[i]) && i + 1 < |g| && IsLowSurrogate(g[i + 1])
  }

  predicate NoSurrogatePairs(g: seq<JChar>)
  {
    forall i :: 0 <= i < |g| ==> !SurrogatePairAt(g, i)
  }

  /** The inputs of the width loop that stay fixed while it runs. */
  datatype WidthInput = WidthInput(
    glyphs: seq<JChar>,
    font: FopFont,
    backend: FopBackend,
    size1000: int,
    adjustments: Option<seq<Adjustment>>)
  {
    /** The source's loop indexes adjustment rows up to the glyph count. */
    predicate Valid()
    {
      adjustments.Some? ==> |adjustments.value| >= |glyphs|
    }

    /** The width of glyph i when it is not part of a surrogate pair: the font's
        width clamped at zero, plus the positioning's x advance when there is one. */
    function GlyphWidth(i: nat): int
      requires Valid() && i < |glyphs|
    {
      var w := backend.getWidth(font, backend.mapChar(font, glyphs[i]), size1000);
      (if w < 0 then 0 else w) + (if adjustments.Some? then adjustments.value[i].xAdvance else 0)
    }
  }

  /** The variables of the width loop: the glyph index i, the adjustment row index
      cpi, and the contents of the widths and cidSubsetGlyphIndices arrays. */
  datatype WidthState = WidthState(i: nat, cpi: nat, widths: seq<int>, indices: seq<int>)

  ghost predicate StateFits(inp: WidthInput, s: WidthState)
  {
    inp.Valid() && s.cpi <= s.i <= |inp.glyphs| && |s.widths| == |inp.glyphs| && |s.indices| == |inp.glyphs|
  }

  function InitialState(inp: WidthInput): (s: WidthState)
    requires inp.Valid()
    ensures StateFits(inp, s)
    ensures s.i == 0 && s.cpi == 0
    ensures forall k :: 0 <= k < |inp.glyphs| ==> s.widths[k] == 0 && s.indices[k] == 0
  {
    WidthState(0, 0, seq(|inp.glyphs|, _ => 0), seq(|inp.glyphs|, _ => 0))
  }

  /** One pass of the loop body. At a surrogate pair the index moves on to the low
      surrogate before the width is computed, so that width uses the still unset
      subset index of the low surrogate and lands in its slot, while cpi moves by one. */
  function WidthStep(inp: WidthInput, s: WidthState): (t: WidthState)
    requires StateFits(inp, s) && s.i < |inp.glyphs|
    ensures StateFits(inp, t) && t.cpi == s.cpi + 1
    ensures t.i == s.i + (if SurrogatePairAt(inp.glyphs, s.i) then 2 else 1)
  {
    var g := inp.glyphs;
    var idx := s.indices[s.i := inp.backend.mapChar(inp.font, g[s.i])];
    var j := if SurrogatePairAt(g, s.i) then s.i + 1 else s.i;
    var w := inp.backend.getWidth(inp.font, idx[j], inp.size1000);
    var clamped := if w < 0 then 0 else w;
    var width := if inp.adjustments.Some? then clamped + inp.adjustments.value[s.cpi].xAdvance else clamped;
    WidthState(j + 1, s.cpi + 1, s.widths[j := width], idx)
  }

  /** The loop run to completion from state s. */
  function WidthLoop(inp: WidthInput, s: WidthState): (t: WidthState)
    requires StateFits(inp, s)
    ensures StateFits(inp, t) && t.i == |inp.glyphs|
    decreases |inp.glyphs| - s.i
  {
    if s.i == |inp.glyphs| then s else WidthLoop(inp, WidthStep(inp, s))
  }

  /** The width loop and the summing loop after it: fills widths and
      cidSubsetGlyphIndices and adds up the total width. */
  method ComputeWidths(inp: WidthInput) returns (widths: array<int>, indices: array<int>, totalWidth: int)
    requires inp.Valid()
    ensures widths.Length == |inp.glyphs| && indices.Length == |inp.glyphs|
    ensures var t := WidthLoop(inp, InitialState(inp)); widths[..] == t.widths && indices[..] == t.indices
    ensures totalWidth == Sum(widths[..])
  {
    widths, indices := FillWidths(inp);
    totalWidth := SumOf(widths);
  }

  /** The width loop of fopComputeGlyphVector. */
  method FillWidths(inp: WidthInput) returns (widths: array<int>, indices: array<int>)
    requires inp.Valid()
    ensures widths.Length == |inp.glyphs| && indices.Length == |inp.glyphs|
    ensures var t := WidthLoop(inp, InitialState(inp)); widths[..] == t.widths && indices[..] == t.indices
  {
    var n := |inp.glyphs|;
    widths := new int[n](_ => 0);
    indices := new int[n](_ => 0);
    var i, cpi := 0, 0;
    ghost var final := WidthLoop(inp, InitialState(inp));
    assert widths[..] == InitialState(inp).widths && indices[..] == InitialState(inp).indices;
    while i < n
      invariant StateFits(inp, WidthState(i, cpi, widths[..], indices[..]))
      invariant WidthLoop(inp, WidthState(i, cpi, widths[..], indices[..])) == final
      decreases n - i
    {
      i, cpi := WidthLoopBody(inp, widths, indices, i, cpi);
    }
  }

  /** One pass of the width loop on the arrays. */
  method WidthLoopBody(inp: WidthInput, widths: array<int>, indices: array<int>, i0: nat, cpi: nat)
    returns (i: nat, cpi': nat)
    requires widths != indices
    requires StateFits(inp, WidthState(i0, cpi, widths[..], indices[..])) && i0 < |inp.glyphs|
    modifies widths, indices
    ensures WidthState(i, cpi', widths[..], indices[..]) == WidthStep(inp, old(WidthState(i0, cpi, widths[..], indices[..])))
  {
    ghost var before := WidthState(i0, cpi, widths[..], indices[..]);
    i := i0;
    indices[i] := inp.backend.mapChar(inp.font, inp.glyphs[i]);
    assert indices[..] == before.indices[before.i := inp.backend.mapChar(inp.font, inp.glyphs[before.i])];
    if SurrogatePairAt(inp.glyphs, i) {
      i := i + 1;
    }
    // widths[i] is assigned, clamped and adjusted in turn; one store of the final value
    var width := inp.backend.getWidth(inp.font, indices[i], inp.size1000);
    if width < 0 {
      width := 0;
    }
    if inp.adjustments.Some? {
      width := width + inp.adjustments.value[cpi].xAdvance;
    }
    widths[i] := width;
    assert widths[..] == before.widths[i := width];
    i, cpi' := i + 1, cpi + 1;
  }

  /** The summing loop of fopComputeGlyphVector. */
  method SumOf(a: array<int>) returns (total: int)
    ensures total == Sum(a[..])
  {
    total := 0;
    for k := 0 to a.Length
      invariant total == Sum(a[..k])
    {
      assert a[..k + 1][..k] == a[..k];
      total := total + a[k];
    }
    assert a[..a.Length] == a[..];
  }

  /** The glyph-code loop, without its printing: each glyph's index in the font. */
  method ComputeGlyphIndices(glyphs: seq<JChar>, font: FopFont, backend: FopBackend) returns (codes: array<int>)
    ensures codes.Length == |glyphs|
    ensures forall i :: 0 <= i < |glyphs| ==> codes[i] == backend.findGlyphIndex(font, glyphs[i])
  {
    codes := new int[|glyphs|](_ => 0);
    for i := 0 to |glyphs|
      invariant forall k :: 0 <= k < i ==> codes[k] == backend.findGlyphIndex(font, glyphs[k])
    {
      codes[i] := backend.findGlyphIndex(font, glyphs[i]);
    }
  }

  /** Without surrogate pairs the loop visits every glyph once, with cpi equal to i. */
  lemma {:induction false} WidthLoopUniformFrom(inp: WidthInput, s: WidthState)
    requires StateFits(inp, s) && NoSurrogatePairs(inp.glyphs) && s.cpi == s.i
    requires forall k :: 0 <= k < s.i ==> s.widths[k] == inp.GlyphWidth(k)
    requires forall k :: 0 <= k < s.i ==> s.indices[k] == inp.backend.mapChar(inp.font, inp.glyphs[k])
    ensures var t := WidthLoop(inp, s);
      && (forall k :: 0 <= k < |inp.glyphs| ==> t.widths[k] == inp.GlyphWidth(k))
      && (forall k :: 0 <= k < |inp.glyphs| ==> t.indices[k] == inp.backend.mapChar(inp.font, inp.glyphs[k]))
    decreases |inp.glyphs| - s.i
  {
    if s.i < |inp.glyphs| {
      var t := WidthStep(inp, s);
      assert !SurrogatePairAt(inp.glyphs, s.i);
      assert t.i == s.i + 1 && t.widths[s.i] == inp.GlyphWidth(s.i);
      WidthLoopUniformFrom(inp, t);
    }
  }

  /** Without surrogate pairs, widths[i] is max(0, font width) plus the x-advance
      adjustment of row i, and the subset index is mapChar of glyph i. */
  lemma WidthLoopUniform(inp: WidthInput)
    requires inp.Valid() && NoSurrogatePairs(inp.glyphs)
    ensures var t := WidthLoop(inp, InitialState(inp));
      && (forall k :: 0 <= k < |inp.glyphs| ==> t.widths[k] == inp.GlyphWidth(k))
      && (forall k :: 0 <= k < |inp.glyphs| ==> t.indices[k] == inp.backend.mapChar(inp.font, inp.glyphs[k]))
  {
    WidthLoopUniformFrom(inp, InitialState(inp));
  }

  predicate AllNonNegative(s: seq<int>)
  {
    forall k :: 0 <= k < |s| ==> s[k] >= 0
  }

  /** Without adjustments no width the loop leaves behind is negative, surrogate
      pairs or not. */
  lemma {:induction false} WidthsNonNegativeFrom(inp: WidthInput, s: WidthState)
    requires StateFits(inp, s) && inp.adjustments.None? && AllNonNegative(s.widths)
    ensures AllNonNegative(WidthLoop(inp, s).widths)
    decreases |inp.glyphs| - s.i
  {
    if s.i < |inp.glyphs| {
      var t := WidthStep(inp, s);
      var j := if SurrogatePairAt(inp.glyphs, s.i) then s.i + 1 else s.i;
      assert t.widths == s.widths[j := t.widths[j]] && t.widths[j] >= 0;
      WidthsNonNegativeFrom(inp, t);
    }
  }

  /** Without adjustments every width is at least zero, and so is their total. */
  lemma WidthsNonNegative(inp: WidthInput)
    requires inp.Valid() && inp.adjustments.None?
    ensures AllNonNegative(WidthLoop(inp, InitialState(inp)).widths)
    ensures Sum(WidthLoop(inp, InitialState(inp)).widths) >= 0
  {
    WidthsNonNegativeFrom(inp, InitialState(inp));
    SumNonNegative(WidthLoop(inp, InitialState(inp)).widths);
  }

  /** fopComputeGlyphVector as a value: the glyph vector FOP's
      substitution, positioning and reordering lead to, with the widths and
      glyph indices LayoutProcessor computes over them. There is no FOP font for
      a BaseFont that was never loaded (a NullPointerException), and positioning
      rows fewer than the glyphs run out of bounds in the loops. */
  function FopVector(font: Option<FopFont>, size1000: int, text: seq<JChar>, backend: FopBackend)
    : (r: Result<FopGlyphVector>)
    ensures font.None? ==> r == Failure(NullPointer)
    ensures font.Some? && !backend.performsPositioning(font.value) ==> r.Success?
    ensures r.Failure? ==> r.error == NullPointer || r.error == IndexOutOfBounds
    ensures r.Success? ==> var v := r.value;
      && |v.widths| == |v.glyphsAsChar| && |v.cidSubsetGlyphIndices| == |v.glyphsAsChar|
      && v.NumGlyphs() == |v.glyphsAsChar|
      && v.totalWidth == Sum(v.widths)
      && (forall i :: 0 <= i < v.NumGlyphs() ==> v.glyphCodes[i] == backend.findGlyphIndex(font.value, v.glyphsAsChar[i]))
      && (v.adjustments.Some? ==> backend.performsPositioning(font.value))
      && (v.adjustments.Some? ==> |v.adjustments.value| >= v.NumGlyphs())
  {
    match font
    case None => Failure(NullPointer)
    case Some(f) =>
      var script := ResolveScript(None, backend.dominantScriptTag(text));
      var language := ResolveLanguage(None);
      var substituted := backend.performSubstitution(f, text, script, language);
      var positioned :=
        if backend.performsPositioning(f) then backend.performPositioning(f, substituted, script, language, size1000)
        else None;
      var reordered := backend.reorderCombiningMarks(f, substituted, positioned, script, language);
      var glyphs := reordered.0;
      var adjustments := if positioned.Some? then Some(reordered.1) else None;
      if adjustments.Some? && |adjustments.value| < |glyphs| then Failure(IndexOutOfBounds)
      else
        var inp := WidthInput(glyphs, f, backend, size1000, adjustments);
        var t := WidthLoop(inp, InitialState(inp));
        Success(FopGlyphVector(adjustments, glyphs, t.indices,
          seq(|glyphs|, i requires 0 <= i < |glyphs| => backend.findGlyphIndex(f, glyphs[i])),
          t.widths, Sum(t.widths)))
  }
}
