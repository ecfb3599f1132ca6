/** LayoutProcessor itself: the process-wide switch, flags and attributes, the
    two font caches, font loading, and the entry points that lay out and paint
    a text run. */
module Processor {
  import opened Base
  import opened Fonts
  import opened Locator
  import opened RunParams
  import opened GlyphVectors
  import opened FopLayout
  import opened Painter

  /** What loading a font consults besides its name: where streams come from and
      the two font libraries that build a font from the bytes. */
  datatype FontEnv = FontEnv(
    fs: FileSystem,
    /** Files.newInputStream, URL.openStream, System.in, BaseFont.getResourceStream */
    open: Strategy -> Option<seq<bv8>>,
    /** java.awt.Font.createFont(TRUETYPE_FONT, stream); None is a FontFormatException */
    createAwtFont: seq<bv8> -> Option<FontFace>,
    /** FOP's LazyFont over the stream for this BaseFont and file name (the URIs built
        from the file name and the PostScript name, the font info, getRealFont and the
        cast to MultiByteFont); None is any exception on that way */
    createFopFont: (FontId, string, seq<bv8>) -> Option<FontFace>)

  /** The JDK calls of the AWT backend; their behaviour is not modelled. */
  datatype AwtBackend = AwtBackend(
    /** java.text.Bidi(...).isLeftToRight() over the text */
    isLeftToRight: seq<JChar> -> bool,
    /** java.awt.Font.layoutGlyphVector(frc, chars, 0, length, flags) */
    layoutGlyphVector: (AwtFont, seq<JChar>, Int32Bits) -> AwtGlyphVector)

  /** The AWT font loadAwtFont caches: created from the located stream,
      then given the global attributes; any failure is wrapped with the file name. */
  function NewAwtFont(filename: string, env: FontEnv, globals: Attributes): (r: Result<AwtFont>)
    ensures var s := GetFontInputStream(filename, env.fs, env.open);
      && (r.Success? <==> s.Success? && env.createAwtFont(s.value).Some?)
      && (r.Success? ==> r.value == AwtFont(env.createAwtFont(s.value).value, 1.0, globals))
      && (s.Failure? ==> r == Failure(FontCreationFailed(filename, s.error)))
      && (s.Success? && env.createAwtFont(s.value).None? ==> r == Failure(FontCreationFailed(filename, FontFormat)))
  {
    match GetFontInputStream(filename, env.fs, env.open)
    case Failure(e) => Failure(FontCreationFailed(filename, e))
    case Success(bytes) =>
      match env.createAwtFont(bytes)
      case None => Failure(FontCreationFailed(filename, FontFormat))
      case Some(face) =>
        var font := CreatedAwtFont(face);
        Success(if globals != map[] then DeriveWithAttributes(font, globals) else font)
  }

  /** The FOP font loadFopFont caches; the global attributes are not applied. */
  function NewFopFont(id: FontId, filename: string, env: FontEnv): (r: Result<FopFont>)
    ensures var s := GetFontInputStream(filename, env.fs, env.open);
      && (r.Success? <==> s.Success? && env.createFopFont(id, filename, s.value).Some?)
      && (r.Success? ==> r.value == FopFont(env.createFopFont(id, filename, s.value).value))
      && (s.Failure? ==> r == Failure(FontCreationFailed(filename, s.error)))
      && (s.Success? && env.createFopFont(id, filename, s.value).None? ==>
            r == Failure(FontCreationFailed(filename, FontFormat)))
  {
    match GetFontInputStream(filename, env.fs, env.open)
    case Failure(e) => Failure(FontCreationFailed(filename, e))
    case Success(bytes) =>
      match env.createFopFont(id, filename, bytes)
      case None => Failure(FontCreationFailed(filename, FontFormat))
      case Some(face) => Success(FopFont(face))
  }

  /** isSet: the flags were set and contain every bit of the query. Asking for
      no bits only asks whether flags were set at all, and the all-ones query
      can never hold, since it would need the flags to be the sentinel. */
  function FlagsContain(flags: Int32Bits, query: Int32Bits): (r: bool)
    ensures r <==> flags != DEFAULT_FLAGS && flags | query == flags
    ensures query == 0 ==> (r <==> flags != DEFAULT_FLAGS)
    ensures query == DEFAULT_FLAGS ==> !r
  {
    flags != DEFAULT_FLAGS && flags & query == query
  }

  /** A query for several bits holds exactly when each part of it holds. */
  lemma QueryUnion(flags: Int32Bits, q1: Int32Bits, q2: Int32Bits)
    ensures FlagsContain(flags, q1 | q2) <==> FlagsContain(flags, q1) && FlagsContain(flags, q2)
  {
    MaskUnion(flags, q1, q2);
  }

  /** Bits q1 | q2 all lie in a mask exactly when those of q1 and those of q2 do. */
  lemma MaskUnion(mask: Int32Bits, q1: Int32Bits, q2: Int32Bits)
    ensures mask & (q1 | q2) == q1 | q2 <==> mask & q1 == q1 && mask & q2 == q2
  {
    if mask & q1 == q1 && mask & q2 == q2 {
      MaskJoin(mask, q1, q2);
    }
    if mask & (q1 | q2) == q1 | q2 {
      MaskPart(mask, q1, q2);
      MaskPart(mask, q2, q1);
      assert q2 | q1 == q1 | q2;
    }
  }

  /** Two sets of bits inside a mask join inside it. */
  lemma MaskJoin(mask: Int32Bits, q1: Int32Bits, q2: Int32Bits)
    requires mask & q1 == q1 && mask & q2 == q2
    ensures mask & (q1 | q2) == q1 | q2
  {
    assert mask & (q1 | q2) == (mask & q1) | (mask & q2);
  }

  /** Part of a set of bits inside a mask is inside it. */
  lemma MaskPart(mask: Int32Bits, q1: Int32Bits, q2: Int32Bits)
    requires mask & (q1 | q2) == q1 | q2
    ensures mask & q1 == q1
  {
    assert mask & q1 == (mask & (q1 | q2)) & q1;
  }

  /** The static state of LayoutProcessor; one object stands for the process. */
  class LayoutProcessor {
    var enabled: bool
    var flags: Int32Bits
    var useFop: bool
    var globalTextAttributes: Attributes
    var awtFontMap: map<FontId, AwtFont>
    var fopFontMap: map<FontId, FopFont>

    /** While the processor is off, the flags are the sentinel, the FOP switch is
        off and no AWT font is cached. */
    ghost predicate Valid()
      reads this
    {
      !enabled ==> flags == DEFAULT_FLAGS && !useFop && awtFontMap == map[]
    }

    /** The fields no lifecycle call but disable and the loaders touch. */
    twostate predicate CachesKept()
      reads this
    {
      awtFontMap == old(awtFontMap) && fopFontMap == old(fopFontMap)
    }

    /** The static initializers. */
    constructor ()
      ensures !enabled && flags == DEFAULT_FLAGS && !useFop
      ensures globalTextAttributes == map[] && awtFontMap == map[] && fopFontMap == map[]
      ensures Valid()
    {
      enabled := false;
      flags := DEFAULT_FLAGS;
      useFop := false;
      globalTextAttributes := map[];
      awtFontMap := map[];
      fopFontMap := map[];
    }

    /** enable(): only once until disable. */
    method Enable() returns (r: Outcome)
      modifies this
      ensures Valid()
      ensures old(enabled) ==> r == Fail(AlreadyEnabled) && enabled
      ensures !old(enabled) ==> r == Pass && enabled
      ensures flags == old(flags) && useFop == old(useFop) && globalTextAttributes == old(globalTextAttributes)
      ensures CachesKept()
    {
      if enabled {
        return Fail(AlreadyEnabled);
      }
      enabled := true;
      r := Pass;
    }

    /** enable(int flags): the flags are stored only when enabling succeeds. */
    method EnableWithFlags(newFlags: Int32Bits) returns (r: Outcome)
      requires Valid()
      modifies this
      ensures Valid() && enabled
      ensures old(enabled) ==> r == Fail(AlreadyEnabled) && flags == old(flags)
      ensures !old(enabled) ==> r == Pass && flags == newFlags
      ensures useFop == old(useFop) && globalTextAttributes == old(globalTextAttributes)
      ensures CachesKept()
    {
      r := Enable();
      if r.Fail? {
        return;
      }
      flags := newFlags;
    }

    /** enableFop(): the FOP switch goes on before enable() is attempted, so it
        is on afterwards even when that call fails. */
    method EnableFop() returns (r: Outcome)
      requires Valid()
      modifies this
      ensures Valid() && enabled && useFop
      ensures old(enabled) ==> r == Fail(AlreadyEnabled)
      ensures !old(enabled) ==> r == Pass
      ensures flags == old(flags) && globalTextAttributes == old(globalTextAttributes)
      ensures CachesKept()
    {
      useFop := true;
      r := Enable();
    }

    /** enableKernLiga(int flags): refuses before touching anything, else turns
        kerning and ligatures on globally and enables with the flags. */
    method EnableKernLigaWithFlags(newFlags: Int32Bits) returns (r: Outcome)
      requires Valid()
      modifies this
      ensures Valid() && enabled
      ensures old(enabled) ==>
        r == Fail(AlreadyEnabled) && flags == old(flags) && globalTextAttributes == old(globalTextAttributes)
      ensures !old(enabled) ==>
        && r == Pass && flags == newFlags
        && globalTextAttributes == old(globalTextAttributes)[Kerning := KerningOn][Ligatures := LigaturesOn]
      ensures useFop == old(useFop)
      ensures CachesKept()
    {
      if enabled {
        return Fail(AlreadyEnabled);
      }
      SetKerning();
      SetLigatures();
      r := Enable();
      flags := newFlags;
    }

    /** enableKernLiga(): the same with the sentinel flags. */
    method EnableKernLiga() returns (r: Outcome)
      requires Valid()
      modifies this
      ensures Valid() && enabled
      ensures old(enabled) ==>
        r == Fail(AlreadyEnabled) && flags == old(flags) && globalTextAttributes == old(globalTextAttributes)
      ensures !old(enabled) ==>
        && r == Pass && flags == DEFAULT_FLAGS
        && globalTextAttributes == old(globalTextAttributes)[Kerning := KerningOn][Ligatures := LigaturesOn]
      ensures useFop == old(useFop)
      ensures CachesKept()
    {
      r := EnableKernLigaWithFlags(DEFAULT_FLAGS);
    }

    /** disable(): back to the initial state, except that the FOP cache is kept. */
    method Disable()
      modifies this
      ensures Valid()
      ensures !enabled && flags == DEFAULT_FLAGS && !useFop
      ensures awtFontMap == map[] && globalTextAttributes == map[]
      ensures fopFontMap == old(fopFontMap)
    {
      enabled := false;
      flags := DEFAULT_FLAGS;
      awtFontMap := map[];
      globalTextAttributes := map[];
      useFop := false;
    }

    function IsEnabled(): bool
      reads this
    {
      enabled
    }

    function GetFlags(): Int32Bits
      reads this
    {
      flags
    }

    /** isSet: never while disabled, and with set flags exactly when all queried
        bits are among them. */
    function IsSet(queryFlags: Int32Bits): (r: bool)
      reads this
      ensures Valid() && !enabled ==> !r
      ensures queryFlags == DEFAULT_FLAGS ==> !r
    {
      FlagsContain(flags, queryFlags)
    }

    /** supportsFont: the processor is on and has an AWT font for the BaseFont. */
    function SupportsFont(id: FontId): (r: bool)
      reads this
      ensures r ==> enabled && id in awtFontMap
      ensures Valid() ==> (r <==> id in awtFontMap)
    {
      enabled && id in awtFontMap
    }

    /** setKerning(): turns kerning on for fonts loaded from now on. */
    method SetKerning()
      modifies this
      ensures globalTextAttributes == old(globalTextAttributes)[Kerning := KerningOn]
      ensures enabled == old(enabled) && flags == old(flags) && useFop == old(useFop)
      ensures CachesKept()
    {
      globalTextAttributes := globalTextAttributes[Kerning := KerningOn];
    }

    /** setLigatures(): turns ligatures on for fonts loaded from now on. */
    method SetLigatures()
      modifies this
      ensures globalTextAttributes == old(globalTextAttributes)[Ligatures := LigaturesOn]
      ensures enabled == old(enabled) && flags == old(flags) && useFop == old(useFop)
      ensures CachesKept()
    {
      globalTextAttributes := globalTextAttributes[Ligatures := LigaturesOn];
    }

    /** setTextAttributes: a cached AWT font is replaced by one derived with the
        attributes; a BaseFont without a cached font is left alone. */
    method SetTextAttributes(id: FontId, attrs: Attributes)
      requires Valid()
      modifies this
      ensures Valid()
      ensures id in old(awtFontMap) ==> awtFontMap == old(awtFontMap)[id := DeriveWithAttributes(old(awtFontMap)[id], attrs)]
      ensures id !in old(awtFontMap) ==> awtFontMap == old(awtFontMap)
      ensures awtFontMap.Keys == old(awtFontMap).Keys
      ensures enabled == old(enabled) && flags == old(flags) && useFop == old(useFop)
      ensures globalTextAttributes == old(globalTextAttributes) && fopFontMap == old(fopFontMap)
    {
      if id in awtFontMap {
        awtFontMap := awtFontMap[id := DeriveWithAttributes(awtFontMap[id], attrs)];
      }
    }

    /** setKerning(Font) */
    method SetKerningFor(id: FontId)
      requires Valid()
      modifies this
      ensures Valid()
      ensures id in old(awtFontMap) ==> awtFontMap == old(awtFontMap)[id := DeriveWithAttributes(old(awtFontMap)[id], map[Kerning := KerningOn])]
      ensures id !in old(awtFontMap) ==> awtFontMap == old(awtFontMap)
      ensures enabled == old(enabled) && flags == old(flags) && useFop == old(useFop)
      ensures globalTextAttributes == old(globalTextAttributes) && fopFontMap == old(fopFontMap)
    {
      SetTextAttributes(id, map[Kerning := KerningOn]);
    }

    /** setLigatures(Font) */
    method SetLigaturesFor(id: FontId)
      requires Valid()
      modifies this
      ensures Valid()
      ensures id in old(awtFontMap) ==> awtFontMap == old(awtFontMap)[id := DeriveWithAttributes(old(awtFontMap)[id], map[Ligatures := LigaturesOn])]
      ensures id !in old(awtFontMap) ==> awtFontMap == old(awtFontMap)
      ensures enabled == old(enabled) && flags == old(flags) && useFop == old(useFop)
      ensures globalTextAttributes == old(globalTextAttributes) && fopFontMap == old(fopFontMap)
    {
      SetTextAttributes(id, map[Ligatures := LigaturesOn]);
    }

    /** setRunDirectionRtl(Font): a cached font then lays out right to left whatever the flags. */
    method SetRunDirectionRtl(id: FontId)
      requires Valid()
      modifies this
      ensures Valid()
      ensures id in old(awtFontMap) ==> awtFontMap == old(awtFontMap)[id := DeriveWithAttributes(old(awtFontMap)[id], map[RunDirection := RunDirectionRtl])]
      ensures id !in old(awtFontMap) ==> awtFontMap == old(awtFontMap)
      ensures id in awtFontMap ==> forall ltr :: AwtFlags(flags, ltr, awtFontMap[id].attributes) == LAYOUT_RIGHT_TO_LEFT
      ensures enabled == old(enabled) && flags == old(flags) && useFop == old(useFop)
      ensures globalTextAttributes == old(globalTextAttributes) && fopFontMap == old(fopFontMap)
    {
      SetTextAttributes(id, map[RunDirection := RunDirectionRtl]);
    }

    /** setRunDirectionLtr(Font): a cached font then lays out left to right whatever the flags. */
    method SetRunDirectionLtr(id: FontId)
      requires Valid()
      modifies this
      ensures Valid()
      ensures id in old(awtFontMap) ==> awtFontMap == old(awtFontMap)[id := DeriveWithAttributes(old(awtFontMap)[id], map[RunDirection := RunDirectionLtr])]
      ensures id !in old(awtFontMap) ==> awtFontMap == old(awtFontMap)
      ensures id in awtFontMap ==> forall ltr :: AwtFlags(flags, ltr, awtFontMap[id].attributes) == LAYOUT_LEFT_TO_RIGHT
      ensures enabled == old(enabled) && flags == old(flags) && useFop == old(useFop)
      ensures globalTextAttributes == old(globalTextAttributes) && fopFontMap == old(fopFontMap)
    {
      SetTextAttributes(id, map[RunDirection := RunDirectionLtr]);
    }

    /** loadAwtFont: a BaseFont keeps the first AWT font cached for it. */
    method LoadAwtFont(id: FontId, filename: string, env: FontEnv) returns (r: Outcome)
      requires Valid() && enabled
      modifies this
      ensures Valid()
      ensures id in old(awtFontMap) ==> r == Pass && awtFontMap == old(awtFontMap)
      ensures id !in old(awtFontMap) ==> match NewAwtFont(filename, env, globalTextAttributes)
        case Success(f) => r == Pass && awtFontMap == old(awtFontMap)[id := f]
        case Failure(e) => r == Fail(e) && awtFontMap == old(awtFontMap)
      ensures enabled == old(enabled) && flags == old(flags) && useFop == old(useFop)
      ensures globalTextAttributes == old(globalTextAttributes) && fopFontMap == old(fopFontMap)
    {
      if id in awtFontMap {
        return Pass;
      }
      var font := NewAwtFont(filename, env, globalTextAttributes);
      if font.Failure? {
        return Fail(font.error);
      }
      awtFontMap := awtFontMap[id := font.value];
      r := Pass;
    }

    /** loadFopFont: a BaseFont keeps the first FOP font cached for it. */
    method LoadFopFont(id: FontId, filename: string, env: FontEnv) returns (r: Outcome)
      requires Valid()
      modifies this
      ensures Valid()
      ensures id in old(fopFontMap) ==> r == Pass && fopFontMap == old(fopFontMap)
      ensures id !in old(fopFontMap) ==> match NewFopFont(id, filename, env)
        case Success(f) => r == Pass && fopFontMap == old(fopFontMap)[id := f]
        case Failure(e) => r == Fail(e) && fopFontMap == old(fopFontMap)
      ensures enabled == old(enabled) && flags == old(flags) && useFop == old(useFop)
      ensures globalTextAttributes == old(globalTextAttributes) && awtFontMap == old(awtFontMap)
    {
      if id in fopFontMap {
        return Pass;
      }
      var font := NewFopFont(id, filename, env);
      if font.Failure? {
        return Fail(font.error);
      }
      fopFontMap := fopFontMap[id := font.value];
      r := Pass;
    }

    /** loadFont: nothing while disabled; else the AWT font and then the FOP font,
        whatever the FOP switch says. A failing AWT load ends the call. */
    method LoadFont(id: FontId, filename: string, env: FontEnv) returns (r: Outcome)
      requires Valid()
      modifies this
      ensures Valid()
      ensures !old(enabled) ==> r == Pass && awtFontMap == old(awtFontMap) && fopFontMap == old(fopFontMap)
      ensures old(enabled) && id !in old(awtFontMap) && NewAwtFont(filename, env, globalTextAttributes).Failure? ==>
        r == Fail(NewAwtFont(filename, env, globalTextAttributes).error)
        && awtFontMap == old(awtFontMap) && fopFontMap == old(fopFontMap)
      ensures old(enabled) && id in old(awtFontMap) ==> awtFontMap == old(awtFontMap)
      ensures old(enabled) && id !in old(awtFontMap) && NewAwtFont(filename, env, globalTextAttributes).Success? ==>
        awtFontMap == old(awtFontMap)[id := NewAwtFont(filename, env, globalTextAttributes).value]
      ensures old(enabled) && (id in old(awtFontMap) || NewAwtFont(filename, env, globalTextAttributes).Success?) ==>
        if id in old(fopFontMap) then r == Pass && fopFontMap == old(fopFontMap)
        else match NewFopFont(id, filename, env)
          case Success(f) => r == Pass && fopFontMap == old(fopFontMap)[id := f]
          case Failure(e) => r == Fail(e) && fopFontMap == old(fopFontMap)
      ensures r.Pass? && old(enabled) ==> SupportsFont(id) && id in fopFontMap
      ensures r.Pass? ==> awtFontMap.Keys <= old(awtFontMap).Keys + {id} && fopFontMap.Keys <= old(fopFontMap).Keys + {id}
      ensures forall k :: k in old(awtFontMap) ==> k in awtFontMap && awtFontMap[k] == old(awtFontMap)[k]
      ensures forall k :: k in old(fopFontMap) ==> k in fopFontMap && fopFontMap[k] == old(fopFontMap)[k]
      ensures enabled == old(enabled) && flags == old(flags) && useFop == old(useFop)
      ensures globalTextAttributes == old(globalTextAttributes)
    {
      if !enabled {
        return Pass;
      }
      r := LoadAwtFont(id, filename, env);
      if r.Fail? {
        return;
      }
      r := LoadFopFont(id, filename, env);
    }

    /** The FOP font fopComputeGlyphVector finds for a BaseFont. */
    function FopFontOf(id: FontId): (r: Option<FopFont>)
      reads this
      ensures r.Some? <==> id in fopFontMap
      ensures r.Some? ==> r.value == fopFontMap[id]
    {
      if id in fopFontMap then Some(fopFontMap[id]) else None
    }

    /** awtComputeGlyphVector: the cached font at the requested size laid
        out with the global flags, the text's bidi direction when none were set, or
        the font's own run direction when it has one. */
    function AwtComputeGlyphVector(id: FontId, fontSize: real, text: seq<JChar>, awt: AwtBackend)
      : (r: Result<AwtGlyphVector>)
      reads this
      ensures id !in awtFontMap ==> r == Failure(NullPointer)
      ensures id in awtFontMap ==> var font := awtFontMap[id];
        r == Success(awt.layoutGlyphVector(AwtFont(font.face, fontSize, font.attributes), text,
                                           AwtFlags(flags, awt.isLeftToRight(text), font.attributes)))
    {
      if id !in awtFontMap then Failure(NullPointer)
      else
        var font := DeriveWithSize(awtFontMap[id], fontSize);
        Success(awt.layoutGlyphVector(font, text, AwtFlags(flags, awt.isLeftToRight(text), font.attributes)))
    }

    /** fopComputeGlyphVector. */
    method FopComputeGlyphVector(id: FontId, size1000: int, text: seq<JChar>, fop: FopBackend)
      returns (r: Result<FopGlyphVector>)
      ensures r == FopVector(FopFontOf(id), size1000, text, fop)
    {
      if id !in fopFontMap {
        // performSubstitution is called on the missing font
        return Failure(NullPointer);
      }
      var font := fopFontMap[id];
      var script := ResolveScript(None, fop.dominantScriptTag(text));
      var language := ResolveLanguage(None);
      var substituted := fop.performSubstitution(font, text, script, language);
      var positioned: Option<seq<Adjustment>> := None;
      if fop.performsPositioning(font) {
        positioned := fop.performPositioning(font, substituted, script, language, size1000);
      }
      var reordered := fop.reorderCombiningMarks(font, substituted, positioned, script, language);
      var glyphs := reordered.0;
      var adjustments := if positioned.Some? then Some(reordered.1) else None;
      if adjustments.Some? && |adjustments.value| < |glyphs| {
        // the width loop or the listing loop indexes a missing row
        return Failure(IndexOutOfBounds);
      }
      var inp := WidthInput(glyphs, font, fop, size1000, adjustments);
      var widths, indices, totalWidth := ComputeWidths(inp);
      var codes := ComputeGlyphIndices(glyphs, font, fop);
      assert codes[..] == seq(|glyphs|, i requires 0 <= i < |glyphs| => fop.findGlyphIndex(font, glyphs[i]));
      r := Success(FopGlyphVector(adjustments, glyphs, indices[..], codes[..], widths[..], totalWidth));
    }

    /** computeGlyphVector as a value: the FOP vector at the size in millipoints,
        once the AWT layout, whose result is dropped, has found its font. */
    function GlyphVectorSpec(id: FontId, fontSize: real, text: seq<JChar>, awt: AwtBackend, fop: FopBackend)
      : (r: Result<LPGlyphVector>)
      reads this
      ensures id !in awtFontMap ==> r == Failure(NullPointer)
      ensures id in awtFontMap ==> r.Success? == FopVector(FopFontOf(id), SizeInMillipoints(fontSize), text, fop).Success?
      ensures r.Success? ==> r.value == Fop(FopVector(FopFontOf(id), SizeInMillipoints(fontSize), text, fop).value)
      ensures r.Failure? && id in awtFontMap ==>
        r.error == FopVector(FopFontOf(id), SizeInMillipoints(fontSize), text, fop).error
    {
      match AwtComputeGlyphVector(id, fontSize, text, awt)
      case Failure(e) => Failure(e)
      case Success(_) =>
        match FopVector(FopFontOf(id), SizeInMillipoints(fontSize), text, fop)
        case Failure(e) => Failure(e)
        case Success(v) => Success(Fop(v))
    }

    /** computeGlyphVector. */
    method ComputeGlyphVector(id: FontId, fontSize: real, text: seq<JChar>, awt: AwtBackend, fop: FopBackend)
      returns (r: Result<LPGlyphVector>)
      ensures r == GlyphVectorSpec(id, fontSize, text, awt, fop)
    {
      var awtVector := AwtComputeGlyphVector(id, fontSize, text, awt);
      if awtVector.Failure? {
        return Failure(awtVector.error);
      }
      var fopVector := FopComputeGlyphVector(id, SizeInMillipoints(fontSize), text, fop);
      if fopVector.Failure? {
        return Failure(fopVector.error);
      }
      r := Success(Fop(fopVector.value));
    }

    /** showText: lay the run out, then paint it; a failed layout paints nothing. */
    method ShowText(cb: ContentSink, id: FontId, fontSize: real, text: seq<JChar>, awt: AwtBackend, fop: FopBackend)
      returns (r: Result<Point>)
      modifies cb
      ensures var gv := GlyphVectorSpec(id, fontSize, text, awt, fop);
        && (gv.Failure? ==> r == Failure(gv.error) && cb.commands == old(cb.commands))
        && (gv.Success? ==>
              r == PaintSpec(gv.value).result && cb.commands == old(cb.commands) + PaintSpec(gv.value).commands)
    {
      var glyphVector := ComputeGlyphVector(id, fontSize, text, awt, fop);
      if glyphVector.Failure? {
        return Failure(glyphVector.error);
      }
      r := Paint(cb, glyphVector.value);
    }
  }
}
