/** The two glyph vectors a shaped run can come back as (FopGlyphVector and
    AwtGlyphVector, both LPGlyphVectors), reduced to what the painter uses:
    glyph count, layout flags, glyph positions and per-glyph adjustments. */
module GlyphVectors {
  import opened Base

  /** Column indexes of an adjustment row (GlyphPositioningTable.Value). */
  const IDX_X_PLACEMENT: nat := 0
  const IDX_Y_PLACEMENT: nat := 1
  const IDX_X_ADVANCE: nat := 2
  const IDX_Y_ADVANCE: nat := 3

  /** GlyphVector.FLAG_HAS_POSITION_ADJUSTMENTS. */
  const FLAG_HAS_POSITION_ADJUSTMENTS: Int32Bits := 2

  /** One int[4] row of FOP's positioning result, in millipoints. */
  datatype Adjustment = Adjustment(xPlacement: int, yPlacement: int, xAdvance: int, yAdvance: int)
  {
    /** The row read by column index. */
    function At(j: nat): int
      requires j < 4
    {
      if j == IDX_X_PLACEMENT then xPlacement
      else if j == IDX_Y_PLACEMENT then yPlacement
      else if j == IDX_X_ADVANCE then xAdvance
      else yAdvance
    }
  }

  /** One double[4] row of what getAdjustments returns to the painter. */
  datatype Delta = Delta(xPlacement: real, yPlacement: real, xAdvance: real, yAdvance: real)

  /** `a` is the double[n][4] array whose rows are `d`. */
  ghost predicate Holds(a: array2<real>, d: seq<Delta>)
    reads a
  {
    && a.Length0 == |d| && a.Length1 == 4
    && forall i :: 0 <= i < |d| ==>
         && a[i, IDX_X_PLACEMENT] == d[i].xPlacement
         && a[i, IDX_Y_PLACEMENT] == d[i].yPlacement
         && a[i, IDX_X_ADVANCE] == d[i].xAdvance
         && a[i, IDX_Y_ADVANCE] == d[i].yAdvance
  }

  /** Component-wise sum of a sequence of rows. */
  function Total(d: seq<Delta>): Delta
  {
    if d == [] then Delta(0.0, 0.0, 0.0, 0.0)
    else
      var t := Total(d[..|d| - 1]);
      var last := d[|d| - 1];
      Delta(t.xPlacement + last.xPlacement, t.yPlacement + last.yPlacement,
            t.xAdvance + last.xAdvance, t.yAdvance + last.yAdvance)
  }

  /** The position before glyph i: the origin for the first glyph. */
  function Previous(pos: seq<Point>, i: nat): Point
    requires i <= |pos|
  {
    if i == 0 then Point(0.0, 0.0) else pos[i - 1]
  }

  /** Relative rows from absolute positions pos[0..n] (AwtGlyphVector.getAdjustments):
      the placement of glyph i is its position minus the previous one, and only
      the last glyph has an advance, the run end minus its own position. */
  function PositionDeltas(pos: seq<Point>, n: nat): (d: seq<Delta>)
    requires 1 <= n < |pos|
    ensures |d| == n
  {
    seq(n, i requires 0 <= i < n =>
      Delta(pos[i].x - Previous(pos, i).x, pos[i].y - Previous(pos, i).y,
            if i == n - 1 then pos[n].x - pos[n - 1].x else 0.0,
            if i == n - 1 then pos[n].y - pos[n - 1].y else 0.0))
  }

  /** The placements of the first k rows add up to the position before glyph k,
      and no row before the last carries an advance. */
  lemma {:induction false} PositionDeltasPrefix(pos: seq<Point>, n: nat, k: nat)
    requires 1 <= n < |pos| && k < n
    ensures Total(PositionDeltas(pos, n)[..k]) == Delta(Previous(pos, k).x, Previous(pos, k).y, 0.0, 0.0)
  {
    var d := PositionDeltas(pos, n);
    if k > 0 {
      PositionDeltasPrefix(pos, n, k - 1);
      assert d[..k][..k - 1] == d[..k - 1];
    }
  }

  /** Differencing telescopes: the placements add up to the last glyph's position,
      and placements plus advances to the run end pos[n], on both axes. */
  lemma PositionDeltasTotal(pos: seq<Point>, n: nat)
    requires 1 <= n < |pos|
    ensures Total(PositionDeltas(pos, n)) == Delta(pos[n - 1].x, pos[n - 1].y,
                                                   pos[n].x - pos[n - 1].x, pos[n].y - pos[n - 1].y)
    ensures var t := Total(PositionDeltas(pos, n));
      t.xPlacement + t.xAdvance == pos[n].x && t.yPlacement + t.yAdvance == pos[n].y
  {
    var d := PositionDeltas(pos, n);
    PositionDeltasPrefix(pos, n, n - 1);
    assert d[..n] == d;
    assert d[..n][..n - 1] == d[..n - 1];
  }

  /** LayoutProcessor.FopGlyphVector: FOP's adjustments (null when the font has no
      positioning), the reordered glyphs as chars, their subset indices, the glyph
      codes, the per-glyph widths and their total. */
  datatype FopGlyphVector = FopGlyphVector(
    adjustments: Option<seq<Adjustment>>,
    glyphsAsChar: seq<JChar>,
    cidSubsetGlyphIndices: seq<int>,
    glyphCodes: seq<int>,
    widths: seq<int>,
    totalWidth: int)
  {
    function NumGlyphs(): nat
    {
      |glyphCodes|
    }

    /** getLayoutFlags: only FLAG_HAS_POSITION_ADJUSTMENTS, and exactly when
        adjustments exist. */
    function LayoutFlags(): (f: Int32Bits)
      ensures f == FLAG_HAS_POSITION_ADJUSTMENTS <==> adjustments.Some?
      ensures f == 0 <==> adjustments.None?
    {
      if adjustments.Some? then FLAG_HAS_POSITION_ADJUSTMENTS else 0
    }

    /** getGlyphPosition: a glyph's (x, y) placement, and the point (total width, 0)
        for every index from the glyph count on. */
    function GlyphPosition(i: int): (r: Result<Point>)
      ensures i >= NumGlyphs() ==> r == Success(Point(totalWidth as real, 0.0))
      ensures 0 <= i < NumGlyphs() && adjustments.Some? && i < |adjustments.value| ==>
        r == Success(Point(adjustments.value[i].xPlacement as real, adjustments.value[i].yPlacement as real))
      ensures i < NumGlyphs() && adjustments.None? ==> r == Failure(NullPointer)
      ensures i < 0 && adjustments.Some? ==> r == Failure(IndexOutOfBounds)
    {
      if i < NumGlyphs() then
        if adjustments.None? then Failure(NullPointer)
        else if i < 0 || i >= |adjustments.value| then Failure(IndexOutOfBounds)
        else Success(Point(adjustments.value[i].xPlacement as real, adjustments.value[i].yPlacement as real))
      else Success(Point(totalWidth as real, 0.0))
    }

    /** What getAdjustments returns: the adjustment rows, converted to doubles,
        one per glyph; no glyphs give an empty array even without adjustments. */
    function Deltas(): (r: Result<seq<Delta>>)
      ensures NumGlyphs() == 0 ==> r == Success([])
      ensures NumGlyphs() > 0 && adjustments.None? ==> r == Failure(NullPointer)
      ensures r.Success? <==>
        NumGlyphs() == 0 || (adjustments.Some? && |adjustments.value| >= NumGlyphs())
      ensures r.Success? ==> |r.value| == NumGlyphs() && forall i :: 0 <= i < NumGlyphs() ==>
        var a := adjustments.value[i];
        r.value[i] == Delta(a.xPlacement as real, a.yPlacement as real, a.xAdvance as real, a.yAdvance as real)
    {
      var n := NumGlyphs();
      if n == 0 then Success([])
      else if adjustments.None? then Failure(NullPointer)
      else if |adjustments.value| < n then Failure(IndexOutOfBounds)
      else
        var adj := adjustments.value;
        Success(seq(n, i requires 0 <= i < n =>
          Delta(adj[i].xPlacement as real, adj[i].yPlacement as real,
                adj[i].xAdvance as real, adj[i].yAdvance as real)))
    }

    /** getAdjustments: an element-wise copy of the rows into a new double[n][4]. */
    method GetAdjustments() returns (r: Result<array2<real>>)
      ensures r.Success? <==> Deltas().Success?
      ensures r.Failure? ==> r.error == Deltas().error
      ensures r.Success? ==> Holds(r.value, Deltas().value)
    {
      var n := NumGlyphs();
      var result := new real[n, 4]((i, j) => 0.0);
      if n > 0 && adjustments.None? {
        return Failure(NullPointer);
      }
      if n > 0 && |adjustments.value| < n {
        return Failure(IndexOutOfBounds);
      }
      for i := 0 to n
        invariant forall k, j :: 0 <= k < i && 0 <= j < 4 ==> result[k, j] == adjustments.value[k].At(j) as real
      {
        for j := 0 to 4
          invariant forall k, m :: 0 <= k < i && 0 <= m < 4 ==> result[k, m] == adjustments.value[k].At(m) as real
          invariant forall m :: 0 <= m < j ==> result[i, m] == adjustments.value[i].At(m) as real
        {
          result[i, j] := adjustments.value[i].At(j) as real;
        }
      }
      r := Success(result);
    }

    /** getGlyphCodes: copy glyphCodes[begin..begin+numEntries) to the front of
        codeReturn, or of a new array when it is null, as System.arraycopy does:
        every bound is checked before anything is copied. */
    method GetGlyphCodes(begin: int, numEntries: int, codeReturn: array?<int>) returns (r: Result<array<int>>)
      modifies codeReturn
      ensures codeReturn == null && numEntries < 0 ==> r == Failure(NegativeArraySize)
      ensures r.Success? <==>
        && 0 <= begin && 0 <= numEntries && begin + numEntries <= |glyphCodes|
        && (codeReturn != null ==> numEntries <= codeReturn.Length)
      ensures r.Success? && codeReturn != null ==> r.value == codeReturn
      ensures r.Success? && codeReturn == null ==> fresh(r.value) && r.value.Length == numEntries
      ensures r.Success? ==>
        && r.value[..numEntries] == glyphCodes[begin..begin + numEntries]
        && (codeReturn != null ==> r.value[numEntries..] == old(codeReturn[numEntries..]))
      ensures r.Failure? && codeReturn != null ==> codeReturn[..] == old(codeReturn[..])
    {
      var target: array<int>;
      if codeReturn != null {
        target := codeReturn;
      } else if numEntries < 0 {
        return Failure(NegativeArraySize);
      } else {
        target := new int[numEntries](_ => 0);
      }
      if begin < 0 || numEntries < 0 || begin + numEntries > |glyphCodes| || numEntries > target.Length {
        return Failure(IndexOutOfBounds);
      }
      forall k | 0 <= k < numEntries {
        target[k] := glyphCodes[begin + k];
      }
      r := Success(target);
    }
  }

  /** Cell (k, j) of the AWT adjustment array once the placement loop has done
      rows 0..i-1: the distance from the previous position, or still zero. */
  ghost function Filled(pos: seq<Point>, i: nat, k: nat, j: nat): real
    requires k < |pos|
  {
    if k < i && j == IDX_X_PLACEMENT then pos[k].x - Previous(pos, k).x
    else if k < i && j == IDX_Y_PLACEMENT then pos[k].y - Previous(pos, k).y
    else 0.0
  }

  /** The placement loop of AwtGlyphVector.getAdjustments, which also leaves the
      previous position in lastX and lastY. */
  method FillPlacements(adjustments: array2<real>, positions: seq<Point>, n: nat) returns (lastX: real, lastY: real)
    requires adjustments.Length0 == n && adjustments.Length1 == 4 && n < |positions|
    requires forall k, j :: 0 <= k < n && 0 <= j < 4 ==> adjustments[k, j] == 0.0
    modifies adjustments
    ensures lastX == Previous(positions, n).x && lastY == Previous(positions, n).y
    ensures forall k, j :: 0 <= k < n && 0 <= j < 4 ==> adjustments[k, j] == Filled(positions, n, k, j)
  {
    lastX, lastY := 0.0, 0.0;
    for i := 0 to n
      invariant lastX == Previous(positions, i).x && lastY == Previous(positions, i).y
      invariant forall k, j :: 0 <= k < n && 0 <= j < 4 ==> adjustments[k, j] == Filled(positions, i, k, j)
    {
      var p := positions[i];
      adjustments[i, IDX_X_PLACEMENT] := p.x - lastX;
      adjustments[i, IDX_Y_PLACEMENT] := p.y - lastY;
      lastX, lastY := p.x, p.y;
    }
  }

  /** Filled placements plus the last row's advance are the differenced rows. */
  lemma FilledHolds(a: array2<real>, pos: seq<Point>, n: nat)
    requires 1 <= n < |pos| && a.Length0 == n && a.Length1 == 4
    requires forall k, j :: 0 <= k < n - 1 && 0 <= j < 4 ==> a[k, j] == Filled(pos, n, k, j)
    requires a[n - 1, IDX_X_PLACEMENT] == Filled(pos, n, n - 1, IDX_X_PLACEMENT)
    requires a[n - 1, IDX_Y_PLACEMENT] == Filled(pos, n, n - 1, IDX_Y_PLACEMENT)
    requires a[n - 1, IDX_X_ADVANCE] == pos[n].x - pos[n - 1].x && a[n - 1, IDX_Y_ADVANCE] == pos[n].y - pos[n - 1].y
    ensures Holds(a, PositionDeltas(pos, n))
  {
  }

  /** LayoutProcessor.AwtGlyphVector around the JDK's java.awt.font.GlyphVector:
      glyph codes, the positions the JDK reports for indexes 0..n, and its flags. */
  datatype AwtGlyphVector = AwtGlyphVector(glyphCodes: seq<int>, positions: seq<Point>, layoutFlags: Int32Bits)
  {
    function NumGlyphs(): nat
    {
      |glyphCodes|
    }

    /** The JDK answers for indexes 0..n and throws for any other. */
    function GlyphPosition(i: int): (r: Result<Point>)
      ensures r.Success? <==> 0 <= i <= NumGlyphs() && i < |positions|
      ensures r.Success? ==> r.value == positions[i]
    {
      if 0 <= i <= NumGlyphs() && i < |positions| then Success(positions[i]) else Failure(IndexOutOfBounds)
    }

    /** What getAdjustments returns: consecutive positions differenced; a run
        without glyphs fails on the row index -1. */
    function Deltas(): (r: Result<seq<Delta>>)
      ensures r.Success? <==> NumGlyphs() >= 1 && |positions| > NumGlyphs()
      ensures r.Failure? ==> r.error == IndexOutOfBounds
      ensures r.Success? ==> |r.value| == NumGlyphs()
    {
      if NumGlyphs() == 0 || |positions| <= NumGlyphs() then Failure(IndexOutOfBounds)
      else Success(PositionDeltas(positions, NumGlyphs()))
    }

    /** getAdjustments: one pass over the glyphs filling each placement with the
        distance from the previous position, then the last glyph's advance. */
    method GetAdjustments() returns (r: Result<array2<real>>)
      ensures r.Success? <==> Deltas().Success?
      ensures r.Failure? ==> r.error == Deltas().error
      ensures r.Success? ==> Holds(r.value, Deltas().value)
    {
      var n := NumGlyphs();
      var adjustments := new real[n, 4]((i, j) => 0.0);
      // the loop would fail on position n + 1 or on row -1 below
      if n == 0 || |positions| <= n {
        return Failure(IndexOutOfBounds);
      }
      var lastX, lastY := FillPlacements(adjustments, positions, n);
      var p := positions[n];
      adjustments[n - 1, IDX_X_ADVANCE] := p.x - lastX;
      adjustments[n - 1, IDX_Y_ADVANCE] := p.y - lastY;
      FilledHolds(adjustments, positions, n);
      r := Success(adjustments);
    }
  }

  /** LayoutProcessor.LPGlyphVector: either kind of vector. */
  datatype LPGlyphVector = Fop(fop: FopGlyphVector) | Awt(awt: AwtGlyphVector)
  {
    function NumGlyphs(): nat
    {
      match this
      case Fop(v) => v.NumGlyphs()
      case Awt(v) => v.NumGlyphs()
    }

    function LayoutFlags(): Int32Bits
    {
      match this
      case Fop(v) => v.LayoutFlags()
      case Awt(v) => v.layoutFlags
    }

    function GlyphPosition(i: int): Result<Point>
    {
      match this
      case Fop(v) => v.GlyphPosition(i)
      case Awt(v) => v.GlyphPosition(i)
    }

    function Deltas(): Result<seq<Delta>>
    {
      match this
      case Fop(v) => v.Deltas()
      case Awt(v) => v.Deltas()
    }

    method GetAdjustments() returns (r: Result<array2<real>>)
      ensures r.Success? <==> Deltas().Success?
      ensures r.Failure? ==> r.error == Deltas().error
      ensures r.Success? ==> Holds(r.value, Deltas().value)
    {
      match this
      case Fop(v) => r := v.GetAdjustments();
      case Awt(v) => r := v.GetAdjustments();
    }
  }

  /** hasAdjustments: the vector reports position adjustments in its layout
      flags; for an FOP vector that is exactly when FOP produced positioning rows. */
  function HasAdjustments(gv: LPGlyphVector): (b: bool)
    ensures gv.Fop? ==> (b <==> gv.fop.adjustments.Some?)
    ensures gv.LayoutFlags() == 0 ==> !b
  {
    gv.LayoutFlags() & FLAG_HAS_POSITION_ADJUSTMENTS != 0
  }
}
