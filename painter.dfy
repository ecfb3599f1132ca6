/** The glyph painter of showText: it paints a glyph vector either as one batch
    or glyph by glyph with explicit text moves, and returns the correction for
    the start of the next line. */
module Painter {
  import opened Base
  import opened GlyphVectors

  /** The operations the painter issues on the page content. */
  datatype Command =
    | ShowAll                          // PdfContentByte.showText(glyphVector)
    | ShowRange(begin: nat, end: nat)  // PdfContentByte.showText(glyphVector, begin, end)
    | Move(dx: real, dy: real)         // PdfContentByte.moveTextBasic(dx, dy)

  /** The page content the painter writes to, as the sequence of commands it received. */
  class ContentSink {
    var commands: seq<Command>

    constructor ()
      ensures commands == []
    {
      commands := [];
    }

    method ShowGlyphs()
      modifies this
      ensures commands == old(commands) + [ShowAll]
    {
      commands := commands + [ShowAll];
    }

    method ShowGlyphRange(begin: nat, end: nat)
      modifies this
      ensures commands == old(commands) + [ShowRange(begin, end)]
    {
      commands := commands + [ShowRange(begin, end)];
    }

    method MoveTextBasic(dx: real, dy: real)
      modifies this
      ensures commands == old(commands) + [Move(dx, dy)]
    {
      commands := commands + [Move(dx, dy)];
    }
  }

  /** The move before glyph i: its placement plus the previous glyph's advance,
      with the vertical axis flipped into page coordinates. */
  function GlyphMove(d: seq<Delta>, i: nat): Command
    requires i < |d|
  {
    Move(d[i].xPlacement + (if i > 0 then d[i - 1].xAdvance else 0.0),
         -(d[i].yPlacement + (if i > 0 then d[i - 1].yAdvance else 0.0)))
  }

  /** What the per-glyph loop emits for its first k glyphs: a move and a
      one-glyph show for each. */
  function GlyphSteps(d: seq<Delta>, k: nat): seq<Command>
    requires k <= |d|
  {
    if k == 0 then [] else GlyphSteps(d, k - 1) + [GlyphMove(d, k - 1), ShowRange(k - 1, k)]
  }

  /** The move after the loop: the last glyph's advance, y flipped. */
  function FinalMove(d: seq<Delta>): Command
    requires |d| > 0
  {
    Move(d[|d| - 1].xAdvance, -d[|d| - 1].yAdvance)
  }

  /** Everything the per-glyph path emits. */
  function PerGlyphCommands(d: seq<Delta>): seq<Command>
    requires |d| > 0
  {
    GlyphSteps(d, |d|) + [FinalMove(d)]
  }

  /** The commands a painting emits and what it returns (or the exception it ends with). */
  datatype Painting = Painting(commands: seq<Command>, result: Result<Point>)

  /** What showText does with a glyph vector. */
  function PaintSpec(gv: LPGlyphVector): (p: Painting)
    ensures !HasAdjustments(gv) ==> p == Painting([ShowAll], Success(Point(0.0, 0.0)))
    ensures HasAdjustments(gv) && gv.Deltas().Failure? ==> p == Painting([], Failure(gv.Deltas().error))
    ensures p.result.Success? && HasAdjustments(gv) ==>
      && gv.Deltas().Success? && |gv.Deltas().value| > 0
      && gv.GlyphPosition(gv.NumGlyphs()).Success?
      && p.commands == PerGlyphCommands(gv.Deltas().value)
      && var end := gv.GlyphPosition(gv.NumGlyphs()).value; p.result.value == Point(-end.x, end.y)
  {
    if !HasAdjustments(gv) then Painting([ShowAll], Success(Point(0.0, 0.0)))
    else match gv.Deltas()
      case Failure(e) => Painting([], Failure(e))
      case Success(d) =>
        // once the rows exist, either vector answers for the end position
        var end := gv.GlyphPosition(gv.NumGlyphs()).value;
        if |d| == 0 then Painting([], Failure(IndexOutOfBounds))
        else Painting(PerGlyphCommands(d), Success(Point(-end.x, end.y)))
  }

  /** The painting part of showText. */
  method Paint(cb: ContentSink, gv: LPGlyphVector) returns (r: Result<Point>)
    modifies cb
    ensures cb.commands == old(cb.commands) + PaintSpec(gv).commands
    ensures r == PaintSpec(gv).result
  {
    if !HasAdjustments(gv) {
      cb.ShowGlyphs();
      var dx, dy := 0.0, 0.0;
      return Success(Point(-dx, dy));
    }
    var got := gv.GetAdjustments();
    if got.Failure? {
      return Failure(got.error);
    }
    var adjustments := got.value;
    ghost var d := gv.Deltas().value;
    PaintGlyphs(cb, adjustments, d);
    var p := gv.GlyphPosition(gv.NumGlyphs()).value;
    if adjustments.Length0 == 0 {
      return Failure(IndexOutOfBounds);
    }
    PaintFinalMove(cb, adjustments, d);
    assert old(cb.commands) + GlyphSteps(d, |d|) + [FinalMove(d)] == old(cb.commands) + PerGlyphCommands(d);
    r := Success(Point(-p.x, p.y));
  }

  /** The move after the loop, by the last row's advance. */
  method PaintFinalMove(cb: ContentSink, adjustments: array2<real>, ghost d: seq<Delta>)
    requires Holds(adjustments, d) && |d| > 0
    modifies cb
    ensures cb.commands == old(cb.commands) + [FinalMove(d)]
  {
    var n := adjustments.Length0;
    var dx := adjustments[n - 1, IDX_X_ADVANCE];
    var dy := adjustments[n - 1, IDX_Y_ADVANCE];
    cb.MoveTextBasic(dx, -dy);
  }

  /** The per-glyph loop of showText: each glyph moved to and shown on its own. */
  method PaintGlyphs(cb: ContentSink, adjustments: array2<real>, ghost d: seq<Delta>)
    requires Holds(adjustments, d)
    modifies cb
    ensures cb.commands == old(cb.commands) + GlyphSteps(d, |d|)
  {
    for i := 0 to adjustments.Length0
      invariant cb.commands == old(cb.commands) + GlyphSteps(d, i)
    {
      var dx := adjustments[i, IDX_X_PLACEMENT] + (if i > 0 then adjustments[i - 1, IDX_X_ADVANCE] else 0.0);
      var dy := adjustments[i, IDX_Y_PLACEMENT] + (if i > 0 then adjustments[i - 1, IDX_Y_ADVANCE] else 0.0);
      cb.MoveTextBasic(dx, -dy);
      cb.ShowGlyphRange(i, i + 1);
    }
  }

  /** The per-glyph loop alternates moves and one-glyph shows, in glyph order. */
  lemma {:induction false} GlyphStepsShape(d: seq<Delta>, k: nat)
    requires k <= |d|
    ensures |GlyphSteps(d, k)| == 2 * k
    ensures forall i :: 0 <= i < k ==>
      GlyphSteps(d, k)[2 * i] == GlyphMove(d, i) && GlyphSteps(d, k)[2 * i + 1] == ShowRange(i, i + 1)
    ensures ShowAll !in GlyphSteps(d, k)
  {
    if k > 0 {
      GlyphStepsShape(d, k - 1);
    }
  }

  /** The per-glyph path emits 2n+1 commands: for each glyph i the move by its
      placement plus the previous advance (y negated) and then the show of glyph
      i alone, and finally the move by the last advance; never a whole-run show. */
  lemma PerGlyphShape(d: seq<Delta>)
    requires |d| > 0
    ensures var c := PerGlyphCommands(d);
      && |c| == 2 * |d| + 1
      && (forall i :: 0 <= i < |d| ==>
            && c[2 * i] == Move(d[i].xPlacement + (if i > 0 then d[i - 1].xAdvance else 0.0),
                                -(d[i].yPlacement + (if i > 0 then d[i - 1].yAdvance else 0.0)))
            && c[2 * i + 1] == ShowRange(i, i + 1))
      && c[2 * |d|] == Move(d[|d| - 1].xAdvance, -d[|d| - 1].yAdvance)
      && ShowAll !in c
  {
    GlyphStepsShape(d, |d|);
  }

  /** The total displacement of the moves among some commands. */
  function NetMove(c: seq<Command>): Point
  {
    if c == [] then Point(0.0, 0.0)
    else
      var p := NetMove(c[..|c| - 1]);
      match c[|c| - 1]
      case Move(dx, dy) => Point(p.x + dx, p.y + dy)
      case _ => p
  }

  lemma {:induction false} NetMoveAppend(a: seq<Command>, b: seq<Command>)
    ensures NetMove(a + b) == Point(NetMove(a).x + NetMove(b).x, NetMove(a).y + NetMove(b).y)
    decreases |b|
  {
    if b == [] {
      assert a + b == a;
    } else {
      NetMoveAppend(a, b[..|b| - 1]);
      assert (a + b)[..|a + b| - 1] == a + b[..|b| - 1];
      assert (a + b)[|a + b| - 1] == b[|b| - 1];
    }
  }

  /** After the moves for k glyphs the cursor stands at the sum of their placements
      and of all advances but the k-th glyph's own. */
  lemma {:induction false} GlyphStepsNet(d: seq<Delta>, k: nat)
    requires k <= |d|
    ensures var t := Total(d[..k]);
      NetMove(GlyphSteps(d, k)) ==
        Point(t.xPlacement + t.xAdvance - (if k > 0 then d[k - 1].xAdvance else 0.0),
              -(t.yPlacement + t.yAdvance - (if k > 0 then d[k - 1].yAdvance else 0.0)))
  {
    if k > 0 {
      GlyphStepsNet(d, k - 1);
      var m := GlyphMove(d, k - 1);
      NetMoveAppend(GlyphSteps(d, k - 1), [m, ShowRange(k - 1, k)]);
      assert [m, ShowRange(k - 1, k)][..1] == [m];
      assert [m][..0] == [];
      assert NetMove([m]) == Point(m.dx, m.dy);
      assert NetMove([m, ShowRange(k - 1, k)]) == Point(m.dx, m.dy);
      assert d[..k][..k - 1] == d[..k - 1];
      assert Total(d[..k]) == var t := Total(d[..k - 1]);
        Delta(t.xPlacement + d[k - 1].xPlacement, t.yPlacement + d[k - 1].yPlacement,
              t.xAdvance + d[k - 1].xAdvance, t.yAdvance + d[k - 1].yAdvance);
    }
  }

  /** The moves of the per-glyph path add up to all placements plus all advances. */
  lemma PerGlyphNet(d: seq<Delta>)
    requires |d| > 0
    ensures var t := Total(d);
      NetMove(PerGlyphCommands(d)) == Point(t.xPlacement + t.xAdvance, -(t.yPlacement + t.yAdvance))
  {
    GlyphStepsNet(d, |d|);
    NetMoveAppend(GlyphSteps(d, |d|), [FinalMove(d)]);
    assert d[..|d|] == d;
  }

  /** The cursor when glyph i is shown: the net move of everything emitted before
      its show. */
  function ShownAt(d: seq<Delta>, i: nat): Point
    requires i < |d|
  {
    NetMove(GlyphSteps(d, i + 1))
  }

  /** The AWT vector with position adjustments is painted glyph by glyph, and the
      correction returned is its run end position, x negated. */
  lemma AwtPainting(v: AwtGlyphVector)
    requires HasAdjustments(Awt(v)) && v.Deltas().Success?
    ensures PaintSpec(Awt(v)) ==
      Painting(PerGlyphCommands(v.Deltas().value),
               Success(Point(-v.positions[v.NumGlyphs()].x, v.positions[v.NumGlyphs()].y)))
  {
    assert Awt(v).Deltas() == v.Deltas();
    assert Awt(v).GlyphPosition(Awt(v).NumGlyphs()) == Success(v.positions[v.NumGlyphs()]);
  }

  /** With the AWT vector's differenced adjustments, each glyph is shown exactly
      at the position the layout gave it (y in page coordinates), the moves end
      at the run's end position, and the returned correction undoes them. */
  lemma AwtPaintingPlacesGlyphs(v: AwtGlyphVector)
    requires HasAdjustments(Awt(v)) && v.Deltas().Success?
    ensures var n := v.NumGlyphs(); var d := v.Deltas().value; var p := PaintSpec(Awt(v));
      && p.result == Success(Point(-v.positions[n].x, v.positions[n].y))
      && (forall i :: 0 <= i < n ==> ShownAt(d, i) == Point(v.positions[i].x, -v.positions[i].y))
      && NetMove(p.commands) == Point(v.positions[n].x, -v.positions[n].y)
      && NetMove(p.commands).x + p.result.value.x == 0.0
      && NetMove(p.commands).y + p.result.value.y == 0.0
  {
    var pos, n := v.positions, v.NumGlyphs();
    var d := v.Deltas().value;
    AwtPainting(v);
    AwtNetMove(v);
    var p := PaintSpec(Awt(v));
    var end := pos[n];
    assert p.commands == PerGlyphCommands(d);
    assert p.result.value == Point(-end.x, end.y);
    assert NetMove(p.commands) == Point(end.x, -end.y);
    forall i | 0 <= i < n
      ensures ShownAt(d, i) == Point(pos[i].x, -pos[i].y)
    {
      AwtShownAt(v, i);
    }
  }

  lemma AwtShownAt(v: AwtGlyphVector, i: nat)
    requires v.Deltas().Success? && i < v.NumGlyphs()
    ensures ShownAt(v.Deltas().value, i) == Point(v.positions[i].x, -v.positions[i].y)
  {
    assert v.Deltas().value == PositionDeltas(v.positions, v.NumGlyphs());
    PositionDeltasShownAt(v.positions, v.NumGlyphs(), i);
  }

  lemma AwtNetMove(v: AwtGlyphVector)
    requires v.Deltas().Success?
    ensures var n := v.NumGlyphs();
      NetMove(PerGlyphCommands(v.Deltas().value)) == Point(v.positions[n].x, -v.positions[n].y)
  {
    var d := v.Deltas().value;
    assert d == PositionDeltas(v.positions, v.NumGlyphs());
    PerGlyphNet(d);
    PositionDeltasTotal(v.positions, v.NumGlyphs());
  }

  /** The cursor at glyph i in terms of the rows: what GlyphStepsNet says of the
      first i + 1 glyphs. */
  lemma ShownAtRows(d: seq<Delta>, i: nat)
    requires i < |d|
    ensures var t := Total(d[..i + 1]);
      ShownAt(d, i) == Point(t.xPlacement + t.xAdvance - d[i].xAdvance, -(t.yPlacement + t.yAdvance - d[i].yAdvance))
  {
    GlyphStepsNet(d, i + 1);
  }

  /** Painting differenced positions shows each glyph at its own position. */
  lemma PositionDeltasShownAt(pos: seq<Point>, n: nat, i: nat)
    requires 1 <= n < |pos| && i < n
    ensures ShownAt(PositionDeltas(pos, n), i) == Point(pos[i].x, -pos[i].y)
  {
    if i + 1 < n {
      ShownAtInner(pos, n, i);
    } else {
      ShownAtLast(pos, n);
    }
  }

  lemma ShownAtInner(pos: seq<Point>, n: nat, i: nat)
    requires 1 <= n < |pos| && i + 1 < n
    ensures ShownAt(PositionDeltas(pos, n), i) == Point(pos[i].x, -pos[i].y)
  {
    var d := PositionDeltas(pos, n);
    ShownAtRows(d, i);
    PositionDeltasPrefix(pos, n, i + 1);
    assert d[i].xAdvance == 0.0 && d[i].yAdvance == 0.0;
  }

  lemma ShownAtLast(pos: seq<Point>, n: nat)
    requires 1 <= n < |pos|
    ensures ShownAt(PositionDeltas(pos, n), n - 1) == Point(pos[n - 1].x, -pos[n - 1].y)
  {
    var d := PositionDeltas(pos, n);
    ShownAtRows(d, n - 1);
    PositionDeltasTotal(pos, n);
    assert d[..n] == d;
    assert d[n - 1].xAdvance == pos[n].x - pos[n - 1].x && d[n - 1].yAdvance == pos[n].y - pos[n - 1].y;
  }

  /** On an FOP vector whose rows cover its glyphs, as the code stands, painting
      goes glyph by glyph, the moves add up to the placements plus the advance
      adjustments only, and the returned correction is minus the total width. */
  lemma FopPaintingNet(v: FopGlyphVector)
    requires v.adjustments.Some? && |v.adjustments.value| >= v.NumGlyphs() > 0
    ensures v.Deltas().Success?
    ensures var d := v.Deltas().value; var p := PaintSpec(Fop(v)); var t := Total(d);
      && p == Painting(PerGlyphCommands(d), Success(Point(-(v.totalWidth as real), 0.0)))
      && NetMove(p.commands) == Point(t.xPlacement + t.xAdvance, -(t.yPlacement + t.yAdvance))
  {
    assert Fop(v).GlyphPosition(Fop(v).NumGlyphs()) == Success(Point(v.totalWidth as real, 0.0));
    PerGlyphNet(v.Deltas().value);
  }

  /** An FOP vector without adjustments (a font without positioning) is painted
      as one batch with a zero correction. */
  lemma FopPaintingBatch(v: FopGlyphVector)
    requires v.adjustments.None?
    ensures PaintSpec(Fop(v)) == Painting([ShowAll], Success(Point(0.0, 0.0)))
  {
  }

  /** An FOP vector with adjustments but no glyphs paints nothing and fails
      reading the last adjustment row. */
  lemma FopPaintingEmptyRunFails(v: FopGlyphVector)
    requires v.adjustments.Some? && v.NumGlyphs() == 0
    ensures PaintSpec(Fop(v)) == Painting([], Failure(IndexOutOfBounds))
  {
  }
}
