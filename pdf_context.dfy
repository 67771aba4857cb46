/** The PDF graphics context: the local state of the wrapper around a PDF
    canvas (the current path and the stored text position) and the commands
    it sends to that canvas.  The canvas is modelled as an append-only log of
    the calls it receives; the canvas's path object as the sequence of
    segments added to it. */
module PdfContext {
  import opened Wrappers
  import opened PdfStyles

  datatype Point = Point(x: real, y: real)

  datatype Rect = Rect(x: real, y: real, w: real, h: real)

  /** The two ways `rect` may be called: rect(x, y, w, h) and rect((x, y, w, h)). */
  datatype RectArgs = Spread(x: real, y: real, w: real, h: real) | Packed(r: Rect)

  /** One call recorded on the canvas's path object, with its arguments as
      passed. */
  datatype Segment =
    | Move(x: real, y: real)
    | Line(x: real, y: real)
    | Curve(cp1x: real, cp1y: real, cp2x: real, cp2y: real, x: real, y: real)
    | Arc(x: real, y: real, radius: real, startAngle: real, endAngle: real, clockwise: bool)
    | ArcTo(x1: real, y1: real, x2: real, y2: real, radius: real)
    | Rectangle(rect: Rect)
    | Close

  /** One call received by the canvas: setLineCap, setLineJoin, setLineWidth,
      setMiterLimit, the assignment to its fill mode, drawPath, setFont,
      drawString and showPage. */
  datatype Command =
    | LineCap(code: int)
    | LineJoin(code: int)
    | LineWidth(width: real)
    | MiterLimit(limit: real)
    | FillMode(rule: FillRule)
    | Draw(segments: seq<Segment>, stroke: int, fill: int)
    | SelectFace(face: string, size: real)
    | Text(tx: Option<real>, ty: Option<real>, text: string)
    | NewPage

  const InvalidJoinMessage := "Invalid line join style.  See documentation for valid styles"
  const InvalidCapMessage := "Invalid line cap style.  See documentation for valid styles"
  const DefaultFace := "Helvetica"

  /** The rectangle either calling form of `rect` describes. */
  function RectOf(args: RectArgs): Rect
  {
    match args
    case Spread(x, y, w, h) => Rect(x, y, w, h)
    case Packed(r) => r
  }

  /** The segments of a path that may not have been begun yet. */
  function Started(path: Option<seq<Segment>>): seq<Segment>
  {
    match path
    case None => []
    case Some(segs) => segs
  }

  /** Python truthiness of a coordinate that may be None. */
  predicate Truthy(v: Option<real>)
  {
    v.Some? && v.value != 0.0
  }

  /** The position `show_text` draws at: the given coordinates when both are
      truthy, the stored text position otherwise. */
  function TextOrigin(x: Option<real>, y: Option<real>, stored: (Option<real>, Option<real>)): (Option<real>, Option<real>)
  {
    if Truthy(x) && Truthy(y) then (x, y) else stored
  }

  /** A zero coordinate is not truthy, so it falls back to the stored
      position, as a missing one does. */
  lemma ZeroCoordinateFallsBack(x: Option<real>, y: Option<real>, stored: (Option<real>, Option<real>))
    requires x == Some(0.0) || y == Some(0.0) || x.None? || y.None?
    ensures TextOrigin(x, y, stored) == stored
  {
  }

  /** The effect of painting with `mode`: the new current path, the new
      canvas log and the outcome.  Without a current path nothing happens;
      with one, the mode is looked up (an unknown mode raises KeyError and
      changes nothing), the canvas's fill mode is set to the mode's rule, the
      path is drawn once with the mode's stroke and fill flags, and the
      current path is dropped. */
  function Paint(path: Option<seq<Segment>>, log: seq<Command>, mode: DrawMode)
    : (Option<seq<Segment>>, seq<Command>, Outcome<PyError>)
  {
    match path
    case None => (path, log, Pass)
    case Some(segs) =>
      match PathMode(mode)
      case None => (path, log, Fail(KeyError))
      case Some((stroke, fill, rule)) => (None, log + [FillMode(rule), Draw(segs, stroke, fill)], Pass)
  }

  /** How many draw calls a canvas log holds. */
  function DrawCount(log: seq<Command>): nat
  {
    if log == [] then 0 else (if log[0].Draw? then 1 else 0) + DrawCount(log[1..])
  }

  lemma {:induction false} DrawCountAppend(a: seq<Command>, b: seq<Command>)
    ensures DrawCount(a + b) == DrawCount(a) + DrawCount(b)
  {
    if a == [] {
      assert a + b == b;
    } else {
      assert (a + b)[1..] == a[1..] + b;
      DrawCountAppend(a[1..], b);
    }
  }

  /** Painting a current path with a known mode draws exactly once, draws that
      path with the mode's flags, keeps everything logged before, and leaves
      no current path; painting with no current path draws nothing. */
  lemma PaintDrawsOnce(path: Option<seq<Segment>>, log: seq<Command>, mode: DrawMode)
    requires !mode.ModeOther?
    ensures var (path', log', outcome) := Paint(path, log, mode);
      && outcome == Pass
      && path' == None
      && log'[..|log|] == log
      && DrawCount(log') == DrawCount(log) + (if path.Some? then 1 else 0)
      && (path.Some? ==>
            log'[|log'| - 1] == Draw(path.value, PathMode(mode).value.0, PathMode(mode).value.1))
  {
    if path.Some? {
      var (stroke, fill, rule) := PathMode(mode).value;
      DrawCountAppend(log, [FillMode(rule), Draw(path.value, stroke, fill)]);
      assert DrawCount([FillMode(rule), Draw(path.value, stroke, fill)]) == 1 by {
        assert [FillMode(rule), Draw(path.value, stroke, fill)][1..] == [Draw(path.value, stroke, fill)];
        assert [Draw(path.value, stroke, fill)][1..] == [];
      }
    }
  }

  /** The canvas: every call the context makes on it is appended to `log`. */
  class PdfCanvas {
    var log: seq<Command>

    constructor ()
      ensures log == []
    {
      log := [];
    }

    method Emit(c: Command)
      modifies this
      ensures log == old(log) + [c]
    {
      log := log + [c];
    }
  }

  /** A font description; `set_font` rewrites its face name in place. */
  class Font {
    var faceName: string
    var size: real

    constructor (faceName: string, size: real)
      ensures this.faceName == faceName && this.size == size
    {
      this.faceName := faceName;
      this.size := size;
    }
  }

  class GraphicsContext {
    const gc: PdfCanvas
    var currentPath: Option<seq<Segment>>
    var textXY: (Option<real>, Option<real>)

    constructor (pdfCanvas: PdfCanvas)
      ensures gc == pdfCanvas && currentPath == None && textXY == (None, None)
    {
      gc := pdfCanvas;
      currentPath := None;
      textXY := (None, None);
    }

    // -------------------------------------------------------------------
    // Style

    method SetLineWidth(width: real)
      modifies gc
      ensures gc.log == old(gc.log) + [LineWidth(width)]
    {
      gc.Emit(LineWidth(width));
    }

    method SetMiterLimit(limit: real)
      modifies gc
      ensures gc.log == old(gc.log) + [MiterLimit(limit)]
    {
      gc.Emit(MiterLimit(limit));
    }

    /** Sends the join's PDF code to the canvas; a join outside the table
        raises ValueError and sends nothing. */
    method SetLineJoin(style: JoinStyle) returns (r: Outcome<PyError>)
      modifies gc
      ensures r.Fail? <==> style.JoinOther?
      ensures r.Fail? ==> r.error == ValueError(InvalidJoinMessage) && gc.log == old(gc.log)
      ensures r.Pass? ==> gc.log == old(gc.log) + [LineJoin(JoinStyleCode(style).value)]
    {
      var code := JoinStyleCode(style);
      if code.None? {
        return Fail(ValueError(InvalidJoinMessage));
      }
      gc.Emit(LineJoin(code.value));
      return Pass;
    }

    /** Sends the cap's PDF code to the canvas; a cap outside the table
        raises ValueError and sends nothing. */
    method SetLineCap(style: CapStyle) returns (r: Outcome<PyError>)
      modifies gc
      ensures r.Fail? <==> style.CapOther?
      ensures r.Fail? ==> r.error == ValueError(InvalidCapMessage) && gc.log == old(gc.log)
      ensures r.Pass? ==> gc.log == old(gc.log) + [LineCap(CapStyleCode(style).value)]
    {
      var code := CapStyleCode(style);
      if code.None? {
        return Fail(ValueError(InvalidCapMessage));
      }
      gc.Emit(LineCap(code.value));
      return Pass;
    }

    method BeginPage()
      modifies gc
      ensures gc.log == old(gc.log) + [NewPage]
    {
      gc.Emit(NewPage);
    }

    method EndPage()
      modifies gc
      ensures gc.log == old(gc.log) + [NewPage]
    {
      gc.Emit(NewPage);
    }

    // -------------------------------------------------------------------
    // Building paths

    /** Replaces the current path, painted or not, with a fresh empty one. */
    method BeginPath()
      modifies this
      ensures currentPath == Some([]) && textXY == old(textXY)
    {
      currentPath := Some([]);
    }

    /** Starts a subpath at (x, y), beginning a path first if there is none. */
    method MoveTo(x: real, y: real)
      modifies this
      ensures currentPath == Some(Started(old(currentPath)) + [Move(x, y)])
      ensures textXY == old(textXY)
    {
      if currentPath.None? {
        BeginPath();
      }
      currentPath := Some(currentPath.value + [Move(x, y)]);
    }

    /** Adds a line to (x, y).  With no current path the call on the missing
        path object raises AttributeError and nothing changes. */
    method LineTo(x: real, y: real) returns (r: Outcome<PyError>)
      modifies this
      ensures r.Fail? <==> old(currentPath).None?
      ensures r.Fail? ==> r.error == AttributeError && unchanged(this)
      ensures r.Pass? ==> currentPath == Some(old(currentPath).value + [Line(x, y)]) && textXY == old(textXY)
    {
      if currentPath.None? {
        return Fail(AttributeError);
      }
      currentPath := Some(currentPath.value + [Line(x, y)]);
      return Pass;
    }

    /** Adds a subpath through `points`: a move to the first point, then a
        line to each later point in order.  A missing path raises
        AttributeError before the empty list raises IndexError; either way
        nothing changes. */
    method Lines(points: seq<Point>) returns (r: Outcome<PyError>)
      modifies this
      ensures r.Pass? <==> old(currentPath).Some? && |points| > 0
      ensures r.Fail? ==> unchanged(this)
      ensures r.Fail? ==> r.error == if old(currentPath).None? then AttributeError else IndexError
      ensures r.Pass? ==>
        var p := old(currentPath).value;
        && currentPath.Some?
        && |currentPath.value| == |p| + |points|
        && currentPath.value[..|p|] == p
        && currentPath.value[|p|] == Move(points[0].x, points[0].y)
        && (forall i :: 1 <= i < |points| ==> currentPath.value[|p| + i] == Line(points[i].x, points[i].y))
      ensures textXY == old(textXY)
    {
      if currentPath.None? {
        return Fail(AttributeError);
      }
      if |points| == 0 {
        return Fail(IndexError);
      }
      ghost var p := currentPath.value;
      currentPath := Some(currentPath.value + [Move(points[0].x, points[0].y)]);
      for i := 1 to |points|
        invariant currentPath.Some?
        invariant |currentPath.value| == |p| + i
        invariant currentPath.value[..|p|] == p
        invariant currentPath.value[|p|] == Move(points[0].x, points[0].y)
        invariant forall j :: 1 <= j < i ==> currentPath.value[|p| + j] == Line(points[j].x, points[j].y)
        invariant textXY == old(textXY)
      {
        currentPath := Some(currentPath.value + [Line(points[i].x, points[i].y)]);
      }
      return Pass;
    }

    /** Adds a move to starts[i] and a line to ends[i] for each pair of the
        two lists zipped, stopping at the shorter list.  With no current path
        the first pair raises AttributeError; with no pairs nothing is
        touched, path or not. */
    method LineSet(starts: seq<Point>, ends: seq<Point>) returns (r: Outcome<PyError>)
      modifies this
      ensures var n := if |starts| < |ends| then |starts| else |ends|;
        && (r.Fail? <==> old(currentPath).None? && n > 0)
        && (r.Fail? ==> r.error == AttributeError)
        && (old(currentPath).None? ==> unchanged(this))
        && (old(currentPath).Some? ==>
              var p := old(currentPath).value;
              && currentPath.Some?
              && |currentPath.value| == |p| + 2 * n
              && currentPath.value[..|p|] == p
              && forall i :: 0 <= i < n ==>
                   && currentPath.value[|p| + 2 * i] == Move(starts[i].x, starts[i].y)
                   && currentPath.value[|p| + 2 * i + 1] == Line(ends[i].x, ends[i].y))
      ensures textXY == old(textXY)
    {
      var n := if |starts| < |ends| then |starts| else |ends|;
      ghost var p := Started(currentPath);
      for i := 0 to n
        invariant currentPath.None? ==> i == 0 && unchanged(this)
        invariant currentPath.Some? ==> old(currentPath).Some?
        invariant currentPath.Some? ==>
          && |currentPath.value| == |p| + 2 * i
          && currentPath.value[..|p|] == p
          && forall j :: 0 <= j < i ==>
               && currentPath.value[|p| + 2 * j] == Move(starts[j].x, starts[j].y)
               && currentPath.value[|p| + 2 * j + 1] == Line(ends[j].x, ends[j].y)
        invariant textXY == old(textXY)
      {
        if currentPath.None? {
          return Fail(AttributeError);
        }
        currentPath := Some(currentPath.value + [Move(starts[i].x, starts[i].y)]);
        currentPath := Some(currentPath.value + [Line(ends[i].x, ends[i].y)]);
      }
      return Pass;
    }

    /** Adds a rectangle, beginning a path first if there is none.  Both
        calling forms add the same rectangle. */
    method AddRect(args: RectArgs)
      modifies this
      ensures currentPath == Some(Started(old(currentPath)) + [Rectangle(RectOf(args))])
      ensures textXY == old(textXY)
    {
      if currentPath.None? {
        BeginPath();
      }
      var r := match args case Spread(x, y, w, h) => Rect(x, y, w, h) case Packed(rect) => rect;
      currentPath := Some(currentPath.value + [Rectangle(r)]);
    }

    /** Adds one rectangle per entry, in order, to the existing path.  With no
        current path the first rectangle raises AttributeError. */
    method Rects(rects: seq<Rect>) returns (r: Outcome<PyError>)
      modifies this
      ensures r.Fail? <==> old(currentPath).None? && |rects| > 0
      ensures r.Fail? ==> r.error == AttributeError
      ensures old(currentPath).None? ==> unchanged(this)
      ensures old(currentPath).Some? ==>
        var p := old(currentPath).value;
        && currentPath.Some?
        && |currentPath.value| == |p| + |rects|
        && currentPath.value[..|p|] == p
        && forall i :: 0 <= i < |rects| ==> currentPath.value[|p| + i] == Rectangle(rects[i])
      ensures textXY == old(textXY)
    {
      ghost var p := Started(currentPath);
      for i := 0 to |rects|
        invariant currentPath.None? ==> i == 0 && unchanged(this)
        invariant currentPath.Some? ==> old(currentPath).Some?
        invariant currentPath.Some? ==>
          && |currentPath.value| == |p| + i
          && currentPath.value[..|p|] == p
          && forall j :: 0 <= j < i ==> currentPath.value[|p| + j] == Rectangle(rects[j])
        invariant textXY == old(textXY)
      {
        if currentPath.None? {
          return Fail(AttributeError);
        }
        currentPath := Some(currentPath.value + [Rectangle(rects[i])]);
      }
      return Pass;
    }

    /** Closes the current subpath; AttributeError when there is no path. */
    method ClosePath() returns (r: Outcome<PyError>)
      modifies this
      ensures r.Fail? <==> old(currentPath).None?
      ensures r.Fail? ==> r.error == AttributeError && unchanged(this)
      ensures r.Pass? ==> currentPath == Some(old(currentPath).value + [Close]) && textXY == old(textXY)
    {
      if currentPath.None? {
        return Fail(AttributeError);
      }
      currentPath := Some(currentPath.value + [Close]);
      return Pass;
    }

    /** Adds a cubic curve; AttributeError when there is no path. */
    method CurveTo(cp1x: real, cp1y: real, cp2x: real, cp2y: real, x: real, y: real) returns (r: Outcome<PyError>)
      modifies this
      ensures r.Fail? <==> old(currentPath).None?
      ensures r.Fail? ==> r.error == AttributeError && unchanged(this)
      ensures r.Pass? ==>
        currentPath == Some(old(currentPath).value + [Curve(cp1x, cp1y, cp2x, cp2y, x, y)]) && textXY == old(textXY)
    {
      if currentPath.None? {
        return Fail(AttributeError);
      }
      currentPath := Some(currentPath.value + [Curve(cp1x, cp1y, cp2x, cp2y, x, y)]);
      return Pass;
    }

    /** Adds an arc, passing the arguments through as given; AttributeError
        when there is no path. */
    method AddArc(x: real, y: real, radius: real, startAngle: real, endAngle: real, clockwise: bool)
      returns (r: Outcome<PyError>)
      modifies this
      ensures r.Fail? <==> old(currentPath).None?
      ensures r.Fail? ==> r.error == AttributeError && unchanged(this)
      ensures r.Pass? ==>
        currentPath == Some(old(currentPath).value + [Arc(x, y, radius, startAngle, endAngle, clockwise)])
        && textXY == old(textXY)
    {
      if currentPath.None? {
        return Fail(AttributeError);
      }
      currentPath := Some(currentPath.value + [Arc(x, y, radius, startAngle, endAngle, clockwise)]);
      return Pass;
    }

    /** Adds an arc through a tangent point; AttributeError when there is no
        path. */
    method AddArcTo(x1: real, y1: real, x2: real, y2: real, radius: real) returns (r: Outcome<PyError>)
      modifies this
      ensures r.Fail? <==> old(currentPath).None?
      ensures r.Fail? ==> r.error == AttributeError && unchanged(this)
      ensures r.Pass? ==> currentPath == Some(old(currentPath).value + [ArcTo(x1, y1, x2, y2, radius)]) && textXY == old(textXY)
    {
      if currentPath.None? {
        return Fail(AttributeError);
      }
      currentPath := Some(currentPath.value + [ArcTo(x1, y1, x2, y2, radius)]);
      return Pass;
    }

    // -------------------------------------------------------------------
    // Painting

    /** Paints the current path with `mode` (fill and stroke by default). */
    method DrawPath(mode: DrawMode := FillStroke) returns (r: Outcome<PyError>)
      modifies this, gc
      ensures (currentPath, gc.log, r) == Paint(old(currentPath), old(gc.log), mode)
      ensures textXY == old(textXY)
    {
      if currentPath.Some? {
        var entry := PathMode(mode);
        if entry.None? {
          return Fail(KeyError);
        }
        var (stroke, fill, rule) := entry.value;
        gc.Emit(FillMode(rule));
        gc.Emit(Draw(currentPath.value, stroke, fill));
        currentPath := None;
        assert gc.log == old(gc.log) + [FillMode(rule), Draw(old(currentPath).value, stroke, fill)];
      }
      return Pass;
    }

    method StrokePath()
      modifies this, gc
      ensures (currentPath, gc.log, Pass) == Paint(old(currentPath), old(gc.log), Stroke)
      ensures textXY == old(textXY)
    {
      var _ := DrawPath(Stroke);
    }

    method FillPath()
      modifies this, gc
      ensures (currentPath, gc.log, Pass) == Paint(old(currentPath), old(gc.log), Fill)
      ensures textXY == old(textXY)
    {
      var _ := DrawPath(Fill);
    }

    method EofFillPath()
      modifies this, gc
      ensures (currentPath, gc.log, Pass) == Paint(old(currentPath), old(gc.log), EofFill)
      ensures textXY == old(textXY)
    {
      var _ := DrawPath(EofFill);
    }

    /** Begins a fresh path holding only `rect`, strokes it, and leaves no
        current path, whatever path was there before. */
    method StrokeRect(rect: Rect)
      modifies this, gc
      ensures currentPath == None && textXY == old(textXY)
      ensures gc.log == old(gc.log) + [FillMode(NonZero), Draw([Rectangle(rect)], 1, 0)]
    {
      BeginPath();
      AddRect(Spread(rect.x, rect.y, rect.w, rect.h));
      var seg := Rectangle(rect);
      assert currentPath.value == [] + [seg] == [seg];
      StrokePath();
    }

    /** Begins a fresh path holding only `rect`, fills it with the nonzero
        rule, and leaves no current path, whatever path was there before. */
    method FillRect(rect: Rect)
      modifies this, gc
      ensures currentPath == None && textXY == old(textXY)
      ensures gc.log == old(gc.log) + [FillMode(NonZero), Draw([Rectangle(rect)], 0, 1)]
    {
      BeginPath();
      AddRect(Spread(rect.x, rect.y, rect.w, rect.h));
      var seg := Rectangle(rect);
      assert currentPath.value == [] + [seg] == [seg];
      FillPath();
    }

    // -------------------------------------------------------------------
    // Text

    method SelectFont(name: string, size: real, textEncoding: string)
      modifies gc
      ensures gc.log == old(gc.log) + [SelectFace(name, size)]
    {
      gc.Emit(SelectFace(name, size));
    }

    /** Selects the font's face and size; an empty face name is first
        replaced, in the font object itself, by Helvetica. */
    method SetFont(font: Font)
      modifies font, gc
      ensures font.faceName == (if old(font.faceName) == "" then DefaultFace else old(font.faceName))
      ensures font.size == old(font.size)
      ensures gc.log == old(gc.log) + [SelectFace(font.faceName, font.size)]
    {
      if font.faceName == "" {
        font.faceName := DefaultFace;
      }
      gc.Emit(SelectFace(font.faceName, font.size));
    }

    method SetTextPosition(x: real, y: real)
      modifies this
      ensures textXY == (Some(x), Some(y)) && currentPath == old(currentPath)
    {
      textXY := (Some(x), Some(y));
    }

    /** Draws `text` at (x, y) when both are truthy, at the stored text
        position otherwise. */
    method ShowText(text: string, x: Option<real> := None, y: Option<real> := None)
      modifies gc
      ensures Truthy(x) && Truthy(y) ==> gc.log == old(gc.log) + [Text(x, y, text)]
      ensures !(Truthy(x) && Truthy(y)) ==> gc.log == old(gc.log) + [Text(textXY.0, textXY.1, text)]
    {
      var (tx, ty) := TextOrigin(x, y, textXY);
      gc.Emit(Text(tx, ty, text));
    }

    method ShowTextAtPoint(text: string, x: real, y: real)
      modifies gc
      ensures x != 0.0 && y != 0.0 ==> gc.log == old(gc.log) + [Text(Some(x), Some(y), text)]
      ensures x == 0.0 || y == 0.0 ==> gc.log == old(gc.log) + [Text(textXY.0, textXY.1, text)]
    {
      ShowText(text, Some(x), Some(y));
    }
  }

  /** A path built, painted, and built on again: after a fill the path is
      gone, so a line needs a new move first, and the canvas has received
      one draw of the triangle with fill but no stroke. */
  method FilledTriangle() returns (log: seq<Command>, afterPaint: Outcome<PyError>)
    ensures afterPaint == Fail(AttributeError)
    ensures DrawCount(log) == 1
    ensures log == [FillMode(NonZero), Draw([Move(0.0, 0.0), Line(10.0, 0.0), Line(10.0, 10.0), Close], 0, 1)]
  {
    var canvas := new PdfCanvas();
    var ctx := new GraphicsContext(canvas);
    ghost var m, l1, l2 := Move(0.0, 0.0), Line(10.0, 0.0), Line(10.0, 10.0);
    ctx.BeginPath();
    ctx.MoveTo(0.0, 0.0);
    assert ctx.currentPath.value == [] + [m] == [m];
    var _ := ctx.LineTo(10.0, 0.0);
    assert ctx.currentPath.value == [m, l1];
    var _ := ctx.LineTo(10.0, 10.0);
    assert ctx.currentPath.value == [m, l1, l2];
    var _ := ctx.ClosePath();
    assert ctx.currentPath.value == [m, l1, l2, Close];
    ctx.FillPath();
    afterPaint := ctx.LineTo(5.0, 5.0);
    log := canvas.log;
    PaintDrawsOnce(Some([Move(0.0, 0.0), Line(10.0, 0.0), Line(10.0, 10.0), Close]), [], Fill);
  }
}
