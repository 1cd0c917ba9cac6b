/** The whiteboard component: a drawing canvas over a grid canvas, mouse and
    touch drawing with a pencil or an eraser, and a linear undo/redo history of
    raster snapshots. Canvas effects are appended to `trace`; the pixels a
    snapshot captures are supplied by the caller (`capture`), `None` standing
    for a capture that threw. */
module Whiteboard {
  import opened Wrappers
  import opened WhiteboardHistory
  import opened WhiteboardCanvas

  /** The colours the toolbar offers. */
  const Palette: seq<string> := ["#000000", "#4b5563", "#ef4444", "#f97316", "#eab308", "#22c55e", "#3b82f6", "#8b5cf6"]

  /** The size of a canvas element whose size was never set. */
  const DefaultCanvasWidth: nat := 300
  const DefaultCanvasHeight: nat := 150

  /** Undo and redo paint the drawing layer white, draw the grid on it, then
      put the snapshot under the moved cursor over it. */
  function RestoreCalls(width: nat, height: nat, s: Snapshot): (r: seq<Call>)
    ensures |r| > 0 && r[|r| - 1] == Call(DrawingLayer, PutImageData(s))
  {
    [Call(DrawingLayer, SetFillStyle("white")), Call(DrawingLayer, FillRect(width, height))]
    + GridCalls(DrawingLayer, width, height)
    + [Call(DrawingLayer, PutImageData(s))]
  }

  /** A resize: the old drawing is copied to a scratch canvas when the drawing
      canvas had a positive size, both canvases take the new size (which
      empties them), the drawing layer is cleared, the grid is repainted, and
      the scratch canvas is drawn back onto the drawing layer. */
  function ResizeCalls(oldWidth: nat, oldHeight: nat, width: nat, height: nat, tempContext: bool): seq<Call> {
    (if tempContext && oldWidth > 0 && oldHeight > 0
     then [Call(TempLayer, SetWidth(oldWidth)), Call(TempLayer, SetHeight(oldHeight)), Call(TempLayer, DrawImage(DrawingLayer))]
     else [])
    + [Call(DrawingLayer, SetWidth(width)), Call(GridLayer, SetWidth(width)),
       Call(DrawingLayer, SetHeight(height)), Call(GridLayer, SetHeight(height)),
       Call(DrawingLayer, ClearRect(width, height))]
    + GridCalls(GridLayer, width, height)
    + (if tempContext then [Call(DrawingLayer, DrawImage(TempLayer))] else [])
  }

  /** The old drawing is copied aside only when the old canvas had a positive
      width and height; the scratch canvas is drawn back whenever it has a
      context (a scratch canvas left at its default size is blank); only the
      grid layer gets grid lines, and nothing is drawn on the drawing layer
      after the copy back. */
  lemma ResizeCopiesBack(oldWidth: nat, oldHeight: nat, width: nat, height: nat, tempContext: bool)
    ensures var r := ResizeCalls(oldWidth, oldHeight, width, height, tempContext);
      && (Call(TempLayer, DrawImage(DrawingLayer)) in r <==> tempContext && oldWidth > 0 && oldHeight > 0)
      && (Call(DrawingLayer, DrawImage(TempLayer)) in r <==> tempContext)
      && (tempContext ==> r[|r| - 1] == Call(DrawingLayer, DrawImage(TempLayer)))
      && Call(DrawingLayer, ClearRect(width, height)) in r
  {
    var r := ResizeCalls(oldWidth, oldHeight, width, height, tempContext);
    var copy := if tempContext && oldWidth > 0 && oldHeight > 0
      then [Call(TempLayer, SetWidth(oldWidth)), Call(TempLayer, SetHeight(oldHeight)), Call(TempLayer, DrawImage(DrawingLayer))]
      else [];
    var sizes := [Call(DrawingLayer, SetWidth(width)), Call(GridLayer, SetWidth(width)),
       Call(DrawingLayer, SetHeight(height)), Call(GridLayer, SetHeight(height)),
       Call(DrawingLayer, ClearRect(width, height))];
    var grid := GridCalls(GridLayer, width, height);
    var back := if tempContext then [Call(DrawingLayer, DrawImage(TempLayer))] else [];
    assert r == copy + sizes + grid + back;
    assert sizes[4] == Call(DrawingLayer, ClearRect(width, height));
  }

  /** `drawGrid(context, width, height)`: the calls it makes on the context of
      `layer`. Background first, then major lines every 100 pixels, then minor
      lines every 20 pixels skipping the multiples of 100. */
  method DrawGrid(layer: Layer, w: nat, h: nat) returns (calls: seq<Call>)
    ensures calls == GridCalls(layer, w, h)
  {
    var majorX := MajorVerticalLoop(layer, w, h);
    var majorY := MajorHorizontalLoop(layer, w, h);
    var minorX := MinorVerticalLoop(layer, w, h);
    var minorY := MinorHorizontalLoop(layer, w, h);
    calls := GridPrologue(layer, w, h) + majorX + majorY + MinorStyle(layer) + minorX + minorY + [Call(layer, RestoreState)];
  }

  /** The grid's first loop: a vertical line at x = 0, 100, 200, ... while x <= w. */
  method MajorVerticalLoop(layer: Layer, w: nat, h: nat) returns (calls: seq<Call>)
    ensures calls == VerticalLines(layer, MajorLines(w), h)
  {
    calls := [];
    var x: nat := 0;
    ghost var k: nat := 0;
    while x <= w
      invariant x == 100 * k && x <= w + 100
      invariant calls == VerticalLines(layer, MajorUpTo(k), h)
      decreases w - x
    {
      assert MajorUpTo(k + 1) == MajorUpTo(k) + [x];
      VerticalLinesSnoc(layer, MajorUpTo(k), x, h);
      calls := calls + VerticalLine(layer, x, h);
      x, k := x + 100, k + 1;
    }
    StepCount100(w, k);
  }

  /** The second loop: a horizontal line at y = 0, 100, 200, ... while y <= h. */
  method MajorHorizontalLoop(layer: Layer, w: nat, h: nat) returns (calls: seq<Call>)
    ensures calls == HorizontalLines(layer, MajorLines(h), w)
  {
    calls := [];
    var y: nat := 0;
    ghost var k: nat := 0;
    while y <= h
      invariant y == 100 * k && y <= h + 100
      invariant calls == HorizontalLines(layer, MajorUpTo(k), w)
      decreases h - y
    {
      assert MajorUpTo(k + 1) == MajorUpTo(k) + [y];
      HorizontalLinesSnoc(layer, MajorUpTo(k), y, w);
      calls := calls + HorizontalLine(layer, y, w);
      y, k := y + 100, k + 1;
    }
    StepCount100(h, k);
  }

  /** The third loop: x = 0, 20, 40, ... while x <= w, skipping multiples of 100. */
  method MinorVerticalLoop(layer: Layer, w: nat, h: nat) returns (calls: seq<Call>)
    ensures calls == VerticalLines(layer, MinorLines(w), h)
  {
    calls := [];
    var x: nat := 0;
    ghost var k: nat := 0;
    while x <= w
      invariant x == 20 * k && x <= w + 20
      invariant calls == VerticalLines(layer, MinorUpTo(k), h)
      decreases w - x
    {
      MinorVerticalStep(layer, k, h);
      if x % 100 != 0 {
        calls := calls + VerticalLine(layer, x, h);
      }
      x, k := x + 20, k + 1;
    }
    StepCount20(w, k);
  }

  /** The fourth loop: y = 0, 20, 40, ... while y <= h, skipping multiples of 100. */
  method MinorHorizontalLoop(layer: Layer, w: nat, h: nat) returns (calls: seq<Call>)
    ensures calls == HorizontalLines(layer, MinorLines(h), w)
  {
    calls := [];
    var y: nat := 0;
    ghost var k: nat := 0;
    while y <= h
      invariant y == 20 * k && y <= h + 20
      invariant calls == HorizontalLines(layer, MinorUpTo(k), w)
      decreases h - y
    {
      MinorHorizontalStep(layer, k, w);
      if y % 100 != 0 {
        calls := calls + HorizontalLine(layer, y, w);
      }
      y, k := y + 20, k + 1;
    }
    StepCount20(h, k);
  }

  /** One step of the minor vertical loop: the line at 20·k is added unless
      it is a major position. */
  lemma MinorVerticalStep(layer: Layer, k: nat, h: nat)
    ensures VerticalLines(layer, MinorUpTo(k + 1), h)
            == VerticalLines(layer, MinorUpTo(k), h) + (if (20 * k) % 100 != 0 then VerticalLine(layer, 20 * k, h) else [])
  {
    if (20 * k) % 100 != 0 {
      VerticalLinesSnoc(layer, MinorUpTo(k), 20 * k, h);
    } else {
      assert MinorUpTo(k + 1) == MinorUpTo(k) + [] == MinorUpTo(k);
      assert VerticalLines(layer, MinorUpTo(k), h) + [] == VerticalLines(layer, MinorUpTo(k), h);
    }
  }

  /** One step of the minor horizontal loop. */
  lemma MinorHorizontalStep(layer: Layer, k: nat, w: nat)
    ensures HorizontalLines(layer, MinorUpTo(k + 1), w)
            == HorizontalLines(layer, MinorUpTo(k), w) + (if (20 * k) % 100 != 0 then HorizontalLine(layer, 20 * k, w) else [])
  {
    if (20 * k) % 100 != 0 {
      HorizontalLinesSnoc(layer, MinorUpTo(k), 20 * k, w);
    } else {
      assert MinorUpTo(k + 1) == MinorUpTo(k) + [] == MinorUpTo(k);
      assert HorizontalLines(layer, MinorUpTo(k), w) + [] == HorizontalLines(layer, MinorUpTo(k), w);
    }
  }

  /** A loop stepping by 100 from 0 while at most `d` runs `d / 100 + 1` times. */
  lemma StepCount100(d: nat, k: nat)
    requires 0 < k && 100 * (k - 1) <= d < 100 * k
    ensures k == d / 100 + 1
  {
  }

  /** A loop stepping by 20 from 0 while at most `d` runs `d / 20 + 1` times. */
  lemma StepCount20(d: nat, k: nat)
    requires 0 < k && 20 * (k - 1) <= d < 20 * k
    ensures k == d / 20 + 1
  {
  }

  class Whiteboard {
    /** Whether the drawing context has been obtained (the component is mounted). */
    var hasContext: bool
    var history: seq<Snapshot>
    var historyIndex: int
    /** Whether a stroke is in progress. */
    var drawing: bool
    var tool: Tool
    var colour: string
    /** The thickness slider's value. */
    var lineWidth: int
    /** The last raw mouse position of the stroke in progress. */
    var prevPos: Point
    /** The size of the drawing canvas, which the grid canvas shares. */
    var width: nat
    var height: nat
    /** Every canvas call made so far. */
    var trace: seq<Call>

    ghost predicate Valid()
      reads this
    {
      && (!hasContext ==> History() == Empty)
      && (hasContext ==> ValidOrEmpty(History()))
      && 1 <= lineWidth <= 10
    }

    function History(): HistoryState
      reads this
    {
      HistoryState(history, historyIndex)
    }

    constructor ()
      ensures Valid() && !hasContext && History() == Empty
      ensures !drawing && tool == Pencil && colour == "#000000" && lineWidth == 3 && prevPos == Point(0.0, 0.0)
      ensures width == DefaultCanvasWidth && height == DefaultCanvasHeight && trace == []
    {
      hasContext := false;
      history := [];
      historyIndex := -1;
      drawing := false;
      tool := Pencil;
      colour := "#000000";
      lineWidth := 3;
      prevPos := Point(0.0, 0.0);
      width := DefaultCanvasWidth;
      height := DefaultCanvasHeight;
      trace := [];
    }

    /** Fits both canvases to the container's new size, keeping the drawing;
        never touches the history or the drawing state. */
    method Resize(newWidth: nat, newHeight: nat, tempContext: bool)
      modifies this`width, this`height, this`trace
      ensures width == newWidth && height == newHeight
      ensures trace == old(trace) + ResizeCalls(old(width), old(height), newWidth, newHeight, tempContext)
    {
      var copy: seq<Call> := [];
      var tempWidth, tempHeight := DefaultCanvasWidth, DefaultCanvasHeight;
      if tempContext && width > 0 && height > 0 {
        tempWidth, tempHeight := width, height;
        copy := [Call(TempLayer, SetWidth(width)), Call(TempLayer, SetHeight(height)), Call(TempLayer, DrawImage(DrawingLayer))];
      }
      width, height := newWidth, newHeight;
      var sizes := [Call(DrawingLayer, SetWidth(width)), Call(GridLayer, SetWidth(width)),
        Call(DrawingLayer, SetHeight(height)), Call(GridLayer, SetHeight(height)),
        Call(DrawingLayer, ClearRect(width, height))];
      var grid := DrawGrid(GridLayer, width, height);
      var back: seq<Call> := [];
      if tempContext && tempWidth > 0 && tempHeight > 0 {
        back := [Call(DrawingLayer, DrawImage(TempLayer))];
      }
      trace := trace + (copy + sizes + grid + back);
    }

    /** Mounting: the first resize, then the context becomes available and
        the history is seeded with the blank canvas's capture, after which the
        grid is drawn again. The capture is not guarded: when it throws (a
        canvas of zero width or height), the rest of the effect is skipped,
        the history stays empty and the grid is not redrawn. */
    method Mount(initialWidth: nat, initialHeight: nat, tempContext: bool, blank: Option<Snapshot>)
      requires Valid() && !hasContext
      modifies this`hasContext, this`history, this`historyIndex, this`width, this`height, this`trace
      ensures Valid() && hasContext
      ensures History() == if blank.Some? then Initial(blank.value) else Empty
      ensures width == initialWidth && height == initialHeight
      ensures trace == old(trace) + ResizeCalls(old(width), old(height), initialWidth, initialHeight, tempContext)
        + (if blank.Some? then GridCalls(GridLayer, initialWidth, initialHeight) else [])
      ensures drawing == old(drawing) && tool == old(tool) && colour == old(colour)
      ensures lineWidth == old(lineWidth) && prevPos == old(prevPos)
    {
      ghost var resized := old(trace) + ResizeCalls(old(width), old(height), initialWidth, initialHeight, tempContext);
      Resize(initialWidth, initialHeight, tempContext);
      assert trace == resized && History() == old(History());
      Activate(blank);
      assert trace == resized + (if blank.Some? then GridCalls(GridLayer, initialWidth, initialHeight) else []);
    }

    /** The part of mounting after the first resize: the context becomes
        available; a successful blank capture becomes the whole history and
        the grid is drawn again, a failed one leaves the history empty. */
    method Activate(blank: Option<Snapshot>)
      requires History() == Empty && 1 <= lineWidth <= 10
      modifies this`hasContext, this`history, this`historyIndex, this`trace
      ensures Valid() && hasContext
      ensures History() == if blank.Some? then Initial(blank.value) else Empty
      ensures trace == old(trace) + (if blank.Some? then GridCalls(GridLayer, width, height) else [])
    {
      hasContext := true;
      if blank.None? {
        assert trace == old(trace) + [];
        return;
      }
      history, historyIndex := [blank.value], 0;
      var grid := DrawGrid(GridLayer, width, height);
      trace := trace + grid;
    }

    /** Saves the current raster: the redo branch is cut and the snapshot
        appended; without a context, or when the capture throws, nothing changes. */
    method SaveCanvasState(capture: Option<Snapshot>)
      requires Valid()
      modifies this`history, this`historyIndex
      ensures Valid()
      ensures History() == if hasContext && capture.Some? then Pushed(old(History()), capture.value) else old(History())
    {
      if !hasContext {
        return;
      }
      if capture.Some? {
        if historyIndex < |history| - 1 {
          history := history[..historyIndex + 1];
        }
        history := history + [capture.value];
        historyIndex := historyIndex + 1;
      }
    }

    /** Moves the cursor back and paints that snapshot; a no-op at the first
        entry and before mounting. */
    method Undo()
      requires Valid()
      modifies this`historyIndex, this`trace
      ensures Valid() && History() == Undone(old(History()))
      ensures trace == if CanUndo(old(History())) then old(trace) + RestoreCalls(width, height, Current(History())) else old(trace)
    {
      if !hasContext || historyIndex <= 0 {
        return;
      }
      var newIndex := historyIndex - 1;
      historyIndex := newIndex;
      var grid := DrawGrid(DrawingLayer, width, height);
      var calls := [Call(DrawingLayer, SetFillStyle("white")), Call(DrawingLayer, FillRect(width, height))]
        + grid + [Call(DrawingLayer, PutImageData(history[newIndex]))];
      trace := trace + calls;
    }

    /** Moves the cursor forward and paints that snapshot; a no-op at the last
        entry and before mounting. */
    method Redo()
      requires Valid()
      modifies this`historyIndex, this`trace
      ensures Valid() && History() == Redone(old(History()))
      ensures trace == if CanRedo(old(History())) then old(trace) + RestoreCalls(width, height, Current(History())) else old(trace)
    {
      if !hasContext || historyIndex >= |history| - 1 {
        return;
      }
      var newIndex := historyIndex + 1;
      historyIndex := newIndex;
      var grid := DrawGrid(DrawingLayer, width, height);
      var calls := [Call(DrawingLayer, SetFillStyle("white")), Call(DrawingLayer, FillRect(width, height))]
        + grid + [Call(DrawingLayer, PutImageData(history[newIndex]))];
      trace := trace + calls;
    }

    /** Mouse-down at `p`: saves the raster, then starts a path at `p`. */
    method StartDrawing(p: Point, capture: Option<Snapshot>)
      requires Valid()
      modifies this`history, this`historyIndex, this`trace, this`prevPos, this`drawing
      ensures Valid()
      ensures History() == if hasContext && capture.Some? then Pushed(old(History()), capture.value) else old(History())
      ensures hasContext ==>
                trace == old(trace) + [Call(DrawingLayer, BeginPath), Call(DrawingLayer, MoveTo(p))] && prevPos == p && drawing
      ensures !hasContext ==> trace == old(trace) && prevPos == old(prevPos) && drawing == old(drawing)
    {
      if !hasContext {
        return;
      }
      SaveCanvasState(capture);
      trace := trace + [Call(DrawingLayer, BeginPath), Call(DrawingLayer, MoveTo(p))];
      prevPos := p;
      drawing := true;
    }

    /** Mouse move to the raw point `p` during a stroke: a quadratic segment
        controlled by the previous raw point, ending at the midpoint; the
        previous point becomes `p`. */
    method Draw(p: Point)
      requires Valid()
      modifies this`trace, this`prevPos
      ensures drawing && hasContext ==>
        trace == old(trace) + StyleCalls(tool, colour, lineWidth) + SegmentCalls(old(prevPos), p) && prevPos == p
      ensures !(drawing && hasContext) ==> trace == old(trace) && prevPos == old(prevPos)
    {
      if !drawing || !hasContext {
        return;
      }
      trace := trace + StyleCalls(tool, colour, lineWidth);
      var mid := Midpoint(prevPos, p);
      trace := trace + [Call(DrawingLayer, QuadraticCurveTo(prevPos, mid)), Call(DrawingLayer, Stroke),
        Call(DrawingLayer, BeginPath), Call(DrawingLayer, MoveTo(mid))];
      prevPos := p;
    }

    /** Mouse-up or leaving the canvas: closes the path and stops erasing. */
    method StopDrawing()
      modifies this`trace, this`drawing
      ensures !drawing
      ensures trace == if hasContext then old(trace) + [Call(DrawingLayer, ClosePath), Call(DrawingLayer, SetComposite(SourceOver))] else old(trace)
    {
      if hasContext {
        trace := trace + [Call(DrawingLayer, ClosePath), Call(DrawingLayer, SetComposite(SourceOver))];
      }
      drawing := false;
    }

    /** The trash button: saves the raster, then clears the drawing layer. */
    method ClearCanvas(capture: Option<Snapshot>)
      requires Valid()
      modifies this`history, this`historyIndex, this`trace
      ensures Valid()
      ensures History() == if hasContext && capture.Some? then Pushed(old(History()), capture.value) else old(History())
      ensures trace == if hasContext then old(trace) + [Call(DrawingLayer, ClearRect(width, height))] else old(trace)
    {
      if !hasContext {
        return;
      }
      SaveCanvasState(capture);
      trace := trace + [Call(DrawingLayer, ClearRect(width, height))];
    }

    /** Touch start: the same as a mouse-down at the first touch point. */
    method HandleTouchStart(p: Point, capture: Option<Snapshot>)
      requires Valid()
      modifies this`history, this`historyIndex, this`trace, this`prevPos, this`drawing
      ensures Valid()
      ensures History() == if hasContext && capture.Some? then Pushed(old(History()), capture.value) else old(History())
      ensures hasContext ==>
                trace == old(trace) + [Call(DrawingLayer, BeginPath), Call(DrawingLayer, MoveTo(p))] && prevPos == p && drawing
      ensures !hasContext ==> trace == old(trace) && prevPos == old(prevPos) && drawing == old(drawing)
    {
      if !hasContext {
        return;
      }
      SaveCanvasState(capture);
      trace := trace + [Call(DrawingLayer, BeginPath), Call(DrawingLayer, MoveTo(p))];
      prevPos := p;
      drawing := true;
    }

    /** Touch move during a stroke: a straight line to the touch point, with no
        smoothing; the previous point is not updated. */
    method HandleTouchMove(p: Point)
      requires Valid()
      modifies this`trace
      ensures drawing && hasContext ==>
        trace == old(trace) + StyleCalls(tool, colour, lineWidth) + [Call(DrawingLayer, LineTo(p)), Call(DrawingLayer, Stroke)]
      ensures !(drawing && hasContext) ==> trace == old(trace)
    {
      if !drawing || !hasContext {
        return;
      }
      trace := trace + StyleCalls(tool, colour, lineWidth);
      trace := trace + [Call(DrawingLayer, LineTo(p)), Call(DrawingLayer, Stroke)];
    }

    /** Touch end: the same as a mouse-up. */
    method HandleTouchEnd()
      modifies this`trace, this`drawing
      ensures !drawing
      ensures trace == if hasContext then old(trace) + [Call(DrawingLayer, ClosePath), Call(DrawingLayer, SetComposite(SourceOver))] else old(trace)
    {
      if hasContext {
        trace := trace + [Call(DrawingLayer, ClosePath), Call(DrawingLayer, SetComposite(SourceOver))];
      }
      drawing := false;
    }

    method SetTool(t: Tool)
      modifies this`tool
      ensures tool == t
    {
      tool := t;
    }

    method SetColour(c: string)
      modifies this`colour
      ensures colour == c
    {
      colour := c;
    }

    /** The slider offers 1 to 10. */
    method SetLineWidth(w: int)
      requires Valid() && 1 <= w <= 10
      modifies this`lineWidth
      ensures Valid() && lineWidth == w
    {
      lineWidth := w;
    }
  }
}
