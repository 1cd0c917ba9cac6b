/** What the whiteboard asks of its 2D canvas contexts, recorded as a trace of
    calls, and the geometry behind those calls: the grid lines and the
    midpoint smoothing of strokes. Coordinates are exact reals. */
module WhiteboardCanvas {
  import opened WhiteboardHistory

  datatype Point = Point(x: real, y: real)

  datatype Tool = Pencil | Eraser

  datatype CompositeMode = SourceOver | DestinationOut

  /** The three canvases: the drawing layer, the grid layer under it, and the
      scratch canvas a resize copies the drawing into. */
  datatype Layer = DrawingLayer | GridLayer | TempLayer

  datatype CanvasOp =
    | SetWidth(w: nat)
    | SetHeight(h: nat)
    | ClearRect(w: nat, h: nat)
    | FillRect(w: nat, h: nat)
    | SetFillStyle(fill: string)
    | SetStrokeStyle(stroke: string)
    | SetLineWidth(lineWidth: real)
    | SetRoundCapsAndJoins
    | SetComposite(mode: CompositeMode)
    | SaveState
    | RestoreState
    | BeginPath
    | MoveTo(to: Point)
    | LineTo(to: Point)
    | QuadraticCurveTo(control: Point, end: Point)
    | Stroke
    | ClosePath
    | DrawImage(source: Layer)
    | PutImageData(image: Snapshot)

  datatype Call = Call(layer: Layer, op: CanvasOp)

  // The grid's cell is 20 pixels; every fifth line (every 100 pixels) is a
  // major line. The grid functions below write these as literals.
  const MajorColour := "#e2e8f0"
  const MinorColour := "#f1f5f9"

  function Midpoint(a: Point, b: Point): (m: Point)
    ensures m.x - a.x == b.x - m.x && m.y - a.y == b.y - m.y
  {
    Point((a.x + b.x) / 2.0, (a.y + b.y) / 2.0)
  }

  // ---------------------------------------------------------------------------
  // Grid lines. The loops step a coordinate from 0 while it is at most the
  // canvas dimension: by 100 for major lines, by 20 for minor lines, skipping
  // the multiples of 100.

  /** The first `k` multiples of 100. */
  function MajorUpTo(k: nat): (xs: seq<nat>)
    ensures |xs| == k && forall i :: 0 <= i < k ==> xs[i] == 100 * i
  {
    if k == 0 then [] else MajorUpTo(k - 1) + [100 * (k - 1)]
  }

  /** Those of the first `k` multiples of 20 that are not multiples of 100. */
  function MinorUpTo(k: nat): seq<nat> {
    if k == 0 then []
    else MinorUpTo(k - 1) + (if (20 * (k - 1)) % 100 != 0 then [20 * (k - 1)] else [])
  }

  /** Major line positions for a dimension `d`. */
  function MajorLines(d: nat): seq<nat> {
    MajorUpTo(d / 100 + 1)
  }

  /** Minor line positions for a dimension `d`. */
  function MinorLines(d: nat): seq<nat> {
    MinorUpTo(d / 20 + 1)
  }

  lemma {:induction false} MinorUpToMembers(k: nat, x: int)
    ensures x in MinorUpTo(k) <==> 0 <= x < 20 * k && x % 20 == 0 && x % 100 != 0
  {
    if k > 0 {
      MinorUpToMembers(k - 1, x);
      var last := 20 * (k - 1);
      assert x in MinorUpTo(k) <==> x in MinorUpTo(k - 1) || (x == last && last % 100 != 0);
      MultiplesOfTwentyStep(k - 1, x);
    }
  }

  /** A multiple of 20 below 20·(k+1) is below 20·k or equal to it. */
  lemma MultiplesOfTwentyStep(k: nat, x: int)
    ensures (0 <= x < 20 * (k + 1) && x % 20 == 0) <==> (0 <= x < 20 * k && x % 20 == 0) || x == 20 * k
  {
    if 0 <= x < 20 * (k + 1) && x % 20 == 0 && x != 20 * k {
      assert x == 20 * (x / 20);
      assert x / 20 < k + 1;
    }
  }

  lemma {:induction false} MinorUpToIncreasing(k: nat)
    ensures forall i, j :: 0 <= i < j < |MinorUpTo(k)| ==> MinorUpTo(k)[i] < MinorUpTo(k)[j]
    ensures forall i :: 0 <= i < |MinorUpTo(k)| ==> MinorUpTo(k)[i] < 20 * k
  {
    if k > 0 {
      MinorUpToIncreasing(k - 1);
    }
  }

  /** Major lines lie exactly at the multiples of 100 from 0 up to and including
      the dimension, in increasing order. */
  lemma MajorLinesExact(d: nat, x: int)
    ensures x in MajorLines(d) <==> 0 <= x <= d && x % 100 == 0
    ensures forall i, j :: 0 <= i < j < |MajorLines(d)| ==> MajorLines(d)[i] < MajorLines(d)[j]
  {
    if 0 <= x <= d && x % 100 == 0 {
      assert MajorLines(d)[x / 100] == x;
    }
  }

  /** Minor lines lie exactly at the multiples of 20 from 0 up to and including
      the dimension that are not multiples of 100, in increasing order. */
  lemma MinorLinesExact(d: nat, x: int)
    ensures x in MinorLines(d) <==> 0 <= x <= d && x % 20 == 0 && x % 100 != 0
    ensures forall i, j :: 0 <= i < j < |MinorLines(d)| ==> MinorLines(d)[i] < MinorLines(d)[j]
  {
    MinorUpToMembers(d / 20 + 1, x);
    MinorUpToIncreasing(d / 20 + 1);
    if x % 20 == 0 {
      MultipleOfTwentyBelow(d, x);
    }
  }

  /** A multiple of 20 lies below 20·(d/20 + 1) exactly when it is at most `d`. */
  lemma MultipleOfTwentyBelow(d: nat, x: int)
    requires x % 20 == 0
    ensures x < 20 * (d / 20 + 1) <==> x <= d
  {
    var q := d / 20;
    assert 20 * q <= d < 20 * q + 20;
    assert x == 20 * (x / 20);
  }

  /** No position carries both a major and a minor line, and together they
      cover every multiple of 20 up to the dimension. */
  lemma GridLinesPartition(d: nat, x: int)
    ensures !(x in MajorLines(d) && x in MinorLines(d))
    ensures (x in MajorLines(d) || x in MinorLines(d)) <==> 0 <= x <= d && x % 20 == 0
  {
    MajorLinesExact(d, x);
    MinorLinesExact(d, x);
    HundredsAreTwenties(x);
  }

  lemma HundredsAreTwenties(x: int)
    ensures x % 100 == 0 ==> x % 20 == 0
  {
    if x % 100 == 0 {
      assert x == 20 * (5 * (x / 100));
    }
  }

  /** One vertical grid line at `x`, `height` long. */
  function VerticalLine(layer: Layer, x: nat, height: nat): seq<Call> {
    [Call(layer, BeginPath), Call(layer, MoveTo(Point(x as real, 0.0))),
     Call(layer, LineTo(Point(x as real, height as real))), Call(layer, Stroke)]
  }

  /** One horizontal grid line at `y`, `width` long. */
  function HorizontalLine(layer: Layer, y: nat, width: nat): seq<Call> {
    [Call(layer, BeginPath), Call(layer, MoveTo(Point(0.0, y as real))),
     Call(layer, LineTo(Point(width as real, y as real))), Call(layer, Stroke)]
  }

  function VerticalLines(layer: Layer, xs: seq<nat>, height: nat): (r: seq<Call>)
    ensures |r| == 4 * |xs|
    ensures forall i :: 0 <= i < |r| ==> r[i].layer == layer && !r[i].op.DrawImage?
  {
    if xs == [] then [] else VerticalLines(layer, xs[..|xs| - 1], height) + VerticalLine(layer, xs[|xs| - 1], height)
  }

  function HorizontalLines(layer: Layer, ys: seq<nat>, width: nat): (r: seq<Call>)
    ensures |r| == 4 * |ys|
    ensures forall i :: 0 <= i < |r| ==> r[i].layer == layer && !r[i].op.DrawImage?
  {
    if ys == [] then [] else HorizontalLines(layer, ys[..|ys| - 1], width) + HorizontalLine(layer, ys[|ys| - 1], width)
  }

  lemma VerticalLinesSnoc(layer: Layer, xs: seq<nat>, x: nat, height: nat)
    ensures VerticalLines(layer, xs + [x], height) == VerticalLines(layer, xs, height) + VerticalLine(layer, x, height)
  {
    assert (xs + [x])[..|xs|] == xs;
  }

  lemma HorizontalLinesSnoc(layer: Layer, ys: seq<nat>, y: nat, width: nat)
    ensures HorizontalLines(layer, ys + [y], width) == HorizontalLines(layer, ys, width) + HorizontalLine(layer, y, width)
  {
    assert (ys + [y])[..|ys|] == ys;
  }

  /** The background a grid repaint starts with, and the style of the major lines. */
  function GridPrologue(layer: Layer, width: nat, height: nat): seq<Call> {
    [Call(layer, ClearRect(width, height)), Call(layer, SetFillStyle("white")),
     Call(layer, FillRect(width, height)), Call(layer, SaveState),
     Call(layer, SetStrokeStyle(MajorColour)), Call(layer, SetLineWidth(1.0))]
  }

  function MinorStyle(layer: Layer): seq<Call> {
    [Call(layer, SetStrokeStyle(MinorColour)), Call(layer, SetLineWidth(0.7))]
  }

  /** Everything one grid repaint draws: a white background, then the major
      lines in both directions, then the minor lines, inside a save/restore;
      all of it on the one layer, and no image copies. */
  function GridCalls(layer: Layer, width: nat, height: nat): (r: seq<Call>)
    ensures forall i :: 0 <= i < |r| ==> r[i].layer == layer && !r[i].op.DrawImage?
  {
    GridPrologue(layer, width, height)
    + VerticalLines(layer, MajorLines(width), height)
    + HorizontalLines(layer, MajorLines(height), width)
    + MinorStyle(layer)
    + VerticalLines(layer, MinorLines(width), height)
    + HorizontalLines(layer, MinorLines(height), width)
    + [Call(layer, RestoreState)]
  }

  /** A vertical grid line is drawn at `x` exactly when `x` is a multiple of 20
      no greater than the width. */
  lemma {:induction false} VerticalLinesAt(layer: Layer, xs: seq<nat>, height: nat, x: nat)
    ensures Call(layer, MoveTo(Point(x as real, 0.0))) in VerticalLines(layer, xs, height) <==> x in xs
    decreases xs
  {
    if xs != [] {
      VerticalLinesAt(layer, xs[..|xs| - 1], height, x);
      var last := VerticalLine(layer, xs[|xs| - 1], height);
      assert Call(layer, MoveTo(Point(x as real, 0.0))) in last <==> x == xs[|xs| - 1] by {
        assert last[1] == Call(layer, MoveTo(Point(xs[|xs| - 1] as real, 0.0)));
      }
      assert xs == xs[..|xs| - 1] + [xs[|xs| - 1]];
    }
  }

  /** A horizontal grid line is drawn at `y` exactly when `y` is one of the
      given positions. */
  lemma {:induction false} HorizontalLinesAt(layer: Layer, ys: seq<nat>, width: nat, y: nat)
    ensures Call(layer, MoveTo(Point(0.0, y as real))) in HorizontalLines(layer, ys, width) <==> y in ys
    decreases ys
  {
    if ys != [] {
      HorizontalLinesAt(layer, ys[..|ys| - 1], width, y);
      var last := HorizontalLine(layer, ys[|ys| - 1], width);
      assert Call(layer, MoveTo(Point(0.0, y as real))) in last <==> y == ys[|ys| - 1] by {
        assert last[1] == Call(layer, MoveTo(Point(0.0, ys[|ys| - 1] as real)));
      }
      assert ys == ys[..|ys| - 1] + [ys[|ys| - 1]];
    }
  }

  // ---------------------------------------------------------------------------
  // Stroke style and smoothing.

  /** The context settings a move applies before drawing: the eraser removes
      pixels (`destination-out`) with twice the chosen width; the pencil paints
      normally (`source-over`) in the chosen colour and width. */
  function StyleCalls(tool: Tool, colour: string, lineWidth: int): (r: seq<Call>)
    ensures Call(DrawingLayer, SetComposite(DestinationOut)) in r <==> tool == Eraser
    ensures tool == Eraser ==> Call(DrawingLayer, SetLineWidth(2.0 * lineWidth as real)) in r
    ensures tool == Pencil ==>
              Call(DrawingLayer, SetLineWidth(lineWidth as real)) in r && Call(DrawingLayer, SetStrokeStyle(colour)) in r
    ensures r[|r| - 1] == Call(DrawingLayer, SetRoundCapsAndJoins)
  {
    match tool
    case Eraser =>
      [Call(DrawingLayer, SetComposite(DestinationOut)), Call(DrawingLayer, SetLineWidth((lineWidth * 2) as real)),
       Call(DrawingLayer, SetRoundCapsAndJoins)]
    case Pencil =>
      [Call(DrawingLayer, SetComposite(SourceOver)), Call(DrawingLayer, SetStrokeStyle(colour)),
       Call(DrawingLayer, SetLineWidth(lineWidth as real)), Call(DrawingLayer, SetRoundCapsAndJoins)]
  }

  /** The calls one smoothed mouse move from `prev` to the raw point `p` makes:
      a quadratic curve with control point `prev` ending at their midpoint,
      then a new path starting at that midpoint. */
  function SegmentCalls(prev: Point, p: Point): seq<Call> {
    var mid := Midpoint(prev, p);
    [Call(DrawingLayer, QuadraticCurveTo(prev, mid)), Call(DrawingLayer, Stroke),
     Call(DrawingLayer, BeginPath), Call(DrawingLayer, MoveTo(mid))]
  }

  /** A quadratic segment: from `start`, pulled towards `control`, to `end`. */
  datatype Segment = Segment(start: Point, control: Point, end: Point)

  /** The segments a stroke draws: it starts at `start` (mouse-down) and each
      mouse move to `moves[i]` draws from the current pen position, with the
      previous raw point as control, to the midpoint of the two raw points.
      The next move's control point is the raw point, not the midpoint. */
  function Smooth(pen: Point, prev: Point, moves: seq<Point>): (r: seq<Segment>)
    ensures |r| == |moves|
    decreases moves
  {
    if moves == [] then []
    else
      var mid := Midpoint(prev, moves[0]);
      [Segment(pen, prev, mid)] + Smooth(mid, moves[0], moves[1..])
  }

  function StrokeSegments(start: Point, moves: seq<Point>): seq<Segment> {
    Smooth(start, start, moves)
  }

  /** Segment `i` is controlled by raw point `i` (the start point first) and ends
      at the midpoint of raw points `i` and `i + 1`; it starts where segment
      `i - 1` ended. */
  lemma {:induction false} SmoothAt(pen: Point, prev: Point, moves: seq<Point>, i: nat)
    requires i < |moves|
    ensures Smooth(pen, prev, moves)[i].control == ([prev] + moves)[i]
    ensures Smooth(pen, prev, moves)[i].end == Midpoint(([prev] + moves)[i], moves[i])
    ensures i == 0 ==> Smooth(pen, prev, moves)[i].start == pen
    ensures i > 0 ==> Smooth(pen, prev, moves)[i].start == Smooth(pen, prev, moves)[i - 1].end
    decreases moves
  {
    if i > 0 {
      SmoothAt(Midpoint(prev, moves[0]), moves[0], moves[1..], i - 1);
      if i > 1 {
        assert Smooth(pen, prev, moves)[i - 1] == Smooth(Midpoint(prev, moves[0]), moves[0], moves[1..])[i - 2];
      }
      assert ([moves[0]] + moves[1..])[i - 1] == ([prev] + moves)[i];
    }
  }

  /** The curve is smooth where segments meet: the direction in which segment
      `i` arrives at its end equals the direction in which segment `i + 1`
      leaves its start (both are half the step between the raw points). */
  lemma TangentContinuous(start: Point, moves: seq<Point>, i: nat)
    requires i + 1 < |moves|
    ensures var a, b := StrokeSegments(start, moves)[i], StrokeSegments(start, moves)[i + 1];
      a.end == b.start &&
      a.end.x - a.control.x == b.control.x - b.start.x &&
      a.end.y - a.control.y == b.control.y - b.start.y
  {
    SmoothAt(start, start, moves, i);
    SmoothAt(start, start, moves, i + 1);
    assert ([start] + moves)[i + 1] == moves[i];
  }

  // ---------------------------------------------------------------------------
  // The trace of a stroke.

  /** The quadratic curves among `calls`, in order. */
  function Curves(calls: seq<Call>): (r: seq<CanvasOp>)
    ensures |r| <= |calls|
    ensures forall i :: 0 <= i < |r| ==> r[i].QuadraticCurveTo?
    decreases calls
  {
    if calls == [] then []
    else (if calls[0].op.QuadraticCurveTo? then [calls[0].op] else []) + Curves(calls[1..])
  }

  /** The curve each segment is drawn with. */
  function CurveOps(segs: seq<Segment>): (r: seq<CanvasOp>)
    ensures |r| == |segs|
    decreases segs
  {
    if segs == [] then [] else [QuadraticCurveTo(segs[0].control, segs[0].end)] + CurveOps(segs[1..])
  }

  /** The raw point a stroke last reached: the start before any move. */
  function LastRaw(start: Point, moves: seq<Point>): Point {
    if moves == [] then start else moves[|moves| - 1]
  }

  /** The calls a stroke records: after mouse-down at `start`, each mouse move
      applies the stroke style and then draws its segment from the previous raw
      point, one move after the other. */
  function StrokeCalls(style: seq<Call>, start: Point, moves: seq<Point>): seq<Call>
    decreases moves
  {
    if moves == [] then []
    else
      var earlier := moves[..|moves| - 1];
      StrokeCalls(style, start, earlier) + style + SegmentCalls(LastRaw(start, earlier), moves[|moves| - 1])
  }

  /** One more mouse move extends a stroke's calls by exactly what
      `Whiteboard.Draw` appends when its previous point is the last raw point:
      the style, then the segment from that point to the new one. */
  lemma StrokeCallsStep(style: seq<Call>, start: Point, moves: seq<Point>, p: Point)
    ensures StrokeCalls(style, start, moves + [p])
            == StrokeCalls(style, start, moves) + style + SegmentCalls(LastRaw(start, moves), p)
    ensures LastRaw(start, moves + [p]) == p
  {
    assert (moves + [p])[..|moves|] == moves;
  }

  lemma {:induction false} CurvesAppend(a: seq<Call>, b: seq<Call>)
    ensures Curves(a + b) == Curves(a) + Curves(b)
    decreases a
  {
    if a != [] {
      assert (a + b)[1..] == a[1..] + b;
      CurvesAppend(a[1..], b);
    } else {
      assert a + b == b;
    }
  }

  /** Setting the style draws nothing. */
  lemma StyleHasNoCurves(tool: Tool, colour: string, lineWidth: int)
    ensures Curves(StyleCalls(tool, colour, lineWidth)) == []
  {
    var r := StyleCalls(tool, colour, lineWidth);
    var n := |r|;
    assert Curves(r[n..]) == [];
    assert Curves(r[n - 1..]) == [] by { assert r[n - 1..][1..] == r[n..]; }
    assert Curves(r[n - 2..]) == [] by { assert r[n - 2..][1..] == r[n - 1..]; }
    assert Curves(r[n - 3..]) == [] by { assert r[n - 3..][1..] == r[n - 2..]; }
    if tool == Pencil {
      assert Curves(r[n - 4..]) == [] by { assert r[n - 4..][1..] == r[n - 3..]; }
      assert r[n - 4..] == r;
    } else {
      assert r[n - 3..] == r;
    }
  }

  /** One move draws one curve: controlled by the previous raw point and
      ending at the midpoint. */
  lemma SegmentCurve(prev: Point, p: Point)
    ensures Curves(SegmentCalls(prev, p)) == [QuadraticCurveTo(prev, Midpoint(prev, p))]
  {
    var r := SegmentCalls(prev, p);
    assert Curves(r[4..]) == [];
    assert Curves(r[3..]) == [] by { assert r[3..][1..] == r[4..]; }
    assert Curves(r[2..]) == [] by { assert r[2..][1..] == r[3..]; }
    assert Curves(r[1..]) == [] by { assert r[1..][1..] == r[2..]; }
  }

  /** The `i`-th curve a stroke draws is controlled by raw point `i` (the start
      first) and ends at the midpoint of raw points `i` and `i + 1`. */
  lemma {:induction false} StrokeCurvesAt(style: seq<Call>, start: Point, moves: seq<Point>)
    requires Curves(style) == []
    ensures |Curves(StrokeCalls(style, start, moves))| == |moves|
    ensures forall i :: 0 <= i < |moves| ==>
              Curves(StrokeCalls(style, start, moves))[i]
              == QuadraticCurveTo(([start] + moves)[i], Midpoint(([start] + moves)[i], moves[i]))
    decreases moves
  {
    if moves != [] {
      var earlier := moves[..|moves| - 1];
      var prev := LastRaw(start, earlier);
      StrokeCurvesAt(style, start, earlier);
      StrokeCurvesSnoc(style, start, earlier, moves[|moves| - 1]);
      assert moves == earlier + [moves[|moves| - 1]];
      var curves := Curves(StrokeCalls(style, start, moves));
      forall i | 0 <= i < |moves|
        ensures curves[i] == QuadraticCurveTo(([start] + moves)[i], Midpoint(([start] + moves)[i], moves[i]))
      {
        if i < |earlier| {
          assert ([start] + earlier)[i] == ([start] + moves)[i] && earlier[i] == moves[i];
        } else {
          assert prev == ([start] + moves)[i];
        }
      }
    }
  }

  /** One more move adds exactly one curve, from the last raw point. */
  lemma StrokeCurvesSnoc(style: seq<Call>, start: Point, moves: seq<Point>, p: Point)
    requires Curves(style) == []
    ensures Curves(StrokeCalls(style, start, moves + [p]))
            == Curves(StrokeCalls(style, start, moves)) + [QuadraticCurveTo(LastRaw(start, moves), Midpoint(LastRaw(start, moves), p))]
  {
    var prev := LastRaw(start, moves);
    StrokeCallsStep(style, start, moves, p);
    CurvesAppend(StrokeCalls(style, start, moves), style);
    CurvesAppend(StrokeCalls(style, start, moves) + style, SegmentCalls(prev, p));
    SegmentCurve(prev, p);
  }

  lemma {:induction false} CurveOpsAt(segs: seq<Segment>)
    ensures forall i :: 0 <= i < |segs| ==> CurveOps(segs)[i] == QuadraticCurveTo(segs[i].control, segs[i].end)
    decreases segs
  {
    if segs != [] {
      CurveOpsAt(segs[1..]);
      assert forall i :: 1 <= i < |segs| ==> CurveOps(segs)[i] == CurveOps(segs[1..])[i - 1];
    }
  }

  /** The curves a stroke records, one move at a time, are exactly the
      segments of its smoothed path: the trace draws `StrokeSegments`. */
  lemma StrokeDrawsSmooth(style: seq<Call>, start: Point, moves: seq<Point>)
    requires Curves(style) == []
    ensures Curves(StrokeCalls(style, start, moves)) == CurveOps(StrokeSegments(start, moves))
  {
    StrokeCurvesAt(style, start, moves);
    CurveOpsAt(StrokeSegments(start, moves));
    forall i | 0 <= i < |moves|
      ensures Curves(StrokeCalls(style, start, moves))[i] == CurveOps(StrokeSegments(start, moves))[i]
    {
      SmoothAt(start, start, moves, i);
    }
  }
}
