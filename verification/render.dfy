/**
  The line renderer of main.go. The gofpdf drawing surface is replaced by
  the list of calls `drawLines` makes on it, so drawing becomes a pure
  function from a `Line` job to a call trace and an error outcome.
 */
module Render {
  import opened GoMath
  import opened Layout

  /** The `lineType` argument: the two `iota` constants, or any other integer. */
  datatype LineType = Vertical | Horizontal | Other(code: int)

  /** `Line` at main.go:33-40: one axis' drawing job. */
  datatype Line = Line(
    boldWidth: real,
    width: real,
    initMargin: real,
    lineMargin: real,
    max: real,
    lineMax: real)

  datatype Segment = Segment(x1: real, y1: real, x2: real, y2: real)

  /** The two gofpdf calls the renderer makes. */
  datatype PdfCall = SetLineWidth(lineWidth: real) | DrawLine(segment: Segment)

  datatype Outcome = Pass | Fail(error: Error)

  datatype Drawing = Drawing(calls: seq<PdfCall>, outcome: Outcome)

  /** What ends up on the page: a segment and the stroke width it was drawn with. */
  datatype Stroke = Stroke(lineWidth: real, segment: Segment)

  /** `DrawVerticalLines`' job: walk across the page width, lines span the height. */
  function VerticalLine(data: LineCalc): Line {
    Line(data.boldWidth, data.width, data.verticalMargin, data.horizontalMargin,
         data.maxWidth, data.maxHeight)
  }

  /** `DrawHorizontalLines`' job: walk down the page height, lines span the width. */
  function HorizontalLine(data: LineCalc): Line {
    Line(data.boldWidth, data.width, data.horizontalMargin, data.verticalMargin,
         data.maxHeight, data.maxWidth)
  }

  /** The two jobs are mirror images: the margins and the extents trade places. */
  lemma JobsSwapRoles(data: LineCalc)
    ensures var v, h := VerticalLine(data), HorizontalLine(data);
      && v.boldWidth == h.boldWidth == data.boldWidth
      && v.width == h.width == data.width
      && v.initMargin == h.lineMargin == data.verticalMargin
      && v.lineMargin == h.initMargin == data.horizontalMargin
      && v.max == h.lineMax == data.maxWidth
      && v.lineMax == h.max == data.maxHeight
  {
  }

  /** Stroke width of the line with 0-based counter `j`. */
  function LineWeight(j: nat): real {
    if j % 10 == 0 then LineWidthBold else LineWidthNormal
  }

  /** The segment drawn at position `i` of the walk. */
  function SegmentAt(lineType: LineType, data: Line, i: real): Segment
    requires !lineType.Other?
  {
    if lineType.Vertical? then Segment(i, data.lineMargin, i, data.lineMax)
    else Segment(data.lineMargin, i, data.lineMax, i)
  }

  // Termination of the walk. Positions advance by at least a hundredth
  // once they sit on the hundredth grid, and the first step lands on it.

  /** Hundredths left before the walk passes `max`. */
  function Budget(i: real, max: real): nat {
    if i > max then 0 else ((max - i) * 100.0).Floor + 1
  }

  function OffGrid(i: real): nat {
    if IsHundredth(i) then 0 else 1
  }

  /** One step `truncate(i + width)` moves forward and uses up the measure. */
  lemma StepAdvances(i: real, width: real, max: real)
    requires width >= 0.01 && i <= max
    ensures var next := Truncate(i + width);
      && i < next
      && (Budget(next, max) < Budget(i, max)
          || (Budget(next, max) == Budget(i, max) && OffGrid(next) < OffGrid(i)))
  {
    var next := Truncate(i + width);
    if IsHundredth(i) {
      HundredthStep(i);
      TruncateMonotone(i + 0.01, i + width);
      TruncateFixesHundredths(i + 0.01);
      assert next >= i + 0.01;
      if next <= max {
        assert (max - next) * 100.0 <= (max - i) * 100.0 - 1.0;
      }
    } else {
      if next <= max {
        assert (max - next) * 100.0 <= (max - i) * 100.0;
      }
    }
  }

  lemma HundredthStep(i: real)
    requires IsHundredth(i)
    ensures IsHundredth(i + 0.01)
  {
    assert (i + 0.01) * 100.0 == i * 100.0 + 1.0;
  }

  /**
    The positions the `for` loop at main.go:136 visits: it starts at `i`,
    every one is at most `max`, and they strictly increase. The step from
    one to the next and the exit condition are `PositionsStep` and
    `PositionsStop`.
   */
  function Positions(i: real, width: real, max: real): (ps: seq<real>)
    requires width >= 0.01 || i > max
    ensures |ps| == 0 <==> i > max
    ensures |ps| > 0 ==> ps[0] == i
    ensures forall k :: 0 <= k < |ps| ==> ps[k] <= max
    ensures forall k, l :: 0 <= k < l < |ps| ==> ps[k] < ps[l]
    decreases Budget(i, max), OffGrid(i)
  {
    if i > max then []
    else
      StepAdvances(i, width, max);
      var rest := Positions(Truncate(i + width), width, max);
      assert forall l :: 0 <= l < |rest| ==> i < rest[l] by {
        forall l | 0 <= l < |rest| ensures i < rest[l] {
          if l > 0 { assert rest[0] < rest[l]; }
        }
      }
      [i] + rest
  }

  /** Each position after the first is `truncate(previous + width)`. */
  lemma {:induction false} PositionsStep(i: real, width: real, max: real, k: nat)
    requires width >= 0.01 || i > max
    requires k + 1 < |Positions(i, width, max)|
    ensures var ps := Positions(i, width, max);
      ps[k + 1] == Truncate(ps[k] + width)
    decreases k
  {
    StepAdvances(i, width, max);
    var next := Truncate(i + width);
    var rest := Positions(next, width, max);
    assert Positions(i, width, max) == [i] + rest;
    if k > 0 {
      PositionsStep(next, width, max, k - 1);
    }
  }

  /** The loop ends at the first step that would pass `max`. */
  lemma {:induction false} PositionsStop(i: real, width: real, max: real)
    requires width >= 0.01 || i > max
    requires i <= max
    ensures var ps := Positions(i, width, max);
      Truncate(ps[|ps| - 1] + width) > max
    decreases Budget(i, max), OffGrid(i)
  {
    StepAdvances(i, width, max);
    var next := Truncate(i + width);
    var rest := Positions(next, width, max);
    assert Positions(i, width, max) == [i] + rest;
    if next <= max {
      PositionsStop(next, width, max);
    }
  }

  /** The calls of one loop iteration before the segment: main.go:137-141. */
  function PenCalls(j: nat): seq<PdfCall> {
    [SetLineWidth(LineWidthNormal)] + (if j % 10 == 0 then [SetLineWidth(LineWidthBold)] else [])
  }

  /**
    The `for` loop of `drawLines` from position `i` with counter `j`. An
    unknown line type is only noticed inside the first iteration, after
    the width calls were made.
   */
  function Walk(lineType: LineType, data: Line, i: real, j: nat): Drawing
    requires data.width >= 0.01 || i > data.max || lineType.Other?
    decreases Budget(i, data.max), OffGrid(i)
  {
    if i > data.max then Drawing([], Pass)
    else if lineType.Other? then Drawing(PenCalls(j), Fail(UnknownType))
    else
      StepAdvances(i, data.width, data.max);
      var rest := Walk(lineType, data, Truncate(i + data.width), j + 1);
      Drawing(PenCalls(j) + [DrawLine(SegmentAt(lineType, data, i))] + rest.calls, rest.outcome)
  }

  /**
    `drawLines` (main.go:133-155). For the two known line types it always
    succeeds. For any other type it fails exactly when the loop runs at
    all, having set the stroke width twice and drawn nothing.
   */
  function DrawLines(lineType: LineType, data: Line): (d: Drawing)
    requires data.width >= 0.01 || data.initMargin > data.max || lineType.Other?
    ensures !lineType.Other? ==> d.outcome == Pass
    ensures !lineType.Other? ==>
      d.calls == Calls(lineType, data, Positions(data.initMargin, data.width, data.max), 0)
    ensures lineType.Other? ==>
      && (d.outcome == Fail(UnknownType) <==> data.initMargin <= data.max)
      && (d.outcome == Pass <==> data.initMargin > data.max)
      && d.calls == (if data.initMargin <= data.max
                     then [SetLineWidth(LineWidthNormal), SetLineWidth(LineWidthBold)]
                     else [])
  {
    if lineType.Other? then Walk(lineType, data, data.initMargin, 0)
    else
      WalkSucceeds(lineType, data, data.initMargin, 0);
      WalkCalls(lineType, data, data.initMargin, 0);
      Walk(lineType, data, data.initMargin, 0)
  }

  /**
    The calls the loop should make over positions `ps` with counters from
    `j`: per iteration the normal width, the bold width when the counter
    is a multiple of ten, then exactly one line at the position.
   */
  function Calls(lineType: LineType, data: Line, ps: seq<real>, j: nat): seq<PdfCall>
    requires !lineType.Other?
    decreases |ps|
  {
    if ps == [] then []
    else PenCalls(j) + [DrawLine(SegmentAt(lineType, data, ps[0]))]
         + Calls(lineType, data, ps[1..], j + 1)
  }

  /** The walk from `i` with counter `j` makes exactly the calls of `Calls`. */
  lemma {:induction false} WalkCalls(lineType: LineType, data: Line, i: real, j: nat)
    requires data.width >= 0.01 || i > data.max
    requires !lineType.Other?
    ensures Walk(lineType, data, i, j).calls
      == Calls(lineType, data, Positions(i, data.width, data.max), j)
    decreases Budget(i, data.max), OffGrid(i)
  {
    if i <= data.max {
      StepAdvances(i, data.width, data.max);
      var next := Truncate(i + data.width);
      WalkCalls(lineType, data, next, j + 1);
      var ps := Positions(i, data.width, data.max);
      assert ps == [i] + Positions(next, data.width, data.max);
      assert ps[1..] == Positions(next, data.width, data.max);
    }
  }

  lemma {:induction false} WalkSucceeds(lineType: LineType, data: Line, i: real, j: nat)
    requires data.width >= 0.01 || i > data.max
    requires !lineType.Other?
    ensures Walk(lineType, data, i, j).outcome == Pass
    decreases Budget(i, data.max), OffGrid(i)
  {
    if i <= data.max {
      StepAdvances(i, data.width, data.max);
      WalkSucceeds(lineType, data, Truncate(i + data.width), j + 1);
    }
  }

  /**
    What a sequence of calls puts on the page: each `DrawLine` becomes a
    stroke with the width most recently set (`pen` before any is set).
   */
  function Strokes(calls: seq<PdfCall>, pen: real): (ss: seq<Stroke>)
    ensures |ss| <= |calls|
  {
    if calls == [] then []
    else match calls[0]
      case SetLineWidth(w) => Strokes(calls[1..], w)
      case DrawLine(s) => [Stroke(pen, s)] + Strokes(calls[1..], pen)
  }

  /** The stroke width in force after a sequence of calls. */
  function PenAfter(calls: seq<PdfCall>, pen: real): real {
    if calls == [] then pen
    else match calls[0]
      case SetLineWidth(w) => PenAfter(calls[1..], w)
      case DrawLine(_) => PenAfter(calls[1..], pen)
  }

  /** The picture of two call sequences in a row is the two pictures in a row. */
  lemma {:induction false} StrokesAppend(a: seq<PdfCall>, b: seq<PdfCall>, pen: real)
    ensures Strokes(a + b, pen) == Strokes(a, pen) + Strokes(b, PenAfter(a, pen))
    decreases |a|
  {
    if a != [] {
      assert (a + b)[0] == a[0] && (a + b)[1..] == a[1..] + b;
      match a[0]
      case SetLineWidth(w) =>
        StrokesAppend(a[1..], b, w);
      case DrawLine(s) =>
        StrokesAppend(a[1..], b, pen);
    } else {
      assert a + b == b;
    }
  }

  /** Every line counter `j` leaves the pen at the weight of line `j`. */
  lemma PenCallsSetWeight(j: nat, rest: seq<PdfCall>, pen: real)
    ensures Strokes(PenCalls(j) + rest, pen) == Strokes(rest, LineWeight(j))
  {
    var calls := PenCalls(j) + rest;
    assert calls[0] == SetLineWidth(LineWidthNormal);
    if j % 10 == 0 {
      assert calls[1..] == [SetLineWidth(LineWidthBold)] + rest;
      assert calls[1..][1..] == rest;
    } else {
      assert calls[1..] == rest;
    }
  }

  /**
    The strokes a walk should leave over positions `ps` with counters from
    `j`: one per position, at that position, with the weight of its counter.
   */
  function Picture(lineType: LineType, data: Line, ps: seq<real>, j: nat): (ss: seq<Stroke>)
    requires !lineType.Other?
    ensures |ss| == |ps|
    decreases |ps|
  {
    if ps == [] then []
    else [Stroke(LineWeight(j), SegmentAt(lineType, data, ps[0]))] + Picture(lineType, data, ps[1..], j + 1)
  }

  /** The `k`-th stroke of a picture. */
  lemma {:induction false} PictureAt(lineType: LineType, data: Line, ps: seq<real>, j: nat, k: nat)
    requires !lineType.Other? && k < |ps|
    ensures Picture(lineType, data, ps, j)[k] == Stroke(LineWeight(j + k), SegmentAt(lineType, data, ps[k]))
    decreases k
  {
    if k > 0 {
      PictureAt(lineType, data, ps[1..], j + 1, k - 1);
    }
  }

  /**
    The picture of the walk from `i` with counter `j`, whatever the pen
    was before.
   */
  lemma {:induction false} WalkStrokes(lineType: LineType, data: Line, i: real, j: nat, pen: real)
    requires data.width >= 0.01 || i > data.max
    requires !lineType.Other?
    ensures Strokes(Walk(lineType, data, i, j).calls, pen)
      == Picture(lineType, data, Positions(i, data.width, data.max), j)
    decreases Budget(i, data.max), OffGrid(i)
  {
    if i <= data.max {
      StepAdvances(i, data.width, data.max);
      var next := Truncate(i + data.width);
      WalkFirstStroke(lineType, data, i, j, pen);
      WalkStrokes(lineType, data, next, j + 1, LineWeight(j));
      var ps := Positions(i, data.width, data.max);
      assert ps == [i] + Positions(next, data.width, data.max);
      assert ps[1..] == Positions(next, data.width, data.max);
    }
  }

  /** One iteration of the walk draws its segment with the weight of its counter. */
  lemma WalkFirstStroke(lineType: LineType, data: Line, i: real, j: nat, pen: real)
    requires data.width >= 0.01 && i <= data.max
    requires !lineType.Other?
    ensures var next := Truncate(i + data.width);
      Strokes(Walk(lineType, data, i, j).calls, pen)
      == [Stroke(LineWeight(j), SegmentAt(lineType, data, i))]
         + Strokes(Walk(lineType, data, next, j + 1).calls, LineWeight(j))
  {
    StepAdvances(i, data.width, data.max);
    var next := Truncate(i + data.width);
    var rest := Walk(lineType, data, next, j + 1).calls;
    var seg := SegmentAt(lineType, data, i);
    var tail := [DrawLine(seg)] + rest;
    assert Walk(lineType, data, i, j).calls == PenCalls(j) + tail;
    PenCallsSetWeight(j, tail, pen);
    assert tail[0] == DrawLine(seg) && tail[1..] == rest;
  }

  /** The picture `drawLines` leaves for a known line type. */
  lemma DrawLinesStrokes(lineType: LineType, data: Line, pen: real)
    requires data.width >= 0.01 || data.initMargin > data.max
    requires !lineType.Other?
    ensures var ps := Positions(data.initMargin, data.width, data.max);
      var ss := Strokes(DrawLines(lineType, data).calls, pen);
      && |ss| == |ps|
      && forall k :: 0 <= k < |ps| ==>
           ss[k] == Stroke(LineWeight(k), SegmentAt(lineType, data, ps[k]))
  {
    WalkStrokes(lineType, data, data.initMargin, 0, pen);
    var ps := Positions(data.initMargin, data.width, data.max);
    forall k | 0 <= k < |ps|
      ensures Picture(lineType, data, ps, 0)[k] == Stroke(LineWeight(k), SegmentAt(lineType, data, ps[k]))
    {
      PictureAt(lineType, data, ps, 0, k);
    }
  }

  /** `DrawVerticalLines` (main.go:110-119); the error of `drawLines` is dropped. */
  function DrawVerticalLines(data: LineCalc): (calls: seq<PdfCall>)
    requires data.width >= 0.01 || data.verticalMargin > data.maxWidth
  {
    DrawLines(Vertical, VerticalLine(data)).calls
  }

  /** `DrawHorizontalLines` (main.go:122-131); the error of `drawLines` is dropped. */
  function DrawHorizontalLines(data: LineCalc): (calls: seq<PdfCall>)
    requires data.width >= 0.01 || data.horizontalMargin > data.maxHeight
  {
    DrawLines(Horizontal, HorizontalLine(data)).calls
  }

  /**
    Vertical lines stand at the positions walked across the page width and
    run from the horizontal margin down to `maxHeight`.
   */
  lemma VerticalStrokes(data: LineCalc, pen: real)
    requires data.width >= 0.01 || data.verticalMargin > data.maxWidth
    ensures var ps := Positions(data.verticalMargin, data.width, data.maxWidth);
      var ss := Strokes(DrawVerticalLines(data), pen);
      && |ss| == |ps|
      && forall k :: 0 <= k < |ps| ==>
           ss[k] == Stroke(LineWeight(k), Segment(ps[k], data.horizontalMargin, ps[k], data.maxHeight))
  {
    DrawLinesStrokes(Vertical, VerticalLine(data), pen);
  }

  /**
    Horizontal lines stand at the positions walked down the page height and
    run from the vertical margin across to `maxWidth`.
   */
  lemma HorizontalStrokes(data: LineCalc, pen: real)
    requires data.width >= 0.01 || data.horizontalMargin > data.maxHeight
    ensures var ps := Positions(data.horizontalMargin, data.width, data.maxHeight);
      var ss := Strokes(DrawHorizontalLines(data), pen);
      && |ss| == |ps|
      && forall k :: 0 <= k < |ps| ==>
           ss[k] == Stroke(LineWeight(k), Segment(data.verticalMargin, ps[k], data.maxWidth, ps[k]))
  {
    DrawLinesStrokes(Horizontal, HorizontalLine(data), pen);
  }
}
