/**
  The whole carpet as `main` (main.go:42-66) assembles it, minus the flag
  parsing, the PDF set-up, the type label and the file output: the type
  gives the widths, the widths give the margins, and the vertical then the
  horizontal lines are drawn. In exact arithmetic, for every valid type the
  grid closes exactly on the far margins with a bold line.
 */
module Carpet {
  import opened GoMath
  import opened Layout
  import opened Render

  /** The calls `main` makes on the drawing surface for carpet type `size`. */
  function CarpetCalls(size: int): (r: Result<seq<PdfCall>>)
    ensures r.Ok? <==> size < 320
    ensures r.Err? ==> r.error == InvalidType && Message(r.error) == "invalid type"
  {
    match CalculateWidths(size)
    case Err(e) => Err(e)
    case Ok(w) =>
      match CalculateLineData(w.boldWidth, w.width)
      case Err(e) => Err(e)
      case Ok(data) => Ok(DrawVerticalLines(data) + DrawHorizontalLines(data))
  }

  /** The `LineCalc` record `main` builds for a valid type. */
  function GridData(size: int): (data: LineCalc)
    requires size < 320
    ensures data.boldWidth == (320 - size) as real / 10.0
    ensures data.width * 10.0 == data.boldWidth
    ensures IsHundredth(data.width) && data.width >= 0.01
    ensures IsMultiple(PageWidth - 2.0 * data.verticalMargin, data.boldWidth)
    ensures IsMultiple(PageHeight - 2.0 * data.horizontalMargin, data.boldWidth)
    ensures MarginVertical <= data.verticalMargin <= data.maxWidth == PageWidth - data.verticalMargin
    ensures MarginHorizontal <= data.horizontalMargin <= data.maxHeight == PageHeight - data.horizontalMargin
  {
    var w := CalculateWidths(size).value;
    CalculateLineData(w.boldWidth, w.width).value
  }

  /** Vertical lines at the given abscissae, bold every tenth. */
  function VerticalGrid(data: LineCalc, xs: seq<real>): (ss: seq<Stroke>)
    ensures |ss| == |xs|
  {
    seq(|xs|, k requires 0 <= k < |xs| =>
      Stroke(LineWeight(k), Segment(xs[k], data.horizontalMargin, xs[k], data.maxHeight)))
  }

  /** Horizontal lines at the given ordinates, bold every tenth. */
  function HorizontalGrid(data: LineCalc, ys: seq<real>): (ss: seq<Stroke>)
    ensures |ss| == |ys|
  {
    seq(|ys|, k requires 0 <= k < |ys| =>
      Stroke(LineWeight(k), Segment(data.verticalMargin, ys[k], data.maxWidth, ys[k])))
  }

  /**
    The picture of carpet type `size`: with `cols` bold cells across and
    `rows` down, 10 * cols + 1 vertical lines and then 10 * rows + 1
    horizontal ones; the last line of each axis lies exactly on the far
    margin, and it is bold like the first.
   */
  lemma CarpetPicture(size: int, pen: real)
    requires size < 320
    ensures CarpetCalls(size).Ok?
    ensures var data := GridData(size);
      var cols := ((PageWidth - 2.0 * data.verticalMargin) / data.boldWidth).Floor;
      var rows := ((PageHeight - 2.0 * data.horizontalMargin) / data.boldWidth).Floor;
      && cols >= 0 && rows >= 0
      && Progression(data.verticalMargin, data.width, 10 * cols)[10 * cols] == data.maxWidth
      && Progression(data.horizontalMargin, data.width, 10 * rows)[10 * rows] == data.maxHeight
      && Strokes(CarpetCalls(size).value, pen)
         == VerticalGrid(data, Progression(data.verticalMargin, data.width, 10 * cols))
          + HorizontalGrid(data, Progression(data.horizontalMargin, data.width, 10 * rows))
  {
    var data := GridData(size);
    var b := 320 - size;
    var cols := AxisWalk(PageWidth, data.verticalMargin, data.boldWidth, data.width, b);
    var rows := AxisWalk(PageHeight, data.horizontalMargin, data.boldWidth, data.width, b);
    CarpetStrokes(size, pen);
  }

  /** The carpet's picture is its vertical lines, then its horizontal ones. */
  lemma CarpetStrokes(size: int, pen: real)
    requires size < 320
    ensures var data := GridData(size);
      Strokes(CarpetCalls(size).value, pen)
        == VerticalGrid(data, Positions(data.verticalMargin, data.width, data.maxWidth))
         + HorizontalGrid(data, Positions(data.horizontalMargin, data.width, data.maxHeight))
  {
    var data := GridData(size);
    assert CarpetCalls(size).value == DrawVerticalLines(data) + DrawHorizontalLines(data);
    VerticalPicture(data, pen);
    HorizontalPicture(data, PenAfter(DrawVerticalLines(data), pen));
    StrokesAppend(DrawVerticalLines(data), DrawHorizontalLines(data), pen);
  }

  /** The vertical lines stand at the walked positions, bold every tenth. */
  lemma VerticalPicture(data: LineCalc, pen: real)
    requires data.width >= 0.01 || data.verticalMargin > data.maxWidth
    ensures Strokes(DrawVerticalLines(data), pen)
      == VerticalGrid(data, Positions(data.verticalMargin, data.width, data.maxWidth))
  {
    VerticalStrokes(data, pen);
  }

  /** The horizontal lines stand at the walked positions, bold every tenth. */
  lemma HorizontalPicture(data: LineCalc, pen: real)
    requires data.width >= 0.01 || data.horizontalMargin > data.maxHeight
    ensures Strokes(DrawHorizontalLines(data), pen)
      == HorizontalGrid(data, Positions(data.horizontalMargin, data.width, data.maxHeight))
  {
    HorizontalStrokes(data, pen);
  }

  /**
    Along one page axis of extent `total`: the margin is on the hundredth
    grid, the stretch between the margins holds `cells` bold cells, and
    the walk visits exactly the 10 * cells + 1 cell boundaries.
   */
  lemma AxisWalk(total: real, margin: real, boldWidth: real, width: real, b: int)
    returns (cells: int)
    requires IsWhole(total) && b > 0 && boldWidth == b as real / 10.0
    requires width * 10.0 == boldWidth && IsHundredth(width) && width >= 0.01
    requires IsMultiple(total - 2.0 * margin, boldWidth) && margin <= total - margin
    ensures cells == ((total - 2.0 * margin) / boldWidth).Floor && cells >= 0
    ensures Progression(margin, width, 10 * cells)[10 * cells] == total - margin
    ensures Positions(margin, width, total - margin) == Progression(margin, width, 10 * cells)
    ensures IsHundredth(margin)
  {
    MarginOnGrid(total, margin, boldWidth, b);
    cells := TiledWalk(margin, width, total - margin, total - 2.0 * margin, boldWidth);
  }

  /**
    A margin that leaves a whole number of bold cells of a type-derived
    width sits on the hundredth grid.
   */
  lemma MarginOnGrid(total: real, margin: real, boldWidth: real, b: int)
    requires IsWhole(total) && b > 0 && boldWidth == b as real / 10.0
    requires IsMultiple(total - 2.0 * margin, boldWidth)
    ensures IsHundredth(margin)
  {
    var x := total - 2.0 * margin;
    var m := MultipleWitness(x, boldWidth);
    var t := total.Floor;
    assert x * 10.0 == (b * m) as real by {
      IntProduct(b, m);
      TenthProduct(b as real, m as real);
    }
    assert margin * 100.0 == (50 * t - 5 * (b * m)) as real;
  }

  /**
    Walking a stretch that holds `cols` bold cells of ten hundredth-grid
    cells each visits exactly the 10 * cols + 1 cell boundaries.
   */
  lemma TiledWalk(start: real, width: real, max: real, span: real, bold: real)
    returns (cols: int)
    requires IsHundredth(start) && IsHundredth(width) && width >= 0.01
    requires bold == 10.0 * width && span == max - start
    requires IsMultiple(span, bold) && span >= 0.0
    ensures cols == (span / bold).Floor && cols >= 0
    ensures Progression(start, width, 10 * cols)[10 * cols] == max
    ensures Positions(start, width, max) == Progression(start, width, 10 * cols)
  {
    cols := MultipleWitness(span, bold);
    assert cols >= 0 by { NonNegativeFactor(bold, cols as real); }
    assert start + (10 * cols) as real * width == max by { TenfoldCells(width, cols as real); }
    ArithmeticWalk(start, width, max, 10 * cols);
    ProgressionAt(start, width, 10 * cols, 10 * cols);
  }

  /** `n + 1` points from `start`, `width` apart. */
  function Progression(start: real, width: real, n: nat): (ps: seq<real>)
    ensures |ps| == n + 1
    decreases n
  {
    if n == 0 then [start] else [start] + Progression(start + width, width, n - 1)
  }

  /** The `k`-th point of a progression is `start + k * width`. */
  lemma {:induction false} ProgressionAt(start: real, width: real, n: nat, k: nat)
    requires k <= n
    ensures Progression(start, width, n)[k] == start + k as real * width
    decreases k
  {
    if k > 0 {
      ProgressionAt(start + width, width, n - 1, k - 1);
      StepBack(width, k as real);
    }
  }

  /**
    Once on the hundredth grid with a hundredth-grid step, `truncate`
    changes nothing and the walk is the arithmetic progression
    `start, start + width, ..., start + n * width`.
   */
  lemma {:induction false} ArithmeticWalk(start: real, width: real, max: real, n: nat)
    requires IsHundredth(start) && IsHundredth(width) && width >= 0.01
    requires max == start + n as real * width
    ensures Positions(start, width, max) == Progression(start, width, n)
    decreases n
  {
    var next := start + width;
    assert start <= max by { NonNegativeFactor(width, n as real); }
    if n == 0 {
      assert next > max;
    } else {
      NextSpan(start, width, max, n);
      assert IsHundredth(next) by { SumOfHundredths(start, width); }
      ArithmeticWalk(next, width, max, n - 1);
    }
    WalkCons(start, width, max);
  }

  lemma NextSpan(start: real, width: real, max: real, n: nat)
    requires n > 0 && max == start + n as real * width
    ensures max == (start + width) + (n - 1) as real * width
  {
    StepBack(width, n as real);
  }

  /** On the hundredth grid one step of the walk is an exact addition. */
  lemma WalkCons(start: real, width: real, max: real)
    requires IsHundredth(start) && IsHundredth(width) && width >= 0.01
    requires start <= max
    ensures Positions(start, width, max) == [start] + Positions(start + width, width, max)
  {
    SumOfHundredths(start, width);
    TruncateFixesHundredths(start + width);
  }

  /**
    Type 120, the default: the record (20, 2, 5, 8.5, 205, 288.5), then 101
    vertical lines 2 mm apart from x = 5 and 141 horizontal lines 2 mm apart
    from y = 8.5.
   */
  lemma DefaultCarpet(pen: real)
    ensures var data := LineCalc(20.0, 2.0, 5.0, 8.5, 205.0, 288.5);
      var xs, ys := Progression(5.0, 2.0, 100), Progression(8.5, 2.0, 140);
      && GridData(120) == data
      && |xs| == 101 && |ys| == 141
      && Strokes(CarpetCalls(120).value, pen) == VerticalGrid(data, xs) + HorizontalGrid(data, ys)
  {
    DefaultType();
    WidthTable();
    assert GridData(120) == LineCalc(20.0, 2.0, 5.0, 8.5, 205.0, 288.5);
    CarpetPicture(120, pen);
    assert ((PageWidth - 2.0 * 5.0) / 20.0).Floor == 10;
    assert ((PageHeight - 2.0 * 8.5) / 20.0).Floor == 14;
  }

  // Arithmetic steps, each kept to one product.

  lemma TenthProduct(b: real, m: real)
    ensures (b / 10.0 * m) * 10.0 == b * m
  {
  }

  lemma IntProduct(u: int, v: int)
    ensures (u * v) as real == (u as real) * (v as real)
  {
  }

  lemma NonNegativeFactor(a: real, k: real)
    requires a > 0.0
    ensures a * k >= 0.0 <==> k >= 0.0
  {
  }

  lemma TenfoldCells(width: real, c: real)
    ensures (10.0 * width) * c == (10.0 * c) * width
  {
  }

  lemma StepBack(width: real, k: real)
    ensures (k - 1.0) * width + width == k * width
  {
  }

  lemma SumOfHundredths(x: real, y: real)
    requires IsHundredth(x) && IsHundredth(y)
    ensures IsHundredth(x + y)
  {
    assert (x + y) * 100.0 == x * 100.0 + y * 100.0;
    assert ((x + y) * 100.0).Floor == (x * 100.0).Floor + (y * 100.0).Floor;
  }
}
