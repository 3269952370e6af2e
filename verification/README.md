# Carpet grid calculator in Dafny

This project models the program in `main.go` that lays out a graph-paper
"carpet" on an A4 page (210 × 297 mm). It draws bold cells sized by the
carpet type, and each bold cell is split ten by ten into minor cells. The
model covers the pure core of that program:

- `CalculateWidths`: the carpet type becomes a bold-cell width and a cell width.
- `truncate`: cut to two decimals toward zero. `math.Mod` is modelled too.
- `calculateMargin`: the two-attempt margin fit.
- `CalculateLineData`: builds the `LineCalc` record.
- `DrawVerticalLines`, `DrawHorizontalLines` and `drawLines`: the line walk.
  The gofpdf surface is replaced by the list of calls made on it.

All quantities are exact `real`s.

The modules follow the program's layers:

- `GoMath` (gomath.dfy) models Go's `int(x)` conversion, the calculator's
  `truncate`, and `math.Mod`, including the NaN that `math.Mod` returns for a
  zero divisor.
- `Layout` (layout.dfy) holds the page constants, `CalculateWidths`,
  `calculateMargin` and `CalculateLineData`, with the error values of the Go
  code as a datatype.
- `Render` (render.dfy) holds the `Line` jobs and `drawLines` as a recursive
  function from a job to a `Drawing`: the trace of `SetLineWidth` and
  `DrawLine` calls plus the error outcome. It also holds `Strokes`, which
  reads a trace as the strokes it leaves on the page (segment and stroke width).
- `Carpet` (carpet.dfy) composes the pieces as `main` does and proves the
  shape of the finished picture.

The margins are fitted to the BOLD width. `CalculateLineData` passes
`boldWidth` to `calculateMargin` (main.go:87, main.go:93), although
`calculateMargin` names its first parameter `width` (main.go:157). That is
the name the code gives the cell width (`LineCalc.Width`, main.go:26;
`Line.Width`, main.go:35). The model follows the call sites. Margins
fitted to the bold width also tile by the cell width
(`Layout.BoldTilingTilesCells`). Fitting to the cell width would give other
margins: 5.1 instead of 6 for the vertical margin of type 140, and then the
grid would not close on a bold line (`Layout.BoldAndCellFitsDiffer`).

Three facts about the program's design come out of the proofs. All three
hold in exact arithmetic only; with float64 they fail for many types (see
"## Left out"):

- The "Invalid Margin" error of `calculateMargin` happens only for a zero
  width. `math.Mod` then yields NaN, and NaN compares unequal to 0 twice.
  For every other width the second remainder is zero, whatever the sign of
  `total - 2*margin`.
- Hence, in exact arithmetic, `CalculateLineData` cannot fail after
  `CalculateWidths` succeeds (`Carpet.CarpetCalls`).
- In exact arithmetic, for every valid type the walk lands exactly on the
  far margin, so the grid closes with a bold line on both axes
  (`Carpet.CarpetPicture`).

## Model

| member | source | states |
|---|---|---|
| GoMath.TruncToInt | main.go:174 | Go's `int(x)` cuts toward zero: for x ≥ 0 it is the largest integer ≤ x; for x < 0 it is the smallest integer ≥ x |
| GoMath.Truncate | main.go:173-175 | the result is a whole number of hundredths; it is no larger in magnitude than the input, has the same sign, and lies within 0.01 of it |
| GoMath.TruncateFixesHundredths | main.go:173-175 | a value already on the hundredth grid is returned unchanged |
| GoMath.TruncateIdempotent | main.go:173-175 | truncating twice is truncating once |
| GoMath.TruncateMonotone | main.go:173-175 | truncation preserves order |
| GoMath.TruncateIsNearestTowardZero | main.go:173-175 | no hundredth between 0 and x is farther from 0 than the result: it is the hundredth nearest x on the zero side |
| GoMath.Mod | main.go:158 | `math.Mod`: no value (NaN) exactly when the divisor is 0. Otherwise the remainder is smaller in magnitude than the divisor and no larger in magnitude than x, has the sign of x, and leaves a whole multiple of the divisor; it is 0 exactly when x is a multiple |
| Layout.CalculateWidths | main.go:72-82 | succeeds exactly for types below 320, else "invalid type". The bold width is (320 − type)/10 and the cell width a tenth of it, a positive whole number of hundredths |
| Layout.TypeWidthIsExact | main.go:73 | `truncate(32 − type/10)` loses nothing for an integer type |
| Layout.WidthTable | main.go:11 | types 120, 140, 160, 180, 200 give 20, 18, 16, 14, 12 mm bold cells; 319 gives the smallest, and 320 is invalid |
| Layout.CalculateMargin | main.go:157-171 | fails ("Invalid Margin") exactly when width is 0. The result keeps a margin that already tiles. It always leaves `total − 2·result` a multiple of width, and changes the margin by less than half a width: the margin is widened when total − 2·margin ≥ 0 and narrowed otherwise |
| Layout.MarginIsLeast | main.go:157-171 | no tiling margin lies between the minimum margin and the result: the fit is the tightest possible |
| Layout.MarginExamples | main.go:157-171 | (20, 210, 5) → 5 and (20, 297, 8) → 8.5 |
| Layout.CalculateLineData | main.go:86-107 | fails with "Invalid Margin" exactly when the bold width is 0. Otherwise it copies both widths, fits the vertical margin on 210 mm and the horizontal one on 297 mm, sets the far edges to page − margin, and both drawing extents are whole multiples of the bold width with each margin between its minimum and its far edge |
| Layout.BoldTilingTilesCells | main.go:87 | an extent tiled by the bold width is also tiled by the cell width, a tenth of it |
| Layout.BoldAndCellFitsDiffer | main.go:86-95 | for type 140 the bold-width fit gives a vertical margin of 6 and the cell-width fit 5.1, whose span is not a whole number of bold cells |
| Layout.DefaultType | main.go:86-107 | the default type's record is (20, 2, 5, 8.5, 205, 288.5) |
| Render.JobsSwapRoles | main.go:110-131 | the vertical and horizontal jobs trade start margin for line margin and walk limit for line limit |
| Render.StepAdvances | main.go:136 | with a cell width of at least 0.01 each step `truncate(i + width)` strictly advances and uses up the walk's budget, so the loop ends |
| Render.Positions | main.go:136 | the visited positions: none exactly when the start is past the limit; otherwise they begin at the start, stay within the limit and strictly increase |
| Render.PositionsStep | main.go:136 | each position after the first is `truncate(previous + width)` |
| Render.PositionsStop | main.go:136 | the walk stops at the first step that would pass the limit |
| Render.DrawLines | main.go:133-155 | known line types always succeed, and their calls are exactly those of the reference `Calls` over the walked positions: per iteration `SetLineWidth(0.2)`, then `SetLineWidth(0.5)` when the counter is a multiple of 10, then one line at the position. An unknown type, whatever the cell width, fails with "unknown type" exactly when the loop body runs; it has then set the width to 0.2 and 0.5 and drawn nothing; otherwise it succeeds with no calls |
| Render.WalkCalls | main.go:136-152 | the calls of the walk from any position and counter are the per-iteration pattern of `Calls` over the positions `Positions` visits |
| Render.WalkSucceeds | main.go:143-147 | a walk over a known line type never reaches the error branch |
| Render.PenCallsSetWeight | main.go:137-141 | whatever the previous stroke width, an iteration's width calls leave 0.5 in force when its counter is a multiple of 10 and 0.2 otherwise (`LineWeight`) |
| Render.StrokesAppend | main.go:58-59 | drawing two call sequences in a row gives the two pictures in a row, the second starting with the width the first left |
| Render.WalkFirstStroke | main.go:136-151 | one iteration draws one segment at the current position with the current counter's weight, then continues with the next position and counter |
| Render.WalkStrokes | main.go:136-152 | the strokes of a walk are one per visited position, in order, at that position, with the weight of its counter |
| Render.DrawLinesStrokes | main.go:133-155 | the k-th stroke of `drawLines` is the k-th position's segment with weight 0.5 exactly when k is a multiple of 10; the first line is bold |
| Render.VerticalStrokes | main.go:110-119 | vertical lines stand at the positions walked across the width and run from the horizontal margin to `MaxHeight` |
| Render.HorizontalStrokes | main.go:122-131 | horizontal lines stand at the positions walked down the height and run from the vertical margin to `MaxWidth` |
| Carpet.CarpetCalls | main.go:43-59 | the calls for a type exist exactly for types below 320; otherwise the error is "invalid type" (the text `main` panics with), so in exact arithmetic the margin error never surfaces after valid widths |
| Carpet.GridData | main.go:44-51 | for a valid type the record has the exact widths and margins that tile both extents by the bold width |
| Carpet.CarpetStrokes | main.go:58-59 | the page shows the vertical grid and then the horizontal grid at the walked positions |
| Carpet.CarpetPicture | main.go:42-66 | in exact arithmetic, for every valid type the picture has 10·cols + 1 vertical lines one cell apart, then 10·rows + 1 horizontal ones. cols and rows count the bold cells between the margins, and the last line of each axis lies exactly on the far margin |
| Carpet.AxisWalk | main.go:136 | along an axis whose margin tiles the page, the margin is on the hundredth grid and the walk visits exactly the 10·cells + 1 cell boundaries, the last on the far margin |
| Carpet.MarginOnGrid | main.go:164 | a fitted margin, possibly widened by half a remainder, is a whole number of hundredths for every type |
| Carpet.TiledWalk | main.go:136 | a stretch of whole bold cells on the hundredth grid is walked through every cell boundary and ends on its far end |
| Carpet.ArithmeticWalk | main.go:136 | on the hundredth grid `truncate` changes nothing, so the walk is the arithmetic progression from the start in cell steps |
| Carpet.ProgressionAt | main.go:136 | the k-th point of that progression is start + k·width |
| Carpet.DefaultCarpet | main.go:179 | the default type 120 builds the record (20, 2, 5, 8.5, 205, 288.5) and draws 101 vertical lines 2 mm apart from x = 5, then 141 horizontal lines 2 mm apart from y = 8.5 |

## Left out

- `getFlags`, `initPdf`, `pdf.Text`, `OutputFileAndClose` and `main`'s
  panics (main.go:42-66, main.go:177-192) are flag parsing and calls into
  gofpdf, so they are not modelled. `Carpet.CarpetCalls` returns the error
  that `main` would panic with.
- float64 rounding is left out; all arithmetic is exact. Go's `math.Mod` is
  exact on its float64 operands, but the operands are already rounded:
  widths such as 19.89 and differences such as `total - 2*newMargin` have no
  exact double. `int(x*100)` has implementation-defined results outside the
  int64 range. With float64 the following do occur, though the exact model
  rules them out:
  - a bold width other than `Layout.CalculateWidths`' (320 − type)/10.
    For some types `int((32 - type/10.)*100)` (main.go:73, main.go:174)
    loses a hundredth; type 121 gives 19.89 where the model gives 19.9.
  - the "Invalid Margin" branch (main.go:170) for valid types. For type
    121 the float64 bold width is 19.89, the widened margin is
    9.269999999999996 rather than 9.27, and `297 - 2*newMargin` is
    278.46000000000004, whose remainder by 19.89 is about 2.8e-14 rather
    than 0.
  - the nil dereference of `data` at main.go:52 that follows that error,
    before the check at main.go:54-56.
  - drift of the walk off the hundredth grid. For type 140 the walk reaches
    34.79 instead of 34.8 and ends at 203.86 rather than on the far margin
    204.
- The `iota` values of `Vertical` and `Horizontal` (main.go:20-21) become
  datatype constructors. `Other` stands for every other integer.
- The use of `data` before its error check at main.go:52 is not modelled.
  `Carpet.CarpetCalls` shows that, in exact arithmetic, the check can never
  trigger once the widths are valid; with float64 it can (see above).
- `drawLines` for a known line type can loop forever when the cell width is
  below 0.01: for instance a start on the hundredth grid at or above 0 with
  a width between 0 and 0.01, where `truncate(i + width)` stays at `i`.
  `Render.Positions` and `Render.Walk`/`Render.DrawLines` for known types
  therefore require a width of at least 0.01 or an empty walk. That
  requirement also excludes some inputs on which the Go loop does end:
  negative positions, which `truncate` moves up toward zero (start −0.05,
  limit −0.02, width 0.005), and a start off the hundredth grid whose first
  step already passes the limit (start 5.005, limit 5.008, width 0.009).
  `Layout.CalculateWidths` guarantees a width of at least 0.01 for every
  valid type. The unknown-type path is modelled for every width.
- The counter `j` of `drawLines` is a float64 in Go and a `nat` here;
  `math.Mod(j, 10) == 0` becomes `j % 10 == 0`.
- `Render.DrawVerticalLines` and `Render.DrawHorizontalLines` carry no
  contract of their own. Their effect is stated by `Render.VerticalStrokes`
  and `Render.HorizontalStrokes`. They drop the error of `drawLines`, as the
  Go functions do.
- main_test.go is left out because it does not compile: it refers to
  `CalculateVerticalMargins` and `MARGIN_VERTICAL`, which main.go does not
  define.
