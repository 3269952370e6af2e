/**
  The dimension calculator of main.go: the carpet type becomes a bold-cell
  width and a cell width, and the fixed A4 page gets symmetric margins so
  that the bold grid tiles it exactly.
 */
module Layout {
  import opened GoMath

  // The constants at main.go:12-19, in millimetres.
  const PageWidth: real := 210.0
  const PageHeight: real := 297.0
  const MarginVertical: real := 5.0
  const MarginHorizontal: real := 8.0
  const LineWidthBold: real := 0.5
  const LineWidthNormal: real := 0.2
  const ConversionFactor: real := 32.0

  /** The three `errors.New` values of the calculator and the renderer. */
  datatype Error = InvalidType | InvalidMargin | UnknownType

  datatype Result<+T> = Ok(value: T) | Err(error: Error)

  /** The pair returned by `CalculateWidths`. */
  datatype Widths = Widths(boldWidth: real, width: real)

  /** `LineCalc` at main.go:24-31. */
  datatype LineCalc = LineCalc(
    boldWidth: real,
    width: real,
    verticalMargin: real,
    horizontalMargin: real,
    maxWidth: real,
    maxHeight: real)

  /** The Go error text of each error value. */
  function Message(e: Error): string {
    match e
    case InvalidType => "invalid type"
    case InvalidMargin => "Invalid Margin"
    case UnknownType => "unknown type"
  }

  /**
    `CalculateWidths`: the bold width is `truncate(32 - size / 10)`, which
    for an integer type is exactly `(320 - size) / 10`; a cell is a tenth
    of it. Types of 320 and above leave no positive width.
   */
  function CalculateWidths(size: int): (r: Result<Widths>)
    ensures r.Ok? <==> size < 320
    ensures r.Err? ==> r.error == InvalidType
    ensures r.Ok? ==> r.value.boldWidth == (320 - size) as real / 10.0
    ensures r.Ok? ==> r.value.width * 10.0 == r.value.boldWidth
    ensures r.Ok? ==> IsHundredth(r.value.width) && r.value.width >= 0.01
  {
    TypeWidthIsExact(size);
    var boldWidth := Truncate(ConversionFactor - size as real / 10.0);
    if boldWidth <= 0.0 then Err(InvalidType)
    else Ok(Widths(boldWidth, boldWidth / 10.0))
  }

  /** An integer type divided by ten has one decimal, so `truncate` keeps it. */
  lemma TypeWidthIsExact(size: int)
    ensures Truncate(ConversionFactor - size as real / 10.0) == (320 - size) as real / 10.0
    ensures IsHundredth((320 - size) as real / 100.0)
  {
    var b := (320 - size) as real / 10.0;
    assert ConversionFactor - size as real / 10.0 == b;
    assert b * 100.0 == (10 * (320 - size)) as real;
    TruncateFixesHundredths(b);
    assert ((320 - size) as real / 100.0) * 100.0 == (320 - size) as real;
  }

  /** The table in the comment at main.go:11. */
  lemma WidthTable()
    ensures CalculateWidths(120) == Ok(Widths(20.0, 2.0))
    ensures CalculateWidths(140) == Ok(Widths(18.0, 1.8))
    ensures CalculateWidths(160) == Ok(Widths(16.0, 1.6))
    ensures CalculateWidths(180) == Ok(Widths(14.0, 1.4))
    ensures CalculateWidths(200) == Ok(Widths(12.0, 1.2))
    ensures CalculateWidths(319) == Ok(Widths(0.1, 0.01))
    ensures CalculateWidths(320) == Err(InvalidType)
  {
  }

  /**
    `calculateMargin`: the margin, widened by half the remainder, for which
    `total - 2 * margin` is a whole number of `width`s. Go's `math.Mod`
    returns NaN for a zero width, which compares unequal to zero twice and
    so ends in the "Invalid Margin" error; for every other width the second
    remainder is zero and the error cannot happen.
   */
  function CalculateMargin(width: real, total: real, margin: real): (r: Result<real>)
    ensures r.Err? <==> width == 0.0
    ensures r.Err? ==> r.error == InvalidMargin
    ensures r.Ok? ==> IsMultiple(total - 2.0 * r.value, width)
    ensures r.Ok? && IsMultiple(total - 2.0 * margin, width) ==> r.value == margin
    ensures r.Ok? && total - 2.0 * margin >= 0.0 ==>
      margin <= r.value < margin + Abs(width) / 2.0 &&
      0.0 <= total - 2.0 * r.value
    ensures r.Ok? && total - 2.0 * margin < 0.0 ==>
      margin - Abs(width) / 2.0 < r.value <= margin
  {
    match Mod(total - 2.0 * margin, width)
    case None => Err(InvalidMargin)
    case Some(rest) =>
      if rest == 0.0 then Ok(margin)
      else
        var newMargin := margin + rest / 2.0;
        assert total - 2.0 * newMargin == (total - 2.0 * margin) - rest;
        match Mod(total - 2.0 * newMargin, width)
        case None => Err(InvalidMargin)
        case Some(rest2) => if rest2 == 0.0 then Ok(newMargin) else Err(InvalidMargin)
  }

  /**
    The margin found is the least one at or above the minimum that tiles:
    no margin between the minimum and the result leaves a whole number of
    `width`s.
   */
  lemma MarginIsLeast(width: real, total: real, margin: real, other: real)
    requires width != 0.0 && total - 2.0 * margin >= 0.0
    requires margin <= other && IsMultiple(total - 2.0 * other, width)
    ensures CalculateMargin(width, total, margin).value <= other
  {
    var r := CalculateMargin(width, total, margin).value;
    var a := Abs(width);
    var e, f := total - 2.0 * other, total - 2.0 * r;
    MultipleOfAbs(e, width);
    MultipleOfAbs(f, width);
    assert e <= total - 2.0 * margin < f + a;
    MultiplesBelow(e, f, a);
  }

  /** The two worked cases: 200 mm tiles by 20 at once, 281 mm after widening to 8.5. */
  lemma MarginExamples()
    ensures CalculateMargin(20.0, PageWidth, MarginVertical) == Ok(5.0)
    ensures CalculateMargin(20.0, PageHeight, MarginHorizontal) == Ok(8.5)
  {
    assert Mod(200.0, 20.0) == Some(0.0);
    assert Mod(281.0, 20.0) == Some(1.0);
    assert Mod(280.0, 20.0) == Some(0.0);
  }

  /**
    Fitting to the bold width and fitting to the cell width give different
    margins: for type 140 (bold 18, cell 1.8) the vertical margin is 6 by
    the bold width but 5.1 by the cell width, whose span 199.8 is 111 cells
    and so not a whole number of bold cells.
   */
  lemma BoldAndCellFitsDiffer()
    ensures CalculateMargin(18.0, PageWidth, MarginVertical) == Ok(6.0)
    ensures CalculateMargin(1.8, PageWidth, MarginVertical) == Ok(5.1)
    ensures !IsMultiple(PageWidth - 2.0 * 5.1, 18.0)
  {
    assert Mod(200.0, 18.0) == Some(2.0);
    assert Mod(198.0, 18.0) == Some(0.0);
    assert Mod(200.0, 1.8) == Some(0.2);
    assert Mod(199.8, 1.8) == Some(0.0);
    assert 199.8 == 18.0 * 11.1;
  }

  /**
    `CalculateLineData`: margins for both page axes, each fitted to the BOLD
    width, and the far edges of the drawing area. The first failing margin
    is returned and no record is built.
   */
  function CalculateLineData(boldWidth: real, width: real): (r: Result<LineCalc>)
    ensures r.Err? <==> boldWidth == 0.0
    ensures r.Err? ==> r.error == InvalidMargin
    ensures r.Ok? ==>
      var c := r.value;
      && c.boldWidth == boldWidth && c.width == width
      && c.verticalMargin == CalculateMargin(boldWidth, PageWidth, MarginVertical).value
      && c.horizontalMargin == CalculateMargin(boldWidth, PageHeight, MarginHorizontal).value
      && c.maxWidth == PageWidth - c.verticalMargin
      && c.maxHeight == PageHeight - c.horizontalMargin
    ensures r.Ok? ==>
      var c := r.value;
      && IsMultiple(PageWidth - 2.0 * c.verticalMargin, boldWidth)
      && IsMultiple(PageHeight - 2.0 * c.horizontalMargin, boldWidth)
      && MarginVertical <= c.verticalMargin <= c.maxWidth
      && MarginHorizontal <= c.horizontalMargin <= c.maxHeight
  {
    match CalculateMargin(boldWidth, PageWidth, MarginVertical)
    case Err(e) => Err(e)
    case Ok(verticalMargin) =>
      match CalculateMargin(boldWidth, PageHeight, MarginHorizontal)
      case Err(e) => Err(e)
      case Ok(horizontalMargin) =>
        Ok(LineCalc(
          boldWidth, width, verticalMargin, horizontalMargin,
          PageWidth - verticalMargin, PageHeight - horizontalMargin))
  }

  /**
    Fitting the margins to the bold width also fits them to the cell width,
    a tenth of it: every bold cell holds ten whole cells.
   */
  lemma BoldTilingTilesCells(x: real, boldWidth: real)
    requires IsMultiple(x, boldWidth)
    ensures IsMultiple(x, boldWidth / 10.0)
  {
    var t := x / boldWidth;
    TenthQuotient(x, boldWidth);
    assert x / (boldWidth / 10.0) == 10.0 * t;
    assert (10.0 * t).Floor == 10 * t.Floor;
  }

  lemma TenthQuotient(x: real, w: real)
    requires w != 0.0
    ensures x / (w / 10.0) == 10.0 * (x / w)
  {
  }

  /** The record for the default type 120 on the A4 page. */
  lemma DefaultType()
    ensures CalculateLineData(20.0, 2.0) == Ok(LineCalc(20.0, 2.0, 5.0, 8.5, 205.0, 288.5))
  {
    MarginExamples();
  }
}
