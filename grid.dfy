/** samples/grid.go: how a sample is cut into overlapping fields, row bands
    and column bands, in Go's uint16 arithmetic, and the rectangle that
    SampleGrid.At selects for each. Rectangles follow the image.Rectangle
    semantics of Go's standard library. */
module Grid {
  import opened Wrappers

  type uint16 = x: int | 0 <= x < 0x1_0000

  /** Truncation to 16 bits: uint16 arithmetic, and float64-to-uint16
      conversions of integral values, as amd64 performs them. */
  function Wrap16(x: int): (r: uint16)
    ensures 0 <= x < 0x1_0000 ==> r == x
    ensures (x - r) % 0x1_0000 == 0
  {
    x % 0x1_0000
  }

  /** math.Ceil(a / b) of a non-negative quotient; the float64 quotient of
      these integer operands is never close enough to an integer to change
      the ceiling. */
  function CeilDiv(a: nat, b: nat): (q: nat)
    requires b > 0
    ensures (q - 1) * b < a <= q * b
  {
    (a + b - 1) / b
  }

  // ---- image.Rectangle ----

  /** image.Rectangle{Min: (x0, y0), Max: (x1, y1)}. */
  datatype Rect = Rect(x0: int, y0: int, x1: int, y1: int)

  /** image.ZR. */
  const ZR := Rect(0, 0, 0, 0)

  /** image.Rect swaps the coordinates of each axis so that Min <= Max. */
  function MakeRect(x0: int, y0: int, x1: int, y1: int): (r: Rect)
    ensures r.x0 <= r.x1 && r.y0 <= r.y1
    ensures {r.x0, r.x1} == {x0, x1} && {r.y0, r.y1} == {y0, y1}
  {
    Rect(if x0 <= x1 then x0 else x1, if y0 <= y1 then y0 else y1,
         if x0 <= x1 then x1 else x0, if y0 <= y1 then y1 else y0)
  }

  /** Rectangle.Empty: no point lies inside. */
  predicate Empty(r: Rect)
  {
    r.x0 >= r.x1 || r.y0 >= r.y1
  }

  /** A point lies inside when Min <= p < Max on both axes. */
  predicate Contains(r: Rect, x: int, y: int)
  {
    r.x0 <= x < r.x1 && r.y0 <= y < r.y1
  }

  /** Rectangle.Intersect: the largest rectangle inside both, or ZR when
      they do not overlap. */
  function Intersect(r: Rect, s: Rect): (t: Rect)
    ensures forall x, y :: Contains(t, x, y) <==> Contains(r, x, y) && Contains(s, x, y)
    ensures Empty(t) ==> t == ZR
  {
    var t := Rect(if r.x0 < s.x0 then s.x0 else r.x0, if r.y0 < s.y0 then s.y0 else r.y0,
                  if r.x1 > s.x1 then s.x1 else r.x1, if r.y1 > s.y1 then s.y1 else r.y1);
    if Empty(t) then ZR else t
  }

  // ---- Grid configuration ----

  datatype GridConfig = GridConfig(
    height: uint16, width: uint16,
    fieldHeight: uint16, fieldWidth: uint16,
    rowHeight: uint16, colWidth: uint16,
    yStride: uint16, xStride: uint16,
    rows: uint16, cols: uint16)

  /** The zero GridConfig a Model holds before its first extraction. */
  const ZeroConfig := GridConfig(0, 0, 0, 0, 0, 0, 0, 0, 0, 0)

  /** The panics of the configuration code, by message. */
  datatype GridError =
    | DecreaseColumnsOrStride   // "decrease number of columns or stride value"
    | DecreaseRows              // "decrease number of rows"
    | DecreaseColumns           // "decrease number of columns"
    | DecreaseRowsOrStride      // the row-stride check of CheckedOverlappingGridSize
    | EmptyRect                 // SampleGrid.At: "empty rect at (row, col)"

  /** Field height and width with their vertical and horizontal strides. */
  datatype FieldSize = FieldSize(h: uint16, w: uint16, ys: uint16, xs: uint16)

  /** The field length for an image side and a cell count:
      uint16(math.Ceil(10 * side / (float64(3 * n) + 7))), where 3 * n is
      taken in uint16. */
  function FieldLength(side: uint16, n: uint16): uint16
  {
    Wrap16(CeilDiv(10 * side, Wrap16(3 * n) + 7))
  }

  /** The stride of a field: uint16(math.Floor(0.3 * float64(length))). */
  function Stride(length: uint16): (s: uint16)
    ensures 10 * s <= 3 * length < 10 * s + 10
  {
    3 * length / 10
  }

  /** The column guard as written: xs * (cols - 1) in uint16 must not
      exceed the width. */
  predicate ColumnStrideFits(width: uint16, cols: uint16)
  {
    Wrap16(Stride(FieldLength(width, cols)) * Wrap16(cols - 1)) <= width
  }

  /** calcOverlappingGridSize, as written: the column-stride guard first,
      then field height, then field width must exceed 5 pixels. There is no
      row-stride guard. */
  function CalcOverlappingGridSize(height: uint16, width: uint16, rows: uint16, cols: uint16)
    : (r: Result<FieldSize, GridError>)
    ensures r.Ok? <==>
      ColumnStrideFits(width, cols) && FieldLength(height, rows) > 5 && FieldLength(width, cols) > 5
    ensures r.Ok? ==> r.value == FieldSize(FieldLength(height, rows), FieldLength(width, cols),
                                           Stride(FieldLength(height, rows)), Stride(FieldLength(width, cols)))
    ensures !ColumnStrideFits(width, cols) ==> r == Err(DecreaseColumnsOrStride)
  {
    var w := FieldLength(width, cols);
    var xs := Stride(w);
    if Wrap16(xs * Wrap16(cols - 1)) > width then
      Err(DecreaseColumnsOrStride)
    else
      var h := FieldLength(height, rows);
      var ys := Stride(h);
      if h <= 5 then Err(DecreaseRows)
      else if w <= 5 then Err(DecreaseColumns)
      else Ok(FieldSize(h, w, ys, xs))
  }

  /** For 1..21845 cells (so that 3 * n does not wrap) the field length is
      the exact ceiling of 10 * side / (3n + 7), and it exceeds 5 pixels
      exactly when twice the side exceeds 3n + 7. */
  lemma FieldLengthIsCeiling(side: uint16, n: uint16)
    requires 1 <= n <= 21845
    ensures (FieldLength(side, n) - 1) * (3 * n + 7) < 10 * side <= FieldLength(side, n) * (3 * n + 7)
    ensures FieldLength(side, n) > 5 <==> 2 * side > 3 * n + 7
  {
    var d := 3 * n + 7;
    var q := CeilDiv(10 * side, d);
    CeilBelow(10 * side, d, side);
    assert FieldLength(side, n) == q;
    if 2 * side > d {
      if q <= 5 {
        MulMonotone(q, 5, d);
        assert false;
      }
    } else {
      CeilBelow(10 * side, d, 5);
    }
  }

  lemma MulMonotone(a: int, b: int, c: int)
    requires a <= b && c >= 0
    ensures a * c <= b * c
  {
  }

  /** A ceiling is at most m when the dividend is at most m divisors. */
  lemma CeilBelow(a: nat, b: nat, m: nat)
    requires b > 0 && a <= b * m
    ensures CeilDiv(a, b) <= m
  {
    var q := CeilDiv(a, b);
    if q > m {
      MulMonotone(m, q - 1, b);
      assert false;
    }
  }

  /** calcGridSize: row height and column width are the floors of side over
      count. A zero count divides by zero in float64, and uint16(±Inf) or
      uint16(NaN) is 0 on amd64, so the same panic follows. */
  function CalcGridSize(height: uint16, width: uint16, rows: uint16, cols: uint16)
    : (r: Result<(uint16, uint16), GridError>)
    ensures r.Ok? <==> rows >= 1 && cols >= 1 && 4 * rows <= height && 4 * cols <= width
    ensures r.Ok? ==> r.value.0 * rows <= height < (r.value.0 + 1) * rows
    ensures r.Ok? ==> r.value.1 * cols <= width < (r.value.1 + 1) * cols
    ensures r.Err? ==> (r.error == DecreaseRows <==> rows == 0 || height < 4 * rows)
  {
    FloorFacts(height, rows);
    FloorFacts(width, cols);
    var h := if rows == 0 then 0 else height / rows;
    var w := if cols == 0 then 0 else width / cols;
    if h <= 3 then Err(DecreaseRows)
    else if w <= 3 then Err(DecreaseColumns)
    else Ok((h, w))
  }

  /** Integer division is the floor, and it exceeds 3 exactly when the
      dividend holds the divisor at least 4 times. */
  lemma FloorFacts(a: nat, b: nat)
    ensures b > 0 ==> (a / b) * b <= a < (a / b + 1) * b
    ensures b > 0 ==> (a / b > 3 <==> 4 * b <= a)
  {
    if b > 0 {
      var q := a / b;
      assert a == q * b + a % b;
      if q > 3 {
        MulMonotone(4, q, b);
      } else {
        MulMonotone(q + 1, 4, b);
      }
    }
  }

  /** NewGridConfig as written, for a sample of the given height and width. */
  function NewGridConfigAsWritten(height: uint16, width: uint16, rows: uint16, cols: uint16)
    : (r: Result<GridConfig, GridError>)
    ensures r.Ok? ==> r.value.height == height && r.value.width == width
    ensures r.Ok? ==> r.value.rows == rows && r.value.cols == cols
    ensures r.Ok? <==> CalcOverlappingGridSize(height, width, rows, cols).Ok? && CalcGridSize(height, width, rows, cols).Ok?
    ensures r.Ok? ==> WellFormed(r.value)
  {
    match CalcOverlappingGridSize(height, width, rows, cols)
    case Err(e) => Err(e)
    case Ok(f) =>
      match CalcGridSize(height, width, rows, cols)
      case Err(e) => Err(e)
      case Ok(rc) => Ok(GridConfig(height, width, f.h, f.w, rc.0, rc.1, f.ys, f.xs, rows, cols))
  }

  /** What every configuration that NewGridConfig accepts satisfies: at
      least one row and column, bands of at least 4 pixels that fit in the
      image, fields of more than 5 pixels and strides between 1 and the
      field length. */
  predicate WellFormed(gc: GridConfig)
  {
    && gc.rows >= 1 && gc.cols >= 1
    && gc.rowHeight >= 4 && gc.rowHeight * gc.rows <= gc.height
    && gc.colWidth >= 4 && gc.colWidth * gc.cols <= gc.width
    && gc.fieldHeight > 5 && gc.fieldWidth > 5
    && 1 <= gc.yStride <= gc.fieldHeight && 1 <= gc.xStride <= gc.fieldWidth
  }

  /** The guard the column check evidently means, on both axes: the origin
      of the last field lies strictly inside the image. */
  predicate StridesFit(gc: GridConfig)
  {
    gc.xStride * (gc.cols - 1) < gc.width && gc.yStride * (gc.rows - 1) < gc.height
  }

  /** calcOverlappingGridSize as evidently intended: the column guard
      rejects a last field origin at or beyond the right edge, in exact
      arithmetic, and the same guard is applied to the rows. */
  function CheckedOverlappingGridSize(height: uint16, width: uint16, rows: uint16, cols: uint16)
    : (r: Result<FieldSize, GridError>)
    ensures r.Ok? ==> r.value.xs * (cols - 1) < width && r.value.ys * (rows - 1) < height
    ensures r.Ok? ==> r.value.h > 5 && r.value.w > 5
    ensures r.Ok? ==> 1 <= r.value.xs <= r.value.w && 1 <= r.value.ys <= r.value.h
  {
    var w := FieldLength(width, cols);
    var xs := Stride(w);
    if xs * (cols - 1) >= width then
      Err(DecreaseColumnsOrStride)
    else
      var h := FieldLength(height, rows);
      var ys := Stride(h);
      if ys * (rows - 1) >= height then Err(DecreaseRowsOrStride)
      else if h <= 5 then Err(DecreaseRows)
      else if w <= 5 then Err(DecreaseColumns)
      else Ok(FieldSize(h, w, ys, xs))
  }

  /** With at least one column the checked sizes only add refusals: what
      they accept, the unchecked calculation accepts alike. */
  lemma CheckedRefines(height: uint16, width: uint16, rows: uint16, cols: uint16)
    requires cols >= 1 && CheckedOverlappingGridSize(height, width, rows, cols).Ok?
    ensures CalcOverlappingGridSize(height, width, rows, cols) == CheckedOverlappingGridSize(height, width, rows, cols)
  {
    var xs := Stride(FieldLength(width, cols));
    assert Wrap16(cols - 1) == cols - 1;
    assert 0 <= xs * (cols - 1) < width;
    assert Wrap16(xs * Wrap16(cols - 1)) == xs * (cols - 1);
  }

  /** NewGridConfig with the checked field sizes: every configuration it
      accepts is well formed and has every field origin inside the image. */
  function NewGridConfig(height: uint16, width: uint16, rows: uint16, cols: uint16)
    : (r: Result<GridConfig, GridError>)
    ensures r.Ok? ==> r.value.height == height && r.value.width == width
    ensures r.Ok? ==> r.value.rows == rows && r.value.cols == cols
    ensures r.Ok? ==> WellFormed(r.value) && StridesFit(r.value)
    ensures r.Ok? ==> NewGridConfigAsWritten(height, width, rows, cols) == r
  {
    match CheckedOverlappingGridSize(height, width, rows, cols)
    case Err(e) => Err(e)
    case Ok(f) =>
      match CalcGridSize(height, width, rows, cols)
      case Err(e) => Err(e)
      case Ok(rc) =>
        CheckedRefines(height, width, rows, cols);
        Ok(GridConfig(height, width, f.h, f.w, rc.0, rc.1, f.ys, f.xs, rows, cols))
  }

  // ---- Areas ----

  /** The area of a rectangle. */
  function Area(r: Rect): int
  {
    (r.x1 - r.x0) * (r.y1 - r.y0)
  }

  /** FieldArea as written: float64(fieldWidth * fieldHeight), the product
      taken in uint16. */
  function FieldArea(gc: GridConfig): (a: real)
    ensures 0.0 <= a < 65536.0
    ensures gc.fieldWidth * gc.fieldHeight < 0x1_0000 ==> a == (gc.fieldWidth * gc.fieldHeight) as real
  {
    Wrap16(gc.fieldWidth * gc.fieldHeight) as real
  }

  /** RowArea as written: float64(width * rowHeight) in uint16. */
  function RowArea(gc: GridConfig): (a: real)
    ensures 0.0 <= a < 65536.0
    ensures gc.width * gc.rowHeight < 0x1_0000 ==> a == (gc.width * gc.rowHeight) as real
  {
    Wrap16(gc.width * gc.rowHeight) as real
  }

  /** ColArea as written: float64(height * colWidth) in uint16. */
  function ColArea(gc: GridConfig): (a: real)
    ensures 0.0 <= a < 65536.0
    ensures gc.height * gc.colWidth < 0x1_0000 ==> a == (gc.height * gc.colWidth) as real
  {
    Wrap16(gc.height * gc.colWidth) as real
  }

  /** The areas as evidently intended: the pixel count of a whole field, row
      band and column band. */
  function FieldAreaExact(gc: GridConfig): real
  {
    (gc.fieldWidth * gc.fieldHeight) as real
  }

  function RowAreaExact(gc: GridConfig): real
  {
    (gc.width * gc.rowHeight) as real
  }

  function ColAreaExact(gc: GridConfig): real
  {
    (gc.height * gc.colWidth) as real
  }

  // ---- Rectangles ----

  /** The far end of a span along one axis, as all three rectangle
      functions compute it: start + length, replaced by the image side when
      it would pass the side or when the span is the last of `count`
      (count - 1 taken in uint16). */
  function FarEnd(start: int, len: int, side: int, index: int, count: uint16): int
  {
    if start + len > side || index == Wrap16(count - 1) then side else start + len
  }

  /** FieldRect(row, col): the field whose origin is (col * xStride,
      row * yStride), clamped to the image, with the last column and the
      last row stretched to the edge. */
  function FieldRect(gc: GridConfig, row: int, col: int): Rect
  {
    var x0 := col * gc.xStride;
    var y0 := row * gc.yStride;
    MakeRect(x0, y0, FarEnd(x0, gc.fieldWidth, gc.width, col, gc.cols),
             FarEnd(y0, gc.fieldHeight, gc.height, row, gc.rows))
  }

  /** RowRect(row): the full-width band from row * rowHeight down by one
      row height, the last band reaching the bottom edge. */
  function RowRect(gc: GridConfig, row: int): Rect
  {
    var y0 := row * gc.rowHeight;
    MakeRect(0, y0, gc.width, FarEnd(y0, gc.rowHeight, gc.height, row, gc.rows))
  }

  /** ColRect(col): the full-height band from col * colWidth right by one
      column width, the last band reaching the right edge. */
  function ColRect(gc: GridConfig, col: int): Rect
  {
    var x0 := col * gc.colWidth;
    MakeRect(x0, 0, FarEnd(x0, gc.colWidth, gc.width, col, gc.cols), gc.height)
  }

  /** The image bounds, image.Rect(0, 0, width, height). */
  function Bounds(gc: GridConfig): Rect
  {
    MakeRect(0, 0, gc.width, gc.height)
  }

  /** The rectangle At(row, col) selects: a row band for a negative column,
      a column band for a negative row, a field otherwise. */
  function Selected(gc: GridConfig, row: int, col: int): Rect
  {
    if col < 0 then RowRect(gc, row)
    else if row < 0 then ColRect(gc, col)
    else FieldRect(gc, row, col)
  }

  /** The region SampleGrid.At(row, col) copies: the selected rectangle
      clipped to the image. The emptiness check looks at the rectangle
      before clipping, so a rectangle lying wholly outside the image passes
      and yields the empty ZR. */
  function At(gc: GridConfig, row: int, col: int): (r: Result<Rect, GridError>)
    ensures r.Err? <==> Empty(Selected(gc, row, col))
    ensures r.Ok? ==> forall x, y :: Contains(r.value, x, y) <==>
      Contains(Selected(gc, row, col), x, y) && 0 <= x < gc.width && 0 <= y < gc.height
  {
    var rect := Selected(gc, row, col);
    var rect2 := Intersect(rect, Bounds(gc));
    if Empty(rect) then Err(EmptyRect) else Ok(rect2)
  }
}
