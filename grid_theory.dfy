/** What the grid geometry of samples/grid.go guarantees: row and column
    bands tile the image, the overlapping fields cover it, and, with the
    checked configuration, no field is empty. It ends with the inputs on
    which the code as written goes wrong. */
module GridTheory {
  import opened Wrappers
  import opened Grid

  // ---- One axis ----

  /** The span index a coordinate z falls in, for spans starting every
      `stride` pixels, the last of n spans taking the rest. */
  function SpanOf(z: nat, stride: int, n: int): (k: int)
    requires stride >= 1 && n >= 1
    ensures 0 <= k < n
  {
    if z / stride < n - 1 then z / stride else n - 1
  }

  /** Spans at least one stride long cover the axis: z lies in span
      SpanOf(z). */
  lemma SpanCovers(z: int, stride: int, len: int, side: int, n: uint16)
    requires n >= 1 && 1 <= stride <= len && 0 <= z < side
    ensures SpanOf(z, stride, n) * stride <= z
    ensures z < FarEnd(SpanOf(z, stride, n) * stride, len, side, SpanOf(z, stride, n), n)
  {
    var k := SpanOf(z, stride, n);
    var q := z / stride;
    assert q * stride <= z < q * stride + stride;
    MulMonotone(k, q, stride);
    assert Wrap16(n - 1) == n - 1;
  }

  /** Band k of n bands of length len that fit in the side: it ends one
      length later, the last one at the side, and it is not empty. */
  lemma BandSpan(k: int, len: int, side: int, n: uint16)
    requires n >= 1 && len >= 1 && len * n <= side && 0 <= k < n
    ensures FarEnd(k * len, len, side, k, n) == if k == n - 1 then side else k * len + len
    ensures 0 <= k * len < FarEnd(k * len, len, side, k, n) <= side
  {
    assert Wrap16(n - 1) == n - 1;
    MulMonotone(k + 1, n, len);
    MulMonotone(0, k, len);
    assert (k + 1) * len == k * len + len;
  }

  /** Two such bands never share a coordinate. */
  lemma BandsDisjoint(j: int, k: int, z: int, len: int, side: int, n: uint16)
    requires n >= 1 && len >= 1 && len * n <= side && 0 <= j < n && 0 <= k < n
    requires j * len <= z < FarEnd(j * len, len, side, j, n)
    requires k * len <= z < FarEnd(k * len, len, side, k, n)
    ensures j == k
  {
    BandSpan(j, len, side, n);
    BandSpan(k, len, side, n);
    if j < k {
      MulMonotone(j + 1, k, len);
    } else if j > k {
      MulMonotone(k + 1, j, len);
    }
  }

  /** A span whose origin lies inside the side is non-empty and inside. */
  lemma SpanInside(k: int, stride: int, len: int, side: int, n: uint16)
    requires 0 <= k < n && stride >= 1 && len >= 1 && stride * (n - 1) < side
    ensures 0 <= k * stride < FarEnd(k * stride, len, side, k, n) <= side
  {
    MulMonotone(k, n - 1, stride);
    MulMonotone(0, k, stride);
  }

  // ---- Row and column bands ----

  /** The row bands tile the image: every pixel lies in band
      SpanOf(y, rowHeight, rows) and in no other. */
  lemma RowBandsTile(gc: GridConfig, x: int, y: int)
    requires WellFormed(gc) && 0 <= x < gc.width && 0 <= y < gc.height
    ensures Contains(RowRect(gc, SpanOf(y, gc.rowHeight, gc.rows)), x, y)
    ensures forall r :: 0 <= r < gc.rows && Contains(RowRect(gc, r), x, y) ==> r == SpanOf(y, gc.rowHeight, gc.rows)
  {
    var k := SpanOf(y, gc.rowHeight, gc.rows);
    SpanCovers(y, gc.rowHeight, gc.rowHeight, gc.height, gc.rows);
    forall r | 0 <= r < gc.rows && Contains(RowRect(gc, r), x, y)
      ensures r == k
    {
      BandSpan(r, gc.rowHeight, gc.height, gc.rows);
      BandsDisjoint(r, k, y, gc.rowHeight, gc.height, gc.rows);
    }
  }

  /** The column bands tile the image in the same way. */
  lemma ColBandsTile(gc: GridConfig, x: int, y: int)
    requires WellFormed(gc) && 0 <= x < gc.width && 0 <= y < gc.height
    ensures Contains(ColRect(gc, SpanOf(x, gc.colWidth, gc.cols)), x, y)
    ensures forall c :: 0 <= c < gc.cols && Contains(ColRect(gc, c), x, y) ==> c == SpanOf(x, gc.colWidth, gc.cols)
  {
    var k := SpanOf(x, gc.colWidth, gc.cols);
    SpanCovers(x, gc.colWidth, gc.colWidth, gc.width, gc.cols);
    forall c | 0 <= c < gc.cols && Contains(ColRect(gc, c), x, y)
      ensures c == k
    {
      BandSpan(c, gc.colWidth, gc.width, gc.cols);
      BandsDisjoint(c, k, x, gc.colWidth, gc.width, gc.cols);
    }
  }

  /** Neither a row band nor a column band of a well-formed configuration
      makes At panic; each lies in the image and is returned whole. */
  lemma BandsAt(gc: GridConfig, r: int, c: int)
    requires WellFormed(gc) && 0 <= r < gc.rows && 0 <= c < gc.cols
    ensures !Empty(RowRect(gc, r)) && At(gc, r, -1) == Ok(RowRect(gc, r))
    ensures !Empty(ColRect(gc, c)) && At(gc, -1, c) == Ok(ColRect(gc, c))
  {
    BandSpan(r, gc.rowHeight, gc.height, gc.rows);
    BandSpan(c, gc.colWidth, gc.width, gc.cols);
  }

  /** Every band but the last has exactly RowAreaExact / ColAreaExact
      pixels. */
  lemma BandAreas(gc: GridConfig, r: int, c: int)
    requires WellFormed(gc) && 0 <= r < gc.rows - 1 && 0 <= c < gc.cols - 1
    ensures Area(RowRect(gc, r)) as real == RowAreaExact(gc)
    ensures Area(ColRect(gc, c)) as real == ColAreaExact(gc)
  {
    BandSpan(r, gc.rowHeight, gc.height, gc.rows);
    BandSpan(c, gc.colWidth, gc.width, gc.cols);
  }

  // ---- Overlapping fields ----

  /** The fields cover the image: every pixel lies in the field at
      (SpanOf(y, yStride, rows), SpanOf(x, xStride, cols)). */
  lemma FieldsCover(gc: GridConfig, x: int, y: int)
    requires WellFormed(gc) && 0 <= x < gc.width && 0 <= y < gc.height
    ensures Contains(FieldRect(gc, SpanOf(y, gc.yStride, gc.rows), SpanOf(x, gc.xStride, gc.cols)), x, y)
  {
    SpanCovers(x, gc.xStride, gc.fieldWidth, gc.width, gc.cols);
    SpanCovers(y, gc.yStride, gc.fieldHeight, gc.height, gc.rows);
  }

  /** With the checked configuration every field is non-empty and lies in
      the image, so At returns it whole and never panics. */
  lemma FieldsNonEmpty(gc: GridConfig, r: int, c: int)
    requires WellFormed(gc) && StridesFit(gc) && 0 <= r < gc.rows && 0 <= c < gc.cols
    ensures !Empty(FieldRect(gc, r, c))
    ensures At(gc, r, c) == Ok(FieldRect(gc, r, c))
  {
    SpanInside(c, gc.xStride, gc.fieldWidth, gc.width, gc.cols);
    SpanInside(r, gc.yStride, gc.fieldHeight, gc.height, gc.rows);
  }

  /** Under any well-formed configuration, the checked one or not, a field
      is empty exactly when its origin lies on the right or the bottom edge
      of the image; a field starting beyond an edge is swapped by MakeRect
      into a non-empty strip outside the image. */
  lemma FieldEmptyOnEdge(gc: GridConfig, r: int, c: int)
    requires WellFormed(gc) && 0 <= r && 0 <= c
    ensures Empty(FieldRect(gc, r, c)) <==> c * gc.xStride == gc.width || r * gc.yStride == gc.height
  {
    MulMonotone(0, c, gc.xStride);
    MulMonotone(0, r, gc.yStride);
  }

  /** A field away from the last row and column and from the edges has
      exactly FieldAreaExact pixels. */
  lemma FieldAreas(gc: GridConfig, r: int, c: int)
    requires WellFormed(gc) && 0 <= r < gc.rows - 1 && 0 <= c < gc.cols - 1
    requires 0 <= c * gc.xStride && c * gc.xStride + gc.fieldWidth <= gc.width
    requires 0 <= r * gc.yStride && r * gc.yStride + gc.fieldHeight <= gc.height
    ensures Area(FieldRect(gc, r, c)) as real == FieldAreaExact(gc)
  {
    assert Wrap16(gc.cols - 1) == gc.cols - 1 && Wrap16(gc.rows - 1) == gc.rows - 1;
  }

  // ---- Where the code as written goes wrong ----

  /** The column guard lets xs * (cols - 1) == width through: at width 384
      with 65 columns the stride is 6 and the last field starts on the right
      edge, so At panics on an empty rectangle. The checked configuration
      refuses these sizes. */
  lemma ColumnGuardAdmitsEmptyField()
    ensures NewGridConfigAsWritten(400, 384, 10, 65).Ok?
    ensures At(NewGridConfigAsWritten(400, 384, 10, 65).value, 0, 64) == Err(EmptyRect)
    ensures NewGridConfig(400, 384, 10, 65) == Err(DecreaseColumnsOrStride)
  {
    assert FieldLength(384, 65) == 20;
    assert FieldLength(400, 10) == 109;
  }

  /** There is no row guard: at height 401 with 68 rows the stride is 6 and
      the last field row starts at 402, below the image. image.Rect swaps
      the inverted rows, the rectangle is not empty, and At returns the
      empty intersection instead of a field. The checked configuration
      refuses these sizes. */
  lemma MissingRowGuardAdmitsOutsideField()
    ensures NewGridConfigAsWritten(401, 400, 68, 10).Ok?
    ensures At(NewGridConfigAsWritten(401, 400, 68, 10).value, 67, 0) == Ok(ZR)
    ensures NewGridConfig(401, 400, 68, 10) == Err(DecreaseRowsOrStride)
    ensures NewGridConfigAsWritten(401, 400, 68, 10).value.xStride == 32
    ensures NewGridConfigAsWritten(401, 400, 68, 10).value.yStride == 6
  {
    assert FieldLength(400, 10) == 109;
    assert FieldLength(401, 68) == 20;
  }

  /** ... while every other field of that configuration is non-empty,
      since no field origin falls on an edge: 32 does not divide 400 and 6
      does not divide 401. */
  lemma MissingRowGuardFieldsNonEmpty(r: int, c: int)
    requires 0 <= r && 0 <= c
    ensures NewGridConfigAsWritten(401, 400, 68, 10).Ok?
    ensures !Empty(FieldRect(NewGridConfigAsWritten(401, 400, 68, 10).value, r, c))
  {
    MissingRowGuardAdmitsOutsideField();
    var gc := NewGridConfigAsWritten(401, 400, 68, 10).value;
    FieldEmptyOnEdge(gc, r, c);
  }

  /** RowArea multiplies in uint16: for a 500 x 300 sample cut into 2 rows
      the band has 75000 pixels but RowArea reports 9464. */
  lemma RowAreaWraps()
    ensures NewGridConfig(300, 500, 2, 6).Ok?
    ensures RowArea(NewGridConfig(300, 500, 2, 6).value) == 9464.0
    ensures Area(RowRect(NewGridConfig(300, 500, 2, 6).value, 0)) == 75000
    ensures RowAreaExact(NewGridConfig(300, 500, 2, 6).value) == 75000.0
  {
    assert FieldLength(500, 6) == 200;
    assert FieldLength(300, 2) == 231;
  }
}
