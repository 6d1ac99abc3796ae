/** signature/model.go: the template of one writer. A template keeps one
    running statistic per (area, feature kind): the whole signature
    ("basic"), every overlapping grid field, every row band and every
    column band. Extract folds one more sample into every statistic,
    the two filters drop unreliable areas, and Score compares a probe
    sample with the template area class by area class.

    Each operation is defined on a Template value by a function, carried
    out by a method proved against that function, and applied to the
    Model object by a method that stores the method's result. */
module SignatureModel {
  import opened Wrappers
  import opened Float
  import opened SignatureFeature
  import Grid
  import GridTheory
  import opened TemplateAreas
  import opened TemplateScore

  datatype FilterError = NotExtracted

  /** How Extract stops; each case is a panic of the Go code. The
      configuration NewSampleGrid builds is refused; or a value function
      that needs pixels meets an empty sample in the basic loop; or an
      area of the grid, row or column loops fails, by At's panic on an
      empty rectangle or by a value function's panic on the empty region
      At copied. Which of the last two comes first depends on the order of
      a Go map, so they are one error. */
  datatype ExtractError = ConfigPanic(cause: Grid.GridError) | EmptySample | AreaPanic

  /** The fields of a Model. A nil Go map behaves like an empty one in
      every operation here, so an area class that is switched off holds an
      empty map. */
  datatype Template = Template(
    basic: FeatureMap,
    grid: map<(int, int), FeatureMap>,
    row: map<int, FeatureMap>,
    col: map<int, FeatureMap>,
    rows: Grid.uint16,
    cols: Grid.uint16,
    gridConfig: Grid.GridConfig)

  // ---- What a template keeps ----

  /** Every area of a cell map holds the cell kinds. */
  predicate CellsKeyed<K>(m: map<K, FeatureMap>)
  {
    forall k :: k in m ==> m[k].Keys == CellKinds
  }

  /** Every band index lies below n. */
  predicate BandsIn(m: map<int, FeatureMap>, n: int)
  {
    forall i :: i in m ==> 0 <= i < n
  }

  /** Every field key lies in the rows x cols grid. */
  predicate FieldsIn(m: map<(int, int), FeatureMap>, rows: int, cols: int)
  {
    forall rc :: rc in m ==> 0 <= rc.0 < rows && 0 <= rc.1 < cols
  }

  /** What every template keeps: keys inside the grid, the basic kinds or
      nothing in the basic map, the cell kinds in every area. */
  predicate WellKeyed(t: Template)
  {
    && (t.basic == map[] || t.basic.Keys == BasicKinds)
    && FieldsIn(t.grid, t.rows, t.cols) && BandsIn(t.row, t.rows) && BandsIn(t.col, t.cols)
    && CellsKeyed(t.grid) && CellsKeyed(t.row) && CellsKeyed(t.col)
  }

  /** out is m with some areas removed and the others untouched. */
  predicate Submap<K>(out: map<K, FeatureMap>, m: map<K, FeatureMap>)
  {
    out.Keys <= m.Keys && forall k :: k in out ==> out[k] == m[k]
  }

  /** An Extract step keeps the kinds of every area. */
  lemma UpdatedKeyed<K>(m: map<K, FeatureMap>, sample: Sample, locate: K -> Result<Grid.Rect, Grid.GridError>,
                        n: int, on: set<FeatureType>, sqrt: real -> real)
    requires n != 0 && Reached(m, sample, locate, on) && CellsKeyed(m)
    ensures CellsKeyed(CellsUpdated(m, sample, locate, n, on, sqrt))
  {
    var out := CellsUpdated(m, sample, locate, n, on, sqrt);
    forall k | k in out
      ensures out[k].Keys == CellKinds
    {
      assert out[k] == AreaUpdated(m[k], sample, locate(k), n, on, sqrt);
    }
  }

  /** Every area of a keyed cell map has a Length feature, the one
      AreaFilter reads. */
  lemma KeyedHasLength<K>(m: map<K, FeatureMap>)
    requires CellsKeyed(m)
    ensures forall k :: k in m ==> Length in m[k]
  {
    forall k | k in m
      ensures Length in m[k]
    {
      assert m[k].Keys == CellKinds;
    }
  }

  // ---- NewModel ----

  /** The key lists NewModel builds: with no template 0 .. rows-1,
      0 .. cols-1 and every pair of them; with a template the keys of its
      row, column and grid maps. */
  method KeyLists(rows: Grid.uint16, cols: Grid.uint16, template: Option<Template>)
    returns (rowKeys: set<int>, colKeys: set<int>, gridKeys: set<(int, int)>)
    ensures template.None? ==> rowKeys == Indices(rows) && colKeys == Indices(cols) && gridKeys == Product(rows, cols)
    ensures template.Some? ==> rowKeys == template.value.row.Keys && colKeys == template.value.col.Keys
    ensures template.Some? ==> gridKeys == template.value.grid.Keys
  {
    if template.None? {
      rowKeys := {};
      var i := 0;
      while i < rows as int
        invariant 0 <= i <= rows && rowKeys == Indices(i)
      {
        rowKeys := rowKeys + {i};
        i := i + 1;
      }
      colKeys := {};
      i := 0;
      while i < cols as int
        invariant 0 <= i <= cols && colKeys == Indices(i)
      {
        colKeys := colKeys + {i};
        i := i + 1;
      }
      gridKeys := {};
      var r := 0;
      while r < rows as int
        invariant 0 <= r <= rows && gridKeys == Product(r, cols)
      {
        var c := 0;
        while c < cols as int
          invariant 0 <= c <= cols
          invariant gridKeys == Product(r, cols) + set j | 0 <= j < c :: (r, j)
        {
          gridKeys := gridKeys + {(r, c)};
          c := c + 1;
        }
        assert gridKeys == Product(r + 1, cols);
        r := r + 1;
      }
    } else {
      rowKeys, colKeys, gridKeys := template.value.row.Keys, template.value.col.Keys, template.value.grid.Keys;
    }
  }

  /** Fresh cell features under every key. */
  function FreshAreas<K>(keys: set<K>): (m: map<K, FeatureMap>)
    ensures m.Keys == keys && forall k :: k in m ==> m[k] == Fresh(CellKinds)
  {
    map k | k in keys :: Fresh(CellKinds)
  }

  /** newModel's loops: a fresh cell feature map under every key. */
  method FreshCells<K>(keys: set<K>) returns (m: map<K, FeatureMap>)
    ensures m == FreshAreas(keys)
  {
    m := map[];
    var todo := keys;
    while todo != {}
      invariant todo <= keys && m.Keys == keys - todo
      invariant forall k :: k in m ==> m[k] == Fresh(CellKinds)
      decreases todo
    {
      var k :| k in todo;
      m := m[k := Fresh(CellKinds)];
      todo := todo - {k};
    }
  }

  /** NewModel(rows, cols, template): fresh features for every key of
      every area class that is switched on, the keys being the full grid
      or those that survive in the template; no grid configuration yet. */
  function NewTemplate(rows: Grid.uint16, cols: Grid.uint16, template: Option<Template>, sw: Switches): Template
  {
    var rowKeys := if template.None? then Indices(rows) else template.value.row.Keys;
    var colKeys := if template.None? then Indices(cols) else template.value.col.Keys;
    var gridKeys := if template.None? then Product(rows, cols) else template.value.grid.Keys;
    Template(
      if BasicArea in sw.areas then Fresh(BasicKinds) else map[],
      if GridArea in sw.areas then FreshAreas(gridKeys) else map[],
      if RowArea in sw.areas then FreshAreas(rowKeys) else map[],
      if ColArea in sw.areas then FreshAreas(colKeys) else map[],
      rows, cols, Grid.ZeroConfig)
  }

  /** NewModel and newModel together. */
  method NewTemplateOf(rows: Grid.uint16, cols: Grid.uint16, template: Option<Template>, sw: Switches)
    returns (t: Template)
    ensures t == NewTemplate(rows, cols, template, sw)
  {
    var rowKeys, colKeys, gridKeys := KeyLists(rows, cols, template);
    var basic: FeatureMap := map[];
    if BasicArea in sw.areas {
      basic := Fresh(BasicKinds);
    }
    var grid: map<(int, int), FeatureMap> := map[];
    if GridArea in sw.areas {
      grid := FreshCells(gridKeys);
    }
    var row: map<int, FeatureMap> := map[];
    if RowArea in sw.areas {
      row := FreshCells(rowKeys);
    }
    var col: map<int, FeatureMap> := map[];
    if ColArea in sw.areas {
      col := FreshCells(colKeys);
    }
    t := Template(basic, grid, row, col, rows, cols, Grid.ZeroConfig);
  }

  /** A new template is well keyed, holds only zero statistics, and
      counts as not yet extracted; made from a template it has no key
      that template lacks. */
  lemma NewTemplateShape(rows: Grid.uint16, cols: Grid.uint16, template: Option<Template>, sw: Switches)
    requires template.Some? ==> WellKeyed(template.value) && template.value.rows == rows && template.value.cols == cols
    ensures WellKeyed(NewTemplate(rows, cols, template, sw))
    ensures var t := NewTemplate(rows, cols, template, sw);
      && (forall f :: f in t.basic ==> t.basic[f] == OnlineStat.Zero)
      && (forall rc, f :: rc in t.grid && f in t.grid[rc] ==> t.grid[rc][f] == OnlineStat.Zero)
      && (forall r, f :: r in t.row && f in t.row[r] ==> t.row[r][f] == OnlineStat.Zero)
      && (forall c, f :: c in t.col && f in t.col[c] ==> t.col[c][f] == OnlineStat.Zero)
    ensures var t := NewTemplate(rows, cols, template, sw);
      && (BasicArea in sw.areas ==> t.basic.Keys == BasicKinds) && (BasicArea !in sw.areas ==> t.basic == map[])
      && (GridArea !in sw.areas ==> t.grid == map[])
      && (RowArea !in sw.areas ==> t.row == map[])
      && (ColArea !in sw.areas ==> t.col == map[])
    ensures template.None? ==>
      var t := NewTemplate(rows, cols, template, sw);
      && (GridArea in sw.areas ==> forall r, c :: (r, c) in t.grid <==> 0 <= r < rows && 0 <= c < cols)
      && (RowArea in sw.areas ==> forall r :: r in t.row <==> 0 <= r < rows)
      && (ColArea in sw.areas ==> forall c :: c in t.col <==> 0 <= c < cols)
    ensures template.Some? ==>
      var t := NewTemplate(rows, cols, template, sw);
      && (GridArea in sw.areas ==> t.grid.Keys == template.value.grid.Keys)
      && (RowArea in sw.areas ==> t.row.Keys == template.value.row.Keys)
      && (ColArea in sw.areas ==> t.col.Keys == template.value.col.Keys)
  {
    var t := NewTemplate(rows, cols, template, sw);
    assert CellsKeyed(t.grid) && CellsKeyed(t.row) && CellsKeyed(t.col);
  }

  // ---- Extract ----

  /** With a configuration NewGridConfig accepts, At succeeds, on a region
      with pixels, for every field key inside the grid ... */
  lemma FieldsLocated(m: map<(int, int), FeatureMap>, gc: Grid.GridConfig)
    requires Grid.WellFormed(gc) && Grid.StridesFit(gc) && FieldsIn(m, gc.rows, gc.cols)
    ensures Located(m, FieldLocator(gc))
  {
    forall rc | rc in m
      ensures FieldLocator(gc)(rc).Ok? && !Grid.Empty(FieldLocator(gc)(rc).value)
    {
      GridTheory.FieldsNonEmpty(gc, rc.0, rc.1);
    }
  }

  /** ... on every row band ... */
  lemma RowsLocated(m: map<int, FeatureMap>, gc: Grid.GridConfig)
    requires Grid.WellFormed(gc) && BandsIn(m, gc.rows)
    ensures Located(m, RowLocator(gc))
  {
    forall r | r in m
      ensures RowLocator(gc)(r).Ok? && !Grid.Empty(RowLocator(gc)(r).value)
    {
      GridTheory.BandsAt(gc, r, 0);
    }
  }

  /** ... and on every column band. */
  lemma ColsLocated(m: map<int, FeatureMap>, gc: Grid.GridConfig)
    requires Grid.WellFormed(gc) && BandsIn(m, gc.cols)
    ensures Located(m, ColLocator(gc))
  {
    forall c | c in m
      ensures ColLocator(gc)(c).Ok? && !Grid.Empty(ColLocator(gc)(c).value)
    {
      GridTheory.BandsAt(gc, 0, c);
    }
  }

  /** Extract gets through every area: the grid fields, the row bands and
      the column bands. */
  predicate AllReached(t: Template, sample: Sample, gc: Grid.GridConfig, on: set<FeatureType>)
  {
    && Reached(t.grid, sample, FieldLocator(gc), on)
    && Reached(t.row, sample, RowLocator(gc), on)
    && Reached(t.col, sample, ColLocator(gc), on)
  }

  /** Extract(sample, nSamples) when NewSampleGrid yields `config`: the
      enabled basic features take the whole sample, which stops on an empty
      sample when one of them needs pixels; a configuration panic stops it
      next. Otherwise the configuration is recorded and every active
      area's enabled features take the region At copies for it, which
      stops on At's panic or a value function's. */
  function ExtractedUnder(t: Template, sample: Sample, n: int, sw: Switches, sqrt: real -> real,
                          config: Result<Grid.GridConfig, Grid.GridError>): (Template, Result<(), ExtractError>)
    requires n != 0 && WellKeyed(t)
  {
    if !Measurable(t.basic, sample, WholeSample, sw.features) then (t, Err(EmptySample))
    else
      var b := Updated(t.basic, sample, WholeSample, n, sw.features, sqrt);
      match config
      case Err(e) => (t.(basic := b), Err(ConfigPanic(e)))
      case Ok(gc) =>
        if !AllReached(t, sample, gc, sw.features) then (t.(basic := b, gridConfig := gc), Err(AreaPanic))
        else
          (t.(basic := b,
              grid := CellsUpdated(t.grid, sample, FieldLocator(gc), n, sw.features, sqrt),
              row := CellsUpdated(t.row, sample, RowLocator(gc), n, sw.features, sqrt),
              col := CellsUpdated(t.col, sample, ColLocator(gc), n, sw.features, sqrt),
              gridConfig := gc),
           Ok(()))
  }

  /** Extract as written: the grid is cut with NewGridConfig as the code
      builds it. */
  function Extracted(t: Template, sample: Sample, n: int, sw: Switches, sqrt: real -> real)
    : (Template, Result<(), ExtractError>)
    requires n != 0 && WellKeyed(t)
  {
    ExtractedUnder(t, sample, n, sw, sqrt, Grid.NewGridConfigAsWritten(sample.height, sample.width, t.rows, t.cols))
  }

  /** Extract as evidently intended: the grid is cut with the checked
      configuration. */
  function ExtractedChecked(t: Template, sample: Sample, n: int, sw: Switches, sqrt: real -> real)
    : (Template, Result<(), ExtractError>)
    requires n != 0 && WellKeyed(t)
  {
    ExtractedUnder(t, sample, n, sw, sqrt, Grid.NewGridConfig(sample.height, sample.width, t.rows, t.cols))
  }

  /** Extract's loops over the basic, grid, row and column maps. */
  method ExtractTemplate(t: Template, sample: Sample, n: int, sw: Switches, sqrt: real -> real)
    returns (out: Template, r: Result<(), ExtractError>)
    requires n != 0 && WellKeyed(t)
    ensures (out, r) == Extracted(t, sample, n, sw, sqrt)
  {
    var b, basicOk := UpdateFeatures(t.basic, sample, WholeSample, n, sw.features, sqrt);
    if !basicOk {
      return t, Err(EmptySample);
    }
    var config := Grid.NewGridConfigAsWritten(sample.height, sample.width, t.rows, t.cols);
    if config.Err? {
      return t.(basic := b), Err(ConfigPanic(config.error));
    }
    var gc := config.value;
    var grid, gridOk := ExtractCells(t.grid, sample, FieldLocator(gc), n, sw.features, sqrt);
    if !gridOk {
      return t.(basic := b, gridConfig := gc), Err(AreaPanic);
    }
    var row, rowOk := ExtractCells(t.row, sample, RowLocator(gc), n, sw.features, sqrt);
    if !rowOk {
      return t.(basic := b, gridConfig := gc), Err(AreaPanic);
    }
    var col, colOk := ExtractCells(t.col, sample, ColLocator(gc), n, sw.features, sqrt);
    if !colOk {
      return t.(basic := b, gridConfig := gc), Err(AreaPanic);
    }
    return t.(basic := b, grid := grid, row := row, col := col, gridConfig := gc), Ok(());
  }

  /** Under a well-formed configuration for the template's grid, Extract
      adds and removes no key and keeps the template well keyed, whether
      it succeeds or not. */
  lemma ExtractKeepsShape(t: Template, sample: Sample, n: int, sw: Switches, sqrt: real -> real,
                          config: Result<Grid.GridConfig, Grid.GridError>)
    requires n != 0 && WellKeyed(t)
    requires config.Ok? ==> Grid.WellFormed(config.value) && config.value.rows == t.rows && config.value.cols == t.cols
    ensures var (out, r) := ExtractedUnder(t, sample, n, sw, sqrt, config);
      && WellKeyed(out) && out.rows == t.rows && out.cols == t.cols
      && out.basic.Keys == t.basic.Keys && out.grid.Keys == t.grid.Keys
      && out.row.Keys == t.row.Keys && out.col.Keys == t.col.Keys
  {
    var (out, r) := ExtractedUnder(t, sample, n, sw, sqrt, config);
    if Measurable(t.basic, sample, WholeSample, sw.features) && config.Ok?
       && AllReached(t, sample, config.value, sw.features) {
      var gc := config.value;
      UpdatedKeyed(t.grid, sample, FieldLocator(gc), n, sw.features, sqrt);
      UpdatedKeyed(t.row, sample, RowLocator(gc), n, sw.features, sqrt);
      UpdatedKeyed(t.col, sample, ColLocator(gc), n, sw.features, sqrt);
    }
    if t.basic == map[] {
      assert out.basic == map[];
    }
  }

  /** Under such a configuration Extract fails exactly when a kind that
      needs pixels meets an empty sample, when the configuration fails, or
      when it cannot get through some grid field (the bands, found on
      regions with pixels, are always got through). After the empty
      sample nothing has changed, after a configuration error only the
      basic features, after a panic in an area the configuration too. Once
      past the basic loop the configuration is recorded, so the filters
      accept the template afterwards. */
  lemma ExtractOutcome(t: Template, sample: Sample, n: int, sw: Switches, sqrt: real -> real,
                       config: Result<Grid.GridConfig, Grid.GridError>)
    requires n != 0 && WellKeyed(t)
    requires config.Ok? ==> Grid.WellFormed(config.value) && config.value.rows == t.rows && config.value.cols == t.cols
    ensures var (out, r) := ExtractedUnder(t, sample, n, sw, sqrt, config);
      var measurable := Measurable(t.basic, sample, WholeSample, sw.features);
      && (r.Err? <==> !measurable || config.Err? || !Reached(t.grid, sample, FieldLocator(config.value), sw.features))
      && (!measurable ==> r == Err(EmptySample) && out == t)
      && (measurable && config.Err? ==> r == Err(ConfigPanic(config.error)) && out == t.(basic := out.basic))
      && (measurable && config.Ok? && r.Err? ==>
            r == Err(AreaPanic) && out == t.(basic := out.basic, gridConfig := config.value))
      && (measurable && config.Ok? ==> out.gridConfig == config.value && out.gridConfig != Grid.ZeroConfig)
  {
    if config.Ok? {
      RowsLocated(t.row, config.value);
      ColsLocated(t.col, config.value);
      LocatedReached(t.row, sample, RowLocator(config.value), sw.features);
      LocatedReached(t.col, sample, ColLocator(config.value), sw.features);
    }
  }

  /** A sample cut by a well-formed configuration has pixels. */
  lemma ConfiguredSampleHasPixels(sample: Sample, gc: Grid.GridConfig)
    requires Grid.WellFormed(gc) && gc.height == sample.height && gc.width == sample.width
    ensures !EmptyRegion(sample, WholeSample)
  {
    MulPositive(gc.rowHeight as int, gc.rows as int);
    MulPositive(gc.colWidth as int, gc.cols as int);
  }

  lemma MulPositive(a: int, b: int)
    requires a >= 1 && b >= 1
    ensures a * b >= 1
  {
  }

  /** An area with the cell kinds takes part in an extraction exactly when
      a cell kind is switched on. */
  lemma CellsActive(fm: FeatureMap, on: set<FeatureType>)
    requires fm.Keys == CellKinds
    ensures Active(fm, on) <==> CellKinds * on != {}
  {
    if CellKinds * on != {} {
      var f :| f in CellKinds * on;
      assert f in fm && f in on;
    }
    if Active(fm, on) {
      var f :| f in fm && f in on;
      assert f in CellKinds * on;
    }
  }

  /** Of the cell kinds HOG and Gradient need pixels: an area with the cell
      kinds can be measured on a region exactly when the region has pixels
      or both are switched off. */
  lemma CellsMeasurable(fm: FeatureMap, sample: Sample, region: Region, on: set<FeatureType>)
    requires fm.Keys == CellKinds
    ensures Measurable(fm, sample, region, on) <==> !EmptyRegion(sample, region) || !PixelKindOn(on)
  {
    if EmptyRegion(sample, region) && HOG in on {
      assert HOG in fm && HOG in on && HOG in NeedsPixels;
    }
    if EmptyRegion(sample, region) && Gradient in on {
      assert Gradient in fm && Gradient in on && Gradient in NeedsPixels;
    }
  }

  /** A cell kind whose value function needs pixels is switched on. */
  predicate PixelKindOn(on: set<FeatureType>)
  {
    HOG in on || Gradient in on
  }

  /** Extract cannot get through grid field rc: its rectangle is empty,
      At's panic, or HOG or Gradient is switched on and the part of the
      rectangle inside the image, the region At copies, is empty, the panic
      of histogramOfGradients or gradient. */
  predicate FieldFails(gc: Grid.GridConfig, rc: (int, int), on: set<FeatureType>)
  {
    || Grid.Empty(Grid.FieldRect(gc, rc.0, rc.1))
    || (PixelKindOn(on) && Grid.Empty(Grid.Intersect(Grid.FieldRect(gc, rc.0, rc.1), Grid.Bounds(gc))))
  }

  /** Extract gets through every field of a keyed grid map exactly when no
      cell kind is switched on or no field of the map fails. */
  lemma FieldsReached(m: map<(int, int), FeatureMap>, sample: Sample, gc: Grid.GridConfig, on: set<FeatureType>)
    requires CellsKeyed(m) && FieldsIn(m, gc.rows, gc.cols)
    ensures Reached(m, sample, FieldLocator(gc), on) <==>
      CellKinds * on == {} || forall rc :: rc in m ==> !FieldFails(gc, rc, on)
  {
    forall rc | rc in m
      ensures Fits(m[rc], sample, FieldLocator(gc)(rc), on) <==> CellKinds * on == {} || !FieldFails(gc, rc, on)
    {
      CellsActive(m[rc], on);
      var at := Grid.At(gc, rc.0, rc.1);
      if at.Ok? {
        CellsMeasurable(m[rc], sample, Cell(at.value), on);
      }
    }
  }

  /** As written, Extract fails exactly when a kind that needs pixels
      meets an empty sample, when the configuration panics, or when a cell
      kind is switched on and some grid field of the template fails. */
  lemma ExtractPanicsOnEmptyField(t: Template, sample: Sample, n: int, sw: Switches, sqrt: real -> real)
    requires n != 0 && WellKeyed(t)
    ensures var config := Grid.NewGridConfigAsWritten(sample.height, sample.width, t.rows, t.cols);
      Extracted(t, sample, n, sw, sqrt).1.Err? <==>
        || !Measurable(t.basic, sample, WholeSample, sw.features)
        || config.Err?
        || (CellKinds * sw.features != {} && exists rc :: rc in t.grid && FieldFails(config.value, rc, sw.features))
  {
    var config := Grid.NewGridConfigAsWritten(sample.height, sample.width, t.rows, t.cols);
    ExtractOutcome(t, sample, n, sw, sqrt, config);
    if config.Ok? {
      FieldsReached(t.grid, sample, config.value, sw.features);
    }
  }

  /** With the checked configuration Extract fails only when that
      configuration refuses the sample, and wherever it accepts the
      sample, Extract as written does exactly the same. */
  lemma ExtractCheckedSafe(t: Template, sample: Sample, n: int, sw: Switches, sqrt: real -> real)
    requires n != 0 && WellKeyed(t)
    ensures ExtractedChecked(t, sample, n, sw, sqrt).1.Err? <==> Grid.NewGridConfig(sample.height, sample.width, t.rows, t.cols).Err?
    ensures Grid.NewGridConfig(sample.height, sample.width, t.rows, t.cols).Ok? ==>
      Extracted(t, sample, n, sw, sqrt) == ExtractedChecked(t, sample, n, sw, sqrt)
  {
    var config := Grid.NewGridConfig(sample.height, sample.width, t.rows, t.cols);
    if config.Ok? {
      ConfiguredSampleHasPixels(sample, config.value);
      FieldsLocated(t.grid, config.value);
      LocatedReached(t.grid, sample, FieldLocator(config.value), sw.features);
      ExtractOutcome(t, sample, n, sw, sqrt, config);
    }
  }

  /** Every field's features are measured on its rectangle FieldRect ... */
  lemma FieldsMeasured(m: map<(int, int), FeatureMap>, sample: Sample, gc: Grid.GridConfig,
                       n: int, on: set<FeatureType>, sqrt: real -> real)
    requires n != 0 && Grid.WellFormed(gc) && Grid.StridesFit(gc) && FieldsIn(m, gc.rows, gc.cols)
    ensures Reached(m, sample, FieldLocator(gc), on)
    ensures forall rc :: rc in m ==>
      CellsUpdated(m, sample, FieldLocator(gc), n, on, sqrt)[rc]
        == Updated(m[rc], sample, Cell(Grid.FieldRect(gc, rc.0, rc.1)), n, on, sqrt)
  {
    FieldsLocated(m, gc);
    LocatedReached(m, sample, FieldLocator(gc), on);
    forall rc | rc in m
      ensures CellsUpdated(m, sample, FieldLocator(gc), n, on, sqrt)[rc]
        == Updated(m[rc], sample, Cell(Grid.FieldRect(gc, rc.0, rc.1)), n, on, sqrt)
    {
      GridTheory.FieldsNonEmpty(gc, rc.0, rc.1);
      if !Active(m[rc], on) {
        UpdatedUntouched(m[rc], sample, Cell(Grid.FieldRect(gc, rc.0, rc.1)), n, on, sqrt);
      }
    }
  }

  /** ... every row band's on RowRect ... */
  lemma RowsMeasured(m: map<int, FeatureMap>, sample: Sample, gc: Grid.GridConfig,
                     n: int, on: set<FeatureType>, sqrt: real -> real)
    requires n != 0 && Grid.WellFormed(gc) && BandsIn(m, gc.rows)
    ensures Reached(m, sample, RowLocator(gc), on)
    ensures forall r :: r in m ==>
      CellsUpdated(m, sample, RowLocator(gc), n, on, sqrt)[r] == Updated(m[r], sample, Cell(Grid.RowRect(gc, r)), n, on, sqrt)
  {
    RowsLocated(m, gc);
    LocatedReached(m, sample, RowLocator(gc), on);
    forall r | r in m
      ensures CellsUpdated(m, sample, RowLocator(gc), n, on, sqrt)[r] == Updated(m[r], sample, Cell(Grid.RowRect(gc, r)), n, on, sqrt)
    {
      GridTheory.BandsAt(gc, r, 0);
      if !Active(m[r], on) {
        UpdatedUntouched(m[r], sample, Cell(Grid.RowRect(gc, r)), n, on, sqrt);
      }
    }
  }

  /** ... and every column band's on ColRect. */
  lemma ColsMeasured(m: map<int, FeatureMap>, sample: Sample, gc: Grid.GridConfig,
                     n: int, on: set<FeatureType>, sqrt: real -> real)
    requires n != 0 && Grid.WellFormed(gc) && BandsIn(m, gc.cols)
    ensures Reached(m, sample, ColLocator(gc), on)
    ensures forall c :: c in m ==>
      CellsUpdated(m, sample, ColLocator(gc), n, on, sqrt)[c] == Updated(m[c], sample, Cell(Grid.ColRect(gc, c)), n, on, sqrt)
  {
    ColsLocated(m, gc);
    LocatedReached(m, sample, ColLocator(gc), on);
    forall c | c in m
      ensures CellsUpdated(m, sample, ColLocator(gc), n, on, sqrt)[c] == Updated(m[c], sample, Cell(Grid.ColRect(gc, c)), n, on, sqrt)
    {
      GridTheory.BandsAt(gc, 0, c);
      if !Active(m[c], on) {
        UpdatedUntouched(m[c], sample, Cell(Grid.ColRect(gc, c)), n, on, sqrt);
      }
    }
  }

  /** Wherever the checked configuration accepts the sample, Extract as
      written succeeds and measures every area on its own region of the
      sample, the one the grid geometry assigns it. */
  lemma ExtractMeasuresRegions(t: Template, sample: Sample, n: int, sw: Switches, sqrt: real -> real)
    requires n != 0 && WellKeyed(t)
    requires Grid.NewGridConfig(sample.height, sample.width, t.rows, t.cols).Ok?
    ensures Extracted(t, sample, n, sw, sqrt).1 == Ok(())
    ensures var out := Extracted(t, sample, n, sw, sqrt).0;
      var gc := Grid.NewGridConfig(sample.height, sample.width, t.rows, t.cols).value;
      && (forall rc :: rc in t.grid ==>
            out.grid[rc] == Updated(t.grid[rc], sample, Cell(Grid.FieldRect(gc, rc.0, rc.1)), n, sw.features, sqrt))
      && (forall r :: r in t.row ==>
            out.row[r] == Updated(t.row[r], sample, Cell(Grid.RowRect(gc, r)), n, sw.features, sqrt))
      && (forall c :: c in t.col ==>
            out.col[c] == Updated(t.col[c], sample, Cell(Grid.ColRect(gc, c)), n, sw.features, sqrt))
  {
    var gc := Grid.NewGridConfig(sample.height, sample.width, t.rows, t.cols).value;
    assert Grid.NewGridConfigAsWritten(sample.height, sample.width, t.rows, t.cols) == Ok(gc);
    ConfiguredSampleHasPixels(sample, gc);
    FieldsMeasured(t.grid, sample, gc, n, sw.features, sqrt);
    RowsMeasured(t.row, sample, gc, n, sw.features, sqrt);
    ColsMeasured(t.col, sample, gc, n, sw.features, sqrt);
  }

  // ---- Extract where the grid code as written goes wrong ----

  /** The column guard at the template level: on a 400-high, 384-wide
      sample a 10 x 65 template with a field in the last column makes
      Extract as written panic in At, while the checked Extract refuses the
      sample up front. */
  lemma ColumnGuardPanicsInExtract(t: Template, sample: Sample, n: int, sw: Switches, sqrt: real -> real)
    requires n != 0 && WellKeyed(t) && t.rows == 10 && t.cols == 65 && (0, 64) in t.grid
    requires sample.height == 400 && sample.width == 384 && CellKinds * sw.features != {}
    ensures Extracted(t, sample, n, sw, sqrt).1 == Err(AreaPanic)
    ensures ExtractedChecked(t, sample, n, sw, sqrt).1 == Err(ConfigPanic(Grid.DecreaseColumnsOrStride))
  {
    GridTheory.ColumnGuardAdmitsEmptyField();
    var config := Grid.NewGridConfigAsWritten(400, 384, 10, 65);
    ExtractOutcome(t, sample, n, sw, sqrt, config);
    CellsActive(t.grid[(0, 64)], sw.features);
  }

  /** The missing row guard at the template level: on a 401-high, 400-wide
      sample every field of a 68 x 10 template has a non-empty rectangle,
      but the one in the last row lies below the image and At copies the
      empty region ZR for it. With HOG or Gradient switched on, as both are
      by default, Extract as written panics in histogramOfGradients or
      gradient; with both off it succeeds and measures that field on
      nothing. The checked Extract refuses the sample. */
  lemma MissingRowGuardCopiesEmptyField(t: Template, sample: Sample, n: int, sw: Switches, sqrt: real -> real)
    requires n != 0 && WellKeyed(t) && t.rows == 68 && t.cols == 10 && (67, 0) in t.grid
    requires sample.height == 401 && sample.width == 400
    ensures PixelKindOn(sw.features) ==> Extracted(t, sample, n, sw, sqrt).1 == Err(AreaPanic)
    ensures !PixelKindOn(sw.features) ==>
      && Extracted(t, sample, n, sw, sqrt).1 == Ok(())
      && (67, 0) in Extracted(t, sample, n, sw, sqrt).0.grid
      && Extracted(t, sample, n, sw, sqrt).0.grid[(67, 0)]
           == Updated(t.grid[(67, 0)], sample, Cell(Grid.ZR), n, sw.features, sqrt)
    ensures ExtractedChecked(t, sample, n, sw, sqrt).1 == Err(ConfigPanic(Grid.DecreaseRowsOrStride))
  {
    GridTheory.MissingRowGuardAdmitsOutsideField();
    var gc := Grid.NewGridConfigAsWritten(401, 400, 68, 10).value;
    if PixelKindOn(sw.features) {
      assert HOG in CellKinds * sw.features || Gradient in CellKinds * sw.features;
      CellsActive(t.grid[(67, 0)], sw.features);
      CellsMeasurable(t.grid[(67, 0)], sample, Cell(Grid.ZR), sw.features);
      assert !Fits(t.grid[(67, 0)], sample, FieldLocator(gc)((67, 0)), sw.features);
    } else {
      forall rc | rc in t.grid
        ensures !FieldFails(gc, rc, sw.features)
      {
        GridTheory.MissingRowGuardFieldsNonEmpty(rc.0, rc.1);
      }
      ExtractFieldOn(t, sample, n, sw, sqrt, gc, (67, 0));
    }
  }

  /** Under a well-formed configuration in which no field of the template
      fails, and with a sample the basic features can be measured on,
      Extract succeeds and measures each field on the region At returns
      for it. */
  lemma ExtractFieldOn(t: Template, sample: Sample, n: int, sw: Switches, sqrt: real -> real,
                       gc: Grid.GridConfig, rc: (int, int))
    requires n != 0 && WellKeyed(t) && Grid.WellFormed(gc) && gc.rows == t.rows && gc.cols == t.cols
    requires Measurable(t.basic, sample, WholeSample, sw.features)
    requires forall k :: k in t.grid ==> !FieldFails(gc, k, sw.features)
    requires rc in t.grid
    ensures Grid.At(gc, rc.0, rc.1).Ok?
    ensures ExtractedUnder(t, sample, n, sw, sqrt, Ok(gc)).1 == Ok(())
    ensures rc in ExtractedUnder(t, sample, n, sw, sqrt, Ok(gc)).0.grid
    ensures ExtractedUnder(t, sample, n, sw, sqrt, Ok(gc)).0.grid[rc]
         == Updated(t.grid[rc], sample, Cell(Grid.At(gc, rc.0, rc.1).value), n, sw.features, sqrt)
  {
    FieldsReached(t.grid, sample, gc, sw.features);
    RowsLocated(t.row, gc);
    ColsLocated(t.col, gc);
    LocatedReached(t.row, sample, RowLocator(gc), sw.features);
    LocatedReached(t.col, sample, ColLocator(gc), sw.features);
    assert !FieldFails(gc, rc, sw.features);
    var at := Grid.At(gc, rc.0, rc.1);
    if !Active(t.grid[rc], sw.features) {
      UpdatedUntouched(t.grid[rc], sample, Cell(at.value), n, sw.features, sqrt);
    }
  }

  /** RowArea's uint16 wrap-around at the template level: with the
      configuration of a 300-high, 500-wide sample cut into 2 x 6 and the
      default row/column threshold 0.02, a row band whose stroke length
      averages 1000 pixels is kept by AreaFilter as written (limit
      9464 * 0.02) and deleted with the exact area (limit 75000 * 0.02). */
  lemma RowAreaWrapKeepsSparseBand(t: Template, fieldThreshold: real)
    requires WellKeyed(t) && Grid.NewGridConfig(300, 500, 2, 6) == Ok(t.gridConfig)
    requires 0 in t.row && t.row[0][Length].mean == 1000.0
    ensures 0 in AreaFiltered(t, fieldThreshold, 0.02).0.row
    ensures 0 !in AreaFilteredExact(t, fieldThreshold, 0.02).0.row
  {
    GridTheory.RowAreaWraps();
    KeyedHasLength(t.row);
    LengthAtLeastSelects(t.row, Grid.RowArea(t.gridConfig), 0.02);
    LengthAtLeastSelects(t.row, Grid.RowAreaExact(t.gridConfig), 0.02);
  }

  // ---- The filters ----

  /** AreaFilter(fieldThreshold, rowColThreshold) with the given field,
      row and column areas: refused before any extraction; otherwise every
      grid field whose Length mean is below fieldThreshold times the field
      area is deleted, and so is every row and column band below
      rowColThreshold times the band area. Length is consulted whether or
      not its kind is switched on. */
  function AreaFilteredWith(t: Template, fieldThreshold: real, rowColThreshold: real,
                            fieldArea: real, rowArea: real, colArea: real): (Template, Result<(), FilterError>)
    requires WellKeyed(t)
  {
    if t.gridConfig == Grid.ZeroConfig then (t, Err(NotExtracted))
    else
      KeyedHasLength(t.grid);
      KeyedHasLength(t.row);
      KeyedHasLength(t.col);
      (t.(grid := LengthAtLeast(t.grid, fieldArea, fieldThreshold),
          row := LengthAtLeast(t.row, rowArea, rowColThreshold),
          col := LengthAtLeast(t.col, colArea, rowColThreshold)),
       Ok(()))
  }

  /** AreaFilter as written: the areas FieldArea, RowArea and ColArea
      compute, their products taken in uint16. */
  function AreaFiltered(t: Template, fieldThreshold: real, rowColThreshold: real): (Template, Result<(), FilterError>)
    requires WellKeyed(t)
  {
    var gc := t.gridConfig;
    AreaFilteredWith(t, fieldThreshold, rowColThreshold, Grid.FieldArea(gc), Grid.RowArea(gc), Grid.ColArea(gc))
  }

  /** AreaFilter as evidently intended: the exact pixel counts of a field
      and of the bands. */
  function AreaFilteredExact(t: Template, fieldThreshold: real, rowColThreshold: real)
    : (Template, Result<(), FilterError>)
    requires WellKeyed(t)
  {
    var gc := t.gridConfig;
    AreaFilteredWith(t, fieldThreshold, rowColThreshold,
                     Grid.FieldAreaExact(gc), Grid.RowAreaExact(gc), Grid.ColAreaExact(gc))
  }

  /** The two agree whenever none of the three products passes 65535. */
  lemma AreaFilterAgrees(t: Template, fieldThreshold: real, rowColThreshold: real)
    requires WellKeyed(t)
    requires t.gridConfig.fieldWidth * t.gridConfig.fieldHeight < 0x1_0000
    requires t.gridConfig.width * t.gridConfig.rowHeight < 0x1_0000
    requires t.gridConfig.height * t.gridConfig.colWidth < 0x1_0000
    ensures AreaFiltered(t, fieldThreshold, rowColThreshold) == AreaFilteredExact(t, fieldThreshold, rowColThreshold)
  {
  }

  /** AreaFilter's three loops. */
  method AreaFilterTemplate(t: Template, fieldThreshold: real, rowColThreshold: real)
    returns (out: Template, r: Result<(), FilterError>)
    requires WellKeyed(t)
    ensures (out, r) == AreaFiltered(t, fieldThreshold, rowColThreshold)
  {
    if t.gridConfig == Grid.ZeroConfig {
      return t, Err(NotExtracted);
    }
    KeyedHasLength(t.grid);
    KeyedHasLength(t.row);
    KeyedHasLength(t.col);
    var grid := FilterByLength(t.grid, Grid.FieldArea(t.gridConfig), fieldThreshold);
    var row := FilterByLength(t.row, Grid.RowArea(t.gridConfig), rowColThreshold);
    var col := FilterByLength(t.col, Grid.ColArea(t.gridConfig), rowColThreshold);
    return t.(grid := grid, row := row, col := col), Ok(());
  }

  /** Whatever the areas, AreaFilter only removes areas, changes no
      statistic and keeps the template well keyed; it fails exactly before
      the first extraction, and then changes nothing. */
  lemma AreaFilterKeepsShape(t: Template, fieldThreshold: real, rowColThreshold: real,
                             fieldArea: real, rowArea: real, colArea: real)
    requires WellKeyed(t)
    ensures var (out, r) := AreaFilteredWith(t, fieldThreshold, rowColThreshold, fieldArea, rowArea, colArea);
      && WellKeyed(out) && out == t.(grid := out.grid, row := out.row, col := out.col)
      && Submap(out.grid, t.grid) && Submap(out.row, t.row) && Submap(out.col, t.col)
      && (r.Err? <==> t.gridConfig == Grid.ZeroConfig)
      && (r.Err? ==> out == t)
  {
    if t.gridConfig != Grid.ZeroConfig {
      KeyedHasLength(t.grid);
      KeyedHasLength(t.row);
      KeyedHasLength(t.col);
      LengthAtLeastSelects(t.grid, fieldArea, fieldThreshold);
      LengthAtLeastSelects(t.row, rowArea, rowColThreshold);
      LengthAtLeastSelects(t.col, colArea, rowColThreshold);
    }
  }

  /** StdMeanFilter(threshold): refused before any extraction; otherwise
      every area with an enabled feature whose deviation exceeds threshold
      times its mean is deleted. */
  function StdMeanFiltered(t: Template, threshold: real, sw: Switches): (Template, Result<(), FilterError>)
  {
    if t.gridConfig == Grid.ZeroConfig then (t, Err(NotExtracted))
    else
      (t.(grid := StableOnly(t.grid, sw.features, threshold),
          row := StableOnly(t.row, sw.features, threshold),
          col := StableOnly(t.col, sw.features, threshold)),
       Ok(()))
  }

  /** StdMeanFilter's three loops. */
  method StdMeanFilterTemplate(t: Template, threshold: real, sw: Switches)
    returns (out: Template, r: Result<(), FilterError>)
    ensures (out, r) == StdMeanFiltered(t, threshold, sw)
  {
    if t.gridConfig == Grid.ZeroConfig {
      return t, Err(NotExtracted);
    }
    var grid := FilterByStability(t.grid, sw.features, threshold);
    var row := FilterByStability(t.row, sw.features, threshold);
    var col := FilterByStability(t.col, sw.features, threshold);
    return t.(grid := grid, row := row, col := col), Ok(());
  }

  /** StdMeanFilter only removes areas, changes no statistic and keeps the
      template well keyed; it fails exactly before the first extraction,
      and then changes nothing. */
  lemma StdMeanFilterKeepsShape(t: Template, threshold: real, sw: Switches)
    requires WellKeyed(t)
    ensures var (out, r) := StdMeanFiltered(t, threshold, sw);
      && WellKeyed(out) && out == t.(grid := out.grid, row := out.row, col := out.col)
      && Submap(out.grid, t.grid) && Submap(out.row, t.row) && Submap(out.col, t.col)
      && (r.Err? <==> t.gridConfig == Grid.ZeroConfig)
      && (r.Err? ==> out == t)
  {
    var (out, r) := StdMeanFiltered(t, threshold, sw);
    assert Submap(out.grid, t.grid) && Submap(out.row, t.row) && Submap(out.col, t.col);
    SubmapsKeyed(t, out);
  }

  /** Removing areas keeps a template well keyed. */
  lemma SubmapsKeyed(t: Template, out: Template)
    requires WellKeyed(t) && out == t.(grid := out.grid, row := out.row, col := out.col)
    requires Submap(out.grid, t.grid) && Submap(out.row, t.row) && Submap(out.col, t.col)
    ensures WellKeyed(out)
  {
  }

  // ---- Score ----

  /** The probe Score builds: a new template with this template's keys,
      given the sample as its first and only sample. */
  function Probe(t: Template, sample: Sample, sw: Switches, sqrt: real -> real): (Template, Result<(), ExtractError>)
    requires WellKeyed(t)
  {
    NewTemplateShape(t.rows, t.cols, Some(t), sw);
    Extracted(NewTemplate(t.rows, t.cols, Some(t), sw), sample, 1, sw, sqrt)
  }

  /** The score of one area class: the mean |z| its score function
      computes. */
  ghost function ClassScore(t: Template, p: Template, sw: Switches, a: AreaType): Float
  {
    match a
    case BasicArea => BasicScore(t.basic, p.basic, sw.features)
    case GridArea => CellScore(t.grid, p.grid, sw.features)
    case RowArea => CellScore(t.row, p.row, sw.features)
    case ColArea => CellScore(t.col, p.col, sw.features)
  }

  /** The scores Score reports: one per area class switched on. */
  ghost function Scores(t: Template, p: Template, sw: Switches): (score: map<AreaType, Float>)
    ensures score.Keys == sw.areas
  {
    map a | a in sw.areas :: ClassScore(t, p, sw, a)
  }

  /** The value stored for area class a among the four computed. */
  function Pick(a: AreaType, zb: Float, zg: Float, zr: Float, zc: Float): Float
  {
    match a
    case BasicArea => zb
    case GridArea => zg
    case RowArea => zr
    case ColArea => zc
  }

  /** Four class scores, each right where its class is switched on, make
      up the score map. */
  lemma PickedScores(t: Template, p: Template, sw: Switches, zb: Float, zg: Float, zr: Float, zc: Float)
    requires BasicArea in sw.areas ==> zb == ClassScore(t, p, sw, BasicArea)
    requires GridArea in sw.areas ==> zg == ClassScore(t, p, sw, GridArea)
    requires RowArea in sw.areas ==> zr == ClassScore(t, p, sw, RowArea)
    requires ColArea in sw.areas ==> zc == ClassScore(t, p, sw, ColArea)
    ensures (map a | a in sw.areas :: Pick(a, zb, zg, zr, zc)) == Scores(t, p, sw)
  {
    var m := map a | a in sw.areas :: Pick(a, zb, zg, zr, zc);
    forall a | a in sw.areas
      ensures m[a] == Scores(t, p, sw)[a]
    {
      match a
      case BasicArea =>
      case GridArea =>
      case RowArea =>
      case ColArea =>
    }
  }

  /** The probe has a partner for every feature the scores of the enabled
      area classes read. */
  predicate Covered(t: Template, p: Template, sw: Switches)
  {
    && (BasicArea in sw.areas ==> BasicCovered(t.basic, p.basic, sw.features))
    && (GridArea in sw.areas ==> CellsCovered(t.grid, p.grid, sw.features))
    && (RowArea in sw.areas ==> CellsCovered(t.row, p.row, sw.features))
    && (ColArea in sw.areas ==> CellsCovered(t.col, p.col, sw.features))
  }

  /** The probe has exactly the template's areas in every area class that
      is switched on, and the basic kinds when the basic class is. */
  lemma ProbeKeys(t: Template, sample: Sample, sw: Switches, sqrt: real -> real)
    requires WellKeyed(t)
    ensures var p := Probe(t, sample, sw, sqrt).0;
      && WellKeyed(p)
      && (BasicArea in sw.areas ==> p.basic.Keys == BasicKinds)
      && p.grid.Keys == (if GridArea in sw.areas then t.grid.Keys else {})
      && p.row.Keys == (if RowArea in sw.areas then t.row.Keys else {})
      && p.col.Keys == (if ColArea in sw.areas then t.col.Keys else {})
  {
    var start := NewTemplate(t.rows, t.cols, Some(t), sw);
    NewTemplateShape(t.rows, t.cols, Some(t), sw);
    ExtractKeepsShape(start, sample, 1, sw, sqrt, Grid.NewGridConfigAsWritten(sample.height, sample.width, t.rows, t.cols));
  }

  /** Two well-keyed templates with the same areas in every enabled class
      cover each other's scores. */
  lemma SameKeysCovered(t: Template, p: Template, sw: Switches)
    requires WellKeyed(t) && WellKeyed(p)
    requires BasicArea in sw.areas ==> p.basic.Keys == BasicKinds
    requires GridArea in sw.areas ==> p.grid.Keys == t.grid.Keys
    requires RowArea in sw.areas ==> p.row.Keys == t.row.Keys
    requires ColArea in sw.areas ==> p.col.Keys == t.col.Keys
    ensures Covered(t, p, sw)
  {
    assert CellsKeyed(p.grid) && CellsKeyed(p.row) && CellsKeyed(p.col);
    assert CellsKeyed(t.grid) && CellsKeyed(t.row) && CellsKeyed(t.col);
  }

  /** So the probe has a partner for every feature the scores of the
      enabled area classes read. */
  lemma ProbeCovered(t: Template, sample: Sample, sw: Switches, sqrt: real -> real)
    requires WellKeyed(t)
    ensures Covered(t, Probe(t, sample, sw, sqrt).0, sw)
  {
    ProbeKeys(t, sample, sw, sqrt);
    SameKeysCovered(t, Probe(t, sample, sw, sqrt).0, sw);
  }

  /** The loop of Score over the area flags, calling each class's score
      function. */
  method ScoreAreas(t: Template, p: Template, sw: Switches) returns (score: map<AreaType, Float>)
    requires Covered(t, p, sw)
    ensures score == Scores(t, p, sw)
  {
    var zb, zg, zr, zc := NaN, NaN, NaN, NaN;
    if BasicArea in sw.areas {
      zb := ScoreBasic(t.basic, p.basic, sw.features);
    }
    if RowArea in sw.areas {
      zr := ScoreCells(t.row, p.row, sw.features);
      assert zr == CellScore(t.row, p.row, sw.features);
    }
    if ColArea in sw.areas {
      zc := ScoreCells(t.col, p.col, sw.features);
      assert zc == CellScore(t.col, p.col, sw.features);
    }
    if GridArea in sw.areas {
      zg := ScoreCells(t.grid, p.grid, sw.features);
      assert zg == CellScore(t.grid, p.grid, sw.features);
    }
    PickedScores(t, p, sw, zb, zg, zr, zc);
    score := map a | a in sw.areas :: Pick(a, zb, zg, zr, zc);
  }

  // ---- The object ----

  class Model {
    var basic: FeatureMap
    var grid: map<(int, int), FeatureMap>
    var row: map<int, FeatureMap>
    var col: map<int, FeatureMap>
    var rows: Grid.uint16
    var cols: Grid.uint16
    var gridConfig: Grid.GridConfig

    function State(): Template
      reads this
    {
      Template(basic, grid, row, col, rows, cols, gridConfig)
    }

    ghost predicate Valid()
      reads this
    {
      WellKeyed(State())
    }

    /** NewModel(rows, cols, template). */
    constructor NewModel(rows: Grid.uint16, cols: Grid.uint16, template: Model?, sw: Switches)
      requires template != null ==> template.Valid() && template.rows == rows && template.cols == cols
      ensures State() == NewTemplate(rows, cols, if template == null then None else Some(template.State()), sw)
      ensures Valid()
    {
      var from := if template == null then None else Some(template.State());
      var t := NewTemplateOf(rows, cols, from, sw);
      NewTemplateShape(rows, cols, from, sw);
      basic, grid, row, col := t.basic, t.grid, t.row, t.col;
      this.rows, this.cols, gridConfig := t.rows, t.cols, t.gridConfig;
    }

    /** FieldsCount, RowsCount, ColsCount: the areas left in each map. */
    function FieldsCount(): nat
      reads this
    {
      |grid|
    }

    function RowsCount(): nat
      reads this
    {
      |row|
    }

    function ColsCount(): nat
      reads this
    {
      |col|
    }

    /** Extract(sample, nSamples). */
    method Extract(sample: Sample, n: int, sw: Switches, sqrt: real -> real) returns (r: Result<(), ExtractError>)
      requires n != 0 && Valid()
      modifies this
      ensures (State(), r) == Extracted(old(State()), sample, n, sw, sqrt)
      ensures Valid()
    {
      var t;
      t, r := ExtractTemplate(State(), sample, n, sw, sqrt);
      ExtractKeepsShape(State(), sample, n, sw, sqrt, Grid.NewGridConfigAsWritten(sample.height, sample.width, rows, cols));
      basic, grid, row, col, gridConfig := t.basic, t.grid, t.row, t.col, t.gridConfig;
    }

    /** AreaFilter(fieldThreshold, rowColThreshold). */
    method AreaFilter(fieldThreshold: real, rowColThreshold: real) returns (r: Result<(), FilterError>)
      requires Valid()
      modifies this
      ensures (State(), r) == AreaFiltered(old(State()), fieldThreshold, rowColThreshold)
      ensures Valid()
    {
      var t;
      t, r := AreaFilterTemplate(State(), fieldThreshold, rowColThreshold);
      AreaFilterKeepsShape(State(), fieldThreshold, rowColThreshold, Grid.FieldArea(gridConfig),
                           Grid.RowArea(gridConfig), Grid.ColArea(gridConfig));
      grid, row, col := t.grid, t.row, t.col;
    }

    /** StdMeanFilter(threshold). */
    method StdMeanFilter(threshold: real, sw: Switches) returns (r: Result<(), FilterError>)
      requires Valid()
      modifies this
      ensures (State(), r) == StdMeanFiltered(old(State()), threshold, sw)
      ensures Valid()
    {
      var t;
      t, r := StdMeanFilterTemplate(State(), threshold, sw);
      StdMeanFilterKeepsShape(State(), threshold, sw);
      grid, row, col := t.grid, t.row, t.col;
    }

    /** Score(sample): the probe is built and extracted, and every area
        class that is switched on is scored against it. A panic of Extract on
        the probe is the error here. */
    method Score(sample: Sample, sw: Switches, sqrt: real -> real)
      returns (r: Result<map<AreaType, Float>, ExtractError>, pattern: Model)
      requires Valid()
      ensures fresh(pattern) && pattern.Valid()
      ensures pattern.State() == Probe(State(), sample, sw, sqrt).0
      ensures r.Err? <==> Probe(State(), sample, sw, sqrt).1.Err?
      ensures r.Ok? ==> r.value == Scores(State(), pattern.State(), sw)
    {
      pattern := new Model.NewModel(rows, cols, this, sw);
      var extracted := pattern.Extract(sample, 1, sw, sqrt);
      if extracted.Err? {
        return Err(extracted.error), pattern;
      }
      ProbeCovered(State(), sample, sw, sqrt);
      var score := ScoreAreas(State(), pattern.State(), sw);
      return Ok(score), pattern;
    }
  }
}
