/** The feature maps of a template (signature/model.go) as values: which
    areas and kinds a template holds, what one extraction step does to
    them, and which areas the two filters keep. Each Feature of the Go maps
    is represented by its statistic `Stat`; what Feature.Update does to it
    is `OnlineStat.Step`, as proved for the class in
    signature_feature.dfy. The value function of a kind is an OpenCV
    computation: it enters through the sample, as an arbitrary function of
    the kind and the region it is measured on. */
module TemplateAreas {
  import opened Wrappers
  import OnlineStat
  import opened SignatureFeature
  import Grid
  // ---- Configuration ----

  /** AreaType (signature/area.go), in its iota order. */
  datatype AreaType = BasicArea | RowArea | ColArea | GridArea

  /** The global AreaFlags switch: every area class is on. */
  const AreaFlags: set<AreaType> := {BasicArea, RowArea, ColArea, GridArea}

  /** The two global switches, passed in explicitly: the area classes and
      the feature kinds that take part in extraction and scoring. */
  datatype Switches = Switches(areas: set<AreaType>, features: set<FeatureType>)

  const Defaults := Switches(AreaFlags, FeatureFlags)

  /** features.FeatureMap, each feature represented by its statistic. */
  type FeatureMap = map<FeatureType, OnlineStat.Stat>

  /** The kinds newModel puts in the basic map. */
  const BasicKinds: set<FeatureType> := {Length, Gradient, HOG, Aspect}

  /** The kinds newModel puts in every grid, row and column map. */
  const CellKinds: set<FeatureType> := {Length, HOG, Gradient}

  /** Freshly made features of the given kinds: every statistic zero. */
  function Fresh(kinds: set<FeatureType>): (fm: FeatureMap)
    ensures fm.Keys == kinds
    ensures forall f :: f in fm ==> fm[f] == OnlineStat.Zero
  {
    map f | f in kinds :: OnlineStat.Zero
  }

  // ---- Samples ----

  /** Where a feature is measured: the whole sample, or the region At
      copied out of it. */
  datatype Region = WholeSample | Cell(rect: Grid.Rect)

  /** A preprocessed sample: its size, and the value each feature kind
      takes on each region of it. */
  datatype Sample = Sample(height: Grid.uint16, width: Grid.uint16, value: (FeatureType, Region) -> real)

  /** The indices 0 .. n-1. */
  function Indices(n: int): (s: set<int>)
    ensures forall i :: i in s <==> 0 <= i < n
  {
    if n <= 0 then {} else Indices(n - 1) + {n - 1}
  }

  /** The grid keys of a fresh template: every (row, column) pair. */
  function Product(rows: int, cols: int): (s: set<(int, int)>)
    ensures forall r, c :: (r, c) in s <==> 0 <= r < rows && 0 <= c < cols
  {
    set r, c | 0 <= r < rows && 0 <= c < cols :: (r, c)
  }

  // ---- One step of extraction, on values ----

  /** A feature map after one sample measured on `region`, with index n:
      every enabled kind takes one Update step, the others are untouched. */
  function Updated(fm: FeatureMap, sample: Sample, region: Region, n: int, on: set<FeatureType>,
                   sqrt: real -> real): (out: FeatureMap)
    requires n != 0
    ensures out.Keys == fm.Keys
  {
    map f | f in fm :: if f in on then OnlineStat.Step(fm[f], sample.value(f, region), n, sqrt) else fm[f]
  }

  /** The kinds whose value function panics on an empty Mat:
      histogramOfGradients, corners and gradient. */
  const NeedsPixels: set<FeatureType> := {Gradient, HOG, Corners}

  /** A region with no pixels: the whole sample when the preprocessed Mat
      has no row or no column, a cell when the region At copied is empty. */
  predicate EmptyRegion(sample: Sample, region: Region)
  {
    match region
    case WholeSample => sample.height == 0 || sample.width == 0
    case Cell(r) => Grid.Empty(r)
  }

  /** Every enabled kind of fm has a value on `region`: the region has
      pixels, or no enabled kind of fm needs them. */
  predicate Measurable(fm: FeatureMap, sample: Sample, region: Region, on: set<FeatureType>)
  {
    EmptyRegion(sample, region) ==> !exists f :: f in fm && f in on && f in NeedsPixels
  }

  /** Every key of m is found by `locate`, on a region with pixels. */
  predicate Located<K>(m: map<K, FeatureMap>, locate: K -> Result<Grid.Rect, Grid.GridError>)
  {
    forall k :: k in m ==> locate(k).Ok? && !Grid.Empty(locate(k).value)
  }

  /** An area takes part in an extraction when one of its kinds is
      switched on. */
  predicate Active(fm: FeatureMap, on: set<FeatureType>)
  {
    exists f :: f in fm && f in on
  }

  /** An extraction gets through area fm, given the region `at` found for
      it: an inactive area is skipped, an active one needs At to succeed
      and every enabled kind to have a value on the copy. */
  predicate Fits(fm: FeatureMap, sample: Sample, at: Result<Grid.Rect, Grid.GridError>, on: set<FeatureType>)
  {
    Active(fm, on) ==> at.Ok? && Measurable(fm, sample, Cell(at.value), on)
  }

  /** Extract gets through every area of m. */
  predicate Reached<K>(m: map<K, FeatureMap>, sample: Sample, locate: K -> Result<Grid.Rect, Grid.GridError>,
                       on: set<FeatureType>)
  {
    forall k :: k in m ==> Fits(m[k], sample, locate(k), on)
  }

  /** Areas found on regions with pixels are always got through. */
  lemma LocatedReached<K>(m: map<K, FeatureMap>, sample: Sample, locate: K -> Result<Grid.Rect, Grid.GridError>,
                          on: set<FeatureType>)
    requires Located(m, locate)
    ensures Reached(m, sample, locate, on)
  {
  }

  /** One area after one sample: measured on the region `at` found for it
      when it is active, left alone otherwise. */
  function AreaUpdated(fm: FeatureMap, sample: Sample, at: Result<Grid.Rect, Grid.GridError>, n: int,
                       on: set<FeatureType>, sqrt: real -> real): FeatureMap
    requires n != 0 && Fits(fm, sample, at, on)
  {
    if Active(fm, on) then Updated(fm, sample, Cell(at.value), n, on, sqrt) else fm
  }

  /** A map of areas after one sample: every area updated on the region
      `locate` gives for its key. */
  function CellsUpdated<K>(m: map<K, FeatureMap>, sample: Sample, locate: K -> Result<Grid.Rect, Grid.GridError>,
                           n: int, on: set<FeatureType>, sqrt: real -> real): (out: map<K, FeatureMap>)
    requires n != 0 && Reached(m, sample, locate, on)
    ensures out.Keys == m.Keys
  {
    map k | k in m :: AreaUpdated(m[k], sample, locate(k), n, on, sqrt)
  }

  /** A feature map with no enabled kind is the same whatever region it
      would be measured on. */
  lemma UpdatedUntouched(fm: FeatureMap, sample: Sample, region: Region, n: int, on: set<FeatureType>,
                         sqrt: real -> real)
    requires n != 0 && !Active(fm, on)
    ensures Updated(fm, sample, region, n, on, sqrt) == fm
  {
  }

  /** sampleGrid.At(rc[0], rc[1]) for a grid key. */
  function FieldLocator(gc: Grid.GridConfig): ((int, int)) -> Result<Grid.Rect, Grid.GridError>
  {
    (rc: (int, int)) => Grid.At(gc, rc.0, rc.1)
  }

  /** sampleGrid.At(r, -1) for a row key. */
  function RowLocator(gc: Grid.GridConfig): int -> Result<Grid.Rect, Grid.GridError>
  {
    r => Grid.At(gc, r, -1)
  }

  /** sampleGrid.At(-1, c) for a column key. */
  function ColLocator(gc: Grid.GridConfig): int -> Result<Grid.Rect, Grid.GridError>
  {
    c => Grid.At(gc, -1, c)
  }

  /** The inner loop of Extract over one feature map: each enabled feature
      is updated with its value on the region. It stops at the first
      enabled kind that needs pixels the region does not have, the panic
      of its value function; `ok` says whether it ran through. */
  method UpdateFeatures(fm: FeatureMap, sample: Sample, region: Region, n: int, on: set<FeatureType>,
                        sqrt: real -> real) returns (out: FeatureMap, ok: bool)
    requires n != 0
    ensures ok <==> Measurable(fm, sample, region, on)
    ensures ok ==> out == Updated(fm, sample, region, n, on, sqrt)
  {
    out := fm;
    var kinds := fm.Keys;
    while kinds != {}
      invariant kinds <= fm.Keys && out.Keys == fm.Keys
      invariant forall f :: f in fm && (f in kinds || f !in on) ==> out[f] == fm[f]
      invariant forall f :: f in fm && f !in kinds && f in on ==>
        out[f] == OnlineStat.Step(fm[f], sample.value(f, region), n, sqrt)
      invariant forall f :: f in fm && f !in kinds && f in on ==> !(f in NeedsPixels && EmptyRegion(sample, region))
      decreases |kinds|
    {
      var f :| f in kinds;
      if f in on {
        if f in NeedsPixels && EmptyRegion(sample, region) {
          return out, false;
        }
        out := out[f := OnlineStat.Step(fm[f], sample.value(f, region), n, sqrt)];
      }
      kinds := kinds - {f};
    }
    return out, true;
  }

  /** The inner loop of Extract over one area: an active area is
      measured on the region found for it, an inactive one is left alone
      and its region never asked for. It stops on At's panic and on a
      value function's; `ok` says whether it ran through. */
  method UpdateArea(fm: FeatureMap, sample: Sample, at: Result<Grid.Rect, Grid.GridError>, n: int,
                    on: set<FeatureType>, sqrt: real -> real) returns (out: FeatureMap, ok: bool)
    requires n != 0
    ensures ok <==> Fits(fm, sample, at, on)
    ensures ok ==> out == AreaUpdated(fm, sample, at, n, on, sqrt)
  {
    out, ok := fm, true;
    if Active(fm, on) {
      if at.Err? {
        return fm, false;
      }
      out, ok := UpdateFeatures(fm, sample, Cell(at.value), n, on, sqrt);
    }
  }

  /** Area k has been visited by an extraction loop: got through, and
      updated. */
  predicate Visited<K>(m: map<K, FeatureMap>, out: map<K, FeatureMap>, k: K, sample: Sample,
                       locate: K -> Result<Grid.Rect, Grid.GridError>, n: int, on: set<FeatureType>, sqrt: real -> real)
    requires k in m && k in out && n != 0
  {
    Fits(m[k], sample, locate(k), on) && out[k] == AreaUpdated(m[k], sample, locate(k), n, on, sqrt)
  }

  /** One of Extract's loops over the grid, row or column map: every
      active area is measured on its region. It stops at the first panic,
      At's or a value function's; `ok` says whether it ran through. */
  method ExtractCells<K>(m: map<K, FeatureMap>, sample: Sample, locate: K -> Result<Grid.Rect, Grid.GridError>,
                         n: int, on: set<FeatureType>, sqrt: real -> real)
    returns (out: map<K, FeatureMap>, ok: bool)
    requires n != 0
    ensures ok <==> Reached(m, sample, locate, on)
    ensures ok ==> out == CellsUpdated(m, sample, locate, n, on, sqrt)
  {
    out := m;
    var keys := m.Keys;
    while keys != {}
      invariant keys <= m.Keys && out.Keys == m.Keys
      invariant forall k :: k in keys ==> out[k] == m[k]
      invariant forall k :: k in m && k !in keys ==> Visited(m, out, k, sample, locate, n, on, sqrt)
      decreases |keys|
    {
      var k :| k in keys;
      var fm, fits := UpdateArea(m[k], sample, locate(k), n, on, sqrt);
      if !fits {
        return out, false;
      }
      out := out[k := fm];
      keys := keys - {k};
    }
    assert forall k :: k in m ==> out[k] == CellsUpdated(m, sample, locate, n, on, sqrt)[k];
    return out, true;
  }

  // ---- Filters, on values ----

  /** The areas AreaFilter keeps: those whose Length mean is not below
      the limit, `area` times `threshold`. */
  function LengthAtLeast<K>(m: map<K, FeatureMap>, area: real, threshold: real): map<K, FeatureMap>
    requires forall k :: k in m ==> Length in m[k]
  {
    map k | k in m && m[k][Length].mean >= area * threshold :: m[k]
  }

  /** AreaFilter keeps exactly the areas whose Length mean reaches the
      limit, and keeps them unchanged. */
  lemma LengthAtLeastSelects<K>(m: map<K, FeatureMap>, area: real, threshold: real)
    requires forall k :: k in m ==> Length in m[k]
    ensures LengthAtLeast(m, area, threshold).Keys <= m.Keys
    ensures forall k :: k in m ==> (k in LengthAtLeast(m, area, threshold) <==> m[k][Length].mean >= area * threshold)
    ensures forall k :: k in LengthAtLeast(m, area, threshold) ==> LengthAtLeast(m, area, threshold)[k] == m[k]
  {
  }

  /** A feature map StdMeanFilter drops: some enabled feature deviates by
      more than `threshold` times its mean. */
  predicate Unstable(fm: FeatureMap, on: set<FeatureType>, threshold: real)
  {
    exists f :: f in fm && f in on && fm[f].std > fm[f].mean * threshold
  }

  /** The areas StdMeanFilter keeps. */
  function StableOnly<K>(m: map<K, FeatureMap>, on: set<FeatureType>, threshold: real): (out: map<K, FeatureMap>)
    ensures out.Keys <= m.Keys
    ensures forall k :: k in m ==> (k in out <==> !Unstable(m[k], on, threshold))
    ensures forall k :: k in out ==> out[k] == m[k]
  {
    map k | k in m && !Unstable(m[k], on, threshold) :: m[k]
  }

  /** One of AreaFilter's loops: delete every area whose Length mean is
      below the limit. */
  method FilterByLength<K>(m: map<K, FeatureMap>, area: real, threshold: real) returns (out: map<K, FeatureMap>)
    requires forall k :: k in m ==> Length in m[k]
    ensures out == LengthAtLeast(m, area, threshold)
  {
    var limit := area * threshold;
    out := m;
    var keys := m.Keys;
    while keys != {}
      invariant keys <= m.Keys && out.Keys <= m.Keys
      invariant forall k :: k in keys ==> k in out
      invariant forall k :: k in m && k !in keys ==> (k in out <==> m[k][Length].mean >= limit)
      invariant forall k :: k in out ==> out[k] == m[k]
      decreases |keys|
    {
      var k :| k in keys;
      if m[k][Length].mean < limit {
        out := out - {k};
      }
      keys := keys - {k};
    }
    LengthAtLeastSelects(m, area, threshold);
  }

  /** The inner loop of StdMeanFilter: does some enabled feature deviate by
      more than `threshold` times its mean? It stops at the first one. */
  method AnyUnstable(fm: FeatureMap, on: set<FeatureType>, threshold: real) returns (b: bool)
    ensures b == Unstable(fm, on, threshold)
  {
    var kinds := fm.Keys;
    while kinds != {}
      invariant kinds <= fm.Keys
      invariant forall f :: f in fm && f !in kinds && f in on ==> fm[f].std <= fm[f].mean * threshold
      decreases |kinds|
    {
      var f :| f in kinds;
      if f in on && fm[f].std > fm[f].mean * threshold {
        return true;
      }
      kinds := kinds - {f};
    }
    return false;
  }

  /** One of StdMeanFilter's loops: delete every area with an unstable
      enabled feature. */
  method FilterByStability<K>(m: map<K, FeatureMap>, on: set<FeatureType>, threshold: real)
    returns (out: map<K, FeatureMap>)
    ensures out == StableOnly(m, on, threshold)
  {
    out := m;
    var keys := m.Keys;
    while keys != {}
      invariant keys <= m.Keys && out.Keys <= m.Keys
      invariant forall k :: k in keys ==> k in out
      invariant forall k :: k in m && k !in keys ==> (k in out <==> !Unstable(m[k], on, threshold))
      invariant forall k :: k in out ==> out[k] == m[k]
      decreases |keys|
    {
      var k :| k in keys;
      var drop := AnyUnstable(m[k], on, threshold);
      if drop {
        out := out - {k};
      }
      keys := keys - {k};
    }
  }

  /** AreaFilter removes only areas, never changes a statistic, and a
      second pass with the same limit removes nothing more. */
  lemma LengthFilterIdempotent<K>(m: map<K, FeatureMap>, area: real, threshold: real)
    requires forall k :: k in m ==> Length in m[k]
    ensures LengthAtLeast(m, area, threshold).Keys <= m.Keys
    ensures LengthAtLeast(LengthAtLeast(m, area, threshold), area, threshold) == LengthAtLeast(m, area, threshold)
  {
    var once := LengthAtLeast(m, area, threshold);
    LengthAtLeastSelects(m, area, threshold);
    LengthAtLeastSelects(once, area, threshold);
    assert LengthAtLeast(once, area, threshold).Keys == once.Keys;
  }

  /** A higher threshold keeps no more areas. */
  lemma LengthFilterMonotone<K>(m: map<K, FeatureMap>, area: real, threshold: real, higher: real)
    requires forall k :: k in m ==> Length in m[k]
    requires area >= 0.0 && threshold <= higher
    ensures LengthAtLeast(m, area, higher).Keys <= LengthAtLeast(m, area, threshold).Keys
  {
    LengthAtLeastSelects(m, area, threshold);
    LengthAtLeastSelects(m, area, higher);
    ScaleMonotone(area, threshold, higher);
  }

  lemma ScaleMonotone(a: real, x: real, y: real)
    requires a >= 0.0 && x <= y
    ensures a * x <= a * y
  {
  }

  /** StdMeanFilter removes only areas, never changes a statistic, and a
      second pass with the same threshold removes nothing more. */
  lemma StabilityFilterIdempotent<K>(m: map<K, FeatureMap>, on: set<FeatureType>, threshold: real)
    ensures StableOnly(m, on, threshold).Keys <= m.Keys
    ensures StableOnly(StableOnly(m, on, threshold), on, threshold) == StableOnly(m, on, threshold)
  {
    var once := StableOnly(m, on, threshold);
    assert StableOnly(once, on, threshold).Keys == once.Keys;
  }

  /** The two filters select independently, so the order in which a
      caller applies them does not matter. */
  lemma FiltersCommute<K>(m: map<K, FeatureMap>, area: real, areaThreshold: real, on: set<FeatureType>,
                          threshold: real)
    requires forall k :: k in m ==> Length in m[k]
    ensures LengthAtLeast(StableOnly(m, on, threshold), area, areaThreshold)
         == StableOnly(LengthAtLeast(m, area, areaThreshold), on, threshold)
  {
    var a := LengthAtLeast(StableOnly(m, on, threshold), area, areaThreshold);
    var b := StableOnly(LengthAtLeast(m, area, areaThreshold), on, threshold);
    LengthAtLeastSelects(m, area, areaThreshold);
    LengthAtLeastSelects(StableOnly(m, on, threshold), area, areaThreshold);
    assert a.Keys == b.Keys;
  }

  // ---- Enrollment ----

  /** A feature map after one Extract per sample, with indices 1, 2, ...,
      each sample measured on the region `region` picks for it. */
  ghost function Enrolled(fm: FeatureMap, samples: seq<Sample>, region: Sample -> Region, on: set<FeatureType>,
                          sqrt: real -> real): (out: FeatureMap)
    ensures out.Keys == fm.Keys
  {
    if samples == [] then fm
    else
      var last := samples[|samples| - 1];
      Updated(Enrolled(fm, samples[..|samples| - 1], region, on, sqrt), last, region(last), |samples|, on, sqrt)
  }

  /** The values a kind takes over the samples. */
  function Values(samples: seq<Sample>, f: FeatureType, region: Sample -> Region): (vs: seq<real>)
    ensures |vs| == |samples|
  {
    seq(|samples|, i requires 0 <= i < |samples| => samples[i].value(f, region(samples[i])))
  }

  /** Enrolling N samples feeds every enabled kind its N values: its
      statistic is OnlineStat.Feed over them, and the others keep theirs. */
  lemma {:induction false} EnrolledFeeds(fm: FeatureMap, samples: seq<Sample>, region: Sample -> Region,
                                         on: set<FeatureType>, sqrt: real -> real)
    ensures forall f :: f in fm ==>
      Enrolled(fm, samples, region, on, sqrt)[f]
        == if f in on then OnlineStat.Feed(fm[f], Values(samples, f, region), sqrt) else fm[f]
  {
    if samples != [] {
      var front := samples[..|samples| - 1];
      EnrolledFeeds(fm, front, region, on, sqrt);
      forall f | f in fm && f in on
        ensures Values(samples, f, region)[..|samples| - 1] == Values(front, f, region)
      {
      }
    }
  }

  /** So after enrollment an enabled feature holds the mean, population
      variance, minimum and maximum of its values. */
  lemma EnrolledMoments(fm: FeatureMap, samples: seq<Sample>, region: Sample -> Region, on: set<FeatureType>,
                        sqrt: real -> real, f: FeatureType)
    requires samples != [] && f in fm && f in on
    ensures var st := Enrolled(fm, samples, region, on, sqrt)[f];
      var vs := Values(samples, f, region);
      st.mean == OnlineStat.Mean(vs) && st.variance == OnlineStat.PopulationVariance(vs)
      && st.min == OnlineStat.Minimum(vs) && st.max == OnlineStat.Maximum(vs)
  {
    EnrolledFeeds(fm, samples, region, on, sqrt);
    OnlineStat.FeedMoments(fm[f], Values(samples, f, region), sqrt);
  }
}
