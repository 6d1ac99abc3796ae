# handauth signature template engine in Dafny

This project models the core of handauth, a handwritten-signature
verifier written in Go. It covers four pieces:

- **The online feature statistic.** Every feature of a signature keeps a
  running mean, population variance, standard deviation, minimum and
  maximum, folded in one enrollment sample at a time (`Feature.Update`).
  A probe is compared with the template by the z-score of its mean
  (`Feature.Score`). The repository carries four copies of this
  recurrence: `signature/features`, the older `features` package (twice)
  and `auth`. Each copy is a class whose `Update` is proved to perform
  the single recurrence `OnlineStat.Step`. The properties of that
  recurrence are proved once: after samples 1..n the statistic holds the
  arithmetic mean, population variance and extremes of the values.
- **The template** (`signature/model.go`). A template keeps one feature
  map per area: the whole signature (basic), every overlapping grid
  field, every row band and every column band.
  - `NewModel` builds the key sets.
  - `Extract` folds a sample into every enabled feature.
  - `AreaFilter` and `StdMeanFilter` delete unreliable areas.
  - `Score` builds a probe, extracts it and averages the absolute
    z-scores per area class.
  - `Score.Check` makes the accept/reject decision.

  Each operation is a function on a `Template` value. A loop method is
  proved equal to that function, and the `Model` class stores the
  method's result in its fields. `Extract` and `AreaFilter` are modelled
  as the code is written: they cut the sample with the grid configuration
  as the code builds it, and they compare with the uint16 areas. Beside
  them, `ExtractedChecked` and `AreaFilteredExact` are the corrected
  variants (see Findings), and lemmas relate the two.
- **The grid geometry** (`samples/grid.go`):
  - overlapping field sizes and strides, and the row and column band
    sizes, in uint16 arithmetic;
  - the panics for grids too fine for the sample, modelled as errors;
  - the rectangles of fields and bands, and `SampleGrid.At`.

  The bands are proved to tile the image and the fields to cover it. With
  the checked configuration, `At` never meets an empty field.
- **The Zhang–Suen deletion tests** (`samples/zhangsuen.go`): the
  neighbourhood read, the transition and background counts, and the two
  sub-iteration conditions of the parallel thinning algorithm (Zhang and
  Suen, Communications of the ACM 27(3), 1984).

The global `AreaFlags` and `FeatureFlags` switches enter as a `Switches`
value (`Defaults` holds the source's settings). Feature value functions
are OpenCV computations, so a sample carries them as an arbitrary
function of feature kind and region. `math.Sqrt` is a parameter
`sqrt`; the soundness results assume `IsSqrt(sqrt)`. Scores use `Float`,
which models IEEE division by zero: a zero deviation gives NaN or
±Inf rather than a precondition.

Files:

- `wrappers.dfy`: `Result`, `Option`.
- `float.dfy`: `Float` and its sum and mean.
- `online_stat.dfy`: the recurrence and its theory.
- `signature_feature.dfy`, `features_feature.dfy`,
  `features_features.dfy`, `auth_features.dfy`: the four feature classes.
- `grid.dfy`, `grid_theory.dfy`: the geometry, what it guarantees, and
  the inputs where the code as written goes wrong.
- `template_areas.dfy`: feature maps, the extraction step and the
  filters, on values.
- `template_score.dfy`: the area scores and `Check`.
- `model.dfy`: the template and the `Model` class.
- `zhangsuen.dfy`: the thinning predicates.

## Model

| member | source | states |
|---|---|---|
| OnlineStat.Step | signature/features/feature.go:61-90 | one Update(value, n): index 1 resets, any other index folds the value in as the n-th sample, the variance taken from the old mean; its meaning is proved in FeedMoments and StepSound |
| OnlineStat.Feed | signature/features/feature.go:61-90 | the statistic after the values were given with indices 1, 2, ..., n, as enrollment calls Update; FeedMoments states what it holds |
| OnlineStat.FirstSampleResets | signature/features/feature.go:67-73 | sample index 1 sets mean = min = max = value and variance = std = 0, whatever the state was before |
| OnlineStat.StepExtremes | signature/features/feature.go:83-88 | for index n >= 2 the extremes only widen and always enclose the value; the new min is the old min or the value, the new max the old max or the value; a value between the old extremes leaves both unchanged |
| OnlineStat.FeedMoments | signature/features/feature.go:67-88 | after values v1..vn fed with indices 1..n, mean is their arithmetic mean, variance their population variance, min and max their extremes |
| OnlineStat.FeedScaled | signature/features/feature.go:75-80 | the running mean times n is the sum of the values, and the running variance is the variance of the sums of values and of squares, for every prefix |
| OnlineStat.FeedWithinExtremes | signature/features/feature.go:83-88 | every fed value lies between the running min and max |
| OnlineStat.FeedSound | signature/features/feature.go:67-88 | with a true square root, the statistic stays sound: min <= mean <= max, variance >= 0, std >= 0 and std * std = variance |
| OnlineStat.FeedBounds | signature/features/feature.go:67-88 | every fed value lies in [min, max], and the statistic is sound |
| OnlineStat.StepSound | signature/features/feature.go:74-88 | one Update step keeps a sound statistic sound, and the first sample makes any statistic sound |
| OnlineStat.IdenticalValues | signature/features/feature.go:67-88 | feeding the same value x n times yields mean = min = max = x and zero variance and std |
| OnlineStat.ZScore | signature/features/feature.go:100-102 | with std != 0 the z-score z satisfies other.mean = mean + z * std; with std = 0 it is NaN exactly when the means agree and ±Inf otherwise |
| Float.Mean | signature/model.go:169 | gonum's stat.Mean: the sum over the count, so NaN for an empty slice (NothingToScoreIsNaN) |
| Float.Mul | signature/model.go:150 | score * weight in IEEE terms: NaN stays NaN, an infinity takes the sign of the weight and becomes NaN at weight 0 |
| Float.AtLeast | signature/model.go:150 | the comparison score >= t for a finite t: false for NaN and -Inf, true for +Inf |
| Float.Div | signature/features/feature.go:100-102 | IEEE division of reals: exact quotient for a non-zero divisor; 0/0 is NaN, x/0 is +Inf or -Inf by the sign of x |
| Float.Abs | signature/model.go:166 | math.Abs keeps NaN, maps both infinities to +Inf, and a finite x to x or -x, never negative |
| Float.AddCommutes | signature/model.go:169 | the model's exact sum is commutative: in the model, the order of a Go map range does not change the total |
| Float.AddAssociates | signature/model.go:169 | the model's exact sum is associative |
| SignatureFeature.Ordinal | signature/features/feature.go:19-37 | the iota index of a feature type is the position of its own name in the String() table |
| SignatureFeature.NamesDistinct | signature/features/feature.go:21-29 | two feature types print the same name, and have the same index, exactly when they are equal |
| SignatureFeature.Feature.constructor | signature/features/feature.go:39-47 | a new feature has its type and value function, and a zero statistic |
| SignatureFeature.Feature.Update | signature/features/feature.go:61-90 | the new statistic is Step(old statistic, value of the sample, n); index 0 is excluded because the source panics; the fed value ends up within [min, max] |
| SignatureFeature.Feature.Value | signature/features/feature.go:92-94 | Value is the running mean |
| SignatureFeature.Feature.Std | signature/features/feature.go:96-98 | Std is the running standard deviation |
| SignatureFeature.Feature.Score | signature/features/feature.go:100-102 | the z-score of other's mean against this feature: finite and other.Value() = mean + z * std when std != 0; NaN, +Inf or -Inf by the sign of the difference when std = 0 |
| FeaturesFeature.AreaOrdinal | features/feature.go:12-28 | the iota index of an area type is the position of its own name in the String() table |
| FeaturesFeature.FeatureOrdinal | features/feature.go:67-83 | the iota index of a feature type is the position of its own name in the String() table |
| FeaturesFeature.AreaName | features/feature.go:14-21 | String() of an area index yields a name exactly for the indices 0..3; any other index panics |
| FeaturesFeature.FeatureName | features/feature.go:69-76 | String() of a feature index yields a name exactly for the indices 0..3 |
| FeaturesFeature.NamesMatchTypes | features/feature.go:12-83 | every declared type has a name, and two types share a name exactly when they are equal |
| FeaturesFeature.Feature.NewLengthFeature | features/feature.go:95-97 | a Length feature with the length function and a zero statistic |
| FeaturesFeature.Feature.NewGradientFeature | features/feature.go:99-101 | a Gradient feature with the gradient function and a zero statistic |
| FeaturesFeature.Feature.NewAspectFeature | features/feature.go:103-105 | an Aspect feature with the aspect function and a zero statistic |
| FeaturesFeature.Feature.NewHOGFeature | features/feature.go:107-109 | a HOG feature with the histogram-of-gradients function and a zero statistic |
| FeaturesFeature.Feature.Update | features/feature.go:123-152 | the same recurrence Step for every index other than 0, which panics; the fed value ends up within [min, max] |
| FeaturesFeature.Feature.Value | features/feature.go:154-156 | Value is the running mean |
| FeaturesFeature.Feature.Std | features/feature.go:158-160 | Std is the running standard deviation |
| FeaturesFeature.Feature.Score | features/feature.go:162-164 | the z-score of other's mean, as in the signature package |
| FeaturesFeatures.Feature.NewFeature | features/features.go:28-30 | the feature keeps the given name and function, with a zero statistic |
| FeaturesFeatures.Feature.Name | features/features.go:36-38 | Name returns the stored name unchanged |
| FeaturesFeatures.Feature.Update | features/features.go:40-64 | index 1 resets, every index other than 0 and 1 takes the incremental branch of Step; the fed value ends up within [min, max] |
| AuthFeatures.Feature.constructor | auth/features.go:19-27 | a feature literal: the name and function given, the statistic zero |
| AuthFeatures.Feature.Update | auth/features.go:33-57 | Mean, Var, Std, Min, Max become Step of the old ones, the variance taken from the old Mean |
| AuthFeatures.LengthGridFeatures.NewLengthGridFeatures | auth/features.go:136-151 | x rows of y cells, every cell and the average {0, 0, MaxFloat64}, with the grid size and stride stored |
| Grid.Wrap16 | samples/grid.go:107-117 | uint16 truncation: identity below 65536, and congruent to its argument modulo 65536 |
| Grid.CeilDiv | samples/grid.go:62-63 | the ceiling of a / b: the least q with a <= q * b |
| Grid.MakeRect | samples/grid.go:119-153 | image.Rect swaps inverted corners and keeps the same corner values |
| Grid.Intersect | samples/grid.go:11-24 | image.Rectangle.Intersect: a pixel is in the result exactly when it is in both, and an empty result is the zero rectangle |
| Grid.Stride | samples/grid.go:63 | the stride is the floor of 0.3 times the field length |
| Grid.CalcOverlappingGridSize | samples/grid.go:61-76 | succeeds exactly when the column guard passes and both field lengths exceed 5; it then returns the ceiling field lengths and their strides; a failing column guard is the first error |
| Grid.FieldLengthIsCeiling | samples/grid.go:62 | the field length is the ceiling of 10 * side / (3n + 7), and exceeds 5 exactly when 2 * side > 3n + 7 |
| Grid.CalcGridSize | samples/grid.go:78-88 | succeeds exactly when rows and cols are positive and each band is at least 4 pixels; the bands are the floors of height / rows and width / cols; a too-thin row band is reported first |
| Grid.NewGridConfigAsWritten | samples/grid.go:90-105 | the configuration as the code builds it: it succeeds exactly when both size computations do, records the sample size and grid, and is well formed |
| Grid.CheckedOverlappingGridSize | samples/grid.go:61-76 | the corrected size computation: both strides leave the last field origin inside the image, field lengths exceed 5, strides lie in 1..field length |
| Grid.CheckedRefines | samples/grid.go:61-76 | wherever the corrected size computation succeeds, the code as written returns the same sizes |
| Grid.NewGridConfig | samples/grid.go:90-105 | the corrected configuration: well formed, every field origin inside the image, and equal to the as-written one wherever it succeeds |
| Grid.FieldLength | samples/grid.go:62 | the field length for n fields on a side, ceil(10 * side / (3n + 7)) taken in uint16; FieldLengthIsCeiling states it |
| Grid.FieldArea | samples/grid.go:107-109 | fieldWidth * fieldHeight taken in uint16: in [0, 65536), and exact when the product fits |
| Grid.RowArea | samples/grid.go:111-113 | width * rowHeight taken in uint16: in [0, 65536), and exact when the product fits |
| Grid.ColArea | samples/grid.go:115-117 | height * colWidth taken in uint16: in [0, 65536), and exact when the product fits |
| Grid.FieldRect | samples/grid.go:119-131 | the rectangle of field (r, c): origin at (c * xStride, r * yStride), one field length wide and high, clipped to the image in the last row and column; FieldsCover and FieldsNonEmpty state what the fields cover |
| Grid.RowRect | samples/grid.go:133-142 | the rectangle of row band r: the full width, rowHeight high, the last band reaching the bottom; RowBandsTile states that the bands tile the image |
| Grid.ColRect | samples/grid.go:144-153 | the rectangle of column band c: the full height, colWidth wide, the last band reaching the right edge; ColBandsTile states the tiling |
| Grid.At | samples/grid.go:11-24 | At panics exactly when the selected field or band is empty; otherwise it returns the part of that rectangle inside the image |
| GridTheory.SpanOf | samples/grid.go:119-153 | the span index of a coordinate lies in 0..n-1 |
| GridTheory.RowBandsTile | samples/grid.go:133-142 | every pixel lies in row band SpanOf(y) and in no other, so the row bands tile the image |
| GridTheory.ColBandsTile | samples/grid.go:144-153 | every pixel lies in column band SpanOf(x) and in no other |
| GridTheory.BandsAt | samples/grid.go:11-24 | no row or column band is empty; At(r, -1) and At(-1, c) return the band whole |
| GridTheory.BandAreas | samples/grid.go:111-117 | every band but the last has exactly width * rowHeight or height * colWidth pixels |
| GridTheory.FieldsCover | samples/grid.go:119-131 | every pixel lies in the field at (SpanOf(y, yStride), SpanOf(x, xStride)), so the fields cover the image |
| GridTheory.FieldsNonEmpty | samples/grid.go:11-24 | with the checked configuration every field is non-empty and At(r, c) returns it whole |
| GridTheory.FieldEmptyOnEdge | samples/grid.go:119-131 | in a well-formed configuration a field is empty exactly when its origin lies on the right or bottom edge of the image |
| GridTheory.FieldAreas | samples/grid.go:107-131 | an inner field has exactly fieldWidth * fieldHeight pixels |
| GridTheory.ColumnGuardAdmitsEmptyField | samples/grid.go:64-66 | the column guard admits 400x384 with 65 columns, and At then panics on the empty last field; the checked configuration refuses it |
| GridTheory.MissingRowGuardAdmitsOutsideField | samples/grid.go:61-76 | with no row-stride guard, 401x400 with 68 rows is admitted, and the last field row lies below the image; the checked configuration refuses it |
| GridTheory.MissingRowGuardFieldsNonEmpty | samples/grid.go:61-76 | with 401x400, 68 rows and 10 columns as written, no field is empty, so At finds every one, including the rows below the image |
| GridTheory.RowAreaWraps | samples/grid.go:111-113 | for a 500x300 sample in 2 rows, RowArea reports 9464 for a band of 75000 pixels |
| ZhangSuen.GetNeighbours | samples/zhangsuen.go:13-62 | the neighbourhood has nine entries |
| ZhangSuen.NeighboursAreReference | samples/zhangsuen.go:13-62 | in an image of two or more rows, the neighbourhood is [centre, N, NE, E, SE, S, SW, W, NW], each set exactly when the pixel is non-zero, out-of-image neighbours unset |
| ZhangSuen.OneRowLosesEastWest | samples/zhangsuen.go:30-51 | in a one-row image E and W are always unset, and the other seven entries follow the reference |
| ZhangSuen.Cycle | samples/zhangsuen.go:71-81 | the cycle n[1..8], n[1] has nine entries and closes on itself |
| ZhangSuen.Transitions | samples/zhangsuen.go:71-81 | the number of set-to-unset steps around the cycle n[1..8], n[1]; TransitionsBounds bounds it |
| ZhangSuen.NonZero | samples/zhangsuen.go:83-91 | the number of unset neighbours n[1..8]; NonZeroIsBackground relates it to the set count |
| ZhangSuen.TransitionsBounds | samples/zhangsuen.go:71-81 | the set-to-unset count around the cycle equals the unset-to-set count and is at most 4 |
| ZhangSuen.NonZeroIsBackground | samples/zhangsuen.go:83-91 | nonZero counts the unset neighbours; with the set count it makes 8, so the 2..6 window is the same on either count |
| ZhangSuen.BasicConditionsExclude | samples/zhangsuen.go:65-69 | a background pixel, an isolated pixel, a line end and an interior pixel never qualify |
| ZhangSuen.BasicConditionsMet | samples/zhangsuen.go:65-69 | the centre is set, 2..6 neighbours are unset and there is one transition; BasicConditionsExclude shows what it refuses |
| ZhangSuen.Step1ConditionsMet | samples/zhangsuen.go:3-6 | the basic conditions, and neither N, E, S nor E, S, W all set |
| ZhangSuen.Step2ConditionsMet | samples/zhangsuen.go:8-11 | the basic conditions, and neither N, E, W nor N, S, W all set |
| ZhangSuen.StepsRemoveBoundaries | samples/zhangsuen.go:3-11 | step 1 deletes exactly the qualifying pixels with E or S unset, or with both N and W unset; step 2 those with N or W unset, or with both E and S unset |
| TemplateAreas.Fresh | signature/model.go:69-106 | a fresh feature map has exactly the given kinds, every statistic zero |
| TemplateAreas.Indices | signature/model.go:36-43 | the keys 0 .. n-1 |
| TemplateAreas.Product | signature/model.go:44-48 | the grid keys are every (row, column) pair |
| TemplateAreas.Updated | signature/model.go:256-260 | extraction changes no kind of a feature map |
| TemplateAreas.AreaUpdated | signature/model.go:264-270 | one area after one sample, defined only where Extract gets through the area (At succeeds and every enabled kind has pixels to measure): an area with an enabled kind is measured on the region found for it, any other area is left alone |
| TemplateAreas.CellsUpdated | signature/model.go:264-286 | extraction adds and removes no area key |
| TemplateAreas.UpdatedUntouched | signature/model.go:256-260 | a feature map with no enabled kind is unchanged, whatever region it would be measured on |
| TemplateAreas.UpdateFeatures | signature/model.go:256-260 | the loop over a feature map runs through exactly when no enabled kind that needs pixels (Gradient, HOG, corners) meets an empty region, their panic; it then updates exactly the enabled kinds with one Step on the region's value |
| TemplateAreas.UpdateArea | signature/model.go:264-270 | the inner loop over one area runs through exactly when the area is inactive, or At finds its region and its enabled kinds can be measured there; it then computes AreaUpdated |
| TemplateAreas.ExtractCells | signature/model.go:264-286 | the loop over an area map runs through exactly when it gets through every area (it stops at At's panic or a value function's), and then updates every area as CellsUpdated does |
| TemplateAreas.LengthAtLeast | signature/model.go:298-317 | the areas AreaFilter keeps, those whose Length mean reaches area * threshold; LengthAtLeastSelects states it |
| TemplateAreas.LengthAtLeastSelects | signature/model.go:298-317 | an area survives the area filter exactly when its Length mean is at least area * threshold, unchanged |
| TemplateAreas.FilterByLength | signature/model.go:298-317 | the deleting loop leaves exactly the areas LengthAtLeast keeps |
| TemplateAreas.Unstable | signature/model.go:327-331 | some enabled feature of the area has std > mean * threshold |
| TemplateAreas.StableOnly | signature/model.go:326-351 | an area survives exactly when no enabled feature has std > mean * threshold; survivors are unchanged |
| TemplateAreas.AnyUnstable | signature/model.go:327-331 | the inner loop with its break finds an enabled feature with std > mean * threshold exactly when there is one |
| TemplateAreas.FilterByStability | signature/model.go:326-351 | the deleting loop leaves exactly the stable areas |
| TemplateAreas.LengthFilterIdempotent | signature/model.go:289-319 | a second area filter with the same thresholds removes nothing |
| TemplateAreas.LengthFilterMonotone | signature/model.go:294-317 | a higher threshold keeps a subset of the areas |
| TemplateAreas.StabilityFilterIdempotent | signature/model.go:321-353 | a second StdMeanFilter with the same threshold removes nothing |
| TemplateAreas.FiltersCommute | signature/model.go:289-353 | the two filters may be applied in either order |
| TemplateAreas.Enrolled | signature/model.go:253-287 | enrolling several samples keeps the kinds of a feature map |
| TemplateAreas.Values | signature/model.go:253-287 | one measured value per enrolled sample |
| TemplateAreas.EnrolledFeeds | signature/model.go:253-287 | enrolling samples 1..n feeds each enabled feature its values in order and leaves the disabled ones untouched |
| TemplateAreas.EnrolledMoments | signature/model.go:253-287 | after enrollment an enabled feature holds the mean, population variance and extremes of its region's values |
| TemplateScore.BasicScore | signature/model.go:157-170 | the mean of \|z\| over the template's enabled basic kinds, as a set sum over their count |
| TemplateScore.CellScore | signature/model.go:172-221 | the sum of \|z\| over every (area, enabled kind) pair over the number of areas plus the number of pairs |
| TemplateScore.ScoreBasic | signature/model.go:157-170 | the mean of \|z\| over the enabled basic features, as a set sum |
| TemplateScore.AppendAreaScores | signature/model.go:174-185 | the inner loop appends one \|z\| per enabled feature of an area |
| TemplateScore.ScoreCells | signature/model.go:172-221 | scoreGrid/Row/Col: the sum of \|z\| over every (area, enabled kind) divided by the number of areas plus the number of pairs, because the slice starts with one zero per area |
| TemplateScore.CellMean | signature/model.go:173-186 | the mean of the pre-filled slice is the cell score |
| TemplateScore.CellScoreDiluted | signature/model.go:173-186 | the cell score is the mean of the pairs scaled down by pairs / (areas + pairs) |
| TemplateScore.NothingToScoreIsNaN | signature/model.go:172-221 | an area class with no areas left scores NaN |
| TemplateScore.Weight | signature/model.go:145-149 | a missing weight, including in a nil map, is 1.0 |
| TemplateScore.Accepts | signature/model.go:142-155 | no area's score times its weight is at least t, in the IEEE sense of AtLeast |
| TemplateScore.Check | signature/model.go:142-155 | Check accepts exactly when no score times its weight is at least t (so a NaN product never rejects) |
| TemplateScore.AcceptsMonotone | signature/model.go:142-155 | raising the threshold never turns an acceptance into a rejection |
| TemplateScore.NaNNeverRejects | signature/model.go:150 | a NaN score never rejects: the decision is that of the scores without it |
| SignatureModel.KeyLists | signature/model.go:33-59 | with no template the keys are exactly 0..rows-1, 0..cols-1 and their product; with a template they are its surviving keys |
| SignatureModel.FreshAreas | signature/model.go:77-106 | a fresh cell feature map under every key |
| SignatureModel.FreshCells | signature/model.go:77-106 | the filling loop builds the fresh area map of the keys |
| SignatureModel.NewTemplate | signature/model.go:32-115 | fresh features under the keys of every enabled area class, the full index sets or the template's survivors, with no configuration yet; NewTemplateShape states its shape |
| SignatureModel.NewTemplateOf | signature/model.go:32-115 | NewModel with newModel computes NewTemplate |
| SignatureModel.NewTemplateShape | signature/model.go:32-115 | a new template is well keyed, every statistic zero; basic holds {Length, Gradient, HOG, Aspect}; disabled classes stay empty; keys are the full index sets or the template's |
| SignatureModel.UpdatedKeyed | signature/model.go:264-286 | an extraction step keeps {Length, HOG, Gradient} in every area |
| SignatureModel.KeyedHasLength | signature/model.go:299 | every area of a well-keyed map has the Length feature AreaFilter reads |
| SignatureModel.FieldsLocated | signature/model.go:267 | with the checked configuration At succeeds on every grid key, on a region with pixels |
| SignatureModel.RowsLocated | signature/model.go:275 | At(r, -1) succeeds on every row key, on a region with pixels |
| SignatureModel.ColsLocated | signature/model.go:283 | At(-1, c) succeeds on every column key, on a region with pixels |
| TemplateAreas.LocatedReached | signature/features/hog.go:15-17 | areas found on regions with pixels never meet the value functions' empty-Mat panic, so Extract gets through them |
| SignatureModel.ExtractedUnder | signature/model.go:253-287 | Extract under a given grid configuration: the basic features first, which panic on an empty sample when Gradient, HOG or corners is on; then a configuration panic; then a panic in an area (At's, or a value function's on an empty copy); or every area measured |
| SignatureModel.Extracted | signature/model.go:253-287 | Extract as written, with the configuration NewSampleGrid builds |
| SignatureModel.ExtractedChecked | samples/grid.go:90-105 | Extract with the corrected configuration, the intended half of the first two findings |
| SignatureModel.ExtractTemplate | signature/model.go:253-287 | Extract's loops compute Extracted |
| SignatureModel.ExtractKeepsShape | signature/model.go:253-287 | under a well-formed configuration for the template's grid, Extract adds and removes no key and keeps the template well keyed, whether or not it succeeds |
| SignatureModel.ExtractOutcome | signature/model.go:253-287 | Extract fails exactly when a pixel-needing basic kind meets an empty sample, the configuration fails, or it cannot get through some grid field (the bands always get through); after the empty sample nothing changed, after a configuration panic only basic, after a panic in an area gridConfig too; otherwise a non-zero gridConfig is recorded |
| SignatureModel.ConfiguredSampleHasPixels | samples/sample.go:60-62 | a sample that a well-formed configuration cuts is not empty, so once NewSampleGrid succeeds the basic loop met no empty-sample panic |
| SignatureModel.CellsActive | signature/model.go:264-270 | an area with the cell kinds is touched by Extract exactly when a cell kind is switched on |
| SignatureModel.FieldsReached | signature/model.go:264-270 | Extract gets through every field exactly when no cell kind is on, or no field fails: a field fails when its rectangle is empty (At's panic) or HOG or Gradient is on and the part inside the image is empty (the panic of histogramOfGradients or gradient) |
| SignatureModel.CellsMeasurable | signature/features/hog.go:15-17 | of the cell kinds HOG and Gradient panic on an empty Mat, Length is taken not to: a cell area can be measured on a region exactly when the region has pixels or both HOG and Gradient are off |
| SignatureModel.ExtractPanicsOnEmptyField | signature/model.go:253-287 | as written, Extract fails exactly when a pixel-needing basic kind meets an empty sample, the configuration panics, or a cell kind is on and some field of the template fails |
| SignatureModel.ExtractCheckedSafe | signature/model.go:253-287 | with the corrected configuration Extract fails exactly when that configuration does, and wherever it accepts, Extract as written gives the same result |
| SignatureModel.FieldsMeasured | signature/model.go:264-270 | with the corrected configuration every field is found and measured on FieldRect of its key |
| SignatureModel.RowsMeasured | signature/model.go:272-278 | every row band is found and measured on RowRect |
| SignatureModel.ColsMeasured | signature/model.go:280-286 | every column band is found and measured on ColRect |
| SignatureModel.ExtractMeasuresRegions | signature/model.go:253-287 | wherever the corrected configuration accepts the sample, Extract as written succeeds and every area's features are one Update step on its own rectangle |
| SignatureModel.ColumnGuardPanicsInExtract | signature/model.go:264-270 | a 10 x 65 template on a 400x384 sample: Extract as written panics in the grid loop (At on field (0, 64)); the corrected Extract refuses the grid size |
| SignatureModel.MissingRowGuardCopiesEmptyField | signature/model.go:264-270 | a 68 x 10 template on a 401x400 sample: At copies the empty zero rectangle for field (67, 0), so Extract as written panics in the grid loop when HOG or Gradient is on (both are by default) and, with both off, succeeds and measures that field on nothing; the corrected Extract refuses the grid size |
| SignatureModel.ExtractFieldOn | signature/model.go:264-270 | with a measurable sample and no failing field, Extract succeeds and each field is measured on the region At returns for it |
| SignatureModel.AreaFilteredWith | signature/model.go:289-319 | AreaFilter with given field, row and column areas: refused before the first extraction, otherwise the areas whose Length mean is below threshold * area are deleted |
| SignatureModel.AreaFiltered | signature/model.go:289-319 | AreaFilter as written, with the uint16 areas FieldArea, RowArea, ColArea |
| SignatureModel.AreaFilteredExact | samples/grid.go:107-117 | AreaFilter with the exact pixel areas, the intended half of the third finding |
| SignatureModel.AreaFilterAgrees | samples/grid.go:107-117 | when no area product passes 65535, the filter as written and the exact one agree |
| SignatureModel.RowAreaWrapKeepsSparseBand | signature/model.go:295-310 | a 2 x 6 grid on a 300x500 sample, threshold 0.02: a row band whose Length mean is 1000 survives AreaFilter as written and is deleted with the exact area |
| SignatureModel.AreaFilterTemplate | signature/model.go:289-319 | AreaFilter's loops compute AreaFiltered |
| SignatureModel.AreaFilterKeepsShape | signature/model.go:289-319 | for any areas, AreaFilter only deletes areas, leaves survivors and the basic map unchanged, keeps the template well keyed, and errs exactly before the first extraction, changing nothing |
| SignatureModel.StdMeanFiltered | signature/model.go:321-353 | StdMeanFilter: refused before the first extraction, otherwise every unstable area is deleted; StdMeanFilterKeepsShape and StableOnly state it |
| SignatureModel.StdMeanFilterTemplate | signature/model.go:321-353 | StdMeanFilter's loops compute StdMeanFiltered |
| SignatureModel.StdMeanFilterKeepsShape | signature/model.go:321-353 | StdMeanFilter only deletes areas, changes no statistic, and errs exactly before the first extraction |
| SignatureModel.Scores | signature/model.go:242-248 | the score map has an entry for exactly the enabled area classes |
| SignatureModel.PickedScores | signature/model.go:223-236 | each area class is scored by its own score function |
| SignatureModel.Probe | signature/model.go:238-240 | the probe Score builds: a new template with this template's keys, extracted from the sample as sample 1 |
| SignatureModel.ProbeKeys | signature/model.go:238-240 | the probe is well keyed and has exactly the template's areas in every enabled class, and the basic kinds |
| SignatureModel.SameKeysCovered | signature/model.go:157-221 | two well-keyed templates with the same areas in every enabled class have a partner for every feature a score reads |
| SignatureModel.ProbeCovered | signature/model.go:238-240 | so every score of the template finds its partner feature in the probe |
| SignatureModel.ScoreAreas | signature/model.go:242-250 | the loop over the area flags computes Scores |
| SignatureModel.Model.NewModel | signature/model.go:32-61 | the new object holds NewTemplate and is well keyed |
| SignatureModel.Model.Extract | signature/model.go:253-287 | the object's new state and result are Extracted (as written) of its old state, and it stays well keyed |
| SignatureModel.Model.AreaFilter | signature/model.go:289-319 | the object's new state and result are AreaFiltered (as written, uint16 areas) of its old state |
| SignatureModel.Model.StdMeanFilter | signature/model.go:321-353 | the object's new state and result are StdMeanFiltered of its old state |
| SignatureModel.Model.Score | signature/model.go:238-251 | the returned pattern is a fresh well-keyed probe extracted from the sample with index 1; the scores are Scores of template and probe; the call fails exactly when the probe's extraction does |

## Left out

- Index 0 in the unguarded copies (features/features.go, auth/features.go)
  divides by zero, giving Inf or NaN statistics. Real numbers cannot hold
  those, so every `Update` requires `n != 0`. The guarded copies panic
  there.
- Floating point in the statistic: IEEE rounding of the mean, the
  variance, `0.3 * w` and the ceiling argument is not modelled. The
  arithmetic is exact over reals and integers: the stride is
  `3 * w / 10` and the field length an exact integer ceiling. Scores do
  model IEEE division by zero (NaN, ±Inf).
- Float.AddAssociates, Float.AddCommutes, TemplateScore.ScoreBasic,
  TemplateScore.ScoreCells: the score path is exact too. The sums of
  |z|, the mean's division and the z-scores are computed over reals, so
  float64 rounding (which makes the Go total depend on the map order)
  and a z-score overflowing to ±Inf are not modelled.
- `math.Sqrt` is a parameter. The soundness results assume it returns
  the non-negative root (`IsSqrt`).
- The OpenCV value functions (length, gradient, aspect, HOG, corners,
  mass centre) and `sample.Update()` preprocessing are not modelled. A
  sample carries the value of each kind on each region as an arbitrary
  function. Only their panic is kept: HOG and corners panic on an empty
  Mat (signature/features/hog.go:15-17, signature/features/corners.go:13-15),
  so the model gives them no value on an empty region.
- SignatureModel.CellsMeasurable, FieldsReached, ExtractPanicsOnEmptyField,
  MissingRowGuardCopiesEmptyField: signature/features/gradient.go and
  signature/features/length.go are not part of this model. Gradient is
  taken to panic on an empty Mat, as both available versions do
  (features/feature.go:174-177, features/gradient.go:13-16). Length is
  taken to have a value there, as the available `length` does
  (features/feature.go:170-172, a non-zero count).
- The region copy in `SampleGrid.At` (gocv `Region`/`CopyTo` under a
  mutex) is not modelled. Only the rectangle selection is.
- Panics (`Update` with index 0, the grid-size checks, `At` on an empty
  rectangle, Gradient, HOG and corners on an empty Mat) are modelled as
  preconditions or `Err` results. Nothing in the program recovers from a
  panic, so the process ends and no state after it is observed. The
  model's error state keeps the basic features updated after a
  configuration panic, and the recorded configuration too after a panic
  in an area. The features a Go loop had already updated before it
  panicked are not part of that state: which ones they are depends on
  the map order. For the same reason At's panic and a value function's
  panic inside the grid loop are one error, `AreaPanic`: which one a run
  meets first depends on the map order.
- A nil Go map is modelled as an empty map; every operation here treats
  the two alike.
- Go map iteration order is not modelled. Loops take keys in an
  arbitrary order and are proved correct for every order. Scores sum
  with an order-independent `Float` addition.
- Aliasing is not modelled. The feature maps of the template are values
  (a statistic per kind) rather than shared `*Feature` pointers; the Go
  code never shares a Feature between maps.
- SignatureModel.Model.FieldsCount, RowsCount, ColsCount: plain readers of
  the map sizes, with no contract.
- TemplateScore.Check: its error result is always nil in the source and
  is not modelled.
- Go `int` overflow on sample indices and band products in `At` is not
  modelled; integers are unbounded.
- The thinning driver that applies the two steps over an image, the
  String/GoString printers, the CLI, the plots, the goroutine fan-out and
  `BasicFeatures.Score`/`Extract` (image loading) are not modelled.
- `LengthGridFeatures.Score` in auth/features.go only panics with "not
  implemented", and its `Extract` has an empty body; neither is modelled.
- SignatureModel.ExtractMeasuresRegions: stated only where the corrected
  configuration accepts the sample; elsewhere Extract as written either
  panics (ExtractPanicsOnEmptyField) or, with HOG and Gradient off, measures fields
  outside the image (MissingRowGuardCopiesEmptyField).

## Findings

| source | as written | input that shows it | evidently intended | confidence | as-written member | corrected member |
|---|---|---|---|---|---|---|
| samples/grid.go:64-66 | the column guard panics only when xs * (cols - 1) > width | height 400, width 384, 10 rows, 65 columns: xs = 6, the last field starts at x = 384 and is empty, so `At` panics | refuse every grid whose last field origin is not inside the image (xs * (cols - 1) < width) | not executed | SignatureModel.ColumnGuardPanicsInExtract | SignatureModel.ExtractedChecked |
| samples/grid.go:61-76 | no row-stride guard at all | height 401, width 400, 68 rows, 10 columns: ys = 6, the last field row starts at y = 402, below the image; `At` copies the empty zero rectangle, so with HOG or Gradient on (both are by default) histogramOfGradients or gradient panics on it, and with both off the field is measured on nothing | the same guard for rows: ys * (rows - 1) < height | not executed | SignatureModel.MissingRowGuardCopiesEmptyField | Grid.NewGridConfig |
| samples/grid.go:111-113 | RowArea multiplies width * rowHeight in uint16 before the float conversion (FieldArea and ColArea likewise) | height 300, width 500, 2 rows: the band has 75000 pixels, RowArea reports 9464, so AreaFilter's limit is far too low | the pixel count of the band, 75000 | not executed | SignatureModel.RowAreaWrapKeepsSparseBand | SignatureModel.AreaFilteredExact |
