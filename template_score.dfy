/** The scoring half of signature/model.go: the per-area-class scores
    scoreBasic, scoreGrid, scoreRow and scoreCol, and the decision
    Score.Check draws from them. */
module TemplateScore {
  import opened Float
  import OnlineStat
  import opened SignatureFeature
  import opened TemplateAreas
  // ---- Scores ----

  /** The IEEE sum of f over a finite set, taken in an unspecified order;
      TotalPick shows that the order does not matter. */
  ghost function Total<K>(s: set<K>, f: K -> Float): Float
    decreases s
  {
    if s == {} then Finite(0.0) else var k :| k in s; Add(f(k), Total(s - {k}, f))
  }

  /** Any element can be taken out of the total first. */
  lemma {:induction false} TotalPick<K>(s: set<K>, f: K -> Float, k: K)
    requires k in s
    ensures Total(s, f) == Add(f(k), Total(s - {k}, f))
    decreases s
  {
    var j :| j in s && Total(s, f) == Add(f(j), Total(s - {j}, f));
    if j != k {
      var rest := s - {j} - {k};
      assert s - {k} - {j} == rest;
      TotalPick(s - {j}, f, k);
      TotalPick(s - {k}, f, j);
      AddAssociates(f(j), f(k), Total(rest, f));
      AddAssociates(f(k), f(j), Total(rest, f));
      AddCommutes(f(j), f(k));
    }
  }

  /** The number of elements of a finite set, counted one at a time like
      Total sums them. */
  ghost function Count<K>(s: set<K>): nat
    decreases s
  {
    if s == {} then 0 else var k :| k in s; 1 + Count(s - {k})
  }

  /** Counting one at a time gives the cardinality. */
  lemma {:induction false} CountIsSize<K>(s: set<K>)
    ensures Count(s) == |s|
    decreases s
  {
    if s != {} {
      var k :| k in s && Count(s) == 1 + Count(s - {k});
      CountIsSize(s - {k});
    }
  }

  /** Adding one element to the set appends its term to the sum. */
  lemma TotalAppend<K>(s: set<K>, f: K -> Float, k: K)
    requires k !in s
    ensures Total(s + {k}, f) == Add(Total(s, f), f(k))
  {
    TotalPick(s + {k}, f, k);
    assert s + {k} - {k} == s;
    AddCommutes(f(k), Total(s, f));
  }

  /** gonum's running sum takes one more element at the end. */
  lemma SumAppend(xs: seq<Float>, x: Float)
    ensures Sum(xs + [x]) == Add(Sum(xs), x)
  {
    assert (xs + [x])[..|xs|] == xs;
  }

  /** Appending a new element's term to a slice that sums to the total
      keeps the two equal. */
  lemma AppendTerm<K>(ss: seq<Float>, done: set<K>, f: K -> Float, k: K, x: Float)
    requires k !in done && Sum(ss) == Total(done, f) && x == f(k)
    ensures Sum(ss + [x]) == Total(done + {k}, f)
    ensures Count(done + {k}) == Count(done) + 1
  {
    SumAppend(ss, x);
    TotalAppend(done, f, k);
    CountIsSize(done + {k});
    CountIsSize(done);
  }

  /** Taking one element out of the keys still to visit adds it to the
      visited enabled keys exactly when it is enabled. */
  lemma TakeOne<K>(all: set<K>, todo: set<K>, on: set<K>, k: K)
    requires todo <= all && k in todo
    ensures k !in (all - todo) * on
    ensures k in on ==> (all - (todo - {k})) * on == (all - todo) * on + {k}
    ensures k !in on ==> (all - (todo - {k})) * on == (all - todo) * on
  {
  }

  /** A run of zeros sums to zero. */
  lemma {:induction false} ZerosSum(n: nat)
    ensures Sum(seq(n, _ => Finite(0.0))) == Finite(0.0)
  {
    if n > 0 {
      ZerosSum(n - 1);
      assert seq(n, _ => Finite(0.0))[..n - 1] == seq(n - 1, _ => Finite(0.0));
    }
  }

  /** |ftr.Score(other)| for the feature of kind f in a template map t and
      a probe map s (NaN for a kind the probe lacks, where Go would fail). */
  function Term(t: FeatureMap, s: FeatureMap, f: FeatureType): Float
  {
    if f in t && f in s then Abs(OnlineStat.ZScore(t[f], s[f])) else NaN
  }

  function BasicTerms(t: FeatureMap, s: FeatureMap): FeatureType -> Float
  {
    f => Term(t, s, f)
  }

  /** The (area, kind) pairs a cell score visits: every enabled kind of
      every area of the template. */
  function Pairs<K>(t: map<K, FeatureMap>, on: set<FeatureType>): set<(K, FeatureType)>
  {
    PairsOf(t, t.Keys, on)
  }

  /** The pairs of the areas in `visited`. */
  function PairsOf<K>(t: map<K, FeatureMap>, visited: set<K>, on: set<FeatureType>): set<(K, FeatureType)>
  {
    set k, f | k in visited && k in t && f in t[k] && f in on :: (k, f)
  }

  /** The pairs of one area k with the given kinds. */
  function Row<K(==)>(k: K, kinds: set<FeatureType>): set<(K, FeatureType)>
  {
    set f | f in kinds :: (k, f)
  }

  /** One step of the inner loop of a cell score: the pair it appends is
      new, and the visited pairs of area k grow by it when it is enabled. */
  lemma InnerStep<K>(t: map<K, FeatureMap>, visited: set<K>, k: K, kinds: set<FeatureType>,
                     on: set<FeatureType>, f: FeatureType)
    requires k in t && k !in visited && kinds <= t[k].Keys && f in kinds
    ensures (k, f) !in PairsOf(t, visited, on) + Row(k, (t[k].Keys - kinds) * on)
    ensures f in on ==> Row(k, (t[k].Keys - (kinds - {f})) * on) == Row(k, (t[k].Keys - kinds) * on) + {(k, f)}
    ensures f !in on ==> Row(k, (t[k].Keys - (kinds - {f})) * on) == Row(k, (t[k].Keys - kinds) * on)
  {
    TakeOne(t[k].Keys, kinds, on, f);
  }

  /** One step of the outer loop: area k's pairs join the visited ones. */
  lemma OuterStep<K>(t: map<K, FeatureMap>, keys: set<K>, k: K, on: set<FeatureType>)
    requires keys <= t.Keys && k in keys
    ensures PairsOf(t, t.Keys - (keys - {k}), on) == PairsOf(t, t.Keys - keys, on) + Row(k, t[k].Keys * on)
  {
  }

  function CellTerms<K>(t: map<K, FeatureMap>, s: map<K, FeatureMap>): ((K, FeatureType)) -> Float
  {
    (p: (K, FeatureType)) => if p.0 in t && p.0 in s then Term(t[p.0], s[p.0], p.1) else NaN
  }

  /** Every enabled feature of the template has a partner in the probe;
      otherwise Go would call Score on a nil feature. */
  predicate BasicCovered(t: FeatureMap, s: FeatureMap, on: set<FeatureType>)
  {
    t.Keys * on <= s.Keys
  }

  predicate CellsCovered<K>(t: map<K, FeatureMap>, s: map<K, FeatureMap>, on: set<FeatureType>)
  {
    forall k, f :: k in t && f in t[k] && f in on ==> k in s && f in s[k]
  }

  /** The score of an area class as the design defines it: the sum of
      |z| over the pairs a score visits, over the number of slots of its
      slice. For basic features the slice holds one |z| per enabled kind
      of the template ... */
  ghost function BasicScore(t: FeatureMap, s: FeatureMap, on: set<FeatureType>): Float
  {
    Quotient(Total(t.Keys * on, BasicTerms(t, s)), |t.Keys * on|)
  }

  /** ... for the cells, one zero per area followed by one |z| per enabled
      (area, kind) pair. */
  ghost function CellScore<K>(t: map<K, FeatureMap>, s: map<K, FeatureMap>, on: set<FeatureType>): Float
  {
    Quotient(Total(Pairs(t, on), CellTerms(t, s)), |t| + |Pairs(t, on)|)
  }

  /** scoreBasic(t, s): the mean of |z| over the template's enabled basic
      features, NaN when there is none. */
  method ScoreBasic(t: FeatureMap, s: FeatureMap, on: set<FeatureType>) returns (z: Float)
    requires BasicCovered(t, s, on)
    ensures z == BasicScore(t, s, on)
  {
    var ss: seq<Float> := [];
    ghost var done: set<FeatureType> := {};
    var kinds := t.Keys;
    while kinds != {}
      invariant kinds <= t.Keys && done == (t.Keys - kinds) * on
      invariant |ss| == Count(done) && Sum(ss) == Total(done, BasicTerms(t, s))
      decreases kinds
    {
      var f :| f in kinds;
      TakeOne(t.Keys, kinds, on, f);
      if f in on {
        var score := Abs(OnlineStat.ZScore(t[f], s[f]));
        AppendTerm(ss, done, BasicTerms(t, s), f, score);
        ss := ss + [score];
        done := done + {f};
      }
      kinds := kinds - {f};
    }
    assert t.Keys - kinds == t.Keys;
    CountIsSize(done);
    z := Mean(ss);
  }

  /** An enabled feature of the template has its partner in the probe. */
  lemma CoveredPartner<K>(t: map<K, FeatureMap>, s: map<K, FeatureMap>, on: set<FeatureType>, k: K, f: FeatureType)
    requires CellsCovered(t, s, on) && k in t && f in t[k] && f in on
    ensures k in s && f in s[k]
  {
  }

  /** The |z| of an enabled pair (k, f) is its term, and appending it to a
      slice that sums to the visited pairs adds the pair. */
  lemma AppendPair<K>(t: map<K, FeatureMap>, s: map<K, FeatureMap>, on: set<FeatureType>, k: K, f: FeatureType,
                      ss: seq<Float>, done: set<(K, FeatureType)>, x: Float)
    requires CellsCovered(t, s, on) && k in t && f in t[k] && f in on && (k, f) !in done
    requires Sum(ss) == Total(done, CellTerms(t, s)) && x == Abs(OnlineStat.ZScore(t[k][f], s[k][f]))
    ensures Sum(ss + [x]) == Total(done + {(k, f)}, CellTerms(t, s))
    ensures Count(done + {(k, f)}) == Count(done) + 1
  {
    CoveredPartner(t, s, on, k, f);
    assert x == CellTerms(t, s)((k, f));
    AppendTerm(ss, done, CellTerms(t, s), (k, f), x);
  }

  /** The inner loop of scoreGrid, scoreRow and scoreCol for one area k
      of the template: |z| is appended for each of its enabled kinds. */
  method AppendAreaScores<K>(t: map<K, FeatureMap>, s: map<K, FeatureMap>, on: set<FeatureType>, k: K,
                             ss: seq<Float>, ghost visited: set<K>) returns (out: seq<Float>)
    requires CellsCovered(t, s, on) && k in t && k !in visited
    requires Sum(ss) == Total(PairsOf(t, visited, on), CellTerms(t, s))
    ensures Sum(out) == Total(PairsOf(t, visited, on) + Row(k, t[k].Keys * on), CellTerms(t, s))
    ensures |out| - |ss| == Count(PairsOf(t, visited, on) + Row(k, t[k].Keys * on)) - Count(PairsOf(t, visited, on))
  {
    out := ss;
    var fm := t[k];
    var kinds := fm.Keys;
    ghost var before := PairsOf(t, visited, on);
    ghost var done := before;
    while kinds != {}
      invariant kinds <= fm.Keys && done == before + Row(k, (fm.Keys - kinds) * on)
      invariant |out| - |ss| == Count(done) - Count(before) && Sum(out) == Total(done, CellTerms(t, s))
      decreases kinds
    {
      var f :| f in kinds;
      InnerStep(t, visited, k, kinds, on, f);
      if f in on {
        CoveredPartner(t, s, on, k, f);
        var score := Abs(OnlineStat.ZScore(fm[f], s[k][f]));
        AppendPair(t, s, on, k, f, out, done, score);
        out := out + [score];
        done := done + {(k, f)};
      }
      kinds := kinds - {f};
    }
    assert fm.Keys - kinds == fm.Keys;
  }

  /** scoreGrid, scoreRow and scoreCol(t, s): the slice starts with one
      zero per area of the template and gets |z| appended for every
      enabled kind of every area, so the mean divides the sum of the |z|
      by the number of areas plus the number of pairs. */
  method ScoreCells<K>(t: map<K, FeatureMap>, s: map<K, FeatureMap>, on: set<FeatureType>) returns (z: Float)
    requires CellsCovered(t, s, on)
    ensures z == CellScore(t, s, on)
  {
    var ss: seq<Float> := seq(|t|, _ => Finite(0.0));
    ZerosSum(|t|);
    ghost var zeros := |ss|;
    var keys := t.Keys;
    while keys != {}
      invariant keys <= t.Keys
      invariant |ss| == zeros + Count(PairsOf(t, t.Keys - keys, on))
      invariant Sum(ss) == Total(PairsOf(t, t.Keys - keys, on), CellTerms(t, s))
      decreases keys
    {
      var k :| k in keys;
      ss := AppendAreaScores(t, s, on, k, ss, t.Keys - keys);
      OuterStep(t, keys, k, on);
      keys := keys - {k};
    }
    assert t.Keys - keys == t.Keys;
    z := Mean(ss);
    CellMean(t, s, on, ss);
  }

  /** The finished slice averages to the cell score. */
  lemma CellMean<K>(t: map<K, FeatureMap>, s: map<K, FeatureMap>, on: set<FeatureType>, ss: seq<Float>)
    requires |ss| == |t| + Count(Pairs(t, on)) && Sum(ss) == Total(Pairs(t, on), CellTerms(t, s))
    ensures Mean(ss) == CellScore(t, s, on)
  {
    CountIsSize(Pairs(t, on));
  }

  /** The pre-filled zeros dilute a cell score: with finite terms it is the
      mean |z| over the visited pairs scaled by pairs / (areas + pairs). */
  lemma CellScoreDiluted(total: real, areas: nat, pairs: nat)
    requires pairs > 0
    ensures Quotient(Finite(total), areas + pairs).Finite?
    ensures Quotient(Finite(total), areas + pairs).r
         == (total / pairs as real) * (pairs as real / (areas + pairs) as real)
  {
    var n := (areas + pairs) as real;
    var p := pairs as real;
    assert (total / p) * (p / n) == total / n;
  }

  /** A cell class with no areas left (all filtered away, or the class
      switched off) scores NaN. One that keeps areas but has no enabled
      kind scores 0 instead, from the zero each area starts with. */
  lemma NothingToScoreIsNaN<K>(t: map<K, FeatureMap>, on: set<FeatureType>, f: ((K, FeatureType)) -> Float)
    requires t == map[]
    ensures Pairs(t, on) == {}
    ensures Quotient(Total(Pairs(t, on), f), |t| + |Pairs(t, on)|) == NaN
  {
    assert Pairs(t, on) == {};
  }

  // ---- The decision ----

  /** The weight of an area: its entry in the weights map, 1.0 when it has
      none (also for a nil map). */
  function Weight(weights: map<AreaType, real>, area: AreaType): (w: real)
    ensures area !in weights ==> w == 1.0
    ensures area in weights ==> w == weights[area]
  {
    if area in weights then weights[area] else 1.0
  }

  /** The decision Check reaches: no area's weighted score reaches t. */
  predicate Accepts(score: map<AreaType, Float>, t: real, weights: map<AreaType, real>)
  {
    forall area :: area in score ==> !AtLeast(Mul(score[area], Weight(weights, area)), t)
  }

  /** Score.Check(t, weights): false as soon as one weighted score reaches
      the threshold, true otherwise. Its error result is always nil and is
      left out. */
  method Check(score: map<AreaType, Float>, t: real, weights: map<AreaType, real>) returns (ok: bool)
    ensures ok <==> Accepts(score, t, weights)
  {
    var areas := score.Keys;
    while areas != {}
      invariant areas <= score.Keys
      invariant forall area :: area in score && area !in areas ==>
        !AtLeast(Mul(score[area], Weight(weights, area)), t)
      decreases |areas|
    {
      var area :| area in areas;
      var weight: real;
      if area in weights {
        weight := weights[area];
      } else {
        weight := 1.0;
      }
      if AtLeast(Mul(score[area], weight), t) {
        return false;
      }
      areas := areas - {area};
    }
    return true;
  }

  /** Raising the threshold never turns an acceptance into a rejection. */
  lemma AcceptsMonotone(score: map<AreaType, Float>, t: real, higher: real, weights: map<AreaType, real>)
    requires Accepts(score, t, weights) && t <= higher
    ensures Accepts(score, higher, weights)
  {
    forall area | area in score
      ensures !AtLeast(Mul(score[area], Weight(weights, area)), higher)
    {
      assert !AtLeast(Mul(score[area], Weight(weights, area)), t);
    }
  }

  /** An area whose score is NaN (nothing left to score, or a zero
      deviation matched exactly) never causes a rejection: Check decides
      as if the area were absent. */
  lemma NaNNeverRejects(score: map<AreaType, Float>, t: real, weights: map<AreaType, real>)
    ensures Accepts(score, t, weights) == Accepts(map a | a in score && score[a] != NaN :: score[a], t, weights)
  {
  }
}
