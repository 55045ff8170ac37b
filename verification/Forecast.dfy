/** Backtesting, selection and bands of the baseline forecast (backend/src/forecasting/pipeline.py). */
module Forecast {
  import opened Wrappers
  import opened Reals

  /** A model either fails or forecasts `horizon` values; the last name covers the two foreign statistical models. */
  datatype ModelName = RecentMean | RecentTrend | DampedTrend | SeasonalNaive | Ets | Sarima

  datatype Model = Model(name: ModelName, minHistory: nat, predict: (seq<real>, nat) -> Option<seq<real>>)

  datatype Fold = Fold(actual: real, predicted: real, previous: real)

  datatype Metric = Metric(mae: real, smape: real, directional: real, coverage: real)

  datatype CandidateMetric = CandidateMetric(folds: nat, metric: Option<Metric>)

  function ToReal(n: int): real { n as real }

  // ---------- the closed-form models ----------

  function LastN(values: seq<real>, n: nat): seq<real> {
    if |values| <= n then values else values[|values| - n..]
  }

  function Repeat(value: real, n: nat): seq<real> { seq(n, _ => value) }

  function PredictMean(values: seq<real>, horizon: nat): Option<seq<real>> {
    var window := LastN(values, 6);
    if window == [] then None else Some(Repeat(Max(0.0, Sum(window) / ToReal(|window|)), horizon))
  }

  function Slopes(window: seq<real>): seq<real> {
    if |window| <= 1 then [] else Slopes(window[..|window| - 1]) + [window[|window| - 1] - window[|window| - 2]]
  }

  /** The points of a straight line, cut off at zero. */
  function Line(last: real, slope: real, horizon: nat): (r: seq<real>)
    ensures |r| == horizon && forall k :: 0 <= k < horizon ==> r[k] >= 0.0
  {
    seq(horizon, k requires 0 <= k < horizon => Max(0.0, last + slope * ToReal(k + 1)))
  }

  function PredictTrend(values: seq<real>, horizon: nat): Option<seq<real>> {
    var window := LastN(values, 6);
    if |window| <= 1 then None
    else
      var slope := Sum(Slopes(window)) / ToReal(|window| - 1);
      Some(Line(window[|window| - 1], slope, horizon))
  }

  /** The mean of the slopes of a window telescopes to its end-to-end slope. */
  lemma {:induction false} SlopesTelescope(window: seq<real>)
    requires |window| >= 1
    ensures Sum(Slopes(window)) == window[|window| - 1] - window[0]
    ensures |Slopes(window)| == |window| - 1
  {
    if |window| > 1 {
      var init := window[..|window| - 1];
      SlopesTelescope(init);
      SumAppend(Slopes(init), window[|window| - 1] - window[|window| - 2]);
    }
  }

  function DampingSum(steps: nat): real {
    if steps == 0 then 0.0 else DampingSum(steps - 1) + DampingPower(steps)
  }

  function DampingPower(n: nat): real { if n == 0 then 1.0 else DampingPower(n - 1) * 0.8 }

  /** The mean change a month over a window. */
  function SlopeOf(window: seq<real>): real
    requires window != []
  {
    (window[|window| - 1] - window[0]) / ToReal(if |window| - 1 < 1 then 1 else |window| - 1)
  }

  function DampedPoint(values: seq<real>, step: nat): (point: real)
    requires values != []
    ensures point >= 0.0
  {
    var window := LastN(values, 12);
    Max(0.0, window[|window| - 1] + Times(SlopeOf(window), DampingSum(step)))
  }

  function PredictDamped(values: seq<real>, horizon: nat): Option<seq<real>> {
    if values == [] then None else Some(seq(horizon, k requires 0 <= k < horizon => DampedPoint(values, k + 1)))
  }

  method ComputeDamped(values: seq<real>, horizon: nat) returns (output: seq<real>)
    requires values != []
    ensures Some(output) == PredictDamped(values, horizon)
  {
    output := DampedPath(values, horizon);
    assert output == PredictDamped(values, horizon).value;
  }

  method DampedPath(values: seq<real>, horizon: nat) returns (output: seq<real>)
    requires values != []
    ensures |output| == horizon && forall j :: 0 <= j < horizon ==> output[j] == DampedPoint(values, j + 1)
  {
    var window := LastN(values, 12);
    var slope := SlopeOf(window);
    var cumulative, power := 0.0, 1.0;
    output := [];
    for k := 0 to horizon
      invariant power == DampingPower(k) && cumulative == DampingSum(k)
      invariant |output| == k && forall j :: 0 <= j < k ==> output[j] == DampedPoint(values, j + 1)
    {
      power := power * 0.8;
      cumulative := cumulative + power;
      output := output + [Max(0.0, window[|window| - 1] + Times(slope, cumulative))];
    }
  }

  function PredictSeasonal(values: seq<real>, horizon: nat): Option<seq<real>> {
    if |values| < 12 then None
    else
      var season := values[|values| - 12..];
      Some(seq(horizon, k requires 0 <= k < horizon => Max(0.0, season[k % 12])))
  }

  const MEAN := Model(RecentMean, 2, PredictMean)
  const TREND := Model(RecentTrend, 4, PredictTrend)
  const DAMPED := Model(DampedTrend, 8, PredictDamped)
  const SEASONAL := Model(SeasonalNaive, 12, PredictSeasonal)

  /** A forecast of the requested length without negative values. */
  ghost predicate SoundForecast(r: Option<seq<real>>, horizon: nat) {
    r.Some? ==> |r.value| == horizon && forall i :: 0 <= i < horizon ==> r.value[i] >= 0.0
  }

  ghost predicate SoundModel(m: Model) {
    forall values, horizon :: SoundForecast(m.predict(values, horizon), horizon)
  }

  lemma MeanIsSound(values: seq<real>, horizon: nat)
    ensures SoundForecast(PredictMean(values, horizon), horizon)
  {
  }

  lemma TrendIsSound(values: seq<real>, horizon: nat)
    ensures SoundForecast(PredictTrend(values, horizon), horizon)
  {
  }

  lemma DampedIsSound(values: seq<real>, horizon: nat)
    ensures SoundForecast(PredictDamped(values, horizon), horizon)
  {
  }

  lemma SeasonalIsSound(values: seq<real>, horizon: nat)
    ensures SoundForecast(PredictSeasonal(values, horizon), horizon)
  {
  }

  lemma ClosedFormModelsAreSound()
    ensures SoundModel(MEAN) && SoundModel(TREND) && SoundModel(DAMPED) && SoundModel(SEASONAL)
  {
    assert SoundModel(MEAN) by { forall values, horizon { MeanIsSound(values, horizon); } }
    assert SoundModel(TREND) by { forall values, horizon { TrendIsSound(values, horizon); } }
    assert SoundModel(DAMPED) by { forall values, horizon { DampedIsSound(values, horizon); } }
    assert SoundModel(SEASONAL) by { forall values, horizon { SeasonalIsSound(values, horizon); } }
  }

  // ---------- backtest ----------

  function Start(model: Model, count: nat, windows: int): nat {
    var recent := count - (if windows < 1 then 1 else windows);
    var least := if model.minHistory < 4 then 4 else model.minHistory;
    if recent > least then recent else least
  }

  /** The folds for splits from `start` up to `split`; `None` if some prediction fails. */
  function FoldsUpTo(model: Model, values: seq<real>, start: nat, split: nat): Option<seq<Fold>>
    requires 1 <= start && split <= |values|
    decreases split
  {
    if split <= start then Some([])
    else
      match FoldsUpTo(model, values, start, split - 1)
      case None => None
      case Some(before) =>
        match model.predict(values[..split - 1], 1)
        case None => None
        case Some(predicted) =>
          if predicted == [] then None
          else Some(before + [Fold(values[split - 1], predicted[0], values[split - 2])])
  }

  lemma {:induction false} FailedFoldsPersist(model: Model, values: seq<real>, start: nat, split: nat, count: nat)
    requires 1 <= start && split <= count <= |values| && FoldsUpTo(model, values, start, split).None?
    ensures FoldsUpTo(model, values, start, count).None?
    decreases count
  {
    if split < count { FailedFoldsPersist(model, values, start, split, count - 1); }
  }

  function Error(f: Fold): real { Abs(f.actual - f.predicted) }

  function Errors(folds: seq<Fold>): seq<real> {
    seq(|folds|, i requires 0 <= i < |folds| => Error(folds[i]))
  }

  function SmapeTerm(f: Fold): real {
    var denominator := Abs(f.actual) + Abs(f.predicted);
    if denominator == 0.0 then 0.0 else 2.0 * Error(f) / denominator
  }

  function SmapeTerms(folds: seq<Fold>): seq<real> {
    seq(|folds|, i requires 0 <= i < |folds| => SmapeTerm(folds[i]))
  }

  function Sign(x: real): int { if x > 0.0 then 1 else if x < 0.0 then -1 else 0 }

  predicate DirectionHit(f: Fold) { Sign(f.predicted - f.previous) == Sign(f.actual - f.previous) }

  function Hits(folds: seq<Fold>): nat {
    if folds == [] then 0 else Hits(folds[..|folds| - 1]) + if DirectionHit(folds[|folds| - 1]) then 1 else 0
  }

  function Covered(errors: seq<real>, band: real): nat {
    if errors == [] then 0 else Covered(errors[..|errors| - 1], band) + if errors[|errors| - 1] <= band then 1 else 0
  }

  function Mean(values: seq<real>): real
    requires values != []
  {
    Sum(values) / ToReal(|values|)
  }

  function MetricOf(folds: seq<Fold>): Metric
    requires folds != []
  {
    var mae := Mean(Errors(folds));
    Metric(mae, Mean(SmapeTerms(folds)), ToReal(Hits(folds)) / ToReal(|folds|),
           ToReal(Covered(Errors(folds), mae * 1.96)) / ToReal(|folds|))
  }

  /** `None` when the model raises during the backtest; no metric when the history leaves no fold. */
  function Backtest(model: Model, values: seq<real>, windows: int): Option<CandidateMetric> {
    var start := Start(model, |values|, windows);
    match FoldsUpTo(model, values, start, |values|)
    case None => None
    case Some(folds) => Some(CandidateMetric(|folds|, if folds == [] then None else Some(MetricOf(folds))))
  }

  /** The loop over the splits. */
  method CollectFolds(model: Model, values: seq<real>, start: nat) returns (r: Option<seq<Fold>>, hits: nat)
    requires start >= 1
    ensures r == FoldsUpTo(model, values, start, |values|)
    ensures r.Some? ==> hits == Hits(r.value)
  {
    var folds: seq<Fold> := [];
    hits := 0;
    var split := start;
    while split < |values|
      invariant start <= split && (split <= |values| || split == start)
      invariant split <= |values| ==> FoldsUpTo(model, values, start, split) == Some(folds)
      invariant split == start ==> folds == []
      invariant hits == Hits(folds)
    {
      var predicted := model.predict(values[..split], 1);
      if predicted.None? || predicted.value == [] {
        assert FoldsUpTo(model, values, start, split + 1).None?;
        FailedFoldsPersist(model, values, start, split + 1, |values|);
        return None, hits;
      }
      var fold := Fold(values[split], predicted.value[0], values[split - 1]);
      assert (folds + [fold])[..|folds|] == folds;
      folds := folds + [fold];
      if DirectionHit(fold) { hits := hits + 1; }
      split := split + 1;
    }
    r := Some(folds);
  }

  method ScoreFolds(folds: seq<Fold>, hits: nat) returns (m: Metric)
    requires folds != [] && hits == Hits(folds)
    ensures m == MetricOf(folds)
  {
    var errors := Errors(folds);
    var mae := Mean(errors);
    var terms: seq<real> := [];
    for i := 0 to |folds|
      invariant terms == SmapeTerms(folds)[..i]
    {
      terms := terms + [SmapeTerm(folds[i])];
    }
    assert terms == SmapeTerms(folds);
    var covered := 0;
    for i := 0 to |errors|
      invariant covered == Covered(errors[..i], mae * 1.96)
    {
      assert errors[..i + 1][..i] == errors[..i];
      if errors[i] <= mae * 1.96 { covered := covered + 1; }
    }
    assert errors[..|errors|] == errors;
    m := Metric(mae, Mean(terms), ToReal(hits) / ToReal(|folds|), ToReal(covered) / ToReal(|folds|));
  }

  method ComputeMetric(model: Model, values: seq<real>, windows: int) returns (r: Option<CandidateMetric>)
    ensures r == Backtest(model, values, windows)
  {
    var folds, hits := CollectFolds(model, values, Start(model, |values|, windows));
    if folds.None? { return None; }
    if folds.value == [] { return Some(CandidateMetric(0, None)); }
    var metric := ScoreFolds(folds.value, hits);
    r := Some(CandidateMetric(|folds.value|, Some(metric)));
  }

  // ---------- bounds of the metric ----------

  lemma SmapeTermBounds(f: Fold)
    ensures 0.0 <= SmapeTerm(f) <= 2.0
  {
    var d := Abs(f.actual) + Abs(f.predicted);
    if d > 0.0 {
      QuotientAtMost(2.0 * Error(f), d, 2.0);
      QuotientAtMost(-2.0 * Error(f), d, 0.0);
      QuotientIs(-2.0 * Error(f), d, -(2.0 * Error(f) / d));
    }
  }

  lemma {:induction false} SumBetween(values: seq<real>, low: real, high: real)
    requires forall i :: 0 <= i < |values| ==> low <= values[i] <= high
    ensures ToReal(|values|) * low <= Sum(values) <= ToReal(|values|) * high
  {
    if values != [] {
      SumBetween(values[..|values| - 1], low, high);
      var n := ToReal(|values| - 1);
      assert (n + 1.0) * low == n * low + low && (n + 1.0) * high == n * high + high;
    }
  }

  lemma MeanBetween(values: seq<real>, low: real, high: real)
    requires values != [] && forall i :: 0 <= i < |values| ==> low <= values[i] <= high
    ensures low <= Mean(values) <= high
  {
    SumBetween(values, low, high);
    var n := ToReal(|values|);
    QuotientAtMost(Sum(values), n, high);
    QuotientAtMost(-Sum(values), n, -low);
    QuotientIs(-Sum(values), n, -(Sum(values) / n));
  }

  /** The errors outside a band add up to more than their number of bands. */
  lemma {:induction false} MissesOutweighBand(errors: seq<real>, band: real)
    requires band >= 0.0 && forall i :: 0 <= i < |errors| ==> errors[i] >= 0.0
    ensures Covered(errors, band) <= |errors|
    ensures ToReal(|errors| - Covered(errors, band)) * band <= Sum(errors)
    ensures Covered(errors, band) < |errors| ==> ToReal(|errors| - Covered(errors, band)) * band < Sum(errors)
  {
    if errors != [] {
      MissesOutweighBand(errors[..|errors| - 1], band);
      var misses := ToReal(|errors| - 1 - Covered(errors[..|errors| - 1], band));
      assert (misses + 1.0) * band == misses * band + band;
      assert ToReal(|errors| - Covered(errors, band)) == if errors[|errors| - 1] <= band then misses else misses + 1.0;
    }
  }

  lemma BandCovers(errors: seq<real>, mae: real, band: real)
    requires errors != [] && forall i :: 0 <= i < |errors| ==> errors[i] >= 0.0
    requires mae >= 0.0 && band == mae * 1.96 && Sum(errors) == mae * ToReal(|errors|)
    ensures Covered(errors, band) <= |errors|
    ensures 49.0 * ToReal(Covered(errors, band)) > 24.0 * ToReal(|errors|)
  {
    MissesOutweighBand(errors, band);
    var covered := Covered(errors, band);
    assert ToReal(|errors| - covered) == ToReal(|errors|) - ToReal(covered);
    if covered < |errors| {
      MissCount(ToReal(|errors| - covered), ToReal(|errors|), mae, band, Sum(errors));
    }
  }

  /** Fewer than 25 of 49 errors can exceed 1.96 times their mean. */
  lemma CoverageExceedsBound(errors: seq<real>)
    requires errors != [] && forall i :: 0 <= i < |errors| ==> errors[i] >= 0.0
    ensures 49.0 * ToReal(Covered(errors, Mean(errors) * 1.96)) > 24.0 * ToReal(|errors|)
    ensures Covered(errors, Mean(errors) * 1.96) <= |errors|
  {
    MeanNonNegative(errors);
    BandCovers(errors, Mean(errors), Mean(errors) * 1.96);
  }

  lemma MeanNonNegative(errors: seq<real>)
    requires errors != [] && forall i :: 0 <= i < |errors| ==> errors[i] >= 0.0
    ensures Mean(errors) >= 0.0 && Mean(errors) * ToReal(|errors|) == Sum(errors)
  {
    var n := ToReal(|errors|);
    SumNonNegative(errors);
    QuotientAtMost(-Sum(errors), n, 0.0);
    QuotientIs(-Sum(errors), n, -Mean(errors));
  }

  lemma MissCount(misses: real, n: real, mae: real, band: real, total: real)
    requires misses > 0.0 && n > 0.0 && mae >= 0.0
    requires band == mae * 1.96 && total == mae * n && misses * band < total
    ensures 1.96 * misses < n
  {
    var excess := 1.96 * misses - n;
    assert mae * excess == misses * band - total;
    if excess >= 0.0 { MulNonNegative(mae, excess); }
  }

  lemma {:induction false} HitsAtMost(folds: seq<Fold>)
    ensures Hits(folds) <= |folds|
  {
    if folds != [] { HitsAtMost(folds[..|folds| - 1]); }
  }

  /** For any model and any history with at least one fold, the symmetric error lies in [0, 2], the directional
      accuracy in [0, 1], and the interval coverage above 24/49. */
  lemma MetricBounds(folds: seq<Fold>)
    requires folds != []
    ensures var m := MetricOf(folds);
      && m.mae >= 0.0
      && 0.0 <= m.smape <= 2.0
      && 0.0 <= m.directional <= 1.0
      && 24.0 / 49.0 < m.coverage <= 1.0
  {
    var errors, n := Errors(folds), ToReal(|folds|);
    forall i | 0 <= i < |folds| ensures 0.0 <= SmapeTerms(folds)[i] <= 2.0 { SmapeTermBounds(folds[i]); }
    MeanBetween(SmapeTerms(folds), 0.0, 2.0);
    SumNonNegative(errors);
    QuotientAtMost(-Sum(errors), n, 0.0);
    QuotientIs(-Sum(errors), n, -Mean(errors));
    CoverageExceedsBound(errors);
    FractionBetween(ToReal(Covered(errors, Mean(errors) * 1.96)), n, 24.0 / 49.0);
    HitsAtMost(folds);
    FractionBetween(ToReal(Hits(folds)), n, -1.0);
  }

  lemma FractionBetween(k: real, n: real, low: real)
    requires 0.0 <= k <= n && n > 0.0 && low * n < k
    ensures low < k / n <= 1.0 && 0.0 <= k / n
  {
    QuotientAtMost(k, n, 1.0);
    QuotientAtMost(k, n, low);
    QuotientAtMost(-k, n, 0.0);
    QuotientIs(-k, n, -(k / n));
  }
}
