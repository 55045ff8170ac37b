/** What each closed-form model forecasts, and what a backtest measures. */
module ForecastPoints {
  import opened Wrappers
  import opened Reals
  import opened Forecast

  // ---------- the forecasts ----------

  function Floored(x: real): real { if x < 0.0 then 0.0 else x }

  /** The months that a model looks back on: the last `n`, or as many as there are. */
  function Lookback(values: seq<real>, n: nat): (k: nat)
    ensures k <= |values|
  {
    if |values| < n then |values| else n
  }

  ghost predicate Forecasts(r: Option<seq<real>>, horizon: nat) { r.Some? && |r.value| == horizon }

  /** The recent mean repeats the mean of the last six months, cut off at zero. */
  lemma MeanForecasts(values: seq<real>, horizon: nat)
    ensures PredictMean(values, horizon).None? <==> values == []
    ensures values != [] ==>
      && Forecasts(PredictMean(values, horizon), horizon)
      && var n := Lookback(values, 6);
         forall k :: 0 <= k < horizon ==> PredictMean(values, horizon).value[k] * (n as real) == Floored(Sum(values[|values| - n..]))
  {
    var n := Lookback(values, 6);
    if values != [] {
      var window := values[|values| - n..];
      assert LastN(values, 6) == window;
      FlooredShare(Sum(window), n as real);
    }
  }

  lemma FlooredShare(sum: real, n: real)
    requires n > 0.0
    ensures Max(0.0, sum / n) * n == Floored(sum)
  {
    var q := sum / n;
    assert q * n == sum;
    if q < 0.0 {
      assert sum < 0.0 by { assert (-q) * n > 0.0; }
    } else {
      MulNonNegative(q, n);
    }
  }

  /** `slope` is the mean change a month over the last `n` months. */
  predicate MeanSlope(values: seq<real>, n: nat, slope: real)
    requires 1 <= n <= |values|
  {
    Times(slope, if n == 1 then 1.0 else n as real - 1.0) == values[|values| - 1] - values[|values| - n]
  }

  /** Points that go on from `last` by `slope` a step, cut off at zero. */
  ghost predicate Straight(points: seq<real>, last: real, slope: real) {
    forall k :: 0 <= k < |points| ==> points[k] == Floored(last + Times(slope, (k + 1) as real))
  }

  /** Points that go on from `last` by `slope` times the damped steps, cut off at zero. */
  ghost predicate DampedLine(points: seq<real>, last: real, slope: real) {
    forall k :: 0 <= k < |points| ==> points[k] == Floored(last + Times(slope, Damped(k + 1)))
  }

  lemma QuotientTimes(x: real, d: real)
    requires d != 0.0
    ensures Times(x / d, d) == x
  {
  }

  lemma LineIsStraight(last: real, slope: real, horizon: nat)
    ensures Straight(Line(last, slope, horizon), last, slope)
  {
    var points := Line(last, slope, horizon);
    forall k | 0 <= k < horizon ensures points[k] == Floored(last + Times(slope, (k + 1) as real)) {
      var step := slope * ToReal(k + 1);
      assert points[k] == Max(0.0, last + step);
    }
  }

  lemma TrendSlope(values: seq<real>, n: nat) returns (slope: real)
    requires |values| > 1 && n == Lookback(values, 6)
    ensures MeanSlope(values, n, slope)
    ensures forall horizon :: PredictTrend(values, horizon) == Some(Line(values[|values| - 1], slope, horizon))
  {
    var window := values[|values| - n..];
    assert LastN(values, 6) == window;
    SlopesTelescope(window);
    slope := Sum(Slopes(window)) / ToReal(n - 1);
    QuotientTimes(Sum(Slopes(window)), ToReal(n - 1));
  }

  /** The recent trend goes on from the last month by the mean change of the last six. */
  lemma TrendForecasts(values: seq<real>, horizon: nat) returns (slope: real)
    ensures PredictTrend(values, horizon).None? <==> |values| <= 1
    ensures |values| > 1 ==>
      && Forecasts(PredictTrend(values, horizon), horizon) && MeanSlope(values, Lookback(values, 6), slope)
      && Straight(PredictTrend(values, horizon).value, values[|values| - 1], slope)
  {
    slope := 0.0;
    if |values| > 1 {
      slope := TrendSlope(values, Lookback(values, 6));
      LineIsStraight(values[|values| - 1], slope, horizon);
    } else {
      assert |LastN(values, 6)| <= 1;
    }
  }

  function Power(base: real, n: nat): real { if n == 0 then 1.0 else base * Power(base, n - 1) }

  lemma {:induction false} DampingIs(steps: nat)
    ensures DampingPower(steps) == Power(0.8, steps)
    ensures DampingSum(steps) == 4.0 * (1.0 - Power(0.8, steps))
  {
    if steps > 0 { DampingIs(steps - 1); }
  }

  /** The steps of the damped trend up to the `k`-th: each four fifths of the step before, four in all. */
  function Damped(k: nat): real { 4.0 * (1.0 - Power(0.8, k)) }

  lemma DampedSlope(values: seq<real>, n: nat) returns (slope: real)
    requires values != [] && n == Lookback(values, 12)
    ensures MeanSlope(values, n, slope) && slope == SlopeOf(LastN(values, 12))
  {
    var window := LastN(values, 12);
    assert window == values[|values| - n..];
    slope := SlopeOf(window);
    QuotientTimes(window[n - 1] - window[0], ToReal(if n - 1 < 1 then 1 else n - 1));
  }

  /** The damped trend goes on by the mean change of the last twelve months, damped. */
  lemma DampedForecasts(values: seq<real>, horizon: nat) returns (slope: real)
    ensures PredictDamped(values, horizon).None? <==> values == []
    ensures values != [] ==>
      && Forecasts(PredictDamped(values, horizon), horizon) && MeanSlope(values, Lookback(values, 12), slope)
      && DampedLine(PredictDamped(values, horizon).value, values[|values| - 1], slope)
  {
    slope := 0.0;
    if values != [] {
      slope := DampedSlope(values, Lookback(values, 12));
      forall k | 0 <= k < horizon
        ensures PredictDamped(values, horizon).value[k] == Floored(values[|values| - 1] + Times(slope, Damped(k + 1)))
      {
        var window := LastN(values, 12);
        assert window[|window| - 1] == values[|values| - 1];
        DampingIs(k + 1);
      }
    }
  }

  /** The seasonal model repeats the last twelve months, cut off at zero: every month is the same month a year before. */
  lemma SeasonalForecasts(values: seq<real>, horizon: nat)
    ensures PredictSeasonal(values, horizon).None? <==> |values| < 12
    ensures |values| >= 12 ==> Forecasts(PredictSeasonal(values, horizon), horizon)
    ensures |values| >= 12 ==> forall k :: 0 <= k < horizon && k < 12 ==>
      PredictSeasonal(values, horizon).value[k] == Floored(values[|values| - 12 + k])
    ensures |values| >= 12 ==> forall k :: 12 <= k < horizon ==>
      PredictSeasonal(values, horizon).value[k] == PredictSeasonal(values, horizon).value[k - 12]
  {
    if |values| >= 12 {
      var r := PredictSeasonal(values, horizon).value;
      forall k | 0 <= k < horizon && k < 12 ensures r[k] == Floored(values[|values| - 12 + k]) {
        assert k % 12 == k;
        assert values[|values| - 12..][k] == values[|values| - 12 + k];
      }
      forall k | 12 <= k < horizon ensures r[k] == r[k - 12] {
        assert k % 12 == (k - 12) % 12;
      }
    }
  }

  // ---------- the backtest ----------

  /** The first month that is tested: no earlier than the model's least history, than four, and than the last `windows`. */
  ghost predicate StartsAt(model: Model, count: nat, windows: int, start: int) {
    var last := if windows > 1 then windows else 1;
    && model.minHistory <= start && 4 <= start && count - last <= start
    && (start == model.minHistory || start == 4 || start == count - last)
  }

  /** Month `j` against its prediction from the months before it. */
  ghost predicate FoldAt(model: Model, values: seq<real>, j: nat, f: Fold)
    requires 1 <= j < |values|
  {
    var p := model.predict(values[..j], 1);
    p.Some? && p.value != [] && f == Fold(values[j], p.value[0], values[j - 1])
  }

  ghost predicate FoldsAre(model: Model, values: seq<real>, start: nat, folds: seq<Fold>)
    requires start >= 1
  {
    && |folds| == (if start < |values| then |values| - start else 0)
    && forall i :: 0 <= i < |folds| ==> FoldAt(model, values, start + i, folds[i])
  }

  lemma {:induction false} CollectedFolds(model: Model, values: seq<real>, start: nat, split: nat)
    requires 1 <= start && split <= |values|
    ensures match FoldsUpTo(model, values, start, split)
      case None => exists j :: start <= j < split && (var p := model.predict(values[..j], 1); p.None? || p.value == [])
      case Some(folds) => FoldsAre(model, values[..split], start, folds)
    decreases split
  {
    if split > start {
      CollectedFolds(model, values, start, split - 1);
      if FoldsUpTo(model, values, start, split).Some? {
        var folds := FoldsUpTo(model, values, start, split).value;
        FoldsExtend(model, values, start, split, FoldsUpTo(model, values, start, split - 1).value, folds[|folds| - 1]);
      } else if FoldsUpTo(model, values, start, split - 1).Some? {
        var p := model.predict(values[..split - 1], 1);
        assert p.None? || p.value == [];
      }
    }
  }

  lemma FoldsExtend(model: Model, values: seq<real>, start: nat, split: nat, before: seq<Fold>, f: Fold)
    requires 1 <= start < split <= |values| && FoldsAre(model, values[..split - 1], start, before)
    requires FoldAt(model, values, split - 1, f)
    ensures FoldsAre(model, values[..split], start, before + [f])
  {
    var now, next, folds := values[..split - 1], values[..split], before + [f];
    forall i | 0 <= i < |folds| ensures FoldAt(model, next, start + i, folds[i]) {
      assert next[..start + i] == values[..start + i];
      if i < |before| {
        assert FoldAt(model, now, start + i, before[i]);
        assert now[..start + i] == values[..start + i];
      }
    }
  }

  ghost function Total(folds: seq<Fold>, term: Fold -> real): real {
    if folds == [] then 0.0 else Total(folds[..|folds| - 1], term) + term(folds[|folds| - 1])
  }

  ghost function Tally(folds: seq<Fold>, test: Fold -> bool): nat {
    if folds == [] then 0 else Tally(folds[..|folds| - 1], test) + if test(folds[|folds| - 1]) then 1 else 0
  }

  function Size(x: real): real { if x < 0.0 then -x else x }

  function Gap(f: Fold): real { Size(f.actual - f.predicted) }

  /** Twice the gap as a share of both sizes; nothing between two zeros. */
  function Share(f: Fold): real { if f.actual == 0.0 && f.predicted == 0.0 then 0.0 else 2.0 * Gap(f) / (Size(f.actual) + Size(f.predicted)) }

  /** Both go up from the month before, both go down, or both stay. */
  predicate SameWay(f: Fold) {
    || (f.predicted > f.previous && f.actual > f.previous)
    || (f.predicted < f.previous && f.actual < f.previous)
    || (f.predicted == f.previous && f.actual == f.previous)
  }

  /** The mean error, the mean symmetric error, the share of months in the right direction, and the share of months whose error
      is within 1.96 mean errors. */
  ghost predicate Measures(folds: seq<Fold>, m: Metric) {
    var n := |folds| as real;
    && Times(m.mae, n) == Total(folds, Gap)
    && Times(m.smape, n) == Total(folds, Share)
    && Times(m.directional, n) == Tally(folds, SameWay) as real
    && Times(m.coverage, n) == Inside(folds, m.mae * 1.96) as real
  }

  ghost function Inside(folds: seq<Fold>, band: real): nat {
    if folds == [] then 0 else Inside(folds[..|folds| - 1], band) + if Gap(folds[|folds| - 1]) <= band then 1 else 0
  }

  lemma {:induction false} SumIsTotal(folds: seq<Fold>, terms: seq<real>, term: Fold -> real)
    requires |terms| == |folds| && forall i :: 0 <= i < |folds| ==> terms[i] == term(folds[i])
    ensures Sum(terms) == Total(folds, term)
  {
    if folds != [] {
      SumIsTotal(folds[..|folds| - 1], terms[..|terms| - 1], term);
    }
  }

  lemma {:induction false} HitsAreTally(folds: seq<Fold>)
    ensures Hits(folds) == Tally(folds, SameWay)
  {
    if folds != [] {
      HitsAreTally(folds[..|folds| - 1]);
      assert DirectionHit(folds[|folds| - 1]) == SameWay(folds[|folds| - 1]);
    }
  }

  lemma {:induction false} CoveredIsTally(folds: seq<Fold>, band: real)
    ensures Covered(Errors(folds), band) == Inside(folds, band)
  {
    if folds != [] {
      var init := folds[..|folds| - 1];
      CoveredIsTally(init, band);
      assert Errors(folds)[..|folds| - 1] == Errors(init);
    }
  }

  lemma TermsAgree(f: Fold)
    ensures Error(f) == Gap(f) && SmapeTerm(f) == Share(f)
  {
  }

  lemma MeanTimes(values: seq<real>)
    requires values != []
    ensures Times(Mean(values), ToReal(|values|)) == Sum(values)
  {
    QuotientTimes(Sum(values), ToReal(|values|));
  }

  lemma MeanErrors(folds: seq<Fold>)
    requires folds != []
    ensures Times(Mean(Errors(folds)), |folds| as real) == Total(folds, Gap)
  {
    forall f ensures Error(f) == Gap(f) { TermsAgree(f); }
    SumIsTotal(folds, Errors(folds), Gap);
    MeanTimes(Errors(folds));
  }

  lemma MeanShares(folds: seq<Fold>)
    requires folds != []
    ensures Times(Mean(SmapeTerms(folds)), |folds| as real) == Total(folds, Share)
  {
    forall f ensures SmapeTerm(f) == Share(f) { TermsAgree(f); }
    SumIsTotal(folds, SmapeTerms(folds), Share);
    MeanTimes(SmapeTerms(folds));
  }

  lemma MetricMeasures(folds: seq<Fold>)
    requires folds != []
    ensures Measures(folds, MetricOf(folds))
  {
    MeanErrors(folds);
    MeanShares(folds);
    HitsAreTally(folds);
    CoveredIsTally(folds, Mean(Errors(folds)) * 1.96);
    QuotientTimes(ToReal(Hits(folds)), ToReal(|folds|));
    QuotientTimes(ToReal(Covered(Errors(folds), Mean(Errors(folds)) * 1.96)), ToReal(|folds|));
  }

  /** A backtest fails exactly if a prediction it needs fails, and otherwise measures the tested months. */
  lemma BacktestIs(model: Model, values: seq<real>, windows: int) returns (start: nat)
    ensures StartsAt(model, |values|, windows, start)
    ensures match Backtest(model, values, windows)
      case None => exists j :: start <= j < |values| && (var p := model.predict(values[..j], 1); p.None? || p.value == [])
      case Some(c) => exists folds :: (FoldsAre(model, values, start, folds) && c.folds == |folds|
        && if folds == [] then c.metric.None? else c.metric.Some? && Measures(folds, c.metric.value))
  {
    start := Start(model, |values|, windows);
    CollectedFolds(model, values, start, |values|);
    assert values[..|values|] == values;
    if Backtest(model, values, windows).Some? {
      var folds := FoldsUpTo(model, values, start, |values|).value;
      assert FoldsAre(model, values, start, folds);
      if folds != [] { MetricMeasures(folds); }
    }
  }
}
