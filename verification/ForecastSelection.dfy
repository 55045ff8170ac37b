/** Choosing the forecast model and laying bands around its points (`BaselineForecastPipeline.run`). */
module ForecastSelection {
  import opened Wrappers
  import opened Reals
  import opened Sorting
  import opened Forecast

  datatype Request = Request(
    values: seq<real>,
    declared: Option<real>,
    horizon: nat,
    startMonth: int,
    multiplier: int -> real,
    ets: Model,
    sarima: Model,
    windows: int,
    minImprovement: real)

  datatype Point = Point(month: int, point: real, lower: real, upper: real)

  datatype Failure = InsufficientData | ModelRaised

  datatype Choice = Choice(forecasts: seq<real>, width: real, selected: Option<ModelName>, assumed: bool)

  datatype Scored = Scored(model: Model, metric: CandidateMetric)

  function Priority(name: ModelName): nat {
    match name
    case SeasonalNaive => 0
    case DampedTrend => 1
    case RecentMean => 2
    case RecentTrend => 3
    case Ets => 4
    case Sarima => 5
  }

  function CandidateModels(r: Request): seq<Model> {
    if |r.values| < 12 then [MEAN, TREND]
    else if |r.values| < 24 then [MEAN, SEASONAL, DAMPED]
    else [MEAN, SEASONAL, r.ets, r.sarima]
  }

  function Successful(models: seq<Model>, values: seq<real>, windows: int): seq<Scored> {
    if models == [] then []
    else
      var m := models[|models| - 1];
      Successful(models[..|models| - 1], values, windows)
        + match Backtest(m, values, windows) case None => [] case Some(metric) => [Scored(m, metric)]
  }

  /** A missing score ranks behind every number. */
  predicate AtMost(a: Option<real>, b: Option<real>) { b.None? || (a.Some? && a.value <= b.value) }

  function Smape(s: Scored): Option<real> {
    match s.metric.metric case Some(m) => Some(m.smape) case None => None
  }

  function Mae(s: Scored): Option<real> {
    match s.metric.metric case Some(m) => Some(m.mae) case None => None
  }

  predicate Ranks(a: Scored, b: Scored) {
    if Smape(a) != Smape(b) then AtMost(Smape(a), Smape(b))
    else if Mae(a) != Mae(b) then AtMost(Mae(a), Mae(b))
    else Priority(a.model.name) <= Priority(b.model.name)
  }

  lemma RanksIsTotal()
    ensures TotalPreorder(Ranks)
  {
  }

  function FindMean(scored: seq<Scored>): Option<Scored> {
    if scored == [] then None
    else if scored[0].model.name.RecentMean? then Some(scored[0])
    else FindMean(scored[1..])
  }

  function Threshold(simple: Scored, improvement: real): real
    requires Smape(simple).Some?
  {
    Smape(simple).value * (1.0 - improvement)
  }

  /** The best ranked model, unless it misses the required improvement over the recent mean. */
  function Select(scored: seq<Scored>, improvement: real): Scored
    requires scored != []
  {
    SortPermutes(Ranks, scored);
    var best := SortBy(Ranks, scored)[0];
    match FindMean(scored)
    case None => best
    case Some(simple) =>
      if !best.model.name.RecentMean? && Smape(simple).Some?
         && (Smape(best).None? || Smape(best).value > Threshold(simple, improvement))
      then simple
      else best
  }

  function ChooseFrom(r: Request, scored: seq<Scored>): Result<Choice, Failure>
    requires r.values != []
  {
    if scored == [] then
      match PredictMean(r.values, r.horizon)
      case None => Result.Failure(ModelRaised)
      case Some(forecasts) => Success(Choice(forecasts, if forecasts == [] then 0.0 else forecasts[0] * 0.20, Some(RecentMean), true))
    else
      var chosen := Select(scored, r.minImprovement);
      match chosen.model.predict(r.values, r.horizon)
      case None => Result.Failure(ModelRaised)
      case Some(forecasts) =>
        var width := (match Mae(chosen) case Some(mae) => mae case None => 0.0) * 1.96;
        Success(Choice(forecasts, if width == 0.0 then Mean(r.values) * 0.05 else width, Some(chosen.model.name), false))
  }

  /** A declared revenue of zero counts as undeclared here, and then an empty history raises. */
  function Choose(r: Request): Result<Choice, Failure> {
    if r.values == [] && r.declared.None? then Result.Failure(InsufficientData)
    else if |r.values| < 6 then
      if r.declared.Some? && r.declared.value != 0.0 then
        Success(Choice(Repeat(r.declared.value, r.horizon), r.declared.value * 0.20, None, true))
      else if r.values == [] then Result.Failure(ModelRaised)
      else
        var last := r.values[|r.values| - 1];
        Success(Choice(Repeat(last, r.horizon), last * 0.20, None, true))
    else ChooseFrom(r, Successful(CandidateModels(r), r.values, r.windows))
  }

  function PointAt(r: Request, choice: Choice, k: nat): Point
    requires k < |choice.forecasts|
  {
    var month := r.startMonth + k;
    var factor := r.multiplier(month);
    var point, width := choice.forecasts[k] * factor, choice.width * factor;
    Point(month, point, Max(0.0, point - width), point + width)
  }

  method ScoreCandidates(models: seq<Model>, values: seq<real>, windows: int) returns (scored: seq<Scored>)
    ensures scored == Successful(models, values, windows)
  {
    scored := [];
    for k := 0 to |models|
      invariant scored == Successful(models[..k], values, windows)
    {
      assert models[..k + 1][..k] == models[..k];
      var metric := ComputeMetric(models[k], values, windows);
      if metric.Some? {
        scored := scored + [Scored(models[k], metric.value)];
      }
    }
    assert models[..|models|] == models;
  }

  /** A failing candidate is skipped; the chosen one forecasts the horizon. */
  method ChooseModel(r: Request) returns (choice: Result<Choice, Failure>)
    ensures choice == Choose(r)
  {
    if |r.values| < 6 {
      if r.values == [] && r.declared.None? { return Result.Failure(InsufficientData); }
      if r.declared.Some? && r.declared.value != 0.0 {
        return Success(Choice(Repeat(r.declared.value, r.horizon), r.declared.value * 0.20, None, true));
      }
      if r.values == [] { return Result.Failure(ModelRaised); }
      var last := r.values[|r.values| - 1];
      return Success(Choice(Repeat(last, r.horizon), last * 0.20, None, true));
    }
    var scored := ScoreCandidates(CandidateModels(r), r.values, r.windows);
    choice := ChooseFrom(r, scored);
  }

  method BuildPoints(r: Request, choice: Choice) returns (points: seq<Point>)
    ensures |points| == |choice.forecasts| && forall k :: 0 <= k < |points| ==> points[k] == PointAt(r, choice, k)
  {
    points := [];
    for k := 0 to |choice.forecasts|
      invariant |points| == k && forall j :: 0 <= j < k ==> points[j] == PointAt(r, choice, j)
    {
      points := points + [PointAt(r, choice, k)];
    }
  }

  method RunForecast(r: Request) returns (result: Result<seq<Point>, Failure>)
    ensures Choose(r).Failure? ==> result == Result.Failure(Choose(r).error)
    ensures Choose(r).Success? ==>
      && result.Success? && |result.value| == |Choose(r).value.forecasts|
      && forall k :: 0 <= k < |result.value| ==> result.value[k] == PointAt(r, Choose(r).value, k)
  {
    var choice := ChooseModel(r);
    if choice.Failure? { return Result.Failure(choice.error); }
    var points := BuildPoints(r, choice.value);
    result := Success(points);
  }

  // ---------- when the run raises ----------

  lemma {:induction false} FoldsSucceed(model: Model, values: seq<real>, start: nat, split: nat)
    requires 1 <= start && split <= |values|
    requires forall k :: start <= k < split ==> model.predict(values[..k], 1).Some? && model.predict(values[..k], 1).value != []
    ensures FoldsUpTo(model, values, start, split).Some?
  {
    if split > start {
      FoldsSucceed(model, values, start, split - 1);
      assert model.predict(values[..split - 1], 1).Some?;
    }
  }

  /** The recent mean never fails in the backtest. */
  lemma MeanIsScored(r: Request)
    requires |r.values| >= 6
    ensures Backtest(MEAN, r.values, r.windows).Some?
  {
    var start := Start(MEAN, |r.values|, r.windows);
    forall k | start <= k < |r.values| ensures MEAN.predict(r.values[..k], 1).Some? && MEAN.predict(r.values[..k], 1).value != [] {
      assert LastN(r.values[..k], 6) != [];
      assert PredictMean(r.values[..k], 1).Some?;
      assert |PredictMean(r.values[..k], 1).value| == 1;
    }
    FoldsSucceed(MEAN, r.values, start, |r.values|);
  }

  lemma {:induction false} ScoredCandidates(models: seq<Model>, values: seq<real>, windows: int)
    ensures forall s :: s in Successful(models, values, windows) ==> s.model in models && Backtest(s.model, values, windows) == Some(s.metric)
    ensures forall m :: m in models && Backtest(m, values, windows).Some? ==>
      Scored(m, Backtest(m, values, windows).value) in Successful(models, values, windows)
  {
    if models != [] {
      var init, m := models[..|models| - 1], models[|models| - 1];
      assert models == init + [m];
      ScoredCandidates(init, values, windows);
    }
  }

  /** On six months or more at least the recent mean is scored, so the fallback for failed candidates is dead code. */
  lemma SomeModelIsAlwaysScored(r: Request)
    requires |r.values| >= 6
    ensures Successful(CandidateModels(r), r.values, r.windows) != []
  {
    MeanIsScored(r);
    ScoredCandidates(CandidateModels(r), r.values, r.windows);
    assert CandidateModels(r)[0] == MEAN;
  }

  /** The model that forecasts a history of six months or more. */
  function ChosenModel(r: Request): (model: Model)
    requires |r.values| >= 6
    ensures model in CandidateModels(r)
  {
    SomeModelIsAlwaysScored(r);
    var scored := Successful(CandidateModels(r), r.values, r.windows);
    ScoredCandidates(CandidateModels(r), r.values, r.windows);
    SelectedMeetsImprovement(scored, r.minImprovement);
    Select(scored, r.minImprovement).model
  }

  /** A run raises exactly in two situations: on an empty history when the declared revenue is zero, and on at least
      24 months when a statistical model is selected that fails on the full history. */
  lemma RaisesIff(r: Request)
    ensures Choose(r) == Result.Failure(ModelRaised) <==>
      || (r.values == [] && r.declared == Some(0.0))
      || (|r.values| >= 24 && ChosenModel(r) in {r.ets, r.sarima} && ChosenModel(r).predict(r.values, r.horizon).None?)
    ensures Choose(r) == Result.Failure(InsufficientData) <==> r.values == [] && r.declared.None?
  {
    if |r.values| >= 6 {
      SomeModelIsAlwaysScored(r);
      var chosen := ChosenModel(r);
      assert LastN(r.values, 6) != [] && |LastN(r.values, 6)| > 1;
    }
  }

  lemma OneFold(model: Model, values: seq<real>, predicted: real)
    requires |values| >= 5 && model.minHistory < |values| && model.predict(values[..|values| - 1], 1) == Some([predicted])
    ensures var fold := Fold(values[|values| - 1], predicted, values[|values| - 2]);
      Backtest(model, values, 1) == Some(CandidateMetric(1, Some(MetricOf([fold])))) && MetricOf([fold]).smape == SmapeTerm(fold)
  {
    var n := |values|;
    assert Start(model, n, 1) == n - 1;
    assert FoldsUpTo(model, values, n - 1, n - 1) == Some([]);
    var fold := Fold(values[n - 1], predicted, values[n - 2]);
    assert FoldsUpTo(model, values, n - 1, n) == Some([] + [fold]);
    assert [] + [fold] == [fold];
    SumOfOne(SmapeTerms([fold]));
  }

  lemma SumOfOne(s: seq<real>)
    requires |s| == 1
    ensures Sum(s) == s[0]
  {
    assert s[..0] == [];
  }

  /** 23 months of revenue 1 and one of revenue 2, a model that foresees the last month but fails beyond it, and one
      with too long a history to be tested. */
  function Overfitted(): Request {
    Request(
      Repeat(1.0, 23) + [2.0], None, 1, 0, _ => 1.0,
      Model(Ets, 18, (values: seq<real>, horizon: nat) => if |values| < 24 then Some(Repeat(2.0, horizon)) else None),
      Model(Sarima, 24, (values: seq<real>, horizon: nat) => None),
      1, 0.0)
  }

  lemma {:induction false} SumOfOnes(n: nat)
    ensures Sum(Repeat(1.0, n)) == ToReal(n)
  {
    if n > 0 {
      SumOfOnes(n - 1);
      assert Repeat(1.0, n)[..n - 1] == Repeat(1.0, n - 1);
    }
  }

  lemma OverfittedPredictions()
    ensures var r := Overfitted();
      && MEAN.predict(r.values[..23], 1) == Some([1.0])
      && SEASONAL.predict(r.values[..23], 1) == Some([1.0])
      && r.ets.predict(r.values[..23], 1) == Some([2.0])
  {
    var r := Overfitted();
    assert r.values[..23] == Repeat(1.0, 23);
    assert LastN(r.values[..23], 6) == Repeat(1.0, 6);
    SumOfOnes(6);
    assert PredictMean(r.values[..23], 1).value == [1.0];
    assert PredictSeasonal(r.values[..23], 1).value == [1.0];
    assert Repeat(2.0, 1) == [2.0];
  }

  lemma OverfittedMetric(model: Model, predicted: real, s: Scored)
    requires model.minHistory < 24 && model.predict(Overfitted().values[..23], 1) == Some([predicted])
    requires s.model == model && Backtest(model, Overfitted().values, 1) == Some(s.metric)
    ensures Smape(s) == Some(SmapeTerm(Fold(2.0, predicted, 1.0)))
  {
    OneFold(model, Overfitted().values, predicted);
  }

  lemma OverfittedScores(s: Scored)
    requires var r := Overfitted(); s in Successful(CandidateModels(r), r.values, 1)
    ensures Smape(s) == Some(0.0) ==> s.model == Overfitted().ets
    ensures Smape(s).Some? ==> Smape(s).value >= 0.0
  {
    var r := Overfitted();
    ScoredCandidates(CandidateModels(r), r.values, 1);
    OverfittedPredictions();
    assert SmapeTerm(Fold(2.0, 1.0, 1.0)) == 2.0 / 3.0 && SmapeTerm(Fold(2.0, 2.0, 1.0)) == 0.0;
    if s.model == r.ets {
      OverfittedMetric(r.ets, 2.0, s);
    } else if s.model == MEAN {
      OverfittedMetric(MEAN, 1.0, s);
    } else if s.model == SEASONAL {
      OverfittedMetric(SEASONAL, 1.0, s);
    } else {
      assert s.model == r.sarima;
      assert FoldsUpTo(r.sarima, r.values, 24, 24) == Some([]);
    }
  }

  lemma OverfittedSelection()
    ensures |Overfitted().values| == 24 && ChosenModel(Overfitted()) == Overfitted().ets
  {
    var r := Overfitted();
    OverfittedPredictions();
    OneFold(r.ets, r.values, 2.0);
    ScoredCandidates(CandidateModels(r), r.values, 1);
    assert CandidateModels(r)[2] == r.ets;
    var winner := Scored(r.ets, Backtest(r.ets, r.values, 1).value);
    forall s | s in Successful(CandidateModels(r), r.values, 1) && Smape(s).Some? ensures Smape(s).value >= 0.0 {
      OverfittedScores(s);
    }
    ZeroErrorWins(Successful(CandidateModels(r), r.values, 1), winner);
    OverfittedScores(Select(Successful(CandidateModels(r), r.values, 1), 0.0));
  }

  lemma ZeroErrorWins(scored: seq<Scored>, winner: Scored)
    requires winner in scored && Smape(winner) == Some(0.0)
    requires forall s :: s in scored && Smape(s).Some? ==> Smape(s).value >= 0.0
    ensures Select(scored, 0.0) in scored && Smape(Select(scored, 0.0)) == Some(0.0)
  {
    DefaultSelectionIsBest(scored, winner);
    SelectedMeetsImprovement(scored, 0.0);
  }

  /** A statistical model that did well in the backtest can still make the run raise. */
  lemma SelectedModelCanRaise()
    ensures Choose(Overfitted()) == Result.Failure(ModelRaised)
  {
    OverfittedSelection();
    RaisesIff(Overfitted());
  }

  // ---------- what the selection guarantees ----------

  lemma BestRanksFirst(scored: seq<Scored>, other: Scored)
    requires scored != [] && other in scored
    ensures |SortBy(Ranks, scored)| == |scored|
    ensures SortBy(Ranks, scored)[0] in scored && Ranks(SortBy(Ranks, scored)[0], other)
  {
    RanksIsTotal();
    SortPermutes(Ranks, scored);
    SortSorts(Ranks, scored);
    SortKeepsElements(Ranks, scored);
    var ranked := SortBy(Ranks, scored);
    assert ranked[0] in ranked && other in ranked;
    var i :| 0 <= i < |ranked| && ranked[i] == other;
    if i > 0 { assert Ranks(ranked[0], ranked[i]); }
  }

  lemma {:induction false} MeanIsFound(scored: seq<Scored>)
    ensures FindMean(scored).Some? ==> FindMean(scored).value in scored && FindMean(scored).value.model.name.RecentMean?
    ensures FindMean(scored).None? ==> forall s :: s in scored ==> !s.model.name.RecentMean?
  {
    if scored != [] {
      MeanIsFound(scored[1..]);
      assert scored == [scored[0]] + scored[1..];
    }
  }

  /** Another model than the recent mean is selected only if its error meets the required improvement; the selection
      is one of the candidates that did not fail. */
  lemma SelectedMeetsImprovement(scored: seq<Scored>, improvement: real)
    requires scored != []
    ensures var chosen := Select(scored, improvement);
      && chosen in scored
      && (!chosen.model.name.RecentMean? && FindMean(scored).Some? && Smape(FindMean(scored).value).Some? ==>
            Smape(chosen).Some? && Smape(chosen).value <= Threshold(FindMean(scored).value, improvement))
  {
    assert scored[0] in scored;
    BestRanksFirst(scored, scored[0]);
    MeanIsFound(scored);
  }

  /** Without a required improvement the fallback never triggers: the selected model has the least symmetric error
      of all candidates, and among equals the least mean error. */
  lemma DefaultSelectionIsBest(scored: seq<Scored>, other: Scored)
    requires scored != [] && other in scored
    ensures Select(scored, 0.0) == SortBy(Ranks, scored)[0]
    ensures AtMost(Smape(Select(scored, 0.0)), Smape(other))
    ensures Smape(Select(scored, 0.0)) == Smape(other) ==> AtMost(Mae(Select(scored, 0.0)), Mae(other))
  {
    BestRanksFirst(scored, other);
    MeanIsFound(scored);
    if FindMean(scored).Some? { BestRanksFirst(scored, FindMean(scored).value); }
  }

  ghost predicate SoundRequest(r: Request) {
    && SoundModel(r.ets) && SoundModel(r.sarima)
    && (r.declared.Some? ==> r.declared.value >= 0.0)
    && (forall i :: 0 <= i < |r.values| ==> r.values[i] >= 0.0)
    && forall month :: r.multiplier(month) > 0.0
  }

  lemma {:induction false} ScoredSound(models: seq<Model>, values: seq<real>, windows: int)
    requires forall m :: m in models ==> SoundModel(m)
    ensures forall s :: s in Successful(models, values, windows) ==>
      SoundModel(s.model) && (Mae(s).Some? ==> Mae(s).value >= 0.0)
  {
    if models != [] {
      var m := models[|models| - 1];
      assert m in models;
      ScoredSound(models[..|models| - 1], values, windows);
      var start := Start(m, |values|, windows);
      if FoldsUpTo(m, values, start, |values|).Some? && FoldsUpTo(m, values, start, |values|).value != [] {
        MetricBounds(FoldsUpTo(m, values, start, |values|).value);
      }
    }
  }

  /** The forecast of a sound choice: nonnegative values of the requested length and a nonnegative band width. */
  lemma ChoiceIsSound(r: Request)
    requires SoundRequest(r) && Choose(r).Success?
    ensures var choice := Choose(r).value;
      && |choice.forecasts| == r.horizon && choice.width >= 0.0
      && forall k :: 0 <= k < r.horizon ==> choice.forecasts[k] >= 0.0
  {
    ClosedFormModelsAreSound();
    if |r.values| >= 6 {
      assert SoundForecast(MEAN.predict(r.values, r.horizon), r.horizon);
      SumNonNegative(r.values);
      MeanNonNegative(r.values);
      var scored := Successful(CandidateModels(r), r.values, r.windows);
      ScoredSound(CandidateModels(r), r.values, r.windows);
      if scored != [] {
        SelectedMeetsImprovement(scored, r.minImprovement);
        var chosen := Select(scored, r.minImprovement);
        assert SoundForecast(chosen.model.predict(r.values, r.horizon), r.horizon);
      }
    }
  }

  /** Every band encloses its point and stays nonnegative, and the months are consecutive from the start month. */
  lemma BandsEnclosePoints(r: Request, k: nat)
    requires SoundRequest(r) && Choose(r).Success? && k < r.horizon
    ensures |Choose(r).value.forecasts| == r.horizon
    ensures var p := PointAt(r, Choose(r).value, k);
      p.month == r.startMonth + k && 0.0 <= p.lower <= p.point <= p.upper
  {
    ChoiceIsSound(r);
    BandEncloses(r, Choose(r).value, k);
  }

  lemma BandEncloses(r: Request, choice: Choice, k: nat)
    requires k < |choice.forecasts| && choice.forecasts[k] >= 0.0 && choice.width >= 0.0
    requires r.multiplier(r.startMonth + k) > 0.0
    ensures var p := PointAt(r, choice, k); p.month == r.startMonth + k && 0.0 <= p.lower <= p.point <= p.upper
  {
    MulNonNegative(choice.forecasts[k], r.multiplier(r.startMonth + k));
    MulNonNegative(choice.width, r.multiplier(r.startMonth + k));
  }
}
