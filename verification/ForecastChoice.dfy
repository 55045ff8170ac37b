/** Which model a forecast comes from, and which points and bands it yields, for every length of the history. */
module ForecastChoice {
  import opened Wrappers
  import opened Reals
  import opened Sorting
  import opened Forecast
  import opened ForecastSelection

  // ---------- the candidates ----------

  /** The simple models up to a year, seasonal and damped ones up to two years, the statistical ones from then on. */
  lemma CandidatesByLength(r: Request, m: Model)
    ensures m in CandidateModels(r) <==>
      if |r.values| < 12 then m == MEAN || m == TREND
      else if |r.values| < 24 then m == MEAN || m == SEASONAL || m == DAMPED
      else m == MEAN || m == SEASONAL || m == r.ets || m == r.sarima
  {
  }

  // ---------- the ranking ----------

  /** Less; no score is more than any score. */
  predicate Beats(a: Option<real>, b: Option<real>) { a.Some? && (b.None? || a.value < b.value) }

  /** The order in which models of equal errors are preferred. */
  predicate Preferred(a: ModelName, b: ModelName) {
    match a
    case SeasonalNaive => true
    case DampedTrend => b != SeasonalNaive
    case RecentMean => b != SeasonalNaive && b != DampedTrend
    case RecentTrend => b == RecentTrend || b == Ets || b == Sarima
    case Ets => b == Ets || b == Sarima
    case Sarima => b == Sarima
  }

  function SymmetricError(s: Scored): Option<real> {
    if s.metric.metric.None? then None else Some(s.metric.metric.value.smape)
  }

  function MeanError(s: Scored): Option<real> {
    if s.metric.metric.None? then None else Some(s.metric.metric.value.mae)
  }

  /** At least as good: by symmetric error, at equal ones by mean error, at equal ones by preference. */
  predicate AsGood(a: Scored, b: Scored) {
    || Beats(SymmetricError(a), SymmetricError(b))
    || (SymmetricError(a) == SymmetricError(b) && Beats(MeanError(a), MeanError(b)))
    || (SymmetricError(a) == SymmetricError(b) && MeanError(a) == MeanError(b) && Preferred(a.model.name, b.model.name))
  }

  lemma RanksIsAsGood(a: Scored, b: Scored)
    ensures Ranks(a, b) <==> AsGood(a, b)
  {
  }

  /** The first candidate that is the recent mean. */
  ghost predicate FirstMean(scored: seq<Scored>, i: nat) {
    i < |scored| && scored[i].model.name == RecentMean && forall j :: 0 <= j < i ==> scored[j].model.name != RecentMean
  }

  /** The recent mean stands instead of `best` if it has an error and `best`, another model, has none or one above the share
      that the required improvement leaves of it. */
  ghost predicate MeanStands(scored: seq<Scored>, best: Scored, improvement: real, i: nat) {
    && FirstMean(scored, i) && best.model.name != RecentMean && SymmetricError(scored[i]).Some?
    && (SymmetricError(best).None?
        || SymmetricError(best).value > SymmetricError(scored[i]).value - improvement * SymmetricError(scored[i]).value)
  }

  /** The selected candidate: one as good as all, unless the recent mean stands instead of it. */
  ghost predicate IsSelected(scored: seq<Scored>, improvement: real, chosen: Scored) {
    exists best :: best in scored && (forall other :: other in scored ==> AsGood(best, other))
      && if exists i: nat :: MeanStands(scored, best, improvement, i)
         then exists i: nat :: MeanStands(scored, best, improvement, i) && chosen == scored[i]
         else chosen == best
  }

  lemma {:induction false} MeanIsFirst(scored: seq<Scored>)
    ensures match FindMean(scored)
      case None => forall i: nat :: !FirstMean(scored, i)
      case Some(s) => exists i: nat :: FirstMean(scored, i) && scored[i] == s
  {
    if scored != [] && !scored[0].model.name.RecentMean? {
      var rest := scored[1..];
      MeanIsFirst(rest);
      forall i: nat ensures FirstMean(scored, i) <==> i > 0 && FirstMean(rest, i - 1) { FirstMeanOfRest(scored, i); }
      if FindMean(scored).Some? {
        var i: nat :| FirstMean(rest, i) && rest[i] == FindMean(rest).value;
        assert FirstMean(scored, i + 1) && scored[i + 1] == rest[i];
      }
    } else if scored != [] {
      assert FirstMean(scored, 0);
    }
  }

  lemma FirstMeanOfRest(scored: seq<Scored>, i: nat)
    requires scored != [] && scored[0].model.name != RecentMean
    ensures FirstMean(scored, i) <==> i > 0 && FirstMean(scored[1..], i - 1)
  {
    var rest := scored[1..];
    if i > 0 && FirstMean(rest, i - 1) {
      forall j | 0 <= j < i ensures scored[j].model.name != RecentMean {
        if j > 0 { assert rest[j - 1].model.name != RecentMean; }
      }
    }
    if FirstMean(scored, i) {
      assert i > 0;
      forall j | 0 <= j < i - 1 ensures rest[j].model.name != RecentMean { assert scored[j + 1].model.name != RecentMean; }
    }
  }

  lemma OneFirstMean(scored: seq<Scored>, i: nat, j: nat)
    requires FirstMean(scored, i) && FirstMean(scored, j)
    ensures i == j
  {
  }

  lemma StandsIff(scored: seq<Scored>, best: Scored, improvement: real, i: nat)
    requires FirstMean(scored, i) && FindMean(scored) == Some(scored[i])
    ensures (exists j: nat :: MeanStands(scored, best, improvement, j)) <==>
      && !best.model.name.RecentMean? && Smape(scored[i]).Some?
      && (Smape(best).None? || Smape(best).value > Threshold(scored[i], improvement))
  {
    if Smape(scored[i]).Some? {
      var e := Smape(scored[i]).value;
      assert e * (1.0 - improvement) == e - improvement * e;
      assert MeanStands(scored, best, improvement, i) <==>
        !best.model.name.RecentMean? && (Smape(best).None? || Smape(best).value > Threshold(scored[i], improvement));
    }
    forall j: nat ensures MeanStands(scored, best, improvement, j) ==> j == i {
      if FirstMean(scored, j) { OneFirstMean(scored, i, j); }
    }
  }

  lemma SelectIs(scored: seq<Scored>, improvement: real)
    requires scored != []
    ensures IsSelected(scored, improvement, Select(scored, improvement))
  {
    var best := SortBy(Ranks, scored)[0];
    forall other | other in scored ensures best in scored && AsGood(best, other) {
      BestRanksFirst(scored, other);
      RanksIsAsGood(best, other);
    }
    assert scored[0] in scored;
    MeanIsFirst(scored);
    if FindMean(scored).Some? {
      var i: nat :| FirstMean(scored, i) && scored[i] == FindMean(scored).value;
      StandsIff(scored, best, improvement, i);
      if exists j: nat :: MeanStands(scored, best, improvement, j) {
        var j: nat :| MeanStands(scored, best, improvement, j);
        assert j == i;
      }
    }
  }

  // ---------- the choice ----------

  ghost predicate Scores(r: Request, scored: seq<Scored>) {
    && (forall s :: s in scored ==> s.model in CandidateModels(r) && Backtest(s.model, r.values, r.windows) == Some(s.metric))
    && (forall m :: m in CandidateModels(r) && Backtest(m, r.values, r.windows).Some? ==>
          Scored(m, Backtest(m, r.values, r.windows).value) in scored)
  }

  ghost predicate All(values: seq<real>, n: nat, v: real) { |values| == n && forall i :: 0 <= i < n ==> values[i] == v }

  /** On less than half a year a declared revenue, unless it is zero, and failing that the last month, is repeated within a
      fifth of itself. */
  lemma ShortHistory(r: Request)
    requires |r.values| < 6
    ensures match Choose(r)
      case Failure(error) => r.values == [] && (r.declared.None? || r.declared.value == 0.0)
      case Success(c) =>
        && c.assumed && c.selected.None?
        && var point := if r.declared.Some? && r.declared.value != 0.0 then r.declared else Some(LastOf(r.values));
           All(c.forecasts, r.horizon, point.value) && c.width * 5.0 == point.value
  {
  }

  function LastOf(values: seq<real>): real { if values == [] then 0.0 else values[|values| - 1] }

  /** From half a year on the selected candidate forecasts, within 1.96 of its mean errors, or within 5 % of the mean of the
      whole history if that is nothing. */
  lemma LongHistory(r: Request) returns (scored: seq<Scored>, chosen: Scored)
    requires |r.values| >= 6
    ensures Scores(r, scored) && IsSelected(scored, r.minImprovement, chosen)
    ensures Outcome(r, chosen, Choose(r))
  {
    scored := Successful(CandidateModels(r), r.values, r.windows);
    ScoredCandidates(CandidateModels(r), r.values, r.windows);
    SomeModelIsAlwaysScored(r);
    SelectIs(scored, r.minImprovement);
    chosen := Select(scored, r.minImprovement);
    ChoiceFromScores(r, scored, chosen);
  }

  /** What the chosen candidate makes of the history. */
  ghost predicate Outcome(r: Request, chosen: Scored, result: Result<Choice, Failure>) {
    match result
    case Failure(error) => error == ModelRaised && chosen.model.predict(r.values, r.horizon).None?
    case Success(c) =>
      && chosen.model.predict(r.values, r.horizon) == Some(c.forecasts)
      && !c.assumed && c.selected == Some(chosen.model.name) && WidthIs(r.values, MeanError(chosen), c.width)
  }

  lemma ChoiceFromScores(r: Request, scored: seq<Scored>, chosen: Scored)
    requires r.values != [] && scored != [] && chosen == Select(scored, r.minImprovement)
    ensures Outcome(r, chosen, ChooseFrom(r, scored))
  {
    WidthOf(r.values, MeanError(chosen));
    assert Mae(chosen) == MeanError(chosen);
  }

  predicate WidthIs(values: seq<real>, error: Option<real>, width: real) {
    if error.None? || error.value == 0.0 then Times(width, 20.0 * (|values| as real)) == Sum(values)
    else width == 1.96 * error.value
  }

  lemma WidthOf(values: seq<real>, error: Option<real>)
    requires values != []
    ensures var band := (match error case Some(e) => e case None => 0.0) * 1.96;
      WidthIs(values, error, if band == 0.0 then Mean(values) * 0.05 else band)
  {
    var n := |values| as real;
    var mean := Mean(values);
    assert mean * n == Sum(values);
    TwentyShares(mean, n);
  }

  lemma TwentyShares(mean: real, n: real)
    ensures Times(mean * 0.05, 20.0 * n) == mean * n
  {
  }

  // ---------- the points ----------

  /** Every point is the forecast times the official multiplier of its month, the band as wide on both sides, but never below
      zero. */
  lemma PointsAre(r: Request, choice: Choice, k: nat)
    requires k < |choice.forecasts|
    ensures var p, factor := PointAt(r, choice, k), r.multiplier(r.startMonth + k);
      && p.month == r.startMonth + k
      && p.point == Times(choice.forecasts[k], factor)
      && p.upper - p.point == Times(choice.width, factor)
      && p.lower == if p.upper <= 2.0 * p.point then p.point - (p.upper - p.point) else 0.0
  {
  }
}
