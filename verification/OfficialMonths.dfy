/** What a month of official features is, from the observations: the change of each indicator, its projection, and how the
    indicators of a role move the month. */
module OfficialMonths {
  import opened Wrappers
  import opened Keys
  import opened Sorting
  import opened Reals
  import opened EventBridge
  import opened OfficialFeatures

  // ---------- the observations of an indicator ----------

  /** Not later by observation day, then by availability, then by id. */
  predicate NotAfter(a: Observation, b: Observation) {
    if a.observedAt != b.observedAt then a.observedAt < b.observedAt
    else if a.availableAt != b.availableAt then a.availableAt < b.availableAt
    else a.id <= b.id
  }

  /** Exactly the valid observations of the indicator, each as often as it is given, in the order of time. */
  ghost predicate SeriesIs(observations: seq<Observation>, id: Key, s: seq<Observation>) {
    && (forall o :: multiset(s)[o] == if o.quality == Valid && o.indicator == id then multiset(observations)[o] else 0)
    && forall i, j :: 0 <= i < j < |s| ==> NotAfter(s[i], s[j])
  }

  lemma {:induction false} ValidOfCounts(observations: seq<Observation>, id: Key, o: Observation)
    ensures multiset(ValidOf(observations, id))[o] == if o.quality == Valid && o.indicator == id then multiset(observations)[o] else 0
  {
    if observations != [] {
      var first, rest := observations[0], observations[1..];
      assert observations == [first] + rest;
      ValidOfCounts(rest, id, o);
    }
  }

  lemma OlderIsTotal()
    ensures TotalPreorder(OlderObservation)
    ensures forall a, b :: OlderObservation(a, b) <==> NotAfter(a, b)
  {
  }

  lemma SeriesOfIs(observations: seq<Observation>, id: Key)
    ensures SeriesIs(observations, id, SeriesOf(observations, id))
  {
    OlderIsTotal();
    SortSorts(OlderObservation, ValidOf(observations, id));
    SortPermutes(OlderObservation, ValidOf(observations, id));
    forall o ensures multiset(SeriesOf(observations, id))[o] == if o.quality == Valid && o.indicator == id then multiset(observations)[o] else 0 {
      ValidOfCounts(observations, id, o);
    }
  }

  lemma {:induction false} ValidIdsAre(observations: seq<Observation>, id: Key)
    ensures id in ValidIds(observations) <==> exists o :: o in observations && o.quality == Valid && o.indicator == id
  {
    if observations != [] {
      assert observations == [observations[0]] + observations[1..];
      ValidIdsAre(observations[1..], id);
    }
  }

  /** The last two of the series, with the registry's word on the indicator and on the unit of the last. */
  ghost predicate IndicatorIs(observations: seq<Observation>, registry: Registry, x: Indicator) {
    exists s: seq<Observation> :: SeriesIs(observations, x.id, s) && s != []
      && x == Indicator(x.id, registry.roleOf(x.id), registry.isPercent(s[|s| - 1].unit), s[|s| - 1],
                        if |s| == 1 then None else Some(s[|s| - 2]))
  }

  /** One indicator for every id with a valid observation, by ascending id. */
  lemma IndicatorsAre(observations: seq<Observation>, registry: Registry)
    ensures var xs := Indicators(observations, registry);
      && (forall i, j :: 0 <= i < j < |xs| ==> xs[i].id < xs[j].id)
      && (forall i :: 0 <= i < |xs| ==> IndicatorIs(observations, registry, xs[i]))
      && (forall o :: o in observations && o.quality == Valid ==> exists i :: 0 <= i < |xs| && xs[i].id == o.indicator)
  {
    var ids, xs := SortedDistinct(ValidIds(observations)), Indicators(observations, registry);
    SortedDistinctSorts(ValidIds(observations));
    forall i | 0 <= i < |xs| ensures IndicatorIs(observations, registry, xs[i]) && xs[i].id == ids[i] {
      assert ids[i] in ids;
      OneIndicator(observations, ids[i], registry);
    }
    forall o | o in observations && o.quality == Valid ensures exists i :: 0 <= i < |xs| && xs[i].id == o.indicator {
      ValidIdsAre(observations, o.indicator);
      assert o.indicator in ids;
      var i :| 0 <= i < |ids| && ids[i] == o.indicator;
      assert xs[i].id == o.indicator;
    }
  }

  lemma LastTwo(observations: seq<Observation>, registry: Registry, x: Indicator, s: seq<Observation>)
    requires s != [] && SeriesIs(observations, x.id, s)
    requires x.role == registry.roleOf(x.id) && x.percent == registry.isPercent(s[|s| - 1].unit) && x.latest == s[|s| - 1]
    requires x.previous == if |s| >= 2 then Some(s[|s| - 2]) else None
    ensures IndicatorIs(observations, registry, x)
  {
  }

  lemma OneIndicator(observations: seq<Observation>, id: Key, registry: Registry)
    requires id in ValidIds(observations)
    ensures IndicatorIs(observations, registry, IndicatorOf(observations, id, registry)) && IndicatorOf(observations, id, registry).id == id
  {
    var x, s := IndicatorFields(observations, id, registry);
    SeriesOfIs(observations, id);
    LastTwo(observations, registry, x, s);
  }

  lemma IndicatorFields(observations: seq<Observation>, id: Key, registry: Registry) returns (x: Indicator, s: seq<Observation>)
    requires id in ValidIds(observations)
    ensures x == IndicatorOf(observations, id, registry) && s == SeriesOf(observations, id) && s != [] && x.id == id
    ensures x.role == registry.roleOf(id) && x.percent == registry.isPercent(s[|s| - 1].unit) && x.latest == s[|s| - 1]
    ensures x.previous == if |s| >= 2 then Some(s[|s| - 2]) else None
  {
    x, s := IndicatorOf(observations, id, registry), SeriesOf(observations, id);
    ValidOfNonEmpty(observations, id);
    SortPermutes(OlderObservation, ValidOf(observations, id));
  }

  // ---------- the change of an indicator ----------

  /** The value, or the limit on its side if it lies beyond. */
  predicate Limited(v: real, raw: real, limit: real) {
    if raw > limit then v == limit else if raw < -limit then v == -limit else v == raw
  }

  /** How far the indicators of a role may move over the horizon. */
  function LimitOf(role: Role): (limit: real)
    ensures limit > 0.0
  {
    match role
    case ImportedIngredient => 0.12
    case RevenueDemand => 0.1
    case DomesticIngredient => 0.08
    case Unmapped => 0.05
    case InterestRate => 0.02
  }

  function Power(base: real, n: nat): real { if n == 0 then 1.0 else base * Power(base, n - 1) }

  /** The sum of the first `step` powers of 0.65. */
  ghost predicate DecaysTo(step: nat, sum: real) { sum * 0.35 == 1.0 - Power(0.65, step) }

  lemma {:induction false} PowersAgree(n: nat)
    ensures DecayPower(n) == Power(0.65, n)
  {
    if n > 0 { PowersAgree(n - 1); }
  }

  lemma DecaysAsDescribed(step: nat)
    ensures DecaysTo(step, DecayedSum(step))
  {
    PowersAgree(step);
    DecayedSumClosedForm(step);
  }

  function Step(x: Indicator): real { if x.previous.Some? then x.latest.value - x.previous.value.value else 0.0 }

  /** The relative change since the previous observation, none if there is none or it is zero. */
  predicate RelativeIs(x: Indicator, relative: real) {
    if x.previous.None? || x.previous.value.value == 0.0 then relative == 0.0
    else relative * (if x.previous.value.value < 0.0 then -x.previous.value.value else x.previous.value.value) == Step(x)
  }

  /** At most 5 % of change a period, decayed and added up, within the limit of the role. */
  ghost predicate ChangeIs(x: Indicator, sum: real, relative: real, capped: real, cumulative: real) {
    RelativeIs(x, relative) && Limited(capped, relative, 0.05) && Limited(cumulative, capped * sum, LimitOf(x.role))
  }

  lemma LimitedByClip(raw: real, limit: real)
    requires limit > 0.0
    ensures Limited(Clip(raw, -limit, limit), raw, limit)
  {
  }

  lemma LimitsAgree(role: Role)
    ensures HorizonCap(role) == LimitOf(role)
  {
  }

  lemma RelativeAsDescribed(x: Indicator)
    ensures RelativeIs(x, RelativeChange(x))
  {
    if x.previous.Some? && x.previous.value.value != 0.0 {
      var base := Abs(x.previous.value.value);
      assert LevelDelta(x) / base * base == LevelDelta(x);
    }
  }

  lemma ChangesAsDescribed(x: Indicator, step: nat)
    ensures ChangeIs(x, DecayedSum(step), RelativeChange(x), CappedChange(x), Cumulative(x, step))
  {
    LimitsAgree(x.role);
    RelativeAsDescribed(x);
    LimitedByClip(RelativeChange(x), 0.05);
    LimitedByClip(CappedChange(x) * DecayedSum(step), LimitOf(x.role));
  }

  /** A change of level in the unit of a rate: a hundredth of it if the unit is a percentage. */
  function InPoints(x: Indicator, amount: real): real { if x.percent then amount / 100.0 else amount }

  predicate IsRate(x: Indicator) { x.role == InterestRate && x.previous.Some? }

  /** A rate moves by its decayed change of level in points, at most two. */
  ghost predicate RateMoveIs(x: Indicator, sum: real, move: real) { Limited(move, InPoints(x, Step(x) * sum), 0.02) }

  lemma RateMovesAsDescribed(x: Indicator, step: nat)
    ensures RateMoveIs(x, DecayedSum(step), InterestDelta(x, step))
  {
    LimitedByClip(LevelDelta(x) * DecayedSum(step) * (if x.percent then 0.01 else 1.0), 0.02);
  }

  // ---------- what an indicator contributes ----------

  /** The level that a change leads to, never negative. */
  predicate LevelIs(projected: real, level: real) { projected == if level < 0.0 then 0.0 else level }

  /** A rate goes on by its decayed steps, any other level by its cumulative change. */
  ghost predicate LevelReached(x: Indicator, sum: real, cumulative: real, projected: real) {
    LevelIs(projected, if IsRate(x) then x.latest.value + Times(Step(x), sum) else x.latest.value + x.latest.value * cumulative)
  }

  /** A demand or cost indicator contributes its share of the cumulative change, a rate its share of the move, any other nothing. */
  ghost predicate ContributionIs(x: Indicator, sum: real, count: nat, c: Contribution)
    requires count > 0
  {
    && c.indicator == x.id && c.role == x.role && ChangeIs(x, sum, c.relative, c.capped, c.cumulative)
    && LevelReached(x, sum, c.cumulative, c.projected)
    && DeltaIs(x, sum, count as real, c.cumulative, c.delta)
  }

  ghost predicate DeltaIs(x: Indicator, sum: real, count: real, cumulative: real, delta: real) {
    match x.role
    case InterestRate => if x.previous.None? then delta == 0.0 else RateMoveIs(x, sum, delta * count)
    case Unmapped => delta == 0.0
    case _ => delta * count == cumulative
  }

  lemma ShareTimesCount(v: real, n: real)
    requires n > 0.0
    ensures v / n * n == v
  {
  }

  lemma DeltaAsDescribed(x: Indicator, step: nat, count: real, delta: real)
    requires count > 0.0
    requires delta == if IsRelativeRole(x.role) then Cumulative(x, step) / count else if IsRate(x) then InterestDelta(x, step) / count else 0.0
    ensures DeltaIs(x, DecayedSum(step), count, Cumulative(x, step), delta)
  {
    match x.role
    case InterestRate =>
      RateMovesAsDescribed(x, step);
      ShareTimesCount(InterestDelta(x, step), count);
    case Unmapped =>
    case _ => ShareTimesCount(Cumulative(x, step), count);
  }

  lemma ProjectedIs(latest: real, change: real, cumulative: real, rate: bool)
    ensures LevelIs(Projected(latest, change, cumulative, rate), if rate then latest + change else latest + latest * cumulative)
  {
    assert latest * (1.0 + cumulative) == latest + latest * cumulative;
  }

  lemma LevelOfContribution(x: Indicator, step: nat, count: nat)
    requires count > 0
    ensures LevelReached(x, DecayedSum(step), Cumulative(x, step), ContributionOf(x, step, count).projected)
  {
    ProjectedIs(x.latest.value, Times(LevelDelta(x), DecayedSum(step)), Cumulative(x, step), IsRate(x));
  }

  lemma DeltaOfContribution(x: Indicator, step: nat, count: nat)
    requires count > 0
    ensures DeltaIs(x, DecayedSum(step), count as real, Cumulative(x, step), ContributionOf(x, step, count).delta)
  {
    DeltaAsDescribed(x, step, count as real, ContributionOf(x, step, count).delta);
  }

  lemma ContributesAsDescribed(x: Indicator, step: nat, count: nat)
    requires count > 0
    ensures ContributionIs(x, DecayedSum(step), count, ContributionOf(x, step, count))
  {
    ChangesAsDescribed(x, step);
    LevelOfContribution(x, step, count);
    DeltaOfContribution(x, step, count);
  }

  ghost function CountOf(xs: seq<Indicator>, role: Role): nat {
    if xs == [] then 0 else CountOf(xs[1..], role) + if xs[0].role == role then 1 else 0
  }

  lemma {:induction false} CountConcat(xs: seq<Indicator>, ys: seq<Indicator>, role: Role)
    ensures CountOf(xs + ys, role) == CountOf(xs, role) + CountOf(ys, role)
  {
    if xs == [] {
      assert xs + ys == ys;
    } else {
      assert (xs + ys)[1..] == xs[1..] + ys;
      CountConcat(xs[1..], ys, role);
    }
  }

  lemma {:induction false} CountsAgree(xs: seq<Indicator>, role: Role)
    ensures RoleCount(xs, role) == CountOf(xs, role)
  {
    if xs != [] {
      var init, last := xs[..|xs| - 1], xs[|xs| - 1];
      assert xs == init + [last];
      CountsAgree(init, role);
      CountConcat(init, [last], role);
      assert [last][1..] == [];
    }
  }

  lemma {:induction false} SomeOfRole(xs: seq<Indicator>, i: nat)
    requires i < |xs|
    ensures CountOf(xs, xs[i].role) > 0
  {
    if i > 0 { SomeOfRole(xs[1..], i - 1); }
  }

  /** One contribution an indicator, in their order, each shared among the indicators of its role. */
  lemma ContributionsAre(xs: seq<Indicator>, step: nat) returns (sum: real)
    ensures DecaysTo(step, sum) && |MonthAt(xs, step).contributions| == |xs|
    ensures forall i :: 0 <= i < |xs| ==>
      CountOf(xs, xs[i].role) > 0 && ContributionIs(xs[i], sum, CountOf(xs, xs[i].role), MonthAt(xs, step).contributions[i])
  {
    sum := DecayedSum(step);
    DecaysAsDescribed(step);
    forall i | 0 <= i < |xs|
      ensures CountOf(xs, xs[i].role) > 0 && ContributionIs(xs[i], sum, CountOf(xs, xs[i].role), MonthAt(xs, step).contributions[i])
    {
      CountsAgree(xs, xs[i].role);
      SomeOfRole(xs, i);
      ContributesAsDescribed(xs[i], step, RoleCount(xs, xs[i].role));
    }
  }

  // ---------- how the contributions move the month ----------

  /** What the contributions of a role add up to. */
  ghost function MovedBy(cs: seq<Contribution>, role: Role): real {
    if cs == [] then 0.0 else MovedBy(cs[..|cs| - 1], role) + if cs[|cs| - 1].role == role then cs[|cs| - 1].delta else 0.0
  }

  lemma {:induction false} MovedIsContributed(xs: seq<Indicator>, n: nat, role: Role, step: nat)
    requires n <= |xs|
    ensures MovedBy(Contributions(xs, step)[..n], role) == ContributedBy(xs, n, role, step)
  {
    if n > 0 {
      var cs := Contributions(xs, step);
      MovedIsContributed(xs, n - 1, role, step);
      assert cs[..n][..n - 1] == cs[..n - 1];
    }
  }

  lemma MovedIsAverage(xs: seq<Indicator>, role: Role, step: nat)
    requires IsRelativeRole(role)
    ensures MovedBy(MonthAt(xs, step).contributions, role) == Average(RoleChanges(xs, role, step))
  {
    var cs := Contributions(xs, step);
    MovedIsContributed(xs, |xs|, role, step);
    ContributionsSumToAverage(xs, role, step);
    assert cs[..|xs|] == cs;
  }

  /** Demand, domestic and imported cost multipliers are one plus what the contributions of their role add up to, and the
      multiplier of all ingredients weighs the two costs by how many indicators each has. */
  lemma MultipliersAre(xs: seq<Indicator>, step: nat)
    ensures var m := MonthAt(xs, step);
      && m.revenueMultiplier == 1.0 + MovedBy(m.contributions, RevenueDemand)
      && m.domesticMultiplier == 1.0 + MovedBy(m.contributions, DomesticIngredient)
      && m.importedMultiplier == 1.0 + MovedBy(m.contributions, ImportedIngredient)
    ensures var m, d, i := MonthAt(xs, step), CountOf(xs, DomesticIngredient) as real, CountOf(xs, ImportedIngredient) as real;
      if d + i == 0.0 then m.ingredientMultiplier == 1.0
      else Times(m.ingredientMultiplier - 1.0, d + i) == Times(m.domesticMultiplier - 1.0, d) + Times(m.importedMultiplier - 1.0, i)
  {
    FinalClipsNeverBind(xs, step);
    MovedIsAverage(xs, RevenueDemand, step);
    MovedIsAverage(xs, DomesticIngredient, step);
    MovedIsAverage(xs, ImportedIngredient, step);
    RoleChangesWithin(xs, DomesticIngredient, step);
    RoleChangesWithin(xs, ImportedIngredient, step);
    CountsAgree(xs, DomesticIngredient);
    CountsAgree(xs, ImportedIngredient);
    Pooled(RoleChanges(xs, DomesticIngredient, step), RoleChanges(xs, ImportedIngredient, step));
  }

  lemma {:induction false} SumConcat(a: seq<real>, b: seq<real>)
    ensures Sum(a + b) == Sum(a) + Sum(b)
  {
    if b == [] {
      assert a + b == a;
    } else {
      SumConcat(a, b[..|b| - 1]);
      assert (a + b)[..|a + b| - 1] == a + b[..|b| - 1];
    }
  }

  lemma AverageTimesCount(a: seq<real>)
    ensures Times(Average(a), |a| as real) == Sum(a)
  {
    if a != [] { ShareTimesCount(Sum(a), |a| as real); }
  }

  lemma Pooled(a: seq<real>, b: seq<real>)
    ensures Times(Average(a + b), (|a| + |b|) as real) == Times(Average(a), |a| as real) + Times(Average(b), |b| as real)
  {
    SumConcat(a, b);
    AverageTimesCount(a);
    AverageTimesCount(b);
    AverageTimesCount(a + b);
  }

  /** The rate indicators that have a previous observation. */
  ghost function Moving(xs: seq<Indicator>): nat {
    if xs == [] then 0 else Moving(xs[..|xs| - 1]) + if IsRate(xs[|xs| - 1]) then 1 else 0
  }

  lemma RateSumNext(sum: real, share: real, move: real, count: real, total: real)
    requires count > 0.0 && share == move / count && Times(sum, count) == total
    ensures Times(sum + share, count) == total + move
  {
    TimesSum(sum, share, count);
    ShareTimesCount(move, count);
  }

  lemma {:induction false} MovingCount(xs: seq<Indicator>, step: nat)
    ensures |InterestDeltas(xs, step)| == Moving(xs)
  {
    if xs != [] { MovingCount(xs[..|xs| - 1], step); }
  }

  lemma InterestNext(xs: seq<Indicator>, x: Indicator, step: nat)
    ensures Sum(InterestDeltas(xs + [x], step)) == Sum(InterestDeltas(xs, step)) + if IsRate(x) then InterestDelta(x, step) else 0.0
  {
    assert (xs + [x])[..|xs|] == xs;
    SumAppend(InterestDeltas(xs, step), InterestDelta(x, step));
    assert InterestDeltas(xs, step) + [] == InterestDeltas(xs, step);
  }

  lemma {:induction false} RateContributions(xs: seq<Indicator>, n: nat, step: nat)
    requires n <= |xs| && RoleCount(xs, InterestRate) > 0
    ensures Times(ContributedBy(xs, n, InterestRate, step), RoleCount(xs, InterestRate) as real) == Sum(InterestDeltas(xs[..n], step))
  {
    if n > 0 {
      var count, x := RoleCount(xs, InterestRate) as real, xs[n - 1];
      RateContributions(xs, n - 1, step);
      assert xs[..n] == xs[..n - 1] + [x];
      RateContribution(xs, n, step);
      InterestNext(xs[..n - 1], x, step);
      if IsRate(x) {
        RateSumNext(ContributedBy(xs, n - 1, InterestRate, step), InterestDelta(x, step) / count, InterestDelta(x, step), count,
          Sum(InterestDeltas(xs[..n - 1], step)));
      }
    }
  }

  lemma RateContribution(xs: seq<Indicator>, n: nat, step: nat)
    requires 0 < n <= |xs| && RoleCount(xs, InterestRate) > 0
    ensures ContributedBy(xs, n, InterestRate, step) == ContributedBy(xs, n - 1, InterestRate, step)
      + if IsRate(xs[n - 1]) then InterestDelta(xs[n - 1], step) / (RoleCount(xs, InterestRate) as real) else 0.0
  {
    assert Contributions(xs, step)[n - 1].role == xs[n - 1].role;
  }

  /** The rate change of the month averages over the rate indicators that have a previous observation, the contributions
      share among all of them: so the two agree exactly when the change is zero or none lacks one. */
  lemma InterestIsAverage(xs: seq<Indicator>, step: nat)
    ensures var m, all, moving := MonthAt(xs, step), CountOf(xs, InterestRate) as real, Moving(xs) as real;
      && (moving == 0.0 ==> m.interestDelta == 0.0)
      && Times(m.interestDelta, moving) == Times(MovedBy(m.contributions, InterestRate), all)
      && (m.interestDelta == MovedBy(m.contributions, InterestRate) <==> m.interestDelta == 0.0 || Moving(xs) == CountOf(xs, InterestRate))
  {
    var m := MonthAt(xs, step);
    var cs := Contributions(xs, step);
    MovedIsContributed(xs, |xs|, InterestRate, step);
    assert cs[..|xs|] == cs && xs[..|xs|] == xs;
    MovingAtMost(xs);
    CountsAgree(xs, InterestRate);
    if CountOf(xs, InterestRate) == 0 {
      NoContribution(xs, |xs|, InterestRate, step);
      NoRates(xs, step);
    } else {
      RateContributions(xs, |xs|, step);
      MovingCount(xs, step);
      AverageTimesCount(InterestDeltas(xs, step));
      SharesAgree(m.interestDelta, MovedBy(m.contributions, InterestRate), Moving(xs) as real, CountOf(xs, InterestRate) as real);
    }
  }

  lemma SharesAgree(v: real, w: real, m: real, n: real)
    requires 0.0 <= m <= n && n > 0.0 && Times(v, m) == Times(w, n) && (m == 0.0 ==> v == 0.0)
    ensures v == w <==> v == 0.0 || m == n
  {
    if v == w { assert v * (n - m) == 0.0; }
    if v == 0.0 { assert w * n == 0.0; }
    if m == n { assert (v - w) * n == 0.0; }
  }

  lemma {:induction false} MovingAtMost(xs: seq<Indicator>)
    ensures Moving(xs) <= RoleCount(xs, InterestRate)
  {
    if xs != [] { MovingAtMost(xs[..|xs| - 1]); }
  }

  lemma {:induction false} NoRates(xs: seq<Indicator>, step: nat)
    requires RoleCount(xs, InterestRate) == 0
    ensures InterestDeltas(xs, step) == []
  {
    if xs != [] { NoRates(xs[..|xs| - 1], step); }
  }
}
