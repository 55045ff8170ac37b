/** Projection of official observations into bounded model features (backend/src/forecasting/official_features.py). */
module OfficialFeatures {
  import opened Wrappers
  import opened Keys
  import opened Sorting
  import opened Reals
  import opened EventBridge

  datatype Role = RevenueDemand | DomesticIngredient | ImportedIngredient | InterestRate | Unmapped

  const DECAY: real := 0.65
  const PERIOD_CAP: real := 0.05

  function HorizonCap(role: Role): (cap: real)
    ensures 0.0 < cap <= 0.12
  {
    match role
    case RevenueDemand => 0.10
    case DomesticIngredient => 0.08
    case ImportedIngredient => 0.12
    case InterestRate => 0.02
    case Unmapped => 0.05
  }

  predicate IsRelativeRole(role: Role) {
    role.RevenueDemand? || role.DomesticIngredient? || role.ImportedIngredient?
  }

  function DecayPower(n: nat): real {
    if n == 0 then 1.0 else DecayPower(n - 1) * DECAY
  }

  function DecayedSum(step: nat): real {
    if step == 0 then 0.0 else DecayedSum(step - 1) + DecayPower(step - 1)
  }

  /** The last two valid observations of one indicator. */
  datatype Indicator = Indicator(id: Key, role: Role, percent: bool, latest: Observation, previous: Option<Observation>)

  datatype Contribution = Contribution(indicator: Key, role: Role, relative: real, capped: real, cumulative: real, projected: real, delta: real)

  datatype Month = Month(
    revenueMultiplier: real,
    ingredientMultiplier: real,
    domesticMultiplier: real,
    importedMultiplier: real,
    interestDelta: real,
    contributions: seq<Contribution>)

  predicate OlderObservation(a: Observation, b: Observation) {
    || a.observedAt < b.observedAt
    || (a.observedAt == b.observedAt && a.availableAt < b.availableAt)
    || (a.observedAt == b.observedAt && a.availableAt == b.availableAt && a.id <= b.id)
  }

  function ValidIds(observations: seq<Observation>): seq<Key> {
    if observations == [] then []
    else (if observations[0].quality.Valid? then [observations[0].indicator] else []) + ValidIds(observations[1..])
  }

  function ValidOf(observations: seq<Observation>, id: Key): seq<Observation> {
    if observations == [] then []
    else
      (if observations[0].quality.Valid? && observations[0].indicator == id then [observations[0]] else [])
        + ValidOf(observations[1..], id)
  }

  lemma {:induction false} ValidOfNonEmpty(observations: seq<Observation>, id: Key)
    ensures id in ValidIds(observations) <==> ValidOf(observations, id) != []
  {
    if observations != [] { ValidOfNonEmpty(observations[1..], id); }
  }

  function SeriesOf(observations: seq<Observation>, id: Key): seq<Observation> {
    SortBy(OlderObservation, ValidOf(observations, id))
  }

  /** Registry lookups: the role of an indicator, and whether a unit is a percentage. */
  datatype Registry = Registry(roleOf: Key -> Role, isPercent: Key -> bool)

  function IndicatorOf(observations: seq<Observation>, id: Key, registry: Registry): Indicator
    requires id in ValidIds(observations)
  {
    ValidOfNonEmpty(observations, id);
    SortPermutes(OlderObservation, ValidOf(observations, id));
    var series := SeriesOf(observations, id);
    var latest := series[|series| - 1];
    Indicator(id, registry.roleOf(id), registry.isPercent(latest.unit), latest,
              if |series| >= 2 then Some(series[|series| - 2]) else None)
  }

  function Indicators(observations: seq<Observation>, registry: Registry): seq<Indicator> {
    SortedDistinctSorts(ValidIds(observations));
    var ids := SortedDistinct(ValidIds(observations));
    seq(|ids|, i requires 0 <= i < |ids| => IndicatorOf(observations, ids[i], registry))
  }

  function LevelDelta(x: Indicator): real {
    if x.previous.Some? then x.latest.value - x.previous.value.value else 0.0
  }

  function RelativeChange(x: Indicator): real {
    if x.previous.Some? && x.previous.value.value != 0.0 then LevelDelta(x) / Abs(x.previous.value.value) else 0.0
  }

  function CappedChange(x: Indicator): real {
    Clip(RelativeChange(x), -PERIOD_CAP, PERIOD_CAP)
  }

  function Capped(change: real, factor: real, cap: real): real { Clip(Times(change, factor), -cap, cap) }

  function Cumulative(x: Indicator, step: nat): real {
    Capped(CappedChange(x), DecayedSum(step), HorizonCap(x.role))
  }

  function InterestDelta(x: Indicator, step: nat): real {
    Clip(LevelDelta(x) * DecayedSum(step) * (if x.percent then 0.01 else 1.0), -HorizonCap(InterestRate), HorizonCap(InterestRate))
  }

  function RoleCount(indicators: seq<Indicator>, role: Role): nat {
    if indicators == [] then 0
    else RoleCount(indicators[..|indicators| - 1], role) + if indicators[|indicators| - 1].role == role then 1 else 0
  }

  /** The changes collected for one role, in indicator order. */
  function RoleChanges(indicators: seq<Indicator>, role: Role, step: nat): seq<real> {
    if indicators == [] then []
    else
      var x := indicators[|indicators| - 1];
      RoleChanges(indicators[..|indicators| - 1], role, step) + if x.role == role then [Cumulative(x, step)] else []
  }

  function InterestDeltas(indicators: seq<Indicator>, step: nat): seq<real> {
    if indicators == [] then []
    else
      var x := indicators[|indicators| - 1];
      InterestDeltas(indicators[..|indicators| - 1], step)
        + if x.role.InterestRate? && x.previous.Some? then [InterestDelta(x, step)] else []
  }

  function Average(values: seq<real>): real {
    if values == [] then 0.0 else Sum(values) / (|values| as real)
  }

  function Projected(latest: real, change: real, cumulative: real, interest: bool): real {
    Max(0.0, if interest then latest + change else latest * (1.0 + cumulative))
  }

  function ContributionOf(x: Indicator, step: nat, count: nat): Contribution
    requires count > 0
  {
    var interest := x.role.InterestRate? && x.previous.Some?;
    Contribution(
      x.id,
      x.role,
      RelativeChange(x),
      CappedChange(x),
      Cumulative(x, step),
      Projected(x.latest.value, Times(LevelDelta(x), DecayedSum(step)), Cumulative(x, step), interest),
      if IsRelativeRole(x.role) then Cumulative(x, step) / (count as real)
      else if interest then InterestDelta(x, step) / (count as real)
      else 0.0)
  }

  lemma {:induction false} RoleCountPositive(indicators: seq<Indicator>, i: nat)
    requires i < |indicators|
    ensures RoleCount(indicators, indicators[i].role) > 0
  {
    if i < |indicators| - 1 { RoleCountPositive(indicators[..|indicators| - 1], i); }
  }

  function Contributions(indicators: seq<Indicator>, step: nat): (r: seq<Contribution>)
    ensures |r| == |indicators|
  {
    seq(|indicators|, i requires 0 <= i < |indicators| =>
      (RoleCountPositive(indicators, i); ContributionOf(indicators[i], step, RoleCount(indicators, indicators[i].role))))
  }

  function MonthAt(indicators: seq<Indicator>, step: nat): Month {
    var domestic, imported := RoleChanges(indicators, DomesticIngredient, step), RoleChanges(indicators, ImportedIngredient, step);
    Month(
      Clip(1.0 + Average(RoleChanges(indicators, RevenueDemand, step)), 0.90, 1.10),
      Clip(1.0 + Average(domestic + imported), 0.85, 1.15),
      Clip(1.0 + Average(domestic), 0.92, 1.08),
      Clip(1.0 + Average(imported), 0.88, 1.12),
      Average(InterestDeltas(indicators, step)),
      Contributions(indicators, step))
  }

  lemma RoleChangesNext(indicators: seq<Indicator>, i: nat, role: Role, step: nat)
    requires i < |indicators|
    ensures RoleChanges(indicators[..i + 1], role, step)
      == RoleChanges(indicators[..i], role, step) + if indicators[i].role == role then [Cumulative(indicators[i], step)] else []
  {
    assert indicators[..i + 1][..i] == indicators[..i];
  }

  /** The loop over the indicators of one month. */
  method CollectChanges(indicators: seq<Indicator>, step: nat) returns (changes: map<Role, seq<real>>, deltas: seq<real>)
    ensures changes.Keys == {RevenueDemand, DomesticIngredient, ImportedIngredient}
    ensures forall role :: role in changes ==> changes[role] == RoleChanges(indicators, role, step)
    ensures deltas == InterestDeltas(indicators, step)
  {
    changes := map[RevenueDemand := [], DomesticIngredient := [], ImportedIngredient := []];
    deltas := [];
    for i := 0 to |indicators|
      invariant changes.Keys == {RevenueDemand, DomesticIngredient, ImportedIngredient}
      invariant forall role :: role in changes ==> changes[role] == RoleChanges(indicators[..i], role, step)
      invariant deltas == InterestDeltas(indicators[..i], step)
    {
      assert indicators[..i + 1][..i] == indicators[..i];
      ghost var before := changes;
      var x := indicators[i];
      if IsRelativeRole(x.role) {
        changes := changes[x.role := changes[x.role] + [Cumulative(x, step)]];
      } else if x.role.InterestRate? && x.previous.Some? {
        deltas := deltas + [InterestDelta(x, step)];
      }
      forall role | role in changes ensures changes[role] == RoleChanges(indicators[..i + 1], role, step) {
        assert before[role] == RoleChanges(indicators[..i], role, step);
        RoleChangesNext(indicators, i, role, step);
      }
    }
    assert indicators[..|indicators|] == indicators;
  }

  method ReportContributions(indicators: seq<Indicator>, step: nat) returns (contributions: seq<Contribution>)
    ensures contributions == Contributions(indicators, step)
  {
    contributions := [];
    for i := 0 to |indicators|
      invariant contributions == Contributions(indicators, step)[..i]
    {
      RoleCountPositive(indicators, i);
      contributions := contributions + [ContributionOf(indicators[i], step, RoleCount(indicators, indicators[i].role))];
    }
  }

  method ProjectMonth(indicators: seq<Indicator>, step: nat) returns (month: Month)
    ensures month == MonthAt(indicators, step)
  {
    var changes, deltas := CollectChanges(indicators, step);
    var contributions := ReportContributions(indicators, step);
    var domestic, imported := changes[DomesticIngredient], changes[ImportedIngredient];
    month := Month(
      Clip(1.0 + Average(changes[RevenueDemand]), 0.90, 1.10),
      Clip(1.0 + Average(domestic + imported), 0.85, 1.15),
      Clip(1.0 + Average(domestic), 0.92, 1.08),
      Clip(1.0 + Average(imported), 0.88, 1.12),
      Average(deltas),
      contributions);
  }

  method Build(observations: seq<Observation>, events: seq<Event>, asOf: int, newId: Event -> Key, registry: Registry, months: nat)
    returns (features: seq<Month>, decisions: seq<Decision>)
    ensures var bridged := Bridge(observations, events, asOf, newId);
      && |features| == months
      && decisions == bridged.decisions
      && forall k :: 0 <= k < months ==> features[k] == MonthAt(Indicators(bridged.observations, registry), k + 1)
  {
    var bridged;
    bridged, decisions := ApplyOfficialEventBridge(observations, events, asOf, newId);
    var indicators := Indicators(bridged, registry);
    features := [];
    for k := 0 to months
      invariant |features| == k
      invariant forall j :: 0 <= j < k ==> features[j] == MonthAt(indicators, j + 1)
    {
      var month := ProjectMonth(indicators, k + 1);
      features := features + [month];
    }
  }

  // ---------- bounds and growth of one indicator ----------

  lemma {:induction false} DecayPowerPositive(n: nat)
    ensures DecayPower(n) > 0.0
  {
    if n > 0 { DecayPowerPositive(n - 1); }
  }

  lemma {:induction false} DecayedSumGrows(step: nat, later: nat)
    requires step <= later
    ensures 0.0 <= DecayedSum(step) <= DecayedSum(later)
    decreases later
  {
    if step < later {
      DecayedSumGrows(step, later - 1);
      DecayPowerPositive(later - 1);
    } else if step > 0 {
      DecayedSumGrows(step - 1, later - 1);
      DecayPowerPositive(later - 1);
    }
  }

  /** The sum closes in on 1 / (1 - 0.65) without reaching it. */
  lemma {:induction false} DecayedSumClosedForm(step: nat)
    ensures DecayedSum(step) * (1.0 - DECAY) == 1.0 - DecayPower(step)
    ensures DecayedSum(step) < 20.0 / 7.0
  {
    DecayPowerPositive(step);
    if step > 0 { DecayedSumClosedForm(step - 1); }
  }

  lemma ProductGrows(c: real, s: real, t: real)
    requires 0.0 <= s <= t
    ensures c >= 0.0 ==> 0.0 <= Times(c, s) <= Times(c, t)
    ensures c <= 0.0 ==> Times(c, t) <= Times(c, s) <= 0.0
  {
    if c >= 0.0 {
      MulMonotone(c, c, s, t);
    } else {
      MulMonotone(-c, -c, s, t);
      assert (-c) * s == -(c * s) && (-c) * t == -(c * t);
    }
  }

  lemma ClipGrows(a: real, b: real, cap: real)
    requires cap > 0.0 && (0.0 <= a <= b || b <= a <= 0.0)
    ensures Abs(Clip(a, -cap, cap)) <= Abs(Clip(b, -cap, cap)) <= cap
    ensures a >= 0.0 && b >= 0.0 ==> 0.0 <= Clip(a, -cap, cap) <= Clip(b, -cap, cap)
    ensures a <= 0.0 && b <= 0.0 ==> Clip(b, -cap, cap) <= Clip(a, -cap, cap) <= 0.0
  {
  }

  lemma CappedGrows(c: real, s: real, t: real, cap: real)
    requires 0.0 <= s <= t && cap > 0.0
    ensures Abs(Capped(c, s, cap)) <= Abs(Capped(c, t, cap)) <= cap
    ensures c >= 0.0 ==> 0.0 <= Capped(c, s, cap) <= Capped(c, t, cap)
    ensures c <= 0.0 ==> Capped(c, t, cap) <= Capped(c, s, cap) <= 0.0
  {
    ProductGrows(c, s, t);
    ClipGrows(Times(c, s), Times(c, t), cap);
  }

  lemma CappedChangeKeepsSign(x: Indicator)
    ensures RelativeChange(x) >= 0.0 ==> CappedChange(x) >= 0.0
    ensures RelativeChange(x) <= 0.0 ==> CappedChange(x) <= 0.0
  {
  }

  /** An indicator's cumulative change keeps the sign of its recent change, never shrinks as the horizon grows, and
      stays within its role's cap. */
  lemma CumulativeGrowsWithinCap(x: Indicator, step: nat, later: nat)
    requires step <= later
    ensures Abs(Cumulative(x, step)) <= Abs(Cumulative(x, later)) <= HorizonCap(x.role)
    ensures RelativeChange(x) >= 0.0 ==> 0.0 <= Cumulative(x, step) <= Cumulative(x, later)
    ensures RelativeChange(x) <= 0.0 ==> Cumulative(x, later) <= Cumulative(x, step) <= 0.0
  {
    DecayedSumGrows(step, later);
    CappedChangeKeepsSign(x);
    CappedGrows(CappedChange(x), DecayedSum(step), DecayedSum(later), HorizonCap(x.role));
  }

  // ---------- averages ----------

  ghost predicate AllWithin(values: seq<real>, cap: real) {
    forall i :: 0 <= i < |values| ==> -cap <= values[i] <= cap
  }

  lemma {:induction false} SumWithin(values: seq<real>, cap: real)
    requires cap >= 0.0 && AllWithin(values, cap)
    ensures -(|values| as real) * cap <= Sum(values) <= (|values| as real) * cap
  {
    if values != [] {
      SumWithin(values[..|values| - 1], cap);
      var n := (|values| - 1) as real;
      assert (n + 1.0) * cap == n * cap + cap;
    }
  }

  lemma AverageWithin(values: seq<real>, cap: real)
    requires cap >= 0.0 && AllWithin(values, cap)
    ensures -cap <= Average(values) <= cap
  {
    SumWithin(values, cap);
    if values != [] {
      var n := |values| as real;
      QuotientAtMost(Sum(values), n, cap);
      QuotientAtMost(-Sum(values), n, cap);
      QuotientIs(-Sum(values), n, -(Sum(values) / n));
    }
  }

  lemma {:induction false} RoleChangesWithin(indicators: seq<Indicator>, role: Role, step: nat)
    ensures AllWithin(RoleChanges(indicators, role, step), HorizonCap(role))
    ensures |RoleChanges(indicators, role, step)| == RoleCount(indicators, role)
  {
    if indicators != [] {
      RoleChangesWithin(indicators[..|indicators| - 1], role, step);
      CumulativeGrowsWithinCap(indicators[|indicators| - 1], step, step);
    }
  }

  lemma {:induction false} InterestDeltasWithin(indicators: seq<Indicator>, step: nat)
    ensures AllWithin(InterestDeltas(indicators, step), HorizonCap(InterestRate))
  {
    if indicators != [] { InterestDeltasWithin(indicators[..|indicators| - 1], step); }
  }

  /** Every averaged change stays within its role's cap, so none of the four final clips ever binds; the interest
      rate change stays within two points. */
  lemma FinalClipsNeverBind(indicators: seq<Indicator>, step: nat)
    ensures var m := MonthAt(indicators, step);
      var domestic, imported := RoleChanges(indicators, DomesticIngredient, step), RoleChanges(indicators, ImportedIngredient, step);
      && m.revenueMultiplier == 1.0 + Average(RoleChanges(indicators, RevenueDemand, step))
      && m.ingredientMultiplier == 1.0 + Average(domestic + imported)
      && m.domesticMultiplier == 1.0 + Average(domestic)
      && m.importedMultiplier == 1.0 + Average(imported)
      && 0.90 <= m.revenueMultiplier <= 1.10
      && 0.88 <= m.ingredientMultiplier <= 1.12
      && 0.92 <= m.domesticMultiplier <= 1.08
      && 0.88 <= m.importedMultiplier <= 1.12
      && -0.02 <= m.interestDelta <= 0.02
  {
    var domestic, imported := RoleChanges(indicators, DomesticIngredient, step), RoleChanges(indicators, ImportedIngredient, step);
    RoleChangesWithin(indicators, RevenueDemand, step);
    RoleChangesWithin(indicators, DomesticIngredient, step);
    RoleChangesWithin(indicators, ImportedIngredient, step);
    InterestDeltasWithin(indicators, step);
    AverageWithin(RoleChanges(indicators, RevenueDemand, step), 0.10);
    AverageWithin(domestic, 0.08);
    AverageWithin(imported, 0.12);
    AverageWithin(domestic + imported, 0.12);
    AverageWithin(InterestDeltas(indicators, step), 0.02);
  }

  /** Sum of the contributions that one role makes among the first `n` indicators. */
  function ContributedBy(indicators: seq<Indicator>, n: nat, role: Role, step: nat): real
    requires n <= |indicators|
  {
    if n == 0 then 0.0
    else
      var c := Contributions(indicators, step)[n - 1];
      ContributedBy(indicators, n - 1, role, step) + if c.role == role then c.delta else 0.0
  }

  lemma ShareOfSum(a: real, b: real, n: real)
    requires n > 0.0
    ensures (a + b) / n == a / n + b / n
  {
  }

  lemma ContributedStep(indicators: seq<Indicator>, n: nat, role: Role, step: nat)
    requires IsRelativeRole(role) && 0 < n <= |indicators| && RoleCount(indicators, role) > 0
    ensures var x := indicators[n - 1];
      ContributedBy(indicators, n, role, step) == ContributedBy(indicators, n - 1, role, step)
        + if x.role == role then Cumulative(x, step) / (RoleCount(indicators, role) as real) else 0.0
  {
    assert Contributions(indicators, step)[n - 1].role == indicators[n - 1].role;
  }

  lemma SumStep(before: seq<real>, step: seq<real>, count: real)
    requires count > 0.0 && |step| <= 1
    ensures Sum(before + step) / count == Sum(before) / count + if step == [] then 0.0 else step[0] / count
  {
    if step == [] {
      assert before + step == before;
    } else {
      assert step == [step[0]];
      SumAppend(before, step[0]);
      ShareOfSum(Sum(before), step[0], count);
    }
  }

  lemma {:induction false} ContributedIsShare(indicators: seq<Indicator>, n: nat, role: Role, step: nat)
    requires IsRelativeRole(role) && n <= |indicators| && RoleCount(indicators, role) > 0
    ensures ContributedBy(indicators, n, role, step)
      == Sum(RoleChanges(indicators[..n], role, step)) / (RoleCount(indicators, role) as real)
  {
    var count := RoleCount(indicators, role) as real;
    if n > 0 {
      ContributedIsShare(indicators, n - 1, role, step);
      ContributedStep(indicators, n, role, step);
      RoleChangesNext(indicators, n - 1, role, step);
      var x := indicators[n - 1];
      SumStep(RoleChanges(indicators[..n - 1], role, step), if x.role == role then [Cumulative(x, step)] else [], count);
    } else {
      assert indicators[..0] == [];
      QuotientIs(0.0, count, 0.0);
    }
  }

  lemma {:induction false} NoContribution(indicators: seq<Indicator>, n: nat, role: Role, step: nat)
    requires n <= |indicators| && RoleCount(indicators, role) == 0
    ensures ContributedBy(indicators, n, role, step) == 0.0
  {
    if n > 0 {
      NoContribution(indicators, n - 1, role, step);
      RoleCountPositive(indicators, n - 1);
    }
  }

  /** The contributions reported for a revenue or cost role add up exactly to that role's averaged change. */
  lemma ContributionsSumToAverage(indicators: seq<Indicator>, role: Role, step: nat)
    requires IsRelativeRole(role)
    ensures ContributedBy(indicators, |indicators|, role, step) == Average(RoleChanges(indicators, role, step))
  {
    RoleChangesWithin(indicators, role, step);
    assert indicators[..|indicators|] == indicators;
    if RoleCount(indicators, role) == 0 {
      NoContribution(indicators, |indicators|, role, step);
    } else {
      ContributedIsShare(indicators, |indicators|, role, step);
    }
  }

  // ---------- growth of the averages ----------

  ghost predicate SameDirection(indicators: seq<Indicator>, role: Role) {
    || (forall x :: x in indicators && x.role == role ==> RelativeChange(x) >= 0.0)
    || (forall x :: x in indicators && x.role == role ==> RelativeChange(x) <= 0.0)
  }

  lemma {:induction false} RoleSumGrows(indicators: seq<Indicator>, role: Role, step: nat, later: nat)
    requires step <= later
    ensures (forall x :: x in indicators && x.role == role ==> RelativeChange(x) >= 0.0) ==>
      0.0 <= Sum(RoleChanges(indicators, role, step)) <= Sum(RoleChanges(indicators, role, later))
    ensures (forall x :: x in indicators && x.role == role ==> RelativeChange(x) <= 0.0) ==>
      Sum(RoleChanges(indicators, role, later)) <= Sum(RoleChanges(indicators, role, step)) <= 0.0
  {
    if indicators != [] {
      var init, x := indicators[..|indicators| - 1], indicators[|indicators| - 1];
      assert indicators == init + [x];
      RoleSumGrows(init, role, step, later);
      CumulativeGrowsWithinCap(x, step, later);
      SumAppend(RoleChanges(init, role, step), Cumulative(x, step));
      SumAppend(RoleChanges(init, role, later), Cumulative(x, later));
      assert RoleChanges(init, role, step) + [] == RoleChanges(init, role, step);
      assert RoleChanges(init, role, later) + [] == RoleChanges(init, role, later);
    }
  }

  /** When the indicators of a role move in one direction, their averaged change never shrinks with the horizon. */
  lemma AverageGrowsIfSameDirection(indicators: seq<Indicator>, role: Role, step: nat, later: nat)
    requires step <= later && SameDirection(indicators, role)
    ensures Abs(Average(RoleChanges(indicators, role, step))) <= Abs(Average(RoleChanges(indicators, role, later)))
  {
    var now, next := RoleChanges(indicators, role, step), RoleChanges(indicators, role, later);
    RoleSumGrows(indicators, role, step, later);
    RoleChangesWithin(indicators, role, step);
    RoleChangesWithin(indicators, role, later);
    if now != [] { SharesGrow(Sum(now), Sum(next), |now| as real); }
  }

  ghost predicate GrowsUpTo(registry: Registry, role: Role, later: nat) {
    forall observations, step: nat :: step <= later ==> NotFarther(Indicators(observations, registry), role, step, later)
  }

  ghost predicate NotFarther(indicators: seq<Indicator>, role: Role, step: nat, later: nat) {
    Abs(Average(RoleChanges(indicators, role, step))) <= Abs(Average(RoleChanges(indicators, role, later)))
  }

  lemma CappedChangeWithin(x: Indicator)
    ensures -PERIOD_CAP <= CappedChange(x) <= PERIOD_CAP
  {
  }

  /** While no horizon cap can bind, an indicator's change is its recent change times the decayed sum. */
  lemma IdleCap(x: Indicator, step: nat, later: nat)
    requires step <= later && PERIOD_CAP * DecayedSum(later) <= HorizonCap(x.role)
    ensures Cumulative(x, step) == Times(CappedChange(x), DecayedSum(step))
  {
    DecayedSumGrows(step, later);
    CappedChangeWithin(x);
    IdleClip(CappedChange(x), PERIOD_CAP, DecayedSum(step), DecayedSum(later), HorizonCap(x.role));
  }

  lemma IdleClip(c: real, limit: real, s: real, t: real, cap: real)
    requires -limit <= c <= limit && 0.0 <= s <= t && limit * t <= cap
    ensures Capped(c, s, cap) == Times(c, s)
  {
    MulNonNegative(limit - c, s);
    MulNonNegative(limit + c, s);
    MulNonNegative(limit, t - s);
    assert -(limit * s) <= c * s <= limit * s <= limit * t;
  }

  function RoleTotal(indicators: seq<Indicator>, role: Role): real {
    if indicators == [] then 0.0
    else
      var x := indicators[|indicators| - 1];
      RoleTotal(indicators[..|indicators| - 1], role) + if x.role == role then CappedChange(x) else 0.0
  }

  lemma {:induction false} IdleSum(indicators: seq<Indicator>, role: Role, step: nat, later: nat)
    requires step <= later && PERIOD_CAP * DecayedSum(later) <= HorizonCap(role)
    ensures Sum(RoleChanges(indicators, role, step)) == Times(RoleTotal(indicators, role), DecayedSum(step))
  {
    if indicators != [] {
      var init, x := indicators[..|indicators| - 1], indicators[|indicators| - 1];
      IdleSum(init, role, step, later);
      RoleSumNext(indicators, role, step);
      if x.role == role {
        IdleCap(x, step, later);
        TimesSum(RoleTotal(init, role), CappedChange(x), DecayedSum(step));
      }
    }
  }

  lemma RoleSumNext(indicators: seq<Indicator>, role: Role, step: nat)
    requires indicators != []
    ensures var init, x := indicators[..|indicators| - 1], indicators[|indicators| - 1];
      Sum(RoleChanges(indicators, role, step)) == Sum(RoleChanges(init, role, step)) + if x.role == role then Cumulative(x, step) else 0.0
  {
    var init, x := indicators[..|indicators| - 1], indicators[|indicators| - 1];
    SumAppend(RoleChanges(init, role, step), Cumulative(x, step));
    assert RoleChanges(init, role, step) + [] == RoleChanges(init, role, step);
  }

  lemma SharesGrow(a: real, b: real, n: real)
    requires n > 0.0 && (0.0 <= a <= b || b <= a <= 0.0)
    ensures Abs(a / n) <= Abs(b / n)
  {
    QuotientIs(0.0, n, 0.0);
    if 0.0 <= a <= b {
      QuotientMonotone(a, b, n);
      QuotientMonotone(0.0, a, n);
    } else {
      QuotientMonotone(b, a, n);
      QuotientMonotone(a, 0.0, n);
    }
  }

  lemma IdleCapsGrow(indicators: seq<Indicator>, role: Role, step: nat, later: nat)
    requires step <= later && PERIOD_CAP * DecayedSum(later) <= HorizonCap(role)
    ensures NotFarther(indicators, role, step, later)
  {
    RoleChangesWithin(indicators, role, step);
    RoleChangesWithin(indicators, role, later);
    IdleSum(indicators, role, step, later);
    IdleSum(indicators, role, later, later);
    DecayedSumGrows(step, later);
    ScaledAverageGrows(RoleChanges(indicators, role, step), RoleChanges(indicators, role, later),
                       RoleTotal(indicators, role), DecayedSum(step), DecayedSum(later));
  }

  lemma ScaledAverageGrows(now: seq<real>, next: seq<real>, total: real, s: real, t: real)
    requires |now| == |next| && 0.0 <= s <= t && Sum(now) == Times(total, s) && Sum(next) == Times(total, t)
    ensures Abs(Average(now)) <= Abs(Average(next))
  {
    ProductGrows(total, s, t);
    if now != [] { SharesGrow(Sum(now), Sum(next), |now| as real); }
  }

  function Reading(id: Key, indicator: Key, value: real, observedAt: int): Observation {
    Observation(id, indicator, value, 0, observedAt, observedAt, Valid)
  }

  /** One indicator rises by the full period cap, the other falls by `fall`. */
  function Opposed(a: Key, b: Key, fall: real): seq<Observation> {
    [Reading(0, a, 1.0, 0), Reading(1, a, 1.0 + PERIOD_CAP, 1), Reading(2, b, 1.0, 0), Reading(3, b, 1.0 - fall, 1)]
  }

  /** The valid observations of one indicator, and the ids, in a list of four valid observations. */
  lemma ValidOfFour(o: seq<Observation>, id: Key)
    requires |o| == 4 && forall i :: 0 <= i < 4 ==> o[i].quality.Valid?
    ensures ValidIds(o) == [o[0].indicator, o[1].indicator, o[2].indicator, o[3].indicator]
    ensures ValidOf(o, id) == Only(o[0], id) + (Only(o[1], id) + (Only(o[2], id) + Only(o[3], id)))
  {
    ValidOfNext(o[0], o[1..], id);
    ValidOfNext(o[1], o[2..], id);
    ValidOfNext(o[2], o[3..], id);
    ValidOfNext(o[3], [], id);
    assert o == [o[0]] + o[1..] && o[1..] == [o[1]] + o[2..] && o[2..] == [o[2]] + o[3..] && o[3..] == [o[3]] + [];
  }

  lemma ValidOfNext(x: Observation, rest: seq<Observation>, id: Key)
    requires x.quality.Valid?
    ensures ValidIds([x] + rest) == [x.indicator] + ValidIds(rest)
    ensures ValidOf([x] + rest, id) == Only(x, id) + ValidOf(rest, id)
  {
    assert ([x] + rest)[1..] == rest;
  }

  function Only(x: Observation, id: Key): seq<Observation> { if x.indicator == id then [x] else [] }

  lemma OpposedIds(a: Key, b: Key, fall: real)
    requires a < b
    ensures ValidIds(Opposed(a, b, fall)) == [a, a, b, b]
    ensures SortedDistinct([a, a, b, b]) == [a, b]
  {
    ValidOfFour(Opposed(a, b, fall), a);
    SortedDistinctSorts([a, a, b, b]);
    StrictlyIncreasingUnique(SortedDistinct([a, a, b, b]), [a, b]);
  }

  lemma OpposedSeries(a: Key, b: Key, fall: real)
    requires a < b
    ensures SeriesOf(Opposed(a, b, fall), a) == [Reading(0, a, 1.0, 0), Reading(1, a, 1.0 + PERIOD_CAP, 1)]
    ensures SeriesOf(Opposed(a, b, fall), b) == [Reading(2, b, 1.0, 0), Reading(3, b, 1.0 - fall, 1)]
  {
    var o := Opposed(a, b, fall);
    ValidOfFour(o, a);
    ValidOfFour(o, b);
    assert ValidOf(o, a) == [o[0], o[1]] && ValidOf(o, b) == [o[2], o[3]];
    SortOfTwo(OlderObservation, o[0], o[1]);
    SortOfTwo(OlderObservation, o[2], o[3]);
  }

  lemma OpposedChanges(registry: Registry, role: Role, a: Key, b: Key, fall: real, step: nat)
    requires a < b && registry.roleOf(a) == registry.roleOf(b) == role && 0.0 < fall <= PERIOD_CAP
    ensures RoleChanges(Indicators(Opposed(a, b, fall), registry), role, step)
      == [Capped(PERIOD_CAP, DecayedSum(step), HorizonCap(role)), Capped(-fall, DecayedSum(step), HorizonCap(role))]
  {
    OpposedIds(a, b, fall);
    OpposedSeries(a, b, fall);
    var pair := Indicators(Opposed(a, b, fall), registry);
    assert |pair| == 2 && pair[..1] == [pair[0]] && pair[..1][..0] == [];
    assert RoleChanges(pair[..1], role, step) == [] + [Cumulative(pair[0], step)];
    assert CappedChange(pair[0]) == PERIOD_CAP && CappedChange(pair[1]) == -fall;
  }

  lemma OpposedAverages(registry: Registry, role: Role, a: Key, b: Key, fall: real, step: nat)
    requires a < b && registry.roleOf(a) == registry.roleOf(b) == role && 0.0 < fall <= PERIOD_CAP
    ensures var pair, cap := Indicators(Opposed(a, b, fall), registry), HorizonCap(role);
      && Average(RoleChanges(pair, role, 1)) == (Capped(PERIOD_CAP, 1.0, cap) + Capped(-fall, 1.0, cap)) / 2.0
      && Average(RoleChanges(pair, role, step)) == (Capped(PERIOD_CAP, DecayedSum(step), cap) + Capped(-fall, DecayedSum(step), cap)) / 2.0
  {
    var cap := HorizonCap(role);
    assert DecayedSum(1) == DecayedSum(0) + DecayPower(0) == 1.0;
    OpposedChanges(registry, role, a, b, fall, 1);
    OpposedChanges(registry, role, a, b, fall, step);
    AverageOfTwo(Capped(PERIOD_CAP, 1.0, cap), Capped(-fall, 1.0, cap));
    AverageOfTwo(Capped(PERIOD_CAP, DecayedSum(step), cap), Capped(-fall, DecayedSum(step), cap));
  }

  lemma AverageOfTwo(a: real, b: real)
    ensures Average([a, b]) == (a + b) / 2.0
  {
    SumOfTwo(a, b);
  }

  lemma QuotientBelow(x: real, d: real, bound: real)
    requires 0.0 < x < bound * d && d >= 0.0
    ensures d > 0.0 && 0.0 < x / d < bound
  {
    assert d != 0.0;
    var q := x / d;
    assert q * d == x;
    if q >= bound { MulNonNegative(q - bound, d); }
    if q <= 0.0 { MulNonNegative(-q, d); }
  }

  lemma CancelAtCap(rise: real, fall: real, sum: real, cap: real)
    requires 0.0 < fall <= rise <= cap && fall * sum == cap && rise * sum > cap
    ensures Capped(rise, sum, cap) == cap && Capped(-fall, sum, cap) == -cap
    ensures Capped(rise, 1.0, cap) == rise && Capped(-fall, 1.0, cap) == -fall
  {
    assert (-fall) * sum == -cap;
  }

  /** Once the cap binds, the two changes cancel, although the first month's do not. */
  lemma BindingCapShrinks(registry: Registry, role: Role, a: Key, b: Key, later: nat)
    requires IsRelativeRole(role) && PERIOD_CAP * DecayedSum(later) > HorizonCap(role)
    requires a < b && registry.roleOf(a) == registry.roleOf(b) == role
    ensures later >= 1
    ensures exists observations :: !NotFarther(Indicators(observations, registry), role, 1, later)
  {
    var sum, cap := DecayedSum(later), HorizonCap(role);
    DecayedSumGrows(0, later);
    QuotientBelow(cap, sum, PERIOD_CAP);
    var fall := cap / sum;
    assert fall * sum == cap;
    CancelAtCap(PERIOD_CAP, fall, sum, cap);
    OpposedAverages(registry, role, a, b, fall, later);
    assert !NotFarther(Indicators(Opposed(a, b, fall), registry), role, 1, later);
  }

  /** For a role that at least two indicators have: whatever is observed, its averaged change never shrinks on the way
      to a horizon exactly when no horizon cap can bind by then; beyond that, four observations of two indicators
      that move in opposite directions make it shrink. */
  lemma AverageGrowsIffCapsIdle(registry: Registry, role: Role, a: Key, b: Key, later: nat)
    requires IsRelativeRole(role) && a < b && registry.roleOf(a) == registry.roleOf(b) == role
    ensures GrowsUpTo(registry, role, later) <==> PERIOD_CAP * DecayedSum(later) <= HorizonCap(role)
  {
    if PERIOD_CAP * DecayedSum(later) <= HorizonCap(role) {
      forall observations, step: nat | step <= later ensures NotFarther(Indicators(observations, registry), role, step, later) {
        IdleCapsGrow(Indicators(observations, registry), role, step, later);
      }
    } else {
      BindingCapShrinks(registry, role, a, b, later);
      var observations :| !NotFarther(Indicators(observations, registry), role, 1, later);
      assert !GrowsUpTo(registry, role, later);
    }
  }

  lemma SumOfTwo(a: real, b: real)
    ensures Sum([a, b]) == a + b
  {
    assert [a, b][..1] == [a] && [a][..0] == [];
    assert Sum([a]) == Sum([]) + a;
  }
}
