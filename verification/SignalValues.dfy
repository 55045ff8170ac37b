/** Which signals the accepted events give, how strong each one is, and what the strongest make of a scenario. */
module SignalValues {
  import opened Wrappers
  import opened Reals
  import opened Calendar
  import opened ResearchSignals
  import opened ScenarioAdjustment

  // ---------- the days of an event ----------

  predicate Covers(e: Event, day: int) { e.start <= day && (e.end.Some? ==> day <= e.end.value) }

  /** How many of the `n` days from `first` on the event covers. */
  ghost function DaysOf(e: Event, first: int, n: nat): nat {
    if n == 0 then 0 else DaysOf(e, first, n - 1) + if Covers(e, first + n - 1) then 1 else 0
  }

  lemma {:induction false} SharedIsCount(e: Event, first: int, n: nat)
    ensures SharedDays(e.start, e.end, first, first + n - 1) == DaysOf(e, first, n)
  {
    if n > 0 { SharedIsCount(e, first, n - 1); }
  }

  /** The overlap is the share of the days of the month that the event covers. */
  lemma OverlapIs(e: Event, month: nat)
    ensures Times(Overlap(e, month), DaysInMonth(month) as real) == DaysOf(e, MonthStart(month), DaysInMonth(month)) as real
  {
    SharedIsCount(e, MonthStart(month), DaysInMonth(month));
    FractionTimesDays(SharedInMonth(e, month) as real, DaysInMonth(month) as real);
  }

  // ---------- one signal ----------

  predicate PointsTo(impact: Impact, direction: int) {
    || (impact.direction == Increase && direction == 1)
    || (impact.direction == Decrease && direction == -1)
    || (impact.direction == Neutral && direction == 0)
  }

  /** Months since the event began, none before it. */
  function Since(e: Event, month: nat): int { if month < e.startMonth then 0 else month - e.startMonth }

  function Product(a: real, b: real, c: real, d: real): real { Times(Times(a, b), Times(c, d)) }

  /** The exposure is the covered share of the month, by place, industry and schedule; the signal is its signed product with
      evidence and severity, divided by 1 and 0.15 for every month since the event began, and nothing for an interest
      impact on a store without variable debt. */
  ghost predicate SignalIs(e: Event, impact: Impact, month: nat, variableDebt: bool, s: Signal) {
    && s.id == SignalId(e.id, month, impact.axis) && s.cause == e.cause && PointsTo(impact, s.direction)
    && Times(s.exposure, DaysInMonth(month) as real) == Product(DaysOf(e, MonthStart(month), DaysInMonth(month)) as real, e.geo, e.industry, e.schedule)
    && Times(s.raw, 1.0 + 0.15 * (Since(e, month) as real))
       == if impact.axis == InterestAxis && !variableDebt then 0.0 else Product(s.direction as real, e.evidence, s.exposure, e.severity)
  }

  lemma ExposureProduct(overlap: real, days: real, covered: real, geo: real, industry: real, schedule: real)
    requires Times(overlap, days) == covered
    ensures Times(Weighted(Times(overlap, geo), industry, schedule), days) == Product(covered, geo, industry, schedule)
  {
    var rest := geo * industry * schedule;
    assert Weighted(Times(overlap, geo), industry, schedule) == overlap * rest by {
      assert overlap * geo * industry == overlap * (geo * industry);
      assert overlap * (geo * industry) * schedule == overlap * rest;
    }
    assert Product(covered, geo, industry, schedule) == covered * rest by {
      assert covered * geo * (industry * schedule) == covered * (geo * (industry * schedule));
      assert geo * (industry * schedule) == rest;
    }
    assert overlap * rest * days == overlap * days * rest;
  }

  lemma RawProduct(sign: int, evidence: real, exposure: real, severity: real, divisor: real, financial: real)
    requires divisor > 0.0 && (financial == 0.0 || financial == 1.0)
    ensures Times(RawSignal(sign, evidence, exposure, severity, 1.0 / divisor, financial), divisor)
      == if financial == 0.0 then 0.0 else Product(sign as real, evidence, exposure, severity)
  {
    var rest := sign as real * evidence * exposure * severity;
    var decay := 1.0 / divisor;
    assert decay * divisor == 1.0;
    assert RawSignal(sign, evidence, exposure, severity, decay, financial) == rest * decay * financial;
    assert Product(sign as real, evidence, exposure, severity) == rest by {
      assert sign as real * evidence * (exposure * severity) == sign as real * evidence * exposure * severity;
    }
    if financial == 1.0 { assert rest * decay * divisor == rest * (decay * divisor); }
  }

  lemma SignalAsDescribed(e: Event, impact: Impact, month: nat, variableDebt: bool)
    ensures SignalIs(e, impact, month, variableDebt, SignalOf(e, impact, month, variableDebt))
  {
    OverlapIs(e, month);
    ExposureProduct(Overlap(e, month), DaysInMonth(month) as real, DaysOf(e, MonthStart(month), DaysInMonth(month)) as real,
      e.geo, e.industry, e.schedule);
    assert Later(0, month - e.startMonth) == Since(e, month);
    RawProduct(Sign(impact.direction), e.evidence, Exposure(e, month), e.severity, 1.0 + 0.15 * (Since(e, month) as real),
      FinancialExposure(impact.axis, variableDebt));
  }

  // ---------- all signals ----------

  lemma {:induction false} SignalsOfMonth(e: Event, impacts: seq<Impact>, month: nat, variableDebt: bool, s: Signal)
    ensures s in MonthSignals(e, impacts, month, variableDebt) <==> exists i :: i in impacts && s == SignalOf(e, i, month, variableDebt)
  {
    if impacts != [] {
      var init, last := impacts[..|impacts| - 1], impacts[|impacts| - 1];
      assert impacts == init + [last];
      SignalsOfMonth(e, init, month, variableDebt, s);
    }
  }

  ghost predicate GivenIn(e: Event, month: nat, variableDebt: bool, s: Signal) {
    exists i :: i in e.impacts && s == SignalOf(e, i, month, variableDebt)
  }

  lemma {:induction false} SignalsOfEvent(e: Event, first: nat, months: nat, variableDebt: bool, s: Signal)
    ensures s in EventSignals(e, first, months, variableDebt) <==>
      exists month: nat :: first <= month < first + months && GivenIn(e, month, variableDebt, s)
  {
    if months > 0 {
      SignalsOfEvent(e, first, months - 1, variableDebt, s);
      SignalsOfMonth(e, e.impacts, first + months - 1, variableDebt, s);
      assert s in EventSignals(e, first, months, variableDebt) <==>
        s in EventSignals(e, first, months - 1, variableDebt) || GivenIn(e, first + months - 1, variableDebt, s);
    }
  }

  ghost predicate GivenBy(e: Event, first: nat, months: nat, variableDebt: bool, s: Signal) {
    e.accepted && e.signalEnabled && exists month: nat :: first <= month < first + months && GivenIn(e, month, variableDebt, s)
  }

  lemma {:induction false} SignalsOfAll(events: seq<Event>, first: nat, months: nat, variableDebt: bool, s: Signal)
    ensures s in AllSignals(events, first, months, variableDebt) <==> exists e :: e in events && GivenBy(e, first, months, variableDebt, s)
  {
    if events != [] {
      var init, last := events[..|events| - 1], events[|events| - 1];
      assert events == init + [last];
      SignalsOfAll(init, first, months, variableDebt, s);
      SignalsOfEvent(last, first, months, variableDebt, s);
      assert s in AllSignals(events, first, months, variableDebt) <==>
        s in AllSignals(init, first, months, variableDebt) || GivenBy(last, first, months, variableDebt, s);
    }
  }

  /** An impact of an accepted, enabled event in a month of the horizon. */
  predicate Counts(events: seq<Event>, first: nat, months: nat, e: Event, i: Impact, month: nat) {
    e in events && e.accepted && e.signalEnabled && i in e.impacts && first <= month < first + months
  }

  ghost predicate Arises(events: seq<Event>, first: nat, months: nat, variableDebt: bool, s: Signal) {
    exists e, i, month :: Counts(events, first, months, e, i, month) && SignalIs(e, i, month, variableDebt, s)
  }

  lemma ArisesIf(events: seq<Event>, first: nat, months: nat, variableDebt: bool, s: Signal)
    requires s in AllSignals(events, first, months, variableDebt)
    ensures Arises(events, first, months, variableDebt, s)
  {
    SignalsOfAll(events, first, months, variableDebt, s);
    var e :| e in events && GivenBy(e, first, months, variableDebt, s);
    var month: nat :| first <= month < first + months && GivenIn(e, month, variableDebt, s);
    var i :| i in e.impacts && s == SignalOf(e, i, month, variableDebt);
    SignalAsDescribed(e, i, month, variableDebt);
    assert Counts(events, first, months, e, i, month);
  }

  lemma GivenIf(events: seq<Event>, first: nat, months: nat, variableDebt: bool, e: Event, i: Impact, month: nat)
    requires Counts(events, first, months, e, i, month)
    ensures SignalOf(e, i, month, variableDebt) in AllSignals(events, first, months, variableDebt)
    ensures SignalIs(e, i, month, variableDebt, SignalOf(e, i, month, variableDebt))
  {
    var s := SignalOf(e, i, month, variableDebt);
    assert GivenIn(e, month, variableDebt, s);
    assert GivenBy(e, first, months, variableDebt, s);
    SignalsOfAll(events, first, months, variableDebt, s);
    SignalAsDescribed(e, i, month, variableDebt);
  }

  /** Each kept signal is that of an impact of an accepted, enabled event in a month of the horizon. */
  lemma KeptSignalsArise(events: seq<Event>, first: nat, months: nat, variableDebt: bool)
    ensures forall s :: s in DedupeCauses(AllSignals(events, first, months, variableDebt)) ==> Arises(events, first, months, variableDebt, s)
  {
    var all := AllSignals(events, first, months, variableDebt);
    OneStrongestSignalPerCause(all);
    forall s | s in DedupeCauses(all) ensures Arises(events, first, months, variableDebt, s) {
      var j :| 0 <= j < |DedupeCauses(all)| && DedupeCauses(all)[j] == s;
      ArisesIf(events, first, months, variableDebt, s);
    }
  }

  /** Every such impact gives a signal, and a signal of its month, axis and cause at least as strong is kept. */
  lemma ImpactsAreKept(events: seq<Event>, first: nat, months: nat, variableDebt: bool, e: Event, i: Impact, month: nat) returns (s: Signal)
    requires Counts(events, first, months, e, i, month)
    ensures SignalIs(e, i, month, variableDebt, s) && Outranked(s, DedupeCauses(AllSignals(events, first, months, variableDebt)))
  {
    s := SignalOf(e, i, month, variableDebt);
    GivenIf(events, first, months, variableDebt, e, i, month);
    OneStrongestSignalPerCause(AllSignals(events, first, months, variableDebt));
  }

  // ---------- which of equals is kept ----------

  function Strength(s: Signal): real { if s.raw < 0.0 then -s.raw else s.raw }

  /** One subject: the month, the axis, and the cause, or failing one the event. */
  predicate SameSubject(s: Signal, t: Signal) {
    && s.id.month == t.id.month && s.id.axis == t.id.axis
    && (if s.cause.Some? then s.cause.value else s.id.event) == (if t.cause.Some? then t.cause.value else t.id.event)
  }

  /** Position `i` holds the first of the strongest signals of its subject. */
  ghost predicate FirstStrongest(signals: seq<Signal>, i: nat) {
    && i < |signals|
    && (forall j :: 0 <= j < i && SameSubject(signals[j], signals[i]) ==> Strength(signals[j]) < Strength(signals[i]))
    && (forall j :: i < j < |signals| && SameSubject(signals[j], signals[i]) ==> Strength(signals[j]) <= Strength(signals[i]))
  }

  ghost predicate KeepsFirst(signals: seq<Signal>, s: Signal) { exists i: nat :: FirstStrongest(signals, i) && signals[i] == s }

  lemma SubjectsAreKeys(s: Signal, t: Signal)
    ensures SameSubject(s, t) <==> KeyOf(s) == KeyOf(t)
    ensures Strength(s) == Abs(s.raw)
  {
  }

  lemma StaysFirst(init: seq<Signal>, last: Signal, s: Signal)
    requires KeepsFirst(init, s) && (SameSubject(last, s) ==> Strength(last) <= Strength(s))
    ensures KeepsFirst(init + [last], s)
  {
    var i: nat :| FirstStrongest(init, i) && init[i] == s;
    assert FirstStrongest(init + [last], i);
  }

  lemma BecomesFirst(init: seq<Signal>, last: Signal)
    requires forall s :: s in init && SameSubject(s, last) ==> Strength(s) < Strength(last)
    ensures KeepsFirst(init + [last], last)
  {
    assert FirstStrongest(init + [last], |init|);
  }

  lemma OneOfKey(kept: seq<Signal>, j: nat, k: nat)
    requires DistinctKeys(kept) && j < |kept| && k < |kept| && KeyOf(kept[j]) == KeyOf(kept[k])
    ensures j == k
  {
  }

  lemma LastIsStrongest(init: seq<Signal>, kept: seq<Signal>, last: Signal, k: nat)
    requires DistinctKeys(kept) && Represents(kept, init) && k <= |kept|
    requires forall i :: 0 <= i < k ==> KeyOf(kept[i]) != KeyOf(last)
    requires k < |kept| ==> KeyOf(kept[k]) == KeyOf(last) && Abs(last.raw) > Abs(kept[k].raw)
    ensures forall s :: s in init && SameSubject(s, last) ==> Strength(s) < Strength(last)
  {
    forall s | s in init && SameSubject(s, last) ensures Strength(s) < Strength(last) {
      SubjectsAreKeys(s, last);
      assert Outranked(s, kept);
      var j :| 0 <= j < |kept| && KeyOf(kept[j]) == KeyOf(s) && Abs(kept[j].raw) >= Abs(s.raw);
      assert j >= k && k < |kept|;
      OneOfKey(kept, j, k);
    }
  }

  /** Of several signals of one subject the first of the strongest is kept. */
  lemma {:induction false} FirstStrongestKept(signals: seq<Signal>)
    ensures forall s :: s in DedupeCauses(signals) ==> KeepsFirst(signals, s)
  {
    if signals != [] {
      var init, last := signals[..|signals| - 1], signals[|signals| - 1];
      var kept := DedupeCauses(init);
      assert signals == init + [last];
      FirstStrongestKept(init);
      OneStrongestSignalPerCause(init);
      var k := FindKey(kept, KeyOf(last));
      KeepAt(kept, last, k);
      NextKept(init, kept, last, k, DedupeCauses(signals));
    }
  }

  lemma NextKept(init: seq<Signal>, kept: seq<Signal>, last: Signal, k: nat, after: seq<Signal>)
    requires DistinctKeys(kept) && Represents(kept, init) && forall s :: s in kept ==> KeepsFirst(init, s)
    requires k <= |kept| && forall i :: 0 <= i < k ==> KeyOf(kept[i]) != KeyOf(last)
    requires k < |kept| ==> KeyOf(kept[k]) == KeyOf(last)
    requires after == if k == |kept| then kept + [last] else if Abs(last.raw) > Abs(kept[k].raw) then kept[k := last] else kept
    ensures forall s :: s in after ==> KeepsFirst(init + [last], s)
  {
    forall i | 0 <= i < |after| ensures KeepsFirst(init + [last], after[i]) {
      if i == k && after[i] == last && (k < |kept| ==> Abs(last.raw) > Abs(kept[k].raw)) {
        LastIsStrongest(init, kept, last, k);
        BecomesFirst(init, last);
      } else {
        assert after[i] == kept[i] && kept[i] in kept;
        SubjectsAreKeys(last, kept[i]);
        if i > k { assert KeyOf(kept[k]) != KeyOf(kept[i]); }
        StaysFirst(init, last, kept[i]);
      }
    }
  }

  // ---------- the scenario ----------

  /** What the signals of an axis add up to, each times the axis's coefficient. */
  ghost function Push(signals: seq<Signal>, axis: Axis, beta: real): real {
    if signals == [] then 0.0 else (if signals[0].id.axis == axis then Times(beta, signals[0].raw) else 0.0) + Push(signals[1..], axis, beta)
  }

  lemma {:induction false} PushIsShock(signals: seq<Signal>, axis: Axis, beta: real)
    ensures Shock(signals, axis, beta) == Push(signals, axis, beta)
  {
    if signals != [] {
      PushIsShock(signals[1..], axis, beta);
      ShockAppend([signals[0]], signals[1..], axis, beta);
      assert signals == [signals[0]] + signals[1..];
      assert [signals[0]][..0] == [];
    }
  }

  /** The value, or the bound it is beyond; the lower bound where the bounds exclude each other. */
  predicate Held(v: real, raw: real, rule: Rule) {
    if raw < rule.lower || rule.upper < rule.lower then v == rule.lower
    else if raw > rule.upper then v == rule.upper
    else v == raw
  }

  /** The exponential of a shock that its rule holds within bounds. */
  ghost predicate Factor(multiplier: real, raw: real, rule: Rule, exp: real -> real) {
    exists v :: Held(v, raw, rule) && multiplier == exp(v)
  }

  ghost predicate Factors(multiplier: real, raw: real, rule: Rule, other: real, otherRule: Rule, exp: real -> real) {
    exists m, n :: Factor(m, raw, rule, exp) && Factor(n, other, otherRule, exp) && multiplier == Times(m, n)
  }

  function Size(x: real): real { if x < 0.0 then -x else x }

  /** Demand less competition less the size of the uncertainty moves revenue; ingredients and platform fees move the variable
      costs together; operating costs the fixed ones; interest only ever rises, by its unbounded shock. */
  lemma AdjustmentIs(stress: Stress, signals: seq<Signal>, rules: Axis -> Rule, exp: real -> real)
    ensures stress == Baseline ==> AdjustmentOf(stress, signals, rules, exp) == Adjustment(1.0, 1.0, 1.0, 0.0)
    ensures stress != Baseline ==>
      var a := AdjustmentOf(stress, signals, rules, exp);
      var push := (axis: Axis) => Push(signals, axis, rules(axis).beta);
      && Factor(a.revenue, push(RevenueAxis) - push(CompetitionAxis) - Size(push(UncertaintyAxis)), rules(RevenueAxis), exp)
      && Factors(a.variableCost, push(IngredientAxis), rules(IngredientAxis), push(PlatformAxis), rules(PlatformAxis), exp)
      && Factor(a.fixedCost, push(OperatingAxis), rules(OperatingAxis), exp)
      && a.interestDelta == if push(InterestAxis) < 0.0 then 0.0 else push(InterestAxis)
  {
    if stress != Baseline {
      forall axis ensures AxisShock(signals, rules, axis) == Push(signals, axis, rules(axis).beta) {
        PushIsShock(signals, axis, rules(axis).beta);
      }
      BoundedIsFactor(RevenueShock(signals, rules), rules(RevenueAxis), exp);
      BoundedIsFactor(AxisShock(signals, rules, IngredientAxis), rules(IngredientAxis), exp);
      BoundedIsFactor(AxisShock(signals, rules, PlatformAxis), rules(PlatformAxis), exp);
      BoundedIsFactor(AxisShock(signals, rules, OperatingAxis), rules(OperatingAxis), exp);
    }
  }

  lemma BoundedIsFactor(raw: real, rule: Rule, exp: real -> real)
    ensures Factor(exp(Bounded(rule, raw)), raw, rule, exp)
  {
    assert Held(Bounded(rule, raw), raw, rule);
  }
}
