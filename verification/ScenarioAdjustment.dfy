/** Multipliers of one stress scenario from the deduplicated signals (backend/src/signals/research_signal.py). */
module ScenarioAdjustment {
  import opened Reals
  import opened ResearchSignals

  datatype Stress = Baseline | LowImpact | HighImpact

  datatype Rule = Rule(beta: real, lower: real, upper: real)

  datatype Adjustment = Adjustment(revenue: real, variableCost: real, fixedCost: real, interestDelta: real)

  const NEUTRAL := Adjustment(1.0, 1.0, 1.0, 0.0)

  /** The shocks per axis add up over every month of the horizon. */
  function Shock(signals: seq<Signal>, axis: Axis, beta: real): real {
    if signals == [] then 0.0
    else
      var last := signals[|signals| - 1];
      Shock(signals[..|signals| - 1], axis, beta) + if last.id.axis == axis then Times(last.raw, beta) else 0.0
  }

  function AxisShock(signals: seq<Signal>, rules: Axis -> Rule, axis: Axis): real { Shock(signals, axis, rules(axis).beta) }

  function Bounded(rule: Rule, shock: real): real { Clip(shock, rule.lower, rule.upper) }

  function RevenueShock(signals: seq<Signal>, rules: Axis -> Rule): real {
    AxisShock(signals, rules, RevenueAxis) - AxisShock(signals, rules, CompetitionAxis) - Abs(AxisShock(signals, rules, UncertaintyAxis))
  }

  /** `exp` stands for the exponential after its rounding to six digits. */
  function AdjustmentOf(stress: Stress, signals: seq<Signal>, rules: Axis -> Rule, exp: real -> real): Adjustment {
    if stress.Baseline? then NEUTRAL
    else
      Adjustment(
        exp(Bounded(rules(RevenueAxis), RevenueShock(signals, rules))),
        Times(
          exp(Bounded(rules(IngredientAxis), AxisShock(signals, rules, IngredientAxis))),
          exp(Bounded(rules(PlatformAxis), AxisShock(signals, rules, PlatformAxis)))),
        exp(Bounded(rules(OperatingAxis), AxisShock(signals, rules, OperatingAxis))),
        Max(0.0, AxisShock(signals, rules, InterestAxis)))
  }

  lemma OneMore(signals: seq<Signal>, s: Signal, rules: Axis -> Rule, axis: Axis)
    ensures AxisShock(signals + [s], rules, axis) == AxisShock(signals, rules, axis) + if s.id.axis == axis then Times(s.raw, rules(axis).beta) else 0.0
  {
    assert (signals + [s])[..|signals|] == signals;
  }

  /** A missing entry of the dictionary stands for zero. */
  function Entry(shocks: map<Axis, real>, axis: Axis): real { if axis in shocks then shocks[axis] else 0.0 }

  method SumShocks(signals: seq<Signal>, rules: Axis -> Rule) returns (shocks: map<Axis, real>)
    ensures forall axis :: Entry(shocks, axis) == AxisShock(signals, rules, axis)
  {
    shocks := map[];
    for n := 0 to |signals|
      invariant forall axis :: Entry(shocks, axis) == AxisShock(signals[..n], rules, axis)
    {
      var axis := signals[n].id.axis;
      ghost var before := shocks;
      shocks := shocks[axis := Entry(shocks, axis) + Times(signals[n].raw, rules(axis).beta)];
      forall other ensures Entry(shocks, other) == AxisShock(signals[..n + 1], rules, other) {
        assert Entry(before, other) == AxisShock(signals[..n], rules, other);
        assert signals[..n + 1] == signals[..n] + [signals[n]];
        OneMore(signals[..n], signals[n], rules, other);
      }
    }
    assert signals[..|signals|] == signals;
  }

  method Adjust(stress: Stress, signals: seq<Signal>, rules: Axis -> Rule, exp: real -> real) returns (result: Adjustment)
    ensures result == AdjustmentOf(stress, signals, rules, exp)
  {
    result := NEUTRAL;
    if stress.Baseline? { return; }
    var shocks := SumShocks(signals, rules);
    var revenueShock := Entry(shocks, RevenueAxis) - Entry(shocks, CompetitionAxis) - Abs(Entry(shocks, UncertaintyAxis));
    result := result.(revenue := exp(Bounded(rules(RevenueAxis), revenueShock)));
    result := result.(variableCost :=
      Times(exp(Bounded(rules(IngredientAxis), Entry(shocks, IngredientAxis))),
           exp(Bounded(rules(PlatformAxis), Entry(shocks, PlatformAxis)))));
    result := result.(fixedCost := exp(Bounded(rules(OperatingAxis), Entry(shocks, OperatingAxis))));
    result := result.(interestDelta := Max(0.0, Entry(shocks, InterestAxis)));
  }

  // ---------- bounds and direction ----------

  /** What is used of the rounded exponential: it is never negative, never falls, and is one at zero. */
  ghost predicate Exponential(exp: real -> real) {
    && (forall x, y :: x <= y ==> exp(x) <= exp(y))
    && (forall x :: exp(x) >= 0.0)
    && exp(0.0) == 1.0
  }

  ghost predicate SoundRules(rules: Axis -> Rule) {
    forall axis :: rules(axis).beta >= 0.0 && rules(axis).lower <= 0.0 <= rules(axis).upper
  }

  lemma BoundedMonotone(rule: Rule, x: real, y: real)
    requires x <= y
    ensures Bounded(rule, x) <= Bounded(rule, y)
  {
  }

  lemma FactorWithin(rule: Rule, x: real, exp: real -> real)
    requires Exponential(exp) && rule.lower <= 0.0 <= rule.upper
    ensures 0.0 <= exp(rule.lower) <= exp(Bounded(rule, x)) <= exp(rule.upper)
    ensures exp(rule.lower) <= 1.0 <= exp(rule.upper)
  {
    assert rule.lower <= Bounded(rule, x) <= rule.upper;
  }

  ghost predicate WithinRule(rule: Rule, multiplier: real, exp: real -> real) {
    exp(rule.lower) <= multiplier <= exp(rule.upper)
  }

  /** However strong the signals are, every multiplier stays between the exponentials of its axis's bounds. */
  lemma MultipliersStayInBounds(stress: Stress, signals: seq<Signal>, rules: Axis -> Rule, exp: real -> real)
    requires Exponential(exp) && SoundRules(rules)
    ensures var a := AdjustmentOf(stress, signals, rules, exp);
      && WithinRule(rules(RevenueAxis), a.revenue, exp)
      && Times(exp(rules(IngredientAxis).lower), exp(rules(PlatformAxis).lower)) <= a.variableCost
      && a.variableCost <= Times(exp(rules(IngredientAxis).upper), exp(rules(PlatformAxis).upper))
      && WithinRule(rules(OperatingAxis), a.fixedCost, exp)
      && a.interestDelta >= 0.0
  {
    var i, p := rules(IngredientAxis), rules(PlatformAxis);
    FactorWithin(rules(RevenueAxis), RevenueShock(signals, rules), exp);
    FactorWithin(rules(OperatingAxis), AxisShock(signals, rules, OperatingAxis), exp);
    VariableCostWithin(i, p, AxisShock(signals, rules, IngredientAxis), AxisShock(signals, rules, PlatformAxis), exp);
  }

  lemma VariableCostWithin(i: Rule, p: Rule, x: real, y: real, exp: real -> real)
    requires Exponential(exp) && i.lower <= 0.0 <= i.upper && p.lower <= 0.0 <= p.upper
    ensures Times(exp(i.lower), exp(p.lower)) <= Times(exp(Bounded(i, x)), exp(Bounded(p, y))) <= Times(exp(i.upper), exp(p.upper))
    ensures Times(exp(i.lower), exp(p.lower)) <= 1.0 <= Times(exp(i.upper), exp(p.upper))
  {
    FactorWithin(i, x, exp);
    FactorWithin(p, y, exp);
    TimesMonotone(exp(i.lower), exp(Bounded(i, x)), exp(p.lower), exp(Bounded(p, y)));
    TimesMonotone(exp(Bounded(i, x)), exp(i.upper), exp(Bounded(p, y)), exp(p.upper));
    TimesMonotone(exp(i.lower), 1.0, exp(p.lower), 1.0);
    TimesMonotone(1.0, exp(i.upper), 1.0, exp(p.upper));
    assert Times(1.0, 1.0) == 1.0;
  }

  lemma {:induction false} ShockAppend(a: seq<Signal>, b: seq<Signal>, axis: Axis, beta: real)
    ensures Shock(a + b, axis, beta) == Shock(a, axis, beta) + Shock(b, axis, beta)
  {
    if b == [] {
      assert a + b == a;
    } else {
      var init := b[..|b| - 1];
      ShockAppend(a, init, axis, beta);
      assert (a + b)[..|a + b| - 1] == a + init;
    }
  }

  lemma SplitAround(left: seq<Signal>, s: Signal, right: seq<Signal>)
    ensures multiset(left + [s] + right) == multiset(left + right) + multiset{s}
  {
  }

  lemma CancelOne<T>(a: multiset<T>, b: multiset<T>, x: T)
    requires a + multiset{x} == b + multiset{x}
    ensures a == b
  {
    forall y ensures a[y] == b[y] {
      assert (a + multiset{x})[y] == (b + multiset{x})[y];
    }
  }

  /** The order of the signals does not matter. */
  lemma {:induction false} ShockIgnoresOrder(a: seq<Signal>, b: seq<Signal>, axis: Axis, beta: real)
    requires multiset(a) == multiset(b)
    ensures Shock(a, axis, beta) == Shock(b, axis, beta)
    decreases |a|
  {
    if a == [] {
      assert |multiset(b)| == |multiset(a)| == 0;
      assert b == [];
    } else {
      var init, last := a[..|a| - 1], a[|a| - 1];
      assert a == init + [last];
      assert last in multiset(b);
      var k :| 0 <= k < |b| && b[k] == last;
      var left, right := b[..k], b[k + 1..];
      assert b == left + [last] + right;
      SplitAround(left, last, right);
      SplitAround(init, last, []);
      assert init + [] == init && init + [last] + [] == a;
      CancelOne(multiset(init), multiset(left + right), last);
      ShockIgnoresOrder(init, left + right, axis, beta);
      ShockAppend(left, right, axis, beta);
      ShockAppend(left, [last], axis, beta);
      ShockAppend(left + [last], right, axis, beta);
      ShockAppend(init, [last], axis, beta);
    }
  }

  lemma AdjustmentIgnoresOrder(stress: Stress, a: seq<Signal>, b: seq<Signal>, rules: Axis -> Rule, exp: real -> real)
    requires multiset(a) == multiset(b)
    ensures AdjustmentOf(stress, a, rules, exp) == AdjustmentOf(stress, b, rules, exp)
  {
    forall axis ensures AxisShock(a, rules, axis) == AxisShock(b, rules, axis) {
      ShockIgnoresOrder(a, b, axis, rules(axis).beta);
    }
  }

  /** `u` and `v` are the uncertainty shocks before and after. */
  ghost predicate MovesOnly(axis: Axis, a: Adjustment, b: Adjustment, u: real, v: real) {
    && (axis.UncertaintyAxis? && Abs(u) <= Abs(v) ==> b.revenue <= a.revenue)
    && (axis.UncertaintyAxis? && Abs(v) <= Abs(u) ==> a.revenue <= b.revenue)
    && (axis.RevenueAxis? ==> a.revenue <= b.revenue)
    && (axis.CompetitionAxis? ==> b.revenue <= a.revenue)
    && (!(axis.RevenueAxis? || axis.CompetitionAxis? || axis.UncertaintyAxis?) ==> b.revenue == a.revenue)
    && (if axis.IngredientAxis? || axis.PlatformAxis? then a.variableCost <= b.variableCost else a.variableCost == b.variableCost)
    && (if axis.OperatingAxis? then a.fixedCost <= b.fixedCost else a.fixedCost == b.fixedCost)
    && (if axis.InterestAxis? then a.interestDelta <= b.interestDelta else a.interestDelta == b.interestDelta)
  }

  /** One more increasing signal moves only its own axis, and in its own direction: demand raises revenue, competition
      lowers it, and a cost signal raises its cost. An uncertainty signal lowers revenue or raises it as it takes the
      uncertainty shock further from zero or nearer to it. */
  lemma SignalMovesItsAxis(stress: Stress, signals: seq<Signal>, s: Signal, rules: Axis -> Rule, exp: real -> real)
    requires Exponential(exp) && SoundRules(rules) && s.raw >= 0.0
    ensures MovesOnly(s.id.axis, AdjustmentOf(stress, signals, rules, exp), AdjustmentOf(stress, signals + [s], rules, exp),
      AxisShock(signals, rules, UncertaintyAxis), AxisShock(signals + [s], rules, UncertaintyAxis))
  {
    if !stress.Baseline? {
      AxesMove(signals, s, rules);
      var longer := signals + [s];
      VariableCostMoves(rules(IngredientAxis), rules(PlatformAxis), exp,
        AxisShock(signals, rules, IngredientAxis), AxisShock(longer, rules, IngredientAxis),
        AxisShock(signals, rules, PlatformAxis), AxisShock(longer, rules, PlatformAxis));
      FactorMoves(rules(OperatingAxis), exp, AxisShock(signals, rules, OperatingAxis), AxisShock(longer, rules, OperatingAxis));
      RevenueMoves(signals, s, rules, exp);
    }
  }

  lemma RevenueMoves(signals: seq<Signal>, s: Signal, rules: Axis -> Rule, exp: real -> real)
    requires Exponential(exp) && SoundRules(rules) && s.raw >= 0.0
    ensures var x, y := RevenueShock(signals, rules), RevenueShock(signals + [s], rules);
      var rule := rules(RevenueAxis);
      && (s.id.axis.RevenueAxis? ==> exp(Bounded(rule, x)) <= exp(Bounded(rule, y)))
      && (s.id.axis.CompetitionAxis? ==> exp(Bounded(rule, y)) <= exp(Bounded(rule, x)))
      && (!(s.id.axis.RevenueAxis? || s.id.axis.CompetitionAxis? || s.id.axis.UncertaintyAxis?) ==> x == y)
      && var u, v := AxisShock(signals, rules, UncertaintyAxis), AxisShock(signals + [s], rules, UncertaintyAxis);
      && (s.id.axis.UncertaintyAxis? && Abs(u) <= Abs(v) ==> exp(Bounded(rule, y)) <= exp(Bounded(rule, x)))
      && (s.id.axis.UncertaintyAxis? && Abs(v) <= Abs(u) ==> exp(Bounded(rule, x)) <= exp(Bounded(rule, y)))
  {
    AxesMove(signals, s, rules);
    var x, y := RevenueShock(signals, rules), RevenueShock(signals + [s], rules);
    if s.id.axis.RevenueAxis? {
      FactorMoves(rules(RevenueAxis), exp, x, y);
    } else if s.id.axis.CompetitionAxis? {
      FactorMoves(rules(RevenueAxis), exp, y, x);
    } else if s.id.axis.UncertaintyAxis? {
      if x <= y { FactorMoves(rules(RevenueAxis), exp, x, y); }
      if y <= x { FactorMoves(rules(RevenueAxis), exp, y, x); }
    }
  }

  lemma FactorMoves(rule: Rule, exp: real -> real, x: real, y: real)
    requires Exponential(exp) && x <= y
    ensures exp(Bounded(rule, x)) <= exp(Bounded(rule, y))
  {
    BoundedMonotone(rule, x, y);
  }

  lemma AxesMove(signals: seq<Signal>, s: Signal, rules: Axis -> Rule)
    requires SoundRules(rules) && s.raw >= 0.0
    ensures forall axis :: AxisShock(signals, rules, axis) <= AxisShock(signals + [s], rules, axis)
    ensures forall axis :: axis != s.id.axis ==> AxisShock(signals, rules, axis) == AxisShock(signals + [s], rules, axis)
  {
    forall axis
      ensures AxisShock(signals, rules, axis) <= AxisShock(signals + [s], rules, axis)
      ensures axis != s.id.axis ==> AxisShock(signals, rules, axis) == AxisShock(signals + [s], rules, axis)
    {
      OneMore(signals, s, rules, axis);
      MulNonNegative(s.raw, rules(axis).beta);
    }
  }

  lemma VariableCostMoves(i: Rule, p: Rule, exp: real -> real, x: real, y: real, u: real, v: real)
    requires Exponential(exp) && x <= y && u <= v
    ensures Times(exp(Bounded(i, x)), exp(Bounded(p, u))) <= Times(exp(Bounded(i, y)), exp(Bounded(p, v)))
  {
    FactorMoves(i, exp, x, y);
    FactorMoves(p, exp, u, v);
    TimesMonotone(exp(Bounded(i, x)), exp(Bounded(i, y)), exp(Bounded(p, u)), exp(Bounded(p, v)));
  }
}
