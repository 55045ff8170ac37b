/** The interest change of a stress scenario, from events to the adjustment: the bounds that the coefficients give for
    the interest axis are not applied (backend/src/signals/research_signal.py). */
module InterestChange {
  import opened Wrappers
  import opened Reals
  import opened Calendar
  import opened ResearchSignals
  import opened ScenarioAdjustment

  function Built(events: seq<Event>, first: nat, months: nat, variableDebt: bool): seq<Signal> {
    DedupeCauses(AllSignals(events, first, months, variableDebt))
  }

  function ChangeOf(stress: Stress, signals: seq<Signal>, rules: Axis -> Rule, exp: real -> real): real {
    AdjustmentOf(stress, signals, rules, exp).interestDelta
  }

  // ---------- signals of one axis ----------

  ghost predicate OffAxis(s: seq<Signal>, axis: Axis) { forall k :: 0 <= k < |s| ==> s[k].id.axis != axis }

  /** On the axis, months ascend within `[low, high)`. */
  ghost predicate SignalsAscend(s: seq<Signal>, axis: Axis, low: int, high: int) {
    && (forall k :: 0 <= k < |s| && s[k].id.axis == axis ==> low <= s[k].id.month < high)
    && (forall k, m :: 0 <= k < m < |s| && s[k].id.axis == axis && s[m].id.axis == axis ==> s[k].id.month < s[m].id.month)
  }

  lemma {:induction false} ShockOffAxis(s: seq<Signal>, axis: Axis, beta: real)
    requires OffAxis(s, axis)
    ensures Shock(s, axis, beta) == 0.0
  {
    if s != [] { ShockOffAxis(s[..|s| - 1], axis, beta); }
  }

  lemma {:induction false} ShockUpdate(s: seq<Signal>, k: nat, x: Signal, axis: Axis, beta: real)
    requires k < |s| && s[k].id.axis != axis && x.id.axis != axis
    ensures Shock(s[k := x], axis, beta) == Shock(s, axis, beta)
  {
    var changed, n := s[k := x], |s| - 1;
    if k == n {
      assert changed[..n] == s[..n];
    } else {
      assert changed[..n] == s[..n][k := x];
      ShockUpdate(s[..n], k, x, axis, beta);
    }
  }

  /** Signals of the axis with keys of their own are all kept, so deduplication leaves the shock of the axis alone. */
  lemma KeepShock(chosen: seq<Signal>, x: Signal, axis: Axis, beta: real)
    requires x.id.axis == axis ==> forall k :: 0 <= k < |chosen| ==> KeyOf(chosen[k]) != KeyOf(x)
    ensures Shock(Keep(chosen, x), axis, beta) == Shock(chosen + [x], axis, beta)
  {
    var k := FindKey(chosen, KeyOf(x));
    KeepAt(chosen, x, k);
    assert (chosen + [x])[..|chosen|] == chosen;
    if k < |chosen| && Abs(x.raw) > Abs(chosen[k].raw) { ShockUpdate(chosen, k, x, axis, beta); }
  }

  lemma NewKey(init: seq<Signal>, last: Signal, axis: Axis, low: int, high: int)
    requires SignalsAscend(init + [last], axis, low, high) && last.id.axis == axis
    ensures var chosen := DedupeCauses(init); forall k :: 0 <= k < |chosen| ==> KeyOf(chosen[k]) != KeyOf(last)
  {
    OneStrongestSignalPerCause(init);
    var chosen, s := DedupeCauses(init), init + [last];
    forall k | 0 <= k < |chosen| ensures KeyOf(chosen[k]) != KeyOf(last) {
      var m :| 0 <= m < |init| && init[m] == chosen[k];
      assert s[m] == chosen[k] && s[|init|] == last;
    }
  }

  lemma DedupeStep(init: seq<Signal>, last: Signal, axis: Axis, beta: real, low: int, high: int)
    requires SignalsAscend(init + [last], axis, low, high) && Shock(DedupeCauses(init), axis, beta) == Shock(init, axis, beta)
    ensures Shock(DedupeCauses(init + [last]), axis, beta) == Shock(init + [last], axis, beta)
  {
    if last.id.axis == axis { NewKey(init, last, axis, low, high); }
    var chosen := DedupeCauses(init);
    KeepShock(chosen, last, axis, beta);
    LastShock(chosen, last, axis, beta);
    LastShock(init, last, axis, beta);
    assert (init + [last])[..|init|] == init;
  }

  lemma LastShock(s: seq<Signal>, x: Signal, axis: Axis, beta: real)
    ensures Shock(s + [x], axis, beta) == Shock(s, axis, beta) + if x.id.axis == axis then Times(x.raw, beta) else 0.0
  {
    assert (s + [x])[..|s|] == s;
  }

  lemma {:induction false} DedupeKeepsShock(s: seq<Signal>, axis: Axis, beta: real, low: int, high: int)
    requires SignalsAscend(s, axis, low, high)
    ensures Shock(DedupeCauses(s), axis, beta) == Shock(s, axis, beta)
  {
    if s != [] {
      var init, last := s[..|s| - 1], s[|s| - 1];
      assert s == init + [last];
      DedupeKeepsShock(init, axis, beta, low, high);
      DedupeStep(init, last, axis, beta, low, high);
    }
  }

  // ---------- the signals of one rate event ----------

  /** The event's one impact on the axis. */
  ghost predicate SoleImpact(e: Event, p: nat, axis: Axis) {
    && p < |e.impacts| && e.impacts[p].axis == axis
    && forall k :: 0 <= k < |e.impacts| && k != p ==> e.impacts[k].axis != axis
  }

  function Raws(e: Event, impact: Impact, first: nat, months: nat, variableDebt: bool): (r: seq<real>)
    ensures |r| == months
  {
    seq(months, k requires 0 <= k < months => SignalOf(e, impact, first + k, variableDebt).raw)
  }

  /** What the event adds over the horizon, before the coefficient. */
  function EventTotal(e: Event, impact: Impact, first: nat, months: nat, variableDebt: bool): real {
    Sum(Raws(e, impact, first, months, variableDebt))
  }

  lemma EventTotalNext(e: Event, impact: Impact, first: nat, months: nat, variableDebt: bool)
    requires months > 0
    ensures EventTotal(e, impact, first, months, variableDebt)
      == EventTotal(e, impact, first, months - 1, variableDebt) + SignalOf(e, impact, first + months - 1, variableDebt).raw
  {
    var raws := Raws(e, impact, first, months, variableDebt);
    assert raws[..months - 1] == Raws(e, impact, first, months - 1, variableDebt);
    assert raws[months - 1] == SignalOf(e, impact, first + (months - 1), variableDebt).raw;
  }

  lemma {:induction false} MonthHasOne(e: Event, impacts: seq<Impact>, month: nat, variableDebt: bool, axis: Axis, beta: real)
    ensures (forall k :: 0 <= k < |impacts| ==> impacts[k].axis != axis) ==> OffAxis(MonthSignals(e, impacts, month, variableDebt), axis)
    ensures |MonthSignals(e, impacts, month, variableDebt)| == |impacts|
    ensures forall k :: 0 <= k < |impacts| ==> MonthSignals(e, impacts, month, variableDebt)[k] == SignalOf(e, impacts[k], month, variableDebt)
  {
    if impacts != [] { MonthHasOne(e, impacts[..|impacts| - 1], month, variableDebt, axis, beta); }
  }

  lemma {:induction false} ShockOfOne(s: seq<Signal>, p: nat, axis: Axis, beta: real)
    requires p < |s| && s[p].id.axis == axis && forall k :: 0 <= k < |s| && k != p ==> s[k].id.axis != axis
    ensures Shock(s, axis, beta) == Times(s[p].raw, beta)
  {
    var n := |s| - 1;
    if p == n {
      ShockOffAxis(s[..n], axis, beta);
    } else {
      ShockOfOne(s[..n], p, axis, beta);
    }
  }

  /** Months ascend through two lists, the second of which comes later or is off the axis. */
  lemma AscendAppend(a: seq<Signal>, b: seq<Signal>, axis: Axis, low: int, middle: int, high: int)
    requires SignalsAscend(a, axis, low, middle) && low <= middle <= high
    requires SignalsAscend(b, axis, middle, high)
    ensures SignalsAscend(a + b, axis, low, high)
  {
  }

  lemma OffAxisAscends(s: seq<Signal>, axis: Axis, low: int, high: int)
    requires OffAxis(s, axis)
    ensures SignalsAscend(s, axis, low, high)
  {
  }

  /** A list whose one signal on the axis is the `p`-th, with the given month and strength. */
  ghost predicate SoleOn(list: seq<Signal>, month: int, p: nat, raw: real, axis: Axis) {
    && p < |list| && list[p].id.axis == axis && list[p].id.month == month && list[p].raw == raw
    && forall k :: 0 <= k < |list| && k != p ==> list[k].id.axis != axis
  }

  function Flat(lists: seq<seq<Signal>>): seq<Signal> {
    if lists == [] then [] else Flat(lists[..|lists| - 1]) + lists[|lists| - 1]
  }

  ghost predicate SoleLists(lists: seq<seq<Signal>>, raws: seq<real>, first: int, p: nat, axis: Axis) {
    |lists| == |raws| && forall k :: 0 <= k < |lists| ==> SoleOn(lists[k], first + k, p, raws[k], axis)
  }

  lemma {:induction false} ListsShock(lists: seq<seq<Signal>>, raws: seq<real>, first: int, p: nat, axis: Axis, beta: real)
    requires SoleLists(lists, raws, first, p, axis)
    ensures Shock(Flat(lists), axis, beta) == Times(Sum(raws), beta)
  {
    if lists == [] {
      assert Times(0.0, beta) == 0.0;
    } else {
      var n := |lists| - 1;
      ListsShock(lists[..n], raws[..n], first, p, axis, beta);
      AppendShock(Flat(lists[..n]), lists[n], first + n, p, Sum(raws[..n]), raws[n], axis, beta);
    }
  }

  lemma AppendShock(before: seq<Signal>, now: seq<Signal>, month: int, p: nat, sum: real, raw: real, axis: Axis, beta: real)
    requires SoleOn(now, month, p, raw, axis) && Shock(before, axis, beta) == Times(sum, beta)
    ensures Shock(before + now, axis, beta) == Times(sum + raw, beta)
  {
    ShockOfOne(now, p, axis, beta);
    ShockAppend(before, now, axis, beta);
    TimesSum(sum, raw, beta);
  }

  lemma {:induction false} ListsAscend(lists: seq<seq<Signal>>, raws: seq<real>, first: int, p: nat, axis: Axis)
    requires SoleLists(lists, raws, first, p, axis)
    ensures SignalsAscend(Flat(lists), axis, first, first + |lists|)
  {
    if lists != [] {
      var n := |lists| - 1;
      ListsAscend(lists[..n], raws[..n], first, p, axis);
      SoleAscends(lists[n], first + n, p, raws[n], axis);
      AscendAppend(Flat(lists[..n]), lists[n], axis, first, first + n, first + n + 1);
    }
  }

  lemma SoleAscends(list: seq<Signal>, month: int, p: nat, raw: real, axis: Axis)
    requires SoleOn(list, month, p, raw, axis)
    ensures SignalsAscend(list, axis, month, month + 1)
  {
  }

  function MonthLists(e: Event, first: nat, months: nat, variableDebt: bool): (r: seq<seq<Signal>>)
    ensures |r| == months
  {
    seq(months, k requires 0 <= k < months => MonthSignals(e, e.impacts, first + k, variableDebt))
  }

  lemma {:induction false} EventIsFlat(e: Event, first: nat, months: nat, variableDebt: bool)
    ensures EventSignals(e, first, months, variableDebt) == Flat(MonthLists(e, first, months, variableDebt))
  {
    if months > 0 {
      EventIsFlat(e, first, months - 1, variableDebt);
      var lists := MonthLists(e, first, months, variableDebt);
      assert lists[..months - 1] == MonthLists(e, first, months - 1, variableDebt);
      assert lists[months - 1] == MonthSignals(e, e.impacts, first + (months - 1), variableDebt);
    }
  }

  lemma MonthIsSole(e: Event, p: nat, month: nat, variableDebt: bool, axis: Axis)
    requires SoleImpact(e, p, axis)
    ensures SoleOn(MonthSignals(e, e.impacts, month, variableDebt), month, p, SignalOf(e, e.impacts[p], month, variableDebt).raw, axis)
  {
    MonthHasOne(e, e.impacts, month, variableDebt, axis, 0.0);
  }

  lemma EventShock(e: Event, p: nat, first: nat, months: nat, variableDebt: bool, axis: Axis, beta: real)
    requires SoleImpact(e, p, axis)
    ensures Shock(EventSignals(e, first, months, variableDebt), axis, beta)
      == Times(EventTotal(e, e.impacts[p], first, months, variableDebt), beta)
    ensures SignalsAscend(EventSignals(e, first, months, variableDebt), axis, first, first + months)
  {
    var lists, raws := MonthLists(e, first, months, variableDebt), Raws(e, e.impacts[p], first, months, variableDebt);
    forall k | 0 <= k < months ensures SoleOn(lists[k], first + k, p, raws[k], axis) {
      MonthIsSole(e, p, first + k, variableDebt, axis);
    }
    EventIsFlat(e, first, months, variableDebt);
    ListsShock(lists, raws, first, p, axis, beta);
    ListsAscend(lists, raws, first, p, axis);
  }

  lemma {:induction false} EventOffAxis(e: Event, first: nat, months: nat, variableDebt: bool, axis: Axis)
    requires forall k :: 0 <= k < |e.impacts| ==> e.impacts[k].axis != axis
    ensures OffAxis(EventSignals(e, first, months, variableDebt), axis)
  {
    if months > 0 {
      EventOffAxis(e, first, months - 1, variableDebt, axis);
      MonthHasOne(e, e.impacts, first + months - 1, variableDebt, axis, 0.0);
    }
  }

  /** The event cannot put a signal on the axis. */
  ghost predicate Silent(e: Event, axis: Axis) {
    !e.accepted || !e.signalEnabled || forall k :: 0 <= k < |e.impacts| ==> e.impacts[k].axis != axis
  }

  lemma {:induction false} SilentEvents(events: seq<Event>, first: nat, months: nat, variableDebt: bool, axis: Axis)
    requires forall k :: 0 <= k < |events| ==> Silent(events[k], axis)
    ensures OffAxis(AllSignals(events, first, months, variableDebt), axis)
  {
    if events != [] {
      SilentEvents(events[..|events| - 1], first, months, variableDebt, axis);
      var e := events[|events| - 1];
      if e.accepted && e.signalEnabled { EventOffAxis(e, first, months, variableDebt, axis); }
    }
  }

  /** Event `q`, with impact `p`, is the only one that puts signals on the axis. */
  ghost predicate OnlySource(events: seq<Event>, q: nat, p: nat, axis: Axis) {
    && q < |events| && events[q].accepted && events[q].signalEnabled && SoleImpact(events[q], p, axis)
    && forall k :: 0 <= k < |events| && k != q ==> Silent(events[k], axis)
  }

  /** The signals of the last of some events. */
  function LastSignals(events: seq<Event>, first: nat, months: nat, variableDebt: bool): seq<Signal>
    requires events != []
  {
    var e := events[|events| - 1];
    if e.accepted && e.signalEnabled then EventSignals(e, first, months, variableDebt) else []
  }

  lemma LastIsSilent(events: seq<Event>, first: nat, months: nat, variableDebt: bool, axis: Axis, beta: real)
    requires events != [] && Silent(events[|events| - 1], axis)
    ensures OffAxis(LastSignals(events, first, months, variableDebt), axis)
    ensures Shock(LastSignals(events, first, months, variableDebt), axis, beta) == 0.0
  {
    var e := events[|events| - 1];
    if e.accepted && e.signalEnabled { EventOffAxis(e, first, months, variableDebt, axis); }
    ShockOffAxis(LastSignals(events, first, months, variableDebt), axis, beta);
  }

  lemma {:induction false} OnlySourceAscends(events: seq<Event>, q: nat, p: nat, first: nat, months: nat, variableDebt: bool, axis: Axis)
    requires OnlySource(events, q, p, axis)
    ensures SignalsAscend(AllSignals(events, first, months, variableDebt), axis, first, first + months)
  {
    var n := |events| - 1;
    var before, now := AllSignals(events[..n], first, months, variableDebt), LastSignals(events, first, months, variableDebt);
    if q == n {
      SilentEvents(events[..n], first, months, variableDebt, axis);
      OffAxisAscends(before, axis, first, first);
      EventShock(events[n], p, first, months, variableDebt, axis, 0.0);
      AscendAppend(before, now, axis, first, first, first + months);
    } else {
      OnlySourceAscends(events[..n], q, p, first, months, variableDebt, axis);
      LastIsSilent(events, first, months, variableDebt, axis, 0.0);
      OffAxisAscends(now, axis, first + months, first + months);
      AscendAppend(before, now, axis, first, first + months, first + months);
    }
  }

  lemma {:induction false} OnlySourceShock(events: seq<Event>, q: nat, p: nat, first: nat, months: nat, variableDebt: bool, axis: Axis, beta: real)
    requires OnlySource(events, q, p, axis)
    ensures Shock(AllSignals(events, first, months, variableDebt), axis, beta)
      == Times(EventTotal(events[q], events[q].impacts[p], first, months, variableDebt), beta)
  {
    var n := |events| - 1;
    var before, now := AllSignals(events[..n], first, months, variableDebt), LastSignals(events, first, months, variableDebt);
    ShockAppend(before, now, axis, beta);
    if q == n {
      SilentEvents(events[..n], first, months, variableDebt, axis);
      ShockOffAxis(before, axis, beta);
      EventShock(events[n], p, first, months, variableDebt, axis, beta);
    } else {
      OnlySourceShock(events[..n], q, p, first, months, variableDebt, axis, beta);
      LastIsSilent(events, first, months, variableDebt, axis, beta);
    }
  }

  /** Without an enabled rate event the interest never changes: so it is while the registry disables the signals of
      both rate decisions. */
  lemma NoRateEventNoChange(events: seq<Event>, first: nat, months: nat, variableDebt: bool, stress: Stress, rules: Axis -> Rule, exp: real -> real)
    requires forall k :: 0 <= k < |events| ==> Silent(events[k], InterestAxis)
    ensures ChangeOf(stress, Built(events, first, months, variableDebt), rules, exp) == 0.0
  {
    var all, beta := AllSignals(events, first, months, variableDebt), rules(InterestAxis).beta;
    SilentEvents(events, first, months, variableDebt, InterestAxis);
    DedupeKeepsShock(all, InterestAxis, beta, 0, 0);
    ShockOffAxis(all, InterestAxis, beta);
  }

  // ---------- the bound for one rate event ----------

  /** The decay of a signal over the first `n` months of its event. */
  function DecaySum(n: nat): real {
    if n == 0 then 0.0 else DecaySum(n - 1) + 1.0 / (1.0 + 0.15 * ((n - 1) as real))
  }

  /** A valid event whose first month is the month of its first day. */
  ghost predicate Dated(e: Event) { e.Valid() && e.startMonth >= 12 && MonthStart(e.startMonth) <= e.start }

  lemma LaterDecaysMore(a: nat, b: nat)
    requires a <= b
    ensures 0.0 < 1.0 / (1.0 + 0.15 * (b as real)) <= 1.0 / (1.0 + 0.15 * (a as real))
  {
    var u, v := 1.0 + 0.15 * (b as real), 1.0 + 0.15 * (a as real);
    var y := 1.0 / v;
    assert y * v == 1.0;
    if y <= 0.0 { MulNonNegative(-y, v); }
    MulMonotone(y, y, v, u);
    QuotientAtMost(1.0, u, y);
    var x := 1.0 / u;
    assert x * u == 1.0;
    if x <= 0.0 { MulNonNegative(-x, u); }
  }

  lemma FirstMonthsUncovered(e: Event, month: nat)
    requires Dated(e) && 12 <= month < e.startMonth
    ensures Overlap(e, month) == 0.0
  {
    MonthsAdjoin(month);
    MonthStartsAscend(month + 1, e.startMonth - month - 1);
    assert month + 1 + (e.startMonth - month - 1) == e.startMonth;
    assert SharedDays(e.start, e.end, MonthStart(month), MonthEnd(month)) == 0;
    QuotientIs(0.0, DaysInMonth(month) as real, 0.0);
  }

  lemma NoOverlapNoSignal(e: Event, impact: Impact, month: nat, variableDebt: bool)
    requires e.Valid() && Overlap(e, month) == 0.0
    ensures SignalOf(e, impact, month, variableDebt).raw == 0.0
  {
    SignalWithinOverlap(e, impact, month, variableDebt);
  }

  /** No signal exceeds its event's severity, decayed. */
  lemma SignalWithinSeverity(e: Event, impact: Impact, month: nat, variableDebt: bool)
    requires e.Valid()
    ensures SignalOf(e, impact, month, variableDebt).raw <= Times(TimeDecay(e, month), e.severity)
  {
    ExposureWithinOverlap(e, month);
    DecayIsFraction(e, month);
    SixFactors(Sign(impact.direction), e.evidence, Exposure(e, month), e.severity, TimeDecay(e, month), FinancialExposure(impact.axis, variableDebt));
  }

  lemma SixFactors(sign: int, a: real, x: real, b: real, c: real, d: real)
    requires -1 <= sign <= 1 && 0.0 <= a <= 1.0 && 0.0 <= x <= 1.0 && 0.0 <= b <= 1.0 && 0.0 <= c <= 1.0 && 0.0 <= d <= 1.0
    ensures RawSignal(sign, a, x, b, c, d) <= Times(c, b)
  {
    Weaker(sign as real, 1.0, a);
    Weaker(Times(sign as real, a), 1.0, x);
    LastFactors(Times(Times(sign as real, a), x), b, c, d);
  }

  lemma LastFactors(u: real, b: real, c: real, d: real)
    requires u <= 1.0 && 0.0 <= b && 0.0 <= c && 0.0 <= d <= 1.0
    ensures Times(Times(Times(u, b), c), d) <= Times(c, b)
  {
    AtMostFactor(u, 1.0, b);
    AtMostFactor(Times(u, b), b, c);
    MulNonNegative(c, b);
    var w := Times(Times(u, b), c);
    assert w <= Times(c, b) by { assert Times(b, c) == Times(c, b); }
    AtMostShare(w, Times(c, b), d);
  }

  lemma AtMostFactor(u: real, v: real, b: real)
    requires u <= v && 0.0 <= b
    ensures Times(u, b) <= Times(v, b)
  {
    MulNonNegative(v - u, b);
    assert (v - u) * b == v * b - u * b;
  }

  lemma AtMostShare(w: real, most: real, d: real)
    requires w <= most && 0.0 <= most && 0.0 <= d <= 1.0
    ensures Times(w, d) <= most
  {
    if w >= 0.0 { Shrinks(w, d); } else { MulNonNegative(-w, d); }
  }

  /** How many of the first `n` months of the horizon the event can have reached. */
  function ReachedMonths(e: Event, first: nat, n: nat): nat {
    if first + n <= e.startMonth then 0
    else if e.startMonth <= first then n
    else first + n - e.startMonth
  }

  lemma {:induction false} EventTotalBound(e: Event, impact: Impact, first: nat, n: nat, variableDebt: bool)
    requires Dated(e) && first >= 12
    ensures EventTotal(e, impact, first, n, variableDebt) <= Times(DecaySum(ReachedMonths(e, first, n)), e.severity)
  {
    if n == 0 {
      assert Times(DecaySum(0), e.severity) == 0.0;
      assert ReachedMonths(e, first, 0) == 0;
    } else {
      EventTotalBound(e, impact, first, n - 1, variableDebt);
      EventTotalNext(e, impact, first, n, variableDebt);
      MonthWithinDecay(e, impact, first, n, variableDebt);
    }
  }

  lemma MonthWithinDecay(e: Event, impact: Impact, first: nat, n: nat, variableDebt: bool)
    requires Dated(e) && first >= 12 && n > 0
    ensures Times(DecaySum(ReachedMonths(e, first, n - 1)), e.severity) + SignalOf(e, impact, first + n - 1, variableDebt).raw
      <= Times(DecaySum(ReachedMonths(e, first, n)), e.severity)
  {
    var month, m := first + n - 1, ReachedMonths(e, first, n - 1);
    if month < e.startMonth {
      FirstMonthsUncovered(e, month);
      NoOverlapNoSignal(e, impact, month, variableDebt);
    } else {
      assert ReachedMonths(e, first, n) == m + 1;
      LaterDecaysMore(m, month - e.startMonth);
      SignalWithinSeverity(e, impact, month, variableDebt);
      DecayStep(DecaySum(m), TimeDecay(e, month), 1.0 / (1.0 + 0.15 * (m as real)), e.severity);
    }
  }

  lemma DecayStep(sum: real, decay: real, next: real, severity: real)
    requires decay <= next && severity >= 0.0
    ensures Times(sum, severity) + Times(decay, severity) <= Times(sum + next, severity)
  {
    MulNonNegative(next - decay, severity);
  }

  lemma {:induction false} DecaySumGrows(m: nat, n: nat)
    requires m <= n
    ensures 0.0 <= DecaySum(m) <= DecaySum(n)
    decreases n
  {
    if m < n {
      DecaySumGrows(m, n - 1);
      LaterDecaysMore(n - 1, n - 1);
    } else if m > 0 {
      DecaySumGrows(m - 1, n - 1);
      LaterDecaysMore(n - 1, n - 1);
    }
  }

  /** With one enabled rate event, the change is the coefficient times what the event adds over the horizon, if that is
      positive: it keeps the configured upper bound exactly if that product does. It never exceeds the coefficient times
      the event's severity, decayed over the months. */
  lemma InterestChangeOfEvent(events: seq<Event>, q: nat, p: nat, first: nat, months: nat, variableDebt: bool,
                              stress: Stress, rules: Axis -> Rule, exp: real -> real)
    requires OnlySource(events, q, p, InterestAxis) && SoundRules(rules) && !stress.Baseline?
    ensures var change, total := ChangeOf(stress, Built(events, first, months, variableDebt), rules, exp),
                                 EventTotal(events[q], events[q].impacts[p], first, months, variableDebt);
      var rule := rules(InterestAxis);
      && change == Max(0.0, Times(total, rule.beta))
      && (change <= rule.upper <==> Times(total, rule.beta) <= rule.upper)
      && (Dated(events[q]) && first >= 12 ==> change <= Times(Times(DecaySum(months), events[q].severity), rule.beta))
  {
    var beta, e := rules(InterestAxis).beta, events[q];
    OnlySourceShock(events, q, p, first, months, variableDebt, InterestAxis, beta);
    OnlySourceAscends(events, q, p, first, months, variableDebt, InterestAxis);
    DedupeKeepsShock(AllSignals(events, first, months, variableDebt), InterestAxis, beta, first, first + months);
    if Dated(e) && first >= 12 { ChangeBound(e, e.impacts[p], first, months, variableDebt, beta); }
  }

  lemma ChangeBound(e: Event, impact: Impact, first: nat, months: nat, variableDebt: bool, beta: real)
    requires Dated(e) && first >= 12 && beta >= 0.0
    ensures Times(EventTotal(e, impact, first, months, variableDebt), beta) <= Times(Times(DecaySum(months), e.severity), beta)
    ensures Times(Times(DecaySum(months), e.severity), beta) >= 0.0
  {
    EventTotalBound(e, impact, first, months, variableDebt);
    var m := ReachedMonths(e, first, months);
    DecaySumGrows(m, months);
    TwiceTimes(EventTotal(e, impact, first, months, variableDebt), DecaySum(m), DecaySum(months), e.severity, beta);
  }

  lemma TwiceTimes(total: real, a: real, b: real, severity: real, beta: real)
    requires total <= Times(a, severity) && 0.0 <= a <= b && severity >= 0.0 && beta >= 0.0
    ensures Times(total, beta) <= Times(Times(b, severity), beta) && Times(Times(b, severity), beta) >= 0.0
  {
    TimesMonotone(a, b, severity, severity);
    MulNonNegative(b, severity);
    var most := Times(b, severity);
    MulNonNegative(most - total, beta);
    MulNonNegative(most, beta);
    assert (most - total) * beta == most * beta - total * beta;
  }

  // ---------- when the configured bound is safe ----------

  /** The strongest rate event of a severity: nationwide, fully evidenced, and open from the first day of the horizon. */
  function StrongestRise(severity: real, first: nat): Event {
    Event(0, None, true, true, MonthStart(first), first, None, [Impact(InterestAxis, Increase)], 1.0, severity, 1.0, 1.0, 1.0)
  }

  lemma FullMonth(severity: real, first: nat, k: nat)
    requires first >= 12
    ensures Overlap(StrongestRise(severity, first), first + k) == 1.0
  {
    MonthStartsAscend(first, k);
    var d := DaysInMonth(first + k);
    assert SharedDays(MonthStart(first), None, MonthStart(first + k), MonthEnd(first + k)) == d;
    QuotientIs(d as real, d as real, 1.0);
  }

  lemma {:induction false} StrongestTotal(severity: real, first: nat, months: nat)
    requires first >= 12
    ensures EventTotal(StrongestRise(severity, first), Impact(InterestAxis, Increase), first, months, true) == Times(DecaySum(months), severity)
  {
    if months == 0 {
      assert Times(0.0, severity) == 0.0;
    } else {
      var k := months - 1;
      StrongestTotal(severity, first, k);
      EventTotalNext(StrongestRise(severity, first), Impact(InterestAxis, Increase), first, months, true);
      assert first + months - 1 == first + k;
      StrongestMonth(severity, first, k);
      TimesSum(DecaySum(k), 1.0 / (1.0 + 0.15 * (k as real)), severity);
    }
  }

  lemma StrongestMonth(severity: real, first: nat, k: nat)
    requires first >= 12
    ensures SignalOf(StrongestRise(severity, first), Impact(InterestAxis, Increase), first + k, true).raw
      == Times(1.0 / (1.0 + 0.15 * (k as real)), severity)
  {
    var e := StrongestRise(severity, first);
    FullMonth(severity, first, k);
    assert Exposure(e, first + k) == 1.0;
    PlainFactors(severity, TimeDecay(e, first + k));
  }

  lemma PlainFactors(severity: real, decay: real)
    ensures RawSignal(1, 1.0, 1.0, severity, decay, 1.0) == Times(decay, severity)
  {
  }

  ghost predicate KeepsBound(e: Event, first: nat, months: nat, rules: Axis -> Rule, exp: real -> real) {
    ChangeOf(HighImpact, Built([e], first, months, true), rules, exp) <= rules(InterestAxis).upper
  }

  /** The configured bound holds for every single rate event of a severity exactly when the horizon is short enough: the
      coefficient times the severity times the decay of all its months stays within the bound. */
  lemma BoundSafeIff(severity: real, first: nat, months: nat, rules: Axis -> Rule, exp: real -> real)
    requires 0.0 <= severity <= 1.0 && first >= 12 && SoundRules(rules)
    ensures (forall e, p :: Dated(e) && e.severity == severity && OnlySource([e], 0, p, InterestAxis) ==> KeepsBound(e, first, months, rules, exp))
      <==> Times(Times(DecaySum(months), severity), rules(InterestAxis).beta) <= rules(InterestAxis).upper
  {
    var limit := Times(Times(DecaySum(months), severity), rules(InterestAxis).beta);
    if limit <= rules(InterestAxis).upper {
      forall e, p | Dated(e) && e.severity == severity && OnlySource([e], 0, p, InterestAxis)
        ensures KeepsBound(e, first, months, rules, exp)
      {
        InterestChangeOfEvent([e], 0, p, first, months, true, HighImpact, rules, exp);
      }
    } else {
      var e := StrongestRise(severity, first);
      assert Dated(e) && OnlySource([e], 0, 0, InterestAxis);
      InterestChangeOfEvent([e], 0, 0, first, months, true, HighImpact, rules, exp);
      StrongestTotal(severity, first, months);
      assert !KeepsBound(e, first, months, rules, exp);
    }
  }
}
