/** The interest change of several rate events of one cause: only one signal a month survives deduplication. */
module InterestCause {
  import opened Wrappers
  import opened Keys
  import opened Reals
  import opened ResearchSignals
  import opened ScenarioAdjustment
  import opened InterestChange

  /** On the axis, a signal of the one cause, within the months and not stronger than `most`. */
  ghost predicate Fits(s: Signal, axis: Axis, cause: Key, low: int, high: int, most: real) {
    s.id.axis == axis ==> KeyOf(s).cause == cause && low <= s.id.month < high && s.raw <= most
  }

  ghost predicate AllFit(signals: seq<Signal>, axis: Axis, cause: Key, low: int, high: int, most: real) {
    forall k :: 0 <= k < |signals| ==> Fits(signals[k], axis, cause, low, high, most)
  }

  /** An event that stays off the axis, or belongs to the cause and is not more severe than `most`. */
  ghost predicate OfCause(e: Event, axis: Axis, cause: Key, most: real) {
    Silent(e, axis) || (e.Valid() && e.cause == Some(cause) && e.severity <= most)
  }

  lemma SignalFits(e: Event, impact: Impact, month: nat, variableDebt: bool, axis: Axis, cause: Key, low: int, high: int, most: real)
    requires e.Valid() && e.cause == Some(cause) && e.severity <= most && low <= month < high
    ensures Fits(SignalOf(e, impact, month, variableDebt), axis, cause, low, high, most)
  {
    SignalWithinSeverity(e, impact, month, variableDebt);
    DecayIsFraction(e, month);
    TimesMonotone(TimeDecay(e, month), 1.0, e.severity, e.severity);
    assert Times(1.0, e.severity) == e.severity;
  }

  lemma {:induction false} MonthFits(e: Event, impacts: seq<Impact>, month: nat, variableDebt: bool, axis: Axis, cause: Key, low: int, high: int, most: real)
    requires e.Valid() && e.cause == Some(cause) && e.severity <= most && low <= month < high
    ensures AllFit(MonthSignals(e, impacts, month, variableDebt), axis, cause, low, high, most)
  {
    if impacts != [] {
      MonthFits(e, impacts[..|impacts| - 1], month, variableDebt, axis, cause, low, high, most);
      SignalFits(e, impacts[|impacts| - 1], month, variableDebt, axis, cause, low, high, most);
    }
  }

  lemma FitAppend(a: seq<Signal>, b: seq<Signal>, axis: Axis, cause: Key, low: int, high: int, most: real)
    requires AllFit(a, axis, cause, low, high, most) && AllFit(b, axis, cause, low, high, most)
    ensures AllFit(a + b, axis, cause, low, high, most)
  {
  }

  lemma OffAxisFits(s: seq<Signal>, axis: Axis, cause: Key, low: int, high: int, most: real)
    requires OffAxis(s, axis)
    ensures AllFit(s, axis, cause, low, high, most)
  {
  }

  lemma {:induction false} EventFits(e: Event, first: nat, months: nat, variableDebt: bool, axis: Axis, cause: Key, high: int, most: real)
    requires e.Valid() && e.cause == Some(cause) && e.severity <= most && first + months <= high
    ensures AllFit(EventSignals(e, first, months, variableDebt), axis, cause, first, high, most)
  {
    if months > 0 {
      var month := first + months - 1;
      EventFits(e, first, months - 1, variableDebt, axis, cause, high, most);
      MonthFits(e, e.impacts, month, variableDebt, axis, cause, first, high, most);
      FitAppend(EventSignals(e, first, months - 1, variableDebt), MonthSignals(e, e.impacts, month, variableDebt), axis, cause, first, high, most);
    }
  }

  lemma LastFits(events: seq<Event>, first: nat, months: nat, variableDebt: bool, axis: Axis, cause: Key, most: real)
    requires events != [] && OfCause(events[|events| - 1], axis, cause, most)
    ensures AllFit(LastSignals(events, first, months, variableDebt), axis, cause, first, first + months, most)
  {
    var e := events[|events| - 1];
    if Silent(e, axis) {
      LastIsSilent(events, first, months, variableDebt, axis, 0.0);
      OffAxisFits(LastSignals(events, first, months, variableDebt), axis, cause, first, first + months, most);
    } else {
      EventFits(e, first, months, variableDebt, axis, cause, first + months, most);
    }
  }

  lemma {:induction false} SignalsFit(events: seq<Event>, first: nat, months: nat, variableDebt: bool, axis: Axis, cause: Key, most: real)
    requires forall k :: 0 <= k < |events| ==> OfCause(events[k], axis, cause, most)
    ensures AllFit(AllSignals(events, first, months, variableDebt), axis, cause, first, first + months, most)
  {
    if events != [] {
      var init := events[..|events| - 1];
      SignalsFit(init, first, months, variableDebt, axis, cause, most);
      LastFits(events, first, months, variableDebt, axis, cause, most);
      FitAppend(AllSignals(init, first, months, variableDebt), LastSignals(events, first, months, variableDebt), axis, cause,
                first, first + months, most);
    }
  }

  /** The months that have a signal on the axis. */
  function Months(signals: seq<Signal>, axis: Axis): set<int> {
    if signals == [] then {}
    else
      var last := signals[|signals| - 1];
      Months(signals[..|signals| - 1], axis) + if last.id.axis == axis then {last.id.month} else {}
  }

  lemma {:induction false} MonthsMember(signals: seq<Signal>, axis: Axis)
    ensures forall m :: m in Months(signals, axis) ==> exists k :: 0 <= k < |signals| && signals[k].id.axis == axis && signals[k].id.month == m
  {
    if signals != [] {
      var init := signals[..|signals| - 1];
      MonthsMember(init, axis);
      forall m | m in Months(signals, axis) ensures exists k :: 0 <= k < |signals| && signals[k].id.axis == axis && signals[k].id.month == m {
        if m in Months(init, axis) {
          var k :| 0 <= k < |init| && init[k].id.axis == axis && init[k].id.month == m;
          assert signals[k] == init[k];
        } else {
          assert signals[|signals| - 1].id.month == m;
        }
      }
    }
  }

  lemma NewMonth(signals: seq<Signal>, axis: Axis, cause: Key, low: int, high: int, most: real)
    requires signals != [] && DistinctKeys(signals) && AllFit(signals, axis, cause, low, high, most)
    requires signals[|signals| - 1].id.axis == axis
    ensures signals[|signals| - 1].id.month !in Months(signals[..|signals| - 1], axis)
  {
    var n := |signals| - 1;
    MonthsMember(signals[..n], axis);
    assert Fits(signals[n], axis, cause, low, high, most);
    forall k | 0 <= k < n && signals[k].id.axis == axis ensures signals[k].id.month != signals[n].id.month {
      assert Fits(signals[k], axis, cause, low, high, most);
      assert KeyOf(signals[k]) != KeyOf(signals[n]);
    }
  }

  lemma {:induction false} ShockAtMost(signals: seq<Signal>, axis: Axis, beta: real, cause: Key, low: int, high: int, most: real)
    requires DistinctKeys(signals) && AllFit(signals, axis, cause, low, high, most) && beta >= 0.0
    ensures Shock(signals, axis, beta) <= Times(Times(|Months(signals, axis)| as real, most), beta)
    ensures forall m :: m in Months(signals, axis) ==> low <= m < high
  {
    if signals == [] {
      assert Times(Times(0.0, most), beta) == 0.0;
    } else {
      var n := |signals| - 1;
      ShockAtMost(signals[..n], axis, beta, cause, low, high, most);
      assert Fits(signals[n], axis, cause, low, high, most);
      if signals[n].id.axis == axis {
        NewMonth(signals, axis, cause, low, high, most);
        var before := |Months(signals[..n], axis)|;
        assert |Months(signals, axis)| == before + 1;
        OneMonthMore(before as real, Shock(signals[..n], axis, beta), signals[n].raw, most, beta);
      }
    }
  }

  lemma OneMonthMore(count: real, shock: real, raw: real, most: real, beta: real)
    requires shock <= Times(Times(count, most), beta) && raw <= most && beta >= 0.0
    ensures shock + Times(raw, beta) <= Times(Times(count + 1.0, most), beta)
  {
    AtMostFactor(raw, most, beta);
    TimesSum(count, 1.0, most);
    TimesSum(Times(count, most), most, beta);
    assert Times(1.0, most) == most;
  }

  lemma RangeCard(s: set<int>, low: int, count: nat)
    requires forall m :: m in s ==> low <= m < low + count
    ensures |s| <= count
    decreases count
  {
    if count == 0 {
      forall m: int ensures m !in s {}
      assert s == {};
    } else {
      var rest := s - {low + count - 1};
      RangeCard(rest, low, count - 1);
      assert s <= rest + {low + count - 1};
    }
  }

  /** Whatever rate events of one cause there are, at most one signal a month survives, so the change never exceeds the
      coefficient times the greatest severity times the number of months. */
  lemma InterestChangeOfCause(events: seq<Event>, first: nat, months: nat, variableDebt: bool, cause: Key, most: real,
                              stress: Stress, rules: Axis -> Rule, exp: real -> real)
    requires most >= 0.0 && SoundRules(rules)
    requires forall k :: 0 <= k < |events| ==> OfCause(events[k], InterestAxis, cause, most)
    ensures ChangeOf(stress, Built(events, first, months, variableDebt), rules, exp)
      <= Times(Times(months as real, most), rules(InterestAxis).beta)
  {
    var all, beta := AllSignals(events, first, months, variableDebt), rules(InterestAxis).beta;
    var signals := DedupeCauses(all);
    SignalsFit(events, first, months, variableDebt, InterestAxis, cause, most);
    OneStrongestSignalPerCause(all);
    KeptFit(signals, all, InterestAxis, cause, first, first + months, most);
    ShockAtMost(signals, InterestAxis, beta, cause, first, first + months, most);
    var count := |Months(signals, InterestAxis)|;
    RangeCard(Months(signals, InterestAxis), first, months);
    TwiceTimes(Times(count as real, most), count as real, months as real, most, beta);
  }

  lemma KeptFit(kept: seq<Signal>, all: seq<Signal>, axis: Axis, cause: Key, low: int, high: int, most: real)
    requires AllFit(all, axis, cause, low, high, most) && forall k :: 0 <= k < |kept| ==> kept[k] in all
    ensures AllFit(kept, axis, cause, low, high, most)
  {
    forall k | 0 <= k < |kept| ensures Fits(kept[k], axis, cause, low, high, most) {
      var m :| 0 <= m < |all| && all[m] == kept[k];
    }
  }
}
