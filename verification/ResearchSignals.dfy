/** Monthly signals of accepted events (backend/src/signals/research_signal.py). */
module ResearchSignals {
  import opened Wrappers
  import opened Keys
  import opened Reals
  import opened Calendar

  datatype Axis = RevenueAxis | IngredientAxis | PlatformAxis | OperatingAxis | InterestAxis | CompetitionAxis | UncertaintyAxis

  datatype Direction = Increase | Decrease | Neutral

  datatype Impact = Impact(axis: Axis, direction: Direction)

  /** An event with the scores that do not depend on the month: evidence, severity, location, industry and schedule. */
  datatype Event = Event(
    id: Key,
    cause: Option<Key>,
    accepted: bool,
    signalEnabled: bool,
    start: int,
    startMonth: int,
    end: Option<int>,
    impacts: seq<Impact>,
    evidence: real,
    severity: real,
    geo: real,
    industry: real,
    schedule: real)
  {
    ghost predicate Valid() {
      && 0.0 <= evidence <= 1.0 && 0.0 <= severity <= 1.0 && 0.0 <= geo <= 1.0
      && 0.0 <= industry <= 1.0 && 0.0 <= schedule <= 1.0
    }
  }

  /** The digest of event, store, month and axis, as an injective name. */
  datatype SignalId = SignalId(event: Key, month: int, axis: Axis)

  datatype Signal = Signal(id: SignalId, cause: Option<Key>, direction: int, exposure: real, raw: real)

  function Later(a: int, b: int): int { if a < b then b else a }

  function Earlier(a: int, b: int): int { if b < a then b else a }

  /** Days that an event shares with the closed interval of days `first..last`; an open end runs to `last`. */
  function SharedDays(start: int, end: Option<int>, first: int, last: int): nat {
    var from := Later(first, start);
    var to := Earlier(last, if end.Some? then end.value else last);
    if from > to then 0 else to - from + 1
  }

  /** The fraction of a month that an event covers. */
  function Overlap(e: Event, month: nat): real {
    SharedDays(e.start, e.end, MonthStart(month), MonthEnd(month)) as real / DaysInMonth(month) as real
  }

  function Weighted(exposed: real, industry: real, schedule: real): real { Times(Times(exposed, industry), schedule) }

  function Exposure(e: Event, month: nat): real { Weighted(Times(Overlap(e, month), e.geo), e.industry, e.schedule) }

  function TimeDecay(e: Event, month: nat): real {
    1.0 / (1.0 + 0.15 * (Later(0, month - e.startMonth) as real))
  }

  function Sign(d: Direction): int {
    match d case Increase => 1 case Decrease => -1 case Neutral => 0
  }

  /** Interest impacts count only for a store with variable-rate debt. */
  function FinancialExposure(axis: Axis, variableDebt: bool): real {
    if axis.InterestAxis? && !variableDebt then 0.0 else 1.0
  }

  function RawSignal(sign: int, evidence: real, exposure: real, severity: real, decay: real, financial: real): real {
    Times(Times(Times(Times(Times(sign as real, evidence), exposure), severity), decay), financial)
  }

  function SignalOf(e: Event, impact: Impact, month: nat, variableDebt: bool): Signal {
    Signal(
      SignalId(e.id, month, impact.axis),
      e.cause,
      Sign(impact.direction),
      Exposure(e, month),
      RawSignal(Sign(impact.direction), e.evidence, Exposure(e, month), e.severity, TimeDecay(e, month),
                FinancialExposure(impact.axis, variableDebt)))
  }

  function MonthSignals(e: Event, impacts: seq<Impact>, month: nat, variableDebt: bool): seq<Signal> {
    if impacts == [] then []
    else MonthSignals(e, impacts[..|impacts| - 1], month, variableDebt) + [SignalOf(e, impacts[|impacts| - 1], month, variableDebt)]
  }

  function EventSignals(e: Event, first: nat, months: nat, variableDebt: bool): seq<Signal> {
    if months == 0 then []
    else EventSignals(e, first, months - 1, variableDebt) + MonthSignals(e, e.impacts, first + months - 1, variableDebt)
  }

  function AllSignals(events: seq<Event>, first: nat, months: nat, variableDebt: bool): seq<Signal> {
    if events == [] then []
    else
      var e := events[|events| - 1];
      AllSignals(events[..|events| - 1], first, months, variableDebt)
        + if e.accepted && e.signalEnabled then EventSignals(e, first, months, variableDebt) else []
  }

  // ---------- cause deduplication ----------

  datatype CauseKey = CauseKey(month: int, axis: Axis, cause: Key)

  function KeyOf(s: Signal): CauseKey {
    CauseKey(s.id.month, s.id.axis, if s.cause.Some? then s.cause.value else s.id.event)
  }

  /** Assignment into the insertion-ordered dictionary: a stronger signal takes its predecessor's place. */
  function Keep(chosen: seq<Signal>, s: Signal): seq<Signal> {
    if chosen == [] then [s]
    else if KeyOf(chosen[0]) == KeyOf(s) then (if Abs(s.raw) > Abs(chosen[0].raw) then [s] else [chosen[0]]) + chosen[1..]
    else [chosen[0]] + Keep(chosen[1..], s)
  }

  function DedupeCauses(signals: seq<Signal>): seq<Signal> {
    if signals == [] then [] else Keep(DedupeCauses(signals[..|signals| - 1]), signals[|signals| - 1])
  }

  lemma {:induction false} KeepAt(chosen: seq<Signal>, s: Signal, k: nat)
    requires k <= |chosen| && forall i :: 0 <= i < k ==> KeyOf(chosen[i]) != KeyOf(s)
    requires k < |chosen| ==> KeyOf(chosen[k]) == KeyOf(s)
    ensures Keep(chosen, s) ==
      if k == |chosen| then chosen + [s]
      else if Abs(s.raw) > Abs(chosen[k].raw) then chosen[k := s]
      else chosen
  {
    if k > 0 {
      KeepAt(chosen[1..], s, k - 1);
    } else if chosen != [] {
      assert [chosen[0]] + chosen[1..] == chosen;
    }
  }

  method Dedupe(signals: seq<Signal>) returns (chosen: seq<Signal>)
    ensures chosen == DedupeCauses(signals)
  {
    chosen := [];
    for n := 0 to |signals|
      invariant chosen == DedupeCauses(signals[..n])
    {
      assert signals[..n + 1][..n] == signals[..n];
      var s := signals[n];
      var k := 0;
      while k < |chosen| && KeyOf(chosen[k]) != KeyOf(s)
        invariant k <= |chosen|
        invariant forall i :: 0 <= i < k ==> KeyOf(chosen[i]) != KeyOf(s)
      {
        k := k + 1;
      }
      KeepAt(chosen, s, k);
      if k == |chosen| {
        chosen := chosen + [s];
      } else if Abs(s.raw) > Abs(chosen[k].raw) {
        chosen := chosen[k := s];
      }
    }
    assert signals[..|signals|] == signals;
  }

  method AppendMonth(signals: seq<Signal>, e: Event, month: nat, variableDebt: bool) returns (longer: seq<Signal>)
    ensures longer == signals + MonthSignals(e, e.impacts, month, variableDebt)
  {
    longer := signals;
    for i := 0 to |e.impacts|
      invariant longer == signals + MonthSignals(e, e.impacts[..i], month, variableDebt)
    {
      assert e.impacts[..i + 1][..i] == e.impacts[..i];
      longer := longer + [SignalOf(e, e.impacts[i], month, variableDebt)];
    }
    assert e.impacts[..|e.impacts|] == e.impacts;
  }

  method AppendEvent(signals: seq<Signal>, e: Event, first: nat, months: nat, variableDebt: bool) returns (longer: seq<Signal>)
    ensures longer == signals + EventSignals(e, first, months, variableDebt)
  {
    longer := signals;
    for offset := 0 to months
      invariant longer == signals + EventSignals(e, first, offset, variableDebt)
    {
      longer := AppendMonth(longer, e, first + offset, variableDebt);
    }
  }

  method BuildSignals(events: seq<Event>, first: nat, months: nat, variableDebt: bool) returns (signals: seq<Signal>)
    ensures signals == DedupeCauses(AllSignals(events, first, months, variableDebt))
  {
    signals := [];
    for n := 0 to |events|
      invariant signals == AllSignals(events[..n], first, months, variableDebt)
    {
      assert events[..n + 1][..n] == events[..n];
      if events[n].accepted && events[n].signalEnabled {
        signals := AppendEvent(signals, events[n], first, months, variableDebt);
      }
    }
    assert events[..|events|] == events;
    signals := Dedupe(signals);
  }

  // ---------- the calendar ----------

  function DaysCovered(e: Event, month: nat): real { Overlap(e, month) * (DaysInMonth(month) as real) }

  /** Days covered in the months from `first` on: each month's fraction times its length. */
  function CoveredDays(e: Event, first: nat, months: nat): real {
    if months == 0 then 0.0
    else CoveredDays(e, first, months - 1) + DaysCovered(e, first + months - 1)
  }

  lemma SharedDaysSplit(start: int, end: Option<int>, first: int, middle: int, last: int)
    requires first <= middle + 1 <= last + 1
    ensures SharedDays(start, end, first, last) == SharedDays(start, end, first, middle) + SharedDays(start, end, middle + 1, last)
  {
  }

  lemma FractionTimesDays(shared: real, days: real)
    requires days > 0.0
    ensures shared / days * days == shared
  {
  }

  function SharedInMonth(e: Event, month: nat): nat { SharedDays(e.start, e.end, MonthStart(month), MonthEnd(month)) }

  lemma MonthCovers(e: Event, month: nat)
    ensures DaysCovered(e, month) == SharedInMonth(e, month) as real
  {
    FractionTimesDays(SharedInMonth(e, month) as real, DaysInMonth(month) as real);
  }

  /** Days shared with the months from `first` on, `months` of them. */
  function SharedInHorizon(e: Event, first: nat, months: nat): nat {
    SharedDays(e.start, e.end, MonthStart(first), MonthStart(first + months) - 1)
  }

  lemma HorizonGrows(e: Event, first: nat, months: nat)
    requires first >= 12
    ensures SharedInHorizon(e, first, months + 1) == SharedInHorizon(e, first, months) + SharedInMonth(e, first + months)
  {
    var month := first + months;
    assert first + (months + 1) == month + 1;
    MonthsAdjoin(month);
    MonthStartsAscend(first, months);
    SharedDaysSplit(e.start, e.end, MonthStart(first), MonthStart(month) - 1, MonthEnd(month));
  }

  lemma NoDays(e: Event, first: nat)
    ensures SharedInHorizon(e, first, 0) == 0
  {
    assert first + 0 == first;
  }

  /** The overlap fractions, each times its month's length, add up exactly to the days that the event shares with the
      horizon; an open end means the end of the horizon. */
  lemma {:induction false} OverlapsSumToSharedDays(e: Event, first: nat, months: nat)
    requires first >= 12
    ensures CoveredDays(e, first, months) == SharedInHorizon(e, first, months) as real
  {
    if months == 0 {
      NoDays(e, first);
    } else {
      OverlapsSumToSharedDays(e, first, months - 1);
      HorizonGrows(e, first, months - 1);
      MonthCovers(e, first + months - 1);
    }
  }

  // ---------- deduplicated signals ----------

  ghost predicate DistinctKeys(chosen: seq<Signal>) {
    forall i, j :: 0 <= i < j < |chosen| ==> KeyOf(chosen[i]) != KeyOf(chosen[j])
  }

  ghost predicate Outranked(s: Signal, chosen: seq<Signal>) {
    exists k :: 0 <= k < |chosen| && KeyOf(chosen[k]) == KeyOf(s) && Abs(chosen[k].raw) >= Abs(s.raw)
  }

  /** `chosen` represents `signals`: every member comes from them, and no signal of its key is stronger. */
  ghost predicate Represents(chosen: seq<Signal>, signals: seq<Signal>) {
    && (forall k :: 0 <= k < |chosen| ==> chosen[k] in signals)
    && forall s :: s in signals ==> Outranked(s, chosen)
  }

  lemma FindKey(chosen: seq<Signal>, key: CauseKey) returns (k: nat)
    ensures k <= |chosen| && forall i :: 0 <= i < k ==> KeyOf(chosen[i]) != key
    ensures k < |chosen| ==> KeyOf(chosen[k]) == key
  {
    k := 0;
    while k < |chosen| && KeyOf(chosen[k]) != key
      invariant k <= |chosen| && forall i :: 0 <= i < k ==> KeyOf(chosen[i]) != key
    {
      k := k + 1;
    }
  }

  lemma KeepDistinct(chosen: seq<Signal>, s: Signal)
    requires DistinctKeys(chosen)
    ensures DistinctKeys(Keep(chosen, s))
  {
    var k := FindKey(chosen, KeyOf(s));
    KeepAt(chosen, s, k);
  }

  /** Keeping a signal never weakens the representative of any key. */
  lemma KeepOutranks(chosen: seq<Signal>, s: Signal, t: Signal)
    requires t == s || Outranked(t, chosen)
    ensures Outranked(t, Keep(chosen, s))
  {
    var k := FindKey(chosen, KeyOf(s));
    KeepAt(chosen, s, k);
    var after := Keep(chosen, s);
    if t == s {
      assert KeyOf(after[k]) == KeyOf(s);
    } else {
      var i :| 0 <= i < |chosen| && KeyOf(chosen[i]) == KeyOf(t) && Abs(chosen[i].raw) >= Abs(t.raw);
      assert KeyOf(after[i]) == KeyOf(t) && Abs(after[i].raw) >= Abs(t.raw);
    }
  }

  lemma KeepMembers(chosen: seq<Signal>, signals: seq<Signal>, s: Signal)
    requires forall k :: 0 <= k < |chosen| ==> chosen[k] in signals
    ensures forall k :: 0 <= k < |Keep(chosen, s)| ==> Keep(chosen, s)[k] in signals + [s]
  {
    var k := FindKey(chosen, KeyOf(s));
    KeepAt(chosen, s, k);
  }

  lemma KeepRepresents(chosen: seq<Signal>, signals: seq<Signal>, s: Signal)
    requires Represents(chosen, signals)
    ensures Represents(Keep(chosen, s), signals + [s])
  {
    KeepMembers(chosen, signals, s);
    forall t | t in signals + [s] ensures Outranked(t, Keep(chosen, s)) {
      KeepOutranks(chosen, s, t);
    }
  }

  /** After deduplication each month, axis and cause has exactly one signal, and it is one of largest magnitude. */
  lemma {:induction false} OneStrongestSignalPerCause(signals: seq<Signal>)
    ensures DistinctKeys(DedupeCauses(signals)) && Represents(DedupeCauses(signals), signals)
  {
    if signals != [] {
      var init, last := signals[..|signals| - 1], signals[|signals| - 1];
      OneStrongestSignalPerCause(init);
      KeepDistinct(DedupeCauses(init), last);
      KeepRepresents(DedupeCauses(init), init, last);
      assert signals == init + [last];
    }
  }

  ghost predicate FromEvents(s: Signal, events: seq<Event>) {
    exists e :: e in events && s.id.event == e.id && s.cause == e.cause
  }

  lemma {:induction false} MonthSignalsOrigin(e: Event, impacts: seq<Impact>, month: nat, variableDebt: bool)
    ensures forall s :: s in MonthSignals(e, impacts, month, variableDebt) ==> s.id.event == e.id && s.cause == e.cause
  {
    if impacts != [] { MonthSignalsOrigin(e, impacts[..|impacts| - 1], month, variableDebt); }
  }

  lemma {:induction false} EventSignalsOrigin(e: Event, first: nat, months: nat, variableDebt: bool)
    ensures forall s :: s in EventSignals(e, first, months, variableDebt) ==> s.id.event == e.id && s.cause == e.cause
  {
    if months > 0 {
      EventSignalsOrigin(e, first, months - 1, variableDebt);
      MonthSignalsOrigin(e, e.impacts, first + months - 1, variableDebt);
    }
  }

  lemma {:induction false} AllSignalsOrigin(events: seq<Event>, first: nat, months: nat, variableDebt: bool)
    ensures forall s :: s in AllSignals(events, first, months, variableDebt) ==> FromEvents(s, events)
  {
    if events != [] {
      var init, e := events[..|events| - 1], events[|events| - 1];
      AllSignalsOrigin(init, first, months, variableDebt);
      EventSignalsOrigin(e, first, months, variableDebt);
      assert events == init + [e];
      forall s | s in AllSignals(events, first, months, variableDebt) ensures FromEvents(s, events) {
        if s in AllSignals(init, first, months, variableDebt) {
          var f :| f in init && s.id.event == f.id && s.cause == f.cause;
          assert f in events;
        } else {
          assert e in events;
        }
      }
    }
  }

  /** Signal ids are unique, provided that one event id stands for one cause group. */
  lemma SignalIdsAreUnique(events: seq<Event>, first: nat, months: nat, variableDebt: bool)
    requires forall e, f :: e in events && f in events && e.id == f.id ==> e.cause == f.cause
    ensures var signals := DedupeCauses(AllSignals(events, first, months, variableDebt));
      forall i, j :: 0 <= i < j < |signals| ==> signals[i].id != signals[j].id
  {
    var all := AllSignals(events, first, months, variableDebt);
    var signals := DedupeCauses(all);
    OneStrongestSignalPerCause(all);
    AllSignalsOrigin(events, first, months, variableDebt);
    forall i, j | 0 <= i < j < |signals| ensures signals[i].id != signals[j].id {
      assert signals[i] in signals && signals[j] in signals;
      assert KeyOf(signals[i]) != KeyOf(signals[j]);
      SameIdSameKey(events, signals[i], signals[j]);
    }
  }

  lemma SameIdSameKey(events: seq<Event>, s: Signal, t: Signal)
    requires forall e, f :: e in events && f in events && e.id == f.id ==> e.cause == f.cause
    requires FromEvents(s, events) && FromEvents(t, events)
    ensures s.id == t.id ==> KeyOf(s) == KeyOf(t)
  {
  }

  // ---------- magnitudes ----------

  lemma Shrinks(x: real, factor: real)
    requires 0.0 <= x && 0.0 <= factor <= 1.0
    ensures 0.0 <= x * factor <= x
  {
    MulNonNegative(x, factor);
    MulNonNegative(x, 1.0 - factor);
  }

  lemma OverlapIsFraction(e: Event, month: nat)
    ensures 0.0 <= Overlap(e, month) <= 1.0
  {
    var shared, days := SharedDays(e.start, e.end, MonthStart(month), MonthEnd(month)) as real, DaysInMonth(month) as real;
    QuotientAtMost(shared, days, 1.0);
    QuotientAtMost(-shared, days, 0.0);
    QuotientIs(-shared, days, -(shared / days));
  }

  lemma DecayIsFraction(e: Event, month: nat)
    ensures 0.0 < TimeDecay(e, month) <= 1.0
  {
    var d := 1.0 + 0.15 * (Later(0, month - e.startMonth) as real);
    QuotientAtMost(1.0, d, 1.0);
    if 1.0 / d <= 0.0 { QuotientAtMost(1.0, d, 0.0); }
  }

  lemma Weaker(x: real, y: real, factor: real)
    requires Abs(x) <= y && 0.0 <= factor <= 1.0
    ensures Abs(Times(x, factor)) <= y
  {
    if x >= 0.0 {
      Shrinks(x, factor);
    } else {
      Shrinks(-x, factor);
      assert (-x) * factor == -(x * factor);
    }
  }

  lemma UnitTimes(u: real, x: real)
    requires Abs(u) <= 1.0 && x >= 0.0
    ensures Abs(Times(u, x)) <= x
  {
    MulNonNegative(1.0 - u, x);
    MulNonNegative(1.0 + u, x);
    assert (1.0 - u) * x == x - u * x && (1.0 + u) * x == x + u * x;
  }

  lemma SignedProduct(sign: int, a: real, x: real, b: real, c: real, d: real)
    requires -1 <= sign <= 1 && x >= 0.0
    requires 0.0 <= a <= 1.0 && 0.0 <= b <= 1.0 && 0.0 <= c <= 1.0 && 0.0 <= d <= 1.0
    ensures Abs(RawSignal(sign, a, x, b, c, d)) <= x
  {
    var u := Times(sign as real, a);
    Weaker(sign as real, 1.0, a);
    UnitTimes(u, x);
    Weaker(Times(u, x), x, b);
    Weaker(Times(Times(u, x), b), x, c);
    Weaker(Times(Times(Times(u, x), b), c), x, d);
  }

  lemma TimesShrinks(x: real, factor: real)
    requires 0.0 <= x && 0.0 <= factor <= 1.0
    ensures 0.0 <= Times(x, factor) <= x
  {
    Shrinks(x, factor);
  }

  lemma WeightedShrinks(x: real, i: real, s: real)
    requires 0.0 <= x && 0.0 <= i <= 1.0 && 0.0 <= s <= 1.0
    ensures 0.0 <= Weighted(x, i, s) <= x
  {
    TimesShrinks(x, i);
    TimesShrinks(Times(x, i), s);
  }

  lemma ExposureWithinOverlap(e: Event, month: nat)
    requires e.Valid()
    ensures 0.0 <= Exposure(e, month) <= Overlap(e, month) <= 1.0
  {
    OverlapIsFraction(e, month);
    var overlap := Overlap(e, month);
    TimesShrinks(overlap, e.geo);
    WeightedShrinks(Times(overlap, e.geo), e.industry, e.schedule);
  }

  /** No signal is stronger than the share of the month that its event covers. */
  lemma SignalWithinOverlap(e: Event, impact: Impact, month: nat, variableDebt: bool)
    requires e.Valid()
    ensures Abs(SignalOf(e, impact, month, variableDebt).raw) <= Overlap(e, month) <= 1.0
  {
    ExposureWithinOverlap(e, month);
    DecayIsFraction(e, month);
    SignedProduct(Sign(impact.direction), e.evidence, Exposure(e, month), e.severity, TimeDecay(e, month),
                  FinancialExposure(impact.axis, variableDebt));
  }
}
