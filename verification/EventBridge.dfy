/** Bridging newer primary-source decisions into a delayed official series
    (backend/src/forecasting/official_event_bridge.py). */
module EventBridge {
  import opened Wrappers
  import opened Keys
  import opened Sorting

  datatype Quality = Valid | Stale | Revised | Rejected

  /** `unit` is the upper-cased unit; `availableAt` counts seconds. */
  datatype Observation = Observation(
    id: Key,
    indicator: Key,
    value: real,
    unit: Key,
    observedAt: int,
    availableAt: int,
    quality: Quality)

  /** The declared value, with the text that identifies it; it may be unreadable or not finite. */
  datatype DeclaredValue = Unreadable | NotFinite(text: Key) | Finite(text: Key, amount: real)

  datatype Path = IndicatorPath | NewValuePath | UnitPath | OtherPath(name: Key)

  const REQUIRED_PATHS := {IndicatorPath, NewValuePath, UnitPath}

  const BASE_RATE: Key := 0

  datatype Event = Event(
    id: Key,
    eventType: Key,
    mapped: bool,
    startDate: int,
    actorOrg: Option<Key>,
    foreignCentralBank: bool,
    officialPrimary: bool,
    declaredIndicator: Option<Key>,
    value: DeclaredValue,
    unit: Option<Key>,
    evidencedPaths: set<Path>)

  datatype Status = Ineligible | Expired | Applied

  datatype Reason =
    | SourceNotOfficialPrimary
    | ActorNotAuthorized
    | IndicatorMismatch
    | ValueOrUnitNotEvidenced
    | NoBaselineObservation
    | UnitMismatch
    | SeriesCaughtUp
    | NotYetEffective
    | BridgesStaleSeries

  datatype Decision = Decision(
    eventId: Key,
    effectiveDate: int,
    status: Status,
    reason: Reason,
    latestObservedAt: Option<int>,
    latestValue: Option<real>,
    syntheticId: Option<Key>)

  datatype Identity = Identity(
    actorOrg: Option<Key>, indicator: Option<Key>, startDate: int, eventType: Key, valueText: Option<Key>, unit: Option<Key>)

  datatype Bridged = Bridged(observations: seq<Observation>, decisions: seq<Decision>, seen: set<Identity>)

  predicate EarlierEvent(a: Event, b: Event) {
    a.startDate < b.startDate || (a.startDate == b.startDate && a.id <= b.id)
  }

  function IdentityOf(e: Event): Identity {
    var text := match e.value case Unreadable => None case NotFinite(text) => Some(text) case Finite(text, _) => Some(text);
    Identity(e.actorOrg, e.declaredIndicator, e.startDate, e.eventType, text, e.unit)
  }

  predicate Counts(o: Observation) {
    o.indicator == BASE_RATE && (o.quality.Valid? || o.quality.Revised?)
  }

  predicate Newer(a: Observation, b: Observation) {
    || a.observedAt > b.observedAt
    || (a.observedAt == b.observedAt && a.availableAt > b.availableAt)
    || (a.observedAt == b.observedAt && a.availableAt == b.availableAt && a.id > b.id)
  }

  /** The newest usable observation of the series. */
  function Latest(observations: seq<Observation>): Option<Observation> {
    if observations == [] then None
    else
      var last := observations[|observations| - 1];
      var earlier := Latest(observations[..|observations| - 1]);
      if Counts(last) && (earlier.None? || Newer(last, earlier.value)) then Some(last) else earlier
  }

  lemma {:induction false} LatestIsNewest(observations: seq<Observation>)
    ensures Latest(observations).Some? ==> Latest(observations).value in observations && Counts(Latest(observations).value)
    ensures forall o :: o in observations && Counts(o) ==>
      Latest(observations).Some? && !Newer(o, Latest(observations).value)
  {
    if observations != [] {
      LatestIsNewest(observations[..|observations| - 1]);
      assert observations == observations[..|observations| - 1] + [observations[|observations| - 1]];
    }
  }

  /** The first obstacle to using an event, in the order of the checks. */
  function Judge(e: Event, latest: Option<Observation>, asOf: int): (Status, Reason) {
    if !e.officialPrimary then (Ineligible, SourceNotOfficialPrimary)
    else if e.foreignCentralBank then (Ineligible, ActorNotAuthorized)
    else if e.declaredIndicator != Some(BASE_RATE) then (Ineligible, IndicatorMismatch)
    else if !e.value.Finite? || e.unit.None? || !(REQUIRED_PATHS <= e.evidencedPaths) then (Ineligible, ValueOrUnitNotEvidenced)
    else if latest.None? then (Ineligible, NoBaselineObservation)
    else if latest.value.unit != e.unit.value then (Ineligible, UnitMismatch)
    else if e.startDate <= latest.value.observedAt then (Expired, SeriesCaughtUp)
    else if e.startDate > asOf then (Ineligible, NotYetEffective)
    else (Applied, BridgesStaleSeries)
  }

  function Synthetic(e: Event, id: Key): Observation
    requires e.value.Finite? && e.unit.Some?
  {
    Observation(id, BASE_RATE, e.value.amount, e.unit.value, e.startDate, e.startDate * 86400, Valid)
  }

  function Record(e: Event, verdict: (Status, Reason), latest: Option<Observation>, id: Key): Decision {
    Decision(e.id, e.startDate, verdict.0, verdict.1,
             if latest.Some? then Some(latest.value.observedAt) else None,
             if latest.Some? then Some(latest.value.value) else None,
             if verdict.0.Applied? then Some(id) else None)
  }

  /** One turn of the loop; `newId` names the observation derived from an event. */
  function Step(s: Bridged, e: Event, asOf: int, newId: Event -> Key): Bridged {
    if !e.mapped || IdentityOf(e) in s.seen then s
    else
      var latest := Latest(s.observations);
      var verdict := Judge(e, latest, asOf);
      Bridged(
        s.observations + if verdict.0.Applied? then [Synthetic(e, newId(e))] else [],
        s.decisions + [Record(e, verdict, latest, newId(e))],
        s.seen + {IdentityOf(e)})
  }

  function Fold(observations: seq<Observation>, events: seq<Event>, asOf: int, newId: Event -> Key): Bridged {
    if events == [] then Bridged(observations, [], {})
    else Step(Fold(observations, events[..|events| - 1], asOf, newId), events[|events| - 1], asOf, newId)
  }

  function Bridge(observations: seq<Observation>, events: seq<Event>, asOf: int, newId: Event -> Key): Bridged {
    Fold(observations, SortBy(EarlierEvent, events), asOf, newId)
  }

  method ApplyOfficialEventBridge(observations: seq<Observation>, events: seq<Event>, asOf: int, newId: Event -> Key)
    returns (derived: seq<Observation>, decisions: seq<Decision>)
    ensures derived == Bridge(observations, events, asOf, newId).observations
    ensures decisions == Bridge(observations, events, asOf, newId).decisions
  {
    derived, decisions := observations, [];
    if events == [] { return; }
    var seen: set<Identity> := {};
    var ordered := SortBy(EarlierEvent, events);
    for k := 0 to |ordered|
      invariant Fold(observations, ordered[..k], asOf, newId) == Bridged(derived, decisions, seen)
    {
      assert ordered[..k + 1][..k] == ordered[..k];
      var e := ordered[k];
      if !e.mapped { continue; }
      var latest := Latest(derived);
      var identity := IdentityOf(e);
      if identity in seen { continue; }
      seen := seen + {identity};
      var verdict := Judge(e, latest, asOf);
      if verdict.0.Applied? {
        derived := derived + [Synthetic(e, newId(e))];
      }
      decisions := decisions + [Record(e, verdict, latest, newId(e))];
    }
    assert ordered[..|ordered|] == ordered;
  }

  /** What a step may do to the newest observation: nothing, or move it to a later date that is not after `asOf`,
      in the same unit. */
  ghost predicate Advances(a: Option<Observation>, b: Option<Observation>, asOf: int) {
    || a == b
    || (a.Some? && b.Some? && a.value.unit == b.value.unit && a.value.observedAt < b.value.observedAt <= asOf)
  }

  lemma LatestAppend(observations: seq<Observation>, o: Observation)
    requires Counts(o) && (Latest(observations).None? || o.observedAt > Latest(observations).value.observedAt)
    ensures Latest(observations + [o]) == Some(o)
  {
    assert (observations + [o])[..|observations|] == observations;
  }

  lemma StepAdvances(s: Bridged, e: Event, asOf: int, newId: Event -> Key)
    ensures Advances(Latest(s.observations), Latest(Step(s, e, asOf, newId).observations), asOf)
    ensures var verdict := Judge(e, Latest(s.observations), asOf);
      e.mapped && IdentityOf(e) !in s.seen && verdict.0.Applied? ==>
        Latest(Step(s, e, asOf, newId).observations) == Some(Synthetic(e, newId(e)))
  {
    var verdict := Judge(e, Latest(s.observations), asOf);
    if e.mapped && IdentityOf(e) !in s.seen {
      if verdict.0.Applied? {
        LatestAppend(s.observations, Synthetic(e, newId(e)));
      } else {
        assert s.observations + [] == s.observations;
      }
    }
  }

  lemma {:induction false} FoldAdvances(observations: seq<Observation>, events: seq<Event>, asOf: int, newId: Event -> Key, k: nat)
    requires k <= |events|
    ensures Advances(Latest(Fold(observations, events[..k], asOf, newId).observations),
                     Latest(Fold(observations, events, asOf, newId).observations), asOf)
    decreases |events|
  {
    if k == |events| {
      assert events[..k] == events;
    } else {
      var init := events[..|events| - 1];
      assert init[..k] == events[..k];
      FoldAdvances(observations, init, asOf, newId, k);
      StepAdvances(Fold(observations, init, asOf, newId), events[|events| - 1], asOf, newId);
    }
  }

  /** The overrides that a run has appended. */
  ghost predicate Overrides(before: seq<Observation>, after: seq<Observation>, asOf: int) {
    && before <= after
    && (forall i :: |before| <= i < |after| ==>
          && Counts(after[i])
          && Latest(before).Some?
          && Latest(before).value.observedAt < after[i].observedAt <= asOf
          && after[i].unit == Latest(before).value.unit)
    && (forall i, j :: |before| <= i < j < |after| ==> after[i].observedAt < after[j].observedAt)
    && Latest(after) == if |after| == |before| then Latest(before) else Some(after[|after| - 1])
  }

  /** The original observations stay as a prefix; the overrides after it lie strictly after the registered series,
      not after the as-of date, in strictly increasing order, and the last one is the newest observation. */
  lemma {:induction false} OverridesExtendSeries(observations: seq<Observation>, events: seq<Event>, asOf: int, newId: Event -> Key)
    ensures Overrides(observations, Fold(observations, events, asOf, newId).observations, asOf)
  {
    if events != [] {
      var init, e := events[..|events| - 1], events[|events| - 1];
      OverridesExtendSeries(observations, init, asOf, newId);
      var s := Fold(observations, init, asOf, newId);
      StepAdvances(s, e, asOf, newId);
      assert s.observations + [] == s.observations;
    }
  }

  /** Every mapped event identity is decided exactly once, and the applied decisions are the overrides. */
  lemma {:induction false} EveryIdentityDecidedOnce(observations: seq<Observation>, events: seq<Event>, asOf: int, newId: Event -> Key)
    ensures var s := Fold(observations, events, asOf, newId);
      && s.seen == (set e | e in events && e.mapped :: IdentityOf(e))
      && |s.decisions| == |s.seen|
      && AppliedCount(s.decisions) == |s.observations| - |observations|
  {
    if events != [] {
      var init, e := events[..|events| - 1], events[|events| - 1];
      EveryIdentityDecidedOnce(observations, init, asOf, newId);
      assert events == init + [e];
      var s := Fold(observations, init, asOf, newId);
      if e.mapped && IdentityOf(e) !in s.seen {
        var decision := Record(e, Judge(e, Latest(s.observations), asOf), Latest(s.observations), newId(e));
        assert (s.decisions + [decision])[..|s.decisions|] == s.decisions;
      }
    }
  }

  function AppliedCount(decisions: seq<Decision>): nat {
    if decisions == [] then 0
    else AppliedCount(decisions[..|decisions| - 1]) + if decisions[|decisions| - 1].status.Applied? then 1 else 0
  }

  function Rerun(verdict: (Status, Reason)): (Status, Reason) {
    if verdict.0.Applied? then (Expired, SeriesCaughtUp) else verdict
  }

  /** Judged against a later state of the series, an applied event has expired and every other verdict stands. */
  lemma JudgeLater(e: Event, a: Option<Observation>, b: Option<Observation>, asOf: int)
    requires Advances(a, b, asOf)
    requires Judge(e, a, asOf).0.Applied? ==> b.Some? && e.startDate <= b.value.observedAt
    ensures Judge(e, b, asOf) == Rerun(Judge(e, a, asOf))
  {
  }

  ghost predicate SameButExpired(first: Decision, second: Decision) {
    && second.eventId == first.eventId
    && second.effectiveDate == first.effectiveDate
    && (second.status, second.reason) == Rerun((first.status, first.reason))
  }

  lemma AppliedDateReached(observations: seq<Observation>, events: seq<Event>, asOf: int, newId: Event -> Key, k: nat)
    requires k < |events|
    requires var s := Fold(observations, events[..k], asOf, newId);
      events[k].mapped && IdentityOf(events[k]) !in s.seen && Judge(events[k], Latest(s.observations), asOf).0.Applied?
    ensures var newest := Latest(Fold(observations, events, asOf, newId).observations);
      newest.Some? && events[k].startDate <= newest.value.observedAt
  {
    StepAdvances(Fold(observations, events[..k], asOf, newId), events[k], asOf, newId);
    assert events[..k + 1][..k] == events[..k];
    FoldAdvances(observations, events, asOf, newId, k + 1);
  }

  /** The second pass over the first `k` events, started from everything that the first pass produced. */
  lemma {:induction false} SecondPass(observations: seq<Observation>, events: seq<Event>, asOf: int, newId: Event -> Key, k: nat)
    requires k <= |events|
    ensures var final := Fold(observations, events, asOf, newId).observations;
      var s, t := Fold(observations, events[..k], asOf, newId), Fold(final, events[..k], asOf, newId);
      && t.observations == final
      && t.seen == s.seen
      && |t.decisions| == |s.decisions|
      && forall i :: 0 <= i < |s.decisions| ==> SameButExpired(s.decisions[i], t.decisions[i])
  {
    if k > 0 {
      SecondPass(observations, events, asOf, newId, k - 1);
      var e := events[k - 1];
      assert events[..k][..k - 1] == events[..k - 1];
      var final := Fold(observations, events, asOf, newId).observations;
      var s := Fold(observations, events[..k - 1], asOf, newId);
      if e.mapped && IdentityOf(e) !in s.seen {
        FoldAdvances(observations, events, asOf, newId, k - 1);
        if Judge(e, Latest(s.observations), asOf).0.Applied? {
          AppliedDateReached(observations, events, asOf, newId, k - 1);
        }
        JudgeLater(e, Latest(s.observations), Latest(final), asOf);
        assert final + [] == final;
      }
    }
  }

  /** Bridging its own output again with the same events appends nothing, and decides every event as before except
      that what was applied has now expired. */
  lemma BridgeIsIdempotent(observations: seq<Observation>, events: seq<Event>, asOf: int, newId: Event -> Key)
    ensures var first := Bridge(observations, events, asOf, newId);
      var second := Bridge(first.observations, events, asOf, newId);
      && second.observations == first.observations
      && |second.decisions| == |first.decisions|
      && forall i :: 0 <= i < |first.decisions| ==> SameButExpired(first.decisions[i], second.decisions[i])
  {
    var ordered := SortBy(EarlierEvent, events);
    SecondPass(observations, ordered, asOf, newId, |ordered|);
    assert ordered[..|ordered|] == ordered;
  }

  lemma BridgeOverrides(observations: seq<Observation>, events: seq<Event>, asOf: int, newId: Event -> Key)
    ensures Overrides(observations, Bridge(observations, events, asOf, newId).observations, asOf)
  {
    OverridesExtendSeries(observations, SortBy(EarlierEvent, events), asOf, newId);
  }
}
