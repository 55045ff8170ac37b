/** Which events are bridged into the official series, with which value, and what every decision says. */
module BridgeEligibility {
  import opened Wrappers
  import opened Keys
  import opened Sorting
  import opened EventBridge

  // ---------- the newest observation ----------

  /** A base-rate observation of good quality. */
  ghost predicate Usable(o: Observation) { o.indicator == BASE_RATE && o.quality in {Valid, Revised} }

  /** Later by observation day, then by availability, then by id. */
  ghost predicate Follows(a: Observation, b: Observation) {
    if a.observedAt != b.observedAt then a.observedAt > b.observedAt
    else if a.availableAt != b.availableAt then a.availableAt > b.availableAt
    else a.id > b.id
  }

  ghost predicate NewestAt(observations: seq<Observation>, i: nat) {
    && i < |observations| && Usable(observations[i])
    && (forall j :: 0 <= j < i && Usable(observations[j]) ==> Follows(observations[i], observations[j]))
    && (forall j :: i < j < |observations| && Usable(observations[j]) ==> !Follows(observations[j], observations[i]))
  }

  /** The usable observation that no other one follows, the first of them; none if none is usable. */
  ghost predicate IsNewest(observations: seq<Observation>, newest: Option<Observation>) {
    match newest
    case None => forall o :: o in observations ==> !Usable(o)
    case Some(o) => exists i: nat :: NewestAt(observations, i) && observations[i] == o
  }

  lemma NewestStays(init: seq<Observation>, last: Observation, i: nat)
    requires NewestAt(init, i) && !(Usable(last) && Follows(last, init[i]))
    ensures NewestAt(init + [last], i)
  {
  }

  lemma NewestMoves(init: seq<Observation>, last: Observation, newest: Option<Observation>)
    requires IsNewest(init, newest) && Usable(last) && (newest.Some? ==> Follows(last, newest.value))
    ensures NewestAt(init + [last], |init|)
  {
    var all := init + [last];
    forall j | 0 <= j < |init| && Usable(all[j]) ensures Follows(last, all[j]) {
      assert all[j] == init[j] && init[j] in init;
      var i: nat :| NewestAt(init, i) && init[i] == newest.value;
      if j < i { assert Follows(init[i], init[j]); } else if i < j { assert !Follows(init[j], init[i]); }
    }
  }

  lemma NoneUsable(init: seq<Observation>, last: Observation)
    requires IsNewest(init, None) && !Usable(last)
    ensures IsNewest(init + [last], None)
  {
  }

  lemma {:induction false} LatestIsNewestOne(observations: seq<Observation>)
    ensures IsNewest(observations, Latest(observations))
  {
    if observations != [] {
      var init, last := observations[..|observations| - 1], observations[|observations| - 1];
      LatestIsNewestOne(init);
      assert observations == init + [last];
      var newest := Latest(init);
      if Usable(last) && (newest.Some? ==> Follows(last, newest.value)) {
        NewestMoves(init, last, newest);
        assert observations[|init|] == last;
      } else if newest.Some? {
        var i: nat :| NewestAt(init, i) && init[i] == newest.value;
        NewestStays(init, last, i);
      } else {
        NoneUsable(init, last);
      }
    }
  }

  // ---------- the order and the identity of events ----------

  /** By date, then by id. */
  ghost predicate InOrder(events: seq<Event>) {
    forall i, j :: 0 <= i < j < |events| ==>
      events[i].startDate < events[j].startDate || (events[i].startDate == events[j].startDate && events[i].id <= events[j].id)
  }

  lemma EventsInOrder(events: seq<Event>)
    ensures Permutes(SortBy(EarlierEvent, events), events) && InOrder(SortBy(EarlierEvent, events))
  {
    assert TotalPreorder(EarlierEvent);
    SortPermutes(EarlierEvent, events);
    SortSorts(EarlierEvent, events);
  }

  ghost predicate SameText(a: DeclaredValue, b: DeclaredValue) {
    if a.Unreadable? || b.Unreadable? then a == b else a.text == b.text
  }

  ghost predicate SameDecision(a: Event, b: Event) {
    && a.actorOrg == b.actorOrg && a.declaredIndicator == b.declaredIndicator && a.startDate == b.startDate
    && a.eventType == b.eventType && SameText(a.value, b.value) && a.unit == b.unit
  }

  lemma SameIdentityIff(a: Event, b: Event)
    ensures IdentityOf(a) == IdentityOf(b) <==> SameDecision(a, b)
  {
  }

  /** Position `k` is the first mapped event of its identity. */
  ghost predicate FirstOfItsKind(events: seq<Event>, k: nat) {
    && k < |events| && events[k].mapped
    && forall j :: 0 <= j < k && events[j].mapped ==> !SameDecision(events[j], events[k])
  }

  // ---------- the grounds of a decision ----------

  ghost predicate Evidenced(e: Event) {
    && e.value.Finite? && e.unit.Some?
    && IndicatorPath in e.evidencedPaths && NewValuePath in e.evidencedPaths && UnitPath in e.evidencedPaths
  }

  /** An official primary source declares the base rate of a central bank that sets it, with an evidenced value. */
  ghost predicate Qualifies(e: Event) {
    e.mapped && e.officialPrimary && !e.foreignCentralBank && e.declaredIndicator == Some(BASE_RATE) && Evidenced(e)
  }

  /** Exactly when each reason is given. */
  ghost predicate Grounds(reason: Reason, e: Event, newest: Option<Observation>, asOf: int) {
    var authorised := e.officialPrimary && !e.foreignCentralBank;
    var declared := authorised && e.declaredIndicator == Some(BASE_RATE);
    var comparable := declared && Evidenced(e) && newest.Some?;
    var sameUnit := comparable && newest.value.unit == e.unit.value;
    match reason
    case SourceNotOfficialPrimary => !e.officialPrimary
    case ActorNotAuthorized => e.officialPrimary && e.foreignCentralBank
    case IndicatorMismatch => authorised && e.declaredIndicator != Some(BASE_RATE)
    case ValueOrUnitNotEvidenced => declared && !Evidenced(e)
    case NoBaselineObservation => declared && Evidenced(e) && newest.None?
    case UnitMismatch => comparable && newest.value.unit != e.unit.value
    case SeriesCaughtUp => sameUnit && e.startDate <= newest.value.observedAt
    case NotYetEffective => sameUnit && newest.value.observedAt < e.startDate && asOf < e.startDate
    case BridgesStaleSeries => sameUnit && newest.value.observedAt < e.startDate <= asOf
  }

  /** What a decision records about its event and the series at that time. */
  ghost predicate Explains(d: Decision, e: Event, newest: Option<Observation>, asOf: int, id: Key) {
    && d.eventId == e.id && d.effectiveDate == e.startDate
    && (forall reason :: d.reason == reason <==> Grounds(reason, e, newest, asOf))
    && (d.status == Applied <==> d.reason == BridgesStaleSeries)
    && (d.status == Expired <==> d.reason == SeriesCaughtUp)
    && d.latestObservedAt == (if newest.Some? then Some(newest.value.observedAt) else None)
    && d.latestValue == (if newest.Some? then Some(newest.value.value) else None)
    && d.syntheticId == (if d.status == Applied then Some(id) else None)
  }

  lemma VerdictExplained(e: Event, newest: Option<Observation>, asOf: int, id: Key)
    ensures Explains(Record(e, Judge(e, newest, asOf), newest, id), e, newest, asOf, id)
  {
  }

  /** The observation that carries exactly what an event declares. */
  ghost predicate Carries(o: Observation, e: Event, id: Key) {
    && e.value.Finite? && e.unit.Some?
    && o == Observation(id, BASE_RATE, e.value.amount, e.unit.value, e.startDate, e.startDate * 86400, Valid)
  }

  // ---------- every step of the loop ----------

  /** The loop before event `k`: the observations and decisions so far are the beginning of the final ones. */
  lemma {:induction false} SoFar(observations: seq<Observation>, events: seq<Event>, asOf: int, newId: Event -> Key, k: nat)
    requires k <= |events|
    ensures var s, t := Fold(observations, events[..k], asOf, newId), Fold(observations, events, asOf, newId);
      observations <= s.observations <= t.observations && s.decisions <= t.decisions
    decreases |events|
  {
    if k == |events| {
      assert events[..k] == events;
      FoldExtends(observations, events, asOf, newId);
    } else {
      var init := events[..|events| - 1];
      assert init[..k] == events[..k];
      SoFar(observations, init, asOf, newId, k);
    }
  }

  lemma {:induction false} FoldExtends(observations: seq<Observation>, events: seq<Event>, asOf: int, newId: Event -> Key)
    ensures observations <= Fold(observations, events, asOf, newId).observations
  {
    if events != [] { FoldExtends(observations, events[..|events| - 1], asOf, newId); }
  }

  lemma UndecidedYet(observations: seq<Observation>, events: seq<Event>, asOf: int, newId: Event -> Key, k: nat)
    requires k < |events| && events[k].mapped
    ensures FirstOfItsKind(events, k) <==> IdentityOf(events[k]) !in Fold(observations, events[..k], asOf, newId).seen
  {
    EveryIdentityDecidedOnce(observations, events[..k], asOf, newId);
    if FirstOfItsKind(events, k) {
      forall e | e in events[..k] && e.mapped ensures IdentityOf(e) != IdentityOf(events[k]) {
        SameIdentityIff(e, events[k]);
      }
    } else {
      var j :| 0 <= j < k && events[j].mapped && SameDecision(events[j], events[k]);
      SameIdentityIff(events[j], events[k]);
      assert events[j] in events[..k];
    }
  }

  /** The step at event `k`. */
  lemma StepAt(observations: seq<Observation>, events: seq<Event>, asOf: int, newId: Event -> Key, k: nat)
    requires k < |events|
    ensures Fold(observations, events[..k + 1], asOf, newId)
      == Step(Fold(observations, events[..k], asOf, newId), events[k], asOf, newId)
  {
    assert events[..k + 1][..k] == events[..k];
  }

  /** The first event of each identity is decided on the series as it stands then, and is bridged exactly if it is
      warranted, right behind that series. */
  lemma DecidedAt(observations: seq<Observation>, events: seq<Event>, asOf: int, newId: Event -> Key, k: nat)
    returns (n: nat, newest: Option<Observation>, d: Decision)
    requires FirstOfItsKind(events, k)
    ensures var t := Fold(observations, events, asOf, newId);
      && n == |Fold(observations, events[..k], asOf, newId).observations| <= |t.observations|
      && IsNewest(t.observations[..n], newest)
      && d in t.decisions && Explains(d, events[k], newest, asOf, newId(events[k]))
      && (Grounds(BridgesStaleSeries, events[k], newest, asOf) ==>
            n < |t.observations| && Carries(t.observations[n], events[k], newId(events[k])))
  {
    var s, e := Fold(observations, events[..k], asOf, newId), events[k];
    UndecidedYet(observations, events, asOf, newId, k);
    StepAt(observations, events, asOf, newId, k);
    SoFar(observations, events, asOf, newId, k);
    SoFar(observations, events, asOf, newId, k + 1);
    var t := Fold(observations, events, asOf, newId);
    n, newest := |s.observations|, Latest(s.observations);
    assert t.observations[..n] == s.observations;
    LatestIsNewestOne(s.observations);
    d := Record(e, Judge(e, newest, asOf), newest, newId(e));
    VerdictExplained(e, newest, asOf, newId(e));
    var after := Fold(observations, events[..k + 1], asOf, newId);
    assert after.decisions == s.decisions + [d];
    assert after.decisions[|s.decisions|] == d && t.decisions[|s.decisions|] == d;
    if Grounds(BridgesStaleSeries, e, newest, asOf) {
      assert after.observations == s.observations + [Synthetic(e, newId(e))];
      assert t.observations[n] == after.observations[n];
    }
  }

  /** Whatever is appended was declared by a qualifying event. */
  lemma {:induction false} AppendedAt(observations: seq<Observation>, events: seq<Event>, asOf: int, newId: Event -> Key, i: nat)
    returns (e: Event, newest: Option<Observation>)
    requires |observations| <= i < |Fold(observations, events, asOf, newId).observations|
    ensures var t := Fold(observations, events, asOf, newId);
      && e in events && Qualifies(e) && Carries(t.observations[i], e, newId(e))
      && IsNewest(t.observations[..i], newest) && Grounds(BridgesStaleSeries, e, newest, asOf)
  {
    if events == [] {
      assert false;
    } else {
      var init, last := events[..|events| - 1], events[|events| - 1];
      var s, t := Fold(observations, init, asOf, newId), Fold(observations, events, asOf, newId);
      if i < |s.observations| {
        e, newest := AppendedAt(observations, init, asOf, newId, i);
        assert t.observations[..i] == s.observations[..i];
      } else {
        e, newest := last, Latest(s.observations);
        VerdictExplained(e, newest, asOf, newId(e));
        LatestIsNewestOne(s.observations);
        assert t.observations[..i] == s.observations;
      }
    }
  }

  // ---------- the whole bridge ----------

  /** Every appended observation carries exactly the value, unit and date of one of the events: an official primary
      source's declaration of the base rate, evidenced in full, in the unit of the newest observation before it, dated
      after that observation and not after the as-of date. */
  lemma AppendedIsWarranted(observations: seq<Observation>, events: seq<Event>, asOf: int, newId: Event -> Key, i: nat)
    returns (e: Event, newest: Option<Observation>)
    requires |observations| <= i < |Bridge(observations, events, asOf, newId).observations|
    ensures var all := Bridge(observations, events, asOf, newId).observations;
      && e in events && Qualifies(e) && Carries(all[i], e, newId(e))
      && IsNewest(all[..i], newest) && newest.Some? && newest.value.unit == all[i].unit
      && newest.value.observedAt < e.startDate <= asOf
  {
    var ordered := SortBy(EarlierEvent, events);
    e, newest := AppendedAt(observations, ordered, asOf, newId, i);
    EventsInOrder(events);
    SameMembers(ordered, events);
  }

  /** In the order of dates and ids, the first event of each identity is decided on the series as bridged so far: the
      decision gives each reason exactly on its grounds, and an event that is warranted then is appended right there. */
  lemma WarrantedIsAppended(observations: seq<Observation>, events: seq<Event>, ordered: seq<Event>, asOf: int, newId: Event -> Key, k: nat)
    returns (n: nat, newest: Option<Observation>, d: Decision)
    requires ordered == SortBy(EarlierEvent, events) && FirstOfItsKind(ordered, k)
    ensures Permutes(ordered, events) && InOrder(ordered)
    ensures var bridged := Bridge(observations, events, asOf, newId);
      && |observations| <= n <= |bridged.observations| && IsNewest(bridged.observations[..n], newest)
      && d in bridged.decisions && Explains(d, ordered[k], newest, asOf, newId(ordered[k]))
      && (Qualifies(ordered[k]) && newest.Some? && ordered[k].unit == Some(newest.value.unit)
          && newest.value.observedAt < ordered[k].startDate <= asOf ==>
            n < |bridged.observations| && Carries(bridged.observations[n], ordered[k], newId(ordered[k])))
  {
    EventsInOrder(events);
    n, newest, d := DecidedAt(observations, ordered, asOf, newId, k);
    SoFar(observations, ordered, asOf, newId, k);
  }
}
