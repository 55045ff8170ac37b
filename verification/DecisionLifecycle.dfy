/** The life of Bank of Korea base-rate decisions. */
module DecisionLifecycle {
  import opened Wrappers
  import opened Sorting
  import opened EventReconciler

  lemma StartOrderIsTotal()
    ensures TotalPreorder(ByStartAndId)
  {
  }

  lemma {:induction false} DecisionMembers(accepted: seq<Event>)
    ensures forall e :: e in Decisions(accepted) <==> e in accepted && e.baseRateDecision
  {
    if accepted != [] {
      DecisionMembers(accepted[..|accepted| - 1]);
      assert accepted == accepted[..|accepted| - 1] + [accepted[|accepted| - 1]];
    }
  }

  lemma {:induction false} CurrentIsLastEffective(decisions: seq<Event>, asOf: Option<int>)
    requires Sorted(ByStartAndId, decisions)
    ensures Current(decisions, asOf).Some? ==>
      Current(decisions, asOf).value in decisions && Effective(Current(decisions, asOf).value, asOf)
    ensures forall e :: e in decisions && Effective(e, asOf) ==>
      Current(decisions, asOf).Some? && ByStartAndId(e, Current(decisions, asOf).value)
  {
    if decisions != [] {
      var last := decisions[|decisions| - 1];
      CurrentIsLastEffective(decisions[..|decisions| - 1], asOf);
      assert decisions == decisions[..|decisions| - 1] + [last];
      forall e | e in decisions && Effective(e, asOf)
        ensures Current(decisions, asOf).Some? && ByStartAndId(e, Current(decisions, asOf).value)
      {
        var i :| 0 <= i < |decisions| && decisions[i] == e;
        assert i < |decisions| - 1 ==> ByStartAndId(decisions[i], last);
      }
    }
  }

  lemma {:induction false} NextIsEarliestLater(decisions: seq<Event>, day: int)
    requires Sorted(ByStartAndId, decisions)
    ensures match NextAfter(decisions, day)
      case Some(later) => later in decisions && later.start > day && forall e :: e in decisions && e.start > day ==> e.start >= later.start
      case None => forall e :: e in decisions ==> e.start <= day
  {
    if decisions != [] {
      NextIsEarliestLater(decisions[1..], day);
      assert decisions == [decisions[0]] + decisions[1..];
      forall e | e in decisions ensures decisions[0].start <= e.start {
        var i :| 0 <= i < |decisions| && decisions[i] == e;
        if i > 0 { assert ByStartAndId(decisions[0], decisions[i]); }
      }
    }
  }

  /** A decision and what the lifecycle pass makes of it. */
  ghost predicate MarkedFrom(x: Event, e: Event, decisions: seq<Event>, asOf: Option<int>) {
    e in decisions && e.baseRateDecision && x == MarkLifecycle(e, decisions, asOf)
  }

  lemma FinalDecisionOrigin(events: seq<Event>, asOf: Option<int>, x: Event) returns (e: Event)
    requires x in ReconcileEvents(events, asOf).accepted && x.baseRateDecision
    ensures var decisions := SortBy(ByStartAndId, Decisions(Grouped(events).accepted));
      MarkedFrom(x, e, decisions, asOf) && Sorted(ByStartAndId, decisions)
  {
    var placed := Grouped(events).accepted;
    var marked := MarkAll(placed, asOf);
    SortKeepsElements(ById, marked);
    assert x in marked;
    var i :| 0 <= i < |marked| && marked[i] == x;
    e := placed[i];
    DecisionMembers(placed);
    SortKeepsElements(ByStartAndId, Decisions(placed));
    StartOrderIsTotal();
    SortSorts(ByStartAndId, Decisions(placed));
  }

  lemma FinalContains(events: seq<Event>, asOf: Option<int>, e: Event)
    requires var decisions := SortBy(ByStartAndId, Decisions(Grouped(events).accepted)); e in decisions
    ensures var decisions := SortBy(ByStartAndId, Decisions(Grouped(events).accepted));
      MarkLifecycle(e, decisions, asOf) in ReconcileEvents(events, asOf).accepted && e.baseRateDecision
  {
    var placed := Grouped(events).accepted;
    SortKeepsElements(ByStartAndId, Decisions(placed));
    DecisionMembers(placed);
    var i :| 0 <= i < |placed| && placed[i] == e;
    var marked := MarkAll(placed, asOf);
    assert marked[i] in marked;
    SortKeepsElements(ById, marked);
  }

  /** Only the current decision keeps its signal, and marking leaves its dates alone. */
  lemma MarkedSignals(x: Event, e: Event, decisions: seq<Event>, asOf: Option<int>)
    requires MarkedFrom(x, e, decisions, asOf) && Sorted(ByStartAndId, decisions) && x.signalEnabled
    ensures Current(decisions, asOf) == Some(e) && x == e.(lifecycle := CurrentDecision)
    ensures Effective(x, asOf)
  {
    CurrentIsLastEffective(decisions, asOf);
  }

  lemma MarkedEffective(y: Event, f: Event, decisions: seq<Event>, asOf: Option<int>)
    requires MarkedFrom(y, f, decisions, asOf) && Sorted(ByStartAndId, decisions) && Effective(y, asOf)
    ensures Current(decisions, asOf).Some? && ByStartAndId(y, Current(decisions, asOf).value)
  {
    CurrentIsLastEffective(decisions, asOf);
  }

  /** Among the reconciled decisions only one can still emit a signal: the last one effective on the analysis date. */
  lemma OnlyCurrentDecisionSignals(events: seq<Event>, asOf: Option<int>, x: Event, y: Event)
    requires var accepted := ReconcileEvents(events, asOf).accepted; x in accepted && y in accepted
    requires x.baseRateDecision && y.baseRateDecision && x.signalEnabled
    ensures x.lifecycle.CurrentDecision? && Effective(x, asOf)
    ensures y.signalEnabled ==> y == x
    ensures Effective(y, asOf) ==> ByStartAndId(y, x)
  {
    var decisions := SortBy(ByStartAndId, Decisions(Grouped(events).accepted));
    var e := FinalDecisionOrigin(events, asOf, x);
    var f := FinalDecisionOrigin(events, asOf, y);
    MarkedSignals(x, e, decisions, asOf);
    if Effective(y, asOf) { MarkedEffective(y, f, decisions, asOf); }
    if y.signalEnabled { MarkedSignals(y, f, decisions, asOf); }
  }

  /** The facts about one superseded decision, in terms of the ordered decisions of the run. */
  lemma MarkedSuperseded(x: Event, e: Event, decisions: seq<Event>, asOf: Option<int>) returns (later: Event)
    requires Sorted(ByStartAndId, decisions) && MarkedFrom(x, e, decisions, asOf) && x.lifecycle.SupersededBy?
    ensures !x.signalEnabled && x.start <= x.lifecycle.through && x.end == Some(x.lifecycle.through)
    ensures later in decisions && later.id == x.lifecycle.laterId && later.start == x.lifecycle.through + 1
    ensures forall f :: f in decisions && x.start < f.start ==> x.lifecycle.through < f.start
  {
    NextIsEarliestLater(decisions, e.start);
    later := NextAfter(decisions, e.start).value;
  }

  /** A superseded decision is valid from its start to the day before the next strictly later decision, and that
      decision is among the accepted ones. */
  lemma SupersededWindow(events: seq<Event>, asOf: Option<int>, x: Event)
    requires x in ReconcileEvents(events, asOf).accepted && x.baseRateDecision && x.lifecycle.SupersededBy?
    ensures !x.signalEnabled && x.start <= x.lifecycle.through && x.end == Some(x.lifecycle.through)
    ensures exists later ::
      && later in ReconcileEvents(events, asOf).accepted && later.baseRateDecision
      && later.id == x.lifecycle.laterId && later.start == x.lifecycle.through + 1
  {
    var decisions := SortBy(ByStartAndId, Decisions(Grouped(events).accepted));
    var e := FinalDecisionOrigin(events, asOf, x);
    var later := MarkedSuperseded(x, e, decisions, asOf);
    FinalContains(events, asOf, later);
  }

  /** The window of a superseded decision ends before any later decision starts: superseded windows with different
      starts are disjoint. */
  lemma SupersededWindowsDisjoint(events: seq<Event>, asOf: Option<int>, x: Event, y: Event)
    requires var accepted := ReconcileEvents(events, asOf).accepted; x in accepted && y in accepted
    requires x.baseRateDecision && y.baseRateDecision && x.lifecycle.SupersededBy? && x.start < y.start
    ensures x.lifecycle.through < y.start
  {
    var decisions := SortBy(ByStartAndId, Decisions(Grouped(events).accepted));
    var e := FinalDecisionOrigin(events, asOf, x);
    var f := FinalDecisionOrigin(events, asOf, y);
    var later := MarkedSuperseded(x, e, decisions, asOf);
  }

  /** Later by start, then by id. */
  predicate After(a: Event, b: Event) { a.start > b.start || (a.start == b.start && a.id > b.id) }

  lemma CurrentIsLatest(decisions: seq<Event>, asOf: Option<int>, e: Event)
    requires Sorted(ByStartAndId, decisions) && e in decisions
    ensures Current(decisions, asOf) == Some(e) ==>
      (asOf.Some? ==> e.start <= asOf.value) && forall f :: f in decisions && (asOf.Some? ==> f.start <= asOf.value) ==> !After(f, e)
    ensures (asOf.Some? ==> e.start <= asOf.value) && (forall f :: f in decisions && f != e && (asOf.Some? ==> f.start <= asOf.value) ==> After(e, f)) ==>
      Current(decisions, asOf) == Some(e)
  {
    CurrentIsLastEffective(decisions, asOf);
    forall f ensures Effective(f, asOf) <==> (asOf.Some? ==> f.start <= asOf.value) {}
  }

  /** `f` is the first of the decisions that start after `e`. */
  ghost predicate NextStart(decisions: seq<Event>, e: Event, f: Event) {
    f in decisions && f.start > e.start && forall g :: g in decisions && g.start > e.start ==> g.start >= f.start
  }

  ghost predicate NoneLater(decisions: seq<Event>, e: Event) { forall f :: f in decisions ==> f.start <= e.start }

  predicate Superseded(x: Event, e: Event, f: Event) {
    x == e.(end := Some(f.start - 1), lifecycle := SupersededBy(f.id, f.start - 1), signalEnabled := false)
  }

  /** What a decision becomes: the current one if no decision of its time is later, else the superseded one if another starts
      after it, else one of the future; the last two lose their signal. */
  lemma LifecycleIs(x: Event, e: Event, decisions: seq<Event>, asOf: Option<int>)
    requires MarkedFrom(x, e, decisions, asOf) && Sorted(ByStartAndId, decisions)
    ensures Current(decisions, asOf) == Some(e) ==> x == e.(lifecycle := CurrentDecision)
    ensures Current(decisions, asOf) != Some(e) && !NoneLater(decisions, e) ==>
      exists f :: NextStart(decisions, e, f) && Superseded(x, e, f)
    ensures Current(decisions, asOf) != Some(e) && NoneLater(decisions, e) ==> x == e.(lifecycle := FutureDecision, signalEnabled := false)
  {
    NextIsEarliestLater(decisions, e.start);
    if Current(decisions, asOf) != Some(e) && !NoneLater(decisions, e) {
      var f := NextAfter(decisions, e.start).value;
      assert NextStart(decisions, e, f) && Superseded(x, e, f);
    }
  }

  /** Events that are no base-rate decisions come out of the pass as they went in. */
  lemma OthersUnmarked(events: seq<Event>, asOf: Option<int>, x: Event)
    requires !x.baseRateDecision
    ensures x in ReconcileEvents(events, asOf).accepted <==> x in Grouped(events).accepted
  {
    var placed := Grouped(events).accepted;
    var marked := MarkAll(placed, asOf);
    SortKeepsElements(ById, marked);
    if x in marked {
      var i :| 0 <= i < |marked| && marked[i] == x;
      assert placed[i].baseRateDecision == x.baseRateDecision;
      assert placed[i] in placed;
    }
    if x in placed {
      var i :| 0 <= i < |placed| && placed[i] == x;
      assert marked[i] == x && marked[i] in marked;
    }
  }
}
