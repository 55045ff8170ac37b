/** What no order of arrival changes: the gathered ids and title of a merged group, and whether a conflicting group
    is accepted. */
module EventMerge {
  import opened Wrappers
  import opened Keys
  import opened Sorting
  import opened EventReconciler
  import opened EventConservation
  import opened EventOrder

  // ---------- groups that report one occasion ----------

  ghost predicate OneOccasion(group: seq<Event>) { forall x, y :: x in group && y in group ==> SameOccasion(x, y) }

  /** What an event's place in the comparison of occasions and ranks depends on. */
  ghost predicate SameStanding(a: Event, b: Event) {
    a.start == b.start && a.end == b.end && a.address == b.address && a.baseRateDecision == b.baseRateDecision && a.tier == b.tier
  }

  lemma InitFirst(g: seq<Event>)
    requires |g| > 1
    ensures g[..|g| - 1][0] == g[0] && g == g[..|g| - 1] + [g[|g| - 1]]
    ensures forall x :: x in g <==> x in g[..|g| - 1] || x == g[|g| - 1]
  {
  }

  /** The survivor of a group on one occasion keeps the dates, the tier and the status of its first member. */
  lemma {:induction false} FirstSetsStanding(g: seq<Event>)
    requires g != [] && OneOccasion(g)
    ensures SameStanding(FoldGroup(g).base, g[0]) && FoldGroup(g).base.status == g[0].status
  {
    if |g| > 1 {
      InitFirst(g);
      FirstSetsStanding(g[..|g| - 1]);
      assert SameOccasion(g[0], g[|g| - 1]);
    }
  }

  lemma MergeStep(g: seq<Event>)
    requires |g| > 1 && OneOccasion(g)
    ensures OneOccasion(g[..|g| - 1])
    ensures FoldGroup(g).base == Merge(FoldGroup(g[..|g| - 1]).base, g[|g| - 1])
  {
    InitFirst(g);
    FirstSetsStanding(g[..|g| - 1]);
    assert SameOccasion(g[0], g[|g| - 1]);
  }

  /** `keys` are the keys that some member of the group carries. */
  ghost predicate Gathers(keys: seq<Key>, g: seq<Event>, field: Event -> seq<Key>) {
    forall k :: k in keys <==> Carried(k, g, field)
  }

  ghost predicate Carried(k: Key, g: seq<Event>, field: Event -> seq<Key>) { exists x :: x in g && k in field(x) }

  lemma GatherStep(keys: seq<Key>, init: seq<Event>, last: Event, field: Event -> seq<Key>)
    requires Gathers(keys, init, field)
    ensures Gathers(SortedDistinct(keys + field(last)), init + [last], field)
    ensures StrictlyIncreasing(SortedDistinct(keys + field(last)))
  {
    SortedDistinctSorts(keys + field(last));
    forall k ensures k in keys + field(last) <==> Carried(k, init + [last], field) {
      if k in keys { var x :| x in init && k in field(x); assert x in init + [last]; }
      if k in field(last) { assert last in init + [last]; }
      if Carried(k, init + [last], field) {
        var x :| x in init + [last] && k in field(x);
        if x in init { assert Carried(k, init, field); }
      }
    }
  }

  lemma GatherOne(e: Event, field: Event -> seq<Key>)
    ensures Gathers(field(e), [e], field)
  {
    assert e in [e];
  }

  function CandidateIdsOf(e: Event): seq<Key> { e.candidateIds }

  function SourceIdsOf(e: Event): seq<Key> { e.sourceIds }

  function RevisionIdsOf(e: Event): seq<Key> { e.revisionIds }

  ghost predicate GathersAll(base: Event, g: seq<Event>) {
    && Gathers(base.candidateIds, g, CandidateIdsOf)
    && Gathers(base.sourceIds, g, SourceIdsOf)
    && Gathers(base.revisionIds, g, RevisionIdsOf)
  }

  ghost predicate Ascends(base: Event) {
    StrictlyIncreasing(base.candidateIds) && StrictlyIncreasing(base.sourceIds) && StrictlyIncreasing(base.revisionIds)
  }

  /** The survivor carries the candidate, source and revision ids of all members and nothing else, in ascending order. */
  lemma {:induction false} SurvivorGathers(g: seq<Event>)
    requires g != [] && OneOccasion(g)
    ensures GathersAll(FoldGroup(g).base, g) && (|g| > 1 ==> Ascends(FoldGroup(g).base))
  {
    if |g| == 1 {
      assert g == [g[0]];
      GatherOne(g[0], CandidateIdsOf);
      GatherOne(g[0], SourceIdsOf);
      GatherOne(g[0], RevisionIdsOf);
    } else {
      var init, last := g[..|g| - 1], g[|g| - 1];
      MergeStep(g);
      SurvivorGathers(init);
      var base := FoldGroup(init).base;
      InitFirst(g);
      GatherStep(base.candidateIds, init, last, CandidateIdsOf);
      GatherStep(base.sourceIds, init, last, SourceIdsOf);
      GatherStep(base.revisionIds, init, last, RevisionIdsOf);
    }
  }

  ghost predicate SmallestTitle(title: Key, g: seq<Event>) {
    (exists x :: x in g && x.title == title) && forall x :: x in g ==> title <= x.title
  }

  lemma {:induction false} SurvivorTitle(g: seq<Event>)
    requires g != [] && OneOccasion(g)
    ensures SmallestTitle(FoldGroup(g).base.title, g)
  {
    if |g| == 1 {
      assert g[0] in g;
    } else {
      var init, last := g[..|g| - 1], g[|g| - 1];
      MergeStep(g);
      SurvivorTitle(init);
      InitFirst(g);
      var x :| x in init && x.title == FoldGroup(init).base.title;
      assert x in g && last in g;
    }
  }

  lemma GatheredAlike(a: seq<Key>, b: seq<Key>, g: seq<Event>, h: seq<Event>, field: Event -> seq<Key>)
    requires Gathers(a, g, field) && Gathers(b, h, field) && forall x :: x in g <==> x in h
    requires StrictlyIncreasing(a) && StrictlyIncreasing(b)
    ensures a == b
  {
    forall k ensures k in a <==> k in b {
      assert Carried(k, g, field) <==> Carried(k, h, field);
    }
    StrictlyIncreasingUnique(a, b);
  }

  /** The ids, the title and the status of a survivor, which no order of arrival changes. */
  ghost predicate SameReport(a: Event, b: Event) {
    && a.candidateIds == b.candidateIds && a.sourceIds == b.sourceIds && a.revisionIds == b.revisionIds
    && a.title == b.title && a.status == b.status
  }

  lemma MergedGroupIgnoresOrder(g: seq<Event>, h: seq<Event>)
    requires multiset(g) == multiset(h) && g != [] && OneOccasion(g)
    requires forall x, y :: x in g && y in g ==> x.status == y.status
    ensures h != [] && SameReport(FoldGroup(g).base, FoldGroup(h).base)
  {
    assert |g| == |multiset(g)| == |multiset(h)| == |h|;
    SameMembers(g, h);
    if |g| == 1 {
      assert g[0] in g && h[0] in h && g == [g[0]] && h == [h[0]];
    } else {
      BothGather(g, h);
      SurvivorTitle(g);
      SurvivorTitle(h);
      FirstSetsStanding(g);
      FirstSetsStanding(h);
      assert g[0] in g && h[0] in h;
    }
  }

  lemma BothGather(g: seq<Event>, h: seq<Event>)
    requires |g| > 1 && |h| > 1 && OneOccasion(g) && OneOccasion(h) && forall x :: x in g <==> x in h
    ensures var a, b := FoldGroup(g).base, FoldGroup(h).base;
      a.candidateIds == b.candidateIds && a.sourceIds == b.sourceIds && a.revisionIds == b.revisionIds
  {
    SurvivorGathers(g);
    SurvivorGathers(h);
    var a, b := FoldGroup(g).base, FoldGroup(h).base;
    GatheredAlike(a.candidateIds, b.candidateIds, g, h, CandidateIdsOf);
    GatheredAlike(a.sourceIds, b.sourceIds, g, h, SourceIdsOf);
    GatheredAlike(a.revisionIds, b.revisionIds, g, h, RevisionIdsOf);
  }

  // ---------- accepted survivors of a whole reconciliation ----------

  lemma MarkKeepsReport(e: Event, decisions: seq<Event>, asOf: Option<int>)
    ensures var x := MarkLifecycle(e, decisions, asOf); x.fingerprint == e.fingerprint && SameReport(x, e)
  {
  }

  lemma AcceptedOrigin(placed: seq<Event>, asOf: Option<int>, x: Event) returns (e: Event)
    requires x in SortBy(ById, MarkAll(placed, asOf))
    ensures e in placed && x.fingerprint == e.fingerprint && SameReport(x, e)
  {
    var marked := MarkAll(placed, asOf);
    SortKeepsElements(ById, marked);
    var i :| 0 <= i < |marked| && marked[i] == x;
    e := placed[i];
    MarkKeepsReport(e, SortBy(ByStartAndId, Decisions(placed)), asOf);
  }

  lemma AcceptedImage(placed: seq<Event>, asOf: Option<int>, e: Event) returns (x: Event)
    requires e in placed
    ensures x in SortBy(ById, MarkAll(placed, asOf)) && x.fingerprint == e.fingerprint
  {
    var marked := MarkAll(placed, asOf);
    SortKeepsElements(ById, marked);
    var i :| 0 <= i < |placed| && placed[i] == e;
    x := marked[i];
    assert x in marked;
    MarkKeepsReport(e, SortBy(ByStartAndId, Decisions(placed)), asOf);
  }

  lemma PlacedSurvives(events: seq<Event>, e: Event)
    requires e in Grouped(events).accepted
    ensures Survives(SortBy(ByFingerprintAndId, events), e)
  {
    SortedDistinctSorts(Fingerprints(events));
    AcceptedByFingerprint(SortBy(ByFingerprintAndId, events), SortedDistinct(Fingerprints(events)));
  }

  lemma AcceptedIsSurvivor(events: seq<Event>, asOf: Option<int>, x: Event)
    requires Canonical(events) && x in ReconcileEvents(events, asOf).accepted
    ensures var group := WithFingerprint(events, x.fingerprint);
      group != [] && SameReport(x, FoldGroup(group).base) && x.status.Accepted?
  {
    var e := AcceptedOrigin(Grouped(events).accepted, asOf, x);
    PlacedSurvives(events, e);
    GroupIsArrival(events, x.fingerprint);
  }

  lemma SurvivorIsAccepted(events: seq<Event>, asOf: Option<int>, f: Key) returns (x: Event)
    requires Canonical(events) && WithFingerprint(events, f) != [] && FoldGroup(WithFingerprint(events, f)).base.status.Accepted?
    ensures x in ReconcileEvents(events, asOf).accepted && x.fingerprint == f
  {
    GroupIsArrival(events, f);
    FingerprintListed(events, f);
    PlacedBase(SortBy(ByFingerprintAndId, events), SortedDistinct(Fingerprints(events)), f);
    WithFingerprintMembers(events, f);
    SurvivorKeepsFingerprint(WithFingerprint(events, f), f);
    x := AcceptedImage(Grouped(events).accepted, asOf, FoldGroup(WithFingerprint(events, f)).base);
  }

  lemma {:induction false} PlacedBase(ordered: seq<Event>, fingerprints: seq<Key>, f: Key)
    requires f in fingerprints && GroupOf(ordered, f) != [] && FoldGroup(GroupOf(ordered, f)).base.status.Accepted?
    ensures FoldGroup(GroupOf(ordered, f)).base in PlaceAll(ordered, fingerprints).accepted
  {
    var init, last := fingerprints[..|fingerprints| - 1], fingerprints[|fingerprints| - 1];
    assert fingerprints == init + [last];
    if f in init { PlacedBase(ordered, init, f); }
  }

  /** Reports of one occasion are accepted in every order of arrival, with the same candidate, source and revision ids
      and the same title. */
  lemma MergedReportsIgnoreOrder(events: seq<Event>, other: seq<Event>, asOf: Option<int>, x: Event) returns (y: Event)
    requires Canonical(events) && multiset(events) == multiset(other) && x in ReconcileEvents(events, asOf).accepted
    requires OneOccasion(WithFingerprint(events, x.fingerprint))
    ensures y in ReconcileEvents(other, asOf).accepted && y.fingerprint == x.fingerprint && SameReport(x, y)
  {
    var f := x.fingerprint;
    PermutationIsCanonical(events, other);
    AcceptedIsSurvivor(events, asOf, x);
    FilterPermutes(events, other, f);
    WithFingerprintMembers(events, f);
    MergedGroupIgnoresOrder(WithFingerprint(events, f), WithFingerprint(other, f));
    y := SurvivorIsAccepted(other, asOf, f);
    AcceptedIsSurvivor(other, asOf, y);
  }

  // ---------- groups whose members all conflict ----------

  ghost predicate AllConflict(g: seq<Event>) { forall i, j :: 0 <= i < j < |g| ==> !SameOccasion(g[i], g[j]) }

  /** Member `i` outranks every other member. */
  ghost predicate OutranksAll(g: seq<Event>, i: nat) {
    i < |g| && forall j :: 0 <= j < |g| && j != i ==> Rank(g[j].tier) < Rank(g[i].tier)
  }

  /** The survivor of a conflicting group stands like one of its members of highest rank, and is accepted exactly when
      one member outranks all others. */
  lemma {:induction false} ConflictAcceptsUniqueTop(g: seq<Event>) returns (top: nat)
    requires g != [] && AllConflict(g) && forall x :: x in g ==> x.status.Accepted?
    ensures top < |g| && SameStanding(FoldGroup(g).base, g[top])
    ensures forall j :: 0 <= j < |g| ==> Rank(g[j].tier) <= Rank(g[top].tier)
    ensures FoldGroup(g).base.status.Accepted? <==> exists i :: OutranksAll(g, i)
  {
    if |g| == 1 {
      top := 0;
      assert g[0] in g && OutranksAll(g, 0);
    } else {
      var init, last := g[..|g| - 1], g[|g| - 1];
      InitFirst(g);
      var before := ConflictAcceptsUniqueTop(init);
      assert !SameOccasion(g[before], last) && !SameOccasion(FoldGroup(init).base, last);
      top := if Rank(last.tier) > Rank(g[before].tier) then |g| - 1 else before;
      TopMoves(g, before);
    }
  }

  lemma TopMoves(g: seq<Event>, before: nat)
    requires |g| > 1 && before < |g| - 1
    requires forall j :: 0 <= j < |g| - 1 ==> Rank(g[j].tier) <= Rank(g[before].tier)
    ensures var n := |g| - 1;
      (exists i :: OutranksAll(g, i)) <==>
        || Rank(g[n].tier) > Rank(g[before].tier)
        || (Rank(g[n].tier) < Rank(g[before].tier) && exists i :: OutranksAll(g[..n], i))
  {
    var n := |g| - 1;
    if Rank(g[n].tier) > Rank(g[before].tier) { assert OutranksAll(g, n); }
    if i: nat :| OutranksAll(g, i) && i < n { assert OutranksAll(g[..n], i); }
    if i: nat :| OutranksAll(g[..n], i) && Rank(g[n].tier) < Rank(g[before].tier) {
      assert i == before;
      assert OutranksAll(g, i);
    }
  }
}
