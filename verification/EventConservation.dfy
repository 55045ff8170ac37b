/** What the reconciliation of events conserves and excludes. */
module EventConservation {
  import opened Wrappers
  import opened Keys
  import opened Sorting
  import opened EventReconciler

  /** How many events carry an id that satisfies `which`. */
  function Count(events: seq<Event>, which: Key -> bool): nat {
    if events == [] then 0
    else Count(events[..|events| - 1], which) + if which(events[|events| - 1].id) then 1 else 0
  }

  function One(e: Event, which: Key -> bool): nat { if which(e.id) then 1 else 0 }

  lemma CountAppend(events: seq<Event>, e: Event, which: Key -> bool)
    ensures Count(events + [e], which) == Count(events, which) + One(e, which)
  {
    assert (events + [e])[..|events|] == events;
  }

  lemma {:induction false} CountConcat(a: seq<Event>, b: seq<Event>, which: Key -> bool)
    ensures Count(a + b, which) == Count(a, which) + Count(b, which)
  {
    if b == [] {
      assert a + b == a;
    } else {
      CountConcat(a, b[..|b| - 1], which);
      assert a + b == (a + b[..|b| - 1]) + [b[|b| - 1]];
      CountAppend(a + b[..|b| - 1], b[|b| - 1], which);
    }
  }

  lemma CountFirst(events: seq<Event>, which: Key -> bool)
    requires events != []
    ensures Count(events, which) == One(events[0], which) + Count(events[1..], which)
  {
    assert events == [events[0]] + events[1..];
    CountConcat([events[0]], events[1..], which);
    CountAppend([], events[0], which);
    assert [] + [events[0]] == [events[0]];
  }

  lemma {:induction false} CountAll(events: seq<Event>)
    ensures Count(events, _ => true) == |events|
  {
    if events != [] { CountAll(events[..|events| - 1]); }
  }

  lemma {:induction false} CountInsert(leq: (Event, Event) -> bool, x: Event, s: seq<Event>, which: Key -> bool)
    ensures Count(Insert(leq, x, s), which) == One(x, which) + Count(s, which)
  {
    if s != [] && !leq(x, s[0]) {
      CountInsert(leq, x, s[1..], which);
      CountFirst(s, which);
      CountFirst([s[0]] + Insert(leq, x, s[1..]), which);
    } else {
      CountFirst([x] + s, which);
      assert s == [] ==> [x] + s == [x];
    }
  }

  lemma {:induction false} CountSort(leq: (Event, Event) -> bool, s: seq<Event>, which: Key -> bool)
    ensures Count(SortBy(leq, s), which) == Count(s, which)
  {
    if s != [] {
      CountSort(leq, s[1..], which);
      CountInsert(leq, s[0], SortBy(leq, s[1..]), which);
      CountFirst(s, which);
    }
  }

  lemma {:induction false} CountSameIds(a: seq<Event>, b: seq<Event>, which: Key -> bool)
    requires |a| == |b| && forall i :: 0 <= i < |a| ==> a[i].id == b[i].id
    ensures Count(a, which) == Count(b, which)
  {
    if a != [] { CountSameIds(a[..|a| - 1], b[..|b| - 1], which); }
  }

  /** Of the survivor and the newcomer, one goes on and the other is set aside. */
  lemma ConfrontShape(g: Group, other: Event) returns (aside: Event)
    ensures Confront(g, other).excluded == g.excluded + [aside]
    ensures var base := Confront(g, other).base;
      || (aside.id == other.id && base.id == g.base.id)
      || (aside.id == g.base.id && base.id == other.id)
  {
    if SameOccasion(g.base, other) {
      aside := Reject(other, ReferenceOnly, DuplicateEvent);
    } else if Rank(g.base.tier) == Rank(other.tier) {
      aside := Reject(other, Conflicted, SourceConflict);
    } else if Rank(other.tier) > Rank(g.base.tier) {
      aside := Reject(g.base, ReferenceOnly, SourceConflict);
    } else {
      aside := Reject(other, ReferenceOnly, SourceConflict);
    }
  }

  lemma ConfrontConserves(g: Group, other: Event, which: Key -> bool)
    ensures var h := Confront(g, other);
      Count(h.excluded, which) + One(h.base, which) == Count(g.excluded, which) + One(g.base, which) + One(other, which)
  {
    var aside := ConfrontShape(g, other);
    CountAppend(g.excluded, aside, which);
  }

  /** A group keeps every event: one survives and the others are excluded. */
  lemma {:induction false} GroupConserves(group: seq<Event>, which: Key -> bool)
    requires group != []
    ensures Count(FoldGroup(group).excluded, which) + One(FoldGroup(group).base, which) == Count(group, which)
  {
    if |group| > 1 {
      GroupConserves(group[..|group| - 1], which);
      ConfrontConserves(FoldGroup(group[..|group| - 1]), group[|group| - 1], which);
    } else {
      CountAppend([], group[0], which);
      assert [] + [group[0]] == group;
    }
  }

  function CountOfGroups(ordered: seq<Event>, fingerprints: seq<Key>, which: Key -> bool): nat {
    if fingerprints == [] then 0
    else
      var f := fingerprints[|fingerprints| - 1];
      CountOfGroups(ordered, fingerprints[..|fingerprints| - 1], which) + Count(WithFingerprint(ordered, f), which)
  }

  lemma PlaceConserves(s: Split, g: Group, which: Key -> bool)
    ensures Count(Place(s, g).accepted, which) + Count(Place(s, g).excluded, which)
      == Count(s.accepted, which) + Count(s.excluded, which) + Count(g.excluded, which) + One(g.base, which)
  {
    CountConcat(s.excluded, g.excluded, which);
    CountAppend(s.accepted, g.base, which);
    CountAppend(s.excluded + g.excluded, g.base, which);
  }

  lemma {:induction false} PlaceAllConserves(ordered: seq<Event>, fingerprints: seq<Key>, which: Key -> bool)
    ensures var s := PlaceAll(ordered, fingerprints);
      Count(s.accepted, which) + Count(s.excluded, which) == CountOfGroups(ordered, fingerprints, which)
  {
    if fingerprints != [] {
      var f := fingerprints[|fingerprints| - 1];
      PlaceAllConserves(ordered, fingerprints[..|fingerprints| - 1], which);
      CountSort(ById, WithFingerprint(ordered, f), which);
      var group := GroupOf(ordered, f);
      if group != [] {
        GroupConserves(group, which);
        PlaceConserves(PlaceAll(ordered, fingerprints[..|fingerprints| - 1]), FoldGroup(group), which);
      }
    }
  }

  lemma LastIsNew(keys: seq<Key>, k: Key)
    requires keys != [] && StrictlyIncreasing(keys)
    ensures var init, last := keys[..|keys| - 1], keys[|keys| - 1];
      StrictlyIncreasing(init) && last !in init && (k in keys <==> k in init || k == last)
  {
    assert keys == keys[..|keys| - 1] + [keys[|keys| - 1]];
  }

  lemma GroupOfLonger(ordered: seq<Event>, e: Event, f: Key, which: Key -> bool)
    ensures Count(WithFingerprint(ordered + [e], f), which)
      == Count(WithFingerprint(ordered, f), which) + if e.fingerprint == f then One(e, which) else 0
  {
    assert (ordered + [e])[..|ordered|] == ordered;
    var group := WithFingerprint(ordered, f);
    CountAppend(group, e, which);
    assert group + [] == group;
  }

  /** An event falls into the group of its own fingerprint and into no other. */
  lemma {:induction false} GroupsOfLonger(ordered: seq<Event>, e: Event, fingerprints: seq<Key>, which: Key -> bool)
    requires StrictlyIncreasing(fingerprints)
    ensures CountOfGroups(ordered + [e], fingerprints, which)
      == CountOfGroups(ordered, fingerprints, which) + if e.fingerprint in fingerprints then One(e, which) else 0
  {
    if fingerprints != [] {
      LastIsNew(fingerprints, e.fingerprint);
      GroupsOfLonger(ordered, e, fingerprints[..|fingerprints| - 1], which);
      GroupOfLonger(ordered, e, fingerprints[|fingerprints| - 1], which);
    }
  }

  lemma {:induction false} NoGroups(fingerprints: seq<Key>, which: Key -> bool)
    ensures CountOfGroups([], fingerprints, which) == 0
  {
    if fingerprints != [] { NoGroups(fingerprints[..|fingerprints| - 1], which); }
  }

  lemma {:induction false} GroupsPartition(ordered: seq<Event>, fingerprints: seq<Key>, which: Key -> bool)
    requires StrictlyIncreasing(fingerprints) && forall i :: 0 <= i < |ordered| ==> ordered[i].fingerprint in fingerprints
    ensures CountOfGroups(ordered, fingerprints, which) == Count(ordered, which)
  {
    if ordered == [] {
      NoGroups(fingerprints, which);
    } else {
      var init, e := ordered[..|ordered| - 1], ordered[|ordered| - 1];
      GroupsPartition(init, fingerprints, which);
      GroupsOfLonger(init, e, fingerprints, which);
      assert init + [e] == ordered;
    }
  }

  lemma GroupedConserves(events: seq<Event>, which: Key -> bool)
    ensures Count(Grouped(events).accepted, which) + Count(Grouped(events).excluded, which) == Count(events, which)
  {
    var ordered, fingerprints := SortBy(ByFingerprintAndId, events), SortedDistinct(Fingerprints(events));
    SortedDistinctSorts(Fingerprints(events));
    forall i | 0 <= i < |ordered| ensures ordered[i].fingerprint in fingerprints {
      FingerprintHasMembers(events, ordered[i].fingerprint);
      assert ordered[i] in ordered;
    }
    GroupsPartition(ordered, fingerprints, which);
    PlaceAllConserves(ordered, fingerprints, which);
    CountSort(ByFingerprintAndId, events, which);
  }

  /** Accepted and excluded events together carry exactly the ids of the input: for every choice of ids, as many
      events carry one of them after the reconciliation as before. */
  lemma ReconciliationConservesEvents(events: seq<Event>, asOf: Option<int>, which: Key -> bool)
    ensures var s := ReconcileEvents(events, asOf);
      && Count(s.accepted, which) + Count(s.excluded, which) == Count(events, which)
      && |s.accepted| + |s.excluded| == |events|
  {
    OutcomeCounts(events, asOf, which);
    var s := ReconcileEvents(events, asOf);
    OutcomeCounts(events, asOf, _ => true);
    CountAll(s.accepted);
    CountAll(s.excluded);
    CountAll(events);
  }

  lemma MarkedAndSortedCounts(placed: Split, asOf: Option<int>, which: Key -> bool)
    ensures Count(SortBy(ById, MarkAll(placed.accepted, asOf)), which) == Count(placed.accepted, which)
    ensures Count(SortBy(ById, placed.excluded), which) == Count(placed.excluded, which)
  {
    var marked := MarkAll(placed.accepted, asOf);
    CountSort(ById, marked, which);
    CountSort(ById, placed.excluded, which);
    CountSameIds(marked, placed.accepted, which);
  }

  lemma OutcomeCounts(events: seq<Event>, asOf: Option<int>, which: Key -> bool)
    ensures var s := ReconcileEvents(events, asOf);
      Count(s.accepted, which) + Count(s.excluded, which) == Count(events, which)
  {
    GroupedConserves(events, which);
    MarkedAndSortedCounts(Grouped(events), asOf, which);
  }

  /** Whoever is set aside as a mere reference for conflicting with its group ranks strictly below the survivor, and
      whoever is set aside as conflicted ranks no higher. */
  lemma {:induction false} ConflictLosersRankBelow(group: seq<Event>)
    requires group != []
    ensures var g := FoldGroup(group);
      forall x :: x in g.excluded && x.failureCodes == [SourceConflict] ==>
        && !x.signalEnabled
        && (x.status.ReferenceOnly? ==> Rank(x.tier) < Rank(g.base.tier))
        && (x.status.Conflicted? ==> Rank(x.tier) <= Rank(g.base.tier))
        && (x.status.ReferenceOnly? || x.status.Conflicted?)
  {
    if |group| > 1 { ConflictLosersRankBelow(group[..|group| - 1]); }
  }

  lemma {:induction false} SurvivorKeepsFingerprint(group: seq<Event>, fingerprint: Key)
    requires group != [] && forall e :: e in group ==> e.fingerprint == fingerprint
    ensures FoldGroup(group).base.fingerprint == fingerprint
    ensures forall x :: x in FoldGroup(group).excluded ==> x.fingerprint == fingerprint
  {
    if |group| > 1 {
      SurvivorKeepsFingerprint(group[..|group| - 1], fingerprint);
      assert group[|group| - 1] in group;
    }
  }

  /** The survivor of a group, or one that was set aside for it. */
  ghost predicate InItsGroup(ordered: seq<Event>, x: Event) {
    var group := GroupOf(ordered, x.fingerprint);
    group != [] && (x == FoldGroup(group).base || x in FoldGroup(group).excluded)
  }

  lemma {:induction false} ExcludedStayInGroup(ordered: seq<Event>, fingerprints: seq<Key>)
    ensures forall x :: x in PlaceAll(ordered, fingerprints).excluded ==> InItsGroup(ordered, x)
  {
    if fingerprints != [] {
      var init, f := fingerprints[..|fingerprints| - 1], fingerprints[|fingerprints| - 1];
      ExcludedStayInGroup(ordered, init);
      var group := GroupOf(ordered, f);
      GroupMembers(ordered, f);
      if group != [] { SurvivorKeepsFingerprint(group, f); }
    }
  }

  /** Every event excluded for a source conflict, unless it is itself the survivor of its group, emits no signal and
      ranks strictly below that survivor as a mere reference, and not above it as a conflicted event. */
  lemma ExcludedConflictRanksBelow(events: seq<Event>, asOf: Option<int>, x: Event)
    requires x in ReconcileEvents(events, asOf).excluded && x.failureCodes == [SourceConflict]
    ensures var group := GroupOf(SortBy(ByFingerprintAndId, events), x.fingerprint);
      && group != []
      && var survivor := FoldGroup(group).base;
      && (x != survivor ==>
            && !x.signalEnabled
            && (x.status.ReferenceOnly? || x.status.Conflicted?)
            && (x.status.ReferenceOnly? ==> Rank(x.tier) < Rank(survivor.tier))
            && (x.status.Conflicted? ==> Rank(x.tier) <= Rank(survivor.tier)))
  {
    var ordered := SortBy(ByFingerprintAndId, events);
    SortKeepsElements(ById, Grouped(events).excluded);
    ExcludedStayInGroup(ordered, SortedDistinct(Fingerprints(events)));
    assert InItsGroup(ordered, x);
    ConflictLosersRankBelow(GroupOf(ordered, x.fingerprint));
  }

  /** An accepted survivor of its own group. */
  ghost predicate Survives(ordered: seq<Event>, e: Event) {
    && e.status.Accepted?
    && GroupOf(ordered, e.fingerprint) != []
    && e == FoldGroup(GroupOf(ordered, e.fingerprint)).base
  }

  lemma IncreasingAppend(events: seq<Event>, e: Event)
    requires StrictlyIncreasing(Fingerprints(events)) && forall i :: 0 <= i < |events| ==> events[i].fingerprint < e.fingerprint
    ensures StrictlyIncreasing(Fingerprints(events + [e]))
  {
    var f, g := Fingerprints(events), Fingerprints(events + [e]);
    assert g == f + [e.fingerprint];
    assert forall i :: 0 <= i < |f| ==> f[i] < e.fingerprint;
  }

  lemma PlaceOne(ordered: seq<Event>, fingerprints: seq<Key>)
    requires fingerprints != []
    ensures var before := PlaceAll(ordered, fingerprints[..|fingerprints| - 1]).accepted;
      var after := PlaceAll(ordered, fingerprints).accepted;
      var f := fingerprints[|fingerprints| - 1];
      after == before || exists e :: after == before + [e] && Survives(ordered, e) && e.fingerprint == f
  {
    var f := fingerprints[|fingerprints| - 1];
    GroupMembers(ordered, f);
    var group := GroupOf(ordered, f);
    if group != [] {
      SurvivorKeepsFingerprint(group, f);
      var e := FoldGroup(group).base;
      if e.status.Accepted? { assert Survives(ordered, e); }
    }
  }

  /** The accepted events of the grouping come in the order of their fingerprints. */
  lemma {:induction false} AcceptedByFingerprint(ordered: seq<Event>, fingerprints: seq<Key>)
    requires StrictlyIncreasing(fingerprints)
    ensures var accepted := PlaceAll(ordered, fingerprints).accepted;
      && StrictlyIncreasing(Fingerprints(accepted))
      && forall i :: 0 <= i < |accepted| ==> Survives(ordered, accepted[i]) && accepted[i].fingerprint in fingerprints
  {
    if fingerprints != [] {
      var init, f := fingerprints[..|fingerprints| - 1], fingerprints[|fingerprints| - 1];
      AcceptedByFingerprint(ordered, init);
      assert fingerprints == init + [f];
      PlaceOne(ordered, fingerprints);
      var before, after := PlaceAll(ordered, init).accepted, PlaceAll(ordered, fingerprints).accepted;
      if after != before {
        var e :| after == before + [e] && Survives(ordered, e) && e.fingerprint == f;
        assert forall x :: x in init ==> x < f;
        IncreasingAppend(before, e);
      }
    }
  }

  ghost predicate OnePerFingerprint(accepted: seq<Event>) {
    && (forall i :: 0 <= i < |accepted| ==> accepted[i].status.Accepted?)
    && NoDuplicates(accepted)
    && forall x, y :: x in accepted && y in accepted && x.fingerprint == y.fingerprint ==> x == y
  }

  lemma IncreasingIsOnePerFingerprint(accepted: seq<Event>)
    requires StrictlyIncreasing(Fingerprints(accepted)) && forall i :: 0 <= i < |accepted| ==> accepted[i].status.Accepted?
    ensures OnePerFingerprint(accepted)
  {
    var f := Fingerprints(accepted);
    forall i, j | 0 <= i < j < |accepted| ensures accepted[i] != accepted[j] {
      assert f[i] < f[j];
    }
    forall x, y | x in accepted && y in accepted && x.fingerprint == y.fingerprint ensures x == y {
      var i :| 0 <= i < |accepted| && accepted[i] == x;
      var j :| 0 <= j < |accepted| && accepted[j] == y;
      assert f[i] == f[j];
      assert i == j;
    }
  }

  lemma SortingKeepsOnePerFingerprint(accepted: seq<Event>)
    requires OnePerFingerprint(accepted)
    ensures OnePerFingerprint(SortBy(ById, accepted))
  {
    var final := SortBy(ById, accepted);
    SortPermutes(ById, accepted);
    SortKeepsElements(ById, accepted);
    PermutationKeepsNoDuplicates(accepted, final);
    forall i | 0 <= i < |final| ensures final[i].status.Accepted? {
      assert final[i] in final;
      assert final[i] in accepted;
    }
  }

  lemma MarkingKeepsFingerprints(placed: seq<Event>, asOf: Option<int>)
    ensures Fingerprints(MarkAll(placed, asOf)) == Fingerprints(placed)
    ensures forall i :: 0 <= i < |placed| ==>
      MarkAll(placed, asOf)[i].status == placed[i].status && MarkAll(placed, asOf)[i].candidateIds == placed[i].candidateIds
  {
  }

  /** Every accepted event has its own fingerprint. */
  lemma AcceptedOncePerFingerprint(events: seq<Event>, asOf: Option<int>)
    ensures OnePerFingerprint(ReconcileEvents(events, asOf).accepted)
  {
    var placed := Grouped(events).accepted;
    SortedDistinctSorts(Fingerprints(events));
    AcceptedByFingerprint(SortBy(ByFingerprintAndId, events), SortedDistinct(Fingerprints(events)));
    MarkingKeepsFingerprints(placed, asOf);
    IncreasingIsOnePerFingerprint(MarkAll(placed, asOf));
    SortingKeepsOnePerFingerprint(MarkAll(placed, asOf));
  }
}
