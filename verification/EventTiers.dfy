/** Who wins a conflict between two reports, by the names of their source tiers. */
module EventTiers {
  import opened Wrappers
  import opened Keys
  import opened Sorting
  import opened EventReconciler
  import opened EventConservation
  import opened EventOrder
  import opened EventMerge

  predicate Governmental(t: SourceTier) { t.OfficialPrimary? || t.OfficialLocalGov? }

  predicate Institutional(t: SourceTier) { t.OfficialSecondary? || t.FinancialInstitution? }

  /** Primary sources and local governments beat all others, secondary sources and financial institutions beat news and
      other sources, and news beats other sources. */
  predicate Beats(a: SourceTier, b: SourceTier) {
    || (Governmental(a) && !Governmental(b))
    || (Institutional(a) && (b.MajorNews? || b.OtherTier?))
    || (a.MajorNews? && b.OtherTier?)
  }

  predicate Ties(a: SourceTier, b: SourceTier) {
    a == b || (Governmental(a) && Governmental(b)) || (Institutional(a) && Institutional(b))
  }

  /** The named order is the one by which the reconciliation ranks. */
  lemma TiersByName(a: SourceTier, b: SourceTier)
    ensures Rank(a) > Rank(b) <==> Beats(a, b)
    ensures Rank(a) == Rank(b) <==> Ties(a, b)
    ensures (if Ties(a, b) then 1 else 0) + (if Beats(a, b) then 1 else 0) + (if Beats(b, a) then 1 else 0) == 1
  {
  }

  /** Reports that are about different days or places and are not both base-rate decisions. */
  ghost predicate Disagree(a: Event, b: Event) {
    !(a.baseRateDecision && b.baseRateDecision) && (a.start != b.start || a.end != b.end || a.address != b.address)
  }

  /** `x` is set aside as `status` for `code`, without its signal, and is otherwise `e`. */
  ghost predicate SetAside(x: Event, e: Event, status: Status, code: Code) {
    x == e.(status := status, failureCodes := [code], signalEnabled := false)
  }

  /** Of two reports that disagree, the one from the better tier survives untouched and the other becomes a reference;
      between equal tiers both are conflicted, and nothing is accepted. */
  lemma ConflictByTier(a: Event, b: Event)
    requires Disagree(a, b)
    ensures var g := FoldGroup([a, b]);
      && |g.excluded| == 1
      && (Beats(a.tier, b.tier) ==> g.base == a && SetAside(g.excluded[0], b, ReferenceOnly, SourceConflict))
      && (Beats(b.tier, a.tier) ==> g.base == b && SetAside(g.excluded[0], a, ReferenceOnly, SourceConflict))
      && (Ties(a.tier, b.tier) ==>
            && SetAside(g.base, a, Conflicted, SourceConflict) && SetAside(g.excluded[0], b, Conflicted, SourceConflict)
            && !Place(Split([], []), g).excluded[0].signalEnabled && Place(Split([], []), g).accepted == [])
  {
    FoldPair(a, b);
    TiersByName(a.tier, b.tier);
  }

  /** Of two reports that agree, the first survives with everything gathered, and the other is a duplicate. */
  lemma AgreementMerges(a: Event, b: Event)
    requires !Disagree(a, b)
    ensures var g := FoldGroup([a, b]);
      && |g.excluded| == 1 && SetAside(g.excluded[0], b, ReferenceOnly, DuplicateEvent)
      && (forall c :: c in g.base.candidateIds <==> c in a.candidateIds || c in b.candidateIds)
      && (forall c :: c in g.base.sourceIds <==> c in a.sourceIds || c in b.sourceIds)
      && (forall c :: c in g.base.revisionIds <==> c in a.revisionIds || c in b.revisionIds)
      && g.base.evidence == a.evidence + b.evidence
      && g.base.title in {a.title, b.title} && g.base.title <= a.title && g.base.title <= b.title
      && g.base.mergedCandidateIds == (if a.baseRateDecision then g.base.candidateIds else a.mergedCandidateIds)
      && g.base == a.(candidateIds := g.base.candidateIds, sourceIds := g.base.sourceIds, revisionIds := g.base.revisionIds,
                      evidence := g.base.evidence, title := g.base.title, mergedCandidateIds := g.base.mergedCandidateIds)
  {
    FoldPair(a, b);
    SortedDistinctSorts(a.candidateIds + b.candidateIds);
    SortedDistinctSorts(a.sourceIds + b.sourceIds);
    SortedDistinctSorts(a.revisionIds + b.revisionIds);
  }

  /** In a group, whoever becomes a reference for a conflict is beaten by the survivor, and nobody who is conflicted
      beats it. */
  lemma LosersAreBeaten(group: seq<Event>, x: Event)
    requires group != [] && x in FoldGroup(group).excluded && x.failureCodes == [SourceConflict]
    ensures var survivor := FoldGroup(group).base;
      && !x.signalEnabled && (x.status.ReferenceOnly? || x.status.Conflicted?)
      && (x.status.ReferenceOnly? ==> Beats(survivor.tier, x.tier))
      && (x.status.Conflicted? ==> Beats(survivor.tier, x.tier) || Ties(survivor.tier, x.tier))
  {
    ConflictLosersRankBelow(group);
    TiersByName(FoldGroup(group).base.tier, x.tier);
  }

  /** The same over a whole reconciliation. */
  lemma ExcludedIsBeaten(events: seq<Event>, asOf: Option<int>, x: Event) returns (survivor: Event)
    requires x in ReconcileEvents(events, asOf).excluded && x.failureCodes == [SourceConflict]
    ensures survivor.fingerprint == x.fingerprint
    ensures x == survivor || (!x.signalEnabled && (Beats(survivor.tier, x.tier) || (x.status.Conflicted? && Ties(survivor.tier, x.tier))))
  {
    var ordered := SortBy(ByFingerprintAndId, events);
    var group := GroupOf(ordered, x.fingerprint);
    ExcludedConflictRanksBelow(events, asOf, x);
    survivor := FoldGroup(group).base;
    GroupMembers(ordered, x.fingerprint);
    SurvivorKeepsFingerprint(group, x.fingerprint);
    TiersByName(survivor.tier, x.tier);
  }

  ghost predicate BeatsAll(g: seq<Event>, i: nat) {
    i < |g| && forall j :: 0 <= j < |g| && j != i ==> Beats(g[i].tier, g[j].tier)
  }

  lemma BeatsAllIff(g: seq<Event>, i: nat)
    ensures OutranksAll(g, i) <==> BeatsAll(g, i)
  {
    if i < |g| {
      forall j | 0 <= j < |g| ensures Rank(g[j].tier) < Rank(g[i].tier) <==> Beats(g[i].tier, g[j].tier) {
        TiersByName(g[i].tier, g[j].tier);
      }
    }
  }

  /** Among accepted reports that all disagree, the survivor's tier is beaten by none of them, and it is accepted exactly
      when one of them beats all others. */
  lemma AcceptedIfOneBeatsAll(g: seq<Event>)
    requires g != [] && AllConflict(g) && forall x :: x in g ==> x.status.Accepted?
    ensures forall j :: 0 <= j < |g| ==> !Beats(g[j].tier, FoldGroup(g).base.tier)
    ensures FoldGroup(g).base.status.Accepted? <==> exists i :: BeatsAll(g, i)
  {
    var top := ConflictAcceptsUniqueTop(g);
    forall j | 0 <= j < |g| ensures !Beats(g[j].tier, FoldGroup(g).base.tier) { TiersByName(g[j].tier, g[top].tier); }
    forall i: nat ensures OutranksAll(g, i) <==> BeatsAll(g, i) { BeatsAllIff(g, i); }
  }

  ghost predicate AscendingIds(events: seq<Event>) { forall i, j :: 0 <= i < j < |events| ==> events[i].id <= events[j].id }

  lemma SortedById(events: seq<Event>)
    ensures AscendingIds(SortBy(ById, events))
  {
    assert TotalPreorder(ById);
    SortSorts(ById, events);
    assert forall i, j :: 0 <= i < j < |events| ==> ById(SortBy(ById, events)[i], SortBy(ById, events)[j]) by { SortPermutes(ById, events); }
  }

  /** The reports of a fingerprint are confronted by ascending id, and what is accepted and what is excluded comes out by ascending
      id. */
  lemma EverythingById(events: seq<Event>, asOf: Option<int>, fingerprint: Key)
    ensures AscendingIds(GroupOf(SortBy(ByFingerprintAndId, events), fingerprint))
    ensures AscendingIds(ReconcileEvents(events, asOf).accepted) && AscendingIds(ReconcileEvents(events, asOf).excluded)
  {
    SortedById(WithFingerprint(SortBy(ByFingerprintAndId, events), fingerprint));
    SortedById(MarkAll(Grouped(events).accepted, asOf));
    SortedById(Grouped(events).excluded);
  }
}
