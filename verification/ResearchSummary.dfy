/** The candidate bookkeeping of a research summary (backend/src/orchestration/analysis_orchestrator.py) and the
    invariant that its contract checks (backend/src/contracts/attribution.py). */
module ResearchSummary {
  import opened Wrappers
  import opened Keys
  import opened Sorting
  import opened EventReconciler
  import opened EventConservation

  datatype Summary = Summary(
    acceptedIds: seq<Key>,
    rejectedIds: seq<Key>,
    outcomeIds: seq<Key>,
    candidateCount: nat,
    rejectedCount: nat,
    acceptedCount: nat)

  datatype SummaryError =
    | DuplicateAcceptedIds
    | DuplicateRejectedIds
    | AcceptedAndRejected
    | OutcomesUnresolved
    | CandidateCountMismatch
    | RejectedCountMismatch
    | AcceptedCountMismatch

  predicate HasDuplicates(s: seq<Key>) { |s| != |Elements(s)| }

  /** The validator of the contract: the first inconsistency, if any. */
  function Inconsistency(s: Summary): Option<SummaryError> {
    if HasDuplicates(s.acceptedIds) then Some(DuplicateAcceptedIds)
    else if HasDuplicates(s.rejectedIds) then Some(DuplicateRejectedIds)
    else if Elements(s.acceptedIds) * Elements(s.rejectedIds) != {} then Some(AcceptedAndRejected)
    else
      var expected := Elements(s.acceptedIds) + Elements(s.rejectedIds);
      if HasDuplicates(s.outcomeIds) || Elements(s.outcomeIds) != expected then Some(OutcomesUnresolved)
      else if s.candidateCount != |expected| then Some(CandidateCountMismatch)
      else if s.rejectedCount != |s.rejectedIds| then Some(RejectedCountMismatch)
      else if s.acceptedCount != |s.acceptedIds| then Some(AcceptedCountMismatch)
      else None
  }

  ghost predicate Shares(a: seq<Key>, b: seq<Key>) { exists x :: x in a && x in b }

  /** All outcomes: every accepted and every rejected candidate, once. */
  ghost predicate Resolves(s: Summary) {
    NoDuplicates(s.outcomeIds) && forall x :: x in s.outcomeIds <==> x in s.acceptedIds || x in s.rejectedIds
  }

  /** The summary passes exactly if nothing is listed twice, no candidate is both accepted and rejected, the outcomes are all of
      them, and the counts count them. */
  lemma ConsistentIff(s: Summary)
    ensures Inconsistency(s).None? <==>
      && NoDuplicates(s.acceptedIds) && NoDuplicates(s.rejectedIds) && !Shares(s.acceptedIds, s.rejectedIds) && Resolves(s)
      && s.acceptedCount == |s.acceptedIds| && s.rejectedCount == |s.rejectedIds|
      && s.candidateCount == |s.acceptedIds| + |s.rejectedIds|
  {
    ElementsCount(s.acceptedIds);
    ElementsCount(s.rejectedIds);
    ElementsCount(s.outcomeIds);
    SharesIff(s.acceptedIds, s.rejectedIds);
    ResolvesIff(s);
    if NoDuplicates(s.acceptedIds) && NoDuplicates(s.rejectedIds) && !Shares(s.acceptedIds, s.rejectedIds) {
      DisjointConcat(s.acceptedIds, s.rejectedIds);
    }
  }

  lemma SharesIff(a: seq<Key>, b: seq<Key>)
    ensures Shares(a, b) <==> Elements(a) * Elements(b) != {}
  {
    if x :| x in a && x in b { assert x in Elements(a) * Elements(b); }
    if Elements(a) * Elements(b) != {} { var x := AnyOf(Elements(a) * Elements(b)); }
  }

  lemma ResolvesIff(s: Summary)
    ensures Resolves(s) <==> !HasDuplicates(s.outcomeIds) && Elements(s.outcomeIds) == Elements(s.acceptedIds) + Elements(s.rejectedIds)
  {
    ElementsCount(s.outcomeIds);
    var some, all := Elements(s.outcomeIds), Elements(s.acceptedIds) + Elements(s.rejectedIds);
    assert forall x :: x in some <==> x in s.outcomeIds;
    assert forall x :: x in all <==> x in s.acceptedIds || x in s.rejectedIds;
    if forall x :: x in s.outcomeIds <==> x in s.acceptedIds || x in s.rejectedIds {
      assert forall x :: x in some <==> x in all;
    }
  }

  /** Of several inconsistencies the first is named: repeated ids, then contradictory ones, then the outcomes, then the counts. */
  lemma FirstInconsistency(s: Summary)
    ensures Inconsistency(s) == Some(DuplicateAcceptedIds) <==> !NoDuplicates(s.acceptedIds)
    ensures Inconsistency(s) == Some(DuplicateRejectedIds) <==> NoDuplicates(s.acceptedIds) && !NoDuplicates(s.rejectedIds)
    ensures Inconsistency(s) == Some(AcceptedAndRejected) <==>
      NoDuplicates(s.acceptedIds) && NoDuplicates(s.rejectedIds) && Shares(s.acceptedIds, s.rejectedIds)
    ensures Inconsistency(s) == Some(OutcomesUnresolved) <==>
      NoDuplicates(s.acceptedIds) && NoDuplicates(s.rejectedIds) && !Shares(s.acceptedIds, s.rejectedIds) && !Resolves(s)
    ensures Inconsistency(s).Some? && Inconsistency(s).value in {CandidateCountMismatch, RejectedCountMismatch, AcceptedCountMismatch} ==>
      Resolves(s)
    ensures Complaint(s.acceptedIds, s.rejectedIds) == match Inconsistency(s)
      case Some(error) => (if error in {DuplicateAcceptedIds, DuplicateRejectedIds, AcceptedAndRejected} then Some(error) else None)
      case None => None
  {
    ElementsCount(s.acceptedIds);
    ElementsCount(s.rejectedIds);
    SharesIff(s.acceptedIds, s.rejectedIds);
    ResolvesIff(s);
  }

  function CandidateIds(events: seq<Event>): seq<Key> {
    if events == [] then [] else CandidateIds(events[..|events| - 1]) + events[|events| - 1].candidateIds
  }

  lemma {:induction false} ElementsCount(s: seq<Key>)
    ensures |Elements(s)| <= |s|
    ensures HasDuplicates(s) <==> !NoDuplicates(s)
  {
    if s != [] {
      var init, last := s[..|s| - 1], s[|s| - 1];
      ElementsCount(init);
      assert s == init + [last];
      assert Elements(s) == Elements(init) + {last};
      if last in init {
        assert Elements(s) == Elements(init);
        var i :| 0 <= i < |init| && init[i] == last;
        assert s[i] == s[|s| - 1];
      } else {
        assert |Elements(s)| == |Elements(init)| + 1;
        if NoDuplicates(init) {
          forall i, j | 0 <= i < j < |s| ensures s[i] != s[j] {
            if j == |s| - 1 { assert init[i] in init; }
          }
        } else {
          var i, j :| 0 <= i < j < |init| && init[i] == init[j];
          assert s[i] == s[j];
        }
      }
    }
  }

  lemma DisjointConcat(a: seq<Key>, b: seq<Key>)
    requires !HasDuplicates(a) && !HasDuplicates(b) && Elements(a) * Elements(b) == {}
    ensures !HasDuplicates(a + b) && Elements(a + b) == Elements(a) + Elements(b)
    ensures |Elements(a) + Elements(b)| == |a| + |b|
  {
    assert Elements(a + b) == Elements(a) + Elements(b);
    assert |Elements(a) + Elements(b)| == |Elements(a)| + |Elements(b)|;
  }

  /** The three complaints that the bookkeeping raises itself, before it builds a summary. */
  function Complaint(acceptedIds: seq<Key>, rejectedIds: seq<Key>): Option<SummaryError> {
    if HasDuplicates(acceptedIds) then Some(DuplicateAcceptedIds)
    else if HasDuplicates(rejectedIds) then Some(DuplicateRejectedIds)
    else if Elements(acceptedIds) * Elements(rejectedIds) != {} then Some(AcceptedAndRejected)
    else None
  }

  /** Either one of those complaints is raised, or the summary passes the contract's validator. */
  method Summarise(accepted: seq<Event>, rejected: seq<Key>) returns (r: Result<Summary, SummaryError>)
    ensures r.Failure? ==> Complaint(CandidateIds(accepted), rejected) == Some(r.error)
    ensures r.Success? ==>
      && Complaint(CandidateIds(accepted), rejected) == None
      && r.value.acceptedIds == CandidateIds(accepted) && r.value.rejectedIds == rejected
      && Inconsistency(r.value) == None
  {
    var acceptedIds: seq<Key> := [];
    for i := 0 to |accepted|
      invariant acceptedIds == CandidateIds(accepted[..i])
    {
      assert accepted[..i + 1][..i] == accepted[..i];
      acceptedIds := acceptedIds + accepted[i].candidateIds;
    }
    assert accepted[..|accepted|] == accepted;
    var complaint := Complaint(acceptedIds, rejected);
    if complaint.Some? { return Failure(complaint.value); }
    var outcomes: seq<Key> := [];
    for i := 0 to |accepted|
      invariant outcomes == CandidateIds(accepted[..i])
    {
      assert accepted[..i + 1][..i] == accepted[..i];
      for j := 0 to |accepted[i].candidateIds|
        invariant outcomes == CandidateIds(accepted[..i]) + accepted[i].candidateIds[..j]
      {
        outcomes := outcomes + [accepted[i].candidateIds[j]];
      }
    }
    for j := 0 to |rejected|
      invariant outcomes == acceptedIds + rejected[..j]
    {
      outcomes := outcomes + [rejected[j]];
    }
    assert outcomes == acceptedIds + rejected;
    DisjointConcat(acceptedIds, rejected);
    r := Success(Summary(acceptedIds, rejected, outcomes, |acceptedIds| + |rejected|, |rejected|, |acceptedIds|));
  }

  /** Every candidate belongs to one input event. */
  ghost predicate CandidatesDistinct(events: seq<Event>) {
    && (forall e :: e in events ==> NoDuplicates(e.candidateIds))
    && forall e, f, c :: e in events && f in events && c in e.candidateIds && c in f.candidateIds ==> e.fingerprint == f.fingerprint
  }

  ghost predicate FromGroup(c: Key, group: seq<Event>) {
    exists e :: e in group && c in e.candidateIds
  }

  /** The survivor of a group carries candidates of that group only, each once. */
  lemma {:induction false} SurvivorCandidates(group: seq<Event>)
    requires group != [] && forall e :: e in group ==> NoDuplicates(e.candidateIds)
    ensures NoDuplicates(FoldGroup(group).base.candidateIds)
    ensures forall c :: c in FoldGroup(group).base.candidateIds ==> FromGroup(c, group)
  {
    var base := FoldGroup(group).base;
    if |group| == 1 {
      forall c | c in base.candidateIds ensures FromGroup(c, group) { assert group[0] in group; }
    } else {
      var init, other := group[..|group| - 1], group[|group| - 1];
      assert group == init + [other] && other in group;
      SurvivorCandidates(init);
      var before := FoldGroup(init).base;
      SortedDistinctSorts(before.candidateIds + other.candidateIds);
      forall c | c in base.candidateIds ensures FromGroup(c, group) {
        if c in before.candidateIds {
          assert FromGroup(c, init);
        } else {
          assert c in other.candidateIds;
        }
      }
    }
  }

  lemma SurvivorOwnsItsCandidates(events: seq<Event>, e: Event)
    requires CandidatesDistinct(events) && Survives(SortBy(ByFingerprintAndId, events), e)
    ensures NoDuplicates(e.candidateIds)
    ensures forall c :: c in e.candidateIds ==> exists f :: f in events && f.fingerprint == e.fingerprint && c in f.candidateIds
  {
    var ordered := SortBy(ByFingerprintAndId, events);
    var group := GroupOf(ordered, e.fingerprint);
    SortKeepsElements(ByFingerprintAndId, events);
    GroupMembers(ordered, e.fingerprint);
    forall f | f in group ensures f in events && f.fingerprint == e.fingerprint && NoDuplicates(f.candidateIds) {
      assert f in ordered;
    }
    SurvivorCandidates(group);
    forall c | c in e.candidateIds ensures exists f :: f in events && f.fingerprint == e.fingerprint && c in f.candidateIds {
      assert FromGroup(c, group);
    }
  }

  /** Candidates of accepted events come from input events with the same fingerprint, without repetition. */
  lemma AcceptedOwnsItsCandidates(events: seq<Event>, asOf: Option<int>, x: Event)
    requires CandidatesDistinct(events) && x in ReconcileEvents(events, asOf).accepted
    ensures NoDuplicates(x.candidateIds)
    ensures forall c :: c in x.candidateIds ==> exists f :: f in events && f.fingerprint == x.fingerprint && c in f.candidateIds
  {
    var placed := Grouped(events).accepted;
    var marked := MarkAll(placed, asOf);
    SortKeepsElements(ById, marked);
    assert x in marked;
    var i :| 0 <= i < |marked| && marked[i] == x;
    MarkingKeepsFingerprints(placed, asOf);
    assert Fingerprints(marked)[i] == Fingerprints(placed)[i];
    SortedDistinctSorts(Fingerprints(events));
    AcceptedByFingerprint(SortBy(ByFingerprintAndId, events), SortedDistinct(Fingerprints(events)));
    SurvivorOwnsItsCandidates(events, placed[i]);
  }

  ghost predicate Owned(events: seq<Event>, accepted: seq<Event>) {
    forall x, c :: x in accepted && c in x.candidateIds ==>
      exists f :: f in events && f.fingerprint == x.fingerprint && c in f.candidateIds
  }

  lemma {:induction false} CandidateIdsMember(accepted: seq<Event>, c: Key)
    ensures c in CandidateIds(accepted) <==> FromGroup(c, accepted)
  {
    if accepted != [] {
      var init, last := accepted[..|accepted| - 1], accepted[|accepted| - 1];
      assert accepted == init + [last];
      CandidateIdsMember(init, c);
      if FromGroup(c, accepted) {
        var e :| e in accepted && c in e.candidateIds;
        if e in init { assert FromGroup(c, init); }
      }
      if c in CandidateIds(accepted) && c !in CandidateIds(init) { assert last in accepted; }
    }
  }

  lemma {:induction false} AcceptedIdsDistinct(events: seq<Event>, accepted: seq<Event>)
    requires CandidatesDistinct(events) && OnePerFingerprint(accepted) && Owned(events, accepted)
    requires forall x :: x in accepted ==> NoDuplicates(x.candidateIds)
    ensures !HasDuplicates(CandidateIds(accepted))
  {
    if accepted != [] {
      var init, last := accepted[..|accepted| - 1], accepted[|accepted| - 1];
      assert accepted == init + [last];
      AcceptedIdsDistinct(events, init);
      ElementsCount(last.candidateIds);
      assert last in accepted;
      forall c | c in CandidateIds(init) ensures c !in last.candidateIds {
        CandidateIdsMember(init, c);
        var x :| x in init && c in x.candidateIds;
        assert x in accepted && x != last;
        if c in last.candidateIds { LaterOwnerDiffers(events, accepted, x, last, c); }
      }
      DisjointConcat(CandidateIds(init), last.candidateIds);
    }
  }

  lemma LaterOwnerDiffers(events: seq<Event>, accepted: seq<Event>, x: Event, y: Event, c: Key)
    requires CandidatesDistinct(events) && OnePerFingerprint(accepted) && Owned(events, accepted)
    requires x in accepted && y in accepted && x != y && c in x.candidateIds
    ensures c !in y.candidateIds
  {
  }

  /** Distinct candidates stay apart: the summary of reconciled events raises no complaint, so by the contract of
      `Summarise` it is consistent. */
  lemma ReconciledSummaryIsConsistent(events: seq<Event>, asOf: Option<int>, rejected: seq<Key>)
    requires CandidatesDistinct(events) && NoDuplicates(rejected)
    requires forall e, c :: e in events && c in e.candidateIds ==> c !in rejected
    ensures Complaint(CandidateIds(ReconcileEvents(events, asOf).accepted), rejected) == None
  {
    var accepted := ReconcileEvents(events, asOf).accepted;
    AcceptedOncePerFingerprint(events, asOf);
    forall x | x in accepted
      ensures NoDuplicates(x.candidateIds)
      ensures forall c :: c in x.candidateIds ==> exists f :: f in events && f.fingerprint == x.fingerprint && c in f.candidateIds
    {
      AcceptedOwnsItsCandidates(events, asOf, x);
    }
    AcceptedIdsDistinct(events, accepted);
    ElementsCount(rejected);
    forall c | c in CandidateIds(accepted) ensures c !in rejected {
      CandidateIdsMember(accepted, c);
    }
  }
}
