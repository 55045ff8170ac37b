/** Merging and ranking the validated events of a run (backend/src/validation/reconciler.py). */
module EventReconciler {
  import opened Wrappers
  import opened Keys
  import opened Sorting

  datatype SourceTier = OfficialPrimary | OfficialLocalGov | OfficialSecondary | FinancialInstitution | MajorNews | OtherTier

  function Rank(tier: SourceTier): nat {
    match tier
    case OfficialPrimary => 5
    case OfficialLocalGov => 5
    case OfficialSecondary => 4
    case FinancialInstitution => 4
    case MajorNews => 2
    case OtherTier => 0
  }

  datatype Status = Accepted | Conflicted | ReferenceOnly | OtherStatus

  datatype Code = SourceConflict | DuplicateEvent | OtherCode

  datatype Lifecycle =
    | Unmarked
    | CurrentDecision
    | SupersededBy(laterId: Key, through: int)
    | FutureDecision

  /** Dates are day ordinals; evidence is kept by evidence id. */
  datatype Event = Event(
    id: Key,
    fingerprint: Key,
    candidateIds: seq<Key>,
    sourceIds: seq<Key>,
    revisionIds: seq<Key>,
    evidence: map<Key, Key>,
    title: Key,
    baseRateDecision: bool,
    start: int,
    end: Option<int>,
    address: Option<Key>,
    tier: SourceTier,
    status: Status,
    failureCodes: seq<Code>,
    signalEnabled: bool,
    mergedCandidateIds: seq<Key>,
    lifecycle: Lifecycle)

  /** Two Bank of Korea base-rate decisions are one identity whatever their dates say. */
  predicate SameOccasion(a: Event, b: Event) {
    || (a.baseRateDecision && b.baseRateDecision)
    || (a.start == b.start && a.end == b.end && a.address == b.address)
  }

  function Reject(e: Event, status: Status, code: Code): Event {
    e.(status := status, failureCodes := [code], signalEnabled := false)
  }

  function Merge(base: Event, other: Event): Event {
    var candidates := SortedDistinct(base.candidateIds + other.candidateIds);
    base.(
      candidateIds := candidates,
      sourceIds := SortedDistinct(base.sourceIds + other.sourceIds),
      revisionIds := SortedDistinct(base.revisionIds + other.revisionIds),
      evidence := base.evidence + other.evidence,
      mergedCandidateIds := if base.baseRateDecision then candidates else base.mergedCandidateIds,
      title := if other.title < base.title then other.title else base.title)
  }

  datatype Group = Group(base: Event, excluded: seq<Event>)

  /** Confronting the surviving event of a group with the next one. */
  function Confront(g: Group, other: Event): Group {
    if SameOccasion(g.base, other) then
      Group(Merge(g.base, other), g.excluded + [Reject(other, ReferenceOnly, DuplicateEvent)])
    else if Rank(g.base.tier) == Rank(other.tier) then
      Group(Reject(g.base, Conflicted, SourceConflict), g.excluded + [Reject(other, Conflicted, SourceConflict)])
    else if Rank(other.tier) > Rank(g.base.tier) then
      Group(other, g.excluded + [Reject(g.base, ReferenceOnly, SourceConflict)])
    else
      Group(g.base, g.excluded + [Reject(other, ReferenceOnly, SourceConflict)])
  }

  function FoldGroup(group: seq<Event>): Group
    requires group != []
  {
    if |group| == 1 then Group(group[0], []) else Confront(FoldGroup(group[..|group| - 1]), group[|group| - 1])
  }

  predicate ByFingerprintAndId(a: Event, b: Event) {
    a.fingerprint < b.fingerprint || (a.fingerprint == b.fingerprint && a.id <= b.id)
  }

  predicate ById(a: Event, b: Event) { a.id <= b.id }

  predicate ByStartAndId(a: Event, b: Event) {
    a.start < b.start || (a.start == b.start && a.id <= b.id)
  }

  function WithFingerprint(events: seq<Event>, fingerprint: Key): seq<Event> {
    if events == [] then []
    else
      WithFingerprint(events[..|events| - 1], fingerprint)
        + if events[|events| - 1].fingerprint == fingerprint then [events[|events| - 1]] else []
  }

  function Fingerprints(events: seq<Event>): seq<Key> {
    seq(|events|, i requires 0 <= i < |events| => events[i].fingerprint)
  }

  function GroupOf(ordered: seq<Event>, fingerprint: Key): seq<Event> {
    SortBy(ById, WithFingerprint(ordered, fingerprint))
  }

  lemma {:induction false} WithFingerprintMembers(events: seq<Event>, fingerprint: Key)
    ensures forall e :: e in WithFingerprint(events, fingerprint) <==> e in events && e.fingerprint == fingerprint
  {
    if events != [] {
      WithFingerprintMembers(events[..|events| - 1], fingerprint);
      assert events == events[..|events| - 1] + [events[|events| - 1]];
    }
  }

  lemma GroupMembers(ordered: seq<Event>, fingerprint: Key)
    ensures forall e :: e in GroupOf(ordered, fingerprint) <==> e in ordered && e.fingerprint == fingerprint
  {
    WithFingerprintMembers(ordered, fingerprint);
    SortKeepsElements(ById, WithFingerprint(ordered, fingerprint));
  }

  datatype Split = Split(accepted: seq<Event>, excluded: seq<Event>)

  /** One group's outcome: the survivor is accepted if its status still says so. */
  function Place(s: Split, g: Group): Split {
    if g.base.status.Accepted? then Split(s.accepted + [g.base], s.excluded + g.excluded)
    else Split(s.accepted, s.excluded + g.excluded + [g.base])
  }

  function PlaceAll(ordered: seq<Event>, fingerprints: seq<Key>): Split {
    if fingerprints == [] then Split([], [])
    else
      var group := GroupOf(ordered, fingerprints[|fingerprints| - 1]);
      var before := PlaceAll(ordered, fingerprints[..|fingerprints| - 1]);
      if group == [] then before else Place(before, FoldGroup(group))
  }

  function Decisions(accepted: seq<Event>): seq<Event> {
    if accepted == [] then []
    else
      Decisions(accepted[..|accepted| - 1])
        + if accepted[|accepted| - 1].baseRateDecision then [accepted[|accepted| - 1]] else []
  }

  predicate Effective(e: Event, asOf: Option<int>) { asOf.None? || e.start <= asOf.value }

  /** The last decision of an ordered list that is effective. */
  function Current(decisions: seq<Event>, asOf: Option<int>): Option<Event> {
    if decisions == [] then None
    else if Effective(decisions[|decisions| - 1], asOf) then Some(decisions[|decisions| - 1])
    else Current(decisions[..|decisions| - 1], asOf)
  }

  /** The first decision of an ordered list that starts after `day`. */
  function NextAfter(decisions: seq<Event>, day: int): Option<Event> {
    if decisions == [] then None
    else if decisions[0].start > day then Some(decisions[0])
    else NextAfter(decisions[1..], day)
  }

  function MarkLifecycle(e: Event, decisions: seq<Event>, asOf: Option<int>): Event {
    if !e.baseRateDecision then e
    else if Current(decisions, asOf) == Some(e) then e.(lifecycle := CurrentDecision)
    else
      match NextAfter(decisions, e.start)
      case Some(later) => e.(end := Some(later.start - 1), lifecycle := SupersededBy(later.id, later.start - 1), signalEnabled := false)
      case None => e.(lifecycle := FutureDecision, signalEnabled := false)
  }

  function MarkAll(accepted: seq<Event>, asOf: Option<int>): (r: seq<Event>)
    ensures |r| == |accepted|
    ensures forall i :: 0 <= i < |r| ==> r[i] == MarkLifecycle(accepted[i], SortBy(ByStartAndId, Decisions(accepted)), asOf)
  {
    var decisions := SortBy(ByStartAndId, Decisions(accepted));
    seq(|accepted|, i requires 0 <= i < |accepted| => MarkLifecycle(accepted[i], decisions, asOf))
  }

  function Grouped(events: seq<Event>): Split {
    PlaceAll(SortBy(ByFingerprintAndId, events), SortedDistinct(Fingerprints(events)))
  }

  function ReconcileEvents(events: seq<Event>, asOf: Option<int>): Split {
    var s := Grouped(events);
    Split(SortBy(ById, MarkAll(s.accepted, asOf)), SortBy(ById, s.excluded))
  }

  /** A missing key of the default dictionary stands for an empty list. */
  function Bucket(groups: map<Key, seq<Event>>, fingerprint: Key): seq<Event> {
    if fingerprint in groups then groups[fingerprint] else []
  }

  lemma WithFingerprintNext(ordered: seq<Event>, i: nat, fingerprint: Key)
    requires i < |ordered|
    ensures WithFingerprint(ordered[..i + 1], fingerprint)
      == WithFingerprint(ordered[..i], fingerprint) + if ordered[i].fingerprint == fingerprint then [ordered[i]] else []
  {
    assert ordered[..i + 1][..i] == ordered[..i];
  }

  method GroupByFingerprint(ordered: seq<Event>) returns (groups: map<Key, seq<Event>>)
    ensures forall f :: Bucket(groups, f) == WithFingerprint(ordered, f)
  {
    groups := map[];
    for i := 0 to |ordered|
      invariant forall f :: Bucket(groups, f) == WithFingerprint(ordered[..i], f)
    {
      ghost var before := groups;
      groups := groups[ordered[i].fingerprint := Bucket(groups, ordered[i].fingerprint) + [ordered[i]]];
      forall f ensures Bucket(groups, f) == WithFingerprint(ordered[..i + 1], f) {
        assert Bucket(before, f) == WithFingerprint(ordered[..i], f);
        WithFingerprintNext(ordered, i, f);
      }
    }
    assert ordered[..|ordered|] == ordered;
  }

  /** The loop over one group. */
  method ReconcileGroup(group: seq<Event>) returns (g: Group)
    requires group != []
    ensures g == FoldGroup(group)
  {
    var base := group[0];
    var excluded: seq<Event> := [];
    for k := 1 to |group|
      invariant Group(base, excluded) == FoldGroup(group[..k])
    {
      assert group[..k + 1][..k] == group[..k];
      var other := group[k];
      if !SameOccasion(base, other) {
        var left, right := Rank(base.tier), Rank(other.tier);
        if left == right {
          base := Reject(base, Conflicted, SourceConflict);
          excluded := excluded + [Reject(other, Conflicted, SourceConflict)];
        } else if right > left {
          excluded := excluded + [Reject(base, ReferenceOnly, SourceConflict)];
          base := other;
        } else {
          excluded := excluded + [Reject(other, ReferenceOnly, SourceConflict)];
        }
        continue;
      }
      base := Merge(base, other);
      excluded := excluded + [Reject(other, ReferenceOnly, DuplicateEvent)];
    }
    assert group[..|group|] == group;
    g := Group(base, excluded);
  }

  /** The loop over the groups; no key of the dictionary has an empty group. */
  method PlaceGroups(ordered: seq<Event>, fingerprints: seq<Key>) returns (accepted: seq<Event>, excluded: seq<Event>)
    requires forall k :: 0 <= k < |fingerprints| ==> GroupOf(ordered, fingerprints[k]) != []
    ensures Split(accepted, excluded) == PlaceAll(ordered, fingerprints)
  {
    var groups := GroupByFingerprint(ordered);
    accepted, excluded := [], [];
    for k := 0 to |fingerprints|
      invariant Split(accepted, excluded) == PlaceAll(ordered, fingerprints[..k])
    {
      assert fingerprints[..k + 1][..k] == fingerprints[..k];
      var group := SortBy(ById, Bucket(groups, fingerprints[k]));
      assert group == GroupOf(ordered, fingerprints[k]);
      var g := ReconcileGroup(group);
      excluded := excluded + g.excluded;
      if g.base.status.Accepted? {
        accepted := accepted + [g.base];
      } else {
        excluded := excluded + [g.base];
      }
    }
    assert fingerprints[..|fingerprints|] == fingerprints;
  }

  /** The lifecycle pass over the accepted decisions, in place. */
  method MarkDecisions(placed: seq<Event>, asOf: Option<int>) returns (accepted: seq<Event>)
    ensures accepted == MarkAll(placed, asOf)
  {
    accepted := placed;
    var decisions := SortBy(ByStartAndId, Decisions(placed));
    for i := 0 to |accepted|
      invariant |accepted| == |placed|
      invariant forall j :: 0 <= j < i ==> accepted[j] == MarkLifecycle(placed[j], decisions, asOf)
      invariant forall j :: i <= j < |accepted| ==> accepted[j] == placed[j]
    {
      accepted := accepted[i := MarkLifecycle(accepted[i], decisions, asOf)];
    }
  }

  method Reconcile(events: seq<Event>, asOf: Option<int>) returns (accepted: seq<Event>, excluded: seq<Event>)
    ensures Split(accepted, excluded) == ReconcileEvents(events, asOf)
  {
    var ordered := SortBy(ByFingerprintAndId, events);
    var fingerprints := SortedDistinct(Fingerprints(events));
    NoEmptyGroup(events, ordered, fingerprints);
    accepted, excluded := PlaceGroups(ordered, fingerprints);
    accepted := MarkDecisions(accepted, asOf);
    accepted := SortBy(ById, accepted);
    excluded := SortBy(ById, excluded);
  }

  lemma NoEmptyGroup(events: seq<Event>, ordered: seq<Event>, fingerprints: seq<Key>)
    requires ordered == SortBy(ByFingerprintAndId, events) && fingerprints == SortedDistinct(Fingerprints(events))
    ensures forall k :: 0 <= k < |fingerprints| ==> GroupOf(ordered, fingerprints[k]) != []
  {
    forall k | 0 <= k < |fingerprints| ensures GroupOf(ordered, fingerprints[k]) != [] {
      FingerprintHasMembers(events, fingerprints[k]);
      GroupMembers(ordered, fingerprints[k]);
      assert fingerprints[k] in fingerprints;
      var e :| e in ordered && e.fingerprint == fingerprints[k];
      assert e in GroupOf(ordered, fingerprints[k]);
    }
  }

  lemma FingerprintHasMembers(events: seq<Event>, fingerprint: Key)
    ensures fingerprint in SortedDistinct(Fingerprints(events)) <==>
      exists e :: e in SortBy(ByFingerprintAndId, events) && e.fingerprint == fingerprint
  {
    SortedDistinctSorts(Fingerprints(events));
    SortKeepsElements(ByFingerprintAndId, events);
    if e :| e in events && e.fingerprint == fingerprint {
      var i :| 0 <= i < |events| && events[i] == e;
      assert Fingerprints(events)[i] == fingerprint;
    }
    if fingerprint in Fingerprints(events) {
      var i :| 0 <= i < |events| && Fingerprints(events)[i] == fingerprint;
      assert events[i] in events;
    }
  }
}
