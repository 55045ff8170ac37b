/** Merging duplicate policy notices and linking their revisions
    (`PolicyReconciler` in backend/src/validation/policy_validator.py). */
module PolicyReconciler {
  import opened Wrappers
  import opened Keys
  import opened Sorting
  import opened PolicyIdentity

  const UNKNOWN: Key := 1
  const BUDGET_UNKNOWN: Key := 2
  const MIN_DATE: int := 1

  predicate ById(a: Candidate, b: Candidate) { a.policy.id <= b.policy.id }

  predicate PolicyById(a: Policy, b: Policy) { a.id <= b.id }

  function DateOf(c: Candidate): int {
    if c.policy.terms.start.Some? then c.policy.terms.start.value
    else if c.policy.terms.end.Some? then c.policy.terms.end.value
    else MIN_DATE
  }

  predicate ByDateAndId(a: Candidate, b: Candidate) {
    DateOf(a) < DateOf(b) || (DateOf(a) == DateOf(b) && a.policy.id <= b.policy.id)
  }

  predicate IsRevision(c: Candidate) {
    c.policy.noticeKind.Correction? || c.policy.noticeKind.Termination?
  }

  // ---------- the columns of a group ----------

  function Authority(c: Candidate): Key { c.identity.authority }

  function Name(c: Candidate): Key { c.identity.name }

  function TypeOf(c: Candidate): Key { c.identity.policyType }

  function Years(c: Candidate): set<Key> { c.identity.years }

  function RegionSet(c: Candidate): set<Key> { Elements(c.identity.regions) }

  function Purposes(c: Candidate): set<Key> { c.identity.purposes }

  function Inclusions(c: Candidate): set<Key> { c.identity.inclusions }

  function Exclusions(c: Candidate): set<Key> { c.identity.exclusions }

  function StatusClassOf(c: Candidate): StatusClass { ClassOf(c.policy) }

  function Start(c: Candidate): Option<int> { c.policy.terms.start }

  function End(c: Candidate): Option<int> { c.policy.terms.end }

  function Limit(c: Candidate): Option<real> { c.policy.terms.limit }

  function AnnualRate(c: Candidate): Option<real> { c.policy.terms.annualRate }

  function Discount(c: Candidate): Option<real> { c.policy.terms.discount }

  function Coverage(c: Candidate): Option<real> { c.policy.terms.coverage }

  function Fee(c: Candidate): Option<real> { c.policy.terms.fee }

  function Collateral(c: Candidate): Option<bool> { c.policy.collateral }

  function Grace(c: Candidate): Option<nat> { c.policy.terms.grace }

  function Maturity(c: Candidate): Option<nat> { c.policy.terms.maturity }

  function MethodKey(c: Candidate): Key { c.identity.repaymentMethod }

  function Sources(c: Candidate): seq<Key> { c.policy.sourceIds }

  function EvidenceOf(c: Candidate): seq<Evidence> { c.policy.evidence }

  function RepaymentMethod(c: Candidate): Option<Key> { c.policy.repaymentMethod }

  function BudgetStatus(c: Candidate): Option<Key> { Some(c.policy.budgetStatus) }

  function ApplicationStatusOf(c: Candidate): Option<ApplicationStatus> { Some(c.policy.applicationStatus) }

  function PurposeOf(c: Candidate): seq<Key> { c.policy.purpose }

  function RegionCodes(c: Candidate): seq<Key> { c.policy.regionCodes }

  function InclusionsRaw(c: Candidate): seq<Key> { c.policy.inclusionsRaw }

  function ExclusionsRaw(c: Candidate): seq<Key> { c.policy.exclusionsRaw }

  function ConditionList(c: Candidate): seq<Key> { c.policy.conditions }

  function FailureCodes(c: Candidate): set<Code> { c.policy.failureCodes }

  function RecommendationCodes(c: Candidate): set<Code> { c.policy.recommendationCodes }

  // ---------- grouping ----------

  predicate FitsGroup(c: Candidate, group: seq<Candidate>) {
    forall m :: m in group ==> Equivalent(c, m)
  }

  /** Position of the first group all of whose members are equivalent to `c`; the number of groups if there is none. */
  function FirstFit(c: Candidate, groups: seq<seq<Candidate>>): (k: nat)
    ensures k <= |groups|
    ensures k < |groups| ==> FitsGroup(c, groups[k])
    ensures forall i :: 0 <= i < k ==> !FitsGroup(c, groups[i])
  {
    if groups == [] then 0
    else if FitsGroup(c, groups[0]) then 0
    else 1 + FirstFit(c, groups[1..])
  }

  function PlaceInGroup(c: Candidate, groups: seq<seq<Candidate>>): seq<seq<Candidate>> {
    var k := FirstFit(c, groups);
    if k < |groups| then groups[k := groups[k] + [c]] else groups + [[c]]
  }

  function Groups(ordered: seq<Candidate>): seq<seq<Candidate>> {
    if ordered == [] then [] else PlaceInGroup(ordered[|ordered| - 1], Groups(ordered[..|ordered| - 1]))
  }

  method FormGroups(ordered: seq<Candidate>) returns (groups: seq<seq<Candidate>>)
    ensures groups == Groups(ordered)
  {
    groups := [];
    for n := 0 to |ordered|
      invariant groups == Groups(ordered[..n])
    {
      assert ordered[..n + 1][..n] == ordered[..n];
      var c := ordered[n];
      var k := 0;
      while k < |groups| && !FitsGroup(c, groups[k])
        invariant k <= |groups|
        invariant forall i :: 0 <= i < k ==> !FitsGroup(c, groups[i])
      {
        k := k + 1;
      }
      assert k == FirstFit(c, groups);
      if k == |groups| {
        groups := groups + [[c]];
      } else {
        groups := groups[k := groups[k] + [c]];
      }
    }
    assert ordered[..|ordered|] == ordered;
  }

  // ---------- merging the originals of a group ----------

  function FirstInformative<T(==)>(values: seq<Option<T>>, ignored: set<T>): Option<T> {
    if values == [] then None
    else if values[0].Some? && values[0].value !in ignored then values[0]
    else FirstInformative(values[1..], ignored)
  }

  function Column<T>(policies: seq<Candidate>, field: Candidate -> T): (r: seq<T>)
    ensures |r| == |policies| && forall i :: 0 <= i < |r| ==> r[i] == field(policies[i])
  {
    seq(|policies|, i requires 0 <= i < |policies| => field(policies[i]))
  }

  /** Each optional term of the merged record is the first one stated, in the order of the ids. */
  function MergedTerms(ordered: seq<Candidate>): Terms {
    Terms(
      FirstInformative(Column(ordered, Start), {}),
      FirstInformative(Column(ordered, End), {}),
      FirstInformative(Column(ordered, Limit), {}),
      FirstInformative(Column(ordered, AnnualRate), {}),
      FirstInformative(Column(ordered, Discount), {}),
      FirstInformative(Column(ordered, Coverage), {}),
      FirstInformative(Column(ordered, Fee), {}),
      FirstInformative(Column(ordered, Grace), {}),
      FirstInformative(Column(ordered, Maturity), {}))
  }

  function OrderedUnique(values: seq<Key>): seq<Key> {
    if values == [] then []
    else
      var before := OrderedUnique(values[..|values| - 1]);
      if values[|values| - 1] in before then before else before + [values[|values| - 1]]
  }

  function Flatten<T>(lists: seq<seq<T>>): seq<T> {
    if lists == [] then [] else Flatten(lists[..|lists| - 1]) + lists[|lists| - 1]
  }

  predicate SameEvidence(a: Evidence, b: Evidence) {
    a.sourceId == b.sourceId && a.revisionId == b.revisionId && a.fieldPaths == b.fieldPaths && a.quote == b.quote
  }

  /** Assignment into an insertion-ordered dictionary keyed by source, revision, field paths and quote. */
  function PutEvidence(kept: seq<Evidence>, e: Evidence): seq<Evidence> {
    if kept == [] then [e]
    else if SameEvidence(kept[0], e) then [e] + kept[1..]
    else [kept[0]] + PutEvidence(kept[1..], e)
  }

  function EvidenceBySource(all: seq<Evidence>): seq<Evidence> {
    if all == [] then [] else PutEvidence(EvidenceBySource(all[..|all| - 1]), all[|all| - 1])
  }

  /** The order in which the primary record is chosen: a year in the label, more official sources, more evidence,
      later publication, smaller id. */
  predicate Stronger(a: Candidate, b: Candidate) {
    var x, y := a.strength, b.strength;
    if x.yearLabel != y.yearLabel then x.yearLabel
    else if x.officialSources != y.officialSources then x.officialSources > y.officialSources
    else if |a.policy.evidence| != |b.policy.evidence| then |a.policy.evidence| > |b.policy.evidence|
    else if x.latestPublished != y.latestPublished then x.latestPublished > y.latestPublished
    else a.policy.id <= b.policy.id
  }

  function Primary(originals: seq<Candidate>): Candidate
    requires originals != []
  {
    SortPermutes(Stronger, originals);
    SortBy(Stronger, originals)[0]
  }

  /** The material that the merge fingerprint hashes: the populated values of every field over the whole group. */
  datatype Material = Material(
    authorities: set<Key>,
    names: set<Key>,
    types: set<Key>,
    years: set<Key>,
    regions: set<Key>,
    purposes: set<Key>,
    inclusions: set<Key>,
    exclusions: set<Key>,
    classes: set<StatusClass>,
    starts: set<int>,
    ends: set<int>,
    limits: set<real>,
    annualRates: set<real>,
    discounts: set<real>,
    coverages: set<real>,
    fees: set<real>,
    collaterals: set<bool>,
    graces: set<nat>,
    maturities: set<nat>,
    methods: set<Key>,
    conditions: set<(Key, Condition)>)

  function Populated<T(==)>(column: seq<Option<T>>): set<T> {
    set i | 0 <= i < |column| && column[i].Some? :: column[i].value
  }

  function PopulatedKeys(column: seq<Key>): set<Key> {
    set i | 0 <= i < |column| && column[i] != BLANK :: column[i]
  }

  function Union<T(==)>(column: seq<set<T>>): set<T> {
    set i, x | 0 <= i < |column| && x in column[i] :: x
  }

  function ConditionsOf(c: Candidate): set<(Key, Condition)> {
    set k | k in c.identity.eligibility :: (k, c.identity.eligibility[k])
  }

  function MaterialOf(policies: seq<Candidate>): Material {
    Material(
      PopulatedKeys(Column(policies, Authority)),
      PopulatedKeys(Column(policies, Name)),
      PopulatedKeys(Column(policies, TypeOf)),
      Union(Column(policies, Years)),
      Union(Column(policies, RegionSet)),
      Union(Column(policies, Purposes)),
      Union(Column(policies, Inclusions)),
      Union(Column(policies, Exclusions)),
      Elements(Column(policies, StatusClassOf)),
      Populated(Column(policies, Start)),
      Populated(Column(policies, End)),
      Populated(Column(policies, Limit)),
      Populated(Column(policies, AnnualRate)),
      Populated(Column(policies, Discount)),
      Populated(Column(policies, Coverage)),
      Populated(Column(policies, Fee)),
      Populated(Column(policies, Collateral)),
      Populated(Column(policies, Grace)),
      Populated(Column(policies, Maturity)),
      PopulatedKeys(Column(policies, MethodKey)),
      Union(Column(policies, ConditionsOf)))
  }

  function Codes(policies: seq<Candidate>, field: Candidate -> set<Code>): set<Code> {
    Union(Column(policies, field))
  }

  /** Whether the originals disagree about their validation. */
  predicate MixedValidation(originals: seq<Candidate>) {
    exists i, j :: 0 <= i < |originals| && 0 <= j < |originals| &&
      (originals[i].policy.validationStatus, originals[i].policy.failureCodes)
        != (originals[j].policy.validationStatus, originals[j].policy.failureCodes)
  }

  function ReconciledStatus(primary: Policy, originals: seq<Candidate>): ValidationStatus {
    if !MixedValidation(originals) then primary.validationStatus
    else if forall c :: c in originals ==> c.policy.validationStatus.Validated? || c.policy.validationStatus.PartiallyValidated?
    then PartiallyValidated
    else Conflicted
  }

  /** The record that stands for the original notices of a group; `hash` turns the fingerprint material into an id. */
  function Merged(originals: seq<Candidate>, hash: Material -> Key): Policy
    requires originals != []
  {
    var primary := Primary(originals).policy;
    var ordered := SortBy(ById, originals);
    var several := |originals| > 1;
    var mixed := if MixedValidation(originals) then {SourceConflict} else {};
    primary.(
      id := if several then hash(MaterialOf(originals)) else primary.id,
      mergeGroup := if several then Some(hash(MaterialOf(originals))) else None,
      mergedIds := if several then SortedDistinct(Column(originals, OriginalId)) else [],
      sourceIds := SortedDistinct(Flatten(Column(originals, Sources))),
      evidence := EvidenceBySource(Flatten(Column(originals, EvidenceOf))),
      terms := MergedTerms(ordered),
      repaymentMethod := FirstInformative(Column(ordered, RepaymentMethod), {BLANK}),
      collateral := FirstInformative(Column(ordered, Collateral), {}),
      budgetStatus :=
        match FirstInformative(Column(ordered, BudgetStatus), {BLANK, UNKNOWN, BUDGET_UNKNOWN})
          case Some(status) => status
          case None => primary.budgetStatus,
      applicationStatus :=
        match FirstInformative(Column(ordered, ApplicationStatusOf),
                               {StatusBlank, StatusUnknown, StatusUnconfirmed})
          case Some(status) => status
          case None => primary.applicationStatus,
      purpose := OrderedUnique(Flatten(Column(ordered, PurposeOf))),
      regionCodes := OrderedUnique(Flatten(Column(ordered, RegionCodes))),
      inclusionsRaw := OrderedUnique(Flatten(Column(ordered, InclusionsRaw))),
      exclusionsRaw := OrderedUnique(Flatten(Column(ordered, ExclusionsRaw))),
      conditions := OrderedUnique(Flatten(Column(ordered, ConditionList))),
      validationStatus := ReconciledStatus(primary, originals),
      failureCodes := Codes(originals, FailureCodes) + mixed,
      recommendationCodes := Codes(originals, RecommendationCodes) + mixed)
  }

  function OriginalId(c: Candidate): Key {
    if c.policy.extractorId.Some? then c.policy.extractorId.value else c.policy.id
  }

  // ---------- lineage ----------

  function Originals(ordered: seq<Candidate>): seq<Candidate> {
    if ordered == [] then []
    else
      var c := ordered[|ordered| - 1];
      Originals(ordered[..|ordered| - 1]) + if IsRevision(c) then [] else [c]
  }

  function Revisions(ordered: seq<Candidate>): seq<Candidate> {
    if ordered == [] then []
    else
      var c := ordered[|ordered| - 1];
      Revisions(ordered[..|ordered| - 1]) + if IsRevision(c) then [c] else []
  }

  /** A revision notice linked behind the record before it. */
  function Linked(previous: Option<Policy>, p: Policy): Policy {
    p.(
      supersedes := if previous.Some? then Some(previous.value.id) else p.supersedes,
      validationStatus := if p.noticeKind.Termination? && p.failureCodes == {} then Closed else p.validationStatus)
  }

  function LinkAll(start: seq<Policy>, revisions: seq<Candidate>): seq<Policy> {
    if revisions == [] then start
    else
      var before := LinkAll(start, revisions[..|revisions| - 1]);
      before + [Linked(if before == [] then None else Some(before[|before| - 1]), revisions[|revisions| - 1].policy)]
  }

  /** The records that one group emits: its merged originals, then its revision notices by date. */
  function Emitted(group: seq<Candidate>, hash: Material -> Key): seq<Policy> {
    var ordered := SortBy(ByDateAndId, group);
    var originals := Originals(ordered);
    LinkAll(if originals == [] then [] else [Merged(originals, hash)], Revisions(ordered))
  }

  function EmittedAll(groups: seq<seq<Candidate>>, hash: Material -> Key): seq<Policy> {
    if groups == [] then [] else EmittedAll(groups[..|groups| - 1], hash) + Emitted(groups[|groups| - 1], hash)
  }

  // ---------- conflicts between candidates ----------

  type ConflictMap = map<Key, set<Field>>

  function Look(m: ConflictMap, source: Key): set<Field> {
    if source in m then m[source] else {}
  }

  function AddSources(m: ConflictMap, sources: seq<Key>, fields: set<Field>): ConflictMap {
    if sources == [] then m
    else
      var before := AddSources(m, sources[..|sources| - 1], fields);
      before[sources[|sources| - 1] := Look(before, sources[|sources| - 1]) + fields]
  }

  function AddPair(m: ConflictMap, left: Candidate, right: Candidate): ConflictMap {
    var fields := Conflicts(left, right);
    if fields == {} then m else AddSources(m, left.policy.sourceIds + right.policy.sourceIds, fields)
  }

  /** The pairs of candidate `i` with the candidates after it, up to `j`. */
  function AddRow(m: ConflictMap, ordered: seq<Candidate>, i: nat, j: nat): ConflictMap
    requires i < j <= |ordered|
    decreases j
  {
    if j == i + 1 then m else AddPair(AddRow(m, ordered, i, j - 1), ordered[i], ordered[j - 1])
  }

  function ConflictsUpTo(ordered: seq<Candidate>, i: nat): ConflictMap
    requires i <= |ordered|
  {
    if i == 0 then map[] else AddRow(ConflictsUpTo(ordered, i - 1), ordered, i - 1, |ordered|)
  }

  method CollectConflicts(ordered: seq<Candidate>) returns (m: ConflictMap)
    ensures m == ConflictsUpTo(ordered, |ordered|)
  {
    m := map[];
    for i := 0 to |ordered|
      invariant m == ConflictsUpTo(ordered, i)
    {
      ghost var row := m;
      for j := i + 1 to |ordered|
        invariant m == AddRow(row, ordered, i, j)
      {
        ghost var before := m;
        var fields := MaterialPolicyConflicts(ordered[i], ordered[j]);
        if fields != {} {
          var sources := ordered[i].policy.sourceIds + ordered[j].policy.sourceIds;
          for n := 0 to |sources|
            invariant m == AddSources(before, sources[..n], fields)
          {
            assert sources[..n + 1][..n] == sources[..n];
            m := m[sources[n] := Look(m, sources[n]) + fields];
          }
          assert sources[..|sources|] == sources;
        }
      }
    }
  }

  function FieldsOf(m: ConflictMap, sources: seq<Key>): set<Field> {
    if sources == [] then {} else FieldsOf(m, sources[..|sources| - 1]) + Look(m, sources[|sources| - 1])
  }

  function Mark(p: Policy, m: ConflictMap): Policy {
    var fields := FieldsOf(m, p.sourceIds);
    if fields == {} then p
    else p.(
      validationStatus := Conflicted,
      failureCodes := p.failureCodes + {SourceConflict},
      recommendationCodes := p.recommendationCodes + {SourceConflict},
      conflictFields := fields)
  }

  function MarkAll(records: seq<Policy>, m: ConflictMap): (r: seq<Policy>)
    ensures |r| == |records| && forall i :: 0 <= i < |r| ==> r[i] == Mark(records[i], m)
  {
    seq(|records|, i requires 0 <= i < |records| => Mark(records[i], m))
  }

  // ---------- the whole reconciliation ----------

  function ReconcilePolicies(candidates: seq<Candidate>, hash: Material -> Key): seq<Policy> {
    var ordered := SortBy(ById, candidates);
    SortBy(PolicyById, MarkAll(EmittedAll(Groups(ordered), hash), ConflictsUpTo(ordered, |ordered|)))
  }

  lemma RevisionsNext(ordered: seq<Candidate>, k: nat)
    requires k < |ordered|
    ensures Revisions(ordered[..k + 1]) == Revisions(ordered[..k]) + if IsRevision(ordered[k]) then [ordered[k]] else []
  {
    assert ordered[..k + 1][..k] == ordered[..k];
  }

  lemma LinkNext(start: seq<Policy>, revisions: seq<Candidate>, c: Candidate)
    ensures LinkAll(start, revisions + [c]) ==
      var before := LinkAll(start, revisions);
      before + [Linked(if before == [] then None else Some(before[|before| - 1]), c.policy)]
  {
    assert (revisions + [c])[..|revisions|] == revisions;
  }

  /** The loop over the notices of one group; `previous` is the last record emitted for it. */
  method LinkRevisions(start: seq<Policy>, ordered: seq<Candidate>) returns (records: seq<Policy>)
    ensures records == LinkAll(start, Revisions(ordered))
  {
    records := start;
    var previous := if start == [] then None else Some(start[|start| - 1]);
    for k := 0 to |ordered|
      invariant records == LinkAll(start, Revisions(ordered[..k]))
      invariant previous == if records == [] then None else Some(records[|records| - 1])
    {
      RevisionsNext(ordered, k);
      if !IsRevision(ordered[k]) {
        assert Revisions(ordered[..k]) + [] == Revisions(ordered[..k]);
        continue;
      }
      LinkNext(start, Revisions(ordered[..k]), ordered[k]);
      var policy := Linked(previous, ordered[k].policy);
      records := records + [policy];
      previous := Some(policy);
    }
    assert ordered[..|ordered|] == ordered;
  }

  method EmitGroups(groups: seq<seq<Candidate>>, hash: Material -> Key) returns (records: seq<Policy>)
    ensures records == EmittedAll(groups, hash)
  {
    records := [];
    for k := 0 to |groups|
      invariant records == EmittedAll(groups[..k], hash)
    {
      assert groups[..k + 1][..k] == groups[..k];
      var ordered := SortBy(ByDateAndId, groups[k]);
      var originals := Originals(ordered);
      var emitted := LinkRevisions(if originals == [] then [] else [Merged(originals, hash)], ordered);
      assert emitted == Emitted(groups[k], hash);
      records := records + emitted;
    }
    assert groups[..|groups|] == groups;
  }

  method MarkRecords(records: seq<Policy>, conflicts: ConflictMap) returns (marked: seq<Policy>)
    ensures marked == MarkAll(records, conflicts)
  {
    marked := [];
    for k := 0 to |records|
      invariant |marked| == k && forall i :: 0 <= i < k ==> marked[i] == Mark(records[i], conflicts)
    {
      marked := marked + [Mark(records[k], conflicts)];
    }
  }

  method Reconcile(candidates: seq<Candidate>, hash: Material -> Key) returns (result: seq<Policy>)
    ensures result == ReconcilePolicies(candidates, hash)
  {
    var ordered := SortBy(ById, candidates);
    var groups := FormGroups(ordered);
    var records := EmitGroups(groups, hash);
    var conflicts := CollectConflicts(ordered);
    var marked := MarkRecords(records, conflicts);
    result := SortBy(PolicyById, marked);
  }
}
