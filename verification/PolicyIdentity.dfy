/** Semantic identity of policy candidates (backend/src/validation/policy_identity.py). */
module PolicyIdentity {
  import opened Wrappers
  import opened Keys
  import opened Sorting

  datatype NoticeKind = OriginalNotice | Correction | Termination | OtherNotice

  /** Status words after upper-casing. */
  datatype ApplicationStatus =
    | StatusOpen | StatusScheduled | StatusClosed | StatusBudgetExhausted
    | StatusUnconfirmed | StatusUnknown | StatusBlank | StatusOther(text: Key)

  datatype StatusClass = ClosedClass | OpenClass | ScheduledClass | UnknownClass

  /** Dates are day ordinals. */
  datatype Terms = Terms(
    start: Option<int>,
    end: Option<int>,
    limit: Option<real>,
    annualRate: Option<real>,
    discount: Option<real>,
    coverage: Option<real>,
    fee: Option<real>,
    grace: Option<nat>,
    maturity: Option<nat>)

  datatype Condition = Condition(operator: Key, expected: Key)

  /** What the normalisers make of a candidate and of its source documents. Region lists keep their order; the other
      collections are compared as sorted tuples of distinct values, that is, as sets. */
  datatype Identity = Identity(
    policyType: Key,
    authority: Key,
    name: Key,
    years: set<Key>,
    regions: seq<Key>,
    purposes: set<Key>,
    inclusions: set<Key>,
    exclusions: set<Key>,
    repaymentMethod: Key,
    eligibility: map<Key, Condition>)

  datatype Evidence = Evidence(sourceId: Key, revisionId: Key, fieldPaths: seq<Key>, quote: Key, evidenceId: Key)

  datatype ValidationStatus = Validated | PartiallyValidated | Closed | Rejected | Conflicted | OtherValidation

  datatype Code = SourceConflict | OtherCode(text: Key)

  /** `wording` stands for everything that a merged record keeps from its primary notice as it is: raw name, provider,
      notes. */
  datatype Policy = Policy(
    id: Key,
    wording: Key,
    extractorId: Option<Key>,
    mergeGroup: Option<Key>,
    mergedIds: seq<Key>,
    sourceIds: seq<Key>,
    evidence: seq<Evidence>,
    terms: Terms,
    repaymentMethod: Option<Key>,
    collateral: Option<bool>,
    budgetStatus: Key,
    applicationStatus: ApplicationStatus,
    purpose: seq<Key>,
    regionCodes: seq<Key>,
    inclusionsRaw: seq<Key>,
    exclusionsRaw: seq<Key>,
    conditions: seq<Key>,
    noticeKind: NoticeKind,
    supersedes: Option<Key>,
    validationStatus: ValidationStatus,
    failureCodes: set<Code>,
    recommendationCodes: set<Code>,
    conflictFields: set<Field>)

  /** The ranking key of a candidate among duplicates, apart from its evidence count and id. */
  datatype Strength = Strength(yearLabel: bool, officialSources: nat, latestPublished: real)

  datatype Candidate = Candidate(policy: Policy, identity: Identity, strength: Strength)

  datatype Field =
    | TypeField | YearField | RegionField | StatusField
    | StartField | EndField | LimitField | AnnualRateField | DiscountField | CoverageField | FeeField
    | GraceField | MaturityField | CategoryField

  /** The key of the empty text. */
  const BLANK: Key := 0

  function ClassOf(p: Policy): StatusClass {
    if p.applicationStatus.StatusClosed? || p.applicationStatus.StatusBudgetExhausted? || p.noticeKind.Termination? then ClosedClass
    else if p.applicationStatus.StatusOpen? then OpenClass
    else if p.applicationStatus.StatusScheduled? then ScheduledClass
    else UnknownClass
  }

  predicate CompatibleOptional<T(==)>(left: Option<T>, right: Option<T>) {
    left.None? || right.None? || left == right
  }

  predicate CompatibleSets(left: set<Key>, right: set<Key>) {
    left == {} || right == {} || left == right
  }

  predicate CompatibleRegions(left: seq<Key>, right: seq<Key>) {
    left == [] || right == [] || left == right
  }

  predicate CompatibleClasses(left: StatusClass, right: StatusClass) {
    left.UnknownClass? || right.UnknownClass? || left == right
  }

  predicate CompatibleEligibility(left: map<Key, Condition>, right: map<Key, Condition>) {
    forall k :: k in left.Keys * right.Keys ==> left[k] == right[k]
  }

  predicate CompatibleTerms(left: Terms, right: Terms) {
    && CompatibleOptional(left.start, right.start)
    && CompatibleOptional(left.end, right.end)
    && CompatibleOptional(left.limit, right.limit)
    && CompatibleOptional(left.annualRate, right.annualRate)
    && CompatibleOptional(left.discount, right.discount)
    && CompatibleOptional(left.coverage, right.coverage)
    && CompatibleOptional(left.fee, right.fee)
    && CompatibleOptional(left.grace, right.grace)
    && CompatibleOptional(left.maturity, right.maturity)
  }

  predicate Equivalent(left: Candidate, right: Candidate) {
    && left.identity.policyType == right.identity.policyType
    && left.identity.authority == right.identity.authority
    && left.identity.name == right.identity.name
    && CompatibleSets(left.identity.years, right.identity.years)
    && CompatibleRegions(left.identity.regions, right.identity.regions)
    && CompatibleSets(left.identity.purposes, right.identity.purposes)
    && CompatibleSets(left.identity.inclusions, right.identity.inclusions)
    && CompatibleSets(left.identity.exclusions, right.identity.exclusions)
    && CompatibleClasses(ClassOf(left.policy), ClassOf(right.policy))
    && CompatibleTerms(left.policy.terms, right.policy.terms)
    && CompatibleEligibility(left.identity.eligibility, right.identity.eligibility)
  }

  lemma EquivalenceIsReflexiveAndSymmetric(a: Candidate, b: Candidate)
    ensures Equivalent(a, a)
    ensures Equivalent(a, b) <==> Equivalent(b, a)
  {
    assert a.identity.eligibility.Keys * b.identity.eligibility.Keys == b.identity.eligibility.Keys * a.identity.eligibility.Keys;
  }

  const NO_TERMS := Terms(None, None, None, None, None, None, None, None, None)

  /** A candidate that states nothing is equivalent to two that contradict each other. */
  lemma EquivalenceIsNotTransitive(a: Candidate)
    requires a.policy.terms == NO_TERMS
    ensures exists low: Candidate, high: Candidate ::
      Equivalent(low, a) && Equivalent(a, high) && !Equivalent(low, high)
  {
    var low := a.(policy := a.policy.(terms := NO_TERMS.(limit := Some(1.0))));
    var high := a.(policy := a.policy.(terms := NO_TERMS.(limit := Some(2.0))));
    assert Equivalent(low, a) && Equivalent(a, high) && !CompatibleTerms(low.policy.terms, high.policy.terms);
  }

  /** The compared optional fields, in the order of the conflict loop. */
  function OptionalFields(left: Terms, right: Terms): seq<(Field, bool)> {
    [ (StartField, CompatibleOptional(left.start, right.start)),
      (EndField, CompatibleOptional(left.end, right.end)),
      (LimitField, CompatibleOptional(left.limit, right.limit)),
      (AnnualRateField, CompatibleOptional(left.annualRate, right.annualRate)),
      (DiscountField, CompatibleOptional(left.discount, right.discount)),
      (CoverageField, CompatibleOptional(left.coverage, right.coverage)),
      (FeeField, CompatibleOptional(left.fee, right.fee)),
      (GraceField, CompatibleOptional(left.grace, right.grace)),
      (MaturityField, CompatibleOptional(left.maturity, right.maturity)) ]
  }

  function TermConflicts(fields: seq<(Field, bool)>): set<Field> {
    set i | 0 <= i < |fields| && !fields[i].1 :: fields[i].0
  }

  function When(condition: bool, field: Field): set<Field> {
    if condition then {field} else {}
  }

  /** The material fields on which two candidates of the same name and authority disagree. */
  function Conflicts(left: Candidate, right: Candidate): set<Field> {
    var l, r := left.identity, right.identity;
    if l.name != r.name || l.authority != r.authority then {}
    else
      When(l.policyType != r.policyType, TypeField)
      + When(!CompatibleSets(l.years, r.years), YearField)
      + When(!CompatibleRegions(l.regions, r.regions), RegionField)
      + When(!CompatibleClasses(ClassOf(left.policy), ClassOf(right.policy)), StatusField)
      + TermConflicts(OptionalFields(left.policy.terms, right.policy.terms))
      + When(!CompatibleEligibility(l.eligibility, r.eligibility), CategoryField)
      + When(!CompatibleSets(l.inclusions, r.inclusions), CategoryField)
  }

  lemma TermConflictsNext(fields: seq<(Field, bool)>, i: nat)
    requires i < |fields|
    ensures TermConflicts(fields[..i + 1]) == TermConflicts(fields[..i]) + When(!fields[i].1, fields[i].0)
  {
    var now, next := fields[..i], fields[..i + 1];
    forall f ensures f in TermConflicts(next) <==> f in TermConflicts(now) + When(!fields[i].1, fields[i].0) {
      if f in TermConflicts(now) {
        var k :| 0 <= k < |now| && !now[k].1 && now[k].0 == f;
        assert next[k] == now[k];
      }
      if f in When(!fields[i].1, fields[i].0) {
        assert next[i] == fields[i];
      }
    }
  }

  method DisagreeingFields(fields: seq<(Field, bool)>) returns (conflicts: set<Field>)
    ensures conflicts == TermConflicts(fields)
  {
    conflicts := {};
    for i := 0 to |fields|
      invariant conflicts == TermConflicts(fields[..i])
    {
      TermConflictsNext(fields, i);
      if !fields[i].1 { conflicts := conflicts + {fields[i].0}; }
    }
    assert fields[..|fields|] == fields;
  }

  method MaterialPolicyConflicts(left: Candidate, right: Candidate) returns (conflicts: set<Field>)
    ensures conflicts == Conflicts(left, right)
  {
    var l, r := left.identity, right.identity;
    if l.name != r.name || l.authority != r.authority { return {}; }
    conflicts := When(l.policyType != r.policyType, TypeField) + When(!CompatibleSets(l.years, r.years), YearField);
    conflicts := conflicts + When(!CompatibleRegions(l.regions, r.regions), RegionField);
    conflicts := conflicts + When(!CompatibleClasses(ClassOf(left.policy), ClassOf(right.policy)), StatusField);
    var terms := DisagreeingFields(OptionalFields(left.policy.terms, right.policy.terms));
    conflicts := conflicts + terms;
    conflicts := conflicts + When(!CompatibleEligibility(l.eligibility, r.eligibility), CategoryField);
    conflicts := conflicts + When(!CompatibleSets(l.inclusions, r.inclusions), CategoryField);
  }

  lemma TermConflictsEmpty(left: Terms, right: Terms)
    ensures TermConflicts(OptionalFields(left, right)) == {} <==> CompatibleTerms(left, right)
  {
    var fields := OptionalFields(left, right);
    if TermConflicts(fields) == {} {
      assert forall i :: 0 <= i < |fields| ==> fields[i].1 || fields[i].0 in TermConflicts(fields);
      assert fields[0].1 && fields[1].1 && fields[2].1 && fields[3].1 && fields[4].1 && fields[5].1;
      assert fields[6].1 && fields[7].1 && fields[8].1;
    }
  }

  /** Two candidates are equivalent exactly when they share name and authority, no material field conflicts, and
      their purposes and industry exclusions, which the conflict report does not look at, agree where both are known. */
  lemma EquivalentIffNoMaterialConflict(left: Candidate, right: Candidate)
    ensures Equivalent(left, right) <==>
      && left.identity.name == right.identity.name
      && left.identity.authority == right.identity.authority
      && Conflicts(left, right) == {}
      && CompatibleSets(left.identity.purposes, right.identity.purposes)
      && CompatibleSets(left.identity.exclusions, right.identity.exclusions)
  {
    TermConflictsEmpty(left.policy.terms, right.policy.terms);
    var l, r := left.identity, right.identity;
    if l.name == r.name && l.authority == r.authority {
      UnionEmpty(When(l.policyType != r.policyType, TypeField), When(!CompatibleSets(l.years, r.years), YearField));
      assert Conflicts(left, right) == {} <==>
        && l.policyType == r.policyType && CompatibleSets(l.years, r.years) && CompatibleRegions(l.regions, r.regions)
        && CompatibleClasses(ClassOf(left.policy), ClassOf(right.policy))
        && TermConflicts(OptionalFields(left.policy.terms, right.policy.terms)) == {}
        && CompatibleEligibility(l.eligibility, r.eligibility) && CompatibleSets(l.inclusions, r.inclusions);
    }
  }
}
