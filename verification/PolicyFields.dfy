/** On what two policy notices disagree: each conflict field by the values that both notices state. */
module PolicyFields {
  import opened Wrappers
  import opened Keys
  import opened PolicyIdentity

  /** Both are stated, and differently. */
  predicate Contradict<T(==)>(left: Option<T>, right: Option<T>) { left.Some? && right.Some? && left.value != right.value }

  predicate ContradictSets(left: set<Key>, right: set<Key>) { left != {} && right != {} && left != right }

  predicate ContradictLists(left: seq<Key>, right: seq<Key>) { left != [] && right != [] && left != right }

  /** Over for an application: ended or spent, or its notice is a termination. */
  predicate IsOver(p: Policy) {
    p.noticeKind == Termination || p.applicationStatus == StatusClosed || p.applicationStatus == StatusBudgetExhausted
  }

  predicate IsOpen(p: Policy) { p.noticeKind != Termination && p.applicationStatus == StatusOpen }

  predicate IsScheduled(p: Policy) { p.noticeKind != Termination && p.applicationStatus == StatusScheduled }

  /** Two of the three known states, one for each notice. */
  predicate ContradictStates(p: Policy, q: Policy) {
    || (IsOver(p) && (IsOpen(q) || IsScheduled(q)))
    || (IsOpen(p) && (IsOver(q) || IsScheduled(q)))
    || (IsScheduled(p) && (IsOver(q) || IsOpen(q)))
  }

  predicate ContradictConditions(left: map<Key, Condition>, right: map<Key, Condition>) {
    exists k :: k in left && k in right && left[k] != right[k]
  }

  lemma ClassIs(p: Policy)
    ensures ClassOf(p).ClosedClass? <==> IsOver(p)
    ensures ClassOf(p).OpenClass? <==> IsOpen(p)
    ensures ClassOf(p).ScheduledClass? <==> IsScheduled(p)
    ensures ClassOf(p).UnknownClass? <==> !IsOver(p) && !IsOpen(p) && !IsScheduled(p)
  {
  }

  lemma StatesContradictIff(p: Policy, q: Policy)
    ensures !CompatibleClasses(ClassOf(p), ClassOf(q)) <==> ContradictStates(p, q)
  {
  }

  lemma ConditionsContradictIff(left: map<Key, Condition>, right: map<Key, Condition>)
    ensures !CompatibleEligibility(left, right) <==> ContradictConditions(left, right)
  {
    if k :| k in left && k in right && left[k] != right[k] { assert k in left.Keys * right.Keys; }
  }

  lemma TermFieldIff(left: Terms, right: Terms, i: nat)
    requires i < 9
    ensures var fields := OptionalFields(left, right); fields[i].0 in TermConflicts(fields) <==> !fields[i].1
  {
    var fields := OptionalFields(left, right);
    if fields[i].0 in TermConflicts(fields) {
      var k :| 0 <= k < |fields| && !fields[k].1 && fields[k].0 == fields[i].0;
      assert k == i;
    }
  }

  /** A term is among the conflicts exactly when both notices state it and differ. */
  lemma TermConflictsIff(left: Terms, right: Terms)
    ensures var c := TermConflicts(OptionalFields(left, right));
      && (StartField in c <==> Contradict(left.start, right.start))
      && (EndField in c <==> Contradict(left.end, right.end))
      && (LimitField in c <==> Contradict(left.limit, right.limit))
      && (AnnualRateField in c <==> Contradict(left.annualRate, right.annualRate))
      && (DiscountField in c <==> Contradict(left.discount, right.discount))
      && (CoverageField in c <==> Contradict(left.coverage, right.coverage))
      && (FeeField in c <==> Contradict(left.fee, right.fee))
      && (GraceField in c <==> Contradict(left.grace, right.grace))
      && (MaturityField in c <==> Contradict(left.maturity, right.maturity))
    ensures var c := TermConflicts(OptionalFields(left, right));
      TypeField !in c && YearField !in c && RegionField !in c && StatusField !in c && CategoryField !in c
  {
    forall i: nat | i < 9 ensures var fields := OptionalFields(left, right); fields[i].0 in TermConflicts(fields) <==> !fields[i].1 {
      TermFieldIff(left, right, i);
    }
    var fields := OptionalFields(left, right);
    assert fields[0].0 == StartField && fields[1].0 == EndField && fields[2].0 == LimitField && fields[3].0 == AnnualRateField;
    assert fields[4].0 == DiscountField && fields[5].0 == CoverageField && fields[6].0 == FeeField;
    assert fields[7].0 == GraceField && fields[8].0 == MaturityField;
  }

  ghost predicate OnTerm(left: Terms, right: Terms, field: Field) {
    match field
    case StartField => Contradict(left.start, right.start)
    case EndField => Contradict(left.end, right.end)
    case LimitField => Contradict(left.limit, right.limit)
    case AnnualRateField => Contradict(left.annualRate, right.annualRate)
    case DiscountField => Contradict(left.discount, right.discount)
    case CoverageField => Contradict(left.coverage, right.coverage)
    case FeeField => Contradict(left.fee, right.fee)
    case GraceField => Contradict(left.grace, right.grace)
    case MaturityField => Contradict(left.maturity, right.maturity)
    case _ => false
  }

  /** What both notices state differently under a field. */
  ghost predicate OnField(left: Candidate, right: Candidate, field: Field) {
    var l, r := left.identity, right.identity;
    match field
    case TypeField => l.policyType != r.policyType
    case YearField => ContradictSets(l.years, r.years)
    case RegionField => ContradictLists(l.regions, r.regions)
    case StatusField => ContradictStates(left.policy, right.policy)
    case CategoryField => ContradictConditions(l.eligibility, r.eligibility) || ContradictSets(l.inclusions, r.inclusions)
    case _ => OnTerm(left.policy.terms, right.policy.terms, field)
  }

  lemma ConflictParts(left: Candidate, right: Candidate, field: Field)
    ensures var l, r := left.identity, right.identity;
      field in Conflicts(left, right) <==>
        && l.name == r.name && l.authority == r.authority
        && (|| (field == TypeField && l.policyType != r.policyType)
            || (field == YearField && !CompatibleSets(l.years, r.years))
            || (field == RegionField && !CompatibleRegions(l.regions, r.regions))
            || (field == StatusField && !CompatibleClasses(ClassOf(left.policy), ClassOf(right.policy)))
            || (field == CategoryField && !CompatibleEligibility(l.eligibility, r.eligibility))
            || (field == CategoryField && !CompatibleSets(l.inclusions, r.inclusions))
            || field in TermConflicts(OptionalFields(left.policy.terms, right.policy.terms)))
  {
    var l, r := left.identity, right.identity;
    InUnion(field, l.policyType != r.policyType, !CompatibleSets(l.years, r.years), !CompatibleRegions(l.regions, r.regions),
      !CompatibleClasses(ClassOf(left.policy), ClassOf(right.policy)), !CompatibleEligibility(l.eligibility, r.eligibility),
      !CompatibleSets(l.inclusions, r.inclusions), TermConflicts(OptionalFields(left.policy.terms, right.policy.terms)));
  }

  lemma InUnion(field: Field, types: bool, years: bool, regions: bool, states: bool, conditions: bool, inclusions: bool, terms: set<Field>)
    ensures field in When(types, TypeField) + When(years, YearField) + When(regions, RegionField) + When(states, StatusField) + terms
                     + When(conditions, CategoryField) + When(inclusions, CategoryField)
      <==>
        || (field == TypeField && types) || (field == YearField && years) || (field == RegionField && regions)
        || (field == StatusField && states) || (field == CategoryField && conditions) || (field == CategoryField && inclusions)
        || field in terms
  {
  }

  /** A field is among the conflicts of two notices exactly when they bear one name from one authority and contradict each
      other under it. */
  lemma ConflictIff(left: Candidate, right: Candidate, field: Field)
    ensures field in Conflicts(left, right) <==>
      && left.identity.name == right.identity.name && left.identity.authority == right.identity.authority
      && OnField(left, right, field)
  {
    ConflictParts(left, right, field);
    TermConflictsIff(left.policy.terms, right.policy.terms);
    match field
    case StatusField => StatesContradictIff(left.policy, right.policy);
    case CategoryField => ConditionsContradictIff(left.identity.eligibility, right.identity.eligibility);
    case _ =>
  }

  /** Notices may be merged exactly when type, authority and name are one and nothing that both state is contradicted. */
  lemma EquivalentIff(left: Candidate, right: Candidate)
    ensures var l, r := left.identity, right.identity;
      Equivalent(left, right) <==>
        && l.policyType == r.policyType && l.authority == r.authority && l.name == r.name
        && !ContradictSets(l.years, r.years) && !ContradictLists(l.regions, r.regions) && !ContradictSets(l.purposes, r.purposes)
        && !ContradictSets(l.inclusions, r.inclusions) && !ContradictSets(l.exclusions, r.exclusions)
        && !ContradictStates(left.policy, right.policy) && !ContradictConditions(l.eligibility, r.eligibility)
        && forall field :: !OnTerm(left.policy.terms, right.policy.terms, field)
  {
    StatesContradictIff(left.policy, right.policy);
    ConditionsContradictIff(left.identity.eligibility, right.identity.eligibility);
    var s, t := left.policy.terms, right.policy.terms;
    forall field ensures OnTerm(s, t, field) ==> !CompatibleTerms(s, t) {
    }
    if forall field :: !OnTerm(s, t, field) {
      assert !OnTerm(s, t, StartField) && !OnTerm(s, t, EndField) && !OnTerm(s, t, LimitField) && !OnTerm(s, t, AnnualRateField);
      assert !OnTerm(s, t, DiscountField) && !OnTerm(s, t, CoverageField) && !OnTerm(s, t, FeeField);
      assert !OnTerm(s, t, GraceField) && !OnTerm(s, t, MaturityField);
    }
  }
}
