/** What a reconciled record says, field by field, of the notices it stands for. */
module PolicyRecords {
  import opened Wrappers
  import opened Keys
  import opened Sorting
  import opened PolicyIdentity
  import opened PolicyReconciler
  import opened PolicyGroups
  import opened PolicyOrder
  import opened PolicyArrival
  import opened PolicyPair
  import opened PolicyFields

  // ---------- the standing of a merged record ----------

  /** All originals have one validation status and the same failure codes. */
  ghost predicate Agree(originals: seq<Candidate>) {
    forall c, d :: c in originals && d in originals ==>
      c.policy.validationStatus == d.policy.validationStatus && c.policy.failureCodes == d.policy.failureCodes
  }

  ghost predicate AtLeastPartly(originals: seq<Candidate>) {
    forall c :: c in originals ==> c.policy.validationStatus == Validated || c.policy.validationStatus == PartiallyValidated
  }

  /** One opinion is kept; a disagreement among valid and partly valid notices is partly valid; any other is a conflict. */
  ghost predicate StatusIs(originals: seq<Candidate>, status: ValidationStatus) {
    && (Agree(originals) ==> forall c :: c in originals ==> status == c.policy.validationStatus)
    && (!Agree(originals) && AtLeastPartly(originals) ==> status == PartiallyValidated)
    && (!Agree(originals) && !AtLeastPartly(originals) ==> status == Conflicted)
  }

  ghost predicate HasFailure(originals: seq<Candidate>, code: Code) { exists c :: c in originals && code in c.policy.failureCodes }

  ghost predicate HasRecommendation(originals: seq<Candidate>, code: Code) {
    exists c :: c in originals && code in c.policy.recommendationCodes
  }

  /** Every code of every original, and the source conflict exactly if the originals disagree or one of them has it. */
  ghost predicate CodesAre(originals: seq<Candidate>, p: Policy) {
    && (forall code :: code in p.failureCodes <==> HasFailure(originals, code) || (code == SourceConflict && !Agree(originals)))
    && (forall code :: code in p.recommendationCodes <==>
          HasRecommendation(originals, code) || (code == SourceConflict && !Agree(originals)))
  }

  lemma MixedIsDisagreement(originals: seq<Candidate>)
    requires originals != []
    ensures MixedValidation(originals) <==> !Agree(originals)
  {
    MixedIsNotUnanimous(originals, originals[0]);
  }

  lemma StatusIsReconciled(originals: seq<Candidate>)
    requires originals != []
    ensures StatusIs(originals, ReconciledStatus(Primary(originals).policy, originals))
  {
    PrimaryIsOriginal(originals);
    MixedIsDisagreement(originals);
  }

  lemma CodesAreUnited(originals: seq<Candidate>, p: Policy)
    requires originals != []
    requires p.failureCodes == Codes(originals, FailureCodes) + if MixedValidation(originals) then {SourceConflict} else {}
    requires p.recommendationCodes == Codes(originals, RecommendationCodes) + if MixedValidation(originals) then {SourceConflict} else {}
    ensures CodesAre(originals, p)
  {
    MixedIsDisagreement(originals);
    forall code
      ensures code in p.failureCodes <==> HasFailure(originals, code) || (code == SourceConflict && !Agree(originals))
    {
      UnionMember(originals, FailureCodes, code);
    }
    forall code
      ensures code in p.recommendationCodes <==> HasRecommendation(originals, code) || (code == SourceConflict && !Agree(originals))
    {
      UnionMember(originals, RecommendationCodes, code);
    }
  }

  /** The status of a merged record and its codes. */
  lemma StandingOfMerged(originals: seq<Candidate>, hash: Material -> Key)
    requires originals != []
    ensures StatusIs(originals, Merged(originals, hash).validationStatus) && CodesAre(originals, Merged(originals, hash))
  {
    StatusIsReconciled(originals);
    CodesAreUnited(originals, Merged(originals, hash));
  }

  // ---------- the primary notice ----------

  /** The first of year label, official sources, evidence, publication and id in which two notices differ decides. */
  predicate Outranks(a: Candidate, b: Candidate) {
    var x, y := a.strength, b.strength;
    || (x.yearLabel && !y.yearLabel)
    || (x.yearLabel == y.yearLabel && x.officialSources > y.officialSources)
    || (x.yearLabel == y.yearLabel && x.officialSources == y.officialSources && |a.policy.evidence| > |b.policy.evidence|)
    || (x.yearLabel == y.yearLabel && x.officialSources == y.officialSources && |a.policy.evidence| == |b.policy.evidence|
        && x.latestPublished > y.latestPublished)
    || (x.yearLabel == y.yearLabel && x.officialSources == y.officialSources && |a.policy.evidence| == |b.policy.evidence|
        && x.latestPublished == y.latestPublished && a.policy.id <= b.policy.id)
  }

  ghost predicate Strongest(originals: seq<Candidate>, c: Candidate) {
    c in originals && forall d :: d in originals ==> Outranks(c, d)
  }

  lemma StrongerIsTotal()
    ensures TotalPreorder(Stronger)
  {
    forall x, y, z | Stronger(x, y) && Stronger(y, z) ensures Stronger(x, z) {
      StrongerChains(x, y, z);
    }
  }

  lemma StrongerChains(x: Candidate, y: Candidate, z: Candidate)
    requires Stronger(x, y) && Stronger(y, z)
    ensures Stronger(x, z)
  {
  }

  lemma PrimaryIsStrongest(originals: seq<Candidate>)
    requires originals != []
    ensures Strongest(originals, Primary(originals))
  {
    StrongerIsTotal();
    SortSorts(Stronger, originals);
    SortPermutes(Stronger, originals);
    SortKeepsElements(Stronger, originals);
    PrimaryIsOriginal(originals);
    var sorted := SortBy(Stronger, originals);
    forall d | d in originals ensures Outranks(sorted[0], d) {
      var k :| 0 <= k < |sorted| && sorted[k] == d;
      if k > 0 { assert Stronger(sorted[0], sorted[k]); }
    }
  }

  // ---------- values that the first notice to know them decides ----------

  ghost predicate Informs<T>(value: Option<T>, ignored: set<T>) { value.Some? && value.value !in ignored }

  /** The value of a notice of least id among those that inform, or none. */
  ghost predicate FirstStated<T>(originals: seq<Candidate>, value: Candidate -> Option<T>, ignored: set<T>, v: Option<T>) {
    || (exists c :: c in originals && Informs(value(c), ignored) && v == value(c)
          && forall d :: d in originals && Informs(value(d), ignored) ==> c.policy.id <= d.policy.id)
    || ((forall d :: d in originals ==> !Informs(value(d), ignored)) && v.None?)
  }

  lemma {:induction false} FirstInformativeAt<T>(values: seq<Option<T>>, ignored: set<T>) returns (k: nat)
    ensures k <= |values| && forall i :: 0 <= i < k ==> !Informs(values[i], ignored)
    ensures if k < |values| then Informs(values[k], ignored) && FirstInformative(values, ignored) == values[k]
            else FirstInformative(values, ignored) == None
  {
    if values == [] || Informs(values[0], ignored) {
      k := 0;
    } else {
      var j := FirstInformativeAt(values[1..], ignored);
      k := j + 1;
      forall i | 0 <= i < k ensures !Informs(values[i], ignored) {
        if i > 0 { assert values[i] == values[1..][i - 1]; }
      }
    }
  }

  lemma FirstStatedOf<T>(originals: seq<Candidate>, field: Candidate -> Option<T>, value: Candidate -> Option<T>, ignored: set<T>)
    requires forall c :: field(c) == value(c)
    ensures FirstStated(originals, value, ignored, FirstInformative(Column(SortBy(ById, originals), field), ignored))
  {
    var ordered := SortBy(ById, originals);
    ByIdIsTotal();
    SortSorts(ById, originals);
    SortKeepsElements(ById, originals);
    var k := FirstInformativeAt(Column(ordered, field), ignored);
    forall d | d in originals && Informs(value(d), ignored) ensures k < |ordered| && ordered[k].policy.id <= d.policy.id {
      var j :| 0 <= j < |ordered| && ordered[j] == d;
      assert Column(ordered, field)[j] == value(d);
      if k < j { assert ById(ordered[k], ordered[j]); }
    }
    if k < |ordered| {
      assert ordered[k] in originals && Column(ordered, field)[k] == value(ordered[k]);
    }
  }

  // ---------- lists in the order of first mention ----------

  /** `c` mentions `x`, and no notice mentions `y` before it: neither one of smaller id nor `c` itself earlier on. */
  ghost predicate MentionedBefore(originals: seq<Candidate>, list: Candidate -> seq<Key>, x: Key, y: Key) {
    exists c, q: nat :: c in originals && q < |list(c)| && list(c)[q] == x && y !in list(c)[..q]
      && forall d :: d in originals && y in list(d) ==> c.policy.id <= d.policy.id
  }

  /** Every mentioned value once, in the order of first mention. */
  ghost predicate Gathers(originals: seq<Candidate>, list: Candidate -> seq<Key>, r: seq<Key>) {
    && NoDuplicates(r)
    && (forall v :: v in r <==> exists c :: c in originals && v in list(c))
    && forall i, j :: 0 <= i < j < |r| ==> MentionedBefore(originals, list, r[i], r[j])
  }

  ghost predicate EarlierIn(flat: seq<Key>, x: Key, y: Key, p: nat) { p < |flat| && flat[p] == x && y !in flat[..p] }

  lemma {:induction false} UniqueInOrder(flat: seq<Key>, i: nat, j: nat) returns (p: nat)
    requires i < j < |OrderedUnique(flat)|
    ensures EarlierIn(flat, OrderedUnique(flat)[i], OrderedUnique(flat)[j], p)
  {
    var init, last := flat[..|flat| - 1], flat[|flat| - 1];
    var before := OrderedUnique(init);
    OrderedUniqueIsDistinct(init);
    DistinctMembers(init);
    if j < |before| {
      p := UniqueInOrder(init, i, j);
      assert flat[..p] == init[..p];
    } else {
      assert before[i] in before;
      p :| 0 <= p < |init| && init[p] == before[i];
      assert last !in init;
      assert flat[..p] == init[..p];
    }
  }

  /** Where a position of the concatenation lies. */
  lemma {:induction false} PositionIn(lists: seq<seq<Key>>, p: nat, y: Key) returns (n: nat, q: nat)
    requires p < |Flatten(lists)| && y !in Flatten(lists)[..p]
    ensures n < |lists| && q < |lists[n]| && lists[n][q] == Flatten(lists)[p]
    ensures y !in lists[n][..q] && forall m :: 0 <= m < n ==> y !in lists[m]
  {
    var init, last, flat := lists[..|lists| - 1], lists[|lists| - 1], Flatten(lists);
    var before := Flatten(init);
    assert flat == before + last;
    if p < |before| {
      assert flat[..p] == before[..p];
      n, q := PositionIn(init, p, y);
    } else {
      n, q := |init|, p - |before|;
      assert flat[..p] == before + last[..q];
      FlattenMember(init, y);
      forall m | 0 <= m < n ensures y !in lists[m] { assert lists[m] == init[m]; }
    }
  }

  lemma MentionsInOrder(originals: seq<Candidate>, list: Candidate -> seq<Key>, i: nat, j: nat)
    requires i < j < |OrderedUnique(Flatten(Column(SortBy(ById, originals), list)))|
    ensures var r := OrderedUnique(Flatten(Column(SortBy(ById, originals), list))); MentionedBefore(originals, list, r[i], r[j])
  {
    var ordered := SortBy(ById, originals);
    var lists := Column(ordered, list);
    var r := OrderedUnique(Flatten(lists));
    var p := UniqueInOrder(Flatten(lists), i, j);
    var n, q := PositionIn(lists, p, r[j]);
    ByIdIsTotal();
    SortSorts(ById, originals);
    SortKeepsElements(ById, originals);
    forall d | d in originals && r[j] in list(d) ensures ordered[n].policy.id <= d.policy.id {
      var m :| 0 <= m < |ordered| && ordered[m] == d;
      assert lists[m] == list(d);
      if n < m { assert ById(ordered[n], ordered[m]); }
    }
    assert lists[n] == list(ordered[n]) && ordered[n] in originals;
  }

  lemma MentionedSomewhere(originals: seq<Candidate>, list: Candidate -> seq<Key>, v: Key)
    ensures v in Flatten(Column(SortBy(ById, originals), list)) <==> exists c :: c in originals && v in list(c)
  {
    var ordered := SortBy(ById, originals);
    var lists := Column(ordered, list);
    SortKeepsElements(ById, originals);
    FlattenMember(lists, v);
    if k :| 0 <= k < |lists| && v in lists[k] { assert ordered[k] in originals; }
    if c :| c in originals && v in list(c) {
      var k :| 0 <= k < |ordered| && ordered[k] == c;
      assert lists[k] == list(c);
    }
  }

  lemma GathersAll(originals: seq<Candidate>, list: Candidate -> seq<Key>)
    ensures Gathers(originals, list, OrderedUnique(Flatten(Column(SortBy(ById, originals), list))))
  {
    var flat := Flatten(Column(SortBy(ById, originals), list));
    var r := OrderedUnique(flat);
    OrderedUniqueIsDistinct(flat);
    DistinctMembers(flat);
    forall v ensures v in r <==> exists c :: c in originals && v in list(c) { MentionedSomewhere(originals, list, v); }
    forall i, j | 0 <= i < j < |r| ensures MentionedBefore(originals, list, r[i], r[j]) { MentionsInOrder(originals, list, i, j); }
  }

  lemma GathersSame(originals: seq<Candidate>, list: Candidate -> seq<Key>, other: Candidate -> seq<Key>, r: seq<Key>)
    requires (forall c :: list(c) == other(c)) && Gathers(originals, list, r)
    ensures Gathers(originals, other, r)
  {
    forall i, j | 0 <= i < j < |r| ensures MentionedBefore(originals, other, r[i], r[j]) {
      assert MentionedBefore(originals, list, r[i], r[j]);
    }
  }

  // ---------- what the fingerprint of a merged record is made of ----------

  ghost predicate StatesOption<T(!new)>(o: seq<Candidate>, value: Candidate -> Option<T>, s: set<T>) {
    forall v :: v in s <==> exists c :: c in o && value(c) == Some(v)
  }

  ghost predicate StatesKey(o: seq<Candidate>, value: Candidate -> Key, s: set<Key>) {
    forall v :: v in s <==> v != BLANK && exists c :: c in o && value(c) == v
  }

  ghost predicate StatesSet<T(!new)>(o: seq<Candidate>, value: Candidate -> set<T>, s: set<T>) {
    forall v :: v in s <==> exists c :: c in o && v in value(c)
  }

  ghost predicate KeysAre(o: seq<Candidate>, m: Material) {
    && StatesKey(o, (c: Candidate) => c.identity.authority, m.authorities)
    && StatesKey(o, (c: Candidate) => c.identity.name, m.names)
    && StatesKey(o, (c: Candidate) => c.identity.policyType, m.types)
    && StatesKey(o, (c: Candidate) => c.identity.repaymentMethod, m.methods)
  }

  ghost predicate ListsAre(o: seq<Candidate>, m: Material) {
    && StatesSet(o, (c: Candidate) => c.identity.years, m.years)
    && StatesSet(o, (c: Candidate) => c.identity.purposes, m.purposes)
    && StatesSet(o, (c: Candidate) => c.identity.inclusions, m.inclusions)
    && StatesSet(o, (c: Candidate) => c.identity.exclusions, m.exclusions)
    && StatesSet(o, (c: Candidate) => (set r | r in c.identity.regions), m.regions)
    && (forall k, v :: (k, v) in m.conditions <==>
          exists c :: c in o && k in c.identity.eligibility && c.identity.eligibility[k] == v)
  }

  ghost predicate StatesAre(o: seq<Candidate>, m: Material) {
    && (ClosedClass in m.classes <==> exists c :: c in o && IsOver(c.policy))
    && (OpenClass in m.classes <==> exists c :: c in o && IsOpen(c.policy))
    && (ScheduledClass in m.classes <==> exists c :: c in o && IsScheduled(c.policy))
    && (UnknownClass in m.classes <==> exists c :: c in o && !IsOver(c.policy) && !IsOpen(c.policy) && !IsScheduled(c.policy))
  }

  ghost predicate AmountsAre(o: seq<Candidate>, m: Material) {
    && StatesOption(o, (c: Candidate) => c.policy.terms.start, m.starts)
    && StatesOption(o, (c: Candidate) => c.policy.terms.end, m.ends)
    && StatesOption(o, (c: Candidate) => c.policy.terms.limit, m.limits)
    && StatesOption(o, (c: Candidate) => c.policy.terms.annualRate, m.annualRates)
    && StatesOption(o, (c: Candidate) => c.policy.terms.discount, m.discounts)
  }

  ghost predicate OtherTermsAre(o: seq<Candidate>, m: Material) {
    && StatesOption(o, (c: Candidate) => c.policy.terms.coverage, m.coverages)
    && StatesOption(o, (c: Candidate) => c.policy.terms.fee, m.fees)
    && StatesOption(o, (c: Candidate) => c.policy.collateral, m.collaterals)
    && StatesOption(o, (c: Candidate) => c.policy.terms.grace, m.graces)
    && StatesOption(o, (c: Candidate) => c.policy.terms.maturity, m.maturities)
  }

  /** Field by field, the values that the originals state. */
  ghost predicate MaterialIs(o: seq<Candidate>, m: Material) {
    KeysAre(o, m) && ListsAre(o, m) && StatesAre(o, m) && AmountsAre(o, m) && OtherTermsAre(o, m)
  }

  lemma OptionColumn<T(!new)>(o: seq<Candidate>, field: Candidate -> Option<T>, value: Candidate -> Option<T>)
    requires forall c :: field(c) == value(c)
    ensures StatesOption(o, value, Populated(Column(o, field)))
  {
    forall v ensures v in Populated(Column(o, field)) <==> exists c :: c in o && value(c) == Some(v) { PopulatedMember(o, field, v); }
  }

  lemma KeyColumn(o: seq<Candidate>, field: Candidate -> Key, value: Candidate -> Key)
    requires forall c :: field(c) == value(c)
    ensures StatesKey(o, value, PopulatedKeys(Column(o, field)))
  {
    forall v ensures v in PopulatedKeys(Column(o, field)) <==> v != BLANK && exists c :: c in o && value(c) == v {
      PopulatedKeysMember(o, field, v);
    }
  }

  lemma SetColumn<T(!new)>(o: seq<Candidate>, field: Candidate -> set<T>, value: Candidate -> set<T>)
    requires forall c :: field(c) == value(c)
    ensures StatesSet(o, value, Union(Column(o, field)))
  {
    forall v ensures v in Union(Column(o, field)) <==> exists c :: c in o && v in value(c) { UnionMember(o, field, v); }
  }

  lemma KeysOfMaterial(o: seq<Candidate>)
    ensures KeysAre(o, MaterialOf(o))
  {
    KeyColumn(o, Authority, (c: Candidate) => c.identity.authority);
    KeyColumn(o, Name, (c: Candidate) => c.identity.name);
    KeyColumn(o, TypeOf, (c: Candidate) => c.identity.policyType);
    KeyColumn(o, MethodKey, (c: Candidate) => c.identity.repaymentMethod);
  }

  lemma ListsOfMaterial(o: seq<Candidate>)
    ensures ListsAre(o, MaterialOf(o))
  {
    SetColumn(o, Years, (c: Candidate) => c.identity.years);
    SetColumn(o, Purposes, (c: Candidate) => c.identity.purposes);
    SetColumn(o, Inclusions, (c: Candidate) => c.identity.inclusions);
    SetColumn(o, Exclusions, (c: Candidate) => c.identity.exclusions);
    SetColumn(o, RegionSet, (c: Candidate) => (set r | r in c.identity.regions));
    forall k, v ensures (k, v) in MaterialOf(o).conditions <==>
      exists c :: c in o && k in c.identity.eligibility && c.identity.eligibility[k] == v
    {
      UnionMember(o, ConditionsOf, (k, v));
    }
  }

  lemma StatesOfMaterial(o: seq<Candidate>)
    ensures StatesAre(o, MaterialOf(o))
  {
    forall c: Candidate
      ensures StatusClassOf(c).ClosedClass? <==> IsOver(c.policy)
      ensures StatusClassOf(c).OpenClass? <==> IsOpen(c.policy)
      ensures StatusClassOf(c).ScheduledClass? <==> IsScheduled(c.policy)
    {
      ClassIs(c.policy);
    }
    ColumnMember(o, StatusClassOf, ClosedClass);
    ColumnMember(o, StatusClassOf, OpenClass);
    ColumnMember(o, StatusClassOf, ScheduledClass);
    ColumnMember(o, StatusClassOf, UnknownClass);
  }

  lemma AmountsOfMaterial(o: seq<Candidate>)
    ensures AmountsAre(o, MaterialOf(o))
  {
    OptionColumn(o, Start, (c: Candidate) => c.policy.terms.start);
    OptionColumn(o, End, (c: Candidate) => c.policy.terms.end);
    OptionColumn(o, Limit, (c: Candidate) => c.policy.terms.limit);
    OptionColumn(o, AnnualRate, (c: Candidate) => c.policy.terms.annualRate);
    OptionColumn(o, Discount, (c: Candidate) => c.policy.terms.discount);
  }

  lemma OtherTermsOfMaterial(o: seq<Candidate>)
    ensures OtherTermsAre(o, MaterialOf(o))
  {
    OptionColumn(o, Coverage, (c: Candidate) => c.policy.terms.coverage);
    OptionColumn(o, Fee, (c: Candidate) => c.policy.terms.fee);
    OptionColumn(o, Collateral, (c: Candidate) => c.policy.collateral);
    OptionColumn(o, Grace, (c: Candidate) => c.policy.terms.grace);
    OptionColumn(o, Maturity, (c: Candidate) => c.policy.terms.maturity);
  }

  lemma MaterialOfOriginals(o: seq<Candidate>)
    ensures MaterialIs(o, MaterialOf(o))
  {
    KeysOfMaterial(o);
    ListsOfMaterial(o);
    StatesOfMaterial(o);
    AmountsOfMaterial(o);
    OtherTermsOfMaterial(o);
  }

  // ---------- the merged record ----------

  /** A single notice keeps its id; several take the hash of their material, and the record lists the notices it merges. */
  ghost predicate NamedAs(o: seq<Candidate>, hash: Material -> Key, p: Policy) {
    if |o| == 1 then p.id == o[0].policy.id && p.mergeGroup.None? && p.mergedIds == []
    else
      && (exists m :: MaterialIs(o, m) && p.id == hash(m) && p.mergeGroup == Some(hash(m)))
      && StrictlyIncreasing(p.mergedIds)
      && forall id :: id in p.mergedIds <==>
           exists c :: c in o && id == if c.policy.extractorId.Some? then c.policy.extractorId.value else c.policy.id
  }

  ghost predicate SourcesAre(o: seq<Candidate>, p: Policy) {
    StrictlyIncreasing(p.sourceIds) && forall source :: source in p.sourceIds <==> exists c :: c in o && source in c.policy.sourceIds
  }

  ghost predicate FirstTerms(o: seq<Candidate>, t: Terms) {
    && FirstStated(o, (c: Candidate) => c.policy.terms.start, {}, t.start)
    && FirstStated(o, (c: Candidate) => c.policy.terms.end, {}, t.end)
    && FirstStated(o, (c: Candidate) => c.policy.terms.limit, {}, t.limit)
    && FirstStated(o, (c: Candidate) => c.policy.terms.annualRate, {}, t.annualRate)
    && FirstStated(o, (c: Candidate) => c.policy.terms.discount, {}, t.discount)
  }

  ghost predicate LastTerms(o: seq<Candidate>, t: Terms) {
    && FirstStated(o, (c: Candidate) => c.policy.terms.coverage, {}, t.coverage)
    && FirstStated(o, (c: Candidate) => c.policy.terms.fee, {}, t.fee)
    && FirstStated(o, (c: Candidate) => c.policy.terms.grace, {}, t.grace)
    && FirstStated(o, (c: Candidate) => c.policy.terms.maturity, {}, t.maturity)
  }

  /** The first notice to know decides; where none knows, the strongest notice's own word stands. */
  ghost predicate KnownAs<T>(o: seq<Candidate>, value: Candidate -> T, ignored: set<T>, otherwise: T, v: T) {
    || FirstStated(o, (c: Candidate) => Some(value(c)), ignored, Some(v))
    || (FirstStated(o, (c: Candidate) => Some(value(c)), ignored, None) && v == otherwise)
  }

  ghost predicate OptionsAre(o: seq<Candidate>, p: Policy) {
    && FirstStated(o, (c: Candidate) => c.policy.repaymentMethod, {BLANK}, p.repaymentMethod)
    && FirstStated(o, (c: Candidate) => c.policy.collateral, {}, p.collateral)
  }

  ghost predicate GatheredLists(o: seq<Candidate>, p: Policy) {
    && Gathers(o, (c: Candidate) => c.policy.purpose, p.purpose)
    && Gathers(o, (c: Candidate) => c.policy.regionCodes, p.regionCodes)
    && Gathers(o, (c: Candidate) => c.policy.inclusionsRaw, p.inclusionsRaw)
    && Gathers(o, (c: Candidate) => c.policy.exclusionsRaw, p.exclusionsRaw)
    && Gathers(o, (c: Candidate) => c.policy.conditions, p.conditions)
  }

  ghost predicate KeptFrom(p: Policy, primary: Policy) {
    && p.wording == primary.wording && p.extractorId == primary.extractorId && p.noticeKind == primary.noticeKind
    && p.supersedes == primary.supersedes && p.conflictFields == primary.conflictFields
  }

  lemma NamesMerged(o: seq<Candidate>, hash: Material -> Key)
    requires o != []
    ensures NamedAs(o, hash, Merged(o, hash))
  {
    var p := Merged(o, hash);
    PrimaryIsOriginal(o);
    if |o| == 1 {
      OnlyMember(o, Primary(o));
    } else {
      MaterialOfOriginals(o);
      SortedDistinctSorts(Column(o, OriginalId));
      forall id ensures id in p.mergedIds <==>
        exists c :: c in o && id == if c.policy.extractorId.Some? then c.policy.extractorId.value else c.policy.id
      {
        ColumnMember(o, OriginalId, id);
      }
    }
  }

  lemma SourcesOfMerged(o: seq<Candidate>, hash: Material -> Key)
    requires o != []
    ensures SourcesAre(o, Merged(o, hash))
  {
    SortedDistinctSorts(Flatten(Column(o, Sources)));
    forall source ensures source in Merged(o, hash).sourceIds <==> exists c :: c in o && source in c.policy.sourceIds {
      FlattenedSource(o, source);
    }
  }

  lemma TermsOfMerged(o: seq<Candidate>)
    ensures FirstTerms(o, MergedTerms(SortBy(ById, o))) && LastTerms(o, MergedTerms(SortBy(ById, o)))
  {
    FirstStatedOf(o, Start, (c: Candidate) => c.policy.terms.start, {});
    FirstStatedOf(o, End, (c: Candidate) => c.policy.terms.end, {});
    FirstStatedOf(o, Limit, (c: Candidate) => c.policy.terms.limit, {});
    FirstStatedOf(o, AnnualRate, (c: Candidate) => c.policy.terms.annualRate, {});
    FirstStatedOf(o, Discount, (c: Candidate) => c.policy.terms.discount, {});
    FirstStatedOf(o, Coverage, (c: Candidate) => c.policy.terms.coverage, {});
    FirstStatedOf(o, Fee, (c: Candidate) => c.policy.terms.fee, {});
    FirstStatedOf(o, Grace, (c: Candidate) => c.policy.terms.grace, {});
    FirstStatedOf(o, Maturity, (c: Candidate) => c.policy.terms.maturity, {});
  }

  lemma OptionsOfMerged(o: seq<Candidate>, hash: Material -> Key)
    requires o != []
    ensures OptionsAre(o, Merged(o, hash))
  {
    FirstStatedOf(o, RepaymentMethod, (c: Candidate) => c.policy.repaymentMethod, {BLANK});
    FirstStatedOf(o, Collateral, (c: Candidate) => c.policy.collateral, {});
  }

  ghost predicate BudgetIs(o: seq<Candidate>, p: Policy, primary: Policy) {
    KnownAs(o, (c: Candidate) => c.policy.budgetStatus, {BLANK, UNKNOWN, BUDGET_UNKNOWN}, primary.budgetStatus, p.budgetStatus)
  }

  ghost predicate ApplicationIs(o: seq<Candidate>, p: Policy, primary: Policy) {
    KnownAs(o, (c: Candidate) => c.policy.applicationStatus, {StatusBlank, StatusUnknown, StatusUnconfirmed},
            primary.applicationStatus, p.applicationStatus)
  }

  lemma KnownOf<T>(o: seq<Candidate>, field: Candidate -> Option<T>, value: Candidate -> T, ignored: set<T>, otherwise: T)
    requires forall c :: field(c) == Some(value(c))
    ensures KnownAs(o, value, ignored, otherwise,
      match FirstInformative(Column(SortBy(ById, o), field), ignored) case Some(v) => v case None => otherwise)
  {
    FirstStatedOf(o, field, (c: Candidate) => Some(value(c)), ignored);
  }

  lemma BudgetOfMerged(o: seq<Candidate>, hash: Material -> Key)
    requires o != []
    ensures BudgetIs(o, Merged(o, hash), Primary(o).policy)
  {
    KnownOf(o, BudgetStatus, (c: Candidate) => c.policy.budgetStatus, {BLANK, UNKNOWN, BUDGET_UNKNOWN}, Primary(o).policy.budgetStatus);
  }

  lemma ApplicationOfMerged(o: seq<Candidate>, hash: Material -> Key)
    requires o != []
    ensures ApplicationIs(o, Merged(o, hash), Primary(o).policy)
  {
    KnownOf(o, ApplicationStatusOf, (c: Candidate) => c.policy.applicationStatus, {StatusBlank, StatusUnknown, StatusUnconfirmed},
      Primary(o).policy.applicationStatus);
  }

  lemma ListsOfMerged(o: seq<Candidate>, hash: Material -> Key)
    requires o != []
    ensures GatheredLists(o, Merged(o, hash))
  {
    GathersAll(o, PurposeOf);
    GathersSame(o, PurposeOf, (c: Candidate) => c.policy.purpose, Merged(o, hash).purpose);
    GathersAll(o, RegionCodes);
    GathersSame(o, RegionCodes, (c: Candidate) => c.policy.regionCodes, Merged(o, hash).regionCodes);
    GathersAll(o, InclusionsRaw);
    GathersSame(o, InclusionsRaw, (c: Candidate) => c.policy.inclusionsRaw, Merged(o, hash).inclusionsRaw);
    GathersAll(o, ExclusionsRaw);
    GathersSame(o, ExclusionsRaw, (c: Candidate) => c.policy.exclusionsRaw, Merged(o, hash).exclusionsRaw);
    GathersAll(o, ConditionList);
    GathersSame(o, ConditionList, (c: Candidate) => c.policy.conditions, Merged(o, hash).conditions);
  }

  /** The evidence of all notices: one item for each source, revision, paths and quote, in the order of first mention, with the
      id that the last notice gives it. */
  ghost predicate EvidenceIs(o: seq<Candidate>, p: Policy) {
    Listed(Flatten(Column(o, (c: Candidate) => c.policy.evidence)), p.evidence)
  }

  lemma EvidenceOfMerged(o: seq<Candidate>, hash: Material -> Key)
    requires o != []
    ensures EvidenceIs(o, Merged(o, hash))
  {
    EvidenceListed(Flatten(Column(o, EvidenceOf)));
    assert Column(o, EvidenceOf) == Column(o, (c: Candidate) => c.policy.evidence);
  }

  /** The record that stands for the original notices `o`: each of its fields in terms of theirs. */
  ghost predicate StandsFor(o: seq<Candidate>, hash: Material -> Key, p: Policy) {
    && NamedAs(o, hash, p) && SourcesAre(o, p) && EvidenceIs(o, p) && FirstTerms(o, p.terms) && LastTerms(o, p.terms)
    && OptionsAre(o, p) && GatheredLists(o, p) && StatusIs(o, p.validationStatus) && CodesAre(o, p)
    && exists c :: Strongest(o, c) && KeptFrom(p, c.policy) && BudgetIs(o, p, c.policy) && ApplicationIs(o, p, c.policy)
  }

  /** Every merged record is such a record. */
  lemma MergedStandsFor(o: seq<Candidate>, hash: Material -> Key)
    requires o != []
    ensures StandsFor(o, hash, Merged(o, hash))
  {
    NamesMerged(o, hash);
    SourcesOfMerged(o, hash);
    EvidenceOfMerged(o, hash);
    TermsOfMerged(o);
    OptionsOfMerged(o, hash);
    ListsOfMerged(o, hash);
    StandingOfMerged(o, hash);
    PrimaryIsStrongest(o);
    BudgetOfMerged(o, hash);
    ApplicationOfMerged(o, hash);
    assert Merged(o, hash).terms == MergedTerms(SortBy(ById, o));
    assert KeptFrom(Merged(o, hash), Primary(o).policy);
  }
}
