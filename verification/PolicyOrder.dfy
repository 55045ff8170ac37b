/** What the reconciliation of policies owes to the order in which the notices arrive. */
module PolicyOrder {
  import opened Wrappers
  import opened Keys
  import opened Sorting
  import opened PolicyIdentity
  import opened PolicyReconciler
  import opened PolicyGroups
  import opened PolicyLineage
  import opened PolicyArrival

  // ---------- conflict marks ----------

  lemma ConflictsSymmetric(x: Candidate, y: Candidate)
    ensures Conflicts(x, y) == Conflicts(y, x)
    ensures Conflicts(x, x) == {}
  {
    var l, r := x.policy.terms, y.policy.terms;
    assert OptionalFields(l, r) == OptionalFields(r, l);
    assert x.identity.eligibility.Keys * y.identity.eligibility.Keys == y.identity.eligibility.Keys * x.identity.eligibility.Keys;
    EquivalenceIsReflexiveAndSymmetric(x, x);
    EquivalentIffNoMaterialConflict(x, x);
  }

  /** Two candidates disagree on the field, and one of them names the source. */
  ghost predicate Disputed(x: Candidate, y: Candidate, source: Key, field: Field) {
    field in Conflicts(x, y) && (source in x.policy.sourceIds || source in y.policy.sourceIds)
  }

  ghost predicate DisputedAmong(candidates: seq<Candidate>, source: Key, field: Field) {
    exists x, y :: x in candidates && y in candidates && Disputed(x, y, source, field)
  }

  lemma ConflictIsDisputed(ordered: seq<Candidate>, source: Key, field: Field)
    requires ConflictOn(ordered, |ordered|, source, field)
    ensures DisputedAmong(ordered, source, field)
  {
    var i :| 0 <= i < |ordered| && RowConflict(ordered, i, |ordered|, source, field);
    var k :| i < k < |ordered| && PairConflict(ordered, i, k, source, field);
    assert ordered[i] in ordered && ordered[k] in ordered;
    assert Disputed(ordered[i], ordered[k], source, field);
  }

  lemma PairIsConflict(ordered: seq<Candidate>, i: nat, k: nat, source: Key, field: Field)
    requires i < k < |ordered| && Disputed(ordered[i], ordered[k], source, field)
    ensures ConflictOn(ordered, |ordered|, source, field)
  {
    assert PairConflict(ordered, i, k, source, field);
    assert RowConflict(ordered, i, |ordered|, source, field);
  }

  lemma DisputeIsConflict(ordered: seq<Candidate>, source: Key, field: Field)
    requires DisputedAmong(ordered, source, field)
    ensures ConflictOn(ordered, |ordered|, source, field)
  {
    var x, y :| x in ordered && y in ordered && Disputed(x, y, source, field);
    ConflictsSymmetric(x, y);
    var i :| 0 <= i < |ordered| && ordered[i] == x;
    var k :| 0 <= k < |ordered| && ordered[k] == y;
    assert i != k;
    if i < k {
      PairIsConflict(ordered, i, k, source, field);
    } else {
      PairIsConflict(ordered, k, i, source, field);
    }
  }

  function ConflictMapOf(candidates: seq<Candidate>): ConflictMap {
    var ordered := SortBy(ById, candidates);
    ConflictsUpTo(ordered, |ordered|)
  }

  lemma LookIgnoresOrder(a: seq<Candidate>, b: seq<Candidate>, source: Key)
    requires Permutes(a, b)
    ensures Look(ConflictMapOf(a), source) == Look(ConflictMapOf(b), source)
  {
    var s, t := SortBy(ById, a), SortBy(ById, b);
    SortPermutes(ById, a);
    SortPermutes(ById, b);
    SameMembers(s, t);
    forall field ensures field in Look(ConflictMapOf(a), source) <==> field in Look(ConflictMapOf(b), source) {
      ConflictsUpToLook(s, |s|, source, field);
      ConflictsUpToLook(t, |t|, source, field);
      if ConflictOn(s, |s|, source, field) {
        ConflictIsDisputed(s, source, field);
        DisputeIsConflict(t, source, field);
      }
      if ConflictOn(t, |t|, source, field) {
        ConflictIsDisputed(t, source, field);
        DisputeIsConflict(s, source, field);
      }
    }
  }

  /** Which fields a record is marked on never depends on the order of arrival, whatever the ids are. */
  lemma {:induction false} ConflictMarksIgnoreOrder(a: seq<Candidate>, b: seq<Candidate>, sources: seq<Key>)
    requires Permutes(a, b)
    ensures FieldsOf(ConflictMapOf(a), sources) == FieldsOf(ConflictMapOf(b), sources)
  {
    if sources != [] {
      ConflictMarksIgnoreOrder(a, b, sources[..|sources| - 1]);
      LookIgnoresOrder(a, b, sources[|sources| - 1]);
    }
  }

  /** Nor do the sources that the output names. */
  lemma SourcesIgnoreOrder(a: seq<Candidate>, b: seq<Candidate>, hash: Material -> Key, source: Key)
    requires Permutes(a, b)
    ensures RecordsHaveSource(ReconcilePolicies(a, hash), source) <==> RecordsHaveSource(ReconcilePolicies(b, hash), source)
  {
    ReconciliationKeepsSources(a, hash, source);
    ReconciliationKeepsSources(b, hash, source);
    SameMembers(a, b);
  }

  // ---------- merged records ----------

  lemma PopulatedIgnoresOrder<T>(o: seq<Candidate>, p: seq<Candidate>, field: Candidate -> Option<T>)
    requires forall c :: c in o <==> c in p
    ensures Populated(Column(o, field)) == Populated(Column(p, field))
  {
    var s, t := Populated(Column(o, field)), Populated(Column(p, field));
    forall v: T ensures v in s <==> v in t {
      PopulatedMember(o, field, v);
      PopulatedMember(p, field, v);
    }
    assert s == t;
  }

  lemma KeysIgnoreOrder(o: seq<Candidate>, p: seq<Candidate>, field: Candidate -> Key)
    requires forall c :: c in o <==> c in p
    ensures PopulatedKeys(Column(o, field)) == PopulatedKeys(Column(p, field))
  {
    forall v ensures v in PopulatedKeys(Column(o, field)) <==> v in PopulatedKeys(Column(p, field)) {
      PopulatedKeysMember(o, field, v);
      PopulatedKeysMember(p, field, v);
    }
  }

  lemma UnionIgnoresOrder<T>(o: seq<Candidate>, p: seq<Candidate>, field: Candidate -> set<T>)
    requires forall c :: c in o <==> c in p
    ensures Union(Column(o, field)) == Union(Column(p, field))
  {
    var s, t := Union(Column(o, field)), Union(Column(p, field));
    forall v: T ensures v in s <==> v in t {
      UnionMember(o, field, v);
      UnionMember(p, field, v);
    }
    assert s == t;
  }

  lemma ColumnMember<T>(o: seq<Candidate>, field: Candidate -> T, v: T)
    ensures v in Column(o, field) <==> exists c :: c in o && field(c) == v
  {
    if c :| c in o && field(c) == v {
      var i :| 0 <= i < |o| && o[i] == c;
      assert Column(o, field)[i] == v;
    }
    if v in Column(o, field) {
      var i :| 0 <= i < |o| && Column(o, field)[i] == v;
      assert o[i] in o;
    }
  }

  lemma ElementsIgnoreOrder<T>(o: seq<Candidate>, p: seq<Candidate>, field: Candidate -> T)
    requires forall c :: c in o <==> c in p
    ensures Elements(Column(o, field)) == Elements(Column(p, field))
  {
    var s, t := Elements(Column(o, field)), Elements(Column(p, field));
    forall v: T ensures v in s <==> v in t {
      ColumnMember(o, field, v);
      ColumnMember(p, field, v);
    }
    assert s == t;
  }

  lemma MaterialIgnoresOrder(o: seq<Candidate>, p: seq<Candidate>)
    requires forall c :: c in o <==> c in p
    ensures MaterialOf(o) == MaterialOf(p)
  {
    KeysIgnoreOrder(o, p, Authority);
    KeysIgnoreOrder(o, p, Name);
    KeysIgnoreOrder(o, p, TypeOf);
    KeysIgnoreOrder(o, p, MethodKey);
    UnionIgnoresOrder(o, p, Years);
    UnionIgnoresOrder(o, p, RegionSet);
    UnionIgnoresOrder(o, p, Purposes);
    UnionIgnoresOrder(o, p, Inclusions);
    UnionIgnoresOrder(o, p, Exclusions);
    UnionIgnoresOrder(o, p, ConditionsOf);
    ElementsIgnoreOrder(o, p, StatusClassOf);
    PopulatedIgnoresOrder(o, p, Start);
    PopulatedIgnoresOrder(o, p, End);
    PopulatedIgnoresOrder(o, p, Limit);
    PopulatedIgnoresOrder(o, p, AnnualRate);
    PopulatedIgnoresOrder(o, p, Discount);
    PopulatedIgnoresOrder(o, p, Coverage);
    PopulatedIgnoresOrder(o, p, Fee);
    PopulatedIgnoresOrder(o, p, Collateral);
    PopulatedIgnoresOrder(o, p, Grace);
    PopulatedIgnoresOrder(o, p, Maturity);
  }

  lemma CarriedOnce<T>(o: seq<Candidate>, p: seq<Candidate>, field: Candidate -> Option<T>, m: Option<T>, n: Option<T>)
    requires (forall c :: c in o <==> c in p) && Carries(o, field, m) && Carries(p, field, n)
    ensures m == n
  {
  }

  lemma TermsIgnoreOrder(o: seq<Candidate>, p: seq<Candidate>)
    requires (forall c :: c in o <==> c in p) && PairwiseEquivalent(o)
    ensures MergedTerms(SortBy(ById, o)) == MergedTerms(SortBy(ById, p))
  {
    var m, n := MergedTerms(SortBy(ById, o)), MergedTerms(SortBy(ById, p));
    SortedCarries(o);
    SortedCarries(p);
    CarriedOnce(o, p, Start, m.start, n.start);
    CarriedOnce(o, p, End, m.end, n.end);
    CarriedOnce(o, p, Limit, m.limit, n.limit);
    CarriedOnce(o, p, AnnualRate, m.annualRate, n.annualRate);
    CarriedOnce(o, p, Discount, m.discount, n.discount);
    CarriedOnce(o, p, Coverage, m.coverage, n.coverage);
    CarriedOnce(o, p, Fee, m.fee, n.fee);
    CarriedOnce(o, p, Grace, m.grace, n.grace);
    CarriedOnce(o, p, Maturity, m.maturity, n.maturity);
  }

  lemma DistinctIgnoresOrder(s: seq<Key>, t: seq<Key>)
    requires forall x :: x in s <==> x in t
    ensures SortedDistinct(s) == SortedDistinct(t)
  {
    SortedDistinctSorts(s);
    SortedDistinctSorts(t);
    StrictlyIncreasingUnique(SortedDistinct(s), SortedDistinct(t));
  }

  lemma SourceListIgnoresOrder(o: seq<Candidate>, p: seq<Candidate>)
    requires forall c :: c in o <==> c in p
    ensures SortedDistinct(Flatten(Column(o, Sources))) == SortedDistinct(Flatten(Column(p, Sources)))
  {
    forall x ensures x in Flatten(Column(o, Sources)) <==> x in Flatten(Column(p, Sources)) {
      FlattenedSource(o, x);
      FlattenedSource(p, x);
    }
    DistinctIgnoresOrder(Flatten(Column(o, Sources)), Flatten(Column(p, Sources)));
  }

  lemma FlattenedSource(o: seq<Candidate>, source: Key)
    ensures source in Flatten(Column(o, Sources)) <==> HasSource(o, source)
  {
    var lists := Column(o, Sources);
    FlattenMember(lists, source);
    if c :| c in o && source in c.policy.sourceIds {
      var k :| 0 <= k < |o| && o[k] == c;
      assert source in lists[k];
    }
    if k :| 0 <= k < |lists| && source in lists[k] { assert o[k] in o; }
  }

  lemma MergedIdsIgnoreOrder(o: seq<Candidate>, p: seq<Candidate>)
    requires forall c :: c in o <==> c in p
    ensures SortedDistinct(Column(o, OriginalId)) == SortedDistinct(Column(p, OriginalId))
  {
    ElementsIgnoreOrder(o, p, OriginalId);
    forall x ensures x in Column(o, OriginalId) <==> x in Column(p, OriginalId) {
      assert x in Column(o, OriginalId) <==> x in Elements(Column(o, OriginalId));
      assert x in Column(p, OriginalId) <==> x in Elements(Column(p, OriginalId));
    }
    DistinctIgnoresOrder(Column(o, OriginalId), Column(p, OriginalId));
  }

  /** The part of a record that two orders of arrival cannot tell apart. */
  ghost predicate SameCore(p: Policy, q: Policy) {
    && p.id == q.id && p.sourceIds == q.sourceIds && p.terms == q.terms
    && p.validationStatus == q.validationStatus && p.failureCodes == q.failureCodes
  }

  ghost predicate Unanimous(o: seq<Candidate>, c: Candidate) {
    forall d :: d in o ==>
      d.policy.validationStatus == c.policy.validationStatus && d.policy.failureCodes == c.policy.failureCodes
  }

  lemma MixedIsNotUnanimous(o: seq<Candidate>, c: Candidate)
    requires c in o
    ensures MixedValidation(o) <==> !Unanimous(o, c)
  {
    var k :| 0 <= k < |o| && o[k] == c;
    if !Unanimous(o, c) {
      var d :| d in o && (d.policy.validationStatus != c.policy.validationStatus || d.policy.failureCodes != c.policy.failureCodes);
      var i :| 0 <= i < |o| && o[i] == d;
      assert o[i].policy.validationStatus != o[k].policy.validationStatus || o[i].policy.failureCodes != o[k].policy.failureCodes;
    } else {
      assert forall i :: 0 <= i < |o| ==> o[i] in o;
    }
  }

  lemma PrimaryIsOriginal(o: seq<Candidate>)
    requires o != []
    ensures Primary(o) in o
  {
    SortPermutes(Stronger, o);
    SortKeepsElements(Stronger, o);
    assert SortBy(Stronger, o)[0] in SortBy(Stronger, o);
  }

  lemma StatusIgnoresOrder(o: seq<Candidate>, p: seq<Candidate>)
    requires o != [] && p != [] && forall c :: c in o <==> c in p
    ensures MixedValidation(o) <==> MixedValidation(p)
    ensures ReconciledStatus(Primary(o).policy, o) == ReconciledStatus(Primary(p).policy, p)
  {
    PrimaryIsOriginal(o);
    PrimaryIsOriginal(p);
    MixedIsNotUnanimous(o, Primary(o));
    MixedIsNotUnanimous(p, Primary(o));
  }

  lemma OnlyMember(o: seq<Candidate>, c: Candidate)
    requires |o| == 1 && c in o
    ensures o[0] == c
  {
  }

  /** The merged record of the originals of a group, up to the choice of its primary notice. */
  lemma MergedIgnoresOrder(o: seq<Candidate>, p: seq<Candidate>, hash: Material -> Key)
    requires o != [] && PairwiseEquivalent(o) && |o| == |p| && forall c :: c in o <==> c in p
    ensures var m, n := Merged(o, hash), Merged(p, hash);
      && SameCore(m, n)
      && m.mergeGroup == n.mergeGroup && m.mergedIds == n.mergedIds && m.recommendationCodes == n.recommendationCodes
  {
    PrimaryIsOriginal(o);
    PrimaryIsOriginal(p);
    if |o| == 1 {
      OnlyMember(o, Primary(o));
      OnlyMember(o, Primary(p));
    }
    MaterialIgnoresOrder(o, p);
    TermsIgnoreOrder(o, p);
    SourceListIgnoresOrder(o, p);
    MergedIdsIgnoreOrder(o, p);
    StatusIgnoresOrder(o, p);
    UnionIgnoresOrder(o, p, FailureCodes);
    UnionIgnoresOrder(o, p, RecommendationCodes);
  }

  // ---------- the output ----------

  lemma OriginalsIgnoreOrder(g: seq<Candidate>, h: seq<Candidate>)
    requires Permutes(g, h)
    ensures |OriginalsOf(g)| == |OriginalsOf(h)|
    ensures forall c :: c in OriginalsOf(g) <==> c in OriginalsOf(h)
    ensures forall c :: c in Revisions(SortBy(ByDateAndId, g)) <==> c in Revisions(SortBy(ByDateAndId, h))
  {
    var s, t := SortBy(ByDateAndId, g), SortBy(ByDateAndId, h);
    SortPermutes(ByDateAndId, g);
    SortPermutes(ByDateAndId, h);
    SameMembers(s, t);
    OriginalsMembers(s);
    OriginalsMembers(t);
    RevisionsCount(s);
    RevisionsCount(t);
    CountIfPermutes(IsRevision, s, t);
  }

  lemma NoticeHasTwin(records: seq<Policy>, start: seq<Policy>, revisions: seq<Candidate>, others: seq<Policy>, first: seq<Policy>,
                      notices: seq<Candidate>, n: nat)
    requires GroupRecords(records, start, revisions) && GroupRecords(others, first, notices)
    requires |start| <= n < |records| && forall c :: c in revisions ==> c in notices
    ensures exists q :: q in others && SameCore(records[n], q)
  {
    var k := n - |start|;
    assert revisions[k] in notices;
    var j :| 0 <= j < |notices| && notices[j] == revisions[k];
    assert records[|start| + k].id == revisions[k].policy.id;
    assert others[|first| + j] in others && SameCore(records[n], others[|first| + j]);
  }

  function StartOf(group: seq<Candidate>, hash: Material -> Key): seq<Policy> {
    if OriginalsOf(group) == [] then [] else [Merged(OriginalsOf(group), hash)]
  }

  lemma RecordHasTwin(g: seq<Candidate>, h: seq<Candidate>, hash: Material -> Key, r: Policy)
    requires Permutes(g, h) && PairwiseEquivalent(g) && r in Emitted(g, hash)
    ensures exists q :: q in Emitted(h, hash) && SameCore(r, q)
  {
    OriginalsIgnoreOrder(g, h);
    EmittedRecords(g, hash);
    EmittedRecords(h, hash);
    var n :| 0 <= n < |Emitted(g, hash)| && Emitted(g, hash)[n] == r;
    if n < |StartOf(g, hash)| {
      OriginalsAgree(g);
      MergedIgnoresOrder(OriginalsOf(g), OriginalsOf(h), hash);
      assert r == StartOf(g, hash)[0] && Emitted(h, hash)[0] == StartOf(h, hash)[0];
      assert Emitted(h, hash)[0] in Emitted(h, hash) && SameCore(r, Emitted(h, hash)[0]);
    } else {
      NoticeHasTwin(Emitted(g, hash), StartOf(g, hash), Revisions(SortBy(ByDateAndId, g)),
                    Emitted(h, hash), StartOf(h, hash), Revisions(SortBy(ByDateAndId, h)), n);
    }
  }

  lemma OriginalsAgree(g: seq<Candidate>)
    requires PairwiseEquivalent(g)
    ensures PairwiseEquivalent(OriginalsOf(g))
  {
    SortKeepsElements(ByDateAndId, g);
    OriginalsMembers(SortBy(ByDateAndId, g));
  }

  lemma {:induction false} OriginalGroupsIgnoreOrder(g: seq<seq<Candidate>>, h: seq<seq<Candidate>>)
    requires PermutedGroups(g, h)
    ensures GroupsWithOriginals(g) == GroupsWithOriginals(h)
  {
    if g != [] {
      var last := |g| - 1;
      OriginalGroupsIgnoreOrder(g[..last], h[..last]);
      OriginalsIgnoreOrder(g[last], h[last]);
    }
  }

  /** Each record of one output has a record of the other with the same core. */
  ghost predicate Mirrored(records: seq<Policy>, others: seq<Policy>) {
    forall r :: r in records ==> exists q :: q in others && SameCore(r, q)
  }

  lemma EmittedMirrored(g: seq<seq<Candidate>>, h: seq<seq<Candidate>>, hash: Material -> Key)
    requires PermutedGroups(g, h) && AllPairwiseEquivalent(g)
    ensures Mirrored(EmittedAll(g, hash), EmittedAll(h, hash))
  {
    forall r | r in EmittedAll(g, hash) ensures exists q :: q in EmittedAll(h, hash) && SameCore(r, q) {
      EmittedAllMember(g, hash, r);
      var k :| 0 <= k < |g| && r in Emitted(g[k], hash);
      assert Permutes(g[k], h[k]) && PairwiseEquivalent(g[k]);
      RecordHasTwin(g[k], h[k], hash, r);
      var q :| q in Emitted(h[k], hash) && SameCore(r, q);
      EmittedAllMember(h, hash, q);
    }
  }

  lemma MarkedMirrored(records: seq<Policy>, others: seq<Policy>, m: ConflictMap, n: ConflictMap)
    requires Mirrored(records, others) && forall sources :: FieldsOf(m, sources) == FieldsOf(n, sources)
    ensures Mirrored(SortBy(PolicyById, MarkAll(records, m)), SortBy(PolicyById, MarkAll(others, n)))
  {
    var marked, other := MarkAll(records, m), MarkAll(others, n);
    SortKeepsElements(PolicyById, marked);
    SortKeepsElements(PolicyById, other);
    forall r | r in marked ensures exists q :: q in other && SameCore(r, q) {
      var i :| 0 <= i < |marked| && marked[i] == r;
      assert records[i] in records;
      var q :| q in others && SameCore(records[i], q);
      var j :| 0 <= j < |others| && others[j] == q;
      assert FieldsOf(m, records[i].sourceIds) == FieldsOf(n, others[j].sourceIds);
      assert other[j] in other && SameCore(marked[i], other[j]);
    }
  }

  /** When notices of one id are equivalent, a rearrangement of the notices leaves the number of records and,
      record by record, the ids, sources, terms, failure codes and validation status as they were. */
  lemma RecordsIgnoreOrder(a: seq<Candidate>, b: seq<Candidate>, hash: Material -> Key)
    requires Permutes(a, b) && IdsAgree(a)
    ensures |ReconcilePolicies(a, hash)| == |ReconcilePolicies(b, hash)|
    ensures Mirrored(ReconcilePolicies(a, hash), ReconcilePolicies(b, hash))
  {
    var g, h := Groups(SortBy(ById, a)), Groups(SortBy(ById, b));
    GroupingIgnoresOrder(a, b);
    OriginalGroupsIgnoreOrder(g, h);
    CountIfPermutes(IsRevision, a, b);
    ReconciliationCounts(a, hash);
    ReconciliationCounts(b, hash);
    GroupsInvariant(SortBy(ById, a));
    EmittedMirrored(g, h, hash);
    forall sources ensures FieldsOf(ConflictMapOf(a), sources) == FieldsOf(ConflictMapOf(b), sources) {
      ConflictMarksIgnoreOrder(a, b, sources);
    }
    MarkedMirrored(EmittedAll(g, hash), EmittedAll(h, hash), ConflictMapOf(a), ConflictMapOf(b));
  }

  /** The whole output is independent of the order when even one id stands for one candidate. */
  lemma DistinctIdsIgnoreOrder(a: seq<Candidate>, b: seq<Candidate>, hash: Material -> Key)
    requires Permutes(a, b)
    requires forall x, y :: x in a && y in a && x.policy.id == y.policy.id ==> x == y
    ensures ReconcilePolicies(a, hash) == ReconcilePolicies(b, hash)
  {
    ByIdIsTotal();
    SortCanonical(ById, a, b);
  }
}
