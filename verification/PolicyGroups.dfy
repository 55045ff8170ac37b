/** The groups that greedy matching forms, although the matching relation is not transitive. */
module PolicyGroups {
  import opened Wrappers
  import opened Keys
  import opened Sorting
  import opened PolicyIdentity
  import opened PolicyReconciler

  ghost predicate PairwiseEquivalent(group: seq<Candidate>) {
    forall a, b :: a in group && b in group ==> Equivalent(a, b)
  }

  ghost predicate AllPairwiseEquivalent(groups: seq<seq<Candidate>>) {
    forall k :: 0 <= k < |groups| ==> groups[k] != [] && PairwiseEquivalent(groups[k])
  }

  /** Every member of a later group disagrees with some member of each earlier group. */
  ghost predicate Separated(groups: seq<seq<Candidate>>) {
    forall i, j, c :: 0 <= i < j < |groups| && c in groups[j] ==> !FitsGroup(c, groups[i])
  }

  lemma JoinKeepsPairwise(group: seq<Candidate>, c: Candidate)
    requires PairwiseEquivalent(group) && FitsGroup(c, group)
    ensures PairwiseEquivalent(group + [c])
  {
    forall a, b | a in group + [c] && b in group + [c] ensures Equivalent(a, b) {
      EquivalenceIsReflexiveAndSymmetric(a, b);
      if a in group && b !in group { assert Equivalent(c, a); }
    }
  }

  lemma PlaceKeepsGroups(c: Candidate, groups: seq<seq<Candidate>>)
    requires AllPairwiseEquivalent(groups) && Separated(groups)
    ensures AllPairwiseEquivalent(PlaceInGroup(c, groups)) && Separated(PlaceInGroup(c, groups))
  {
    var k := FirstFit(c, groups);
    var after := PlaceInGroup(c, groups);
    if k < |groups| {
      JoinKeepsPairwise(groups[k], c);
    } else {
      EquivalenceIsReflexiveAndSymmetric(c, c);
    }
    forall i, j, d | 0 <= i < j < |after| && d in after[j] ensures !FitsGroup(d, after[i]) {
      assert i < |groups|;
      assert forall m :: m in groups[i] ==> m in after[i];
      if j < |groups| && d in groups[j] {
        assert !FitsGroup(d, groups[i]);
      } else {
        assert d == c && !FitsGroup(c, groups[i]);
      }
    }
  }

  lemma {:induction false} GroupsInvariant(ordered: seq<Candidate>)
    ensures AllPairwiseEquivalent(Groups(ordered)) && Separated(Groups(ordered))
  {
    if ordered != [] {
      GroupsInvariant(ordered[..|ordered| - 1]);
      PlaceKeepsGroups(ordered[|ordered| - 1], Groups(ordered[..|ordered| - 1]));
    }
  }

  lemma {:induction false} FlattenUpdate<T>(lists: seq<seq<T>>, k: nat, x: T)
    requires k < |lists|
    ensures multiset(Flatten(lists[k := lists[k] + [x]])) == multiset(Flatten(lists)) + multiset{x}
  {
    var changed := lists[k := lists[k] + [x]];
    if k == |lists| - 1 {
      assert changed[..k] == lists[..k];
      assert Flatten(changed) == Flatten(lists) + [x];
    } else {
      var init, last := lists[..|lists| - 1], lists[|lists| - 1];
      FlattenUpdate(init, k, x);
      assert changed[..|lists| - 1] == init[k := lists[k] + [x]];
      assert Flatten(changed) == Flatten(init[k := lists[k] + [x]]) + last;
      assert Flatten(lists) == Flatten(init) + last;
    }
  }

  /** No candidate is lost or duplicated by the grouping. */
  lemma {:induction false} GroupsPartition(ordered: seq<Candidate>)
    ensures multiset(Flatten(Groups(ordered))) == multiset(ordered)
  {
    if ordered != [] {
      var c, before := ordered[|ordered| - 1], Groups(ordered[..|ordered| - 1]);
      GroupsPartition(ordered[..|ordered| - 1]);
      assert ordered == ordered[..|ordered| - 1] + [c];
      var k := FirstFit(c, before);
      if k < |before| {
        FlattenUpdate(before, k, c);
      } else {
        assert (before + [[c]])[..|before|] == before;
      }
    }
  }

  /** Although equivalence is not transitive, the groups partition the candidates into pairwise equivalent sets, and
      no two members of one group have a material conflict. */
  lemma GroupsArePairwiseEquivalent(candidates: seq<Candidate>)
    ensures var groups := Groups(SortBy(ById, candidates));
      && AllPairwiseEquivalent(groups)
      && multiset(Flatten(groups)) == multiset(candidates)
      && forall k, a, b :: 0 <= k < |groups| && a in groups[k] && b in groups[k] ==> Conflicts(a, b) == {}
  {
    var ordered := SortBy(ById, candidates);
    GroupsInvariant(ordered);
    GroupsPartition(ordered);
    SortPermutes(ById, candidates);
    var groups := Groups(ordered);
    forall k, a, b | 0 <= k < |groups| && a in groups[k] && b in groups[k] ensures Conflicts(a, b) == {} {
      EquivalentIffNoMaterialConflict(a, b);
    }
  }

  // ---------- merged terms ----------

  lemma {:induction false} FirstInformativeAgrees<T>(values: seq<Option<T>>)
    requires forall i, j :: 0 <= i < j < |values| ==> CompatibleOptional(values[i], values[j])
    ensures forall i :: 0 <= i < |values| && values[i].Some? ==> FirstInformative(values, {}) == values[i]
    ensures FirstInformative(values, {}).Some? ==> FirstInformative(values, {}) in values
  {
    if values != [] && values[0].None? {
      FirstInformativeAgrees(values[1..]);
      assert values == [values[0]] + values[1..];
    }
  }

  /** One optional column of a pairwise compatible list. */
  ghost predicate ColumnAgrees<T>(policies: seq<Candidate>, field: Candidate -> Option<T>) {
    forall a, b :: a in policies && b in policies ==> CompatibleOptional(field(a), field(b))
  }

  /** `merged` states what any member of the column states, and nothing else. */
  ghost predicate Carries<T>(policies: seq<Candidate>, field: Candidate -> Option<T>, merged: Option<T>) {
    && (forall c :: c in policies && field(c).Some? ==> merged == field(c))
    && (merged.Some? ==> exists c :: c in policies && field(c) == merged)
  }

  lemma MergedColumnCarries<T>(policies: seq<Candidate>, field: Candidate -> Option<T>)
    requires ColumnAgrees(policies, field)
    ensures Carries(policies, field, FirstInformative(Column(policies, field), {}))
  {
    var column := Column(policies, field);
    FirstInformativeAgrees(column);
    var merged := FirstInformative(column, {});
    forall c | c in policies && field(c).Some? ensures merged == field(c) {
      var i :| 0 <= i < |policies| && policies[i] == c;
      assert column[i] == field(c);
    }
    if merged.Some? {
      var i :| 0 <= i < |column| && column[i] == merged;
      assert policies[i] in policies;
    }
  }

  ghost predicate CarriesTerms(policies: seq<Candidate>, merged: Terms) {
    && Carries(policies, Start, merged.start)
    && Carries(policies, End, merged.end)
    && Carries(policies, Limit, merged.limit)
    && Carries(policies, AnnualRate, merged.annualRate)
    && Carries(policies, Discount, merged.discount)
    && Carries(policies, Coverage, merged.coverage)
    && Carries(policies, Fee, merged.fee)
    && Carries(policies, Grace, merged.grace)
    && Carries(policies, Maturity, merged.maturity)
  }

  lemma MergedTermsCarry(policies: seq<Candidate>)
    requires PairwiseEquivalent(policies)
    ensures CarriesTerms(policies, MergedTerms(policies))
  {
    forall a, b | a in policies && b in policies ensures CompatibleTerms(a.policy.terms, b.policy.terms) {
      assert Equivalent(a, b);
    }
    MergedColumnCarries(policies, Start);
    MergedColumnCarries(policies, End);
    MergedColumnCarries(policies, Limit);
    MergedColumnCarries(policies, AnnualRate);
    MergedColumnCarries(policies, Discount);
    MergedColumnCarries(policies, Coverage);
    MergedColumnCarries(policies, Fee);
    MergedColumnCarries(policies, Grace);
    MergedColumnCarries(policies, Maturity);
  }

  lemma {:induction false} OriginalsMembers(ordered: seq<Candidate>)
    ensures forall c :: c in Originals(ordered) <==> c in ordered && !IsRevision(c)
    ensures forall c :: c in Revisions(ordered) <==> c in ordered && IsRevision(c)
    ensures |Originals(ordered)| + |Revisions(ordered)| == |ordered|
  {
    if ordered != [] {
      OriginalsMembers(ordered[..|ordered| - 1]);
      assert ordered == ordered[..|ordered| - 1] + [ordered[|ordered| - 1]];
    }
  }

  /** The merged record of a formed group states exactly the terms that its original notices state. */
  lemma MergedRecordKeepsKnownTerms(candidates: seq<Candidate>, k: nat, hash: Material -> Key)
    requires k < |Groups(SortBy(ById, candidates))|
    requires var originals := Originals(SortBy(ByDateAndId, Groups(SortBy(ById, candidates))[k])); originals != []
    ensures var originals := Originals(SortBy(ByDateAndId, Groups(SortBy(ById, candidates))[k]));
      CarriesTerms(originals, Merged(originals, hash).terms)
  {
    var group := Groups(SortBy(ById, candidates))[k];
    var ordered := SortBy(ByDateAndId, group);
    var originals := Originals(ordered);
    GroupsInvariant(SortBy(ById, candidates));
    SortKeepsElements(ByDateAndId, group);
    OriginalsMembers(ordered);
    SortedCarries(originals);
  }

  lemma SortedCarries(originals: seq<Candidate>)
    requires PairwiseEquivalent(originals)
    ensures CarriesTerms(originals, MergedTerms(SortBy(ById, originals)))
  {
    var sorted := SortBy(ById, originals);
    SortKeepsElements(ById, originals);
    MergedTermsCarry(sorted);
  }

  // ---------- merge fingerprints ----------

  /** Two region lists that name the same regions list them in the same order. */
  ghost predicate RegionOrderFixed(candidates: seq<Candidate>) {
    forall a, b :: a in candidates && b in candidates && Elements(a.identity.regions) == Elements(b.identity.regions) ==>
      a.identity.regions == b.identity.regions
  }

  lemma PopulatedMember<T>(policies: seq<Candidate>, field: Candidate -> Option<T>, v: T)
    ensures v in Populated(Column(policies, field)) <==> exists c :: c in policies && field(c) == Some(v)
  {
    var column := Column(policies, field);
    if c :| c in policies && field(c) == Some(v) {
      var i :| 0 <= i < |policies| && policies[i] == c;
      assert column[i] == Some(v);
    }
    if v in Populated(column) {
      var i :| 0 <= i < |column| && column[i].Some? && column[i].value == v;
      assert policies[i] in policies;
    }
  }

  lemma PopulatedKeysMember(policies: seq<Candidate>, field: Candidate -> Key, v: Key)
    ensures v in PopulatedKeys(Column(policies, field)) <==> v != BLANK && exists c :: c in policies && field(c) == v
  {
    var column := Column(policies, field);
    if c :| c in policies && field(c) == v && v != BLANK {
      var i :| 0 <= i < |policies| && policies[i] == c;
      assert column[i] == v;
    }
    if v in PopulatedKeys(column) {
      var i :| 0 <= i < |column| && column[i] == v;
      assert policies[i] in policies;
    }
  }

  lemma UnionMember<T>(policies: seq<Candidate>, field: Candidate -> set<T>, v: T)
    ensures v in Union(Column(policies, field)) <==> exists c :: c in policies && v in field(c)
  {
    var column := Column(policies, field);
    if c :| c in policies && v in field(c) {
      var i :| 0 <= i < |policies| && policies[i] == c;
      assert column[i] == field(c);
    }
    if v in Union(column) {
      var i :| 0 <= i < |column| && v in column[i];
      assert policies[i] in policies;
    }
  }

  /** A value stated by `c` occurs in the other list, so whatever agrees with that list agrees with `c`. */
  lemma OptionalAcross<T>(mine: seq<Candidate>, theirs: seq<Candidate>, field: Candidate -> Option<T>, c: Candidate, m: Candidate)
    requires Populated(Column(mine, field)) == Populated(Column(theirs, field)) && c in mine
    requires forall d :: d in theirs ==> CompatibleOptional(field(d), field(m))
    ensures CompatibleOptional(field(c), field(m))
  {
    if field(c).Some? {
      PopulatedMember(mine, field, field(c).value);
      PopulatedMember(theirs, field, field(c).value);
    }
  }

  lemma KeyAcross(mine: seq<Candidate>, theirs: seq<Candidate>, field: Candidate -> Key, c: Candidate, m: Candidate)
    requires PopulatedKeys(Column(mine, field)) == PopulatedKeys(Column(theirs, field)) && c in mine && theirs != []
    requires forall d :: d in theirs ==> field(d) == field(m)
    requires forall d :: d in mine ==> field(d) == field(c)
    ensures field(c) == field(m)
  {
    PopulatedKeysMember(mine, field, field(c));
    PopulatedKeysMember(theirs, field, field(c));
    assert theirs[0] in theirs;
    PopulatedKeysMember(mine, field, field(m));
    PopulatedKeysMember(theirs, field, field(m));
  }

  /** Sets that agree wherever they are known: the union over a list is the one known set. */
  lemma SetAcross(mine: seq<Candidate>, theirs: seq<Candidate>, field: Candidate -> set<Key>, c: Candidate, m: Candidate)
    requires Union(Column(mine, field)) == Union(Column(theirs, field)) && c in mine
    requires forall d :: d in theirs ==> CompatibleSets(field(d), field(m))
    requires SetsAgree(mine, field) && SetsAgree(theirs, field)
    ensures CompatibleSets(field(c), field(m))
  {
    if field(c) != {} {
      var d := KnownSet(mine, theirs, field, c);
    }
  }

  lemma KnownSet(mine: seq<Candidate>, theirs: seq<Candidate>, field: Candidate -> set<Key>, c: Candidate) returns (d: Candidate)
    requires Union(Column(mine, field)) == Union(Column(theirs, field)) && c in mine && field(c) != {}
    requires SetsAgree(mine, field) && SetsAgree(theirs, field)
    ensures d in theirs && field(d) == field(c)
  {
    var v := AnyOf(field(c));
    UnionMember(mine, field, v);
    UnionMember(theirs, field, v);
    d :| d in theirs && v in field(d);
    forall w ensures w in field(c) <==> w in field(d) {
      UnionMember(mine, field, w);
      UnionMember(theirs, field, w);
    }
  }

  lemma ClassAcross(mine: seq<Candidate>, theirs: seq<Candidate>, c: Candidate, m: Candidate)
    requires Elements(Column(mine, StatusClassOf)) == Elements(Column(theirs, StatusClassOf))
    requires c in mine && forall d :: d in theirs ==> CompatibleClasses(ClassOf(d.policy), ClassOf(m.policy))
    ensures CompatibleClasses(ClassOf(c.policy), ClassOf(m.policy))
  {
    var f := StatusClassOf;
    var i :| 0 <= i < |mine| && mine[i] == c;
    assert Column(mine, f)[i] in Elements(Column(mine, f));
    var j :| 0 <= j < |theirs| && Column(theirs, f)[j] == ClassOf(c.policy);
    assert theirs[j] in theirs;
  }

  lemma EligibilityAcross(mine: seq<Candidate>, theirs: seq<Candidate>, c: Candidate, m: Candidate)
    requires Union(Column(mine, ConditionsOf)) == Union(Column(theirs, ConditionsOf))
    requires c in mine && forall d :: d in theirs ==> CompatibleEligibility(d.identity.eligibility, m.identity.eligibility)
    ensures CompatibleEligibility(c.identity.eligibility, m.identity.eligibility)
  {
    var f := ConditionsOf;
    var mineMap, other := c.identity.eligibility, m.identity.eligibility;
    forall k | k in mineMap.Keys * other.Keys ensures mineMap[k] == other[k] {
      var v := (k, mineMap[k]);
      assert v in f(c);
      UnionMember(mine, f, v);
      UnionMember(theirs, f, v);
      var d :| d in theirs && v in f(d);
      assert k in d.identity.eligibility.Keys * other.Keys;
    }
  }

  lemma RegionsAcross(all: seq<Candidate>, mine: seq<Candidate>, theirs: seq<Candidate>, c: Candidate, m: Candidate)
    requires Union(Column(mine, RegionSet)) == Union(Column(theirs, RegionSet))
    requires c in mine && RegionOrderFixed(all)
    requires (forall d :: d in mine ==> d in all) && (forall d :: d in theirs ==> d in all)
    requires forall d :: d in theirs ==> CompatibleRegions(d.identity.regions, m.identity.regions)
    requires forall d, e :: d in mine && e in mine ==> CompatibleRegions(d.identity.regions, e.identity.regions)
    requires forall d, e :: d in theirs && e in theirs ==> CompatibleRegions(d.identity.regions, e.identity.regions)
    ensures CompatibleRegions(c.identity.regions, m.identity.regions)
  {
    if c.identity.regions != [] {
      var f := RegionSet;
      assert c.identity.regions[0] in f(c);
      var d := KnownSet(mine, theirs, f, c);
      assert d.identity.regions == c.identity.regions;
    }
  }

  lemma NamesAcross(mine: seq<Candidate>, theirs: seq<Candidate>, c: Candidate, m: Candidate)
    requires MaterialOf(mine) == MaterialOf(theirs) && c in mine && theirs != []
    requires PairwiseEquivalent(mine) && forall d :: d in theirs ==> Equivalent(d, m)
    ensures Authority(c) == Authority(m) && Name(c) == Name(m) && TypeOf(c) == TypeOf(m)
  {
    forall d | d in mine ensures Authority(d) == Authority(c) && Name(d) == Name(c) && TypeOf(d) == TypeOf(c) {
      assert Equivalent(d, c);
    }
    KeyAcross(mine, theirs, Authority, c, m);
    KeyAcross(mine, theirs, Name, c, m);
    KeyAcross(mine, theirs, TypeOf, c, m);
  }

  ghost predicate SetsAgree(policies: seq<Candidate>, field: Candidate -> set<Key>) {
    forall d, e :: d in policies && e in policies ==> CompatibleSets(field(d), field(e))
  }

  lemma PairwiseSetsAgree(policies: seq<Candidate>)
    requires PairwiseEquivalent(policies)
    ensures SetsAgree(policies, Years) && SetsAgree(policies, Purposes)
    ensures SetsAgree(policies, Inclusions) && SetsAgree(policies, Exclusions)
    ensures forall d, e :: d in policies && e in policies ==> CompatibleRegions(d.identity.regions, e.identity.regions)
  {
    forall d, e | d in policies && e in policies
      ensures CompatibleSets(Years(d), Years(e)) && CompatibleSets(Purposes(d), Purposes(e))
      ensures CompatibleSets(Inclusions(d), Inclusions(e)) && CompatibleSets(Exclusions(d), Exclusions(e))
      ensures CompatibleRegions(d.identity.regions, e.identity.regions)
    {
      assert Equivalent(d, e);
    }
  }

  lemma SetsAcross(all: seq<Candidate>, mine: seq<Candidate>, theirs: seq<Candidate>, c: Candidate, m: Candidate)
    requires MaterialOf(mine) == MaterialOf(theirs) && c in mine
    requires PairwiseEquivalent(mine) && PairwiseEquivalent(theirs) && RegionOrderFixed(all)
    requires (forall d :: d in mine ==> d in all) && (forall d :: d in theirs ==> d in all)
    requires forall d :: d in theirs ==> Equivalent(d, m)
    ensures CompatibleSets(Years(c), Years(m)) && CompatibleSets(Purposes(c), Purposes(m))
    ensures CompatibleSets(Inclusions(c), Inclusions(m)) && CompatibleSets(Exclusions(c), Exclusions(m))
    ensures CompatibleRegions(c.identity.regions, m.identity.regions)
  {
    PairwiseSetsAgree(mine);
    PairwiseSetsAgree(theirs);
    SetAcross(mine, theirs, Years, c, m);
    SetAcross(mine, theirs, Purposes, c, m);
    SetAcross(mine, theirs, Inclusions, c, m);
    SetAcross(mine, theirs, Exclusions, c, m);
    RegionsAcross(all, mine, theirs, c, m);
  }

  /** If two sets of originals have the same fingerprint material, an original of one is equivalent to anything that
      is equivalent to all originals of the other. */
  lemma EqualMaterialFits(all: seq<Candidate>, mine: seq<Candidate>, theirs: seq<Candidate>, c: Candidate, m: Candidate)
    requires MaterialOf(mine) == MaterialOf(theirs) && c in mine && theirs != []
    requires PairwiseEquivalent(mine) && PairwiseEquivalent(theirs) && RegionOrderFixed(all)
    requires (forall d :: d in mine ==> d in all) && (forall d :: d in theirs ==> d in all)
    requires forall d :: d in theirs ==> Equivalent(d, m)
    ensures Equivalent(c, m)
  {
    NamesAcross(mine, theirs, c, m);
    SetsAcross(all, mine, theirs, c, m);
    ClassAcross(mine, theirs, c, m);
    EligibilityAcross(mine, theirs, c, m);
    TermsAcross(mine, theirs, c, m);
  }

  lemma TermsAcross(mine: seq<Candidate>, theirs: seq<Candidate>, c: Candidate, m: Candidate)
    requires MaterialOf(mine) == MaterialOf(theirs) && c in mine
    requires forall d :: d in theirs ==> CompatibleTerms(d.policy.terms, m.policy.terms)
    ensures CompatibleTerms(c.policy.terms, m.policy.terms)
  {
    OptionalAcross(mine, theirs, Start, c, m);
    OptionalAcross(mine, theirs, End, c, m);
    OptionalAcross(mine, theirs, Limit, c, m);
    OptionalAcross(mine, theirs, AnnualRate, c, m);
    OptionalAcross(mine, theirs, Discount, c, m);
    OptionalAcross(mine, theirs, Coverage, c, m);
    OptionalAcross(mine, theirs, Fee, c, m);
    OptionalAcross(mine, theirs, Grace, c, m);
    OptionalAcross(mine, theirs, Maturity, c, m);
  }

  function OriginalsOf(group: seq<Candidate>): seq<Candidate> {
    Originals(SortBy(ByDateAndId, group))
  }

  lemma OriginalsOfMembers(group: seq<Candidate>)
    ensures forall c :: c in OriginalsOf(group) <==> c in group && !IsRevision(c)
  {
    SortKeepsElements(ByDateAndId, group);
    OriginalsMembers(SortBy(ByDateAndId, group));
  }

  /** Two different groups never share the values of every field, provided that no two candidates list the same regions
      in different orders. */
  lemma MaterialsDiffer(candidates: seq<Candidate>, i: nat, j: nat)
    requires RegionOrderFixed(candidates)
    requires i < j < |Groups(SortBy(ById, candidates))|
    requires var groups := Groups(SortBy(ById, candidates)); OriginalsOf(groups[i]) != [] && OriginalsOf(groups[j]) != []
    ensures var groups := Groups(SortBy(ById, candidates));
      MaterialOf(OriginalsOf(groups[i])) != MaterialOf(OriginalsOf(groups[j]))
  {
    var ordered := SortBy(ById, candidates);
    var groups := Groups(ordered);
    var mine, theirs := OriginalsOf(groups[j]), OriginalsOf(groups[i]);
    GroupsInvariant(ordered);
    OriginalsOfMembers(groups[i]);
    OriginalsOfMembers(groups[j]);
    GroupMembersAreCandidates(candidates, i);
    GroupMembersAreCandidates(candidates, j);
    if MaterialOf(mine) == MaterialOf(theirs) {
      var c := mine[0];
      assert c in groups[j];
      forall m | m in groups[i] ensures Equivalent(c, m) {
        EqualMaterialFits(candidates, mine, theirs, c, m);
      }
      assert FitsGroup(c, groups[i]);
    }
  }

  lemma {:induction false} FlattenMember<T>(lists: seq<seq<T>>, x: T)
    ensures x in Flatten(lists) <==> exists k :: 0 <= k < |lists| && x in lists[k]
  {
    if lists != [] {
      FlattenMember(lists[..|lists| - 1], x);
      if k :| 0 <= k < |lists| - 1 && x in lists[k] {
        assert lists[..|lists| - 1][k] == lists[k];
      }
    }
  }

  lemma GroupMembersAreCandidates(candidates: seq<Candidate>, k: nat)
    requires k < |Groups(SortBy(ById, candidates))|
    ensures forall c :: c in Groups(SortBy(ById, candidates))[k] ==> c in candidates
  {
    var groups := Groups(SortBy(ById, candidates));
    GroupsArePairwiseEquivalent(candidates);
    forall c | c in groups[k] ensures c in candidates {
      FlattenMember(groups, c);
      assert c in multiset(Flatten(groups));
    }
  }
}
