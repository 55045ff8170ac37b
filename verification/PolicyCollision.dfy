/** When two groups of notices share a merge fingerprint. */
module PolicyCollision {
  import opened Wrappers
  import opened Keys
  import opened Sorting
  import opened PolicyIdentity
  import opened PolicyReconciler
  import opened PolicyGroups
  import opened PolicyFingerprint

  // ---------- groups never share a fingerprint while values are plain ----------

  /** Nothing that some of the candidates state is missing from what all of them state. */
  ghost predicate Within(m: Material, n: Material) {
    && m.authorities <= n.authorities && m.names <= n.names && m.types <= n.types && m.years <= n.years
    && m.regions <= n.regions && m.purposes <= n.purposes && m.inclusions <= n.inclusions && m.exclusions <= n.exclusions
    && m.classes <= n.classes && m.starts <= n.starts && m.ends <= n.ends && m.limits <= n.limits
    && m.annualRates <= n.annualRates && m.discounts <= n.discounts && m.coverages <= n.coverages && m.fees <= n.fees
    && m.collaterals <= n.collaterals && m.graces <= n.graces && m.maturities <= n.maturities && m.methods <= n.methods
    && m.conditions <= n.conditions
  }

  lemma WithinSeparatorFree(m: Material, n: Material, t: Printer)
    requires Within(m, n) && SeparatorFree(n, t)
    ensures SeparatorFree(m, t)
    ensures Amounts(m) <= Amounts(n)
  {
  }

  lemma PopulatedWithin<T>(some: seq<Candidate>, all: seq<Candidate>, field: Candidate -> Option<T>)
    requires forall c :: c in some ==> c in all
    ensures Populated(Column(some, field)) <= Populated(Column(all, field))
  {
    forall v | v in Populated(Column(some, field)) ensures v in Populated(Column(all, field)) {
      PopulatedMember(some, field, v);
      PopulatedMember(all, field, v);
    }
  }

  lemma KeysWithin(some: seq<Candidate>, all: seq<Candidate>, field: Candidate -> Key)
    requires forall c :: c in some ==> c in all
    ensures PopulatedKeys(Column(some, field)) <= PopulatedKeys(Column(all, field))
  {
    forall v | v in PopulatedKeys(Column(some, field)) ensures v in PopulatedKeys(Column(all, field)) {
      PopulatedKeysMember(some, field, v);
      PopulatedKeysMember(all, field, v);
    }
  }

  lemma UnionWithin<T>(some: seq<Candidate>, all: seq<Candidate>, field: Candidate -> set<T>)
    requires forall c :: c in some ==> c in all
    ensures Union(Column(some, field)) <= Union(Column(all, field))
  {
    forall v | v in Union(Column(some, field)) ensures v in Union(Column(all, field)) {
      UnionMember(some, field, v);
      UnionMember(all, field, v);
    }
  }

  lemma ClassesWithin(some: seq<Candidate>, all: seq<Candidate>)
    requires forall c :: c in some ==> c in all
    ensures Elements(Column(some, StatusClassOf)) <= Elements(Column(all, StatusClassOf))
  {
    var f := StatusClassOf;
    forall v | v in Elements(Column(some, f)) ensures v in Elements(Column(all, f)) {
      var i :| 0 <= i < |some| && Column(some, f)[i] == v;
      assert some[i] in all;
      var j :| 0 <= j < |all| && all[j] == some[i];
      assert Column(all, f)[j] == v;
    }
  }

  lemma MaterialWithin(some: seq<Candidate>, all: seq<Candidate>)
    requires forall c :: c in some ==> c in all
    ensures Within(MaterialOf(some), MaterialOf(all))
  {
    KeysWithin(some, all, Authority);
    KeysWithin(some, all, Name);
    KeysWithin(some, all, TypeOf);
    UnionWithin(some, all, Years);
    UnionWithin(some, all, RegionSet);
    UnionWithin(some, all, Purposes);
    UnionWithin(some, all, Inclusions);
    UnionWithin(some, all, Exclusions);
    ClassesWithin(some, all);
    TermsWithin(some, all);
    PopulatedWithin(some, all, Collateral);
    KeysWithin(some, all, MethodKey);
    UnionWithin(some, all, ConditionsOf);
  }

  lemma TermsWithin(some: seq<Candidate>, all: seq<Candidate>)
    requires forall c :: c in some ==> c in all
    ensures var m, n := MaterialOf(some), MaterialOf(all);
      && m.starts <= n.starts && m.ends <= n.ends && m.limits <= n.limits && m.annualRates <= n.annualRates
      && m.discounts <= n.discounts && m.coverages <= n.coverages && m.fees <= n.fees
      && m.graces <= n.graces && m.maturities <= n.maturities
  {
    PopulatedWithin(some, all, Start);
    PopulatedWithin(some, all, End);
    PopulatedWithin(some, all, Limit);
    PopulatedWithin(some, all, AnnualRate);
    PopulatedWithin(some, all, Discount);
    PopulatedWithin(some, all, Coverage);
    PopulatedWithin(some, all, Fee);
    PopulatedWithin(some, all, Grace);
    PopulatedWithin(some, all, Maturity);
  }

  /** The merge fingerprint of some originals, before hashing. */
  ghost function Fingerprint(originals: seq<Candidate>, t: Printer): string { FingerprintText(MaterialOf(originals), t) }

  /** Two different groups never share a merge fingerprint, provided that no stated value contains a separator and that
      no two candidates list the same regions in different orders. */
  lemma MergeFingerprintsDiffer(candidates: seq<Candidate>, i: nat, j: nat, t: Printer)
    requires Faithful(MaterialOf(candidates), MaterialOf(candidates), t) && SeparatorFree(MaterialOf(candidates), t)
    requires RegionOrderFixed(candidates)
    requires i < j < |Groups(SortBy(ById, candidates))|
    requires var groups := Groups(SortBy(ById, candidates)); OriginalsOf(groups[i]) != [] && OriginalsOf(groups[j]) != []
    ensures var groups := Groups(SortBy(ById, candidates));
      Fingerprint(OriginalsOf(groups[i]), t) != Fingerprint(OriginalsOf(groups[j]), t)
  {
    var groups := Groups(SortBy(ById, candidates));
    MaterialsDiffer(candidates, i, j);
    GroupMaterialPlain(candidates, i, t);
    GroupMaterialPlain(candidates, j, t);
    TextDeterminesMaterial(MaterialOf(OriginalsOf(groups[i])), MaterialOf(OriginalsOf(groups[j])), t);
  }

  lemma GroupMaterialPlain(candidates: seq<Candidate>, k: nat, t: Printer)
    requires SeparatorFree(MaterialOf(candidates), t) && k < |Groups(SortBy(ById, candidates))|
    ensures SeparatorFree(MaterialOf(OriginalsOf(Groups(SortBy(ById, candidates))[k])), t)
    ensures Amounts(MaterialOf(OriginalsOf(Groups(SortBy(ById, candidates))[k]))) <= Amounts(MaterialOf(candidates))
  {
    var group := Groups(SortBy(ById, candidates))[k];
    GroupMembersAreCandidates(candidates, k);
    OriginalsOfMembers(group);
    MaterialWithin(OriginalsOf(group), candidates);
    WithinSeparatorFree(MaterialOf(OriginalsOf(group)), MaterialOf(candidates), t);
  }

  // ---------- collisions of two originals ----------

  /** Two originals that end up in groups of their own although their fingerprints are the same. */
  ghost predicate Collide(a: Candidate, b: Candidate, t: Printer) {
    && !IsRevision(a) && !IsRevision(b)
    && Groups([a, b]) == [[a], [b]]
    && Fingerprint(OriginalsOf([a]), t) == Fingerprint(OriginalsOf([b]), t)
  }

  lemma GroupsOfTwo(a: Candidate, b: Candidate)
    ensures Groups([a, b]) == if Equivalent(b, a) then [[a, b]] else [[a], [b]]
  {
    assert [a, b][..1] == [a] && [a][..0] == [];
    assert Groups([a]) == [[a]];
    assert FitsGroup(b, [a]) <==> Equivalent(b, a) by { assert a in [a]; }
    assert Groups([a, b]) == PlaceInGroup(b, [[a]]);
    assert [a] + [b] == [a, b];
  }

  /** Two originals collide exactly when they are not equivalent and print the same. */
  lemma CollideIff(a: Candidate, b: Candidate, t: Printer)
    requires !IsRevision(a) && !IsRevision(b)
    ensures Collide(a, b, t) <==> !Equivalent(a, b) && Fingerprint([a], t) == Fingerprint([b], t)
  {
    GroupsOfTwo(a, b);
    EquivalenceIsReflexiveAndSymmetric(a, b);
    SingleOriginal(a);
    SingleOriginal(b);
  }

  ghost predicate Reordered(r: seq<Key>, s: seq<Key>) { r != s && Elements(r) == Elements(s) }

  /** There are only two ways to collide: the same values with reordered regions, or different values that are joined to
      one text. */
  lemma CollisionCauses(a: Candidate, b: Candidate, t: Printer)
    requires !IsRevision(a) && !IsRevision(b) && Fingerprint([a], t) == Fingerprint([b], t)
    ensures Collide(a, b, t) ==> Reordered(a.identity.regions, b.identity.regions) || MaterialOf([a]) != MaterialOf([b])
    ensures Reordered(a.identity.regions, b.identity.regions) ==> Collide(a, b, t)
  {
    CollideIff(a, b, t);
    if Reordered(a.identity.regions, b.identity.regions) {
      ReorderedDiffer(a, b);
    } else if MaterialOf([a]) == MaterialOf([b]) {
      SameMaterialEquivalent(a, b);
    }
  }

  lemma ReorderedDiffer(a: Candidate, b: Candidate)
    requires Reordered(a.identity.regions, b.identity.regions)
    ensures !Equivalent(a, b)
  {
    EmptyElements(a.identity.regions);
    EmptyElements(b.identity.regions);
    assert !CompatibleRegions(a.identity.regions, b.identity.regions);
  }

  lemma SameMaterialEquivalent(a: Candidate, b: Candidate)
    requires MaterialOf([a]) == MaterialOf([b]) && !Reordered(a.identity.regions, b.identity.regions)
    ensures Equivalent(a, b)
  {
    EquivalenceIsReflexiveAndSymmetric(a, b);
    EquivalenceIsReflexiveAndSymmetric(b, a);
    EqualMaterialFits([a, b], [a], [b], a, b);
  }

  lemma EmptyElements<T>(s: seq<T>)
    ensures Elements(s) == {} <==> s == []
  {
    if s != [] { assert s[0] in Elements(s); }
  }

  function Across(c: Candidate, regions: seq<Key>): Candidate { c.(identity := c.identity.(regions := regions)) }

  lemma ReorderedRegionsCollide(c: Candidate, r: seq<Key>, s: seq<Key>, t: Printer)
    requires !IsRevision(c) && Reordered(r, s)
    ensures Collide(Across(c, r), Across(c, s), t)
  {
    var a, b := Across(c, r), Across(c, s);
    SameMaterial(a, b);
    CollisionCauses(a, b, t);
  }

  /** Two notices that collide although no value contains a separator and different values print differently. */
  ghost predicate CollidePlainly(a: Candidate, b: Candidate, t: Printer) {
    && Faithful(MaterialOf([a]), MaterialOf([b]), t)
    && SeparatorFree(MaterialOf([a]), t) && SeparatorFree(MaterialOf([b]), t)
    && Collide(a, b, t)
  }

  lemma PlainCollisionReorders(a: Candidate, b: Candidate, t: Printer)
    requires CollidePlainly(a, b, t)
    ensures Reordered(a.identity.regions, b.identity.regions)
  {
    CollideIff(a, b, t);
    CollisionCauses(a, b, t);
    TextDeterminesMaterial(MaterialOf([a]), MaterialOf([b]), t);
  }

  lemma ReorderedPlainly(c: Candidate, r: seq<Key>, s: seq<Key>, t: Printer)
    requires !IsRevision(c) && Reordered(r, s)
    requires var m := MaterialOf([Across(c, r)]); Faithful(m, m, t) && SeparatorFree(m, t)
    ensures CollidePlainly(Across(c, r), Across(c, s), t)
  {
    SameMaterial(Across(c, r), Across(c, s));
    ReorderedRegionsCollide(c, r, s, t);
  }

  ghost predicate SomeCollide(r: seq<Key>, s: seq<Key>, t: Printer) {
    exists a, b :: CollidePlainly(a, b, t) && a.identity.regions == r && b.identity.regions == s
  }

  /** While no value contains a separator, region order is all that breaks it: two notices with given region lists can
      collide exactly when the lists name the same regions in different orders. */
  lemma CollisionIffRegionsReordered(c: Candidate, r: seq<Key>, s: seq<Key>, t: Printer)
    requires !IsRevision(c)
    requires var m := MaterialOf([Across(c, r)]); Faithful(m, m, t) && SeparatorFree(m, t)
    ensures SomeCollide(r, s, t) <==> Reordered(r, s)
  {
    if SomeCollide(r, s, t) {
      var a, b :| CollidePlainly(a, b, t) && a.identity.regions == r && b.identity.regions == s;
      PlainCollisionReorders(a, b, t);
    }
    if Reordered(r, s) {
      ReorderedPlainly(c, r, s, t);
      assert Across(c, r).identity.regions == r && Across(c, s).identity.regions == s;
    }
  }

  // ---------- collisions through a separator ----------

  lemma TwoTexts(x: string, y: string)
    requires LexLess(x, y)
    ensures Join(',', SortedTexts({x, y})) == x + [','] + y
  {
    LexIsTotal(x, y);
    SortedTextsSorts({x, y});
    AscendingUnique(SortedTexts({x, y}), [x, y]);
    assert Join(',', [x, y]) == x + [','] + Join(',', [y]);
  }

  lemma OneText(z: string)
    ensures Join(',', SortedTexts({z})) == z
  {
    LexIsTotal(z, z);
    SortedTextsSorts({z});
    AscendingUnique(SortedTexts({z}), [z]);
  }

  lemma JoinedValues(t: Printer, x: Key, y: Key, z: Key)
    requires LexLess(t.key(x), t.key(y)) && t.key(z) == t.key(x) + [','] + t.key(y)
    ensures JoinedColumn({x, y}, t.key) == JoinedColumn({z}, t.key)
  {
    TwoTexts(t.key(x), t.key(y));
    OneText(t.key(z));
    assert Printed({x, y}, t.key) == {t.key(x), t.key(y)} by { assert x in {x, y} && y in {x, y}; }
    assert Printed({z}, t.key) == {t.key(z)} by { assert z in {z}; }
  }

  function Including(c: Candidate, inclusions: set<Key>): Candidate { c.(identity := c.identity.(inclusions := inclusions)) }

  /** Separators break it as well: one industry whose name contains a comma prints like two industries, so two notices
      that differ in nothing else collide, whatever their regions are. */
  lemma CommaCollides(c: Candidate, x: Key, y: Key, z: Key, t: Printer)
    requires !IsRevision(c) && LexLess(t.key(x), t.key(y)) && t.key(z) == t.key(x) + [','] + t.key(y)
    ensures Collide(Including(c, {z}), Including(c, {x, y}), t)
  {
    var a, b := Including(c, {z}), Including(c, {x, y});
    assert |t.key(z)| > |t.key(x)|;
    assert x in {x, y} && x !in {z};
    DifferentInclusions(c, {z}, {x, y});
    JoinedValues(t, x, y, z);
    InclusionMaterial(c, {z});
    InclusionMaterial(c, {x, y});
    SamePrintedInclusions(MaterialOf([c]), {z}, {x, y}, t);
    CollideIff(a, b, t);
  }

  lemma DifferentInclusions(c: Candidate, some: set<Key>, others: set<Key>)
    requires some != others && some != {} && others != {}
    ensures !Equivalent(Including(c, some), Including(c, others))
  {
    assert !CompatibleSets(some, others);
  }

  lemma SamePrintedInclusions(m: Material, some: set<Key>, others: set<Key>, t: Printer)
    requires JoinedColumn(some, t.key) == JoinedColumn(others, t.key)
    ensures FingerprintText(m.(inclusions := some), t) == FingerprintText(m.(inclusions := others), t)
  {
    assert JoinedColumns(m.(inclusions := some), t) == JoinedColumns(m.(inclusions := others), t);
  }

  lemma InclusionMaterial(c: Candidate, inclusions: set<Key>)
    ensures MaterialOf([Including(c, inclusions)]) == MaterialOf([c]).(inclusions := inclusions)
  {
    var a := Including(c, inclusions);
    UnionSingle(a, Inclusions);
    SameOtherColumns(a, c);
    SameColumn(a, c, RegionSet);
  }

  lemma SingleOriginal(c: Candidate)
    requires !IsRevision(c)
    ensures OriginalsOf([c]) == [c]
  {
    assert [c][1..] == [];
    assert SortBy(ByDateAndId, [c]) == Insert(ByDateAndId, c, []) == [c];
    assert [c][..0] == [];
    assert Originals([c]) == Originals([]) + [c];
  }

  lemma UnionSingle<T>(c: Candidate, field: Candidate -> set<T>)
    ensures Union(Column([c], field)) == field(c)
  {
    var column := Column([c], field);
    assert column[0] == field(c);
    forall v ensures v in Union(column) <==> v in field(c) {
      UnionMember([c], field, v);
      assert c in [c];
      if d :| d in [c] && v in field(d) { assert d == c; }
    }
  }

  /** The columns that neither the regions nor the inclusions of a candidate enter. */
  lemma SameOtherColumns(a: Candidate, b: Candidate)
    requires a == b.(identity := b.identity.(regions := a.identity.regions, inclusions := a.identity.inclusions))
    ensures MaterialOf([a]) == MaterialOf([b]).(regions := MaterialOf([a]).regions, inclusions := MaterialOf([a]).inclusions)
  {
    SameColumn(a, b, Authority);
    SameColumn(a, b, Name);
    SameColumn(a, b, TypeOf);
    SameColumn(a, b, Years);
    SameColumn(a, b, Purposes);
    SameColumn(a, b, Exclusions);
    SameColumn(a, b, StatusClassOf);
    SameColumn(a, b, Start);
    SameColumn(a, b, End);
    SameColumn(a, b, Limit);
    SameColumn(a, b, AnnualRate);
    SameColumn(a, b, Discount);
    SameColumn(a, b, Coverage);
    SameColumn(a, b, Fee);
    SameColumn(a, b, Collateral);
    SameColumn(a, b, Grace);
    SameColumn(a, b, Maturity);
    SameColumn(a, b, MethodKey);
    SameColumn(a, b, ConditionsOf);
  }

  lemma SameMaterial(a: Candidate, b: Candidate)
    requires a == b.(identity := b.identity.(regions := a.identity.regions))
    requires Elements(a.identity.regions) == Elements(b.identity.regions)
    ensures MaterialOf([a]) == MaterialOf([b])
  {
    UnionSingle(a, RegionSet);
    UnionSingle(b, RegionSet);
    SameColumn(a, b, Inclusions);
    SameOtherColumns(a, b);
  }

  lemma SameColumn<T>(a: Candidate, b: Candidate, field: Candidate -> T)
    requires field(a) == field(b)
    ensures Column([a], field) == Column([b], field)
  {
  }
}
