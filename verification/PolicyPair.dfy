/** Two original notices of one id and content: exactly when the output depends on which of them arrives first. */
module PolicyPair {
  import opened Wrappers
  import opened Keys
  import opened Sorting
  import opened PolicyIdentity
  import opened PolicyReconciler
  import opened PolicyGroups
  import opened PolicyLineage
  import opened PolicyArrival
  import opened PolicyOrder

  // ---------- lists without repetitions ----------

  ghost predicate Comparable<T>(a: seq<T>, b: seq<T>) { a <= b || b <= a }

  function Add<T(==)>(kept: seq<T>, v: T): seq<T> { if v in kept then kept else kept + [v] }

  function Distinct<T(==)>(values: seq<T>): seq<T> {
    if values == [] then [] else Add(Distinct(values[..|values| - 1]), values[|values| - 1])
  }

  lemma {:induction false} OrderedUniqueIsDistinct(values: seq<Key>)
    ensures OrderedUnique(values) == Distinct(values)
  {
    if values != [] { OrderedUniqueIsDistinct(values[..|values| - 1]); }
  }

  lemma DistinctNext<T>(values: seq<T>, v: T)
    ensures Distinct(values + [v]) == Add(Distinct(values), v)
  {
    assert (values + [v])[..|values|] == values;
  }

  lemma {:induction false} DistinctMembers<T>(values: seq<T>)
    ensures forall v :: v in Distinct(values) <==> v in values
    ensures NoDuplicates(Distinct(values))
  {
    if values != [] {
      DistinctMembers(values[..|values| - 1]);
      assert values == values[..|values| - 1] + [values[|values| - 1]];
    }
  }

  lemma {:induction false} DistinctExtends<T>(a: seq<T>, b: seq<T>)
    ensures Distinct(a) <= Distinct(a + b)
  {
    if b == [] {
      assert a + b == a;
    } else {
      var init, v := b[..|b| - 1], b[|b| - 1];
      DistinctExtends(a, init);
      assert a + b == (a + init) + [v];
      DistinctNext(a + init, v);
    }
  }

  /** Nothing is added to a list that already holds everything. */
  lemma {:induction false} DistinctAbsorbs<T>(a: seq<T>, b: seq<T>)
    requires forall v :: v in b ==> v in a
    ensures Distinct(a + b) == Distinct(a)
  {
    if b == [] {
      assert a + b == a;
    } else {
      var init, v := b[..|b| - 1], b[|b| - 1];
      assert b == init + [v];
      DistinctAbsorbs(a, init);
      assert a + b == (a + init) + [v];
      DistinctNext(a + init, v);
      DistinctMembers(a);
    }
  }

  function Longer<T>(a: seq<T>, b: seq<T>): seq<T> { if |a| >= |b| then a else b }

  /** One more value on top of two lists of which one is the beginning of the other. */
  lemma AddToLonger<T>(a: seq<T>, b: seq<T>, v: T)
    requires NoDuplicates(a) && NoDuplicates(b) && Comparable(a, b) && Comparable(a, Add(b, v))
    ensures Add(Longer(a, b), v) == Longer(a, Add(b, v))
  {
    if v !in b {
      var c := b + [v];
      assert c[|b|] == v;
      if |b| < |a| {
        assert a[|b|] == v;
      }
    } else if |a| >= |b| {
      assert b <= a;
    }
  }

  lemma ComparablePrefix<T>(a: seq<T>, b: seq<T>, c: seq<T>)
    requires a <= c && b <= c
    ensures Comparable(a, b)
  {
  }

  lemma {:induction false} DistinctLonger<T>(a: seq<T>, b: seq<T>)
    requires Comparable(Distinct(a), Distinct(b))
    ensures Distinct(a + b) == Longer(Distinct(a), Distinct(b))
  {
    if b == [] {
      assert a + b == a;
    } else {
      var init, v := b[..|b| - 1], b[|b| - 1];
      assert b == init + [v];
      DistinctNext(init, v);
      assert Distinct(init) <= Distinct(b);
      assert Comparable(Distinct(a), Distinct(init));
      DistinctLonger(a, init);
      assert a + b == (a + init) + [v];
      DistinctNext(a + init, v);
      DistinctMembers(a);
      DistinctMembers(init);
      AddToLonger(Distinct(a), Distinct(init), v);
    }
  }

  /** Two lists have the same distinct values in both orders of concatenation exactly when the distinct values of one
      begin with those of the other. */
  lemma DistinctCommutesIff<T>(a: seq<T>, b: seq<T>)
    ensures Distinct(a + b) == Distinct(b + a) <==> Comparable(Distinct(a), Distinct(b))
  {
    if Distinct(a + b) == Distinct(b + a) {
      DistinctExtends(a, b);
      DistinctExtends(b, a);
      ComparablePrefix(Distinct(a), Distinct(b), Distinct(a + b));
    }
    if Comparable(Distinct(a), Distinct(b)) {
      DistinctLonger(a, b);
      DistinctLonger(b, a);
    }
  }

  // ---------- the evidence of two notices ----------

  /** What the evidence dictionary is keyed by. */
  function KeyOf(e: Evidence): Evidence { e.(evidenceId := 0) }

  function KeysOf(all: seq<Evidence>): (r: seq<Evidence>)
    ensures |r| == |all| && forall i :: 0 <= i < |r| ==> r[i] == KeyOf(all[i])
  {
    seq(|all|, i requires 0 <= i < |all| => KeyOf(all[i]))
  }

  lemma KeysConcat(a: seq<Evidence>, b: seq<Evidence>)
    ensures KeysOf(a + b) == KeysOf(a) + KeysOf(b)
  {
  }

  /** The last evidence id given for a key. */
  function LastId(all: seq<Evidence>, key: Evidence): Key {
    if all == [] then 0
    else if KeyOf(all[|all| - 1]) == key then all[|all| - 1].evidenceId
    else LastId(all[..|all| - 1], key)
  }

  lemma LastIdNext(all: seq<Evidence>, e: Evidence, key: Evidence)
    ensures LastId(all + [e], key) == if KeyOf(e) == key then e.evidenceId else LastId(all, key)
  {
    assert (all + [e])[..|all|] == all;
  }

  lemma KeysNext(all: seq<Evidence>, e: Evidence, key: Evidence)
    ensures key in KeysOf(all + [e]) <==> key in KeysOf(all) || key == KeyOf(e)
  {
    KeysConcat(all, [e]);
    assert KeysOf([e]) == [KeyOf(e)];
  }

  lemma {:induction false} LastIdConcat(a: seq<Evidence>, b: seq<Evidence>, key: Evidence)
    ensures LastId(a + b, key) == if key in KeysOf(b) then LastId(b, key) else LastId(a, key)
  {
    if b == [] {
      assert a + b == a;
    } else {
      var init, e := b[..|b| - 1], b[|b| - 1];
      assert b == init + [e];
      assert a + b == (a + init) + [e];
      LastIdConcat(a, init, key);
      LastIdNext(a + init, e, key);
      LastIdNext(init, e, key);
      KeysNext(init, e, key);
    }
  }

  lemma {:induction false} PutAt(kept: seq<Evidence>, e: Evidence, i: nat)
    requires i < |kept| && NoDuplicates(KeysOf(kept)) && KeyOf(kept[i]) == KeyOf(e)
    ensures PutEvidence(kept, e) == kept[i := e]
  {
    if i > 0 {
      assert KeysOf(kept)[0] != KeysOf(kept)[i];
      assert KeysOf(kept[1..]) == KeysOf(kept)[1..];
      PutAt(kept[1..], e, i - 1);
      assert kept == [kept[0]] + kept[1..];
    }
  }

  lemma {:induction false} PutNew(kept: seq<Evidence>, e: Evidence)
    requires KeyOf(e) !in KeysOf(kept)
    ensures PutEvidence(kept, e) == kept + [e]
  {
    if kept != [] {
      assert KeysOf(kept)[0] != KeyOf(e);
      assert KeysOf(kept[1..]) == KeysOf(kept)[1..];
      assert forall k :: k in KeysOf(kept[1..]) ==> k in KeysOf(kept);
      PutNew(kept[1..], e);
      assert kept == [kept[0]] + kept[1..];
    }
  }

  /** One item for each distinct key, in the order of first mention, with the id given last. */
  ghost predicate Listed(all: seq<Evidence>, kept: seq<Evidence>) {
    && KeysOf(kept) == Distinct(KeysOf(all))
    && forall i :: 0 <= i < |kept| ==> kept[i].evidenceId == LastId(all, KeyOf(kept[i]))
  }

  lemma ListedNext(init: seq<Evidence>, e: Evidence, kept: seq<Evidence>)
    requires Listed(init, kept)
    ensures Listed(init + [e], PutEvidence(kept, e))
  {
    var all, key := init + [e], KeyOf(e);
    assert all[..|init|] == init;
    KeysConcat(init, [e]);
    assert KeysOf([e]) == [key];
    DistinctNext(KeysOf(init), key);
    DistinctMembers(KeysOf(init));
    var keys := KeysOf(kept);
    if key in keys {
      var i :| 0 <= i < |keys| && keys[i] == key;
      PutAt(kept, e, i);
      var after := kept[i := e];
      assert KeysOf(after) == keys;
      forall j | 0 <= j < |after| ensures after[j].evidenceId == LastId(all, KeyOf(after[j])) {
        if j != i { assert keys[j] != keys[i]; }
      }
    } else {
      PutNew(kept, e);
      var after := kept + [e];
      assert KeysOf(after) == keys + [key];
      forall j | 0 <= j < |after| ensures after[j].evidenceId == LastId(all, KeyOf(after[j])) {
        if j < |kept| { assert keys[j] != key; }
      }
    }
  }

  lemma {:induction false} EvidenceListed(all: seq<Evidence>)
    ensures Listed(all, EvidenceBySource(all))
  {
    if all != [] {
      var init, e := all[..|all| - 1], all[|all| - 1];
      assert all == init + [e];
      EvidenceListed(init);
      ListedNext(init, e, EvidenceBySource(init));
    }
  }

  lemma ListedOnce(all: seq<Evidence>, other: seq<Evidence>, kept: seq<Evidence>, list: seq<Evidence>)
    requires Listed(all, kept) && Listed(other, list) && Distinct(KeysOf(all)) == Distinct(KeysOf(other))
    requires forall key :: key in Distinct(KeysOf(all)) ==> LastId(all, key) == LastId(other, key)
    ensures kept == list
  {
    forall i | 0 <= i < |kept| ensures kept[i] == list[i] {
      assert KeysOf(kept)[i] == KeysOf(list)[i];
      assert KeysOf(kept)[i] in Distinct(KeysOf(all));
    }
  }

  ghost predicate SameSharedIds(a: seq<Evidence>, b: seq<Evidence>) {
    forall key :: key in KeysOf(a) && key in KeysOf(b) ==> LastId(a, key) == LastId(b, key)
  }

  lemma EvidenceCommutes(a: seq<Evidence>, b: seq<Evidence>)
    requires Comparable(Distinct(KeysOf(a)), Distinct(KeysOf(b))) && SameSharedIds(a, b)
    ensures EvidenceBySource(a + b) == EvidenceBySource(b + a)
  {
    EvidenceListed(a + b);
    EvidenceListed(b + a);
    KeysConcat(a, b);
    KeysConcat(b, a);
    DistinctCommutesIff(KeysOf(a), KeysOf(b));
    DistinctMembers(KeysOf(a + b));
    forall key | key in Distinct(KeysOf(a + b)) ensures LastId(a + b, key) == LastId(b + a, key) {
      LastIdConcat(a, b, key);
      LastIdConcat(b, a, key);
    }
    ListedOnce(a + b, b + a, EvidenceBySource(a + b), EvidenceBySource(b + a));
  }

  lemma EvidenceTells(a: seq<Evidence>, b: seq<Evidence>)
    requires EvidenceBySource(a + b) == EvidenceBySource(b + a)
    ensures Comparable(Distinct(KeysOf(a)), Distinct(KeysOf(b))) && SameSharedIds(a, b)
  {
    EvidenceListed(a + b);
    EvidenceListed(b + a);
    KeysConcat(a, b);
    KeysConcat(b, a);
    DistinctCommutesIff(KeysOf(a), KeysOf(b));
    DistinctMembers(KeysOf(a + b));
    var kept := EvidenceBySource(a + b);
    forall key | key in KeysOf(a) && key in KeysOf(b) ensures LastId(a, key) == LastId(b, key) {
      assert key in KeysOf(a + b);
      assert key in KeysOf(kept);
      var i :| 0 <= i < |kept| && KeysOf(kept)[i] == key;
      LastIdConcat(a, b, key);
      LastIdConcat(b, a, key);
      assert kept[i].evidenceId == LastId(a + b, key) == LastId(b + a, key);
    }
  }

  // ---------- the merged record of two notices ----------

  ghost predicate SameNotice(x: Candidate, y: Candidate) { x.policy.id == y.policy.id && SameContent(x, y) }

  /** Neither notice is the stronger one. */
  ghost predicate Tied(x: Candidate, y: Candidate) { Stronger(x, y) && Stronger(y, x) }

  lemma PrimaryOfTwo(x: Candidate, y: Candidate)
    ensures Primary([x, y]) == if Stronger(x, y) then x else y
  {
    assert [x, y][1..] == [y] && [y][1..] == [];
    assert SortBy(Stronger, [y]) == [y];
  }

  lemma StrongerIsTotal(x: Candidate, y: Candidate)
    ensures Stronger(x, y) || Stronger(y, x)
  {
  }

  function FirstOf<T(==)>(a: Option<T>, b: Option<T>, ignored: set<T>): Option<T> {
    if a.Some? && a.value !in ignored then a else if b.Some? && b.value !in ignored then b else None
  }

  lemma FirstOfTwo<T>(a: Option<T>, b: Option<T>, ignored: set<T>)
    ensures FirstInformative([a, b], ignored) == FirstOf(a, b, ignored)
  {
    assert [a, b][1..] == [b] && [b][1..] == [];
    assert FirstInformative([b], ignored) == if b.Some? && b.value !in ignored then b else FirstInformative<T>([], ignored);
  }

  lemma FirstOfColumn<T>(x: Candidate, y: Candidate, field: Candidate -> Option<T>, ignored: set<T>)
    ensures FirstInformative(Column([x, y], field), ignored) == FirstOf(field(x), field(y), ignored)
  {
    assert Column([x, y], field) == [field(x), field(y)];
    FirstOfTwo(field(x), field(y), ignored);
  }

  lemma FlattenOfTwo<T>(x: Candidate, y: Candidate, field: Candidate -> seq<T>)
    ensures Flatten(Column([x, y], field)) == field(x) + field(y)
  {
    var column := Column([x, y], field);
    assert column == [field(x), field(y)] && column[..1] == [field(x)] && column[..1][..0] == [];
    assert Flatten(column[..1]) == [] + field(x);
  }

  function Spoken<T(==)>(a: Option<T>, ignored: set<T>): bool { a.Some? && a.value !in ignored }

  /** Both state something, and not the same. */
  ghost predicate Clash<T>(a: Option<T>, b: Option<T>, ignored: set<T>) {
    Spoken(a, ignored) && Spoken(b, ignored) && a != b
  }

  lemma FirstOfCommutesIff<T>(a: Option<T>, b: Option<T>, ignored: set<T>)
    ensures FirstOf(a, b, ignored) == FirstOf(b, a, ignored) <==> !Clash(a, b, ignored)
  {
  }

  const BUDGET_IGNORED: set<Key> := {BLANK, UNKNOWN, BUDGET_UNKNOWN}
  const STATUS_IGNORED: set<ApplicationStatus> := {StatusBlank, StatusUnknown, StatusUnconfirmed}

  function Or<T>(first: Option<T>, fallback: T): T { match first case Some(v) => v case None => fallback }

  /** A status that the primary notice supplies when nobody states one. */
  ghost predicate StatusAgrees<T>(a: T, b: T, ignored: set<T>, tied: bool) {
    a == b || (if a in ignored && b in ignored then !tied else a in ignored || b in ignored)
  }

  lemma StatusAgreesIff<T>(a: T, b: T, ignored: set<T>, first: T, second: T, tied: bool)
    requires if tied then first == a && second == b else first == second
    ensures Or(FirstOf(Some(a), Some(b), ignored), first) == Or(FirstOf(Some(b), Some(a), ignored), second)
      <==> StatusAgrees(a, b, ignored, tied)
  {
  }

  ghost predicate SameOrigin(p: Policy, q: Policy) {
    && p.wording == q.wording && p.extractorId == q.extractorId && p.noticeKind == q.noticeKind
    && p.supersedes == q.supersedes && p.conflictFields == q.conflictFields
  }

  /** The part of the merged record of two notices that their order can touch. */
  ghost predicate OrderedPart(m: Policy, x: Candidate, y: Candidate) {
    var p := (if Stronger(x, y) then x else y).policy;
    && SameOrigin(m, p)
    && m.evidence == EvidenceBySource(x.policy.evidence + y.policy.evidence)
    && m.repaymentMethod == FirstOf(x.policy.repaymentMethod, y.policy.repaymentMethod, {BLANK})
    && m.collateral == FirstOf(x.policy.collateral, y.policy.collateral, {})
    && m.budgetStatus == Or(FirstOf(Some(x.policy.budgetStatus), Some(y.policy.budgetStatus), BUDGET_IGNORED), p.budgetStatus)
    && m.applicationStatus
       == Or(FirstOf(Some(x.policy.applicationStatus), Some(y.policy.applicationStatus), STATUS_IGNORED), p.applicationStatus)
    && ListsJoined(m, x.policy, y.policy)
  }

  lemma MergedOrigin(x: Candidate, y: Candidate, hash: Material -> Key)
    ensures SameOrigin(Merged([x, y], hash), (if Stronger(x, y) then x else y).policy)
  {
    PrimaryOfTwo(x, y);
  }

  /** The lists that are joined without repetitions. */
  ghost predicate ListsJoined(m: Policy, p: Policy, q: Policy) {
    && m.purpose == OrderedUnique(p.purpose + q.purpose)
    && m.regionCodes == OrderedUnique(p.regionCodes + q.regionCodes)
    && m.inclusionsRaw == OrderedUnique(p.inclusionsRaw + q.inclusionsRaw)
    && m.exclusionsRaw == OrderedUnique(p.exclusionsRaw + q.exclusionsRaw)
    && m.conditions == OrderedUnique(p.conditions + q.conditions)
  }

  lemma MergedEvidence(x: Candidate, y: Candidate, hash: Material -> Key)
    ensures Merged([x, y], hash).evidence == EvidenceBySource(x.policy.evidence + y.policy.evidence)
  {
    FlattenOfTwo(x, y, EvidenceOf);
  }

  lemma MergedLists(x: Candidate, y: Candidate, hash: Material -> Key)
    requires SortBy(ById, [x, y]) == [x, y]
    ensures ListsJoined(Merged([x, y], hash), x.policy, y.policy)
  {
    FlattenOfTwo(x, y, PurposeOf);
    FlattenOfTwo(x, y, RegionCodes);
    FlattenOfTwo(x, y, InclusionsRaw);
    FlattenOfTwo(x, y, ExclusionsRaw);
    FlattenOfTwo(x, y, ConditionList);
  }

  lemma MergedTermsOfTwo(x: Candidate, y: Candidate, hash: Material -> Key)
    requires SortBy(ById, [x, y]) == [x, y]
    ensures var m := Merged([x, y], hash);
      && m.repaymentMethod == FirstOf(x.policy.repaymentMethod, y.policy.repaymentMethod, {BLANK})
      && m.collateral == FirstOf(x.policy.collateral, y.policy.collateral, {})
  {
    FirstOfColumn(x, y, RepaymentMethod, {BLANK});
    FirstOfColumn(x, y, Collateral, {});
  }

  lemma MergedStatuses(x: Candidate, y: Candidate, hash: Material -> Key)
    requires SortBy(ById, [x, y]) == [x, y]
    ensures var m, p := Merged([x, y], hash), (if Stronger(x, y) then x else y).policy;
      && m.budgetStatus == Or(FirstOf(Some(x.policy.budgetStatus), Some(y.policy.budgetStatus), BUDGET_IGNORED), p.budgetStatus)
      && m.applicationStatus
         == Or(FirstOf(Some(x.policy.applicationStatus), Some(y.policy.applicationStatus), STATUS_IGNORED), p.applicationStatus)
  {
    PrimaryOfTwo(x, y);
    FirstOfColumn(x, y, BudgetStatus, {BLANK, UNKNOWN, BUDGET_UNKNOWN});
    FirstOfColumn(x, y, ApplicationStatusOf, {StatusBlank, StatusUnknown, StatusUnconfirmed});
  }

  lemma MergedOfTwo(x: Candidate, y: Candidate, hash: Material -> Key)
    requires x.policy.id == y.policy.id
    ensures OrderedPart(Merged([x, y], hash), x, y)
  {
    SortOfTwo(ById, x, y);
    MergedOrigin(x, y, hash);
    MergedEvidence(x, y, hash);
    MergedLists(x, y, hash);
    MergedTermsOfTwo(x, y, hash);
    MergedStatuses(x, y, hash);
  }

  /** Of each pair of lists, the distinct values of one begin with those of the other. */
  ghost predicate ListsComparable(p: Policy, q: Policy) {
    && Comparable(Distinct(p.purpose), Distinct(q.purpose))
    && Comparable(Distinct(p.regionCodes), Distinct(q.regionCodes))
    && Comparable(Distinct(p.inclusionsRaw), Distinct(q.inclusionsRaw))
    && Comparable(Distinct(p.exclusionsRaw), Distinct(q.exclusionsRaw))
    && Comparable(Distinct(p.conditions), Distinct(q.conditions))
  }

  ghost predicate SameLists(m: Policy, n: Policy) {
    && m.purpose == n.purpose && m.regionCodes == n.regionCodes && m.inclusionsRaw == n.inclusionsRaw
    && m.exclusionsRaw == n.exclusionsRaw && m.conditions == n.conditions
  }

  lemma ListsCommuteIff(m: Policy, n: Policy, p: Policy, q: Policy)
    requires ListsJoined(m, p, q) && ListsJoined(n, q, p)
    ensures SameLists(m, n) <==> ListsComparable(p, q)
  {
    UniqueCommutesIff(p.purpose, q.purpose);
    UniqueCommutesIff(p.regionCodes, q.regionCodes);
    UniqueCommutesIff(p.inclusionsRaw, q.inclusionsRaw);
    UniqueCommutesIff(p.exclusionsRaw, q.exclusionsRaw);
    UniqueCommutesIff(p.conditions, q.conditions);
  }

  /** What two notices must agree on for their merged record not to depend on their order. */
  ghost predicate PairAgrees(x: Candidate, y: Candidate) {
    var p, q := x.policy, y.policy;
    && (Tied(x, y) ==> SameOrigin(p, q))
    && !Clash(p.repaymentMethod, q.repaymentMethod, {BLANK})
    && !Clash(p.collateral, q.collateral, {})
    && StatusAgrees(p.budgetStatus, q.budgetStatus, BUDGET_IGNORED, Tied(x, y))
    && StatusAgrees(p.applicationStatus, q.applicationStatus, STATUS_IGNORED, Tied(x, y))
    && ListsComparable(p, q)
    && Comparable(Distinct(KeysOf(p.evidence)), Distinct(KeysOf(q.evidence)))
    && SameSharedIds(p.evidence, q.evidence)
  }

  lemma UniqueCommutesIff(a: seq<Key>, b: seq<Key>)
    ensures OrderedUnique(a + b) == OrderedUnique(b + a) <==> Comparable(Distinct(a), Distinct(b))
  {
    OrderedUniqueIsDistinct(a + b);
    OrderedUniqueIsDistinct(b + a);
    DistinctCommutesIff(a, b);
  }

  lemma EvidenceCommutesIff(a: seq<Evidence>, b: seq<Evidence>)
    ensures EvidenceBySource(a + b) == EvidenceBySource(b + a) <==>
      Comparable(Distinct(KeysOf(a)), Distinct(KeysOf(b))) && SameSharedIds(a, b)
  {
    if EvidenceBySource(a + b) == EvidenceBySource(b + a) { EvidenceTells(a, b); }
    if Comparable(Distinct(KeysOf(a)), Distinct(KeysOf(b))) && SameSharedIds(a, b) { EvidenceCommutes(a, b); }
  }

  /** The fields of a record that the order can touch. */
  ghost predicate SameOrdered(m: Policy, n: Policy) {
    && SameOrigin(m, n) && m.evidence == n.evidence && m.repaymentMethod == n.repaymentMethod && m.collateral == n.collateral
    && m.budgetStatus == n.budgetStatus && m.applicationStatus == n.applicationStatus
    && SameLists(m, n)
  }

  lemma MergedEqual(m: Policy, n: Policy)
    requires SameCore(m, n) && m.mergeGroup == n.mergeGroup && m.mergedIds == n.mergedIds && m.recommendationCodes == n.recommendationCodes
    ensures m == n <==> SameOrdered(m, n)
  {
  }

  lemma MergedPairIff(x: Candidate, y: Candidate, hash: Material -> Key)
    requires SameNotice(x, y) && Equivalent(x, y)
    ensures Merged([x, y], hash) == Merged([y, x], hash) <==> PairAgrees(x, y)
  {
    PairEquivalent(x, y);
    MergedIgnoresOrder([x, y], [y, x], hash);
    var m, n := Merged([x, y], hash), Merged([y, x], hash);
    MergedEqual(m, n);
    MergedOfTwo(x, y, hash);
    MergedOfTwo(y, x, hash);
    OrderedPartIff(x, y, m, n);
  }

  lemma PairEquivalent(x: Candidate, y: Candidate)
    requires Equivalent(x, y)
    ensures PairwiseEquivalent([x, y]) && forall c :: c in [x, y] <==> c in [y, x]
  {
    EquivalenceIsReflexiveAndSymmetric(x, y);
    EquivalenceIsReflexiveAndSymmetric(y, x);
  }

  lemma OrderedPartIff(x: Candidate, y: Candidate, m: Policy, n: Policy)
    requires OrderedPart(m, x, y) && OrderedPart(n, y, x)
    ensures SameOrdered(m, n) <==> PairAgrees(x, y)
  {
    var p, q, tied := x.policy, y.policy, Tied(x, y);
    var first, second := (if Stronger(x, y) then p else q), (if Stronger(y, x) then q else p);
    StrongerIsTotal(x, y);
    StatusAgreesIff(p.budgetStatus, q.budgetStatus, BUDGET_IGNORED, first.budgetStatus, second.budgetStatus, tied);
    StatusAgreesIff(p.applicationStatus, q.applicationStatus, STATUS_IGNORED, first.applicationStatus, second.applicationStatus, tied);
    FirstOfCommutesIff(p.repaymentMethod, q.repaymentMethod, {BLANK});
    FirstOfCommutesIff(p.collateral, q.collateral, {});
    ListsCommuteIff(m, n, p, q);
    EvidenceCommutesIff(p.evidence, q.evidence);
  }

  // ---------- the output for two notices ----------

  lemma OneRecord(p: Policy, m: ConflictMap)
    ensures SortBy(PolicyById, MarkAll([p], m)) == [Mark(p, m)]
  {
    assert MarkAll([p], m) == [Mark(p, m)];
    assert [Mark(p, m)][1..] == [];
  }

  lemma TwoRecords(p: Policy, q: Policy, m: ConflictMap)
    requires p.id == q.id
    ensures SortBy(PolicyById, MarkAll([p, q], m)) == [Mark(p, m), Mark(q, m)]
  {
    assert MarkAll([p, q], m) == [Mark(p, m), Mark(q, m)];
    SortOfTwo(PolicyById, Mark(p, m), Mark(q, m));
  }

  lemma {:induction false} OriginalsOnly(ordered: seq<Candidate>)
    requires forall i :: 0 <= i < |ordered| ==> !IsRevision(ordered[i])
    ensures Originals(ordered) == ordered && Revisions(ordered) == []
  {
    if ordered != [] {
      var init, c := ordered[..|ordered| - 1], ordered[|ordered| - 1];
      OriginalsOnly(init);
      assert !IsRevision(c);
      assert init + [c] == ordered;
    }
  }

  lemma EmitsMerged(group: seq<Candidate>, hash: Material -> Key)
    requires group != [] && SortBy(ByDateAndId, group) == group && forall i :: 0 <= i < |group| ==> !IsRevision(group[i])
    ensures Emitted(group, hash) == [Merged(group, hash)]
  {
    OriginalsOnly(group);
  }

  lemma GroupOfTwo(x: Candidate, y: Candidate)
    ensures Groups([x, y]) == if Equivalent(y, x) then [[x, y]] else [[x], [y]]
  {
    assert [x, y] == ([] + [x]) + [y];
    assert Groups([]) == [];
    GroupsNext([], x);
    GroupsNext([] + [x], y);
    var one: seq<seq<Candidate>> := [[x]];
    assert x in [x] && [x] + [y] == [x, y] && one[0 := [x, y]] == [[x, y]];
    FirstFitIs(y, one, if Equivalent(y, x) then 0 else 1);
  }

  lemma EmittedOfOne(group: seq<Candidate>, hash: Material -> Key)
    ensures EmittedAll([group], hash) == Emitted(group, hash)
  {
    assert [group][..0] == [];
    assert EmittedAll([group], hash) == [] + Emitted(group, hash);
  }

  lemma EmittedOfTwo(g: seq<Candidate>, h: seq<Candidate>, hash: Material -> Key)
    ensures EmittedAll([g, h], hash) == Emitted(g, hash) + Emitted(h, hash)
  {
    assert [g, h][..1] == [g];
    EmittedOfOne(g, hash);
  }

  /** Two equivalent originals give one record. */
  lemma MergedOutput(x: Candidate, y: Candidate, hash: Material -> Key)
    requires SameNotice(x, y) && Equivalent(x, y) && !IsRevision(x) && !IsRevision(y)
    ensures ReconcilePolicies([x, y], hash) == [Mark(Merged([x, y], hash), ConflictMapOf([x, y]))]
  {
    SortOfTwo(ById, x, y);
    SortOfTwo(ByDateAndId, x, y);
    EquivalenceIsReflexiveAndSymmetric(x, y);
    GroupOfTwo(x, y);
    EmitsMerged([x, y], hash);
    EmittedOfOne([x, y], hash);
    OneRecord(Merged([x, y], hash), ConflictMapOf([x, y]));
  }

  lemma SortOfOne<T>(leq: (T, T) -> bool, x: T)
    ensures SortBy(leq, [x]) == [x]
  {
    assert [x][1..] == [];
  }

  lemma SingleRecord(x: Candidate, hash: Material -> Key)
    ensures Merged([x], hash).id == x.policy.id && Merged([x], hash).applicationStatus == x.policy.applicationStatus
  {
    SortOfOne(Stronger, x);
    SortOfOne(ById, x);
    assert Column([x], ApplicationStatusOf) == [Some(x.policy.applicationStatus)];
    FirstOfOne(Some(x.policy.applicationStatus), {StatusBlank, StatusUnknown, StatusUnconfirmed});
  }

  lemma FirstOfOne<T>(a: Option<T>, ignored: set<T>)
    ensures FirstInformative([a], ignored) == if Spoken(a, ignored) then a else None
  {
    assert [a][1..] == [];
  }

  lemma EmitsSingle(x: Candidate, hash: Material -> Key)
    requires !IsRevision(x)
    ensures Emitted([x], hash) == [Merged([x], hash)]
  {
    SortOfOne(ByDateAndId, x);
    EmitsMerged([x], hash);
  }

  lemma OneAfterOne<T>(a: seq<T>, b: seq<T>, x: T, y: T)
    requires a == [x] && b == [y]
    ensures a + b == [x, y]
  {
  }

  lemma SeparateEmitted(x: Candidate, y: Candidate, hash: Material -> Key)
    requires !IsRevision(x) && !IsRevision(y)
    ensures EmittedAll([[x], [y]], hash) == [Merged([x], hash), Merged([y], hash)]
  {
    EmitsSingle(x, hash);
    EmitsSingle(y, hash);
    EmittedOfTwo([x], [y], hash);
    OneAfterOne(Emitted([x], hash), Emitted([y], hash), Merged([x], hash), Merged([y], hash));
  }

  /** Two contradicting originals give a record each, in their order of arrival. */
  lemma SeparateOutput(x: Candidate, y: Candidate, hash: Material -> Key)
    requires x.policy.id == y.policy.id && !Equivalent(y, x) && !IsRevision(x) && !IsRevision(y)
    ensures ReconcilePolicies([x, y], hash)
      == [Mark(Merged([x], hash), ConflictMapOf([x, y])), Mark(Merged([y], hash), ConflictMapOf([x, y]))]
  {
    SortOfTwo(ById, x, y);
    GroupOfTwo(x, y);
    SeparateEmitted(x, y, hash);
    SingleRecord(x, hash);
    SingleRecord(y, hash);
    TwoRecords(Merged([x], hash), Merged([y], hash), ConflictMapOf([x, y]));
  }

  lemma FirstStatus(x: Candidate, y: Candidate, hash: Material -> Key)
    requires x.policy.id == y.policy.id && !Equivalent(y, x) && !IsRevision(x) && !IsRevision(y)
    ensures ReconcilePolicies([x, y], hash) != []
    ensures ReconcilePolicies([x, y], hash)[0].applicationStatus == x.policy.applicationStatus
  {
    SeparateOutput(x, y, hash);
    SingleRecord(x, hash);
    var p := Merged([x], hash);
    assert Mark(p, ConflictMapOf([x, y])).applicationStatus == p.applicationStatus;
  }

  lemma NoConflict(x: Candidate, y: Candidate, p: Policy)
    requires Equivalent(x, y) && x.policy.id == y.policy.id
    ensures Mark(p, ConflictMapOf([x, y])) == p
  {
    var m := ConflictMapOf([x, y]);
    SortOfTwo(ById, x, y);
    forall source, field ensures field !in Look(m, source) {
      ConflictsUpToLook([x, y], 2, source, field);
      if ConflictOn([x, y], 2, source, field) {
        ConflictIsDisputed([x, y], source, field);
        EquivalentIffNoMaterialConflict(x, y);
        ConflictsSymmetric(x, y);
        ConflictsSymmetric(y, y);
      }
    }
    forall field ensures field !in FieldsOf(m, p.sourceIds) { FieldsOfMember(m, p.sourceIds, field); }
  }

  lemma StatusesDiffer(x: Policy, y: Policy)
    requires !x.noticeKind.Termination? && !y.noticeKind.Termination? && !CompatibleClasses(ClassOf(x), ClassOf(y))
    ensures x.applicationStatus != y.applicationStatus
  {
  }

  lemma ContradictionDepends(x: Candidate, y: Candidate, hash: Material -> Key)
    requires SameNotice(x, y) && !Equivalent(x, y) && !IsRevision(x) && !IsRevision(y)
    ensures ReconcilePolicies([x, y], hash) != ReconcilePolicies([y, x], hash)
  {
    EquivalenceIsReflexiveAndSymmetric(x, y);
    ClassesDecide(x, y);
    StatusesDiffer(x.policy, y.policy);
    FirstStatus(x, y, hash);
    FirstStatus(y, x, hash);
  }

  /** The output for two originals of one id and content is independent of their order exactly when their statuses do not
      contradict each other and they agree on everything that the merge takes from one of them or lists in order. */
  lemma PairIgnoresOrderIff(x: Candidate, y: Candidate, hash: Material -> Key)
    requires SameNotice(x, y) && !IsRevision(x) && !IsRevision(y)
    ensures ReconcilePolicies([x, y], hash) == ReconcilePolicies([y, x], hash) <==>
      CompatibleClasses(ClassOf(x.policy), ClassOf(y.policy)) && PairAgrees(x, y)
  {
    ClassesDecide(x, y);
    EquivalenceIsReflexiveAndSymmetric(x, y);
    if Equivalent(x, y) {
      MergedOutput(x, y, hash);
      MergedOutput(y, x, hash);
      NoConflict(x, y, Merged([x, y], hash));
      NoConflict(y, x, Merged([y, x], hash));
      MergedPairIff(x, y, hash);
    } else {
      ContradictionDepends(x, y, hash);
    }
  }

  ghost predicate BudgetKnown(x: Candidate) { x.policy.budgetStatus !in BUDGET_IGNORED }

  /** Two originals of one id and content whose budgets are in different known states are enough: the record takes the
      state of the budget from whichever arrived first. */
  lemma BudgetDependsOnOrder(x: Candidate, y: Candidate, hash: Material -> Key)
    requires SameNotice(x, y) && !IsRevision(x) && !IsRevision(y)
    requires BudgetKnown(x) && BudgetKnown(y) && x.policy.budgetStatus != y.policy.budgetStatus
    ensures ReconcilePolicies([x, y], hash) != ReconcilePolicies([y, x], hash)
  {
    PairIgnoresOrderIff(x, y, hash);
  }
}
