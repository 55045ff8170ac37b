/** The whole output of the reconciliation: which records there are, in which order, and when they are marked. */
module PolicyOutput {
  import opened Wrappers
  import opened Keys
  import opened Sorting
  import opened PolicyIdentity
  import opened PolicyReconciler
  import opened PolicyGroups
  import opened PolicyLineage
  import opened PolicyOrder
  import opened PolicyFields
  import opened PolicyRecords

  // ---------- revision notices ----------

  predicate Revises(c: Candidate) { c.policy.noticeKind == Correction || c.policy.noticeKind == Termination }

  /** A notice is dated by its start, failing that by its end, and failing both by the first day there is. */
  predicate DatedAt(c: Candidate, day: int) {
    || c.policy.terms.start == Some(day)
    || (c.policy.terms.start.None? && c.policy.terms.end == Some(day))
    || (c.policy.terms.start.None? && c.policy.terms.end.None? && day == 1)
  }

  ghost predicate Precedes(a: Candidate, b: Candidate) {
    forall d, e :: DatedAt(a, d) && DatedAt(b, e) ==> d < e || (d == e && a.policy.id <= b.policy.id)
  }

  ghost predicate InOrder(s: seq<Candidate>) { forall i, j :: 0 <= i < j < |s| ==> Precedes(s[i], s[j]) }

  /** A revision notice is passed on as it is, but linked, and closed if it is a termination without failures. */
  predicate IsNotice(c: Candidate, r: Policy) {
    && r == c.policy.(supersedes := r.supersedes, validationStatus := r.validationStatus)
    && (c.policy.noticeKind == Termination && c.policy.failureCodes == {} ==> r.validationStatus == Closed)
    && (c.policy.noticeKind != Termination || c.policy.failureCodes != {} ==> r.validationStatus == c.policy.validationStatus)
  }

  /** The notices in their order, each behind the record before it. */
  ghost predicate Follow(start: seq<Policy>, notices: seq<Candidate>, records: seq<Policy>) {
    && |records| == |start| + |notices| && records[..|start|] == start
    && forall k :: 0 <= k < |notices| ==>
         && IsNotice(notices[k], records[|start| + k])
         && records[|start| + k].supersedes
            == if |start| + k == 0 then notices[k].policy.supersedes else Some(records[|start| + k - 1].id)
  }

  lemma {:induction false} LinkedFollow(start: seq<Policy>, notices: seq<Candidate>)
    ensures Follow(start, notices, LinkAll(start, notices))
  {
    if notices != [] {
      var init, last := notices[..|notices| - 1], notices[|notices| - 1];
      LinkedFollow(start, init);
      FollowNext(start, init, last, LinkAll(start, init));
      assert notices == init + [last];
    }
  }

  lemma FollowNext(start: seq<Policy>, init: seq<Candidate>, c: Candidate, before: seq<Policy>)
    requires Follow(start, init, before)
    ensures Follow(start, init + [c], before + [Linked(if before == [] then None else Some(before[|before| - 1]), c.policy)])
  {
    var r := Linked(if before == [] then None else Some(before[|before| - 1]), c.policy);
    assert IsNotice(c, r);
    assert (before + [r])[..|start|] == before[..|start|];
  }

  // ---------- the records of a group ----------

  /** One record that stands for the originals `o` of a group, if it has any, and its revision notices `n` behind it. */
  ghost predicate EmitsFor(o: seq<Candidate>, n: seq<Candidate>, hash: Material -> Key, records: seq<Policy>) {
    && (forall c :: c in o ==> !Revises(c)) && (forall c :: c in n ==> Revises(c)) && InOrder(o) && InOrder(n)
    && (o == [] ==> Follow([], n, records))
    && (o != [] ==> exists first :: StandsFor(o, hash, first) && Follow([first], n, records))
  }

  ghost predicate GroupEmits(group: seq<Candidate>, hash: Material -> Key, records: seq<Policy>) {
    exists o, n :: Permutes(o + n, group) && EmitsFor(o, n, hash, records)
  }

  lemma DatesDecide(a: Candidate, b: Candidate)
    ensures ByDateAndId(a, b) <==> Precedes(a, b)
  {
    assert DatedAt(a, DateOf(a)) && DatedAt(b, DateOf(b));
  }

  lemma ByDateAndIdIsTotal()
    ensures TotalPreorder(ByDateAndId)
  {
  }

  lemma SplitInOrder(ordered: seq<Candidate>)
    requires Sorted(ByDateAndId, ordered)
    ensures InOrder(Originals(ordered)) && InOrder(Revisions(ordered))
  {
    PartsSorted(ordered);
    var o, n := Originals(ordered), Revisions(ordered);
    forall i, j | 0 <= i < j < |o| ensures Precedes(o[i], o[j]) { DatesDecide(o[i], o[j]); }
    forall i, j | 0 <= i < j < |n| ensures Precedes(n[i], n[j]) { DatesDecide(n[i], n[j]); }
  }

  lemma AppendSorted(s: seq<Candidate>, c: Candidate)
    requires Sorted(ByDateAndId, s) && forall d :: d in s ==> ByDateAndId(d, c)
    ensures Sorted(ByDateAndId, s + [c])
  {
  }

  /** `o` and `n` are the originals and the revision notices of a list, each in order. */
  ghost predicate Parts(o: seq<Candidate>, n: seq<Candidate>, s: seq<Candidate>) {
    && Sorted(ByDateAndId, o) && Sorted(ByDateAndId, n) && Permutes(o + n, s)
    && (forall c :: c in o ==> c in s && !Revises(c)) && (forall c :: c in n ==> c in s && Revises(c))
  }

  lemma PartsNext(o: seq<Candidate>, n: seq<Candidate>, s: seq<Candidate>, c: Candidate)
    requires Parts(o, n, s) && forall d :: d in s ==> ByDateAndId(d, c)
    ensures if Revises(c) then Parts(o, n + [c], s + [c]) else Parts(o + [c], n, s + [c])
  {
    if Revises(c) {
      AppendSorted(n, c);
      assert o + (n + [c]) == (o + n) + [c];
    } else {
      AppendSorted(o, c);
      assert multiset((o + [c]) + n) == multiset((o + n) + [c]);
    }
  }

  lemma SplitNext(init: seq<Candidate>, last: Candidate)
    ensures Originals(init + [last]) == if Revises(last) then Originals(init) else Originals(init) + [last]
    ensures Revisions(init + [last]) == if Revises(last) then Revisions(init) + [last] else Revisions(init)
  {
    assert (init + [last])[..|init|] == init;
    assert Originals(init) + [] == Originals(init) && Revisions(init) + [] == Revisions(init);
  }

  lemma SplitPartsNext(init: seq<Candidate>, last: Candidate)
    requires Parts(Originals(init), Revisions(init), init) && forall d :: d in init ==> ByDateAndId(d, last)
    ensures Parts(Originals(init + [last]), Revisions(init + [last]), init + [last])
  {
    var o, n := Originals(init), Revisions(init);
    SplitNext(init, last);
    PartsNext(o, n, init, last);
  }

  lemma {:induction false} PartsSorted(ordered: seq<Candidate>)
    requires Sorted(ByDateAndId, ordered)
    ensures Parts(Originals(ordered), Revisions(ordered), ordered)
  {
    if ordered != [] {
      var init, last := ordered[..|ordered| - 1], ordered[|ordered| - 1];
      assert ordered == init + [last];
      PartsSorted(init);
      LastIsLatest(init, last, ordered);
      SplitPartsNext(init, last);
    }
  }

  lemma LastIsLatest(init: seq<Candidate>, last: Candidate, ordered: seq<Candidate>)
    requires ordered == init + [last] && Sorted(ByDateAndId, ordered)
    ensures forall d :: d in init ==> ByDateAndId(d, last)
  {
    forall d | d in init ensures ByDateAndId(d, last) {
      var i :| 0 <= i < |init| && init[i] == d;
      assert ordered[i] == d && ordered[|init|] == last;
    }
  }

  lemma EmittedIs(group: seq<Candidate>, hash: Material -> Key)
    ensures GroupEmits(group, hash, Emitted(group, hash))
  {
    var ordered := SortBy(ByDateAndId, group);
    ByDateAndIdIsTotal();
    SortSorts(ByDateAndId, group);
    SortPermutes(ByDateAndId, group);
    PartsSorted(ordered);
    SplitInOrder(ordered);
    var o, n := Originals(ordered), Revisions(ordered);
    if o == [] {
      LinkedFollow([], n);
      assert EmitsFor(o, n, hash, LinkAll([], n));
    } else {
      LinkedFollow([Merged(o, hash)], n);
      MergedStandsFor(o, hash);
      assert EmitsFor(o, n, hash, LinkAll([Merged(o, hash)], n));
    }
  }

  // ---------- marks ----------

  /** Two candidates of one name and authority contradict each other on the field, and one of them shares a source with the
      record. */
  ghost predicate Contested(candidates: seq<Candidate>, sources: seq<Key>, field: Field) {
    exists a, b, source ::
      && a in candidates && b in candidates && source in sources && (source in a.policy.sourceIds || source in b.policy.sourceIds)
      && a.identity.name == b.identity.name && a.identity.authority == b.identity.authority && OnField(a, b, field)
  }

  /** An uncontested record stays as it is; a contested one becomes a conflict on exactly its contested fields. */
  ghost predicate MarkedAs(candidates: seq<Candidate>, p: Policy, r: Policy) {
    if exists field :: Contested(candidates, p.sourceIds, field) then
      && r == p.(validationStatus := Conflicted, failureCodes := p.failureCodes + {SourceConflict},
                 recommendationCodes := p.recommendationCodes + {SourceConflict}, conflictFields := r.conflictFields)
      && forall field :: field in r.conflictFields <==> Contested(candidates, p.sourceIds, field)
    else r == p
  }

  lemma ContestedIff(candidates: seq<Candidate>, sources: seq<Key>, field: Field)
    ensures field in FieldsOf(ConflictMapOf(candidates), sources) <==> Contested(candidates, sources, field)
  {
    var ordered := SortBy(ById, candidates);
    SortKeepsElements(ById, candidates);
    FieldsOfMember(ConflictMapOf(candidates), sources, field);
    if source :| source in sources && field in Look(ConflictMapOf(candidates), source) {
      ConflictsUpToLook(ordered, |ordered|, source, field);
      ConflictIsDisputed(ordered, source, field);
      var a, b :| a in ordered && b in ordered && Disputed(a, b, source, field);
      ConflictIff(a, b, field);
    }
    if Contested(candidates, sources, field) {
      var a, b, source :| a in candidates && b in candidates && source in sources
        && (source in a.policy.sourceIds || source in b.policy.sourceIds)
        && a.identity.name == b.identity.name && a.identity.authority == b.identity.authority && OnField(a, b, field);
      ConflictIff(a, b, field);
      assert Disputed(a, b, source, field);
      DisputeIsConflict(ordered, source, field);
      ConflictsUpToLook(ordered, |ordered|, source, field);
    }
  }

  lemma MarkIs(candidates: seq<Candidate>, p: Policy)
    ensures MarkedAs(candidates, p, Mark(p, ConflictMapOf(candidates)))
  {
    var fields := FieldsOf(ConflictMapOf(candidates), p.sourceIds);
    forall field ensures field in fields <==> Contested(candidates, p.sourceIds, field) { ContestedIff(candidates, p.sourceIds, field); }
    if fields != {} { var field := AnyOf(fields); }
  }

  // ---------- the output ----------

  /** Each group emits its list of records. */
  ghost predicate AllEmit(groups: seq<seq<Candidate>>, hash: Material -> Key, lists: seq<seq<Policy>>) {
    |lists| == |groups| && forall k :: 0 <= k < |groups| ==> GroupEmits(groups[k], hash, lists[k])
  }

  lemma AllEmitNext(groups: seq<seq<Candidate>>, hash: Material -> Key, lists: seq<seq<Policy>>, group: seq<Candidate>, records: seq<Policy>)
    requires AllEmit(groups, hash, lists) && GroupEmits(group, hash, records)
    ensures AllEmit(groups + [group], hash, lists + [records])
  {
  }

  lemma {:induction false} EmittedGroups(groups: seq<seq<Candidate>>, hash: Material -> Key) returns (lists: seq<seq<Policy>>)
    ensures AllEmit(groups, hash, lists) && Flatten(lists) == EmittedAll(groups, hash)
  {
    lists := [];
    if groups != [] {
      var init, last := groups[..|groups| - 1], groups[|groups| - 1];
      var before := EmittedGroups(init, hash);
      EmittedIs(last, hash);
      AllEmitNext(init, hash, before, last, Emitted(last, hash));
      lists := before + [Emitted(last, hash)];
      FlattenNext(before, Emitted(last, hash));
      assert groups == init + [last];
    }
  }

  lemma FlattenNext<T>(lists: seq<seq<T>>, list: seq<T>)
    ensures Flatten(lists + [list]) == Flatten(lists) + list
  {
    assert (lists + [list])[..|lists|] == lists;
  }

  /** The candidates fall into groups that may be merged, each separated from the groups before it; each group emits its
      records; the output is these records, marked where they are contested, in the order of their ids. */
  lemma OutputOf(candidates: seq<Candidate>, hash: Material -> Key)
    returns (groups: seq<seq<Candidate>>, lists: seq<seq<Policy>>, marked: seq<Policy>)
    ensures Permutes(Flatten(groups), candidates) && AllPairwiseEquivalent(groups) && Separated(groups)
    ensures AllEmit(groups, hash, lists)
    ensures |marked| == |Flatten(lists)| && forall i :: 0 <= i < |marked| ==> MarkedAs(candidates, Flatten(lists)[i], marked[i])
    ensures Permutes(ReconcilePolicies(candidates, hash), marked)
    ensures forall i, j :: 0 <= i < j < |marked| ==>
      |ReconcilePolicies(candidates, hash)| == |marked|
      && ReconcilePolicies(candidates, hash)[i].id <= ReconcilePolicies(candidates, hash)[j].id
  {
    groups := Groups(SortBy(ById, candidates));
    GroupsArePairwiseEquivalent(candidates);
    GroupsInvariant(SortBy(ById, candidates));
    lists := EmittedGroups(groups, hash);
    marked := MarkAll(Flatten(lists), ConflictMapOf(candidates));
    forall i | 0 <= i < |marked| ensures MarkedAs(candidates, Flatten(lists)[i], marked[i]) { MarkIs(candidates, Flatten(lists)[i]); }
    assert TotalPreorder(PolicyById);
    SortSorts(PolicyById, marked);
    SortPermutes(PolicyById, marked);
  }

  /** Every record comes from a group of candidates: it stands for all its originals, or is one of its revision notices. */
  ghost predicate ComesFrom(candidates: seq<Candidate>, hash: Material -> Key, p: Policy) {
    || (exists c :: c in candidates && Revises(c) && IsNotice(c, p))
    || (exists o :: IsGroupOf(candidates, o) && StandsFor(o, hash, p))
  }

  ghost predicate IsGroupOf(candidates: seq<Candidate>, o: seq<Candidate>) {
    o != [] && PairwiseEquivalent(o) && forall c :: c in o ==> c in candidates && !Revises(c)
  }

  lemma NoticeAt(start: seq<Policy>, n: seq<Candidate>, records: seq<Policy>, k: nat)
    requires Follow(start, n, records) && |start| <= k < |records|
    ensures n[k - |start|] in n && IsNotice(n[k - |start|], records[k])
  {
    var j := k - |start|;
    assert IsNotice(n[j], records[|start| + j]);
  }

  lemma NoticeOf(o: seq<Candidate>, n: seq<Candidate>, hash: Material -> Key, records: seq<Policy>, p: Policy)
    requires EmitsFor(o, n, hash, records) && p in records
    ensures (o != [] && StandsFor(o, hash, p)) || exists c :: c in n && IsNotice(c, p)
  {
    var k :| 0 <= k < |records| && records[k] == p;
    if o == [] {
      NoticeAt([], n, records, k);
    } else {
      var first :| StandsFor(o, hash, first) && Follow([first], n, records);
      if k > 0 {
        NoticeAt([first], n, records, k);
      } else {
        assert records[0] == records[..1][0] == first;
      }
    }
  }

  lemma RecordOfGroup(candidates: seq<Candidate>, group: seq<Candidate>, hash: Material -> Key, records: seq<Policy>, p: Policy)
    requires PairwiseEquivalent(group) && (forall c :: c in group ==> c in candidates)
    requires GroupEmits(group, hash, records) && p in records
    ensures ComesFrom(candidates, hash, p)
  {
    var o, n :| Permutes(o + n, group) && EmitsFor(o, n, hash, records);
    SameMembers(o + n, group);
    assert forall c :: c in o ==> c in o + n;
    assert forall c :: c in n ==> c in o + n;
    NoticeOf(o, n, hash, records, p);
    if c :| c in n && IsNotice(c, p) {
      assert c in candidates && Revises(c);
    } else {
      assert IsGroupOf(candidates, o);
    }
  }

  /** A record that no conflict marks is a revision notice, or has the status and the codes of the originals it stands for. */
  lemma UnmarkedRecord(candidates: seq<Candidate>, hash: Material -> Key, r: Policy)
    requires r in ReconcilePolicies(candidates, hash)
    requires forall field :: !Contested(candidates, r.sourceIds, field)
    ensures ComesFrom(candidates, hash, r)
  {
    var groups := Groups(SortBy(ById, candidates));
    var records := EmittedAll(groups, hash);
    var marked := MarkAll(records, ConflictMapOf(candidates));
    SortKeepsElements(PolicyById, marked);
    var i :| 0 <= i < |marked| && marked[i] == r;
    MarkIs(candidates, records[i]);
    assert records[i].sourceIds == r.sourceIds;
    assert r == records[i] && records[i] in records;
    EmittedAllMember(groups, hash, r);
    var k :| 0 <= k < |groups| && r in Emitted(groups[k], hash);
    GroupsArePairwiseEquivalent(candidates);
    GroupMembersAreCandidates(candidates, k);
    EmittedIs(groups[k], hash);
    RecordOfGroup(candidates, groups[k], hash, Emitted(groups[k], hash), r);
  }

  /** So its status is that of its notice, closed for a clean termination, or the one opinion of its originals, or what their
      disagreement makes of it. */
  lemma UnmarkedStatus(candidates: seq<Candidate>, hash: Material -> Key, r: Policy)
    requires r in ReconcilePolicies(candidates, hash)
    requires forall field :: !Contested(candidates, r.sourceIds, field)
    ensures
      || (exists c :: c in candidates && Revises(c) && r.id == c.policy.id && r.failureCodes == c.policy.failureCodes
            && r.validationStatus == if c.policy.noticeKind == Termination && c.policy.failureCodes == {} then Closed else c.policy.validationStatus)
      || (exists o :: IsGroupOf(candidates, o) && StatusIs(o, r.validationStatus) && CodesAre(o, r))
  {
    UnmarkedRecord(candidates, hash, r);
    if o :| IsGroupOf(candidates, o) && StandsFor(o, hash, r) {
      assert StatusIs(o, r.validationStatus) && CodesAre(o, r);
    }
  }
}
