/** What the reconciliation emits: record counts, sources, lineage and conflict marks. */
module PolicyLineage {
  import opened Wrappers
  import opened Keys
  import opened Sorting
  import opened PolicyIdentity
  import opened PolicyReconciler
  import opened PolicyGroups

  // ---------- one group ----------

  /** Each record after the first names the record before it as the one it supersedes. */
  ghost predicate Chain(records: seq<Policy>) {
    forall k :: 0 < k < |records| ==> records[k].supersedes == Some(records[k - 1].id)
  }

  /** The records of one group: its merged originals first, if it has any, then its revision notices by date, every
      one of them linked to the record before it. */
  ghost predicate GroupRecords(records: seq<Policy>, start: seq<Policy>, revisions: seq<Candidate>) {
    && |records| == |start| + |revisions|
    && start <= records
    && Chain(records)
    && forall k :: 0 <= k < |revisions| ==>
         var r, n := records[|start| + k], revisions[k].policy;
         && r.id == n.id && r.sourceIds == n.sourceIds && r.noticeKind == n.noticeKind && r.terms == n.terms
         && r.failureCodes == n.failureCodes
         && (|start| + k == 0 ==> r.supersedes == n.supersedes)
         && r.validationStatus == (if n.noticeKind.Termination? && n.failureCodes == {} then Closed else n.validationStatus)
  }

  lemma {:induction false} LinkAllRecords(start: seq<Policy>, revisions: seq<Candidate>)
    requires |start| <= 1
    ensures GroupRecords(LinkAll(start, revisions), start, revisions)
  {
    if revisions != [] {
      LinkAllRecords(start, revisions[..|revisions| - 1]);
    }
  }

  lemma EmittedRecords(group: seq<Candidate>, hash: Material -> Key)
    ensures var originals := OriginalsOf(group);
      GroupRecords(Emitted(group, hash), if originals == [] then [] else [Merged(originals, hash)], Revisions(SortBy(ByDateAndId, group)))
  {
    var originals := OriginalsOf(group);
    LinkAllRecords(if originals == [] then [] else [Merged(originals, hash)], Revisions(SortBy(ByDateAndId, group)));
  }

  /** A merged record counts as validated only if every original is, with the very same failure codes. */
  lemma MergedValidationIsUnanimous(originals: seq<Candidate>, hash: Material -> Key)
    requires originals != []
    ensures Merged(originals, hash).validationStatus.Validated? ==>
      forall c :: c in originals ==> c.policy.validationStatus.Validated? && c.policy.failureCodes == originals[0].policy.failureCodes
    ensures SourceConflict !in Merged(originals, hash).failureCodes ==>
      forall c, d :: c in originals && d in originals ==>
        c.policy.validationStatus == d.policy.validationStatus && c.policy.failureCodes == d.policy.failureCodes
  {
    SortPermutes(Stronger, originals);
    SortKeepsElements(Stronger, originals);
    var primary := Primary(originals);
    assert primary in originals;
    if !MixedValidation(originals) {
      forall c, d | c in originals && d in originals
        ensures c.policy.validationStatus == d.policy.validationStatus && c.policy.failureCodes == d.policy.failureCodes
      {
        var i :| 0 <= i < |originals| && originals[i] == c;
        var j :| 0 <= j < |originals| && originals[j] == d;
      }
      assert originals[0] in originals;
    }
  }

  // ---------- sources ----------

  ghost predicate HasSource(candidates: seq<Candidate>, source: Key) {
    exists c :: c in candidates && source in c.policy.sourceIds
  }

  ghost predicate RecordsHaveSource(records: seq<Policy>, source: Key) {
    exists r :: r in records && source in r.sourceIds
  }

  lemma MergedSources(originals: seq<Candidate>, hash: Material -> Key, source: Key)
    requires originals != []
    ensures source in Merged(originals, hash).sourceIds <==> HasSource(originals, source)
  {
    var lists := Column(originals, Sources);
    SortedDistinctSorts(Flatten(lists));
    FlattenMember(lists, source);
    if c :| c in originals && source in c.policy.sourceIds {
      var k :| 0 <= k < |originals| && originals[k] == c;
      assert source in lists[k];
    }
    if k :| 0 <= k < |lists| && source in lists[k] {
      assert originals[k] in originals;
    }
  }

  /** Where the sources of the emitted records come from: the merged originals and each notice itself. */
  lemma RecordSource(records: seq<Policy>, start: seq<Policy>, revisions: seq<Candidate>, source: Key)
    requires GroupRecords(records, start, revisions)
    ensures RecordsHaveSource(records, source) <==> RecordsHaveSource(start, source) || HasSource(revisions, source)
  {
    if r :| r in records && source in r.sourceIds {
      var k :| 0 <= k < |records| && records[k] == r;
      if k >= |start| {
        assert records[|start| + (k - |start|)].sourceIds == revisions[k - |start|].policy.sourceIds;
      } else {
        assert start[k] in start;
      }
    }
    if r :| r in start && source in r.sourceIds {
      assert r in records;
    }
    if c :| c in revisions && source in c.policy.sourceIds {
      var k :| 0 <= k < |revisions| && revisions[k] == c;
      assert records[|start| + k] in records;
    }
  }

  /** A group's records carry exactly the sources of its members. */
  lemma EmittedSources(group: seq<Candidate>, hash: Material -> Key, source: Key)
    ensures RecordsHaveSource(Emitted(group, hash), source) <==> HasSource(group, source)
  {
    var ordered := SortBy(ByDateAndId, group);
    var originals := Originals(ordered);
    var start := if originals == [] then [] else [Merged(originals, hash)];
    EmittedRecords(group, hash);
    RecordSource(Emitted(group, hash), start, Revisions(ordered), source);
    if originals != [] {
      MergedSources(originals, hash, source);
      assert RecordsHaveSource(start, source) <==> HasSource(originals, source) by {
        assert start[0] in start;
      }
    }
    MembersAreOriginalsAndRevisions(group, source);
  }

  lemma MembersAreOriginalsAndRevisions(group: seq<Candidate>, source: Key)
    ensures HasSource(group, source) <==>
      HasSource(OriginalsOf(group), source) || HasSource(Revisions(SortBy(ByDateAndId, group)), source)
  {
    SortKeepsElements(ByDateAndId, group);
    OriginalsMembers(SortBy(ByDateAndId, group));
  }

  lemma {:induction false} EmittedAllMember(groups: seq<seq<Candidate>>, hash: Material -> Key, r: Policy)
    ensures r in EmittedAll(groups, hash) <==> exists k :: 0 <= k < |groups| && r in Emitted(groups[k], hash)
  {
    if groups != [] {
      EmittedAllMember(groups[..|groups| - 1], hash, r);
      if k :| 0 <= k < |groups| - 1 && r in Emitted(groups[k], hash) {
        assert groups[..|groups| - 1][k] == groups[k];
      }
    }
  }

  lemma MarkKeepsSources(records: seq<Policy>, m: ConflictMap, source: Key)
    ensures RecordsHaveSource(SortBy(PolicyById, MarkAll(records, m)), source) <==> RecordsHaveSource(records, source)
  {
    var marked := MarkAll(records, m);
    SortKeepsElements(PolicyById, marked);
    if r :| r in records && source in r.sourceIds {
      var k :| 0 <= k < |records| && records[k] == r;
      assert marked[k] in marked;
    }
    if r :| r in marked && source in r.sourceIds {
      var k :| 0 <= k < |marked| && marked[k] == r;
      assert records[k] in records;
    }
  }

  /** No source id is lost and none is invented. */
  lemma ReconciliationKeepsSources(candidates: seq<Candidate>, hash: Material -> Key, source: Key)
    ensures RecordsHaveSource(ReconcilePolicies(candidates, hash), source) <==> HasSource(candidates, source)
  {
    var groups := Groups(SortBy(ById, candidates));
    var records := EmittedAll(groups, hash);
    var ordered := SortBy(ById, candidates);
    MarkKeepsSources(records, ConflictsUpTo(ordered, |ordered|), source);
    if HasSource(candidates, source) {
      var c :| c in candidates && source in c.policy.sourceIds;
      var k := GroupContaining(candidates, c);
      EmittedSources(groups[k], hash, source);
      var r :| r in Emitted(groups[k], hash) && source in r.sourceIds;
      EmittedAllMember(groups, hash, r);
    }
    if RecordsHaveSource(records, source) {
      var r :| r in records && source in r.sourceIds;
      EmittedAllMember(groups, hash, r);
      var k :| 0 <= k < |groups| && r in Emitted(groups[k], hash);
      EmittedSources(groups[k], hash, source);
      GroupMembersAreCandidates(candidates, k);
    }
  }

  lemma GroupContaining(candidates: seq<Candidate>, c: Candidate) returns (k: nat)
    requires c in candidates
    ensures k < |Groups(SortBy(ById, candidates))| && c in Groups(SortBy(ById, candidates))[k]
  {
    var groups := Groups(SortBy(ById, candidates));
    GroupsArePairwiseEquivalent(candidates);
    assert c in multiset(candidates);
    assert c in Flatten(groups);
    FlattenMember(groups, c);
    k :| 0 <= k < |groups| && c in groups[k];
  }

  // ---------- counts ----------

  /** The groups that contain at least one original notice. */
  function GroupsWithOriginals(groups: seq<seq<Candidate>>): nat {
    if groups == [] then 0
    else GroupsWithOriginals(groups[..|groups| - 1]) + if OriginalsOf(groups[|groups| - 1]) == [] then 0 else 1
  }

  lemma {:induction false} CountFlatten(groups: seq<seq<Candidate>>, hash: Material -> Key)
    ensures |EmittedAll(groups, hash)| == GroupsWithOriginals(groups) + CountIf(IsRevision, Flatten(groups))
  {
    if groups != [] {
      var group := groups[|groups| - 1];
      CountFlatten(groups[..|groups| - 1], hash);
      CountIfConcat(IsRevision, Flatten(groups[..|groups| - 1]), group);
      EmittedRecords(group, hash);
      RevisionsCount(SortBy(ByDateAndId, group));
      SortPermutes(ByDateAndId, group);
      CountIfPermutes(IsRevision, SortBy(ByDateAndId, group), group);
    }
  }

  lemma {:induction false} RevisionsCount(ordered: seq<Candidate>)
    ensures |Revisions(ordered)| == CountIf(IsRevision, ordered)
  {
    if ordered != [] { RevisionsCount(ordered[..|ordered| - 1]); }
  }

  /** One record for each group with originals, plus one for each correction or termination notice. */
  lemma ReconciliationCounts(candidates: seq<Candidate>, hash: Material -> Key)
    ensures |ReconcilePolicies(candidates, hash)|
      == GroupsWithOriginals(Groups(SortBy(ById, candidates))) + CountIf(IsRevision, candidates)
  {
    var ordered := SortBy(ById, candidates);
    var groups := Groups(ordered);
    GroupsArePairwiseEquivalent(candidates);
    CountFlatten(groups, hash);
    CountIfPermutes(IsRevision, Flatten(groups), candidates);
    SortPermutes(PolicyById, MarkAll(EmittedAll(groups, hash), ConflictsUpTo(ordered, |ordered|)));
  }

  // ---------- lineage of the final records ----------

  /** Some record of some group has the lineage of `r`. */
  ghost predicate HasLineage(r: Policy, groups: seq<seq<Candidate>>, hash: Material -> Key) {
    exists k, n :: 0 <= k < |groups| && 0 <= n < |Emitted(groups[k], hash)| && SameLineage(r, Emitted(groups[k], hash), n)
  }

  /** Marking leaves identity and lineage alone, so the final records are those of the groups, chain by chain. */
  lemma FinalRecordLineage(candidates: seq<Candidate>, hash: Material -> Key, r: Policy)
    requires r in ReconcilePolicies(candidates, hash)
    ensures HasLineage(r, Groups(SortBy(ById, candidates)), hash)
  {
    var ordered := SortBy(ById, candidates);
    var groups := Groups(ordered);
    MarkedLineage(EmittedAll(groups, hash), ConflictsUpTo(ordered, |ordered|), groups, hash, r);
  }

  lemma MarkedLineage(records: seq<Policy>, m: ConflictMap, groups: seq<seq<Candidate>>, hash: Material -> Key, r: Policy)
    requires records == EmittedAll(groups, hash) && r in SortBy(PolicyById, MarkAll(records, m))
    ensures HasLineage(r, groups, hash)
  {
    var marked := MarkAll(records, m);
    SortKeepsElements(PolicyById, marked);
    var i :| 0 <= i < |marked| && marked[i] == r;
    assert records[i] in records;
    EmittedAllMember(groups, hash, records[i]);
    var k :| 0 <= k < |groups| && records[i] in Emitted(groups[k], hash);
    RecordLineage(groups[k], hash, records[i], r, m);
    var n :| 0 <= n < |Emitted(groups[k], hash)| && SameLineage(r, Emitted(groups[k], hash), n);
    assert HasLineage(r, groups, hash);
  }

  lemma RecordLineage(group: seq<Candidate>, hash: Material -> Key, p: Policy, r: Policy, m: ConflictMap)
    requires p in Emitted(group, hash) && r == Mark(p, m)
    ensures exists n :: 0 <= n < |Emitted(group, hash)| && SameLineage(r, Emitted(group, hash), n)
  {
    var records := Emitted(group, hash);
    EmittedRecords(group, hash);
    var n :| 0 <= n < |records| && records[n] == p;
    assert SameLineage(r, records, n);
  }

  /** `r` is the `n`-th record of a chain, up to its conflict marks. */
  ghost predicate SameLineage(r: Policy, records: seq<Policy>, n: nat)
    requires n < |records|
  {
    && Chain(records)
    && r.id == records[n].id && r.sourceIds == records[n].sourceIds && r.terms == records[n].terms
    && r.supersedes == records[n].supersedes
    && (n > 0 ==> r.supersedes == Some(records[n - 1].id))
  }

  // ---------- conflicts ----------

  ghost predicate PairConflict(ordered: seq<Candidate>, i: nat, j: nat, source: Key, field: Field)
    requires i < |ordered| && j < |ordered|
  {
    && field in Conflicts(ordered[i], ordered[j])
    && (source in ordered[i].policy.sourceIds || source in ordered[j].policy.sourceIds)
  }

  lemma {:induction false} AddSourcesLook(m: ConflictMap, sources: seq<Key>, fields: set<Field>, source: Key)
    ensures Look(AddSources(m, sources, fields), source) == Look(m, source) + if source in sources then fields else {}
  {
    if sources != [] {
      AddSourcesLook(m, sources[..|sources| - 1], fields, source);
      assert sources == sources[..|sources| - 1] + [sources[|sources| - 1]];
    }
  }

  /** Candidate `i` conflicts with one of those after it and before `j`. */
  ghost predicate RowConflict(ordered: seq<Candidate>, i: nat, j: nat, source: Key, field: Field)
    requires i < j <= |ordered|
  {
    exists k :: i < k < j && PairConflict(ordered, i, k, source, field)
  }

  lemma AddPairLook(m: ConflictMap, left: Candidate, right: Candidate, source: Key, field: Field)
    ensures field in Look(AddPair(m, left, right), source) <==>
      || field in Look(m, source)
      || (field in Conflicts(left, right) && (source in left.policy.sourceIds || source in right.policy.sourceIds))
  {
    AddSourcesLook(m, left.policy.sourceIds + right.policy.sourceIds, Conflicts(left, right), source);
  }

  lemma {:induction false} AddRowLook(m: ConflictMap, ordered: seq<Candidate>, i: nat, j: nat, source: Key, field: Field)
    requires i < j <= |ordered|
    ensures field in Look(AddRow(m, ordered, i, j), source) <==> field in Look(m, source) || RowConflict(ordered, i, j, source, field)
    decreases j
  {
    if j > i + 1 {
      AddRowLook(m, ordered, i, j - 1, source, field);
      AddPairLook(AddRow(m, ordered, i, j - 1), ordered[i], ordered[j - 1], source, field);
      RowNext(ordered, i, j, source, field);
    }
  }

  lemma RowNext(ordered: seq<Candidate>, i: nat, j: nat, source: Key, field: Field)
    requires i + 1 < j <= |ordered|
    ensures RowConflict(ordered, i, j, source, field) <==>
      RowConflict(ordered, i, j - 1, source, field) || PairConflict(ordered, i, j - 1, source, field)
  {
  }

  /** One of the first `n` candidates conflicts with a later one. */
  ghost predicate ConflictOn(ordered: seq<Candidate>, n: nat, source: Key, field: Field)
    requires n <= |ordered|
  {
    exists i :: 0 <= i < n && RowConflict(ordered, i, |ordered|, source, field)
  }

  lemma {:induction false} ConflictsUpToLook(ordered: seq<Candidate>, n: nat, source: Key, field: Field)
    requires n <= |ordered|
    ensures field in Look(ConflictsUpTo(ordered, n), source) <==> ConflictOn(ordered, n, source, field)
  {
    if n > 0 {
      ConflictsUpToLook(ordered, n - 1, source, field);
      AddRowLook(ConflictsUpTo(ordered, n - 1), ordered, n - 1, |ordered|, source, field);
      ConflictNext(ordered, n, source, field);
    }
  }

  lemma ConflictNext(ordered: seq<Candidate>, n: nat, source: Key, field: Field)
    requires 0 < n <= |ordered|
    ensures ConflictOn(ordered, n, source, field) <==>
      ConflictOn(ordered, n - 1, source, field) || RowConflict(ordered, n - 1, |ordered|, source, field)
  {
  }

  lemma {:induction false} FieldsOfMember(m: ConflictMap, sources: seq<Key>, field: Field)
    ensures field in FieldsOf(m, sources) <==> exists s :: s in sources && field in Look(m, s)
  {
    if sources != [] {
      FieldsOfMember(m, sources[..|sources| - 1], field);
      assert sources == sources[..|sources| - 1] + [sources[|sources| - 1]];
    }
  }

  /** A record is marked on a field exactly when two candidates conflict on that field and one of them shares a source
      with the record; a marked record is never offered as validated. */
  lemma MarkedIffSharedSourceConflicts(candidates: seq<Candidate>, p: Policy, field: Field)
    ensures var ordered := SortBy(ById, candidates);
      var m := ConflictsUpTo(ordered, |ordered|);
      && (field in FieldsOf(m, p.sourceIds) <==>
            exists source :: source in p.sourceIds && ConflictOn(ordered, |ordered|, source, field))
      && (FieldsOf(m, p.sourceIds) != {} ==>
            Mark(p, m).validationStatus.Conflicted? && SourceConflict in Mark(p, m).failureCodes
            && Mark(p, m).conflictFields == FieldsOf(m, p.sourceIds))
      && (FieldsOf(m, p.sourceIds) == {} ==> Mark(p, m) == p)
  {
    var ordered := SortBy(ById, candidates);
    var m := ConflictsUpTo(ordered, |ordered|);
    FieldsOfMember(m, p.sourceIds, field);
    forall source ensures field in Look(m, source) <==> ConflictOn(ordered, |ordered|, source, field) {
      ConflictsUpToLook(ordered, |ordered|, source, field);
    }
  }
}
