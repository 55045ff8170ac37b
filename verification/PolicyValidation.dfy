/** Binding policy evidence to stored documents
    (`validate_policy_candidate` in backend/src/validation/policy_validator.py). */
module PolicyValidation {
  import opened Wrappers
  import opened Keys
  import opened Sorting

  datatype EvidenceRef = EvidenceRef(sourceId: Key, revisionId: Key, quote: string, start: int, end: int, fieldPaths: seq<Key>)

  datatype Document = Document(revisionId: Key, body: string, accessible: bool, flagged: bool, untrusted: bool)

  datatype Code =
    | SourceMissing | SourceSetMismatch | SourceUnavailable | SourceSecurityRejected | SourceUntrusted
    | EvidenceSourceMissing | RevisionMismatch | QuoteNotFound | OffsetAmbiguous
    | SemanticCode(text: Key)

  datatype RecommendationCode = PolicyClosed | PolicyBudgetExhausted | PolicyNotYetOpen | PolicyStatusUnconfirmed | PolicyBudgetUnknown

  datatype Note = RevisionRebound | OffsetRepaired | FallbackUsed | NumericNormalized(text: Key) | OtherNote(text: Key)

  datatype Budget = BudgetSpent | BudgetUnknown | OtherBudget

  datatype ApplicationStatus = AppClosed | AppUnconfirmed | AppBudgetExhausted | AppScheduled | AppOpen | AppOther

  datatype ValidationStatus = Extracted | Rejected | Closed | PartiallyValidated | Validated

  /** What the semantic assessment reads of the evidence: quotes and field paths, never offsets or revisions. */
  datatype Quoted = Quoted(quote: string, fieldPaths: seq<Key>)

  datatype Assessment = Assessment(codes: set<Key>, explicitlyClosed: bool, numericNotes: set<Key>)

  datatype Policy = Policy(
    sourceIds: seq<Key>,
    evidence: seq<EvidenceRef>,
    termination: bool,
    start: Option<int>,
    end: Option<int>,
    budget: Budget,
    applicationStatus: ApplicationStatus,
    validationStatus: ValidationStatus,
    failureCodes: set<Code>,
    recommendationCodes: set<RecommendationCode>,
    notes: set<Note>)

  // ---------- searching a quote ----------

  predicate Occurs(body: string, quote: string, i: int) {
    0 <= i && i + |quote| <= |body| && body[i..i + |quote|] == quote
  }

  /** The first occurrence at or after `from`, or -1. */
  function Find(body: string, quote: string, from: nat): (r: int)
    ensures r >= 0 ==> r >= from && Occurs(body, quote, r) && forall i :: from <= i < r ==> !Occurs(body, quote, i)
    ensures r < 0 ==> r == -1 && forall i :: i >= from ==> !Occurs(body, quote, i)
    decreases |body| - from
  {
    if from + |quote| > |body| then -1
    else if Occurs(body, quote, from) then from
    else Find(body, quote, from + 1)
  }

  predicate UniqueQuote(body: string, quote: string) {
    quote != "" && Find(body, quote, 0) >= 0 && Find(body, quote, Find(body, quote, 0) + 1) < 0
  }

  predicate OffsetsMatch(e: EvidenceRef, body: string) {
    0 <= e.start < e.end <= |body| && body[e.start..e.end] == e.quote
  }

  // ---------- one evidence item ----------

  datatype Binding = Binding(evidence: EvidenceRef, codes: set<Code>, notes: set<Note>)

  function BindRevision(e: EvidenceRef, d: Document): Binding {
    if e.revisionId == d.revisionId then Binding(e, {}, {})
    else if UniqueQuote(d.body, e.quote) then Binding(e.(revisionId := d.revisionId), {}, {RevisionRebound})
    else Binding(e, {RevisionMismatch}, {})
  }

  function BindOffsets(e: EvidenceRef, d: Document): Binding {
    var first := Find(d.body, e.quote, 0);
    if OffsetsMatch(e, d.body) then Binding(e, {}, {})
    else if UniqueQuote(d.body, e.quote) then Binding(e.(start := first, end := first + |e.quote|), {}, {OffsetRepaired})
    else if first < 0 then Binding(e, {QuoteNotFound}, {})
    else Binding(e, {OffsetAmbiguous}, {})
  }

  function Related(sourceIds: seq<Key>, documents: map<Key, Document>): map<Key, Document> {
    map s | s in sourceIds && s in documents :: documents[s]
  }

  function Bind(e: EvidenceRef, related: map<Key, Document>): Binding {
    if e.sourceId !in related then Binding(e, {EvidenceSourceMissing}, {})
    else
      var d := related[e.sourceId];
      var revision := BindRevision(e, d);
      var offsets := BindOffsets(revision.evidence, d);
      Binding(offsets.evidence, revision.codes + offsets.codes, revision.notes + offsets.notes)
  }

  function BindAll(evidence: seq<EvidenceRef>, related: map<Key, Document>): (r: (seq<EvidenceRef>, set<Code>, set<Note>))
    ensures |r.0| == |evidence|
    ensures forall i :: 0 <= i < |evidence| ==> r.0[i] == Bind(evidence[i], related).evidence
  {
    if evidence == [] then ([], {}, {})
    else
      var (before, codes, notes) := BindAll(evidence[..|evidence| - 1], related);
      var last := Bind(evidence[|evidence| - 1], related);
      (before + [last.evidence], codes + last.codes, notes + last.notes)
  }

  // ---------- the sources ----------

  function DocumentCodes(d: Document): set<Code> {
    (if d.accessible then {} else {SourceUnavailable})
    + (if d.flagged then {SourceSecurityRejected} else {})
    + (if d.untrusted then {SourceUntrusted} else {})
  }

  function SourceCodes(sourceIds: seq<Key>, documents: map<Key, Document>): set<Code> {
    if sourceIds == [] then {}
    else
      var last := sourceIds[|sourceIds| - 1];
      SourceCodes(sourceIds[..|sourceIds| - 1], documents) + if last in documents then DocumentCodes(documents[last]) else {}
  }

  function AllSourceCodes(sourceIds: seq<Key>, documents: map<Key, Document>): set<Code> {
    var related := Related(sourceIds, documents);
    (if related == map[] then {SourceMissing} else {})
    + (if related.Keys != Elements(sourceIds) then {SourceSetMismatch} else {})
    + SourceCodes(sourceIds, documents)
  }

  // ---------- the statuses ----------

  predicate HasEnded(p: Policy, a: Assessment, asOf: int) {
    p.termination || a.explicitlyClosed || (p.end.Some? && p.end.value < asOf)
  }

  function ApplicationStatusOf(p: Policy, a: Assessment, asOf: int): ApplicationStatus {
    if HasEnded(p, a, asOf) then AppClosed
    else if FallbackUsed in p.notes then AppUnconfirmed
    else if p.budget.BudgetSpent? then AppBudgetExhausted
    else if p.start.Some? && p.start.value > asOf then AppScheduled
    else if p.start.Some? && p.end.Some? && p.start.value <= asOf <= p.end.value then AppOpen
    else AppUnconfirmed
  }

  /** The status of a notice is not settled by its dates: within a current window it is open, unconfirmed or exhausted,
      as its notes and its budget have it. */
  lemma WindowLeavesStatusOpen(p: Policy, a: Assessment, asOf: int)
    requires !HasEnded(p, a, asOf) && p.start.Some? && p.end.Some? && p.start.value <= asOf
    ensures ApplicationStatusOf(p.(notes := {}, budget := OtherBudget), a, asOf) == AppOpen
    ensures ApplicationStatusOf(p.(notes := {FallbackUsed}), a, asOf) == AppUnconfirmed
    ensures ApplicationStatusOf(p.(notes := {}, budget := BudgetSpent), a, asOf) == AppBudgetExhausted
  {
  }

  function RecommendationCodesOf(status: ApplicationStatus, budget: Budget): set<RecommendationCode> {
    (match status
     case AppClosed => {PolicyClosed}
     case AppBudgetExhausted => {PolicyBudgetExhausted}
     case AppScheduled => {PolicyNotYetOpen}
     case AppUnconfirmed => {PolicyStatusUnconfirmed}
     case _ => {})
    + (if budget.BudgetUnknown? then {PolicyBudgetUnknown} else {})
  }

  function Quotes(evidence: seq<EvidenceRef>): seq<Quoted> {
    seq(|evidence|, i requires 0 <= i < |evidence| => Quoted(evidence[i].quote, evidence[i].fieldPaths))
  }

  function Outcome(p: Policy, documents: map<Key, Document>, asOf: int, assess: seq<Quoted> -> Assessment): Policy {
    var (evidence, bindCodes, bindNotes) := BindAll(p.evidence, Related(p.sourceIds, documents));
    var codes := AllSourceCodes(p.sourceIds, documents) + bindCodes;
    var a := assess(Quotes(evidence));
    var status := ApplicationStatusOf(p, a, asOf);
    p.(
      evidence := evidence,
      applicationStatus := status,
      recommendationCodes := RecommendationCodesOf(status, p.budget),
      failureCodes := codes + (set c | c in a.codes :: SemanticCode(c)),
      notes := p.notes + bindNotes + (set n | n in a.numericNotes :: NumericNormalized(n)),
      validationStatus :=
        if codes != {} then Rejected
        else if HasEnded(p, a, asOf) then Closed
        else if a.codes != {} then PartiallyValidated
        else Validated)
  }

  /** The state of the evidence loop once the first `n` items are bound. */
  ghost predicate BoundUpTo(original: seq<EvidenceRef>, related: map<Key, Document>, n: nat,
                              evidence: seq<EvidenceRef>, codes: set<Code>, notes: set<Note>) {
    && n <= |original| && |evidence| == |original|
    && BindAll(original[..n], related) == (evidence[..n], codes, notes)
    && evidence[n..] == original[n..]
  }

  lemma BoundNext(original: seq<EvidenceRef>, related: map<Key, Document>, n: nat,
                  evidence: seq<EvidenceRef>, codes: set<Code>, notes: set<Note>)
    requires n < |original| && BoundUpTo(original, related, n, evidence, codes, notes)
    ensures var last := Bind(evidence[n], related);
      BoundUpTo(original, related, n + 1, evidence[n := last.evidence], codes + last.codes, notes + last.notes)
  {
    assert original[..n + 1][..n] == original[..n];
    assert evidence[n..][0] == original[n..][0];
    var last := Bind(evidence[n], related);
    var after := evidence[n := last.evidence];
    assert after[..n + 1] == evidence[..n] + [last.evidence];
    assert after[n + 1..] == evidence[n..][1..] == original[n..][1..] == original[n + 1..];
  }

  lemma BoundEnd(original: seq<EvidenceRef>, related: map<Key, Document>,
                 evidence: seq<EvidenceRef>, codes: set<Code>, notes: set<Note>)
    requires BoundUpTo(original, related, |original|, evidence, codes, notes)
    ensures BindAll(original, related) == (evidence, codes, notes)
  {
    assert original[..|original|] == original && evidence[..|original|] == evidence;
  }

  /** The candidate record that validation rewrites in place. */
  class PolicyRecord {
    var policy: Policy

    constructor (policy: Policy)
      ensures this.policy == policy
    {
      this.policy := policy;
    }

    method CollectSourceCodes(documents: map<Key, Document>) returns (codes: set<Code>)
      ensures codes == AllSourceCodes(policy.sourceIds, documents)
    {
      var related := Related(policy.sourceIds, documents);
      codes := {};
      for i := 0 to |policy.sourceIds|
        invariant codes == SourceCodes(policy.sourceIds[..i], documents)
      {
        var source := policy.sourceIds[i];
        assert policy.sourceIds[..i + 1][..i] == policy.sourceIds[..i];
        if source in related {
          codes := codes + DocumentCodes(related[source]);
        }
      }
      assert policy.sourceIds[..|policy.sourceIds|] == policy.sourceIds;
      codes := (if related == map[] then {SourceMissing} else {})
        + (if related.Keys != Elements(policy.sourceIds) then {SourceSetMismatch} else {})
        + codes;
    }

    /** The evidence loop: revision first, then offsets, each repaired only by a unique quote. */
    method BindEvidence(documents: map<Key, Document>) returns (codes: set<Code>, notes: set<Note>)
      modifies this
      ensures var (evidence, bindCodes, bindNotes) := BindAll(old(policy.evidence), Related(old(policy.sourceIds), documents));
        policy == old(policy).(evidence := evidence) && codes == bindCodes && notes == bindNotes
    {
      var related := Related(policy.sourceIds, documents);
      ghost var original := policy.evidence;
      codes, notes := {}, {};
      for i := 0 to |policy.evidence|
        invariant policy == old(policy).(evidence := policy.evidence)
        invariant BoundUpTo(original, related, i, policy.evidence, codes, notes)
      {
        var binding := Bind(policy.evidence[i], related);
        BoundNext(original, related, i, policy.evidence, codes, notes);
        policy := policy.(evidence := policy.evidence[i := binding.evidence]);
        codes := codes + binding.codes;
        notes := notes + binding.notes;
      }
      BoundEnd(original, related, policy.evidence, codes, notes);
    }

    method Validate(documents: map<Key, Document>, asOf: int, assess: seq<Quoted> -> Assessment)
      modifies this
      ensures policy == Outcome(old(policy), documents, asOf, assess)
    {
      var codes := CollectSourceCodes(documents);
      var bindCodes, bindNotes := BindEvidence(documents);
      codes := codes + bindCodes;
      var a := assess(Quotes(policy.evidence));
      var status := ApplicationStatusOf(policy, a, asOf);
      var ended := HasEnded(policy, a, asOf);
      policy := policy.(
        applicationStatus := status,
        recommendationCodes := RecommendationCodesOf(status, policy.budget),
        failureCodes := codes + (set c | c in a.codes :: SemanticCode(c)),
        notes := policy.notes + bindNotes + (set n | n in a.numericNotes :: NumericNormalized(n)));
      if codes != {} {
        policy := policy.(validationStatus := Rejected);
      } else if ended {
        policy := policy.(validationStatus := Closed);
      } else if a.codes != {} {
        policy := policy.(validationStatus := PartiallyValidated);
      } else {
        policy := policy.(validationStatus := Validated);
      }
    }
  }

  // ---------- what acceptance means ----------

  /** The evidence names a related document at its stored revision, and its offsets cut out exactly the quote. */
  ghost predicate Bound(e: EvidenceRef, related: map<Key, Document>) {
    && e.sourceId in related
    && e.revisionId == related[e.sourceId].revisionId
    && OffsetsMatch(e, related[e.sourceId].body)
  }

  ghost predicate OccursOnce(body: string, quote: string) {
    exists i :: Occurs(body, quote, i) && forall j :: Occurs(body, quote, j) ==> j == i
  }

  /** Whether validation can bind an evidence item: whatever is stale must be repairable by a quote that occurs once. */
  ghost predicate Bindable(e: EvidenceRef, related: map<Key, Document>) {
    && e.sourceId in related
    && var d := related[e.sourceId];
       Bound(e, related) || (e.quote != "" && OccursOnce(d.body, e.quote))
  }

  lemma UniqueIsOccursOnce(body: string, quote: string)
    requires quote != ""
    ensures UniqueQuote(body, quote) <==> OccursOnce(body, quote)
  {
    var first := Find(body, quote, 0);
    if UniqueQuote(body, quote) {
      assert Occurs(body, quote, first);
      forall j | Occurs(body, quote, j) ensures j == first {}
    }
    if OccursOnce(body, quote) {
      var i :| Occurs(body, quote, i) && forall j :: Occurs(body, quote, j) ==> j == i;
    }
  }

  lemma FirstOccurrenceMatches(e: EvidenceRef, body: string)
    requires UniqueQuote(body, e.quote)
    ensures var first := Find(body, e.quote, 0); OffsetsMatch(e.(start := first, end := first + |e.quote|), body)
  {
  }

  lemma OffsetsResult(e: EvidenceRef, d: Document)
    ensures var r := BindOffsets(e, d);
      && (r.codes == {} <==> OffsetsMatch(e, d.body) || UniqueQuote(d.body, e.quote))
      && (r.codes == {} ==> OffsetsMatch(r.evidence, d.body))
      && r.evidence == e.(start := r.evidence.start, end := r.evidence.end)
  {
    if UniqueQuote(d.body, e.quote) { FirstOccurrenceMatches(e, d.body); }
  }

  lemma RevisionResult(e: EvidenceRef, d: Document)
    ensures var r := BindRevision(e, d);
      && (r.codes == {} <==> e.revisionId == d.revisionId || UniqueQuote(d.body, e.quote))
      && (r.codes == {} ==> r.evidence.revisionId == d.revisionId)
      && r.evidence == e.(revisionId := r.evidence.revisionId)
  {
  }

  lemma BindResult(e: EvidenceRef, related: map<Key, Document>)
    ensures Bind(e, related).codes == {} <==> Bindable(e, related)
    ensures Bind(e, related).codes == {} ==> Bound(Bind(e, related).evidence, related)
    ensures Bind(e, related).evidence.quote == e.quote && Bind(e, related).evidence.sourceId == e.sourceId
    ensures Bind(e, related).evidence.fieldPaths == e.fieldPaths
  {
    if e.sourceId in related {
      var d := related[e.sourceId];
      var revision := BindRevision(e, d);
      RevisionResult(e, d);
      OffsetsResult(revision.evidence, d);
      UnionEmpty(revision.codes, BindOffsets(revision.evidence, d).codes);
      assert OffsetsMatch(revision.evidence, d.body) == OffsetsMatch(e, d.body);
      if e.quote != "" {
        UniqueIsOccursOnce(d.body, e.quote);
      }
    }
  }

  lemma {:induction false} BindAllResult(evidence: seq<EvidenceRef>, related: map<Key, Document>)
    ensures BindAll(evidence, related).1 == {} <==> forall i :: 0 <= i < |evidence| ==> Bindable(evidence[i], related)
  {
    if evidence != [] {
      var init, last := evidence[..|evidence| - 1], evidence[|evidence| - 1];
      BindAllResult(init, related);
      BindResult(last, related);
      UnionEmpty(BindAll(init, related).1, Bind(last, related).codes);
      AllBindable(init, last, related);
      assert evidence == init + [last];
    }
  }

  lemma AllBindable(init: seq<EvidenceRef>, last: EvidenceRef, related: map<Key, Document>)
    ensures (forall i :: 0 <= i < |init + [last]| ==> Bindable((init + [last])[i], related))
      <==> (forall i :: 0 <= i < |init| ==> Bindable(init[i], related)) && Bindable(last, related)
  {
    var all := init + [last];
    assert all[|init|] == last;
    assert forall i :: 0 <= i < |init| ==> all[i] == init[i];
  }

  ghost predicate SourcesInOrder(sourceIds: seq<Key>, documents: map<Key, Document>) {
    && sourceIds != []
    && forall s :: s in sourceIds ==> s in documents && documents[s].accessible && !documents[s].flagged && !documents[s].untrusted
  }

  lemma {:induction false} SourceCodesEmpty(sourceIds: seq<Key>, documents: map<Key, Document>)
    ensures SourceCodes(sourceIds, documents) == {} <==> forall s :: s in sourceIds && s in documents ==> DocumentCodes(documents[s]) == {}
  {
    if sourceIds != [] {
      var init, last := sourceIds[..|sourceIds| - 1], sourceIds[|sourceIds| - 1];
      SourceCodesEmpty(init, documents);
      assert sourceIds == init + [last];
      assert SourceCodes(init, documents) <= SourceCodes(sourceIds, documents);
      assert last in documents ==> DocumentCodes(documents[last]) <= SourceCodes(sourceIds, documents);
    }
  }

  lemma AllSourceCodesEmpty(sourceIds: seq<Key>, documents: map<Key, Document>)
    ensures AllSourceCodes(sourceIds, documents) == {} <==> SourcesInOrder(sourceIds, documents)
  {
    var related, all := Related(sourceIds, documents), AllSourceCodes(sourceIds, documents);
    SourceCodesEmpty(sourceIds, documents);
    assert SourceCodes(sourceIds, documents) <= all;
    assert related.Keys != Elements(sourceIds) ==> SourceSetMismatch in all;
    assert related == map[] ==> SourceMissing in all;
    forall d: Document ensures DocumentCodes(d) == {} <==> d.accessible && !d.flagged && !d.untrusted {
      assert !d.accessible ==> SourceUnavailable in DocumentCodes(d);
      assert d.flagged ==> SourceSecurityRejected in DocumentCodes(d);
      assert d.untrusted ==> SourceUntrusted in DocumentCodes(d);
    }
    if sourceIds != [] { assert sourceIds[0] in sourceIds; }
    assert sourceIds == [] ==> related == map[];
    if related.Keys == Elements(sourceIds) {
      assert forall s :: s in sourceIds ==> s in related.Keys;
    }
    if SourcesInOrder(sourceIds, documents) {
      assert forall s :: s in related.Keys <==> s in Elements(sourceIds);
      assert sourceIds[0] in related;
    }
  }

  /** Validation rejects a policy exactly when a source is missing or not acceptable or some evidence cannot be bound;
      otherwise every evidence item of the result is bound, including the repaired ones. */
  lemma RejectedIffUnbindable(p: Policy, documents: map<Key, Document>, asOf: int, assess: seq<Quoted> -> Assessment)
    ensures var q, related := Outcome(p, documents, asOf, assess), Related(p.sourceIds, documents);
      && (!q.validationStatus.Rejected? <==>
            SourcesInOrder(p.sourceIds, documents) && forall i :: 0 <= i < |p.evidence| ==> Bindable(p.evidence[i], related))
      && (!q.validationStatus.Rejected? ==> forall i :: 0 <= i < |q.evidence| ==> Bound(q.evidence[i], related))
  {
    var related := Related(p.sourceIds, documents);
    BindAllResult(p.evidence, related);
    AllSourceCodesEmpty(p.sourceIds, documents);
    UnionEmpty(AllSourceCodes(p.sourceIds, documents), BindAll(p.evidence, related).1);
    var evidence := BindAll(p.evidence, related).0;
    if BindAll(p.evidence, related).1 == {} {
      forall i | 0 <= i < |evidence| ensures Bound(evidence[i], related) {
        BindResult(p.evidence[i], related);
      }
    }
  }

  // ---------- validating twice ----------

  /** Binding a bound or an unbindable item again changes nothing and complains about the same. */
  lemma BindAgain(e: EvidenceRef, related: map<Key, Document>)
    ensures var first, second := Bind(e, related), Bind(Bind(e, related).evidence, related);
      second.evidence == first.evidence && second.codes == first.codes && second.notes <= first.notes
  {
    if e.sourceId in related {
      BindResult(e, related);
      var d := related[e.sourceId];
      if UniqueQuote(d.body, e.quote) {
        var first := Find(d.body, e.quote, 0);
        assert d.body[first..first + |e.quote|] == e.quote;
      }
    }
  }

  lemma {:induction false} BindAllAgain(evidence: seq<EvidenceRef>, related: map<Key, Document>)
    ensures var first, second := BindAll(evidence, related), BindAll(BindAll(evidence, related).0, related);
      second.0 == first.0 && second.1 == first.1 && second.2 <= first.2
  {
    if evidence != [] {
      var last := |evidence| - 1;
      BindAllAgain(evidence[..last], related);
      BindAgain(evidence[last], related);
      assert BindAll(evidence, related).0[..last] == BindAll(evidence[..last], related).0;
    }
  }

  lemma {:induction false} RepairNotesOnly(evidence: seq<EvidenceRef>, related: map<Key, Document>)
    ensures BindAll(evidence, related).2 <= {RevisionRebound, OffsetRepaired}
  {
    if evidence != [] { RepairNotesOnly(evidence[..|evidence| - 1], related); }
  }

  lemma NotesStable(old_: set<Note>, repairs: set<Note>, later: set<Note>, numeric: set<Note>)
    requires later <= repairs
    ensures (old_ + repairs + numeric) + later + numeric == old_ + repairs + numeric
  {
  }

  /** Validating a validated policy again changes nothing, whatever the first outcome was. */
  lemma ValidationIsIdempotent(p: Policy, documents: map<Key, Document>, asOf: int, assess: seq<Quoted> -> Assessment)
    ensures var q := Outcome(p, documents, asOf, assess); Outcome(q, documents, asOf, assess) == q
  {
    var related := Related(p.sourceIds, documents);
    var q := Outcome(p, documents, asOf, assess);
    BindAllAgain(p.evidence, related);
    RepairNotesOnly(p.evidence, related);
    var (evidence, codes, repairs) := BindAll(p.evidence, related);
    var a := assess(Quotes(evidence));
    var numeric := set n | n in a.numericNotes :: NumericNormalized(n);
    NotesStable(p.notes, repairs, BindAll(evidence, related).2, numeric);
    assert FallbackUsed in q.notes <==> FallbackUsed in p.notes;
    assert ApplicationStatusOf(q, a, asOf) == ApplicationStatusOf(p, a, asOf);
  }
}
