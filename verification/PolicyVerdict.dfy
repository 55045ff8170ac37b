/** What the validation of a policy yields: each code, each note and each status by what the notice and its documents say. */
module PolicyVerdict {
  import opened Wrappers
  import opened Keys
  import opened Sorting
  import opened PolicyValidation

  // ---------- the sources ----------

  /** The named source is stored. */
  predicate Stored(p: Policy, documents: map<Key, Document>, source: Key) { source in p.sourceIds && source in documents }

  ghost predicate SourceReason(p: Policy, documents: map<Key, Document>, code: Code) {
    match code
    case SourceMissing => forall s :: !Stored(p, documents, s)
    case SourceSetMismatch => exists s :: s in p.sourceIds && s !in documents
    case SourceUnavailable => exists s :: Stored(p, documents, s) && !documents[s].accessible
    case SourceSecurityRejected => exists s :: Stored(p, documents, s) && documents[s].flagged
    case SourceUntrusted => exists s :: Stored(p, documents, s) && documents[s].untrusted
    case _ => false
  }

  lemma CodesOfDocument(d: Document, code: Code)
    ensures code in DocumentCodes(d) <==>
      (code == SourceUnavailable && !d.accessible) || (code == SourceSecurityRejected && d.flagged) || (code == SourceUntrusted && d.untrusted)
  {
  }

  lemma {:induction false} CodesOfSources(sourceIds: seq<Key>, documents: map<Key, Document>, code: Code)
    ensures code in SourceCodes(sourceIds, documents) <==>
      exists s :: s in sourceIds && s in documents && code in DocumentCodes(documents[s])
  {
    if sourceIds != [] {
      var init, last := sourceIds[..|sourceIds| - 1], sourceIds[|sourceIds| - 1];
      assert sourceIds == init + [last];
      CodesOfSources(init, documents, code);
    }
  }

  lemma RelatedIs(p: Policy, documents: map<Key, Document>)
    ensures forall s :: s in Related(p.sourceIds, documents) <==> Stored(p, documents, s)
    ensures Related(p.sourceIds, documents) == map[] <==> forall s :: !Stored(p, documents, s)
    ensures Related(p.sourceIds, documents).Keys != Elements(p.sourceIds) <==> exists s :: s in p.sourceIds && s !in documents
  {
    var related := Related(p.sourceIds, documents);
    if related.Keys != {} {
      var s := AnyOf(related.Keys);
      assert Stored(p, documents, s);
    }
    if forall s :: s in p.sourceIds ==> s in documents {
      assert forall s :: s in related.Keys <==> s in Elements(p.sourceIds);
    }
    if s :| s in p.sourceIds && s !in documents {
      assert s in Elements(p.sourceIds) && s !in related.Keys;
    }
  }

  /** Each source code by its reason. */
  lemma SourceCodesIff(p: Policy, documents: map<Key, Document>, code: Code)
    ensures code in AllSourceCodes(p.sourceIds, documents) <==> SourceReason(p, documents, code)
  {
    RelatedIs(p, documents);
    CodesOfSources(p.sourceIds, documents, code);
    forall s | s in documents ensures code in DocumentCodes(documents[s]) <==>
      || (code == SourceUnavailable && !documents[s].accessible) || (code == SourceSecurityRejected && documents[s].flagged)
      || (code == SourceUntrusted && documents[s].untrusted)
    {
      CodesOfDocument(documents[s], code);
    }
    if s :| Stored(p, documents, s) { assert s in p.sourceIds; }
  }

  // ---------- the evidence ----------

  /** The quote is not empty and stands at exactly one place of the text. */
  ghost predicate Unique(d: Document, quote: string) {
    quote != "" && exists i :: IsAt(d, quote, i) && forall j :: IsAt(d, quote, j) ==> j == i
  }

  predicate IsAt(d: Document, quote: string, i: int) { 0 <= i && i + |quote| <= |d.body| && d.body[i..i + |quote|] == quote }

  ghost predicate Found(d: Document, quote: string) { exists i :: IsAt(d, quote, i) }

  predicate Fits(d: Document, e: EvidenceRef) { 0 <= e.start < e.end <= |d.body| && d.body[e.start..e.end] == e.quote }

  /** Which complaint an item of evidence gives rise to. */
  ghost predicate ItemReason(p: Policy, documents: map<Key, Document>, e: EvidenceRef, code: Code) {
    if !Stored(p, documents, e.sourceId) then code == EvidenceSourceMissing
    else
      var d := documents[e.sourceId];
      match code
      case RevisionMismatch => e.revisionId != d.revisionId && !Unique(d, e.quote)
      case QuoteNotFound => !Fits(d, e) && !Found(d, e.quote)
      case OffsetAmbiguous => !Fits(d, e) && !Unique(d, e.quote) && Found(d, e.quote)
      case _ => false
  }

  /** What a stale item becomes: with a unique quote the stored revision, and the place of the quote. */
  ghost predicate ItemBecomes(p: Policy, documents: map<Key, Document>, e: EvidenceRef, f: EvidenceRef) {
    if !Stored(p, documents, e.sourceId) then f == e
    else
      var d := documents[e.sourceId];
      && f == e.(revisionId := f.revisionId, start := f.start, end := f.end)
      && f.revisionId == (if Unique(d, e.quote) then d.revisionId else e.revisionId)
      && (if Fits(d, e) || !Unique(d, e.quote) then f.start == e.start && f.end == e.end
          else IsAt(d, e.quote, f.start) && f.end == f.start + |e.quote|)
  }

  ghost predicate Rebinds(p: Policy, documents: map<Key, Document>, e: EvidenceRef) {
    Stored(p, documents, e.sourceId) && e.revisionId != documents[e.sourceId].revisionId && Unique(documents[e.sourceId], e.quote)
  }

  ghost predicate Repairs(p: Policy, documents: map<Key, Document>, e: EvidenceRef) {
    Stored(p, documents, e.sourceId) && !Fits(documents[e.sourceId], e) && Unique(documents[e.sourceId], e.quote)
  }

  lemma IsAtIff(d: Document, quote: string)
    ensures forall i :: IsAt(d, quote, i) <==> Occurs(d.body, quote, i)
  {
  }

  lemma UniqueIff(d: Document, quote: string)
    ensures UniqueQuote(d.body, quote) <==> Unique(d, quote)
  {
    if quote != "" {
      UniqueIsOccursOnce(d.body, quote);
      OnceIff(d, quote);
    }
  }

  lemma OnceIff(d: Document, quote: string)
    requires quote != ""
    ensures OccursOnce(d.body, quote) <==> Unique(d, quote)
  {
    IsAtIff(d, quote);
    if Unique(d, quote) {
      var i :| IsAt(d, quote, i) && forall j :: IsAt(d, quote, j) ==> j == i;
      assert Occurs(d.body, quote, i);
    }
    if OccursOnce(d.body, quote) {
      var i :| Occurs(d.body, quote, i) && forall j :: Occurs(d.body, quote, j) ==> j == i;
      assert IsAt(d, quote, i);
    }
  }

  lemma FoundIff(d: Document, quote: string)
    ensures Find(d.body, quote, 0) >= 0 ==> IsAt(d, quote, Find(d.body, quote, 0))
    ensures Find(d.body, quote, 0) < 0 <==> !Found(d, quote)
  {
    if Find(d.body, quote, 0) < 0 {
      forall i ensures !IsAt(d, quote, i) { assert i >= 0 ==> !Occurs(d.body, quote, i); }
    }
  }

  lemma RevisionIs(e: EvidenceRef, d: Document)
    ensures var b, stale := BindRevision(e, d), e.revisionId != d.revisionId;
      && b.codes == (if stale && !Unique(d, e.quote) then {RevisionMismatch} else {})
      && b.notes == (if stale && Unique(d, e.quote) then {RevisionRebound} else {})
      && b.evidence == e.(revisionId := if Unique(d, e.quote) then d.revisionId else e.revisionId)
  {
    UniqueIff(d, e.quote);
  }

  lemma OffsetsAre(e: EvidenceRef, d: Document)
    ensures var b := BindOffsets(e, d);
      && b.codes == (if Fits(d, e) || Unique(d, e.quote) then {} else if !Found(d, e.quote) then {QuoteNotFound} else {OffsetAmbiguous})
      && b.notes == (if !Fits(d, e) && Unique(d, e.quote) then {OffsetRepaired} else {})
      && (if Fits(d, e) || !Unique(d, e.quote) then b.evidence == e
          else b.evidence == e.(start := b.evidence.start, end := b.evidence.start + |e.quote|) && IsAt(d, e.quote, b.evidence.start))
  {
    UniqueIff(d, e.quote);
    FoundIff(d, e.quote);
  }

  lemma UniqueIsFound(d: Document, quote: string)
    requires Unique(d, quote)
    ensures Found(d, quote)
  {
  }

  lemma StoredItem(p: Policy, documents: map<Key, Document>, e: EvidenceRef) returns (d: Document, r: Binding, f: Binding)
    requires Stored(p, documents, e.sourceId)
    ensures d == documents[e.sourceId] && r == BindRevision(e, d) && f == BindOffsets(r.evidence, d)
    ensures Bind(e, Related(p.sourceIds, documents)) == Binding(f.evidence, r.codes + f.codes, r.notes + f.notes)
    ensures Fits(d, r.evidence) == Fits(d, e) && r.evidence.quote == e.quote
  {
    RelatedIs(p, documents);
    d := documents[e.sourceId];
    r := BindRevision(e, d);
    f := BindOffsets(r.evidence, d);
    RevisionIs(e, d);
  }

  lemma UnstoredItem(p: Policy, documents: map<Key, Document>, e: EvidenceRef)
    requires !Stored(p, documents, e.sourceId)
    ensures Bind(e, Related(p.sourceIds, documents)) == Binding(e, {EvidenceSourceMissing}, {})
  {
    RelatedIs(p, documents);
  }

  lemma CodesOfBinding(stale: bool, unique: bool, fits: bool, found: bool, revision: set<Code>, offsets: set<Code>, code: Code)
    requires revision == if stale && !unique then {RevisionMismatch} else {}
    requires offsets == if fits || unique then {} else if !found then {QuoteNotFound} else {OffsetAmbiguous}
    requires unique ==> found
    ensures code in revision + offsets <==>
      || (code == RevisionMismatch && stale && !unique) || (code == QuoteNotFound && !fits && !found)
      || (code == OffsetAmbiguous && !fits && !unique && found)
  {
  }

  lemma ItemCodes(p: Policy, documents: map<Key, Document>, e: EvidenceRef, code: Code)
    ensures code in Bind(e, Related(p.sourceIds, documents)).codes <==> ItemReason(p, documents, e, code)
  {
    if Stored(p, documents, e.sourceId) {
      var d, r, f := StoredItem(p, documents, e);
      RevisionIs(e, d);
      OffsetsAre(r.evidence, d);
      if Unique(d, e.quote) { UniqueIsFound(d, e.quote); }
      CodesOfBinding(e.revisionId != d.revisionId, Unique(d, e.quote), Fits(d, e), Found(d, e.quote), r.codes, f.codes, code);
    } else {
      UnstoredItem(p, documents, e);
    }
  }

  lemma ItemIs(p: Policy, documents: map<Key, Document>, e: EvidenceRef)
    ensures var b := Bind(e, Related(p.sourceIds, documents));
      && ItemBecomes(p, documents, e, b.evidence)
      && b.notes == (if Rebinds(p, documents, e) then {RevisionRebound} else {}) + (if Repairs(p, documents, e) then {OffsetRepaired} else {})
  {
    if Stored(p, documents, e.sourceId) {
      var d, r, f := StoredItem(p, documents, e);
      RevisionIs(e, d);
      OffsetsAre(r.evidence, d);
    } else {
      UnstoredItem(p, documents, e);
    }
  }

  lemma {:induction false} CodesOfItems(evidence: seq<EvidenceRef>, related: map<Key, Document>, code: Code)
    ensures code in BindAll(evidence, related).1 <==> exists e :: e in evidence && code in Bind(e, related).codes
  {
    if evidence != [] {
      var init, last := evidence[..|evidence| - 1], evidence[|evidence| - 1];
      CodesOfItems(init, related, code);
      assert evidence == init + [last];
    }
  }

  lemma {:induction false} NotesOfItems(evidence: seq<EvidenceRef>, related: map<Key, Document>, note: Note)
    ensures note in BindAll(evidence, related).2 <==> exists e :: e in evidence && note in Bind(e, related).notes
  {
    if evidence != [] {
      var init, last := evidence[..|evidence| - 1], evidence[|evidence| - 1];
      NotesOfItems(init, related, note);
      assert evidence == init + [last];
    }
  }

  ghost predicate EvidenceReason(p: Policy, documents: map<Key, Document>, code: Code) {
    exists e :: e in p.evidence && ItemReason(p, documents, e, code)
  }

  // ---------- the verdict ----------

  /** The judgement of the meaning of the notice, from its quotes and field paths. */
  function JudgementOf(p: Policy, assess: seq<Quoted> -> Assessment): Assessment {
    assess(seq(|p.evidence|, i requires 0 <= i < |p.evidence| => Quoted(p.evidence[i].quote, p.evidence[i].fieldPaths)))
  }

  ghost predicate Unbound(p: Policy, documents: map<Key, Document>) {
    exists code :: SourceReason(p, documents, code) || EvidenceReason(p, documents, code)
  }

  /** Over by its kind, by its text or by its last day. */
  predicate Ended(p: Policy, a: Assessment, asOf: int) {
    || p.termination
    || a.explicitlyClosed
    || (p.end.Some? && p.end.value < asOf)
  }

  /** Failing to bind rejects; then being over closes; then doubts about the meaning leave it partly valid. */
  ghost predicate VerdictIs(p: Policy, documents: map<Key, Document>, asOf: int, a: Assessment, status: ValidationStatus) {
    match status
    case Rejected => Unbound(p, documents)
    case Closed => !Unbound(p, documents) && Ended(p, a, asOf)
    case PartiallyValidated => !Unbound(p, documents) && !Ended(p, a, asOf) && a.codes != {}
    case Validated => !Unbound(p, documents) && !Ended(p, a, asOf) && a.codes == {}
    case Extracted => false
  }

  /** Only a notice that is not over, not from the fallback and not spent is scheduled or open, by its dates; an open notice
      states both. */
  predicate StandingIs(p: Policy, a: Assessment, asOf: int, status: ApplicationStatus) {
    var live := !Ended(p, a, asOf) && FallbackUsed !in p.notes && p.budget != BudgetSpent;
    match status
    case AppClosed => Ended(p, a, asOf)
    case AppBudgetExhausted => !Ended(p, a, asOf) && FallbackUsed !in p.notes && p.budget == BudgetSpent
    case AppScheduled => live && p.start.Some? && asOf < p.start.value
    case AppOpen => live && p.start.Some? && p.end.Some? && p.start.value <= asOf
    case AppUnconfirmed => !Ended(p, a, asOf) && (FallbackUsed in p.notes || (p.budget != BudgetSpent && !DatesKnown(p, asOf)))
    case AppOther => false
  }

  /** The dates settle whether applications are still to come or are taken. */
  predicate DatesKnown(p: Policy, asOf: int) { p.start.Some? && (asOf < p.start.value || p.end.Some?) }

  /** Why a policy is not recommended. */
  predicate HeldBackFor(status: ApplicationStatus, budget: Budget, code: RecommendationCode) {
    match code
    case PolicyClosed => status == AppClosed
    case PolicyBudgetExhausted => status == AppBudgetExhausted
    case PolicyNotYetOpen => status == AppScheduled
    case PolicyStatusUnconfirmed => status == AppUnconfirmed
    case PolicyBudgetUnknown => budget == BudgetUnknown
  }

  lemma QuotesSurvive(p: Policy, documents: map<Key, Document>, assess: seq<Quoted> -> Assessment)
    ensures assess(Quotes(BindAll(p.evidence, Related(p.sourceIds, documents)).0)) == JudgementOf(p, assess)
  {
    var related := Related(p.sourceIds, documents);
    var bound := BindAll(p.evidence, related).0;
    forall i | 0 <= i < |bound| ensures Quotes(bound)[i] == Quoted(p.evidence[i].quote, p.evidence[i].fieldPaths) {
      BindResult(p.evidence[i], related);
    }
    assert Quotes(bound) == seq(|p.evidence|, i requires 0 <= i < |p.evidence| => Quoted(p.evidence[i].quote, p.evidence[i].fieldPaths));
  }

  lemma CodeReason(p: Policy, documents: map<Key, Document>, code: Code)
    ensures var related := Related(p.sourceIds, documents);
      code in AllSourceCodes(p.sourceIds, documents) + BindAll(p.evidence, related).1 <==>
        SourceReason(p, documents, code) || EvidenceReason(p, documents, code)
  {
    var related := Related(p.sourceIds, documents);
    SourceCodesIff(p, documents, code);
    CodesOfItems(p.evidence, related, code);
    forall e | e in p.evidence ensures code in Bind(e, related).codes <==> ItemReason(p, documents, e, code) {
      ItemCodes(p, documents, e, code);
    }
  }

  /** Every code is there for its reason. */
  lemma FailureCodesIff(p: Policy, documents: map<Key, Document>, asOf: int, assess: seq<Quoted> -> Assessment, code: Code)
    ensures code in Outcome(p, documents, asOf, assess).failureCodes <==>
      if code.SemanticCode? then code.text in JudgementOf(p, assess).codes
      else SourceReason(p, documents, code) || EvidenceReason(p, documents, code)
  {
    QuotesSurvive(p, documents, assess);
    CodeReason(p, documents, code);
  }

  lemma UnboundIff(p: Policy, documents: map<Key, Document>)
    ensures AllSourceCodes(p.sourceIds, documents) + BindAll(p.evidence, Related(p.sourceIds, documents)).1 != {} <==> Unbound(p, documents)
  {
    var codes := AllSourceCodes(p.sourceIds, documents) + BindAll(p.evidence, Related(p.sourceIds, documents)).1;
    if codes != {} {
      var code := AnyOf(codes);
      CodeReason(p, documents, code);
    }
    if code :| SourceReason(p, documents, code) || EvidenceReason(p, documents, code) {
      CodeReason(p, documents, code);
      assert code in codes;
    }
  }

  /** The validation status, the application status and the reasons against recommending are what they mean. */
  lemma StatusesAre(p: Policy, documents: map<Key, Document>, asOf: int, assess: seq<Quoted> -> Assessment)
    ensures var q, a := Outcome(p, documents, asOf, assess), JudgementOf(p, assess);
      && VerdictIs(p, documents, asOf, a, q.validationStatus)
      && StandingIs(p, a, asOf, q.applicationStatus)
      && forall code :: code in q.recommendationCodes <==> HeldBackFor(q.applicationStatus, p.budget, code)
  {
    QuotesSurvive(p, documents, assess);
    UnboundIff(p, documents);
  }

  /** An item of evidence keeps its source, quote and paths, and is repaired as described; the notes say what was repaired. */
  lemma EvidenceAndNotesAre(p: Policy, documents: map<Key, Document>, asOf: int, assess: seq<Quoted> -> Assessment, note: Note)
    ensures var q := Outcome(p, documents, asOf, assess);
      && |q.evidence| == |p.evidence|
      && (forall i :: 0 <= i < |p.evidence| ==> ItemBecomes(p, documents, p.evidence[i], q.evidence[i]))
      && (note in q.notes <==>
            || note in p.notes
            || (note == RevisionRebound && exists e :: e in p.evidence && Rebinds(p, documents, e))
            || (note == OffsetRepaired && exists e :: e in p.evidence && Repairs(p, documents, e))
            || (note.NumericNormalized? && note.text in JudgementOf(p, assess).numericNotes))
  {
    var related := Related(p.sourceIds, documents);
    QuotesSurvive(p, documents, assess);
    NotesOfItems(p.evidence, related, note);
    forall e | e in p.evidence
      ensures ItemBecomes(p, documents, e, Bind(e, related).evidence)
      ensures note in Bind(e, related).notes <==>
        (note == RevisionRebound && Rebinds(p, documents, e)) || (note == OffsetRepaired && Repairs(p, documents, e))
    {
      ItemIs(p, documents, e);
    }
  }

  /** What validation leaves as it finds it. */
  lemma RestIsKept(p: Policy, documents: map<Key, Document>, asOf: int, assess: seq<Quoted> -> Assessment)
    ensures var q := Outcome(p, documents, asOf, assess);
      q.sourceIds == p.sourceIds && q.termination == p.termination && q.start == p.start && q.end == p.end && q.budget == p.budget
  {
  }
}
