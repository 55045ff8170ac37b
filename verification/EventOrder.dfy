/** What the order of arrival can change. Every canonical event takes its id from its fingerprint
    (backend/src/validation/research_validator.py), so all members of a group share one id and keep their order of
    arrival in the stable sorts. */
module EventOrder {
  import opened Wrappers
  import opened Keys
  import opened Sorting
  import opened EventReconciler
  import opened EventConservation

  /** Events as the validator builds them: accepted, with one id and one signal switch for each fingerprint. */
  ghost predicate Canonical(events: seq<Event>) {
    && (forall x :: x in events ==> x.status.Accepted? && x.failureCodes == [])
    && (forall x, y :: x in events && y in events ==> (x.id == y.id <==> x.fingerprint == y.fingerprint))
    && (forall x, y :: x in events && y in events && x.fingerprint == y.fingerprint ==> x.signalEnabled == y.signalEnabled)
  }

  // ---------- stability ----------

  lemma {:induction false} FilterConcat(a: seq<Event>, b: seq<Event>, f: Key)
    ensures WithFingerprint(a + b, f) == WithFingerprint(a, f) + WithFingerprint(b, f)
  {
    if b == [] {
      assert a + b == a;
    } else {
      var init, last := b[..|b| - 1], b[|b| - 1];
      FilterConcat(a, init, f);
      assert (a + b)[..|a + b| - 1] == a + init;
    }
  }

  lemma FilterFirst(x: Event, s: seq<Event>, f: Key)
    ensures WithFingerprint([x] + s, f) == (if x.fingerprint == f then [x] else []) + WithFingerprint(s, f)
  {
    FilterConcat([x], s, f);
    assert [x][..0] == [];
    assert WithFingerprint([x], f) == WithFingerprint([], f) + if x.fingerprint == f then [x] else [];
  }

  /** `leq` never moves one member of the group past another. */
  ghost predicate TiesInGroup(leq: (Event, Event) -> bool, s: seq<Event>, f: Key) {
    forall x, y :: x in s && y in s && x.fingerprint == f && y.fingerprint == f ==> leq(x, y)
  }

  lemma {:induction false} InsertIsStable(leq: (Event, Event) -> bool, x: Event, s: seq<Event>, f: Key)
    requires TiesInGroup(leq, [x] + s, f)
    ensures WithFingerprint(Insert(leq, x, s), f) == WithFingerprint([x] + s, f)
  {
    if s != [] && !leq(x, s[0]) {
      var rest := s[1..];
      assert s == [s[0]] + rest;
      assert x in [x] + s && s[0] in [x] + s;
      assert forall y :: y in [x] + rest ==> y in [x] + s;
      InsertIsStable(leq, x, rest, f);
      PassedOver(x, s[0], Insert(leq, x, rest), rest, f);
    }
  }

  lemma PassedOver(x: Event, y: Event, inserted: seq<Event>, rest: seq<Event>, f: Key)
    requires WithFingerprint(inserted, f) == WithFingerprint([x] + rest, f) && !(x.fingerprint == f && y.fingerprint == f)
    ensures WithFingerprint([y] + inserted, f) == WithFingerprint([x] + ([y] + rest), f)
  {
    FilterFirst(y, inserted, f);
    FilterFirst(x, rest, f);
    FilterFirst(x, [y] + rest, f);
    FilterFirst(y, rest, f);
  }

  lemma {:induction false} SortIsStable(leq: (Event, Event) -> bool, s: seq<Event>, f: Key)
    requires TiesInGroup(leq, s, f)
    ensures WithFingerprint(SortBy(leq, s), f) == WithFingerprint(s, f)
  {
    if s != [] {
      assert s == [s[0]] + s[1..];
      var sorted := SortBy(leq, s[1..]);
      SortIsStable(leq, s[1..], f);
      SortKeepsElements(leq, s[1..]);
      assert forall y :: y in [s[0]] + sorted ==> y in s;
      InsertIsStable(leq, s[0], sorted, f);
      FilterFirst(s[0], sorted, f);
      FilterFirst(s[0], s[1..], f);
    }
  }

  lemma {:induction false} FilterAll(s: seq<Event>, f: Key)
    requires forall x :: x in s ==> x.fingerprint == f
    ensures WithFingerprint(s, f) == s
  {
    if s != [] {
      FilterAll(s[..|s| - 1], f);
      assert s == s[..|s| - 1] + [s[|s| - 1]];
      assert s[|s| - 1] in s;
    }
  }

  /** A group of canonical events is its members in the order of arrival. */
  lemma GroupIsArrival(events: seq<Event>, f: Key)
    requires Canonical(events)
    ensures GroupOf(SortBy(ByFingerprintAndId, events), f) == WithFingerprint(events, f)
  {
    var ordered := SortBy(ByFingerprintAndId, events);
    SortIsStable(ByFingerprintAndId, events, f);
    var group := WithFingerprint(events, f);
    WithFingerprintMembers(events, f);
    SortIsStable(ById, group, f);
    SortKeepsElements(ById, group);
    FilterAll(group, f);
    FilterAll(SortBy(ById, group), f);
  }

  // ---------- permutations of a group ----------

  /** The groups whose outcome no permutation changes. */
  ghost predicate OrderFree(group: seq<Event>) {
    || AllEqual(group)
    || (|group| == 2 && !SameOccasion(group[0], group[1]) && Rank(group[0].tier) != Rank(group[1].tier))
  }

  ghost predicate AllEqual(group: seq<Event>) { forall x, y :: x in group && y in group ==> x == y }

  lemma {:induction false} CopiesEqual(g: seq<Event>, h: seq<Event>)
    requires multiset(g) == multiset(h) && AllEqual(g)
    ensures g == h
  {
    assert |g| == |multiset(g)| == |multiset(h)| == |h|;
    forall i | 0 <= i < |g| ensures g[i] == h[i] {
      assert h[i] in multiset(h);
      assert h[i] in g && g[i] in g;
    }
  }

  lemma FoldPair(a: Event, b: Event)
    ensures FoldGroup([a, b]) == Confront(Group(a, []), b)
  {
    assert [a, b][..1] == [a];
  }

  lemma PairPermutations(g: seq<Event>, h: seq<Event>)
    requires multiset(g) == multiset(h) && |g| == 2
    ensures |h| == 2 && (h == g || h == [g[1], g[0]])
  {
    assert |h| == |multiset(h)| == |multiset(g)| == 2;
    assert g == [g[0], g[1]] && h == [h[0], h[1]];
    assert multiset(h) == multiset{h[0], h[1]} && multiset(g) == multiset{g[0], g[1]};
    assert h[0] in multiset(g);
    if h[0] == g[0] {
      assert multiset(h) - multiset{h[0]} == multiset{h[1]} && multiset(g) - multiset{g[0]} == multiset{g[1]};
      assert h[1] in multiset{g[1]};
    } else {
      assert h[0] == g[1];
      assert multiset(h) - multiset{h[0]} == multiset{h[1]} && multiset(g) - multiset{g[1]} == multiset{g[0]};
      assert h[1] in multiset{g[0]};
    }
  }

  lemma OrderFreeFolds(g: seq<Event>, h: seq<Event>)
    requires multiset(g) == multiset(h) && g != [] && OrderFree(g)
    ensures h != [] && FoldGroup(g) == FoldGroup(h)
  {
    if AllEqual(g) {
      CopiesEqual(g, h);
    } else {
      PairPermutations(g, h);
      assert g == [g[0], g[1]];
      FoldPair(g[0], g[1]);
      FoldPair(g[1], g[0]);
    }
  }

  // ---------- what other groups show ----------

  /** The event that the first two members of a group set aside. */
  function FirstAside(a: Event, b: Event): Event {
    if SameOccasion(a, b) then Reject(b, ReferenceOnly, DuplicateEvent)
    else if Rank(a.tier) == Rank(b.tier) then Reject(b, Conflicted, SourceConflict)
    else if Rank(b.tier) > Rank(a.tier) then Reject(a, ReferenceOnly, SourceConflict)
    else Reject(b, ReferenceOnly, SourceConflict)
  }

  lemma {:induction false} FirstExcluded(g: seq<Event>)
    requires |g| >= 2
    ensures FoldGroup(g).excluded != [] && FoldGroup(g).excluded[0] == FirstAside(g[0], g[1])
  {
    if |g| == 2 {
      assert g == [g[0], g[1]];
      FoldPair(g[0], g[1]);
    } else {
      FirstExcluded(g[..|g| - 1]);
    }
  }

  /** Members of one group of canonical events. */
  ghost predicate Alike(a: Event, b: Event) {
    a.status == b.status && a.failureCodes == b.failureCodes && a.signalEnabled == b.signalEnabled
  }

  lemma PairDiffers(a: Event, b: Event)
    requires Alike(a, b) && a != b && !(!SameOccasion(a, b) && Rank(a.tier) != Rank(b.tier))
    ensures FirstAside(a, b) != FirstAside(b, a)
  {
    SameRejection(a, b, FirstAside(a, b).status, FirstAside(a, b).failureCodes[0]);
  }

  lemma SameRejection(a: Event, b: Event, status: Status, code: Code)
    requires Alike(a, b)
    ensures Reject(a, status, code) == Reject(b, status, code) ==> a == b
  {
    if Reject(a, status, code) == Reject(b, status, code) {
      assert a == Reject(a, status, code).(status := a.status, failureCodes := a.failureCodes, signalEnabled := a.signalEnabled);
      assert b == Reject(b, status, code).(status := b.status, failureCodes := b.failureCodes, signalEnabled := b.signalEnabled);
    }
  }

  lemma TripleDiffers(a: Event, b: Event, c: Event)
    requires Alike(a, b) && Alike(a, c) && a != b
    ensures !(FirstAside(a, b) == FirstAside(b, a) == FirstAside(a, c) == FirstAside(b, c))
  {
    if FirstAside(a, b) == FirstAside(b, a) {
      if !(!SameOccasion(a, b) && Rank(a.tier) != Rank(b.tier)) { PairDiffers(a, b); }
      var low, high := if Rank(a.tier) < Rank(b.tier) then a else b, if Rank(a.tier) < Rank(b.tier) then b else a;
      assert FirstAside(a, b) == Reject(low, ReferenceOnly, SourceConflict);
      SameRejection(low, high, ReferenceOnly, SourceConflict);
      SameRejection(low, c, ReferenceOnly, SourceConflict);
    }
  }

  /** The members of `g` with members `i` and `j` in front. */
  function Leading<T>(g: seq<T>, i: nat, j: nat): seq<T>
    requires i < |g| && j < |g| && i != j
  {
    if i < j then [g[i], g[j]] + g[..i] + g[i + 1..j] + g[j + 1..] else [g[i], g[j]] + g[..j] + g[j + 1..i] + g[i + 1..]
  }

  lemma LeadingPermutes<T>(g: seq<T>, i: nat, j: nat)
    requires i < |g| && j < |g| && i != j
    ensures multiset(Leading(g, i, j)) == multiset(g)
    ensures |Leading(g, i, j)| >= 2 && Leading(g, i, j)[0] == g[i] && Leading(g, i, j)[1] == g[j]
  {
    if i < j { TwoToFront(g, i, j); } else { TwoToFront(g, j, i); }
  }

  lemma TwoToFront<T>(g: seq<T>, low: nat, high: nat)
    requires low < high < |g|
    ensures multiset([g[low], g[high]] + g[..low] + g[low + 1..high] + g[high + 1..]) == multiset(g)
    ensures multiset([g[high], g[low]] + g[..low] + g[low + 1..high] + g[high + 1..]) == multiset(g)
  {
    CutTwice(g, low, high);
    FiveParts(g[..low], g[low], g[low + 1..high], g[high], g[high + 1..]);
  }

  lemma CutTwice<T>(g: seq<T>, low: nat, high: nat)
    requires low < high < |g|
    ensures g[..low] + [g[low]] + g[low + 1..high] + [g[high]] + g[high + 1..] == g
  {
  }

  lemma FiveParts<T>(a: seq<T>, x: T, b: seq<T>, y: T, c: seq<T>)
    ensures multiset(a + [x] + b + [y] + c) == multiset([x, y] + a + b + c) == multiset([y, x] + a + b + c)
  {
    assert multiset(a + [x] + b + [y] + c) == multiset(a) + multiset{x} + multiset(b) + multiset{y} + multiset(c);
  }

  lemma LeadingShows(g: seq<Event>, i: nat, j: nat) returns (h: seq<Event>)
    requires i < |g| && j < |g| && i != j
    ensures multiset(h) == multiset(g) && |h| >= 2 && FoldGroup(h).excluded != []
    ensures FoldGroup(h).excluded[0] == FirstAside(g[i], g[j])
  {
    h := Leading(g, i, j);
    LeadingPermutes(g, i, j);
    FirstExcluded(h);
  }

  /** A group that is not order-free has two orders that set different events aside first. */
  lemma TwoOrdersDiffer(g: seq<Event>) returns (h: seq<Event>, k: seq<Event>)
    requires !OrderFree(g) && forall x, y :: x in g && y in g ==> Alike(x, y)
    ensures multiset(h) == multiset(g) && multiset(k) == multiset(g)
    ensures h != [] && k != [] && FoldGroup(h).excluded != [] && FoldGroup(k).excluded != []
    ensures FoldGroup(h).excluded[0] != FoldGroup(k).excluded[0]
  {
    var x, y :| x in g && y in g && x != y;
    var i :| 0 <= i < |g| && g[i] == x;
    var j :| 0 <= j < |g| && g[j] == y;
    h := LeadingShows(g, i, j);
    k := LeadingShows(g, j, i);
    if |g| == 2 {
      PairDiffers(x, y);
    } else {
      var m: nat := if i != 0 && j != 0 then 0 else if i != 1 && j != 1 then 1 else 2;
      TripleDiffers(x, y, g[m]);
      if FirstAside(x, y) == FirstAside(y, x) {
        if FirstAside(x, y) != FirstAside(x, g[m]) {
          k := LeadingShows(g, i, m);
        } else {
          k := LeadingShows(g, j, m);
        }
      }
    }
  }

  // ---------- whole outcomes ----------

  function Without(events: seq<Event>, f: Key): seq<Event> {
    if events == [] then []
    else Without(events[..|events| - 1], f) + if events[|events| - 1].fingerprint == f then [] else [events[|events| - 1]]
  }

  lemma PermutesAppend<T>(some: seq<T>, others: seq<T>, init: seq<T>, last: T)
    requires Permutes(some + others, init)
    ensures Permutes((some + [last]) + others, init + [last]) && Permutes(some + (others + [last]), init + [last])
  {
    assert multiset(some + others) == multiset(some) + multiset(others);
    assert multiset((some + [last]) + others) == multiset(some) + multiset{last} + multiset(others);
    assert multiset(some + (others + [last])) == multiset(some) + multiset(others) + multiset{last};
  }

  lemma PermutesConcat<T>(a: seq<T>, b: seq<T>, c: seq<T>, whole: seq<T>)
    requires Permutes(a, b) && Permutes(b + c, whole)
    ensures Permutes(a + c, whole)
  {
    assert multiset(a + c) == multiset(a) + multiset(c) && multiset(b + c) == multiset(b) + multiset(c);
  }

  ghost predicate Splits(events: seq<Event>, f: Key) {
    Permutes(WithFingerprint(events, f) + Without(events, f), events) && WithFingerprint(Without(events, f), f) == []
  }

  lemma {:induction false} FilterSplits(events: seq<Event>, f: Key)
    ensures Splits(events, f)
    decreases |events|
  {
    if events == [] {
      NothingSplits(events, f);
    } else {
      var init, last := WithoutLast(events);
      FilterSplits(init, f);
      SplitsAppend(init, last, f);
    }
  }

  lemma WithoutLast<T>(s: seq<T>) returns (init: seq<T>, last: T)
    requires s != []
    ensures s == init + [last] && |init| < |s|
  {
    init, last := s[..|s| - 1], s[|s| - 1];
  }

  lemma NothingSplits(events: seq<Event>, f: Key)
    requires events == []
    ensures Splits(events, f)
  {
    assert WithFingerprint(events, f) + Without(events, f) == events;
  }

  lemma SplitsAppend(init: seq<Event>, last: Event, f: Key)
    requires Splits(init, f)
    ensures Splits(init + [last], f)
  {
    var events := init + [last];
    assert events[..|events| - 1] == init;
    var some, others := WithFingerprint(init, f), Without(init, f);
    PermutesAppend(some, others, init, last);
    if last.fingerprint == f {
      assert WithFingerprint(events, f) == some + [last] && Without(events, f) == others;
    } else {
      assert WithFingerprint(events, f) == some && Without(events, f) == others + [last];
      FilterNone(others, last, f);
    }
  }

  lemma FilterNone(s: seq<Event>, x: Event, f: Key)
    requires WithFingerprint(s, f) == [] && x.fingerprint != f
    ensures WithFingerprint(s + [x], f) == []
  {
    assert (s + [x])[..|s|] == s;
  }

  lemma PermutesInsert<T>(init: seq<T>, front: seq<T>, back: seq<T>, middle: seq<T>)
    requires Permutes(init, front + back)
    ensures Permutes(init + middle, front + middle + back)
  {
    assert multiset(front + back) == multiset(front) + multiset(back);
    assert multiset(init + middle) == multiset(init) + multiset(middle);
    assert multiset(front + middle + back) == multiset(front) + multiset(middle) + multiset(back);
  }

  lemma {:induction false} FilterPermutes(a: seq<Event>, b: seq<Event>, f: Key)
    requires Permutes(a, b)
    ensures Permutes(WithFingerprint(a, f), WithFingerprint(b, f))
    decreases |a|
  {
    if a == [] {
      SameMembers(a, b);
      assert b == [];
    } else {
      var init, last, front, back := TakeLast(a, b);
      FilterPermutes(init, front + back, f);
      FilterConcat(front, back, f);
      FilterConcat(front + [last], back, f);
      FilterConcat(front, [last], f);
      FilterConcat(init, [last], f);
      PermutesInsert(WithFingerprint(init, f), WithFingerprint(front, f), WithFingerprint(back, f), WithFingerprint([last], f));
    }
  }

  ghost predicate SameFold(g: seq<Event>, h: seq<Event>) {
    (g == [] <==> h == []) && (g != [] ==> FoldGroup(g) == FoldGroup(h))
  }

  lemma {:induction false} SamePlaces(a: seq<Event>, b: seq<Event>, fingerprints: seq<Key>)
    requires forall f :: f in fingerprints ==> SameFold(GroupOf(a, f), GroupOf(b, f))
    ensures PlaceAll(a, fingerprints) == PlaceAll(b, fingerprints)
  {
    if fingerprints != [] {
      var init, f := fingerprints[..|fingerprints| - 1], fingerprints[|fingerprints| - 1];
      assert fingerprints == init + [f];
      SamePlaces(a, b, init);
      assert SameFold(GroupOf(a, f), GroupOf(b, f));
    }
  }

  lemma SameFingerprints(events: seq<Event>, other: seq<Event>)
    requires multiset(events) == multiset(other)
    ensures SortedDistinct(Fingerprints(events)) == SortedDistinct(Fingerprints(other))
  {
    var f, g := SortedDistinct(Fingerprints(events)), SortedDistinct(Fingerprints(other));
    SortedDistinctSorts(Fingerprints(events));
    SortedDistinctSorts(Fingerprints(other));
    SameMembers(events, other);
    SortKeepsElements(ByFingerprintAndId, events);
    SortKeepsElements(ByFingerprintAndId, other);
    forall x ensures x in f <==> x in g {
      FingerprintHasMembers(events, x);
      FingerprintHasMembers(other, x);
    }
    StrictlyIncreasingUnique(f, g);
  }

  lemma PermutationIsCanonical(events: seq<Event>, other: seq<Event>)
    requires Canonical(events) && multiset(events) == multiset(other)
    ensures Canonical(other)
  {
    SameMembers(events, other);
  }

  lemma SameFoldsSameOutcome(events: seq<Event>, other: seq<Event>, asOf: Option<int>)
    requires Canonical(events) && multiset(events) == multiset(other)
    requires forall f :: SameFold(WithFingerprint(events, f), WithFingerprint(other, f))
    ensures ReconcileEvents(events, asOf) == ReconcileEvents(other, asOf)
  {
    PermutationIsCanonical(events, other);
    SameFingerprints(events, other);
    var a, b := SortBy(ByFingerprintAndId, events), SortBy(ByFingerprintAndId, other);
    forall f ensures SameFold(GroupOf(a, f), GroupOf(b, f)) {
      GroupIsArrival(events, f);
      GroupIsArrival(other, f);
    }
    SamePlaces(a, b, SortedDistinct(Fingerprints(events)));
  }

  // ---------- a difference in one group shows in the whole outcome ----------

  function GroupExcluded(g: Group): seq<Event> {
    g.excluded + if g.base.status.Accepted? then [] else [g.base]
  }

  lemma {:induction false} FilterAbsent(s: seq<Event>, f: Key)
    requires forall x :: x in s ==> x.fingerprint != f
    ensures WithFingerprint(s, f) == []
  {
    if s != [] {
      FilterAbsent(s[..|s| - 1], f);
      assert s[|s| - 1] in s;
    }
  }

  lemma GroupExcludedFingerprint(ordered: seq<Event>, f: Key)
    requires GroupOf(ordered, f) != []
    ensures forall x :: x in GroupExcluded(FoldGroup(GroupOf(ordered, f))) ==> x.fingerprint == f
  {
    GroupMembers(ordered, f);
    SurvivorKeepsFingerprint(GroupOf(ordered, f), f);
  }

  lemma {:induction false} ExcludedOfGroup(ordered: seq<Event>, fingerprints: seq<Key>, f: Key)
    requires StrictlyIncreasing(fingerprints) && GroupOf(ordered, f) != []
    ensures WithFingerprint(PlaceAll(ordered, fingerprints).excluded, f)
      == if f in fingerprints then GroupExcluded(FoldGroup(GroupOf(ordered, f))) else []
  {
    if fingerprints != [] {
      var init, last := fingerprints[..|fingerprints| - 1], fingerprints[|fingerprints| - 1];
      assert fingerprints == init + [last];
      assert last !in init;
      ExcludedOfGroup(ordered, init, f);
      var group, before := GroupOf(ordered, last), PlaceAll(ordered, init).excluded;
      if group != [] {
        var set_ := GroupExcluded(FoldGroup(group));
        GroupExcludedFingerprint(ordered, last);
        PlacedExcluded(ordered, fingerprints);
        FilterConcat(before, set_, f);
        if last == f { FilterAll(set_, f); } else { FilterAbsent(set_, f); }
      }
    }
  }

  lemma PlacedExcluded(ordered: seq<Event>, fingerprints: seq<Key>)
    requires fingerprints != [] && GroupOf(ordered, fingerprints[|fingerprints| - 1]) != []
    ensures PlaceAll(ordered, fingerprints).excluded == PlaceAll(ordered, fingerprints[..|fingerprints| - 1]).excluded
      + GroupExcluded(FoldGroup(GroupOf(ordered, fingerprints[|fingerprints| - 1])))
  {
  }

  lemma {:induction false} FoldKeepsId(group: seq<Event>, id: Key)
    requires group != [] && forall x :: x in group ==> x.id == id
    ensures FoldGroup(group).base.id == id
    ensures forall x :: x in FoldGroup(group).excluded ==> x.id == id
  {
    if |group| > 1 {
      FoldKeepsId(group[..|group| - 1], id);
      assert group[|group| - 1] in group;
    } else {
      assert group[0] in group;
    }
  }

  lemma ExcludedShareId(events: seq<Event>, f: Key)
    requires Canonical(events)
    ensures TiesInGroup(ById, Grouped(events).excluded, f)
  {
    var ordered := SortBy(ByFingerprintAndId, events);
    ExcludedStayInGroup(ordered, SortedDistinct(Fingerprints(events)));
    var group := GroupOf(ordered, f);
    if group != [] {
      GroupIsArrival(events, f);
      WithFingerprintMembers(events, f);
      assert group[0] in group;
      FoldKeepsId(group, group[0].id);
    }
  }

  /** The excluded events of one fingerprint, as they come out. */
  lemma ExcludedOfFingerprint(events: seq<Event>, asOf: Option<int>, f: Key)
    requires Canonical(events) && WithFingerprint(events, f) != []
    ensures WithFingerprint(ReconcileEvents(events, asOf).excluded, f) == GroupExcluded(FoldGroup(WithFingerprint(events, f)))
  {
    GroupedExcluded(events, f);
    ExcludedShareId(events, f);
    SortIsStable(ById, Grouped(events).excluded, f);
  }

  lemma FingerprintListed(events: seq<Event>, f: Key)
    requires WithFingerprint(events, f) != []
    ensures f in SortedDistinct(Fingerprints(events))
  {
    SortKeepsElements(ByFingerprintAndId, events);
    WithFingerprintMembers(events, f);
    assert WithFingerprint(events, f)[0] in WithFingerprint(events, f);
    FingerprintHasMembers(events, f);
  }

  lemma GroupedExcluded(events: seq<Event>, f: Key)
    requires Canonical(events) && WithFingerprint(events, f) != []
    ensures WithFingerprint(Grouped(events).excluded, f) == GroupExcluded(FoldGroup(WithFingerprint(events, f)))
  {
    GroupIsArrival(events, f);
    SortedDistinctSorts(Fingerprints(events));
    FingerprintListed(events, f);
    ExcludedOfGroup(SortBy(ByFingerprintAndId, events), SortedDistinct(Fingerprints(events)), f);
  }

  lemma Rearranged(events: seq<Event>, f: Key, h: seq<Event>)
    requires multiset(h) == multiset(WithFingerprint(events, f))
    ensures multiset(h + Without(events, f)) == multiset(events)
    ensures WithFingerprint(h + Without(events, f), f) == h
  {
    FilterSplits(events, f);
    PermutesConcat(h, WithFingerprint(events, f), Without(events, f), events);
    SameMembers(h, WithFingerprint(events, f));
    WithFingerprintMembers(events, f);
    FilterAll(h, f);
    FilterConcat(h, Without(events, f), f);
  }

  ghost predicate IgnoresOrder(events: seq<Event>, asOf: Option<int>) {
    forall other :: multiset(other) == multiset(events) ==> ReconcileEvents(other, asOf) == ReconcileEvents(events, asOf)
  }

  lemma RearrangementShows(events: seq<Event>, asOf: Option<int>, f: Key, h: seq<Event>)
    requires Canonical(events) && IgnoresOrder(events, asOf) && h != []
    requires multiset(h) == multiset(WithFingerprint(events, f))
    ensures GroupExcluded(FoldGroup(h)) == WithFingerprint(ReconcileEvents(events, asOf).excluded, f)
  {
    var other := h + Without(events, f);
    Rearranged(events, f, h);
    IgnoredOutcome(events, other, asOf);
    PermutationIsCanonical(events, other);
    ExcludedOfFingerprint(other, asOf, f);
  }

  lemma IgnoredOutcome(events: seq<Event>, other: seq<Event>, asOf: Option<int>)
    requires IgnoresOrder(events, asOf) && multiset(other) == multiset(events)
    ensures ReconcileEvents(other, asOf) == ReconcileEvents(events, asOf)
  {
  }

  lemma OrderFreeIfIgnored(events: seq<Event>, asOf: Option<int>, f: Key)
    requires Canonical(events) && IgnoresOrder(events, asOf)
    ensures OrderFree(WithFingerprint(events, f))
  {
    var group := WithFingerprint(events, f);
    AlikeInGroup(events, f);
    if !OrderFree(group) {
      var h, k := TwoOrdersDiffer(group);
      RearrangementShows(events, asOf, f, h);
      RearrangementShows(events, asOf, f, k);
      FirstOfExcluded(FoldGroup(h), FoldGroup(k));
    }
  }

  lemma FirstOfExcluded(g: Group, h: Group)
    requires g.excluded != [] && h.excluded != [] && GroupExcluded(g) == GroupExcluded(h)
    ensures g.excluded[0] == h.excluded[0]
  {
    assert GroupExcluded(g)[0] == g.excluded[0] && GroupExcluded(h)[0] == h.excluded[0];
  }

  lemma AlikeInGroup(events: seq<Event>, f: Key)
    requires Canonical(events)
    ensures forall x, y :: x in WithFingerprint(events, f) && y in WithFingerprint(events, f) ==> Alike(x, y)
  {
    WithFingerprintMembers(events, f);
  }

  ghost predicate AllOrderFree(events: seq<Event>) { forall f :: OrderFree(WithFingerprint(events, f)) }

  /** The outcome of canonical events does not depend on their order of arrival exactly when every fingerprint has
      copies of one event only, or two events on different occasions whose tiers differ in rank. */
  lemma OutcomeIgnoresOrderIff(events: seq<Event>, asOf: Option<int>)
    requires Canonical(events)
    ensures IgnoresOrder(events, asOf) <==> AllOrderFree(events)
  {
    if IgnoresOrder(events, asOf) {
      forall f ensures OrderFree(WithFingerprint(events, f)) { OrderFreeIfIgnored(events, asOf, f); }
    }
    if AllOrderFree(events) {
      forall other | multiset(other) == multiset(events) ensures ReconcileEvents(other, asOf) == ReconcileEvents(events, asOf) {
        IgnoredIfOrderFree(events, other, asOf);
      }
    }
  }

  lemma IgnoredIfOrderFree(events: seq<Event>, other: seq<Event>, asOf: Option<int>)
    requires Canonical(events) && multiset(other) == multiset(events)
    requires AllOrderFree(events)
    ensures ReconcileEvents(other, asOf) == ReconcileEvents(events, asOf)
  {
    forall f ensures SameFold(WithFingerprint(events, f), WithFingerprint(other, f)) {
      FilterPermutes(events, other, f);
      GroupsFold(WithFingerprint(events, f), WithFingerprint(other, f));
    }
    SameFoldsSameOutcome(events, other, asOf);
  }

  lemma GroupsFold(g: seq<Event>, h: seq<Event>)
    requires multiset(g) == multiset(h) && OrderFree(g)
    ensures SameFold(g, h)
  {
    assert |g| == |multiset(g)| == |multiset(h)| == |h|;
    if g != [] { OrderFreeFolds(g, h); }
  }

  lemma TwinsDependOnOrder(a: Event, b: Event, asOf: Option<int>)
    requires Canonical([a, b]) && a.fingerprint == b.fingerprint && a != b && SameOccasion(a, b)
    ensures !IgnoresOrder([a, b], asOf)
  {
    OutcomeIgnoresOrderIff([a, b], asOf);
    FilterAll([a, b], a.fingerprint);
    assert a in [a, b] && b in [a, b];
    assert !OrderFree(WithFingerprint([a, b], a.fingerprint));
  }

  /** Any two reports of one occasion from sources of different tiers are enough: the survivor keeps the tier of the
      report that came first. */
  lemma TierDependsOnOrder(a: Event, b: Event, asOf: Option<int>)
    requires Canonical([a, b]) && a.fingerprint == b.fingerprint && SameOccasion(a, b) && a.tier != b.tier
    ensures FoldGroup([a, b]).base.tier == a.tier && FoldGroup([b, a]).base.tier == b.tier
    ensures !IgnoresOrder([a, b], asOf)
  {
    FoldPair(a, b);
    FoldPair(b, a);
    TwinsDependOnOrder(a, b, asOf);
  }

  /** So it is for an announcement of a primary source and a report of it in the news, each with its own candidate,
      source and revision. */
  lemma NewsBeforePrimary(e: Event, candidate: Key, source: Key, revision: Key, asOf: Option<int>)
    requires e.status.Accepted? && e.failureCodes == [] && e.tier == OfficialPrimary
    requires candidate !in e.candidateIds && source !in e.sourceIds && revision !in e.revisionIds
    ensures var news := e.(candidateIds := [candidate], sourceIds := [source], revisionIds := [revision], tier := MajorNews);
      && FoldGroup([e, news]).base.tier == OfficialPrimary && FoldGroup([news, e]).base.tier == MajorNews
      && !IgnoresOrder([e, news], asOf)
  {
    var news := e.(candidateIds := [candidate], sourceIds := [source], revisionIds := [revision], tier := MajorNews);
    TierDependsOnOrder(e, news, asOf);
  }
}
