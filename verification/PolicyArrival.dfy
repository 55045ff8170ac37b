/** What the grouping of policies owes to the order in which the notices arrive. The id of a canonical notice is a digest
    of its semantic identity, taken before validation sets its status, so notices from different sources share an id,
    and the sort by id leaves them in their order of arrival. */
module PolicyArrival {
  import opened Keys
  import opened Sorting
  import opened PolicyIdentity
  import opened PolicyReconciler
  import opened PolicyGroups

  // ---------- groups of the same members ----------

  ghost predicate PermutedGroups<T>(g: seq<seq<T>>, h: seq<seq<T>>) {
    |g| == |h| && forall k :: 0 <= k < |g| ==> Permutes(g[k], h[k])
  }

  lemma PermutedTransitive<T>(f: seq<seq<T>>, g: seq<seq<T>>, h: seq<seq<T>>)
    requires PermutedGroups(f, g) && PermutedGroups(g, h)
    ensures PermutedGroups(f, h)
  {
    forall k | 0 <= k < |f| ensures Permutes(f[k], h[k]) {
      assert Permutes(f[k], g[k]) && Permutes(g[k], h[k]);
    }
  }

  lemma PermutedSymmetric<T>(g: seq<seq<T>>, h: seq<seq<T>>)
    requires PermutedGroups(g, h)
    ensures PermutedGroups(h, g)
  {
    assert forall k :: 0 <= k < |g| ==> Permutes(g[k], h[k]);
  }

  lemma PermutedFits(c: Candidate, g: seq<Candidate>, h: seq<Candidate>)
    requires Permutes(g, h)
    ensures FitsGroup(c, g) <==> FitsGroup(c, h)
  {
    SameMembers(g, h);
  }

  lemma {:induction false} PermutedFirstFit(c: Candidate, g: seq<seq<Candidate>>, h: seq<seq<Candidate>>)
    requires PermutedGroups(g, h)
    ensures FirstFit(c, g) == FirstFit(c, h)
  {
    if g != [] {
      PermutedFits(c, g[0], h[0]);
      PermutedFirstFit(c, g[1..], h[1..]);
    }
  }

  lemma PermutedPlace(c: Candidate, g: seq<seq<Candidate>>, h: seq<seq<Candidate>>)
    requires PermutedGroups(g, h)
    ensures PermutedGroups(PlaceInGroup(c, g), PlaceInGroup(c, h))
  {
    PermutedFirstFit(c, g, h);
    var k := FirstFit(c, g);
    if k < |g| { assert Permutes(g[k] + [c], h[k] + [c]); }
  }

  lemma GroupsNext(s: seq<Candidate>, c: Candidate)
    ensures Groups(s + [c]) == PlaceInGroup(c, Groups(s))
  {
    assert (s + [c])[..|s|] == s;
  }

  lemma FirstFitIs(c: Candidate, groups: seq<seq<Candidate>>, k: nat)
    requires k <= |groups| && (k < |groups| ==> FitsGroup(c, groups[k]))
    requires forall i :: 0 <= i < k ==> !FitsGroup(c, groups[i])
    ensures FirstFit(c, groups) == k
  {
  }

  /** A candidate that is equivalent to the one placed before it goes where it would have gone anyway. */
  lemma FitAfter(c: Candidate, d: Candidate, groups: seq<seq<Candidate>>)
    requires Equivalent(d, c)
    ensures FirstFit(d, PlaceInGroup(c, groups)) == FirstFit(d, groups)
  {
    var k, after := FirstFit(d, groups), PlaceInGroup(c, groups);
    forall i | 0 <= i < k ensures !FitsGroup(d, after[i]) {
      assert forall m :: m in groups[i] ==> m in after[i];
    }
    FirstFitIs(d, after, k);
  }

  function PlaceAt<T>(c: T, groups: seq<seq<T>>, k: nat): seq<seq<T>>
    requires k <= |groups|
  {
    if k < |groups| then groups[k := groups[k] + [c]] else groups + [[c]]
  }

  lemma PlacedTwice<T>(c: T, d: T, groups: seq<seq<T>>, i: nat, j: nat)
    requires i <= |groups| && j <= |groups|
    ensures PermutedGroups(PlaceAt(d, PlaceAt(c, groups, i), j), PlaceAt(c, PlaceAt(d, groups, j), i))
  {
    var s, t := PlaceAt(d, PlaceAt(c, groups, i), j), PlaceAt(c, PlaceAt(d, groups, j), i);
    assert |s| == |t|;
    if i != j {
      assert s == t;
    } else {
      var before := if i < |groups| then groups[i] else [];
      assert [] + [c] == [c] && [] + [d] == [d];
      assert s[i] == before + [c] + [d] && t[i] == before + [d] + [c];
      assert forall k :: 0 <= k < |s| && k != i ==> s[k] == t[k];
    }
  }

  lemma SwapPlaces(c: Candidate, d: Candidate, groups: seq<seq<Candidate>>)
    requires Equivalent(c, d)
    ensures PermutedGroups(PlaceInGroup(d, PlaceInGroup(c, groups)), PlaceInGroup(c, PlaceInGroup(d, groups)))
  {
    EquivalenceIsReflexiveAndSymmetric(c, d);
    FitAfter(c, d, groups);
    FitAfter(d, c, groups);
    PlacedTwice(c, d, groups, FirstFit(c, groups), FirstFit(d, groups));
  }

  lemma PassBy(x: Candidate, y: Candidate, groups: seq<seq<Candidate>>, placed: seq<seq<Candidate>>)
    requires PermutedGroups(placed, PlaceInGroup(x, groups)) && Equivalent(x, y)
    ensures PermutedGroups(PlaceInGroup(y, placed), PlaceInGroup(x, PlaceInGroup(y, groups)))
  {
    PermutedPlace(y, placed, PlaceInGroup(x, groups));
    SwapPlaces(x, y, groups);
    PermutedTransitive(PlaceInGroup(y, placed), PlaceInGroup(y, PlaceInGroup(x, groups)), PlaceInGroup(x, PlaceInGroup(y, groups)));
  }

  lemma {:induction false} MoveToEnd(front: seq<Candidate>, x: Candidate, back: seq<Candidate>)
    requires forall y :: y in back ==> Equivalent(x, y)
    ensures PermutedGroups(Groups(front + [x] + back), PlaceInGroup(x, Groups(front + back)))
    decreases |back|
  {
    if back == [] {
      assert front + [x] + back == front + [x] && front + back == front;
      GroupsNext(front, x);
    } else {
      var init, y := back[..|back| - 1], back[|back| - 1];
      assert back == init + [y];
      MoveToEnd(front, x, init);
      assert front + [x] + back == (front + [x] + init) + [y] && front + back == (front + init) + [y];
      GroupsNext(front + [x] + init, y);
      GroupsNext(front + init, y);
      PassBy(x, y, Groups(front + init), Groups(front + [x] + init));
    }
  }

  // ---------- whole lists ----------

  /** Notices of one id are equivalent: they contradict each other in nothing, their status included. */
  ghost predicate IdsAgree(candidates: seq<Candidate>) {
    forall x, y :: x in candidates && y in candidates && x.policy.id == y.policy.id ==> Equivalent(x, y)
  }

  lemma SortedParts(front: seq<Candidate>, x: Candidate, back: seq<Candidate>)
    requires Sorted(ById, front + [x] + back)
    ensures Sorted(ById, front + back) && forall y :: y in back ==> x.policy.id <= y.policy.id
  {
    var s := front + [x] + back;
    var t := front + back;
    forall i, j | 0 <= i < j < |t| ensures ById(t[i], t[j]) {
      assert t[i] == s[if i < |front| then i else i + 1] && t[j] == s[if j < |front| then j else j + 1];
    }
    forall y | y in back ensures x.policy.id <= y.policy.id {
      var k :| 0 <= k < |back| && back[k] == y;
      assert s[|front|] == x && s[|front| + 1 + k] == y;
    }
  }

  lemma LastIsLargest(init: seq<Candidate>, last: Candidate, y: Candidate)
    requires Sorted(ById, init + [last]) && y in init + [last]
    ensures y.policy.id <= last.policy.id
  {
    var s := init + [last];
    var k :| 0 <= k < |s| && s[k] == y;
    assert s[|init|] == last;
  }

  lemma {:induction false} SortedGroups(s: seq<Candidate>, t: seq<Candidate>)
    requires Permutes(s, t) && Sorted(ById, s) && Sorted(ById, t) && IdsAgree(s)
    ensures PermutedGroups(Groups(s), Groups(t))
    decreases |s|
  {
    SameMembers(s, t);
    if s != [] {
      var init, x, front, back := TakeLast(s, t);
      SortedParts(front, x, back);
      forall y | y in back ensures Equivalent(x, y) {
        assert y in t;
        LastIsLargest(init, x, y);
      }
      MoveToEnd(front, x, back);
      PermutedSymmetric(Groups(t), PlaceInGroup(x, Groups(front + back)));
      assert Sorted(ById, init) by { SortedParts(init, x, []); assert init + [x] + [] == s && init + [] == init; }
      SortedGroups(init, front + back);
      GroupsNext(init, x);
      PermutedPlace(x, Groups(init), Groups(front + back));
      PermutedTransitive(Groups(s), PlaceInGroup(x, Groups(front + back)), Groups(t));
    } else {
      assert t == [];
    }
  }

  lemma ByIdIsTotal()
    ensures TotalPreorder(ById)
  {
  }

  /** When notices of one id are equivalent, the groups have the same members whatever the order of arrival. */
  lemma GroupingIgnoresOrder(a: seq<Candidate>, b: seq<Candidate>)
    requires Permutes(a, b) && IdsAgree(a)
    ensures PermutedGroups(Groups(SortBy(ById, a)), Groups(SortBy(ById, b)))
  {
    ByIdIsTotal();
    SortPermutes(ById, a);
    SortPermutes(ById, b);
    SortSorts(ById, a);
    SortSorts(ById, b);
    SameMembers(a, SortBy(ById, a));
    SortedGroups(SortBy(ById, a), SortBy(ById, b));
  }

  // ---------- partitions ----------

  ghost predicate HasGroup(groups: seq<seq<Candidate>>, group: seq<Candidate>) {
    exists j :: 0 <= j < |groups| && Permutes(group, groups[j])
  }

  ghost predicate Refines(g: seq<seq<Candidate>>, h: seq<seq<Candidate>>) {
    forall k :: 0 <= k < |g| ==> HasGroup(h, g[k])
  }

  /** The same groups, up to their numbers and the order of their members. */
  ghost predicate SamePartition(g: seq<seq<Candidate>>, h: seq<seq<Candidate>>) { Refines(g, h) && Refines(h, g) }

  lemma PermutedIsSamePartition(g: seq<seq<Candidate>>, h: seq<seq<Candidate>>)
    requires PermutedGroups(g, h)
    ensures SamePartition(g, h)
  {
    assert forall k :: 0 <= k < |g| ==> Permutes(g[k], h[k]);
    assert forall k :: 0 <= k < |h| ==> Permutes(h[k], g[k]);
  }

  lemma RefinesTransitive(g: seq<seq<Candidate>>, h: seq<seq<Candidate>>, f: seq<seq<Candidate>>)
    requires Refines(g, h) && Refines(h, f)
    ensures Refines(g, f)
  {
    forall k | 0 <= k < |g| ensures HasGroup(f, g[k]) {
      assert HasGroup(h, g[k]);
      var j :| 0 <= j < |h| && Permutes(g[k], h[j]);
      assert HasGroup(f, h[j]);
      var i :| 0 <= i < |f| && Permutes(h[j], f[i]);
      assert Permutes(g[k], f[i]);
    }
  }

  lemma GroupedIsListed(ordered: seq<Candidate>)
    ensures forall k, x :: 0 <= k < |Groups(ordered)| && x in Groups(ordered)[k] ==> x in ordered
    ensures forall x :: x in ordered ==> exists k :: 0 <= k < |Groups(ordered)| && x in Groups(ordered)[k]
  {
    var groups := Groups(ordered);
    GroupsPartition(ordered);
    SameMembers(Flatten(groups), ordered);
    forall x ensures x in ordered <==> exists k :: 0 <= k < |groups| && x in groups[k] { FlattenMember(groups, x); }
  }

  lemma GroupHolding(s: seq<Candidate>, x: Candidate) returns (k: nat)
    requires x in s
    ensures k < |Groups(s)| && x in Groups(s)[k]
  {
    GroupedIsListed(s);
    k :| 0 <= k < |Groups(s)| && x in Groups(s)[k];
  }

  /** Copies of one candidate are in one group. */
  lemma CopiesTogether(s: seq<Candidate>, k: nat, j: nat, x: Candidate)
    requires k < |Groups(s)| && j < |Groups(s)| && x in Groups(s)[k] && x in Groups(s)[j]
    ensures k == j
  {
    GroupsInvariant(s);
    var groups := Groups(s);
    assert PairwiseEquivalent(groups[k]) && PairwiseEquivalent(groups[j]);
    assert FitsGroup(x, groups[k]) && FitsGroup(x, groups[j]);
  }

  lemma {:induction false} OnlyIn<T>(lists: seq<seq<T>>, k: nat, x: T)
    requires k < |lists| && forall j :: 0 <= j < |lists| && j != k ==> x !in lists[j]
    ensures multiset(Flatten(lists))[x] == multiset(lists[k])[x]
  {
    var last := |lists| - 1;
    if k < last {
      OnlyIn(lists[..last], k, x);
      assert x !in lists[last];
    } else {
      FlattenMember(lists[..last], x);
      assert x !in Flatten(lists[..last]);
    }
  }

  lemma GroupCount(s: seq<Candidate>, k: nat, x: Candidate)
    requires k < |Groups(s)| && x in Groups(s)[k]
    ensures multiset(Groups(s)[k])[x] == multiset(s)[x]
  {
    forall j | 0 <= j < |Groups(s)| && j != k ensures x !in Groups(s)[j] {
      if x in Groups(s)[j] { CopiesTogether(s, k, j, x); }
    }
    GroupsPartition(s);
    OnlyIn(Groups(s), k, x);
  }

  lemma ByCounts<T>(a: seq<T>, b: seq<T>)
    requires forall x :: x in a || x in b ==> multiset(a)[x] == multiset(b)[x]
    ensures Permutes(a, b)
  {
    forall x ensures multiset(a)[x] == multiset(b)[x] {
      if x !in a && x !in b {
        assert x !in multiset(a) && x !in multiset(b);
      }
    }
  }

  /** Two groups of one numbered partition each are the same group as soon as they have the same members. */
  lemma SameMembersPermute(s: seq<Candidate>, t: seq<Candidate>, k: nat, j: nat)
    requires Permutes(s, t) && k < |Groups(s)| && j < |Groups(t)|
    requires forall x :: x in Groups(s)[k] <==> x in Groups(t)[j]
    ensures Permutes(Groups(s)[k], Groups(t)[j])
  {
    forall x | x in Groups(s)[k] || x in Groups(t)[j] ensures multiset(Groups(s)[k])[x] == multiset(Groups(t)[j])[x] {
      GroupCount(s, k, x);
      GroupCount(t, j, x);
    }
    ByCounts(Groups(s)[k], Groups(t)[j]);
  }

  // ---------- notices of one id ----------

  /** No notice is equivalent to two others that contradict each other. */
  ghost predicate NoBridge(s: seq<Candidate>) {
    forall o, u, c :: o in s && u in s && c in s && Equivalent(o, u) && Equivalent(u, c) ==> Equivalent(o, c)
  }

  lemma FitsItsClass(s: seq<Candidate>, k: nat, x: Candidate, y: Candidate)
    requires NoBridge(s) && k < |Groups(s)| && x in Groups(s)[k] && y in s && Equivalent(x, y)
    ensures FitsGroup(y, Groups(s)[k])
  {
    GroupsInvariant(s);
    GroupedIsListed(s);
    EquivalenceIsReflexiveAndSymmetric(x, y);
    assert PairwiseEquivalent(Groups(s)[k]);
    forall m | m in Groups(s)[k] ensures Equivalent(y, m) {
      assert Equivalent(x, m) && m in s && x in s;
    }
  }

  /** Without a bridge a group is a class of equivalent notices. */
  lemma GroupIsClass(s: seq<Candidate>, k: nat, x: Candidate, y: Candidate)
    requires NoBridge(s) && k < |Groups(s)| && x in Groups(s)[k] && y in s
    ensures y in Groups(s)[k] <==> Equivalent(x, y)
  {
    GroupsInvariant(s);
    GroupedIsListed(s);
    assert PairwiseEquivalent(Groups(s)[k]);
    var j := GroupHolding(s, y);
    if Equivalent(x, y) && j != k {
      EquivalenceIsReflexiveAndSymmetric(x, y);
      if k < j { FitsItsClass(s, k, x, y); } else { FitsItsClass(s, j, y, x); }
    }
  }

  lemma ClassesRefine(s: seq<Candidate>, t: seq<Candidate>)
    requires Permutes(s, t) && NoBridge(s)
    ensures Refines(Groups(s), Groups(t))
  {
    SameMembers(s, t);
    GroupsInvariant(s);
    GroupedIsListed(s);
    GroupedIsListed(t);
    assert NoBridge(t);
    forall k | 0 <= k < |Groups(s)| ensures HasGroup(Groups(t), Groups(s)[k]) {
      var x := Groups(s)[k][0];
      assert x in Groups(s)[k];
      var j := GroupHolding(t, x);
      forall y ensures y in Groups(s)[k] <==> y in Groups(t)[j] {
        if y in s {
          GroupIsClass(s, k, x, y);
          GroupIsClass(t, j, x, y);
        }
      }
      SameMembersPermute(s, t, k, j);
    }
  }

  lemma {:induction false} SortedIsSorted<T(!new)>(leq: (T, T) -> bool, s: seq<T>)
    requires Sorted(leq, s)
    ensures SortBy(leq, s) == s
  {
    if s != [] {
      SortedIsSorted(leq, s[1..]);
      assert s == [s[0]] + s[1..];
    }
  }

  ghost predicate OneId(s: seq<Candidate>) { forall x, y :: x in s && y in s ==> x.policy.id == y.policy.id }

  lemma ArrivalOrder(s: seq<Candidate>)
    requires OneId(s)
    ensures SortBy(ById, s) == s
  {
    assert Sorted(ById, s);
    SortedIsSorted(ById, s);
  }

  /** Later candidates only extend the groups. */
  lemma {:induction false} GroupsExtend(s: seq<Candidate>, rest: seq<Candidate>, k: nat, x: Candidate)
    requires k < |Groups(s)| && x in Groups(s)[k]
    ensures k < |Groups(s + rest)| && x in Groups(s + rest)[k]
  {
    if rest == [] {
      assert s + rest == s;
    } else {
      var init, c := rest[..|rest| - 1], rest[|rest| - 1];
      GroupsExtend(s, init, k, x);
      assert s + rest == (s + init) + [c];
      GroupsNext(s + init, c);
    }
  }

  lemma BringForward<T>(s: seq<T>, x: T) returns (rest: seq<T>)
    requires x in s
    ensures Permutes(s, [x] + rest) && forall y :: y in s && y != x ==> y in rest
  {
    var k :| 0 <= k < |s| && s[k] == x;
    rest := s[..k] + s[k + 1..];
    assert s == s[..k] + [x] + s[k + 1..];
  }

  /** Of a bridge, the first end to arrive takes the middle. */
  lemma BridgeSplits(o: Candidate, u: Candidate, c: Candidate)
    requires Equivalent(o, u) && Equivalent(u, c) && !Equivalent(o, c)
    ensures Groups([o, u, c]) == [[o, u], [c]]
  {
    EquivalenceIsReflexiveAndSymmetric(o, u);
    EquivalenceIsReflexiveAndSymmetric(o, c);
    assert [o, u, c] == ([] + [o] + [u]) + [c];
    assert Groups([]) == [];
    GroupsNext([], o);
    GroupsNext([] + [o], u);
    GroupsNext([] + [o] + [u], c);
    var one: seq<seq<Candidate>> := [[o]];
    assert PlaceInGroup(o, []) == one;
    FirstFitIs(u, one, 0);
    assert [o] + [u] == [o, u] && one[0 := [o, u]] == [[o, u]];
    assert o in [o, u];
    FirstFitIs(c, [[o, u]], 1);
  }

  lemma BridgeShows(o: Candidate, u: Candidate, c: Candidate, rest: seq<Candidate>)
    requires Equivalent(o, u) && Equivalent(u, c) && !Equivalent(o, c)
    ensures !Refines(Groups([o, u, c] + rest), Groups([c, u, o] + rest))
  {
    var s, t := [o, u, c] + rest, [c, u, o] + rest;
    EquivalenceIsReflexiveAndSymmetric(o, u);
    EquivalenceIsReflexiveAndSymmetric(u, c);
    EquivalenceIsReflexiveAndSymmetric(c, o);
    BridgeSplits(o, u, c);
    BridgeSplits(c, u, o);
    GroupsExtend([o, u, c], rest, 0, o);
    GroupsExtend([o, u, c], rest, 0, u);
    GroupsExtend([c, u, o], rest, 0, u);
    GroupsExtend([c, u, o], rest, 1, o);
    NotTogether(t, 1, 0, o, u, Groups(s)[0]);
  }

  /** A group of two members that are apart in another grouping is no group of that grouping. */
  lemma NotTogether(t: seq<Candidate>, k: nat, j: nat, x: Candidate, y: Candidate, group: seq<Candidate>)
    requires k < |Groups(t)| && j < |Groups(t)| && x in Groups(t)[k] && y in Groups(t)[j] && k != j
    requires x in group && y in group
    ensures !HasGroup(Groups(t), group)
  {
    if HasGroup(Groups(t), group) {
      var i :| 0 <= i < |Groups(t)| && Permutes(group, Groups(t)[i]);
      SameMembers(group, Groups(t)[i]);
      CopiesTogether(t, k, i, x);
      CopiesTogether(t, j, i, y);
    }
  }

  ghost predicate PartitionIgnoresOrder(a: seq<Candidate>) {
    forall b :: Permutes(a, b) ==> SamePartition(Groups(SortBy(ById, a)), Groups(SortBy(ById, b)))
  }

  lemma PermutedOneId(a: seq<Candidate>, b: seq<Candidate>)
    requires OneId(a) && Permutes(a, b)
    ensures OneId(b) && SortBy(ById, b) == b
  {
    SameMembers(a, b);
    ArrivalOrder(b);
  }

  lemma BridgeDepends(a: seq<Candidate>, o: Candidate, u: Candidate, c: Candidate)
    requires OneId(a) && o in a && u in a && c in a && Equivalent(o, u) && Equivalent(u, c) && !Equivalent(o, c)
    ensures !PartitionIgnoresOrder(a)
  {
    EquivalenceIsReflexiveAndSymmetric(o, u);
    EquivalenceIsReflexiveAndSymmetric(u, c);
    var r1 := BringForward(a, o);
    var r2 := BringForward(r1, u);
    var rest := BringForward(r2, c);
    var s, t := [o, u, c] + rest, [c, u, o] + rest;
    ThreeForward(a, o, u, c, r1, r2, rest);
    PermutedOneId(a, s);
    PermutedOneId(a, t);
    ArrivalOrder(a);
    BridgeShows(o, u, c, rest);
    if PartitionIgnoresOrder(a) {
      assert SamePartition(Groups(SortBy(ById, a)), Groups(SortBy(ById, s)));
      assert SamePartition(Groups(SortBy(ById, a)), Groups(SortBy(ById, t)));
      RefinesTransitive(Groups(s), Groups(a), Groups(t));
    }
  }

  lemma PrependPermutes<T>(x: T, s: seq<T>, t: seq<T>)
    requires Permutes(s, t)
    ensures Permutes([x] + s, [x] + t)
  {
    assert multiset([x] + s) == multiset{x} + multiset(s) && multiset([x] + t) == multiset{x} + multiset(t);
  }

  lemma SwapEnds<T>(o: T, u: T, c: T, rest: seq<T>)
    ensures Permutes([o, u, c] + rest, [c, u, o] + rest)
  {
    assert multiset([o, u, c] + rest) == multiset([o, u, c]) + multiset(rest);
    assert multiset([c, u, o] + rest) == multiset([c, u, o]) + multiset(rest);
    assert multiset([o, u, c]) == multiset([c, u, o]);
  }

  lemma ThreeForward<T>(a: seq<T>, o: T, u: T, c: T, r1: seq<T>, r2: seq<T>, rest: seq<T>)
    requires Permutes(a, [o] + r1) && Permutes(r1, [u] + r2) && Permutes(r2, [c] + rest)
    ensures Permutes(a, [o, u, c] + rest) && Permutes(a, [c, u, o] + rest)
  {
    PrependPermutes(u, r2, [c] + rest);
    PrependPermutes(o, r1, [u] + ([c] + rest));
    assert [o] + ([u] + ([c] + rest)) == [o, u, c] + rest;
    SwapEnds(o, u, c, rest);
  }

  /** Notices of one id are grouped alike in every order of arrival exactly when none of them is equivalent to two that
      contradict each other. */
  lemma PartitionIgnoresOrderIff(a: seq<Candidate>)
    requires OneId(a)
    ensures PartitionIgnoresOrder(a) <==> NoBridge(a)
  {
    if NoBridge(a) {
      forall b | Permutes(a, b) ensures SamePartition(Groups(SortBy(ById, a)), Groups(SortBy(ById, b))) {
        ArrivalOrder(a);
        PermutedOneId(a, b);
        SameMembers(a, b);
        ClassesRefine(a, b);
        ClassesRefine(b, a);
      }
    } else {
      var o, u, c :| o in a && u in a && c in a && Equivalent(o, u) && Equivalent(u, c) && !Equivalent(o, c);
      BridgeDepends(a, o, u, c);
    }
  }

  // ---------- what the digest leaves open ----------

  /** What the digest of an id covers: the identity and the terms, but not the status that validation sets. */
  ghost predicate SameContent(x: Candidate, y: Candidate) {
    x.identity == y.identity && x.policy.terms == y.policy.terms
  }

  ghost predicate OneContent(s: seq<Candidate>) { forall x, y :: x in s && y in s ==> SameContent(x, y) }

  lemma ClassesDecide(x: Candidate, y: Candidate)
    requires SameContent(x, y)
    ensures Equivalent(x, y) <==> CompatibleClasses(ClassOf(x.policy), ClassOf(y.policy))
  {
  }

  /** An unknown status beside two different known ones. */
  ghost predicate MixesClasses(s: seq<Candidate>) {
    exists o, u, c :: o in s && u in s && c in s
      && ClassOf(u.policy).UnknownClass?
      && !CompatibleClasses(ClassOf(o.policy), ClassOf(c.policy))
  }

  /** Notices of one id and content are grouped alike in every order of arrival exactly when they do not mix an unknown
      status with two different known ones. */
  lemma ContentPartitionIff(a: seq<Candidate>)
    requires OneId(a) && OneContent(a)
    ensures PartitionIgnoresOrder(a) <==> !MixesClasses(a)
  {
    PartitionIgnoresOrderIff(a);
    forall o, u, c | o in a && u in a && c in a
      ensures (Equivalent(o, u) && Equivalent(u, c) && !Equivalent(o, c)) <==>
        (ClassOf(u.policy).UnknownClass? && !CompatibleClasses(ClassOf(o.policy), ClassOf(c.policy)))
    {
      ClassesDecide(o, u);
      ClassesDecide(u, c);
      ClassesDecide(o, c);
    }
  }

  /** Three copies of one notice, validated to different statuses, are grouped by their order of arrival. */
  lemma StatusesSplit(x: Candidate, z: Candidate, y: Candidate)
    requires OneId([x, z, y]) && OneContent([x, z, y])
    requires ClassOf(z.policy).UnknownClass? && !CompatibleClasses(ClassOf(x.policy), ClassOf(y.policy))
    ensures Groups(SortBy(ById, [x, z, y])) == [[x, z], [y]]
    ensures Groups(SortBy(ById, [y, z, x])) == [[y, z], [x]]
    ensures !SamePartition(Groups(SortBy(ById, [x, z, y])), Groups(SortBy(ById, [y, z, x])))
  {
    assert x in [x, z, y] && z in [x, z, y] && y in [x, z, y];
    ArrivalOrder([x, z, y]);
    ArrivalOrder([y, z, x]);
    ClassesDecide(x, z);
    ClassesDecide(z, y);
    ClassesDecide(x, y);
    EquivalenceIsReflexiveAndSymmetric(x, z);
    EquivalenceIsReflexiveAndSymmetric(z, y);
    EquivalenceIsReflexiveAndSymmetric(x, y);
    BridgeSplits(x, z, y);
    BridgeSplits(y, z, x);
    assert [x, z, y] + [] == [x, z, y] && [y, z, x] + [] == [y, z, x];
    BridgeShows(x, z, y, []);
  }

  // ---------- every context ----------

  /** The block's notices are grouped with any others, of ids that agree, regardless of the order of arrival. */
  ghost predicate SafeInEveryContext(block: seq<Candidate>, id: Key) {
    forall others, a, b :: Foreign(others, id) && Permutes(block + others, a) && Permutes(a, b) ==>
      SamePartition(Groups(SortBy(ById, a)), Groups(SortBy(ById, b)))
  }

  ghost predicate Foreign(others: seq<Candidate>, id: Key) {
    IdsAgree(others) && forall z :: z in others ==> z.policy.id != id
  }

  ghost predicate OfId(block: seq<Candidate>, id: Key) { forall x :: x in block ==> x.policy.id == id }

  /** The identity fields that equivalence never leaves open. */
  ghost predicate SameProgram(block: seq<Candidate>) {
    forall x, y :: x in block && y in block ==>
      x.identity.policyType == y.identity.policyType && x.identity.authority == y.identity.authority && x.identity.name == y.identity.name
  }

  /** A later notice of the same program that states nothing. */
  function Blank(x: Candidate, id: Key): Candidate {
    x.(
      policy := x.policy.(id := id, terms := NO_TERMS, applicationStatus := StatusUnknown, noticeKind := OriginalNotice),
      identity := x.identity.(years := {}, regions := [], purposes := {}, inclusions := {}, exclusions := {}, eligibility := map[]))
  }

  lemma BlankFits(x: Candidate, y: Candidate, id: Key)
    requires SameProgram([x, y])
    ensures Equivalent(Blank(x, id), y)
  {
    assert x in [x, y] && y in [x, y];
  }

  lemma TwoApart(x: Candidate, y: Candidate, rest: seq<Candidate>)
    requires !Equivalent(x, y)
    ensures var g := Groups([x, y] + rest); |g| >= 2 && x in g[0] && y in g[1]
  {
    EquivalenceIsReflexiveAndSymmetric(x, y);
    assert [x, y] == ([] + [x]) + [y];
    assert Groups([]) == [];
    GroupsNext([], x);
    GroupsNext([] + [x], y);
    assert x in [x];
    FirstFitIs(y, [[x]], 1);
    GroupsExtend([x, y], rest, 0, x);
    GroupsExtend([x, y], rest, 1, y);
  }

  lemma BlankJoinsFirst(s: seq<Candidate>, z: Candidate)
    requires s != [] && forall m :: m in s ==> Equivalent(z, m)
    ensures |Groups(s)| > 0 && |Groups(s + [z])| == |Groups(s)|
    ensures z in Groups(s + [z])[0]
  {
    GroupedIsListed(s);
    assert s[0] in s;
    var k := GroupHolding(s, s[0]);
    FirstFitIs(z, Groups(s), 0);
    GroupsNext(s, z);
  }

  lemma FirstTakesBlank(x: Candidate, y: Candidate, rest: seq<Candidate>, z: Candidate)
    requires !Equivalent(x, y) && forall m :: m in [x, y] + rest ==> Equivalent(z, m)
    ensures var g := Groups([x, y] + rest + [z]); |g| >= 2 && x in g[0] && z in g[0] && y in g[1]
  {
    var s := [x, y] + rest;
    TwoApart(x, y, rest);
    BlankJoinsFirst(s, z);
    GroupsExtend(s, [z], 0, x);
    GroupsExtend(s, [z], 1, y);
  }

  lemma LaterStays(s: seq<Candidate>, id: Key, z: Candidate)
    requires OfId(s, id) && z.policy.id > id
    ensures SortBy(ById, s + [z]) == s + [z]
  {
    var t := s + [z];
    forall i, j | 0 <= i < j < |t| ensures ById(t[i], t[j]) { assert t[i] in s; if j < |s| { assert t[j] in s; } }
    SortedIsSorted(ById, t);
  }

  lemma BlankFitsAll(block: seq<Candidate>, x: Candidate, id: Key)
    requires SameProgram(block) && x in block
    ensures forall m :: m in block ==> Equivalent(Blank(x, id), m)
  {
    forall m | m in block ensures Equivalent(Blank(x, id), m) {
      assert SameProgram([x, m]);
      BlankFits(x, m, id);
    }
  }

  lemma BlankSplits(x: Candidate, y: Candidate, rest: seq<Candidate>, z: Candidate)
    requires !Equivalent(x, y) && !Equivalent(y, x) && forall m :: m in [x, y] + rest ==> Equivalent(z, m)
    ensures !Refines(Groups([x, y] + rest + [z]), Groups([y, x] + rest + [z]))
  {
    FirstTakesBlank(x, y, rest, z);
    assert forall m :: m in [y, x] + rest ==> m in [x, y] + rest;
    FirstTakesBlank(y, x, rest, z);
    NotTogether([y, x] + rest + [z], 1, 0, x, z, Groups([x, y] + rest + [z])[0]);
  }

  lemma OneContext(block: seq<Candidate>, id: Key, z: Candidate, a: seq<Candidate>, b: seq<Candidate>)
    requires SafeInEveryContext(block, id) && z.policy.id != id && Permutes(block + [z], a) && Permutes(a, b)
    ensures SamePartition(Groups(SortBy(ById, a)), Groups(SortBy(ById, b)))
  {
    EquivalenceIsReflexiveAndSymmetric(z, z);
    assert Foreign([z], id);
  }

  lemma UnsafePair(block: seq<Candidate>, id: Key, x: Candidate, y: Candidate)
    requires OfId(block, id) && SameProgram(block) && x in block && y in block && !Equivalent(x, y)
    ensures !SafeInEveryContext(block, id)
  {
    EquivalenceIsReflexiveAndSymmetric(x, x);
    EquivalenceIsReflexiveAndSymmetric(x, y);
    var r1 := BringForward(block, x);
    var rest := BringForward(r1, y);
    var z := Blank(x, id + 1);
    var s, t := [x, y] + rest, [y, x] + rest;
    TwoForward(block, x, y, r1, rest);
    SameMembers(block, s);
    SameMembers(block, t);
    BlankFitsAll(block, x, id + 1);
    LaterStays(s, id, z);
    LaterStays(t, id, z);
    BlankSplits(x, y, rest, z);
    ContextPermutes(block, s, t, z);
    if SafeInEveryContext(block, id) { OneContext(block, id, z, s + [z], t + [z]); }
  }

  lemma ContextPermutes<T>(block: seq<T>, s: seq<T>, t: seq<T>, z: T)
    requires Permutes(block, s) && Permutes(block, t)
    ensures Permutes(block + [z], s + [z]) && Permutes(s + [z], t + [z])
  {
  }

  lemma TwoForward<T>(a: seq<T>, x: T, y: T, r1: seq<T>, rest: seq<T>)
    requires Permutes(a, [x] + r1) && Permutes(r1, [y] + rest)
    ensures Permutes(a, [x, y] + rest) && Permutes(a, [y, x] + rest)
  {
    PrependPermutes(x, r1, [y] + rest);
    assert [x] + ([y] + rest) == [x, y] + rest;
    assert multiset([x, y] + rest) == multiset([x, y]) + multiset(rest);
    assert multiset([y, x] + rest) == multiset([y, x]) + multiset(rest);
    assert multiset([x, y]) == multiset([y, x]);
  }

  /** The notices of one id are safe in every context exactly when they are equivalent to each other; for notices of one
      content, when they have at most one known status. */
  lemma SafeInEveryContextIff(block: seq<Candidate>, id: Key)
    requires OfId(block, id) && SameProgram(block)
    ensures SafeInEveryContext(block, id) <==> IdsAgree(block)
  {
    if IdsAgree(block) {
      forall others, a, b | Foreign(others, id) && Permutes(block + others, a) && Permutes(a, b)
        ensures SamePartition(Groups(SortBy(ById, a)), Groups(SortBy(ById, b)))
      {
        SameMembers(block + others, a);
        assert IdsAgree(a);
        GroupingIgnoresOrder(a, b);
        PermutedIsSamePartition(Groups(SortBy(ById, a)), Groups(SortBy(ById, b)));
      }
    } else {
      var x, y :| x in block && y in block && x.policy.id == y.policy.id && !Equivalent(x, y);
      UnsafePair(block, id, x, y);
    }
  }
}
