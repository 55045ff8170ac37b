/** The sliding-window rate limit of the HTTP layer (`rate_limit` in backend/src/api/main.py). */
module RateLimit {
  import opened Keys

  const WINDOW: real := 60.0

  /** The deque once its expired head has been popped. */
  function Fresh(window: seq<real>, now: real): seq<real> {
    if window != [] && window[0] <= now - WINDOW then Fresh(window[1..], now) else window
  }

  predicate Admits(window: seq<real>, now: real, limit: nat) {
    |Fresh(window, now)| < limit
  }

  function After(window: seq<real>, now: real, limit: nat): seq<real> {
    Fresh(window, now) + if Admits(window, now, limit) then [now] else []
  }

  class RateLimiter {
    /** One deque of admission times for each client. */
    var windows: map<Key, seq<real>>

    constructor ()
      ensures windows == map[]
    {
      windows := map[];
    }

    function WindowOf(client: Key): seq<real>
      reads this
    {
      if client in windows then windows[client] else []
    }

    /** A limit that is not positive switches the check off. Other clients' windows are never touched. */
    method HandleRequest(client: Key, now: real, limit: int) returns (admitted: bool)
      modifies this
      ensures limit <= 0 ==> admitted && windows == old(windows)
      ensures limit > 0 ==>
        && admitted == Admits(old(WindowOf(client)), now, limit)
        && windows == old(windows)[client := After(old(WindowOf(client)), now, limit)]
    {
      if limit <= 0 { return true; }
      var window := WindowOf(client);
      while window != [] && window[0] <= now - WINDOW
        invariant Fresh(window, now) == Fresh(old(WindowOf(client)), now)
        invariant windows == old(windows)
        decreases |window|
      {
        window := window[1..];
      }
      if |window| >= limit {
        assert window == After(old(WindowOf(client)), now, limit);
        windows := windows[client := window];
        return false;
      }
      windows := windows[client := window + [now]];
      return true;
    }
  }

  /** One client's deque and the times at which its requests were admitted. */
  datatype Replayed = Replayed(window: seq<real>, admitted: seq<real>)

  function Step(r: Replayed, now: real, limit: nat): Replayed {
    Replayed(After(r.window, now, limit), r.admitted + if Admits(r.window, now, limit) then [now] else [])
  }

  function Replay(requests: seq<real>, limit: nat): Replayed {
    if requests == [] then Replayed([], [])
    else Step(Replay(requests[..|requests| - 1], limit), requests[|requests| - 1], limit)
  }

  ghost predicate NonDecreasing(s: seq<real>) {
    forall i, j :: 0 <= i < j < |s| ==> s[i] <= s[j]
  }

  /** How many of the times lie after `from` and not after `to`. */
  function CountIn(s: seq<real>, from: real, to: real): nat {
    if s == [] then 0
    else CountIn(s[..|s| - 1], from, to) + if from < s[|s| - 1] <= to then 1 else 0
  }

  /** The times newer than `from`, in order. */
  function Newer(s: seq<real>, from: real): seq<real> {
    if s == [] then [] else (if s[0] > from then [s[0]] else []) + Newer(s[1..], from)
  }

  lemma {:induction false} FreshIsNewer(s: seq<real>, now: real)
    requires NonDecreasing(s)
    ensures Fresh(s, now) == Newer(s, now - WINDOW)
  {
    if s != [] {
      if s[0] > now - WINDOW {
        NewerAll(s, now - WINDOW);
      } else {
        FreshIsNewer(s[1..], now);
      }
    }
  }

  lemma {:induction false} NewerAll(s: seq<real>, from: real)
    requires forall i :: 0 <= i < |s| ==> s[i] > from
    ensures Newer(s, from) == s
  {
    if s != [] { NewerAll(s[1..], from); }
  }

  lemma {:induction false} NewerAppend(s: seq<real>, x: real, from: real)
    ensures Newer(s + [x], from) == Newer(s, from) + if x > from then [x] else []
  {
    if s == [] {
      assert s + [x] == [x];
      assert Newer([x], from) == (if x > from then [x] else []) + Newer([], from);
    } else {
      NewerAppend(s[1..], x, from);
      assert (s + [x])[1..] == s[1..] + [x];
    }
  }

  lemma {:induction false} NewerOfNewer(s: seq<real>, from: real, later: real)
    requires from <= later
    ensures Newer(Newer(s, from), later) == Newer(s, later)
  {
    if s != [] {
      NewerOfNewer(s[1..], from, later);
      var rest := Newer(s[1..], from);
      if s[0] > from {
        assert Newer(s, from) == [s[0]] + rest && ([s[0]] + rest)[1..] == rest;
      } else {
        assert Newer(s, from) == rest;
      }
    }
  }

  lemma {:induction false} NewerLength(s: seq<real>, from: real, to: real)
    requires forall i :: 0 <= i < |s| ==> s[i] <= to
    ensures |Newer(s, from)| == CountIn(s, from, to)
  {
    if s != [] {
      var init, x := s[..|s| - 1], s[|s| - 1];
      NewerLength(init, from, to);
      NewerAppend(init, x, from);
      assert s == init + [x];
    }
  }

  lemma {:induction false} CountMonotone(s: seq<real>, from: real, to: real, wideFrom: real, wideTo: real)
    requires wideFrom <= from && to <= wideTo
    ensures CountIn(s, from, to) <= CountIn(s, wideFrom, wideTo)
  {
    if s != [] { CountMonotone(s[..|s| - 1], from, to, wideFrom, wideTo); }
  }

  lemma CountAppend(s: seq<real>, x: real, from: real, to: real)
    ensures CountIn(s + [x], from, to) == CountIn(s, from, to) + if from < x <= to then 1 else 0
  {
    assert (s + [x])[..|s|] == s;
  }

  lemma {:induction false} CountUpTo(s: seq<real>, from: real, now: real, to: real)
    requires now <= to && forall i :: 0 <= i < |s| ==> s[i] <= now
    ensures CountIn(s, from, to) == CountIn(s, from, now)
  {
    if s != [] { CountUpTo(s[..|s| - 1], from, now, to); }
  }

  lemma {:induction false} NewerNonDecreasing(s: seq<real>, from: real)
    requires NonDecreasing(s)
    ensures NonDecreasing(Newer(s, from))
    ensures forall x :: x in Newer(s, from) ==> x in s
  {
    if s != [] { NewerNonDecreasing(s[1..], from); }
  }

  /** The deque holds exactly the admissions of the 60 seconds up to the last request. */
  ghost predicate Exact(r: Replayed, last: real) {
    && NonDecreasing(r.admitted)
    && (forall i :: 0 <= i < |r.admitted| ==> r.admitted[i] <= last)
    && r.window == Newer(r.admitted, last - WINDOW)
  }

  lemma FreshIsRecent(r: Replayed, last: real, now: real)
    requires Exact(r, last) && last <= now
    ensures Fresh(r.window, now) == Newer(r.admitted, now - WINDOW)
    ensures |Fresh(r.window, now)| == CountIn(r.admitted, now - WINDOW, now)
  {
    NewerNonDecreasing(r.admitted, last - WINDOW);
    FreshIsNewer(r.window, now);
    NewerOfNewer(r.admitted, last - WINDOW, now - WINDOW);
    NewerLength(r.admitted, now - WINDOW, now);
  }

  lemma StepKeepsExact(r: Replayed, last: real, now: real, limit: nat)
    requires Exact(r, last) && last <= now
    ensures Exact(Step(r, now, limit), now)
  {
    FreshIsRecent(r, last, now);
    NewerAppend(r.admitted, now, now - WINDOW);
    assert r.admitted + [] == r.admitted;
  }

  /** Admissions in the 60 seconds after `from`. */
  function WindowCount(s: seq<real>, from: real): nat { CountIn(s, from, from + WINDOW) }

  ghost predicate Bounded(r: Replayed, limit: nat) {
    forall from: real :: WindowCount(r.admitted, from) <= limit
  }

  lemma StepKeepsBounded(r: Replayed, last: real, now: real, limit: nat)
    requires Exact(r, last) && last <= now && Bounded(r, limit)
    ensures Bounded(Step(r, now, limit), limit)
  {
    FreshIsRecent(r, last, now);
    if !Admits(r.window, now, limit) { assert Step(r, now, limit).admitted == r.admitted; return; }
    forall from: real ensures WindowCount(r.admitted + [now], from) <= limit {
      assert WindowCount(r.admitted, from) <= limit;
      CountAppend(r.admitted, now, from, from + WINDOW);
      if from < now <= from + WINDOW {
        CountUpTo(r.admitted, from, now, from + WINDOW);
        CountMonotone(r.admitted, from, now, now - WINDOW, now);
      }
    }
  }

  lemma {:induction false} ReplayInvariant(requests: seq<real>, limit: nat, last: real)
    requires NonDecreasing(requests)
    requires requests != [] ==> last == requests[|requests| - 1]
    ensures Exact(Replay(requests, limit), last) && Bounded(Replay(requests, limit), limit)
  {
    if requests != [] {
      var init := requests[..|requests| - 1];
      var earlier := if init == [] then last else init[|init| - 1];
      ReplayInvariant(init, limit, earlier);
      StepKeepsExact(Replay(init, limit), earlier, last, limit);
      StepKeepsBounded(Replay(init, limit), earlier, last, limit);
    } else {
      assert forall from: real :: WindowCount([], from) == 0;
    }
  }

  /** No interval of 60 seconds, open at its start, ever holds more admissions than the limit. */
  lemma NoWindowExceedsLimit(requests: seq<real>, limit: nat, from: real)
    requires NonDecreasing(requests)
    ensures WindowCount(Replay(requests, limit).admitted, from) <= limit
  {
    ReplayInvariant(requests, limit, if requests == [] then 0.0 else requests[|requests| - 1]);
  }

  /** After each request the deque holds exactly the admissions of its last 60 seconds. */
  lemma WindowIsRecentAdmissions(requests: seq<real>, limit: nat)
    requires NonDecreasing(requests) && requests != []
    ensures Replay(requests, limit).window == Newer(Replay(requests, limit).admitted, requests[|requests| - 1] - WINDOW)
  {
    ReplayInvariant(requests, limit, requests[|requests| - 1]);
  }

  /** A request is rejected exactly when that many admissions really lie in the 60 seconds up to it. */
  lemma RejectedIffWindowFull(requests: seq<real>, now: real, limit: nat)
    requires NonDecreasing(requests) && (requests != [] ==> requests[|requests| - 1] <= now)
    ensures !Admits(Replay(requests, limit).window, now, limit) <==>
      CountIn(Replay(requests, limit).admitted, now - WINDOW, now) >= limit
  {
    var last := if requests == [] then now else requests[|requests| - 1];
    ReplayInvariant(requests, limit, last);
    FreshIsRecent(Replay(requests, limit), last, now);
  }

  // ---------- closed intervals ----------

  /** Admissions in the 60 seconds from `from` on, both ends included. */
  function ClosedCount(s: seq<real>, from: real): nat {
    if s == [] then 0
    else ClosedCount(s[..|s| - 1], from) + if from <= s[|s| - 1] <= from + WINDOW then 1 else 0
  }

  lemma {:induction false} ClosedWithinTwo(s: seq<real>, from: real)
    ensures ClosedCount(s, from) <= WindowCount(s, from - WINDOW) + WindowCount(s, from)
  {
    if s != [] { ClosedWithinTwo(s[..|s| - 1], from); }
  }

  lemma ClosedAppend(s: seq<real>, x: real, from: real)
    ensures ClosedCount(s + [x], from) == ClosedCount(s, from) + if from <= x <= from + WINDOW then 1 else 0
  {
    assert (s + [x])[..|s|] == s;
  }

  function Repeated(x: real, n: nat): seq<real> { seq(n, _ => x) }

  lemma {:induction false} ExpiredRepeats(x: real, n: nat, now: real)
    requires x <= now - WINDOW
    ensures Fresh(Repeated(x, n), now) == []
  {
    if n > 0 {
      ExpiredRepeats(x, n - 1, now);
      assert Repeated(x, n)[1..] == Repeated(x, n - 1);
    }
  }

  lemma StepAfter(requests: seq<real>, now: real, limit: nat)
    ensures Replay(requests + [now], limit) == Step(Replay(requests, limit), now, limit)
  {
    assert (requests + [now])[..|requests|] == requests;
  }

  /** `n` requests at time 0 within the limit are all admitted. */
  lemma {:induction false} FirstBurst(n: nat, limit: nat)
    requires n <= limit
    ensures Replay(Repeated(0.0, n), limit) == Replayed(Repeated(0.0, n), Repeated(0.0, n))
    ensures ClosedCount(Repeated(0.0, n), 0.0) == n
  {
    if n > 0 {
      FirstBurst(n - 1, limit);
      assert Repeated(0.0, n) == Repeated(0.0, n - 1) + [0.0];
      StepAfter(Repeated(0.0, n - 1), 0.0, limit);
      ClosedAppend(Repeated(0.0, n - 1), 0.0, 0.0);
      assert Fresh(Repeated(0.0, n - 1), 0.0) == Repeated(0.0, n - 1);
    }
  }

  function TwoBursts(limit: nat, n: nat): seq<real> { Repeated(0.0, limit) + Repeated(WINDOW, n) }

  lemma RepeatedAppend(x: real, n: nat)
    ensures Repeated(x, n + 1) == Repeated(x, n) + [x]
  {
  }

  lemma TwoBurstsAppend(limit: nat, n: nat)
    ensures TwoBursts(limit, n + 1) == TwoBursts(limit, n) + [WINDOW]
    ensures TwoBursts(limit, 0) == Repeated(0.0, limit)
  {
    RepeatedAppend(WINDOW, n);
  }

  /** The deque during the second burst, once its expired head has been popped. */
  lemma SecondBurstFresh(limit: nat, n: nat)
    ensures Fresh(if n == 0 then Repeated(0.0, limit) else Repeated(WINDOW, n), WINDOW) == Repeated(WINDOW, n)
  {
    if n == 0 { ExpiredRepeats(0.0, limit, WINDOW); }
  }

  /** At time 60 the first burst has just expired, so a second one is admitted in full. */
  lemma {:induction false} SecondBurst(limit: nat, n: nat)
    requires n <= limit
    ensures Replay(TwoBursts(limit, n), limit)
      == Replayed(if n == 0 then Repeated(0.0, limit) else Repeated(WINDOW, n), TwoBursts(limit, n))
  {
    FirstBurst(limit, limit);
    if n == 0 {
      TwoBurstsAppend(limit, 0);
    } else {
      SecondBurst(limit, n - 1);
      TwoBurstsAppend(limit, n - 1);
      StepAfter(TwoBursts(limit, n - 1), WINDOW, limit);
      SecondBurstFresh(limit, n - 1);
      RepeatedAppend(WINDOW, n - 1);
    }
  }

  lemma {:induction false} TwoBurstsCount(limit: nat, n: nat)
    ensures ClosedCount(TwoBursts(limit, n), 0.0) == limit + n
  {
    TwoBurstsAppend(limit, if n == 0 then 0 else n - 1);
    if n == 0 {
      FirstBurst(limit, limit);
    } else {
      TwoBurstsCount(limit, n - 1);
      ClosedAppend(TwoBursts(limit, n - 1), WINDOW, 0.0);
    }
  }

  /** An interval of 60 seconds that includes both ends holds at most twice the limit, and for every limit some history
      reaches that. */
  lemma ClosedWindowHoldsTwice(limit: nat)
    ensures forall requests, from :: NonDecreasing(requests) ==> ClosedCount(Replay(requests, limit).admitted, from) <= 2 * limit
    ensures exists requests :: NonDecreasing(requests) && ClosedCount(Replay(requests, limit).admitted, 0.0) == 2 * limit
  {
    forall requests, from | NonDecreasing(requests)
      ensures ClosedCount(Replay(requests, limit).admitted, from) <= 2 * limit
    {
      ClosedWithinTwo(Replay(requests, limit).admitted, from);
      NoWindowExceedsLimit(requests, limit, from - WINDOW);
      NoWindowExceedsLimit(requests, limit, from);
    }
    SecondBurst(limit, limit);
    TwoBurstsCount(limit, limit);
    assert NonDecreasing(TwoBursts(limit, limit));
  }

  lemma {:induction false} AdmittedWereRequested(requests: seq<real>, limit: nat)
    ensures forall x :: x in Replay(requests, limit).admitted ==> x in requests
  {
    if requests != [] {
      var init, now := requests[..|requests| - 1], requests[|requests| - 1];
      assert requests == init + [now];
      AdmittedWereRequested(init, limit);
    }
  }

  /** The last of the times before `bound`. */
  lemma {:induction false} LastBefore(s: seq<real>, x: real, bound: real) returns (last: real)
    requires x in s && x < bound
    ensures x <= last < bound && forall y :: y in s && y < bound ==> y <= last
  {
    var init, y := s[..|s| - 1], s[|s| - 1];
    assert s == init + [y];
    if x in init {
      last := LastBefore(init, x, bound);
      if last < y < bound { last := y; }
    } else {
      last := x;
      if z :| z in init && last < z < bound { last := LastBefore(init, z, bound); }
    }
  }

  lemma {:induction false} ClosedCovered(s: seq<real>, from: real, low: real, high: real)
    requires forall i :: 0 <= i < |s| && from <= s[i] <= from + WINDOW ==> low < s[i] <= high
    ensures ClosedCount(s, from) <= CountIn(s, low, high)
  {
    if s != [] { ClosedCovered(s[..|s| - 1], from, low, high); }
  }

  ghost predicate NoExactGap(times: seq<real>) {
    forall x, y :: x in times && y in times ==> y - x != WINDOW
  }

  /** Exact gaps are the only way to beat the limit: unless two requests lie exactly 60 seconds apart, an interval of
      60 seconds that includes both ends holds no more admissions than the limit either. */
  lemma NoExactGapKeepsLimit(requests: seq<real>, limit: nat, from: real)
    requires NonDecreasing(requests) && NoExactGap(requests)
    ensures ClosedCount(Replay(requests, limit).admitted, from) <= limit
  {
    var admitted := Replay(requests, limit).admitted;
    AdmittedWereRequested(requests, limit);
    if from in admitted {
      var last := LastBefore(admitted, from, from + WINDOW);
      NoWindowExceedsLimit(requests, limit, last - WINDOW);
      assert from + WINDOW !in admitted;
      assert forall i :: 0 <= i < |admitted| ==> admitted[i] in admitted;
      ClosedCovered(admitted, from, last - WINDOW, last);
    } else {
      NoWindowExceedsLimit(requests, limit, from);
      ClosedCovered(admitted, from, from, from + WINDOW);
    }
  }

  /** A request that is admitted although the 60 seconds up to it, both ends included, already hold the limit. */
  predicate Overfills(r: Replayed, now: real, limit: nat) {
    Admits(r.window, now, limit) && ClosedCount(r.admitted, now - WINDOW) >= limit
  }

  ghost predicate ClosedBounded(admitted: seq<real>, limit: nat) {
    forall from :: ClosedCount(admitted, from) <= limit
  }

  lemma {:induction false} LastClosedHoldsMost(s: seq<real>, from: real, now: real)
    requires now - WINDOW <= from && forall i :: 0 <= i < |s| ==> s[i] <= now
    ensures ClosedCount(s, from) <= ClosedCount(s, now - WINDOW)
  {
    if s != [] { LastClosedHoldsMost(s[..|s| - 1], from, now); }
  }

  lemma StepClosedIff(r: Replayed, last: real, now: real, limit: nat)
    requires Exact(r, last) && last <= now
    ensures ClosedBounded(Step(r, now, limit).admitted, limit) <==> ClosedBounded(r.admitted, limit) && !Overfills(r, now, limit)
  {
    if Admits(r.window, now, limit) {
      var after := r.admitted + [now];
      assert Step(r, now, limit).admitted == after;
      ClosedAppend(r.admitted, now, now - WINDOW);
      if ClosedBounded(after, limit) {
        forall from ensures ClosedCount(r.admitted, from) <= limit {
          ClosedAppend(r.admitted, now, from);
          assert ClosedCount(after, from) <= limit;
        }
        assert ClosedCount(after, now - WINDOW) <= limit;
      }
      if ClosedBounded(r.admitted, limit) && !Overfills(r, now, limit) {
        forall from ensures ClosedCount(after, from) <= limit {
          ClosedAppend(r.admitted, now, from);
          assert ClosedCount(r.admitted, from) <= limit;
          if from <= now <= from + WINDOW { LastClosedHoldsMost(r.admitted, from, now); }
        }
      }
    } else {
      assert Step(r, now, limit).admitted == r.admitted;
    }
  }

  ghost predicate NoneOverfills(requests: seq<real>, limit: nat) {
    forall k :: 0 <= k < |requests| ==> !Overfills(Replay(requests[..k], limit), requests[k], limit)
  }

  lemma NoneOverfillsNext(requests: seq<real>, limit: nat)
    requires requests != []
    ensures var init, now := requests[..|requests| - 1], requests[|requests| - 1];
      NoneOverfills(requests, limit) <==> NoneOverfills(init, limit) && !Overfills(Replay(init, limit), now, limit)
  {
    var init := requests[..|requests| - 1];
    assert forall k :: 0 <= k < |init| ==> init[..k] == requests[..k] && init[k] == requests[k];
  }

  /** Every interval of 60 seconds with both ends included keeps the limit exactly when no request is admitted although
      the 60 seconds up to it, both ends included, already hold that many admissions. */
  lemma {:induction false} ClosedWindowKeepsLimitIff(requests: seq<real>, limit: nat)
    requires NonDecreasing(requests)
    ensures ClosedBounded(Replay(requests, limit).admitted, limit) <==> NoneOverfills(requests, limit)
  {
    if requests == [] {
      assert forall from :: ClosedCount([], from) == 0;
    } else {
      var init, now := requests[..|requests| - 1], requests[|requests| - 1];
      var last := if init == [] then now else init[|init| - 1];
      ClosedWindowKeepsLimitIff(init, limit);
      ReplayInvariant(init, limit, last);
      StepClosedIff(Replay(init, limit), last, now, limit);
      NoneOverfillsNext(requests, limit);
    }
  }
}
