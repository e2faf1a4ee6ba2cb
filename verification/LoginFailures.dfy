/**
  Failed logins of one source (api/auth.py, `login_allowed`, `record_failure`,
  `clear_failures`): the list is cut down at every check. Requests run
  concurrently, so a failure may be recorded long after its own check.
 */
module LoginFailures {
  /** A failure names the check (by position) that let its request through. */
  datatype Event =
    | Check(at: int)
    | Failure(checked: nat, at: int)
    | Clear

  function Kept(times: seq<int>, cutoff: int): (r: seq<int>)
    ensures |r| <= |times| && forall t :: t in r <==> t in times && t >= cutoff
  {
    if times == [] then []
    else
      var front := Kept(times[..|times| - 1], cutoff);
      if times[|times| - 1] >= cutoff then front + [times[|times| - 1]] else front
  }

  function Step(times: seq<int>, e: Event, window: nat): seq<int> {
    match e
    case Check(at) => Kept(times, at - window)
    case Failure(_, at) => times + [at]
    case Clear => []
  }

  /** The list kept for the source after a history. */
  function Stored(h: seq<Event>, window: nat): seq<int> {
    if h == [] then [] else Step(Stored(h[..|h| - 1], window), h[|h| - 1], window)
  }

  predicate Allowed(times: seq<int>, now: int, limit: nat, window: nat) {
    |Kept(times, now - window)| < limit
  }

  // --- Histories -----------------------------------------------------------

  ghost predicate Timed(h: seq<Event>) {
    forall i, j :: 0 <= i < j < |h| && !h[i].Clear? && !h[j].Clear? ==> h[i].at <= h[j].at
  }

  ghost predicate LetThrough(h: seq<Event>, j: nat, limit: nat, window: nat)
    requires j < |h| && h[j].Failure?
  {
    var c := h[j].checked;
    c < j && h[c].Check? && Allowed(Stored(h[..c], window), h[c].at, limit, window)
  }

  /** Every failure was let through by a check of its own that found fewer than `limit` recent ones. */
  ghost predicate Checked(h: seq<Event>, limit: nat, window: nat) {
    forall j {:trigger LetThrough(h, j, limit, window)} ::
      0 <= j < |h| && h[j].Failure? ==> LetThrough(h, j, limit, window)
  }

  /** The failures already let through when check `c` happens (or by it), and recorded after it. */
  ghost function InFlight(h: seq<Event>, c: nat): set<nat> {
    set j: nat | c < j < |h| && h[j].Failure? && h[j].checked <= c
  }

  ghost predicate FewInFlight(h: seq<Event>, c: nat, k: nat) {
    |InFlight(h, c)| <= k
  }

  ghost predicate AtMostInFlight(h: seq<Event>, k: nat) {
    forall c: nat :: c < |h| && h[c].Check? ==> FewInFlight(h, c, k)
  }

  /** The position after the last clear. */
  function Cleared(h: seq<Event>): (n: nat)
    ensures n <= |h|
  {
    if h == [] then 0 else if h[|h| - 1].Clear? then |h| else Cleared(h[..|h| - 1])
  }

  /** All failures since the last clear that lie in `from ..= to`, counted from the full history. */
  ghost function FailuresIn(h: seq<Event>, from: int, to: int): set<nat> {
    set j: nat | Cleared(h) <= j < |h| && h[j].Failure? && from <= h[j].at <= to
  }

  // --- The cut-down list counts what the history holds ---------------------

  lemma {:induction false} KeptTwice(times: seq<int>, a: int, b: int)
    requires a <= b
    ensures Kept(Kept(times, a), b) == Kept(times, b)
  {
    if times != [] {
      var front, last := times[..|times| - 1], times[|times| - 1];
      KeptTwice(front, a, b);
      if last >= a {
        assert Kept(times, a) == Kept(front, a) + [last];
        assert Kept(times, a)[..|Kept(times, a)| - 1] == Kept(front, a);
      }
    }
  }

  lemma OneMore(h: seq<Event>, last: Event, from: int, to: int)
    ensures
      var before := FailuresIn(h, from, to);
      FailuresIn(h + [last], from, to) ==
        if last.Clear? then {}
        else if last.Failure? && from <= last.at <= to then before + {|h|}
        else before
  {
    var g := h + [last];
    assert g[|h|] == last && g[..|h|] == h && forall k :: 0 <= k < |h| ==> g[k] == h[k];
    assert Cleared(g) == if last.Clear? then |g| else Cleared(h);
  }

  lemma KeptSnoc(times: seq<int>, t: int, cutoff: int)
    ensures |Kept(times + [t], cutoff)| == |Kept(times, cutoff)| + if t >= cutoff then 1 else 0
  {
    assert (times + [t])[..|times|] == times;
  }

  /** Cutting the list at checks never loses a failure a later check would count. */
  lemma {:induction false} StoredCountsHistory(h: seq<Event>, from: int, to: int, window: nat)
    requires forall i :: 0 <= i < |h| && h[i].Check? ==> h[i].at - window <= from
    requires forall i :: 0 <= i < |h| && h[i].Failure? ==> h[i].at <= to
    ensures |Kept(Stored(h, window), from)| == |FailuresIn(h, from, to)|
    decreases |h|
  {
    if h != [] {
      hide FailuresIn, Kept;
      var past, last := h[..|h| - 1], h[|h| - 1];
      assert h == past + [last];
      StoredCountsHistory(past, from, to, window);
      OneMore(past, last, from, to);
      var times := Stored(past, window);
      match last
      case Check(at) =>
        KeptTwice(times, at - window, from);
      case Failure(_, at) =>
        KeptSnoc(times, at, from);
        NotYet(past, from, to);
      case Clear =>
        assert Stored(h, window) == [];
    }
  }

  lemma NotYet(h: seq<Event>, from: int, to: int)
    ensures |h| !in FailuresIn(h, from, to)
  {
  }

  lemma {:induction false} ClearedEarlier(h: seq<Event>, n: nat)
    requires n <= |h|
    ensures Cleared(h[..n]) <= Cleared(h)
    decreases |h|
  {
    if n < |h| {
      ClearedEarlier(h[..|h| - 1], n);
      assert h[..|h| - 1][..n] == h[..n];
    } else {
      assert h[..n] == h;
    }
  }

  lemma {:induction false} LatestChecked(h: seq<Event>, r: set<nat>) returns (latest: nat)
    requires r != {} && forall j :: j in r ==> j < |h| && h[j].Failure?
    ensures latest in r && forall j :: j in r ==> h[j].checked <= h[latest].checked
    decreases |r|
  {
    latest :| latest in r;
    if r != {latest} {
      assert r - {latest} != {};
      var other := LatestChecked(h, r - {latest});
      if h[other].checked > h[latest].checked {
        latest := other;
      }
    }
  }

  lemma SubsetBound(a: set<nat>, b: set<nat>)
    requires a <= b
    ensures |a| <= |b|
  {
    assert b == a + (b - a);
  }

  ghost function Early(r: set<nat>, c: nat): (e: set<nat>)
    ensures e <= r && |r| == |e| + |r - e|
  {
    var e := set j | j in r && j < c;
    assert r == e + (r - e);
    e
  }

  /** What was recorded before a check that passed, it counted. */
  lemma EarlyBound(h: seq<Event>, from: int, limit: nat, window: nat, f: nat)
    requires Timed(h) && Checked(h, limit, window)
    requires f in FailuresIn(h, from, from + window)
    ensures |Early(FailuresIn(h, from, from + window), h[f].checked)| < limit
    ensures h[f].checked < |h| && h[h[f].checked].Check?
  {
    assert LetThrough(h, f, limit, window);
    var c := h[f].checked;
    assert c < f < |h| && h[c].Check? && h[c].at <= h[f].at <= from + window;
    hide FailuresIn, Early, Timed, Stored, Kept, Cleared;
    CountedAt(h, c, from, window);
  }

  lemma CountedAt(h: seq<Event>, c: nat, from: int, window: nat)
    requires Timed(h) && c < |h| && h[c].Check? && h[c].at <= from + window
    ensures |Early(FailuresIn(h, from, from + window), c)|
         <= |Kept(Stored(h[..c], window), h[c].at - window)|
  {
    hide Cleared, Stored, Kept;
    var past := h[..c];
    assert forall i :: 0 <= i < c ==> past[i] == h[i];
    var counted := FailuresIn(past, h[c].at - window, h[c].at);
    StoredCountsHistory(past, h[c].at - window, h[c].at, window);
    ClearedEarlier(h, c);
    SubsetBound(Early(FailuresIn(h, from, from + window), c), counted);
  }

  lemma LateBound(h: seq<Event>, r: set<nat>, c: nat)
    requires forall j :: j in r ==> j < |h| && h[j].Failure? && h[j].checked <= c
    requires c < |h| && h[c].Check?
    ensures r - Early(r, c) <= InFlight(h, c)
  {
  }

  /**
    With at most `k` requests past their check at any time, every window since
    the last clear holds at most `limit - 1 + k` failures.
   */
  lemma WindowBound(h: seq<Event>, from: int, limit: nat, window: nat, k: nat)
    requires Timed(h) && Checked(h, limit, window)
    requires AtMostInFlight(h, k)
    ensures FailuresIn(h, from, from + window) != {} ==> |FailuresIn(h, from, from + window)| <= limit - 1 + k
  {
    var r := FailuresIn(h, from, from + window);
    assert forall j :: j in r ==> j < |h| && h[j].Failure?;
    hide Checked, FailuresIn, InFlight, Early, Timed;
    if r != {} {
      var latest := LatestChecked(h, r);
      var late := r - Early(r, h[latest].checked);
      EarlyBound(h, from, limit, window, latest);
      LateBound(h, r, h[latest].checked);
      SubsetBound(late, InFlight(h, h[latest].checked));
    }
  }

  /** One request after the other: check, then at once a failure or a clear, or nothing because it was refused. */
  ghost predicate Sequential(h: seq<Event>) {
    forall j :: 0 <= j < |h| && h[j].Failure? ==> h[j].checked == j - 1
  }

  /** Then no window since the last clear ever holds more than `limit` failures. */
  lemma SequentialWindowBound(h: seq<Event>, from: int, limit: nat, window: nat)
    requires Timed(h) && Checked(h, limit, window) && Sequential(h)
    ensures |FailuresIn(h, from, from + window)| <= limit
  {
    hide Checked, FailuresIn;
    forall c: nat | c < |h| ensures |InFlight(h, c)| <= 1 {
      SubsetBound(InFlight(h, c), {c + 1});
    }
    WindowBound(h, from, limit, window, 1);
  }

  // --- The bound is reached ------------------------------------------------

  /** `n` requests that fail one after the other, then `k` that all check before any of them fails, all at once. */
  function Burst(n: nat, k: nat): (h: seq<Event>)
    ensures |h| == 2 * n + 2 * k
  {
    seq(2 * n, i requires 0 <= i < 2 * n => if i % 2 == 0 then Check(0) else Failure(i - 1, 0))
    + seq(k, i => Check(0))
    + seq(k, i requires 0 <= i < k => Failure(2 * n + i, 0))
  }

  lemma BurstAt(n: nat, k: nat, j: nat)
    requires j < 2 * n + 2 * k
    ensures Burst(n, k)[j] ==
      if j < 2 * n then (if j % 2 == 0 then Check(0) else Failure(j - 1, 0))
      else if j < 2 * n + k then Check(0)
      else Failure(j - k, 0)
  {
  }

  lemma {:induction false} NeverCleared(h: seq<Event>)
    requires forall e :: e in h ==> !e.Clear?
    ensures Cleared(h) == 0
    decreases |h|
  {
    if h != [] {
      NeverCleared(h[..|h| - 1]);
      assert h[|h| - 1] in h;
    }
  }

  ghost function Positions(m: nat, n: nat): (r: set<nat>)
    ensures |r| == n && forall j :: j in r <==> m <= j < m + n
    decreases n
  {
    if n == 0 then {} else Positions(m, n - 1) + {m + n - 1}
  }

  ghost function Odds(n: nat): (r: set<nat>)
    ensures |r| == n && forall j :: j in r <==> 0 <= j < 2 * n && j % 2 == 1
  {
    if n == 0 then {} else Odds(n - 1) + {2 * n - 1}
  }

  /** Failures among the first `c` events of a burst: one for every second of the sequential ones. */
  lemma {:induction false} BurstStored(n: nat, k: nat, c: nat, window: nat)
    requires c <= 2 * n + k
    ensures |Stored(Burst(n, k)[..c], window)| == (if c <= 2 * n then c / 2 else n)
    ensures forall t :: t in Stored(Burst(n, k)[..c], window) ==> t == 0
    decreases c
  {
    hide Burst, Kept;
    if c > 0 {
      var h := Burst(n, k);
      var past := Stored(h[..c - 1], window);
      BurstAt(n, k, c - 1);
      BurstStored(n, k, c - 1, window);
      assert h[..c][..c - 1] == h[..c - 1] && h[..c][c - 1] == h[c - 1];
      assert Stored(h[..c], window) == Step(past, h[c - 1], window);
      AllKept(past, 0 - window);
    }
  }

  lemma {:induction false} AllKept(times: seq<int>, cutoff: int)
    requires forall t :: t in times ==> t >= cutoff
    ensures Kept(times, cutoff) == times
  {
    if times != [] {
      var front := times[..|times| - 1];
      assert times[|times| - 1] in times && times == front + [times[|times| - 1]];
      forall t | t in front ensures t >= cutoff {
        var i :| 0 <= i < |front| && front[i] == t;
        assert times[i] == t && times[i] in times;
      }
      AllKept(front, cutoff);
    }
  }

  lemma BurstIsChecked(n: nat, k: nat, window: nat)
    ensures Timed(Burst(n, k)) && Checked(Burst(n, k), n + 1, window)
  {
    var h := Burst(n, k);
    forall j | 0 <= j < |h| && h[j].Failure? ensures LetThrough(h, j, n + 1, window) {
      BurstAt(n, k, j);
      var c := h[j].checked;
      BurstAt(n, k, c);
      BurstStored(n, k, c, window);
    }
    forall i | 0 <= i < |h| ensures !h[i].Clear? && h[i].at == 0 {
      BurstAt(n, k, i);
    }
  }

  lemma BurstInFlight(n: nat, k: nat, c: nat)
    requires k >= 1 && c < 2 * n + 2 * k
    ensures FewInFlight(Burst(n, k), c, k)
  {
    hide Burst;
    var h := Burst(n, k);
    var few := if c < 2 * n then {c + 1} else Positions(2 * n + k, k);
    forall j | j in InFlight(h, c) ensures j in few {
      BurstAt(n, k, j);
    }
    SubsetBound(InFlight(h, c), few);
  }

  lemma BurstFailures(n: nat, k: nat, window: nat)
    ensures |FailuresIn(Burst(n, k), 0, window)| == n + k
  {
    var h := Burst(n, k);
    forall e | e in h ensures !e.Clear? {
      var i :| 0 <= i < |h| && h[i] == e;
      BurstAt(n, k, i);
    }
    NeverCleared(h);
    hide Cleared, Burst;
    var r, odd, late := FailuresIn(h, 0, window), Odds(n), Positions(2 * n + k, k);
    forall j: nat ensures j in r <==> j in odd + late {
      if j < |h| {
        BurstAt(n, k, j);
      }
    }
    assert r == odd + late && odd !! late;
  }

  /** For every limit and every `k` there is a history with at most `k` in flight that reaches the bound in one window. */
  lemma BoundIsReached(limit: nat, k: nat, window: nat)
    requires limit >= 1 && k >= 1
    ensures
      var h := Burst(limit - 1, k);
      && Timed(h) && Checked(h, limit, window) && AtMostInFlight(h, k)
      && |FailuresIn(h, 0, window)| == limit - 1 + k
  {
    hide Burst, Timed, Checked, InFlight, FailuresIn;
    BurstIsChecked(limit - 1, k, window);
    var h := Burst(limit - 1, k);
    forall c: nat | c < |h| ensures FewInFlight(h, c, k) {
      BurstInFlight(limit - 1, k, c);
    }
    BurstFailures(limit - 1, k, window);
  }

  ghost predicate Within(h: seq<Event>, from: int, limit: nat, window: nat) {
    |FailuresIn(h, from, from + window)| <= limit
  }

  /** No history with at most `k` requests past their check puts more than the limit into a window. */
  ghost predicate LimitHolds(limit: nat, window: nat, k: nat) {
    forall h: seq<Event>, from: int {:trigger Within(h, from, limit, window)} ::
      Timed(h) && Checked(h, limit, window) && AtMostInFlight(h, k) ==> Within(h, from, limit, window)
  }

  /** So the limit is a limit exactly for one request at a time. */
  lemma LimitHoldsIff(limit: nat, window: nat, k: nat)
    requires limit >= 1
    ensures LimitHolds(limit, window, k) <==> k <= 1
  {
    hide Timed, Checked, FailuresIn, AtMostInFlight, Burst;
    if k <= 1 {
      forall h: seq<Event>, from: int | Timed(h) && Checked(h, limit, window) && AtMostInFlight(h, k)
        ensures Within(h, from, limit, window)
      {
        WindowBound(h, from, limit, window, k);
      }
    } else {
      BoundIsReached(limit, k, window);
      assert !Within(Burst(limit - 1, k), 0, limit, window);
    }
  }
}
