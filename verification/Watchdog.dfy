/**
  The watchdog loop of `korctl upstream watch` (cli.py): a failure counter, a
  settle window after a successful recovery, and the connect-on-boot gate.
 */
module Watchdog {

  /** The settings the loop reads; the properties below are for settings that stay put. */
  datatype Settings = Settings(threshold: nat, settle: real, interval: real, connectOnBoot: bool)

  ghost predicate ValidSettings(g: Settings) {
    g.threshold >= 1 && g.settle >= 0.0 && g.interval >= 1.0
  }

  /**
    What one tick observes. `now` is the clock read for the settle test, `done`
    the clock read after `recover()` returned, `over` when the tick goes to
    sleep; `recovered` is what `recover()` answers if it is called.
   */
  datatype Tick = Tick(
    enabled: bool,
    selected: bool,
    healthy: bool,
    recovered: bool,
    now: real,
    done: real,
    over: real)

  datatype State = State(failures: nat, settledUntil: real, everConnected: bool)

  const START := State(0, 0.0, false)

  // --- One tick ------------------------------------------------------------

  /** An unhealthy tick of an active profile that the boot gate lets through. */
  predicate Failing(g: Settings, s: State, t: Tick) {
    t.enabled && t.selected && !t.healthy && (g.connectOnBoot || s.everConnected)
  }

  /** A failing tick outside the settle window. */
  predicate Counts(g: Settings, s: State, t: Tick) {
    Failing(g, s, t) && t.now >= s.settledUntil
  }

  predicate Recovers(g: Settings, s: State, t: Tick) {
    Counts(g, s, t) && s.failures + 1 >= g.threshold
  }

  function Next(g: Settings, s: State, t: Tick): State {
    if !Failing(g, s, t) then
      State(0, s.settledUntil, s.everConnected || (t.enabled && t.selected && t.healthy))
    else if !Counts(g, s, t) then s
    else if !Recovers(g, s, t) then s.(failures := s.failures + 1)
    else if t.recovered then State(0, t.done + g.settle, true)
    else s.(failures := 0)
  }

  /** The state in which tick `k` begins. */
  function At(g: Settings, ticks: seq<Tick>, k: nat): State
    requires k <= |ticks|
  {
    if k == 0 then START else Next(g, At(g, ticks, k - 1), ticks[k - 1])
  }

  predicate RecoversAt(g: Settings, ticks: seq<Tick>, k: nat)
    requires k < |ticks|
  {
    Recovers(g, At(g, ticks, k), ticks[k])
  }

  predicate CountsAt(g: Settings, ticks: seq<Tick>, k: nat)
    requires k < |ticks|
  {
    Counts(g, At(g, ticks, k), ticks[k])
  }

  /** Time passes within a tick, and the loop sleeps a full interval between ticks. */
  ghost predicate Timed(g: Settings, ticks: seq<Tick>) {
    && (forall k :: 0 <= k < |ticks| ==> ticks[k].now <= ticks[k].done <= ticks[k].over)
    && (forall k :: 0 < k < |ticks| ==> ticks[k].now >= ticks[k - 1].over + g.interval)
  }

  // --- The loop ------------------------------------------------------------

  /** The endless loop, for as many ticks as it has run. */
  method Watch(g: Settings, ticks: seq<Tick>) returns (recoveries: seq<bool>)
    ensures |recoveries| == |ticks|
    ensures forall k :: 0 <= k < |ticks| ==> (recoveries[k] <==> RecoversAt(g, ticks, k))
  {
    recoveries := [];
    var consecutiveFailures, settledUntil, everConnected := 0, 0.0, false;
    for k := 0 to |ticks|
      invariant |recoveries| == k
      invariant At(g, ticks, k) == State(consecutiveFailures, settledUntil, everConnected)
      invariant forall i :: 0 <= i < k ==> (recoveries[i] <==> RecoversAt(g, ticks, i))
    {
      var t := ticks[k];
      var recovering := false;
      if t.enabled {
        if t.selected {
          if t.healthy {
            consecutiveFailures, everConnected := 0, true;
          } else if !g.connectOnBoot && !everConnected {
            consecutiveFailures := 0;
          } else if t.now < settledUntil {
          } else {
            consecutiveFailures := consecutiveFailures + 1;
            if consecutiveFailures >= g.threshold {
              recovering := true;
              if t.recovered {
                settledUntil, everConnected := t.done + g.settle, true;
              }
              consecutiveFailures := 0;
            }
          }
        } else {
          consecutiveFailures := 0;
        }
      } else {
        consecutiveFailures := 0;
      }
      recoveries := recoveries + [recovering];
    }
  }

  // --- A recovery is always preceded by a full streak ----------------------

  /** Where the current streak of failing ticks began: after the last tick that broke it. */
  function StreakStart(g: Settings, ticks: seq<Tick>, k: nat): (m: nat)
    requires k <= |ticks|
    ensures m <= k
  {
    if k == 0 then 0
    else if !Failing(g, At(g, ticks, k - 1), ticks[k - 1]) || RecoversAt(g, ticks, k - 1) then k
    else StreakStart(g, ticks, k - 1)
  }

  /** How many ticks in [m, k) count. */
  function Counted(g: Settings, ticks: seq<Tick>, m: nat, k: nat): nat
    requires m <= k <= |ticks|
    decreases k
  {
    if k == m then 0 else Counted(g, ticks, m, k - 1) + if CountsAt(g, ticks, k - 1) then 1 else 0
  }

  lemma {:induction false} FailuresCountTheStreak(g: Settings, ticks: seq<Tick>, k: nat)
    requires ValidSettings(g) && k <= |ticks|
    ensures At(g, ticks, k).failures == Counted(g, ticks, StreakStart(g, ticks, k), k) < g.threshold
    ensures forall i :: StreakStart(g, ticks, k) <= i < k ==>
              Failing(g, At(g, ticks, i), ticks[i]) && !RecoversAt(g, ticks, i)
  {
    if k > 0 {
      FailuresCountTheStreak(g, ticks, k - 1);
    }
  }

  /**
    `recover()` runs exactly at the tick that completes a streak of
    `check_threshold` counted failures, with no healthy, unselected, disabled
    or recovering tick among them.
   */
  lemma RecoversIffStreakComplete(g: Settings, ticks: seq<Tick>, k: nat)
    requires ValidSettings(g) && k < |ticks|
    ensures
      var m := StreakStart(g, ticks, k);
      && (RecoversAt(g, ticks, k) <==> CountsAt(g, ticks, k) && Counted(g, ticks, m, k) + 1 == g.threshold)
      && (forall i :: m <= i < k ==> ticks[i].enabled && ticks[i].selected && !ticks[i].healthy && !RecoversAt(g, ticks, i))
  {
    FailuresCountTheStreak(g, ticks, k);
    var m := StreakStart(g, ticks, k);
    forall i | m <= i < k ensures ticks[i].enabled && ticks[i].selected && !ticks[i].healthy {
      assert Failing(g, At(g, ticks, i), ticks[i]);
    }
  }

  // --- Spacing -------------------------------------------------------------

  /** The time `n` full intervals take. */
  function Span(n: nat, interval: real): real {
    if n == 0 then 0.0 else Span(n - 1, interval) + interval
  }

  lemma {:induction false} SpanIsProduct(n: nat, interval: real)
    ensures Span(n, interval) == (n as real) * interval
  {
    if n > 0 {
      SpanIsProduct(n - 1, interval);
      var m: real := (n - 1) as real;
      assert (n as real) * interval == (m + 1.0) * interval == m * interval + interval;
    }
  }

  /** After a success at tick `i`, the m-th counted failure cannot come before the window plus m - 1 intervals. */
  lemma {:induction false} StreakTakesTime(g: Settings, ticks: seq<Tick>, i: nat, k: nat)
    requires ValidSettings(g) && Timed(g, ticks) && i < k <= |ticks|
    requires RecoversAt(g, ticks, i) && ticks[i].recovered
    ensures
      var s := At(g, ticks, k);
      var open := ticks[i].done + g.settle;
      && s.settledUntil >= open && ticks[k - 1].over >= ticks[i].done
      && (s.failures > 0 ==> ticks[k - 1].over >= open + Span(s.failures - 1, g.interval))
    decreases k
  {
    if k > i + 1 {
      StreakTakesTime(g, ticks, i, k - 1);
      assert ticks[k - 1].now >= ticks[k - 2].over + g.interval;
    }
  }

  /** A streak never reaches back across a recovery. */
  lemma StreakAfterRecovery(g: Settings, ticks: seq<Tick>, i: nat, j: nat)
    requires ValidSettings(g) && i < j <= |ticks| && RecoversAt(g, ticks, i)
    ensures i < StreakStart(g, ticks, j)
  {
    FailuresCountTheStreak(g, ticks, j);
  }

  /**
    After a successful recovery the next one starts no earlier than the settle
    window plus `threshold - 1` full intervals later, and the whole streak that
    triggers it lies after the success.
   */
  lemma RecoverySpacing(g: Settings, ticks: seq<Tick>, i: nat, j: nat)
    requires ValidSettings(g) && Timed(g, ticks) && i < j < |ticks|
    requires RecoversAt(g, ticks, i) && ticks[i].recovered && RecoversAt(g, ticks, j)
    ensures ticks[j].now >= ticks[i].done + g.settle + Span(g.threshold - 1, g.interval)
    ensures i < StreakStart(g, ticks, j)
  {
    hide At, Timed;
    StreakAfterRecovery(g, ticks, i, j);
    StreakTakesTime(g, ticks, i, j);
    assert At(g, ticks, j).failures < g.threshold by { FailuresCountTheStreak(g, ticks, j); }
    Rested(g, ticks, j);
  }

  lemma Rested(g: Settings, ticks: seq<Tick>, k: nat)
    requires Timed(g, ticks) && 0 < k < |ticks|
    ensures ticks[k].now >= ticks[k - 1].over + g.interval
  {
  }

  // --- The boot gate -------------------------------------------------------

  lemma {:induction false} ConnectedOnceHealthy(g: Settings, ticks: seq<Tick>, k: nat)
    requires !g.connectOnBoot && k <= |ticks| && At(g, ticks, k).everConnected
    ensures exists i :: 0 <= i < k && ticks[i].enabled && ticks[i].selected && ticks[i].healthy
  {
    if At(g, ticks, k - 1).everConnected {
      ConnectedOnceHealthy(g, ticks, k - 1);
    } else {
      assert ticks[k - 1].healthy;
    }
  }

  /** With connect_on_boot off the watchdog never dials before it has seen the tunnel healthy. */
  lemma NoRecoveryBeforeFirstHealthy(g: Settings, ticks: seq<Tick>, j: nat)
    requires !g.connectOnBoot && j < |ticks| && RecoversAt(g, ticks, j)
    ensures exists i :: 0 <= i < j && ticks[i].enabled && ticks[i].selected && ticks[i].healthy
  {
    ConnectedOnceHealthy(g, ticks, j);
  }

  // --- By the ticks alone --------------------------------------------------

  predicate SawHealthy(t: Tick) {
    t.enabled && t.selected && t.healthy
  }

  predicate SawUnhealthy(t: Tick) {
    t.enabled && t.selected && !t.healthy
  }

  predicate SucceedsAt(g: Settings, ticks: seq<Tick>, i: nat)
    requires i < |ticks|
  {
    RecoversAt(g, ticks, i) && ticks[i].recovered
  }

  /** The watchdog may act: from the start, or since it has seen or made a connection. */
  ghost predicate Awake(g: Settings, ticks: seq<Tick>, k: nat)
    requires k <= |ticks|
  {
    g.connectOnBoot || exists i :: 0 <= i < k && (SawHealthy(ticks[i]) || SucceedsAt(g, ticks, i))
  }

  /** The last tick before `k` whose recovery succeeded. */
  ghost predicate LastSuccess(g: Settings, ticks: seq<Tick>, k: nat, i: nat)
    requires k <= |ticks|
  {
    i < k && SucceedsAt(g, ticks, i) && forall j :: i < j < k ==> !SucceedsAt(g, ticks, j)
  }

  /** The window of the last success before `k` is over at `now`; the clock starts at zero. */
  ghost predicate WindowOver(g: Settings, ticks: seq<Tick>, k: nat, now: real)
    requires k <= |ticks|
  {
    && (forall i: nat :: i < k && LastSuccess(g, ticks, k, i) ==> now >= ticks[i].done + g.settle)
    && ((forall i: nat :: i < k ==> !SucceedsAt(g, ticks, i)) ==> now >= 0.0)
  }

  /** What the loop remembers, told by the ticks. */
  lemma {:induction false} Remembered(g: Settings, ticks: seq<Tick>, k: nat)
    requires k <= |ticks|
    ensures At(g, ticks, k).everConnected <==>
              exists i :: 0 <= i < k && (SawHealthy(ticks[i]) || SucceedsAt(g, ticks, i))
    ensures (forall i: nat :: i < k ==> !SucceedsAt(g, ticks, i)) ==> At(g, ticks, k).settledUntil == 0.0
    ensures forall i: nat :: i < k && LastSuccess(g, ticks, k, i) ==> At(g, ticks, k).settledUntil == ticks[i].done + g.settle
  {
    if k > 0 {
      Remembered(g, ticks, k - 1);
      var s := At(g, ticks, k - 1);
      var t := ticks[k - 1];
      assert At(g, ticks, k) == Next(g, s, t);
      assert SucceedsAt(g, ticks, k - 1) <==> Recovers(g, s, t) && t.recovered;
      hide At;
      forall i: nat | i < k && LastSuccess(g, ticks, k, i)
        ensures At(g, ticks, k).settledUntil == ticks[i].done + g.settle
      {
        if i < k - 1 {
          assert LastSuccess(g, ticks, k - 1, i);
          assert !SucceedsAt(g, ticks, k - 1);
        }
      }
    }
  }

  lemma {:induction false} SomeLastSuccess(g: Settings, ticks: seq<Tick>, k: nat, i: nat) returns (last: nat)
    requires i < k <= |ticks| && SucceedsAt(g, ticks, i)
    ensures LastSuccess(g, ticks, k, last)
    decreases k
  {
    if SucceedsAt(g, ticks, k - 1) {
      last := k - 1;
    } else {
      last := SomeLastSuccess(g, ticks, k - 1, i);
    }
  }

  /** Exactly which ticks count. */
  lemma CountsIff(g: Settings, ticks: seq<Tick>, k: nat)
    requires k < |ticks|
    ensures Failing(g, At(g, ticks, k), ticks[k]) <==> SawUnhealthy(ticks[k]) && Awake(g, ticks, k)
    ensures CountsAt(g, ticks, k) <==> SawUnhealthy(ticks[k]) && Awake(g, ticks, k) && WindowOver(g, ticks, k, ticks[k].now)
  {
    Remembered(g, ticks, k);
    hide At;
    if i: nat :| i < k && SucceedsAt(g, ticks, i) {
      var last := SomeLastSuccess(g, ticks, k, i);
      assert At(g, ticks, k).settledUntil == ticks[last].done + g.settle;
    }
  }

  /** Since `m` every tick was unhealthy with the watchdog awake and none recovered, and before `m` that was not so. */
  ghost predicate Streak(g: Settings, ticks: seq<Tick>, m: nat, k: nat)
    requires m <= k <= |ticks|
  {
    && (forall i :: m <= i < k ==> SawUnhealthy(ticks[i]) && Awake(g, ticks, i) && !RecoversAt(g, ticks, i))
    && (m == 0 || !(SawUnhealthy(ticks[m - 1]) && Awake(g, ticks, m - 1)) || RecoversAt(g, ticks, m - 1))
  }

  /** How many of the ticks in [m, k) lie outside every settle window. */
  ghost function Elapsed(g: Settings, ticks: seq<Tick>, m: nat, k: nat): nat
    requires m <= k <= |ticks|
    decreases k
  {
    if k == m then 0
    else Elapsed(g, ticks, m, k - 1) + if WindowOver(g, ticks, k - 1, ticks[k - 1].now) then 1 else 0
  }

  lemma {:induction false} StreakStarts(g: Settings, ticks: seq<Tick>, k: nat)
    requires ValidSettings(g) && k <= |ticks|
    ensures Streak(g, ticks, StreakStart(g, ticks, k), k)
  {
    hide At, Awake, Failing;
    FailuresCountTheStreak(g, ticks, k);
    var m := StreakStart(g, ticks, k);
    forall i | m <= i < k ensures SawUnhealthy(ticks[i]) && Awake(g, ticks, i) && !RecoversAt(g, ticks, i) {
      CountsIff(g, ticks, i);
    }
    StreakBroken(g, ticks, k);
    if m > 0 {
      CountsIff(g, ticks, m - 1);
    }
  }

  lemma {:induction false} StreakBroken(g: Settings, ticks: seq<Tick>, k: nat)
    requires k <= |ticks|
    ensures
      var m := StreakStart(g, ticks, k);
      m == 0 || !Failing(g, At(g, ticks, m - 1), ticks[m - 1]) || RecoversAt(g, ticks, m - 1)
  {
    if k > 0 {
      StreakBroken(g, ticks, k - 1);
    }
  }

  lemma OneStreak(g: Settings, ticks: seq<Tick>, m: nat, n: nat, k: nat)
    requires m <= k <= |ticks| && n <= k && Streak(g, ticks, m, k) && Streak(g, ticks, n, k)
    ensures m == n
  {
    hide Awake, RecoversAt;
    assert forall i :: n <= i < k ==> SawUnhealthy(ticks[i]) && Awake(g, ticks, i) && !RecoversAt(g, ticks, i);
  }

  lemma {:induction false} CountedIsElapsed(g: Settings, ticks: seq<Tick>, m: nat, k: nat)
    requires m <= k <= |ticks|
    requires forall i :: m <= i < k ==> SawUnhealthy(ticks[i]) && Awake(g, ticks, i)
    ensures Counted(g, ticks, m, k) == Elapsed(g, ticks, m, k)
    decreases k
  {
    hide At, Awake, WindowOver, CountsAt;
    if k > m {
      CountedIsElapsed(g, ticks, m, k - 1);
      CountsIff(g, ticks, k - 1);
    }
  }

  /**
    When `recover` runs, by what the ticks saw: at an unhealthy tick of an active
    profile, the watchdog being awake and the last success's window over, that is
    the threshold-th such one since the streak of unhealthy ticks began.
   */
  lemma RecoversByTicksIff(g: Settings, ticks: seq<Tick>, k: nat)
    requires ValidSettings(g) && k < |ticks|
    ensures RecoversAt(g, ticks, k)
       <==> && SawUnhealthy(ticks[k]) && Awake(g, ticks, k) && WindowOver(g, ticks, k, ticks[k].now)
            && exists m: nat :: m <= k && Streak(g, ticks, m, k) && Elapsed(g, ticks, m, k) + 1 == g.threshold
  {
    hide At, Awake, WindowOver, Streak, Elapsed, Counted, CountsAt, RecoversAt;
    var m := StreakStart(g, ticks, k);
    CountsIff(g, ticks, k);
    RecoversIffStreakComplete(g, ticks, k);
    StreakStarts(g, ticks, k);
    StreakMembers(g, ticks, m, k);
    CountedIsElapsed(g, ticks, m, k);
    forall n: nat | n <= k && Streak(g, ticks, n, k) ensures n == m {
      OneStreak(g, ticks, m, n, k);
    }
  }

  lemma StreakMembers(g: Settings, ticks: seq<Tick>, m: nat, k: nat)
    requires m <= k <= |ticks| && Streak(g, ticks, m, k)
    ensures forall i :: m <= i < k ==> SawUnhealthy(ticks[i]) && Awake(g, ticks, i)
  {
    hide Awake, RecoversAt;
  }

  /** With connect_on_boot on, `recover` runs at the tick that completes the first streak, connected before or not. */
  lemma BootRecovers(g: Settings, ticks: seq<Tick>)
    requires ValidSettings(g) && g.connectOnBoot && |ticks| == g.threshold
    requires forall i :: 0 <= i < |ticks| ==> SawUnhealthy(ticks[i]) && ticks[i].now >= 0.0
    ensures RecoversAt(g, ticks, |ticks| - 1)
  {
    var k: nat := |ticks| - 1;
    QuietUntil(g, ticks, k);
    hide At;
    assert At(g, ticks, k).failures == k && At(g, ticks, k).settledUntil == 0.0;
  }

  lemma {:induction false} QuietUntil(g: Settings, ticks: seq<Tick>, k: nat)
    requires g.connectOnBoot && k <= |ticks| && k < g.threshold
    requires forall i :: 0 <= i < |ticks| ==> SawUnhealthy(ticks[i]) && ticks[i].now >= 0.0
    ensures At(g, ticks, k).failures == k && At(g, ticks, k).settledUntil == 0.0
  {
    if k > 0 {
      QuietUntil(g, ticks, k - 1);
      hide At;
      assert At(g, ticks, k) == Next(g, At(g, ticks, k - 1), ticks[k - 1]) by { Unroll(g, ticks, k); }
    }
  }

  lemma Unroll(g: Settings, ticks: seq<Tick>, k: nat)
    requires 0 < k <= |ticks|
    ensures At(g, ticks, k) == Next(g, At(g, ticks, k - 1), ticks[k - 1])
  {
  }
}
