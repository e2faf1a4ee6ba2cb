/**
  The watchdog loop of `korctl upstream watch` (cli.py) joined with the state
  it watches: which profile is selected and what `recover` answers come from
  that state; only the health probe, the clock and the operations of other
  processes are given.
 */
module WatchdogRuns {
  import opened Options
  import opened Profiles
  import opened Upstream
  import PolicyRouting
  import W = Watchdog
  import UpstreamRecovery
  import UpstreamRouting
  import StaleTargets
  import TargetIdentity
  import Healing = UpstreamHealing

  /** One tick from outside; other processes may slip in before it, while the tunnel is probed, and between the calls. */
  datatype Probe = Probe(
    healthy: bool,
    now: real,
    done: real,
    over: real,
    before: seq<Op>,
    meanwhile: seq<Op>,
    between: seq<Op>,
    late: seq<Op>)

  datatype Joint = Joint(up: State, dog: W.State)

  /** What the watchdog itself sees in that tick. */
  function Seen(c: ValidConfig, w: World, s: State, p: Probe): W.Tick {
    var s0 := Run(c, w, s, p.before);
    W.Tick(c.enabled, Selected(c, s0.marker).Some?, p.healthy,
           Recover(c, w, Run(c, w, s0, p.meanwhile)).ok, p.now, p.done, p.over)
  }

  /** What the branch of the active profile calls. */
  function Reaction(g: W.Settings, dog: W.State, t: W.Tick): seq<Op> {
    if !t.enabled || !t.selected then []
    else if t.healthy then [OpEnsure]
    else if W.Recovers(g, dog, t) then [OpRecover]
    else []
  }

  function OpsOf(c: ValidConfig, w: World, g: W.Settings, j: Joint, p: Probe): seq<Op> {
    if !c.enabled then p.before
    else p.before + p.meanwhile + Reaction(g, j.dog, Seen(c, w, j.up, p)) + p.between + [OpEnforce] + p.late + [OpRefresh]
  }

  /** Where the loop and the tunnels stand after `k` ticks. */
  function Loop(c: ValidConfig, w: World, g: W.Settings, s: State, ps: seq<Probe>, k: nat): Joint
    requires k <= |ps|
  {
    if k == 0 then Joint(s, W.START)
    else
      var j := Loop(c, w, g, s, ps, k - 1);
      Joint(Run(c, w, j.up, OpsOf(c, w, g, j, ps[k - 1])), W.Next(g, j.dog, Seen(c, w, j.up, ps[k - 1])))
  }

  function AllOps(c: ValidConfig, w: World, g: W.Settings, s: State, ps: seq<Probe>, k: nat): seq<Op>
    requires k <= |ps|
  {
    if k == 0 then []
    else AllOps(c, w, g, s, ps, k - 1) + OpsOf(c, w, g, Loop(c, w, g, s, ps, k - 1), ps[k - 1])
  }

  /** The ticks as the watchdog sees them. */
  function Ticks(c: ValidConfig, w: World, g: W.Settings, s: State, ps: seq<Probe>): (ticks: seq<W.Tick>)
    ensures |ticks| == |ps|
  {
    seq(|ps|, k requires 0 <= k < |ps| => Seen(c, w, Loop(c, w, g, s, ps, k).up, ps[k]))
  }

  /** Whether tick `k` calls `recover`. */
  predicate Recovering(c: ValidConfig, w: World, g: W.Settings, s: State, ps: seq<Probe>, k: nat)
    requires k < |ps|
  {
    var j := Loop(c, w, g, s, ps, k);
    W.Recovers(g, j.dog, Seen(c, w, j.up, ps[k]))
  }

  /** The state tick `k` finds. */
  function Found(c: ValidConfig, w: World, g: W.Settings, s: State, ps: seq<Probe>, k: nat): State
    requires k < |ps|
  {
    Run(c, w, Loop(c, w, g, s, ps, k).up, ps[k].before)
  }

  // --- Both views are the same loop ----------------------------------------

  lemma {:induction false} RunSplit(c: ValidConfig, w: World, s: State, a: seq<Op>, b: seq<Op>)
    ensures Run(c, w, s, a + b) == Run(c, w, Run(c, w, s, a), b)
    decreases |a|
  {
    hide Step;
    if a == [] {
      assert a + b == b;
    } else {
      RunSplit(c, w, Step(c, w, s, a[0]), a[1..], b);
      assert (a + b)[0] == a[0] && (a + b)[1..] == a[1..] + b;
    }
  }

  /** The tunnels' side of the loop is a run of locked operations. */
  lemma {:induction false} LoopIsRun(c: ValidConfig, w: World, g: W.Settings, s: State, ps: seq<Probe>, k: nat)
    requires k <= |ps|
    ensures Loop(c, w, g, s, ps, k).up == Run(c, w, s, AllOps(c, w, g, s, ps, k))
  {
    hide Step, OpsOf, Seen;
    if k > 0 {
      LoopIsRun(c, w, g, s, ps, k - 1);
      RunSplit(c, w, s, AllOps(c, w, g, s, ps, k - 1), OpsOf(c, w, g, Loop(c, w, g, s, ps, k - 1), ps[k - 1]));
    }
  }

  /** The watchdog's side is its own loop over what it sees. */
  lemma {:induction false} LoopIsWatch(c: ValidConfig, w: World, g: W.Settings, s: State, ps: seq<Probe>, k: nat)
    requires k <= |ps|
    ensures Loop(c, w, g, s, ps, k).dog == W.At(g, Ticks(c, w, g, s, ps), k)
  {
    hide OpsOf, Seen, Run, Validated, W.Next;
    if k > 0 {
      LoopIsWatch(c, w, g, s, ps, k - 1);
      assert Ticks(c, w, g, s, ps)[k - 1] == Seen(c, w, Loop(c, w, g, s, ps, k - 1).up, ps[k - 1]);
    }
  }

  lemma RecoveringIsSeen(c: ValidConfig, w: World, g: W.Settings, s: State, ps: seq<Probe>, k: nat)
    requires k < |ps|
    ensures Recovering(c, w, g, s, ps, k) <==> W.RecoversAt(g, Ticks(c, w, g, s, ps), k)
  {
    hide Seen, Loop;
    LoopIsWatch(c, w, g, s, ps, k);
  }

  // --- What every watchdog keeps -------------------------------------------

  /** Routing stays isolated and with the selection under a watchdog and any other processes. */
  lemma LoopKeeps(c: ValidConfig, w: World, g: W.Settings, s: State, ps: seq<Probe>, k: nat)
    requires UpstreamRouting.Immune(c) && UpstreamRouting.Good(c, s) && k <= |ps|
    ensures UpstreamRouting.Good(c, Loop(c, w, g, s, ps, k).up)
  {
    hide *;
    LoopIsRun(c, w, g, s, ps, k);
    UpstreamRouting.RunKeeps(c, w, s, AllOps(c, w, g, s, ps, k));
  }

  /** No other process interferes within the tick. */
  predicate Alone(p: Probe) {
    p.meanwhile == [] && p.between == [] && p.late == []
  }

  function Reacted(c: ValidConfig, w: World, s: State, reaction: seq<Op>): State {
    if reaction == [] then s else Step(c, w, s, reaction[0])
  }

  /** An undisturbed tick, written out. */
  lemma TickEnds(c: ValidConfig, w: World, g: W.Settings, s: State, ps: seq<Probe>, k: nat)
    requires k < |ps| && c.enabled && Alone(ps[k])
    ensures
      var j := Loop(c, w, g, s, ps, k);
      var r := Reacted(c, w, Found(c, w, g, s, ps, k), Reaction(g, j.dog, Seen(c, w, j.up, ps[k])));
      Loop(c, w, g, s, ps, k + 1).up == Refresh(c, w, Enforce(c, w, r))
  {
    hide Seen, Run, Step, Refresh, Enforce, W.Recovers, Validated;
    var j := Loop(c, w, g, s, ps, k);
    var p := ps[k];
    var reaction := Reaction(g, j.dog, Seen(c, w, j.up, p));
    var found := Found(c, w, g, s, ps, k);
    var r := Reacted(c, w, found, reaction);
    assert OpsOf(c, w, g, j, p) == p.before + (reaction + [OpEnforce, OpRefresh]);
    RunSplit(c, w, j.up, p.before, reaction + [OpEnforce, OpRefresh]);
    RunSplit(c, w, found, reaction, [OpEnforce, OpRefresh]);
    RunShort(c, w, found, reaction);
    RunClosing(c, w, r);
  }

  lemma RunShort(c: ValidConfig, w: World, s: State, ops: seq<Op>)
    requires |ops| <= 1
    ensures Run(c, w, s, ops) == Reacted(c, w, s, ops)
  {
    hide Step;
    if ops != [] {
      assert ops[1..] == [];
      assert Run(c, w, Step(c, w, s, ops[0]), []) == Step(c, w, s, ops[0]);
    }
  }

  lemma RunClosing(c: ValidConfig, w: World, s: State)
    ensures Run(c, w, s, [OpEnforce, OpRefresh]) == Refresh(c, w, Enforce(c, w, s))
  {
    hide Enforce, Refresh;
    assert [OpEnforce, OpRefresh][1..] == [OpRefresh];
    RunShort(c, w, Enforce(c, w, s), [OpRefresh]);
  }

  /** Whatever happens, no disabled profile is connected when an undisturbed tick ends. */
  lemma DisabledStayDown(c: ValidConfig, w: World, g: W.Settings, s: State, ps: seq<Probe>, k: nat)
    requires k < |ps| && c.enabled && Alone(ps[k])
    ensures forall p :: p in c.profiles && !p.enabled ==> p.name !in Loop(c, w, g, s, ps, k + 1).up.up
  {
    hide Loop, Enforce, Refresh, Reacted, Validated, Seen;
    TickEnds(c, w, g, s, ps, k);
    var j := Loop(c, w, g, s, ps, k);
    EnforceOutcomeShort(c, w, Reacted(c, w, Found(c, w, g, s, ps, k), Reaction(g, j.dog, Seen(c, w, j.up, ps[k]))));
  }

  lemma EnforceOutcomeShort(c: ValidConfig, w: World, s: State)
    ensures forall p :: p in c.profiles && !p.enabled ==> p.name !in Enforce(c, w, s).up
  {
    hide Enforce, Validated;
    UpstreamRecovery.EnforceOutcome(c, w, s);
  }

  /**
    A tick whose `recover` succeeds leaves the selected profile enabled and
    connected if no tunnel dies meanwhile, and the loop does not call `recover`
    again for the settle window and `threshold - 1` intervals.
   */
  lemma RecoveryHolds(c: ValidConfig, w: World, g: W.Settings, s: State, ps: seq<Probe>, k: nat, m: nat)
    requires k < m < |ps| && Alone(ps[k])
    requires W.ValidSettings(g) && W.Timed(g, Ticks(c, w, g, s, ps))
    requires Recovering(c, w, g, s, ps, k) && Recover(c, w, Found(c, w, g, s, ps, k)).ok
    ensures
      var found := Found(c, w, g, s, ps, k);
      var end := Loop(c, w, g, s, ps, k + 1).up;
      Quiet(w, found.clock, end.clock) ==> ActiveName(c, end).Some? && ActiveName(c, end).value in end.up
    ensures Recovering(c, w, g, s, ps, m) ==>
              ps[m].now >= ps[k].done + g.settle + W.Span(g.threshold - 1, g.interval)
  {
    hide Loop, Enforce, Refresh, Recover, Quiet, Validated, W.Timed, W.ValidSettings, W.Span, ActiveName;
    var found := Found(c, w, g, s, ps, k);
    RecoveringReacts(c, w, g, s, ps, k);
    TickEnds(c, w, g, s, ps, k);
    if Quiet(w, found.clock, Loop(c, w, g, s, ps, k + 1).up.clock) {
      UpstreamRecovery.TickKeepsRecovered(c, w, found);
    }
    if Recovering(c, w, g, s, ps, m) {
      RecoveringIsSeen(c, w, g, s, ps, k);
      RecoveringIsSeen(c, w, g, s, ps, m);
      W.RecoverySpacing(g, Ticks(c, w, g, s, ps), k, m);
    }
  }

  lemma RecoveringReacts(c: ValidConfig, w: World, g: W.Settings, s: State, ps: seq<Probe>, k: nat)
    requires k < |ps| && Recovering(c, w, g, s, ps, k)
    ensures
      var j := Loop(c, w, g, s, ps, k);
      c.enabled && Reaction(g, j.dog, Seen(c, w, j.up, ps[k])) == [OpRecover]
  {
    hide Loop;
  }

  // --- connect_on_boot -----------------------------------------------------

  /** No tick up to `k` was a healthy one of an active profile. */
  ghost predicate NeverHealthy(c: ValidConfig, w: World, g: W.Settings, s: State, ps: seq<Probe>, k: nat)
    requires k < |ps|
  {
    forall i :: 0 <= i <= k ==> !(c.enabled && ps[i].healthy && Selected(c, Found(c, w, g, s, ps, i).marker).Some?)
  }

  lemma GateHolds(c: ValidConfig, w: World, g: W.Settings, s: State, ps: seq<Probe>, k: nat)
    requires k < |ps| && !g.connectOnBoot && NeverHealthy(c, w, g, s, ps, k)
    ensures
      var j := Loop(c, w, g, s, ps, k);
      c.enabled ==> Reaction(g, j.dog, Seen(c, w, j.up, ps[k])) == []
  {
    hide Loop, Recover;
    RecoveringIsSeen(c, w, g, s, ps, k);
    if Recovering(c, w, g, s, ps, k) {
      W.NoRecoveryBeforeFirstHealthy(g, Ticks(c, w, g, s, ps), k);
    }
  }

  /**
    With connect_on_boot off and nothing healthy yet, a tick never dials the
    active profile -- but it dials the standbys: with no tunnel dying
    meanwhile, it dials nobody if and only if all of them are up already.
   */
  lemma BootGateDialsNobodyIff(c: ValidConfig, w: World, g: W.Settings, s: State, ps: seq<Probe>, k: nat)
    requires k < |ps| && c.enabled && Alone(ps[k])
    requires !g.connectOnBoot && NeverHealthy(c, w, g, s, ps, k)
    ensures
      var found := Found(c, w, g, s, ps, k);
      var end := Loop(c, w, g, s, ps, k + 1).up;
      && found.dials <= end.dials
      && (forall n :: n in NewDials(found, end) ==> ActiveName(c, found) != Some(n))
      && (Quiet(w, found.clock, end.clock) ==>
            (end.dials == found.dials <==>
               forall p :: p in c.profiles && p.enabled && ActiveName(c, found) != Some(p.name) ==> p.name in found.up))
  {
    hide Loop, Enforce, Refresh, Validated, NeverHealthy, Seen, ActiveName, Found;
    GateHolds(c, w, g, s, ps, k);
    TickEnds(c, w, g, s, ps, k);
    var found := Found(c, w, g, s, ps, k);
    var e := Enforce(c, w, found);
    UpstreamRecovery.EnforceOutcome(c, w, found);
    if Quiet(w, found.clock, Refresh(c, w, e).clock) {
      assert Quiet(w, found.clock, e.clock);
      UpstreamRecovery.EnforceDialsNobodyIff(c, w, found);
    }
  }

  /** Nothing connected, nothing routed, nothing selected by hand: the machine has just started. */
  const BOOTED := State([], {}, PolicyRouting.Kernel({}, map[], {}), [], 0, [])

  /** Right after boot one unhealthy tick dials somebody, wherever a second profile is enabled. */
  lemma StandbysDialledAtBoot(c: ValidConfig, g: W.Settings, p: Profile, q: Probe)
    requires c.enabled && !g.connectOnBoot && !q.healthy && Alone(q) && q.before == []
    requires p in c.profiles && p.enabled && ActiveName(c, BOOTED) != Some(p.name)
    ensures Loop(c, UpstreamRouting.Sunny(), g, BOOTED, [q], 1).up.dials != []
  {
    hide Loop, Enforce, Refresh, Validated, Seen, ActiveName, Selected;
    var w := UpstreamRouting.Sunny();
    FoundAtBoot(c, w, g, q);
    BootGateDialsNobodyIff(c, w, g, BOOTED, [q], 0);
    assert Quiet(w, 0, Loop(c, w, g, BOOTED, [q], 1).up.clock);
  }

  lemma FoundAtBoot(c: ValidConfig, w: World, g: W.Settings, q: Probe)
    requires q.before == [] && !q.healthy
    ensures Found(c, w, g, BOOTED, [q], 0) == BOOTED && NeverHealthy(c, w, g, BOOTED, [q], 0)
  {
  }

  // --- A healthy tick ------------------------------------------------------

  /** Every enabled profile but the active one is up, and no disabled one is. */
  ghost predicate InLine(c: ValidConfig, s: State) {
    forall p :: p in c.profiles && ActiveName(c, s) != Some(p.name) ==> (p.enabled <==> p.name in s.up)
  }

  lemma {:induction false} EnforceIdle(c: ValidConfig, w: World, s: State, ps: seq<Profile>, active: Option<string>)
    requires forall p :: p in ps ==> if p.enabled then active == Some(p.name) || p.name in s.up else p.name !in s.up
    ensures EnforceFrom(c, w, s, ps, active) == s
    decreases |ps|
  {
    hide Connect, Disconnect, Validated;
    if ps != [] {
      assert ps[0] in ps && forall p :: p in ps[1..] ==> p in ps;
      EnforceIdle(c, w, s, ps[1..], active);
    }
  }

  /**
    A healthy tick heals: with nothing interfering, nobody to dial or tear down
    and no pushed list changed, at its end the selected profile carries the
    default mark and every connected owner of a target its own.
   */
  lemma HealthyTickHeals(c: ValidConfig, w: World, g: W.Settings, s: State, ps: seq<Probe>, k: nat, p: Profile)
    requires k < |ps| && c.enabled && Alone(ps[k]) && ps[k].healthy
    requires
      var found := Found(c, w, g, s, ps, k);
      && Selected(c, found.marker) == Some(p) && p.name in found.up && InLine(c, found) && StaleTargets.Settled(c, found)
    requires StaleTargets.Uneventful(w, Found(c, w, g, s, ps, k).clock, Loop(c, w, g, s, ps, k + 1).up.clock)
    requires !w(EnsureRouting(c, w, Found(c, w, g, s, ps, k)).clock).yes
    ensures
      var found := Found(c, w, g, s, ps, k);
      var end := Loop(c, w, g, s, ps, k + 1).up;
      && end.up == found.up
      && Healing.Routed(end.kernel, BaseMark(c), c.tableId, Device(c, p))
      && (forall q :: q in c.profiles && HasTarget(c, w(found.clock + 1), q) && q.name in found.up ==>
            Healing.Routed(end.kernel, MarkOf(c, q), TableOf(c, q), Device(c, q)))
  {
    hide Loop, Found, Enforce, Refresh, EnsureRouting, Validated, Selected, HasTarget, StaleTargets.Settled, Healing.Routed, BaseMark, MarkOf,
      TableOf, Device, Pulse;
    var found := Found(c, w, g, s, ps, k);
    TickEnds(c, w, g, s, ps, k);
    HealthyReacts(c, w, g, s, ps, k);
    var e := EnsureRouting(c, w, found);
    assert StaleTargets.Uneventful(w, found.clock, e.clock);
    Healing.EnsureHeals(c, w, found);
    InLineIsIdle(c, w, found, e, p);
    RefreshIdle(c, w, e);
    HealedSettles(c, w, found);
    StaleTargets.PulseIsQuiet(c, w, e);
  }

  lemma HealthyReacts(c: ValidConfig, w: World, g: W.Settings, s: State, ps: seq<Probe>, k: nat)
    requires k < |ps| && c.enabled && ps[k].healthy && Selected(c, Found(c, w, g, s, ps, k).marker).Some?
    ensures
      var j := Loop(c, w, g, s, ps, k);
      Reaction(g, j.dog, Seen(c, w, j.up, ps[k])) == [OpEnsure]
  {
    hide Loop, Recover, Selected, Run;
  }

  lemma InLineIsIdle(c: ValidConfig, w: World, s: State, e: State, p: Profile)
    requires InLine(c, s) && e.up == s.up && e.marker == s.marker && Selected(c, s.marker) == Some(p) && p.enabled
    ensures Enforce(c, w, e) == e
  {
    hide EnforceFrom, Selected;
    forall q | q in c.profiles && !q.enabled ensures ActiveName(c, s) != Some(q.name) {
      if q.name == p.name {
        NameIdentifies(c, q, p);
      }
    }
    hide Validated;
    EnforceIdle(c, w, e, c.profiles, ActiveName(c, e));
  }

  lemma RefreshIdle(c: ValidConfig, w: World, s: State)
    requires !w(s.clock).yes
    ensures Refresh(c, w, s) == Pulse(c, w, s)
  {
  }

  lemma HealedSettles(c: ValidConfig, w: World, s: State)
    requires StaleTargets.Settled(c, s) && StaleTargets.Uneventful(w, s.clock, EnsureRouting(c, w, s).clock)
    ensures StaleTargets.Settled(c, EnsureRouting(c, w, s))
  {
    hide Validated, StaleTargets.Settled, EnsureAt, EnsureNamed, Pulse, HasTarget, MarkOf, TableOf, BaseMark, Device, Selected;
    var sel := Selected(c, s.marker);
    var active := sel.Some? && sel.value.name in s.up;
    var s1 := if active then EnsureAt(c, w, s, BaseMark(c), c.tableId, Device(c, sel.value)) else s;
    if active {
      Healing.EnsureAtTicks(c, w, s, BaseMark(c), c.tableId, Device(c, sel.value));
      Healing.EnsureAtRoutes(c, w, s, BaseMark(c), c.tableId, sel.value);
    }
    StaleTargets.PulseIsQuiet(c, w, s1);
    var s2 := Pulse(c, w, s1);
    Healing.ClockOnly(c, s1, s2);
    TargetIdentity.ProfilesDistinct(c);
    Healing.EnsureNamedRoutes(c, w, s2, c.profiles, w(s1.clock));
  }
}
