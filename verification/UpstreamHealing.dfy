/**
  What switching, dialling and healing put in place and disconnecting takes away
  (services/upstream.py). The invariant of UpstreamRouting only says that a route
  never leads elsewhere; here it is there.
 */
module UpstreamHealing {
  import opened Options
  import opened Profiles
  import opened PolicyRouting
  import opened Upstream
  import R = UpstreamRouting
  import opened StaleTargets
  import TargetIdentity

  /** Traffic with the mark is looked up in the table, and the table leads to the device. */
  ghost predicate Routed(k: Kernel, mark: nat, table: nat, device: string) {
    RulePresent(k, mark, table) && table in k.routes && k.routes[table] == device
  }

  /** Routes of all other tables, and all rules, are still there. */
  ghost predicate OnlyAdded(k: Kernel, k': Kernel, tables: set<nat>) {
    && k.rules <= k'.rules
    && forall t :: t !in tables ==> (t in k'.routes <==> t in k.routes) && (t in k.routes ==> k'.routes[t] == k.routes[t])
  }

  lemma RoutedStays(k: Kernel, k': Kernel, tables: set<nat>, mark: nat, table: nat, device: string)
    requires OnlyAdded(k, k', tables) && Routed(k, mark, table, device) && table !in tables
    ensures Routed(k', mark, table, device)
  {
  }

  lemma EnsureAtTicks(c: ValidConfig, w: World, s: State, mark: nat, table: nat, device: string)
    ensures EnsureAt(c, w, s, mark, table, device).clock == s.clock + 1
  {
  }

  lemma EnsureAtRoutes(c: ValidConfig, w: World, s: State, mark: nat, table: nat, p: Profile)
    requires Settled(c, s) && Uneventful(w, s.clock, s.clock + 1) && p in c.profiles && p.name in s.up
    ensures
      var r := EnsureAt(c, w, s, mark, table, Device(c, p));
      && r.clock == s.clock + 1 && r.up == s.up && Settled(c, r)
      && Routed(r.kernel, mark, table, Device(c, p)) && OnlyAdded(s.kernel, r.kernel, {table})
  {
    hide Validated, Pulse;
    PulseIsQuiet(c, w, s);
    assert Device(c, p) in DevicesOf(c, s.up);
    var k := s.kernel;
    if !RulePresent(k, mark, table) {
      assert OwnRule(mark, table) in Ensure(k, mark, table, Device(c, p)).rules;
    }
  }

  function TablesOf(c: ValidConfig, ps: seq<Profile>): set<nat> {
    set p | p in ps :: TableOf(c, p)
  }

  lemma OnlyAddedChain(k: Kernel, k': Kernel, k'': Kernel, a: set<nat>, b: set<nat>)
    requires OnlyAdded(k, k', a) && OnlyAdded(k', k'', b)
    ensures OnlyAdded(k, k'', a + b)
  {
  }

  lemma OnlyAddedNothing(k: Kernel, tables: set<nat>)
    ensures OnlyAdded(k, k, tables)
  {
  }

  lemma {:induction false} EnsureNamedRoutes(c: ValidConfig, w: World, s: State, ps: seq<Profile>, e: Event)
    requires Settled(c, s) && Uneventful(w, s.clock, EnsureNamed(c, w, s, ps, e).clock)
    requires (forall p :: p in ps ==> p in c.profiles) && Distinct(ps)
    ensures
      var r := EnsureNamed(c, w, s, ps, e);
      && r.up == s.up && Settled(c, r) && OnlyAdded(s.kernel, r.kernel, TablesOf(c, ps))
      && forall p :: p in ps && HasTarget(c, e, p) && p.name in s.up ==>
           Routed(r.kernel, MarkOf(c, p), TableOf(c, p), Device(c, p))
    decreases |ps|
  {
    hide Validated, Settled, Pulse, EnsureAt, TableOf, MarkOf, HasTarget, OnlyAdded, Routed;
    if ps == [] {
      OnlyAddedNothing(s.kernel, TablesOf(c, ps));
    } else {
      var p, rest := ps[0], ps[1..];
      assert ps == [p] + rest && p in ps;
      forall q | q in rest ensures q in c.profiles && TableOf(c, q) != TableOf(c, p) {
        var i :| 0 <= i < |rest| && rest[i] == q;
        assert ps[i + 1] == q;
        R.TablesApart(c, p, q);
      }
      assert TablesOf(c, ps) == {TableOf(c, p)} + TablesOf(c, rest);
      if HasTarget(c, e, p) && p.name in s.up {
        var s1 := EnsureAt(c, w, s, MarkOf(c, p), TableOf(c, p), Device(c, p));
        EnsureAtTicks(c, w, s, MarkOf(c, p), TableOf(c, p), Device(c, p));
        EnsureAtRoutes(c, w, s, MarkOf(c, p), TableOf(c, p), p);
        EnsureNamedRoutes(c, w, s1, rest, e);
        var k := EnsureNamed(c, w, s1, rest, e).kernel;
        OnlyAddedChain(s.kernel, s1.kernel, k, {TableOf(c, p)}, TablesOf(c, rest));
        RoutedStays(s1.kernel, k, TablesOf(c, rest), MarkOf(c, p), TableOf(c, p), Device(c, p));
      } else {
        EnsureNamedRoutes(c, w, s, rest, e);
        var k := EnsureNamed(c, w, s, rest, e).kernel;
        OnlyAddedNothing(s.kernel, {TableOf(c, p)});
        OnlyAddedChain(s.kernel, s.kernel, k, {TableOf(c, p)}, TablesOf(c, rest));
      }
    }
  }

  /**
    After a healing pass nothing interferes with: the selected profile, if
    connected, carries the default mark, and every connected profile that owns a
    target carries its own mark, each through its own table and device.
   */
  lemma EnsureHeals(c: ValidConfig, w: World, s: State)
    requires Settled(c, s) && Uneventful(w, s.clock, EnsureRouting(c, w, s).clock)
    ensures
      var r := EnsureRouting(c, w, s);
      var sel := Selected(c, s.marker);
      var active := sel.Some? && sel.value.name in s.up;
      var e := w(if active then s.clock + 1 else s.clock);
      && r.up == s.up
      && (active ==> Routed(r.kernel, BaseMark(c), c.tableId, Device(c, sel.value)))
      && (forall p :: p in c.profiles && HasTarget(c, e, p) && p.name in s.up ==>
            Routed(r.kernel, MarkOf(c, p), TableOf(c, p), Device(c, p)))
  {
    hide Validated, Settled, EnsureAt, EnsureNamed, Pulse, TableOf, MarkOf, HasTarget, OnlyAdded;
    var sel := Selected(c, s.marker);
    var active := sel.Some? && sel.value.name in s.up;
    var s1 := if active then EnsureAt(c, w, s, BaseMark(c), c.tableId, Device(c, sel.value)) else s;
    if active {
      EnsureAtTicks(c, w, s, BaseMark(c), c.tableId, Device(c, sel.value));
      EnsureAtRoutes(c, w, s, BaseMark(c), c.tableId, sel.value);
    }
    PulseIsQuiet(c, w, s1);
    var s2 := Pulse(c, w, s1);
    ClockOnly(c, s1, s2);
    TargetIdentity.ProfilesDistinct(c);
    EnsureNamedRoutes(c, w, s2, c.profiles, w(s1.clock));
    if active {
      forall p | p in c.profiles ensures TableOf(c, p) != c.tableId {
        R.TablesApart(c, p, p);
      }
      RoutedStays(s2.kernel, EnsureRouting(c, w, s).kernel, TablesOf(c, c.profiles), BaseMark(c), c.tableId, Device(c, sel.value));
    }
  }

  lemma ClockOnly(c: ValidConfig, s: State, r: State)
    requires Settled(c, s) && r == s.(clock := r.clock)
    ensures Settled(c, r)
  {
  }

  /** In every world: if the profile switched to is still connected at the end, the default mark goes out through it. */
  lemma SwitchRoutes(c: ValidConfig, w: World, s: State, p: Profile)
    requires p in c.profiles && p.name in Switch(c, w, s, p).up
    ensures Routed(Switch(c, w, s, p).kernel, BaseMark(c), c.tableId, Device(c, p))
  {
    hide Validated, NftApply;
    var s1 := NftApply(c, w, s.(marker := [p.name]), Device(c, p)).state;
    assert p.name in s1.up;
    var s2 := Pulse(c, w, s1);
    assert p.name in s2.up && Device(c, p) in DevicesOf(c, s2.up);
    assert OwnRule(BaseMark(c), c.tableId) in Apply(s2.kernel, BaseMark(c), c.tableId, Device(c, p)).rules;
  }

  lemma ApplyAtRoutes(c: ValidConfig, w: World, s: State, mark: nat, table: nat, p: Profile)
    requires Settled(c, s) && Uneventful(w, s.clock, s.clock + 1) && p in c.profiles && p.name in s.up
    ensures
      var r := ApplyAt(c, w, s, mark, table, Device(c, p));
      && r.clock == s.clock + 1 && r.up == s.up && Settled(c, r)
      && Routed(r.kernel, mark, table, Device(c, p)) && OnlyAdded(s.kernel, r.kernel, {table})
  {
    hide Validated, Pulse;
    PulseIsQuiet(c, w, s);
    assert Device(c, p) in DevicesOf(c, s.up);
    assert OwnRule(mark, table) in Apply(s.kernel, mark, table, Device(c, p)).rules;
  }

  /** Re-asserting targets that mean the same device for a table leaves its route as it is. */
  lemma {:induction false} InstalledKeeps(routes: map<nat, string>, devices: set<string>, ts: seq<Assignment>, skipDefault: bool,
                                          table: nat, device: string)
    requires table in routes && routes[table] == device
    requires forall t :: t in ts && !(t.name == "default" && skipDefault) && t.table == table ==> t.device == device
    ensures
      var r := Installed(routes, devices, ts, skipDefault);
      table in r && r[table] == device
    decreases |ts|
  {
    if ts != [] {
      assert ts[0] in ts;
      var next := if (ts[0].name == "default" && skipDefault) || ts[0].device !in devices
                  then routes else routes[ts[0].table := ts[0].device];
      InstalledKeeps(next, devices, ts[1..], skipDefault, table, device);
    }
  }

  /** What an undisturbed load does to a table that is routed as it should be and that no vanished target had. */
  lemma LoadKeepsRouted(c: ValidConfig, w: World, s: State, outbound: string, mark: nat, table: nat, device: string)
    requires Settled(c, s) && Routed(s.kernel, mark, table, device)
    requires Uneventful(w, s.clock, NftApply(c, w, s, outbound).state.clock) && NftApply(c, w, s, outbound).ok
    requires
      var ts := Assignments(c, outbound, w(s.clock).targeted);
      && table !in VanishedTables(s.recorded, ts)
      && (c.enabled ==> forall t :: t in Reasserted(c, ts) && t.table == table ==> t.device == device)
    ensures Routed(NftApply(c, w, s, outbound).state.kernel, mark, table, device)
  {
    hide Validated, NftApply, Assignments, ConfigSelected, Settled, Uneventful;
    var ts := Assignments(c, outbound, w(s.clock).targeted);
    RulesAfterApply(c, w, s, outbound);
    RoutesAfterApply(c, w, s, outbound);
    if c.enabled {
      InstalledKeeps(s.kernel.routes, s.kernel.devices, ts, ConfigSelected(c).None?, table, device);
    }
    var r :| r in s.kernel.rules && r.mark == mark && r.table == table;
    assert r !in RecordedRules(Vanished(s.recorded, ts));
  }

  lemma RefreshKeepsRouted(c: ValidConfig, w: World, s: State, mark: nat, table: nat, device: string)
    requires Settled(c, s) && Routed(s.kernel, mark, table, device)
    requires Uneventful(w, s.clock, Refresh(c, w, s).clock)
    requires
      var ts := Assignments(c, ActiveInterface(c, s), w(s.clock + 1).targeted);
      w(s.clock).yes && w(s.clock + 1).yes ==>
        && table !in VanishedTables(s.recorded, ts)
        && (c.enabled ==> forall t :: t in Reasserted(c, ts) && t.table == table ==> t.device == device)
    ensures Routed(Refresh(c, w, s).kernel, mark, table, device)
  {
    hide Validated, Assignments, ConfigSelected, Settled, Routed, Pulse, Reasserted, VanishedTables, Reassert, CleanupStale, RecordAll, Selected;
    PulseIsQuiet(c, w, s);
    var s1 := Pulse(c, w, s);
    ClockOnly(c, s, s1);
    if w(s.clock).yes {
      if w(s1.clock).yes {
        LoadKeepsRouted(c, w, s1, ActiveInterface(c, s1), mark, table, device);
      } else {
        PulseIsQuiet(c, w, s1);
      }
    }
  }

  /** Which device a load means for the default table while `p` is selected, and for the table of `p`. */
  lemma LoadMeans(c: ValidConfig, outbound: string, targeted: set<string>, p: Profile)
    requires p in c.profiles
    ensures
      var ts := Assignments(c, outbound, targeted);
      c.enabled ==>
        && (forall t :: t in Reasserted(c, ts) && t.table == TableOf(c, p) ==> t.device == Device(c, p))
        && (R.Immune(c) && p.enabled && outbound == Device(c, p) ==>
              forall t :: t in Reasserted(c, ts) && t.table == c.tableId ==> t.device == Device(c, p))
  {
    hide Validated, Device;
    if c.enabled {
      R.TablesApart(c, p, p);
      forall t | t in NamedAssignments(c, c.profiles, targeted)
        ensures t.table != c.tableId && (t.table == TableOf(c, p) ==> t.device == Device(c, p))
      {
        var q := NamedOrigin(c, c.profiles, targeted, t);
        R.TablesApart(c, q, p);
      }
    }
  }

  /**
    After a successful dial that nothing interferes with, whether or not pushed
    lists are re-applied behind it: the profile carries the default mark if it is
    the selected one, and its own mark if it owns a target -- unless the re-apply
    cleans up a vanished target that had the same table.
   */
  lemma AfterDialRoutes(c: ValidConfig, w: World, s: State, p: Profile, active: bool)
    requires Settled(c, s) && p in c.profiles && p.name in s.up
    requires Uneventful(w, s.clock, AfterDial(c, w, s, p, active).clock)
    requires active ==> Selected(c, s.marker) == Some(p)
    ensures
      var t := s.clock + if active then 1 else 0;
      var u := t + 1 + if HasTarget(c, w(t), p) then 1 else 0;
      var r := AfterDial(c, w, s, p, active);
      var reapplied := w(u).yes && w(u + 1).yes;
      var vanished := VanishedTables(s.recorded, Assignments(c, ActiveInterface(c, s), w(u + 1).targeted));
      && (active && (reapplied ==> R.Immune(c) && c.tableId !in vanished) ==>
            Routed(r.kernel, BaseMark(c), c.tableId, Device(c, p)))
      && (HasTarget(c, w(t), p) && (reapplied ==> TableOf(c, p) !in vanished) ==>
            Routed(r.kernel, MarkOf(c, p), TableOf(c, p), Device(c, p)))
  {
    DialTicks(c, w, s, p, active);
    hide Validated, Settled, Pulse, ApplyAt, TableOf, MarkOf, HasTarget, OnlyAdded, Routed, Refresh, VanishedTables, Assignments,
      Reasserted, Selected;
    R.TablesApart(c, p, p);
    var s1 := if active then ApplyAt(c, w, s, BaseMark(c), c.tableId, Device(c, p)) else s;
    if active {
      ApplyAtRoutes(c, w, s, BaseMark(c), c.tableId, p);
    }
    PulseIsQuiet(c, w, s1);
    var s2 := Pulse(c, w, s1);
    ClockOnly(c, s1, s2);
    var named := HasTarget(c, w(s1.clock), p);
    var s3 := if named then ApplyAt(c, w, s2, MarkOf(c, p), TableOf(c, p), Device(c, p)) else s2;
    if named {
      ApplyAtRoutes(c, w, s2, MarkOf(c, p), TableOf(c, p), p);
      if active {
        RoutedStays(s2.kernel, s3.kernel, {TableOf(c, p)}, BaseMark(c), c.tableId, Device(c, p));
      }
    }
    LoadMeans(c, ActiveInterface(c, s), w(s3.clock + 1).targeted, p);
    var vanished := VanishedTables(s.recorded, Assignments(c, ActiveInterface(c, s), w(s3.clock + 1).targeted));
    var reapplied := w(s3.clock).yes && w(s3.clock + 1).yes;
    if active && (reapplied ==> R.Immune(c) && c.tableId !in vanished) {
      RefreshKeepsRouted(c, w, s3, BaseMark(c), c.tableId, Device(c, p));
    }
    if named && (reapplied ==> TableOf(c, p) !in vanished) {
      RefreshKeepsRouted(c, w, s3, MarkOf(c, p), TableOf(c, p), Device(c, p));
    }
  }

  /** The questions asked before the refresh all lie in the undisturbed time. */
  lemma DialTicks(c: ValidConfig, w: World, s: State, p: Profile, active: bool)
    ensures
      var t := s.clock + if active then 1 else 0;
      var u := t + 1 + if HasTarget(c, w(t), p) then 1 else 0;
      u < AfterDial(c, w, s, p, active).clock
  {
    hide HasTarget, NftApply;
  }

  /** In every world: disconnecting takes away the rule and the route of whatever the profile carried. */
  lemma DisconnectClears(c: ValidConfig, w: World, s: State, p: Profile)
    requires p in c.profiles && p.name in s.up
    ensures
      var selected := Selected(c, s.marker) == Some(p);
      var r := Disconnect(c, w, s, p);
      && (selected ==> c.tableId !in r.kernel.routes && OwnRule(BaseMark(c), c.tableId) !in r.kernel.rules)
      && (HasTarget(c, w(s.clock + if selected then 2 else 1), p) ==>
            TableOf(c, p) !in r.kernel.routes && OwnRule(MarkOf(c, p), TableOf(c, p)) !in r.kernel.rules)
  {
    hide Validated, HasTarget, TableOf, MarkOf, BaseMark, Pulse, CleanupAt, Selected;
    if Selected(c, s.marker).Some? && Selected(c, s.marker).value.name == p.name {
      NameIdentifies(c, Selected(c, s.marker).value, p);
    }
    var s1 := Kill(c, Pulse(c, w, s), p);
    var selected := Selected(c, s.marker) == Some(p);
    var s2 := if selected then CleanupAt(c, w, s1, BaseMark(c), c.tableId) else s1;
    CleanupClears(c, w, s1, BaseMark(c), c.tableId);
    var s3 := Pulse(c, w, s2);
    PulseAddsNothing(c, w, s2);
    CleanupClears(c, w, s3, MarkOf(c, p), TableOf(c, p));
  }

  lemma CleanupClears(c: ValidConfig, w: World, s: State, mark: nat, table: nat)
    ensures
      var r := CleanupAt(c, w, s, mark, table);
      && r.clock == s.clock + 1
      && table !in r.kernel.routes && OwnRule(mark, table) !in r.kernel.rules
      && r.kernel.rules <= s.kernel.rules && r.kernel.routes.Keys <= s.kernel.routes.Keys
  {
  }

  lemma PulseAddsNothing(c: ValidConfig, w: World, s: State)
    ensures
      var r := Pulse(c, w, s);
      r.kernel.rules == s.kernel.rules && r.kernel.routes.Keys <= s.kernel.routes.Keys
  {
  }
}
