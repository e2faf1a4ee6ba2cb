/**
  What the locked operations of services/upstream.py leave in the kernel, stated
  operation by operation: what is there afterwards, and that nothing else is.
 */
module UpstreamOutcomes {
  import opened Options
  import opened Profiles
  import opened PolicyRouting
  import opened Upstream
  import opened StaleTargets
  import opened UpstreamHealing
  import UpstreamRecovery
  import R = UpstreamRouting

  // --- Who is selected -----------------------------------------------------

  ghost predicate Known(c: ValidConfig, line: string) {
    exists p :: p in c.profiles && p.name == line
  }

  lemma UnknownFindsNobody(c: ValidConfig, line: string)
    requires !Known(c, line)
    ensures Find(c, line).None?
  {
    hide Validated;
  }

  /** The first line of the marker that names a profile decides, also when that profile is disabled. */
  lemma {:induction false} MarkerDecides(c: ValidConfig, marker: seq<string>, i: nat, p: Profile)
    requires i < |marker| && p in c.profiles && marker[i] == p.name
    requires forall k :: 0 <= k < i ==> !Known(c, marker[k])
    ensures Selected(c, marker) == if p.enabled then Some(p) else None
    decreases i
  {
    hide Find, ConfigSelected;
    FindFinds(c, p);
    assert ValidProfile(p);
    hide Validated;
    if i > 0 {
      UnknownFindsNobody(c, marker[0]);
      MarkerDecides(c, marker[1..], i - 1, p);
    }
  }

  /** A marker that names nobody leaves the choice to the configuration. */
  lemma {:induction false} ConfigurationDecides(c: ValidConfig, marker: seq<string>)
    requires forall k :: 0 <= k < |marker| ==> !Known(c, marker[k])
    ensures Selected(c, marker) == ConfigSelected(c)
    decreases |marker|
  {
    hide Find, ConfigSelected, Validated;
    if marker != [] {
      UnknownFindsNobody(c, marker[0]);
      ConfigurationDecides(c, marker[1..]);
    }
  }

  // --- A load --------------------------------------------------------------

  /** A load answers what nft says; a failed one touches nothing, a successful one records exactly the current targets. */
  lemma LoadRecords(c: ValidConfig, w: World, s: State, outbound: string)
    ensures
      var r := NftApply(c, w, s, outbound);
      var ts := Assignments(c, outbound, w(s.clock).targeted);
      && (r.ok <==> w(s.clock).yes)
      && (!r.ok ==> r.state == Pulse(c, w, s))
      && (r.ok ==> forall q :: q in r.state.recorded ==> Mentions(ts, q.name))
      && (r.ok && NamesDiffer(ts) ==> forall q :: q in r.state.recorded <==> exists t :: t in ts && q == Entry(t))
  {
    hide Validated, Pulse, Reassert, CleanupStale, Assignments;
    var ts := Assignments(c, outbound, w(s.clock).targeted);
    RecordedFrom([], ts);
    if NamesDiffer(ts) {
      RecordCovers([], ts);
      forall q | q in RecordAll([], ts) ensures exists t :: t in ts && q == Entry(t) {
        var t := RecordedEntry([], ts, q);
      }
    }
  }

  lemma {:induction false} RecordedEntry(rs: seq<Recorded>, ts: seq<Assignment>, q: Recorded) returns (t: Assignment)
    requires q in RecordAll(rs, ts) && q !in rs
    ensures t in ts && q == Entry(t)
    decreases |ts|
  {
    if ts == [] {
      assert false;
    } else {
      var next := Recorded(ts[0].name, ts[0].mark, ts[0].table);
      PutFrom(rs, next);
      if q == next {
        t := ts[0];
      } else {
        t := RecordedEntry(Put(rs, next), ts[1..], q);
      }
    }
  }

  /** The rules after a load that may have failed. */
  function LoadedRules(c: ValidConfig, e: Event, s: State, outbound: string): set<Rule> {
    var ts := Assignments(c, outbound, e.targeted);
    if e.yes then s.kernel.rules + RulesOf(Reasserted(c, ts)) - RecordedRules(Vanished(s.recorded, ts)) else s.kernel.rules
  }

  lemma LoadRules(c: ValidConfig, w: World, s: State, outbound: string)
    ensures NftApply(c, w, s, outbound).state.kernel.rules == LoadedRules(c, w(s.clock), s, outbound)
  {
    hide Assignments, Reasserted, RulesOf, RecordedRules, Vanished, Validated;
    LoadRecords(c, w, s, outbound);
    if w(s.clock).yes {
      hide NftApply;
      RulesAfterApply(c, w, s, outbound);
    }
  }

  // --- Switching -----------------------------------------------------------

  /**
    A switch in every world: one load for the new device, whose rules and record
    stay, and the default rule on top if the profile is connected -- nothing else.
   */
  lemma SwitchTouches(c: ValidConfig, w: World, s: State, p: Profile)
    requires p in c.profiles
    ensures
      var r := Switch(c, w, s, p);
      var ts := Assignments(c, Device(c, p), w(s.clock).targeted);
      var loaded := LoadedRules(c, w(s.clock), s, Device(c, p));
      && (r.kernel.rules == loaded || r.kernel.rules == loaded + {OwnRule(BaseMark(c), c.tableId)})
      && (p.name in r.up ==> OwnRule(BaseMark(c), c.tableId) in r.kernel.rules)
      && (p.name !in s.up ==> r.kernel.rules == loaded)
      && (if w(s.clock).yes then forall q :: q in r.recorded ==> Mentions(ts, q.name) else r.recorded == s.recorded)
  {
    hide Validated, Assignments, LoadedRules, NftApply, Mentions;
    var s0 := s.(marker := [p.name]);
    LoadRecords(c, w, s0, Device(c, p));
    LoadRules(c, w, s0, Device(c, p));
    LoadedOf(c, w(s.clock), s, s0, Device(c, p));
  }

  lemma LoadedOf(c: ValidConfig, e: Event, s: State, t: State, outbound: string)
    requires s.kernel.rules == t.kernel.rules && s.recorded == t.recorded
    ensures LoadedRules(c, e, s, outbound) == LoadedRules(c, e, t, outbound)
  {
    hide Assignments, Reasserted, RulesOf, RecordedRules, Validated;
  }

  /** Targets that do not have the table, or whose device is down, leave its route. */
  lemma {:induction false} InstalledSkips(routes: map<nat, string>, devices: set<string>, ts: seq<Assignment>, skipDefault: bool, table: nat)
    requires forall t :: t in ts && t.table == table ==> t.device !in devices
    ensures
      var r := Installed(routes, devices, ts, skipDefault);
      (table in r <==> table in routes) && (table in r ==> r[table] == routes[table])
    decreases |ts|
  {
    if ts != [] {
      assert ts[0] in ts && forall t :: t in ts[1..] ==> t in ts;
      var next := if (ts[0].name == "default" && skipDefault) || ts[0].device !in devices
                  then routes else routes[ts[0].table := ts[0].device];
      InstalledSkips(next, devices, ts[1..], skipDefault, table);
    }
  }

  /**
    Switching to a profile that is down, with nothing interfering: the default
    table leads to its device if that is up, and otherwise stays as it is -- it
    is never pointed at the device of the profile left behind.
   */
  lemma SwitchWhileDown(c: ValidConfig, w: World, s: State, p: Profile)
    requires Settled(c, s) && p in c.profiles && p.name !in s.up && c.enabled && c.clientTraffic && w(s.clock).yes
    requires Uneventful(w, s.clock, Switch(c, w, s, p).clock)
    requires c.tableId !in VanishedTables(s.recorded, Assignments(c, Device(c, p), w(s.clock).targeted))
    requires ConfigSelected(c).Some?
    ensures
      var r := Switch(c, w, s, p).kernel.routes;
      if Device(c, p) in s.kernel.devices then c.tableId in r && r[c.tableId] == Device(c, p)
      else (c.tableId in r <==> c.tableId in s.kernel.routes) && (c.tableId in r ==> r[c.tableId] == s.kernel.routes[c.tableId])
  {
    hide Validated, NftApply, Assignments, Device, ConfigSelected;
    var s0 := s.(marker := [p.name]);
    var d := Device(c, p);
    var ts := Assignments(c, d, w(s.clock).targeted);
    assert Settled(c, s0);
    LoadRecords(c, w, s0, d);
    assert Switch(c, w, s, p) == NftApply(c, w, s0, d).state;
    DefaultMeans(c, d, w(s.clock).targeted);
    if d in s.kernel.devices {
      StaleCleanupRoutes(c, w, s0, d, c.tableId);
    } else {
      RoutesAfterApply(c, w, s0, d);
      InstalledSkips(s.kernel.routes, s.kernel.devices, ts, false, c.tableId);
    }
  }

  lemma DefaultMeans(c: ValidConfig, outbound: string, targeted: set<string>)
    requires c.enabled && c.clientTraffic && ConfigSelected(c).Some?
    ensures
      var ts := Assignments(c, outbound, targeted);
      && (forall t :: t in ts && t.table == c.tableId ==> t.device == outbound)
      && exists t :: t in Reasserted(c, ts) && t.table == c.tableId && t.device == outbound
  {
    hide Validated, Device, ConfigSelected;
    var ts := Assignments(c, outbound, targeted);
    assert ts[0] == DefaultAssignment(c, outbound) && ts[0] in Reasserted(c, ts);
    forall t | t in NamedAssignments(c, c.profiles, targeted) ensures t.table != c.tableId {
      var q := NamedOrigin(c, c.profiles, targeted, t);
      R.TablesApart(c, q, q);
    }
  }

  // --- Dialling ------------------------------------------------------------

  lemma LoadKeepsSettled(c: ValidConfig, w: World, s: State, outbound: string)
    requires Settled(c, s) && Uneventful(w, s.clock, NftApply(c, w, s, outbound).state.clock)
    ensures
      var r := NftApply(c, w, s, outbound).state;
      Settled(c, r) && r.up == s.up && r.kernel.devices == s.kernel.devices && s.clock < r.clock
  {
    hide Validated, DevicesOf, Assignments, ConfigSelected;
    PulseIsQuiet(c, w, s);
    var s1 := Pulse(c, w, s);
    if w(s.clock).yes {
      var ts := Assignments(c, outbound, w(s.clock).targeted);
      var s2 := if c.enabled then Reassert(c, w, s1, ts) else s1;
      var s3 := CleanupStale(c, w, s2, s2.recorded, ts);
      assert Uneventful(w, s1.clock, s3.clock);
      if c.enabled {
        RoutesAfterReassert(c, w, s1, ts);
      }
      RoutesAfterCleanup(c, w, s2, s2.recorded, ts);
      CleanupKeepsDevices(c, w, s2, s2.recorded, ts);
    }
  }

  lemma {:induction false} CleanupKeepsDevices(c: ValidConfig, w: World, s: State, previous: seq<Recorded>, ts: seq<Assignment>)
    requires Settled(c, s) && Uneventful(w, s.clock, CleanupStale(c, w, s, previous, ts).clock)
    ensures
      var r := CleanupStale(c, w, s, previous, ts);
      r.up == s.up && r.kernel.devices == s.kernel.devices
    decreases |previous|
  {
    hide Validated, DevicesOf, Mentions;
    if previous != [] {
      var q := previous[0];
      if Mentions(ts, q.name) {
        CleanupKeepsDevices(c, w, s, previous[1..], ts);
      } else {
        PulseIsQuiet(c, w, s);
        CleanupKeepsDevices(c, w, CleanupAt(c, w, s, q.mark, q.table), previous[1..], ts);
      }
    }
  }

  lemma DialSettles(c: ValidConfig, w: World, s: State, p: Profile)
    requires Settled(c, s) && Uneventful(w, s.clock, s.clock + 1) && p in c.profiles && Dial(c, w, s, p).ok
    ensures
      var r := Dial(c, w, s, p).state;
      && Settled(c, r) && p.name in r.up && r.clock == s.clock + 1
      && r.marker == s.marker && r.recorded == s.recorded && r.kernel.rules == s.kernel.rules
  {
    PulseIsQuiet(c, w, s);
    var r := Dial(c, w, s, p).state;
    forall d | d in DevicesOf(c, r.up) ensures d in r.kernel.devices {
      var q :| q in c.profiles && q.name in r.up && Device(c, q) == d;
      if q.name == p.name {
        NameIdentifies(c, p, q);
      } else {
        assert d in DevicesOf(c, s.up);
      }
    }
  }

  /** The load with which a connect that has to dial begins. */
  function BeforeDial(c: ValidConfig, w: World, s: State): State {
    NftApply(c, w, s, ActiveInterface(c, s)).state
  }

  /**
    A connect that succeeds with nothing interfering: the profile is up; it
    carries the default mark if it is the selected one, and its own mark if it
    owns a target, selected or not -- unless pushed lists are re-applied behind
    it and that cleans up a vanished target of the same table (or, for the
    default mark, the configuration re-asserts another device).
   */
  lemma ConnectRoutes(c: ValidConfig, w: World, s: State, p: Profile)
    requires Settled(c, s) && p in c.profiles && p.name !in s.up
    requires Connect(c, w, s, p).ok && Uneventful(w, s.clock, Connect(c, w, s, p).state.clock)
    ensures
      var r := Connect(c, w, s, p).state;
      var active := Selected(c, s.marker) == Some(p);
      var loaded := BeforeDial(c, w, s);
      var t := loaded.clock + if active then 2 else 1;
      var u := t + if HasTarget(c, w(t), p) then 2 else 1;
      var reapplied := w(u).yes && w(u + 1).yes;
      var vanished := VanishedTables(loaded.recorded, Assignments(c, ActiveInterface(c, s), w(u + 1).targeted));
      && p.name in r.up && s.clock < t < r.clock
      && (active && (reapplied ==> R.Immune(c) && c.tableId !in vanished) ==>
            Routed(r.kernel, BaseMark(c), c.tableId, Device(c, p)))
      && (HasTarget(c, w(t), p) && (reapplied ==> TableOf(c, p) !in vanished) ==>
            Routed(r.kernel, MarkOf(c, p), TableOf(c, p), Device(c, p)))
  {
    hide Validated, NftApply, AfterDial, Settled, Dial, Routed, HasTarget, VanishedTables, Assignments, R.Immune;
    var loaded := BeforeDial(c, w, s);
    var sel := Selected(c, s.marker);
    if sel.Some? && sel.value.name == p.name {
      NameIdentifies(c, sel.value, p);
    }
    var active := sel == Some(p);
    var d := Dial(c, w, loaded, p);
    var r := AfterDial(c, w, d.state, p, active);
    assert Connect(c, w, s, p) == Reply(r, true);
    DialClock(c, w, loaded, p);
    LoadKeepsSettled(c, w, s, ActiveInterface(c, s));
    DialSettles(c, w, loaded, p);
    AfterDialRoutes(c, w, d.state, p, active);
    DialTicks(c, w, d.state, p, active);
    SameInterface(c, s, d.state);
  }

  lemma DialClock(c: ValidConfig, w: World, s: State, p: Profile)
    ensures Dial(c, w, s, p).state.clock == s.clock + 1
  {
  }

  lemma SameInterface(c: ValidConfig, s: State, t: State)
    requires s.marker == t.marker
    ensures ActiveInterface(c, s) == ActiveInterface(c, t)
  {
  }

  /**
    In particular a dialled profile that owns a target all along, with no pushed
    list changed, gets its own rule and route, standby or not.
   */
  lemma ConnectedOwnerIsRouted(c: ValidConfig, w: World, s: State, p: Profile)
    requires Settled(c, s) && p in c.profiles && p.name !in s.up
    requires Connect(c, w, s, p).ok && Uneventful(w, s.clock, Connect(c, w, s, p).state.clock)
    requires forall k :: s.clock <= k < Connect(c, w, s, p).state.clock ==> HasTarget(c, w(k), p)
    requires
      var loaded := BeforeDial(c, w, s);
      !w(loaded.clock + if Selected(c, s.marker) == Some(p) then 4 else 3).yes
    ensures Routed(Connect(c, w, s, p).state.kernel, MarkOf(c, p), TableOf(c, p), Device(c, p))
  {
    hide Validated, Connect, Settled, Routed, HasTarget, VanishedTables, Assignments, R.Immune, BeforeDial;
    ConnectRoutes(c, w, s, p);
  }

  /** A connect that finds the profile up does nothing; one that fails leaves what its load left, and no rule more. */
  lemma ConnectOtherwise(c: ValidConfig, w: World, s: State, p: Profile)
    ensures p.name in s.up ==> Connect(c, w, s, p) == Reply(s, true)
    ensures p.name !in s.up && !Connect(c, w, s, p).ok ==>
              var r := Connect(c, w, s, p).state;
              && r.kernel.rules == LoadedRules(c, w(s.clock), s, ActiveInterface(c, s))
              && r.kernel.routes.Keys <= BeforeDial(c, w, s).kernel.routes.Keys
              && r.recorded == BeforeDial(c, w, s).recorded
  {
    hide Validated, NftApply, AfterDial, LoadedRules, ActiveInterface;
    LoadRules(c, w, s, ActiveInterface(c, s));
  }

  // --- Disconnecting -------------------------------------------------------

  /**
    In every world a disconnect takes away no rule but the profile's own and, if
    it is the selected one, the default one; it brings no route, and leaves none
    through the profile's device.
   */
  lemma DisconnectTouchesOnly(c: ValidConfig, w: World, s: State, p: Profile)
    requires p in c.profiles
    ensures
      var r := Disconnect(c, w, s, p);
      var selected := Selected(c, s.marker) == Some(p);
      && r.recorded == s.recorded
      && (p.name !in s.up ==> r == s)
      && r.kernel.rules <= s.kernel.rules
      && (forall rule :: rule in s.kernel.rules && rule !in r.kernel.rules ==>
            (selected && rule == OwnRule(BaseMark(c), c.tableId)) || rule == OwnRule(MarkOf(c, p), TableOf(c, p)))
      && (forall t :: t in r.kernel.routes ==> t in s.kernel.routes && r.kernel.routes[t] == s.kernel.routes[t])
      && (p.name in s.up ==> forall t :: t in r.kernel.routes ==> r.kernel.routes[t] != Device(c, p))
  {
    hide Validated, HasTarget, TableOf, MarkOf, BaseMark, Selected, Device;
    if p.name in s.up {
      KillLeavesNone(c, Pulse(c, w, s), p);
      if Selected(c, s.marker).Some? && Selected(c, s.marker).value.name == p.name {
        NameIdentifies(c, Selected(c, s.marker).value, p);
      }
    }
  }

  lemma KillLeavesNone(c: ValidConfig, s: State, p: Profile)
    ensures forall t :: t in Kill(c, s, p).kernel.routes ==> Kill(c, s, p).kernel.routes[t] != Device(c, p)
  {
    hide Device;
  }

  lemma CleanupAtQuiet(c: ValidConfig, w: World, s: State, mark: nat, table: nat)
    requires Settled(c, s) && Uneventful(w, s.clock, s.clock + 1)
    ensures
      var r := CleanupAt(c, w, s, mark, table);
      r == s.(kernel := Cleanup(s.kernel, mark, table), clock := s.clock + 1) && Settled(c, r)
  {
    hide Validated;
    PulseIsQuiet(c, w, s);
  }

  /** With nothing interfering it takes away no other table's route unless that led through the profile's device. */
  lemma DisconnectKeepsRoutes(c: ValidConfig, w: World, s: State, p: Profile, table: nat)
    requires p in c.profiles && Settled(c, s) && Uneventful(w, s.clock, Disconnect(c, w, s, p).clock)
    requires table in s.kernel.routes && s.kernel.routes[table] != Device(c, p)
    requires table != TableOf(c, p) && (table == c.tableId ==> Selected(c, s.marker) != Some(p))
    ensures table in Disconnect(c, w, s, p).kernel.routes
  {
    hide Validated, HasTarget, TableOf, MarkOf, BaseMark, Selected, Device, Pulse, CleanupAt, Settled;
    if p.name in s.up {
      if Selected(c, s.marker).Some? && Selected(c, s.marker).value.name == p.name {
        NameIdentifies(c, Selected(c, s.marker).value, p);
      }
      var selected := Selected(c, s.marker) == Some(p);
      PulseIsQuiet(c, w, s);
      var s1 := Kill(c, Pulse(c, w, s), p);
      ClockOnly(c, s, Pulse(c, w, s));
      KillSettles(c, Pulse(c, w, s), p);
      KillKeepsRoute(c, Pulse(c, w, s), p, table);
      var s2 := if selected then CleanupAt(c, w, s1, BaseMark(c), c.tableId) else s1;
      DisconnectTicks(c, w, s, p);
      if selected {
        CleanupAtQuiet(c, w, s1, BaseMark(c), c.tableId);
      }
      PulseIsQuiet(c, w, s2);
      var s3 := Pulse(c, w, s2);
      ClockOnly(c, s2, s3);
      if HasTarget(c, w(s2.clock), p) {
        CleanupAtQuiet(c, w, s3, MarkOf(c, p), TableOf(c, p));
      }
    }
  }

  lemma KillKeepsRoute(c: ValidConfig, s: State, p: Profile, table: nat)
    requires Settled(c, s) && table in s.kernel.routes && s.kernel.routes[table] != Device(c, p)
    ensures table in Kill(c, s, p).kernel.routes
  {
    hide Validated, Device;
  }

  lemma DisconnectTicks(c: ValidConfig, w: World, s: State, p: Profile)
    requires p.name in s.up
    ensures
      var r := Disconnect(c, w, s, p);
      var sel := Selected(c, s.marker);
      var t := s.clock + if sel.Some? && sel.value.name == p.name then 2 else 1;
      r.clock == t + if HasTarget(c, w(t), p) then 2 else 1
  {
    hide HasTarget, Selected, Validated;
  }

  lemma KillSettles(c: ValidConfig, s: State, p: Profile)
    requires Settled(c, s) && p in c.profiles
    ensures Settled(c, Kill(c, s, p))
  {
    var r := Kill(c, s, p);
    forall d | d in DevicesOf(c, r.up) ensures d in r.kernel.devices {
      var q :| q in c.profiles && q.name in r.up && Device(c, q) == d;
      assert d in DevicesOf(c, s.up);
      if d == Device(c, p) {
        NameIdentifies(c, p, q);
      }
    }
  }

  // --- Healing -------------------------------------------------------------

  function OwnRuleOf(c: ValidConfig, p: Profile): Rule {
    OwnRule(MarkOf(c, p), TableOf(c, p))
  }

  lemma EnsureAtAdds(c: ValidConfig, w: World, s: State, mark: nat, table: nat, device: string)
    ensures
      var r := EnsureAt(c, w, s, mark, table, device);
      && s.kernel.rules <= r.kernel.rules <= s.kernel.rules + {OwnRule(mark, table)}
      && r.recorded == s.recorded && r.up <= s.up
      && (forall t :: t in r.kernel.routes && t != table ==> t in s.kernel.routes && r.kernel.routes[t] == s.kernel.routes[t])
  {
    hide Validated;
  }

  lemma {:induction false} EnsureNamedAdds(c: ValidConfig, w: World, s: State, ps: seq<Profile>, e: Event)
    ensures
      var r := EnsureNamed(c, w, s, ps, e);
      && s.kernel.rules <= r.kernel.rules && r.recorded == s.recorded
      && (forall rule :: rule in r.kernel.rules && rule !in s.kernel.rules ==>
            exists p :: p in ps && HasTarget(c, e, p) && p.name in s.up && rule == OwnRuleOf(c, p))
      && (forall t :: t in r.kernel.routes && !(exists p :: p in ps && HasTarget(c, e, p) && p.name in s.up && t == TableOf(c, p)) ==>
            t in s.kernel.routes && r.kernel.routes[t] == s.kernel.routes[t])
    decreases |ps|
  {
    hide Validated, EnsureAt, HasTarget, TableOf, MarkOf, Device;
    if ps != [] {
      var p := ps[0];
      assert ps == [p] + ps[1..] && p in ps && forall q :: q in ps[1..] ==> q in ps;
      if HasTarget(c, e, p) && p.name in s.up {
        EnsureAtAdds(c, w, s, MarkOf(c, p), TableOf(c, p), Device(c, p));
        EnsureNamedAdds(c, w, EnsureAt(c, w, s, MarkOf(c, p), TableOf(c, p), Device(c, p)), ps[1..], e);
      } else {
        EnsureNamedAdds(c, w, s, ps[1..], e);
      }
    }
  }

  /**
    In every world healing takes away no rule, adds none but the default one of a
    connected selected profile and the own ones of connected owners of a target,
    and brings no route of any other table.
   */
  lemma EnsureTouchesOnly(c: ValidConfig, w: World, s: State)
    ensures
      var r := EnsureRouting(c, w, s);
      var sel := Selected(c, s.marker);
      var active := sel.Some? && sel.value.name in s.up;
      var e := w(if active then s.clock + 1 else s.clock);
      && s.kernel.rules <= r.kernel.rules && r.recorded == s.recorded
      && (forall rule :: rule in r.kernel.rules && rule !in s.kernel.rules ==>
            || (active && rule == OwnRule(BaseMark(c), c.tableId))
            || exists p :: p in c.profiles && HasTarget(c, e, p) && p.name in s.up && rule == OwnRuleOf(c, p))
      && (forall t :: t in r.kernel.routes && !(active && t == c.tableId)
                      && !(exists p :: p in c.profiles && HasTarget(c, e, p) && p.name in s.up && t == TableOf(c, p)) ==>
            t in s.kernel.routes && r.kernel.routes[t] == s.kernel.routes[t])
  {
    hide Validated, EnsureAt, EnsureNamed, HasTarget, TableOf, OwnRuleOf, BaseMark, Device, Selected;
    var sel := Selected(c, s.marker);
    var active := sel.Some? && sel.value.name in s.up;
    var s1 := if active then EnsureAt(c, w, s, BaseMark(c), c.tableId, Device(c, sel.value)) else s;
    if active {
      EnsureAtAdds(c, w, s, BaseMark(c), c.tableId, Device(c, sel.value));
      EnsureAtTicks(c, w, s, BaseMark(c), c.tableId, Device(c, sel.value));
    }
    var s2 := Pulse(c, w, s1);
    EnsureNamedAdds(c, w, s2, c.profiles, w(s1.clock));
  }

  /** With the upstream off, or for a profile called like the default target, healing adds no rule of its own. */
  lemma EnsureSkips(c: ValidConfig, w: World, s: State, p: Profile)
    requires p in c.profiles && (!c.enabled || p.name == "default")
    ensures OwnRuleOf(c, p) in EnsureRouting(c, w, s).kernel.rules ==> OwnRuleOf(c, p) in s.kernel.rules
  {
    hide Validated, EnsureRouting, MarkOf, TableOf, BaseMark, Selected;
    EnsureTouchesOnly(c, w, s);
    R.TablesApart(c, p, p);
    forall q | q in c.profiles && OwnRuleOf(c, q) == OwnRuleOf(c, p) ensures q == p {
      R.TablesApart(c, p, q);
    }
  }

  // --- Enforcing -----------------------------------------------------------

  /** In every world: whoever is disabled and torn down loses the rules and routes it carried. */
  lemma DisabledIsCleared(c: ValidConfig, w: World, s: State, p: Profile, active: Option<string>)
    requires p in c.profiles && p.name in s.up && !p.enabled
    ensures
      var r := EnforceOne(c, w, s, p, active);
      HasTarget(c, w(s.clock + 1), p) ==> TableOf(c, p) !in r.kernel.routes && OwnRuleOf(c, p) !in r.kernel.rules
  {
    hide Validated, Disconnect, HasTarget, TableOf, MarkOf, Selected;
    assert Selected(c, s.marker) != Some(p);
    DisconnectClears(c, w, s, p);
  }

  /** A standby that comes up with nothing interfering carries its own mark if it owns a target. */
  lemma StandbyIsRouted(c: ValidConfig, w: World, s: State, p: Profile, active: Option<string>)
    requires Settled(c, s) && p in c.profiles && p.enabled && active != Some(p.name) && p.name !in s.up
    requires p.name in EnforceOne(c, w, s, p, active).up
    requires Uneventful(w, s.clock, EnforceOne(c, w, s, p, active).clock)
    requires forall k :: s.clock <= k < EnforceOne(c, w, s, p, active).clock ==> HasTarget(c, w(k), p)
    requires
      var loaded := BeforeDial(c, w, s);
      !w(loaded.clock + if Selected(c, s.marker) == Some(p) then 4 else 3).yes
    ensures Routed(EnforceOne(c, w, s, p, active).kernel, MarkOf(c, p), TableOf(c, p), Device(c, p))
  {
    hide Validated, Connect, Settled, Routed, HasTarget, BeforeDial, TableOf, MarkOf, Device, Selected, Disconnect;
    ConnectedOwnerIsRouted(c, w, s, p);
  }

  // --- Recovering ----------------------------------------------------------

  /** In every world: a candidate other than the active profile that is adopted and still up carries the default mark. */
  lemma AdoptedIsRouted(c: ValidConfig, w: World, s: State, p: Profile, active: Option<string>)
    requires p in c.profiles && active != Some(p.name) && Attempt(c, w, s, p, active).ok
    ensures
      var r := Attempt(c, w, s, p, active).state;
      r.marker == [p.name] && (p.name in r.up ==> Routed(r.kernel, BaseMark(c), c.tableId, Device(c, p)))
  {
    hide Validated, Connect, Switch, Routed, Device, BaseMark;
    var s1 := if p.name in s.up then s else Connect(c, w, s, p).state;
    if p.name in Switch(c, w, s1, p).up {
      SwitchRoutes(c, w, s1, p);
    }
  }

  lemma {:induction false} TryRoutes(c: ValidConfig, w: World, s: State, order: seq<string>, active: Option<string>)
    requires (forall n :: n in order ==> Find(c, n).Some? && active != Some(n)) && Try(c, w, s, order, active).ok
    ensures
      var r := Try(c, w, s, order, active).state;
      exists p :: p in c.profiles && p.name in order && r.marker == [p.name]
                  && (p.name in r.up ==> Routed(r.kernel, BaseMark(c), c.tableId, Device(c, p)))
    decreases |order|
  {
    hide Attempt, Find, Validated, Routed, Device, BaseMark;
    if order != [] {
      assert order[0] in order;
      var p := Find(c, order[0]).value;
      assert p in c.profiles && p.name == order[0];
      var r1 := Attempt(c, w, s, p, active);
      if r1.ok {
        AdoptedIsRouted(c, w, s, p, active);
      } else {
        assert forall n :: n in order[1..] ==> n in order;
        TryRoutes(c, w, r1.state, order[1..], active);
      }
    }
  }

  /**
    A recovery that succeeds either reconnected the active profile, at the first
    attempt, or moved on: then, in every world, the marker names the new one and,
    if that is still up, the default mark leads to its device.
   */
  lemma RecoverRoutes(c: ValidConfig, w: World, s: State)
    requires Recover(c, w, s).ok
    ensures
      var r := Recover(c, w, s).state;
      || (exists p :: p in c.profiles && p.enabled && ActiveName(c, s) == Some(p.name)
                      && Recover(c, w, s) == Attempt(c, w, s, p, Some(p.name)))
      || (exists p :: p in c.profiles && p.enabled && ActiveName(c, s) != Some(p.name) && r.marker == [p.name]
                      && (p.name in r.up ==> Routed(r.kernel, BaseMark(c), c.tableId, Device(c, p))))
  {
    hide Attempt, Find, Validated, Routed, Device, BaseMark, Selected;
    var names := EnabledNames(c.profiles);
    UpstreamRecovery.OrderIsSound(c, s);
    var order := Order(c, Current(c, s, names), names);
    var active := ActiveName(c, s);
    assert order[0] in order;
    var first := Find(c, order[0]).value;
    assert first in c.profiles && first.name == order[0] && first.enabled;
    if active == Some(order[0]) && !Attempt(c, w, s, first, active).ok {
      assert forall n :: n in order[1..] ==> n in order;
      forall n | n in order[1..] ensures active != Some(n) {
        var k :| 0 <= k < |order[1..]| && order[1..][k] == n;
        assert order[0] != order[k + 1];
      }
      Moved(c, w, Attempt(c, w, s, first, active).state, order[1..], active);
    } else if active != Some(order[0]) {
      assert active == None;
      Moved(c, w, s, order, active);
    }
  }

  lemma Moved(c: ValidConfig, w: World, s: State, order: seq<string>, active: Option<string>)
    requires forall n :: n in order ==> Find(c, n).Some? && Find(c, n).value.enabled && active != Some(n)
    requires Try(c, w, s, order, active).ok
    ensures
      var r := Try(c, w, s, order, active).state;
      exists p :: p in c.profiles && p.enabled && active != Some(p.name) && r.marker == [p.name]
                  && (p.name in r.up ==> Routed(r.kernel, BaseMark(c), c.tableId, Device(c, p)))
  {
    hide Try, Validated, Routed, Device, BaseMark, Find;
    TryRoutes(c, w, s, order, active);
    var r := Try(c, w, s, order, active).state;
    var p :| p in c.profiles && p.name in order && r.marker == [p.name]
             && (p.name in r.up ==> Routed(r.kernel, BaseMark(c), c.tableId, Device(c, p)));
    FindFinds(c, p);
  }

  lemma DisconnectSettles(c: ValidConfig, w: World, s: State, p: Profile)
    requires p in c.profiles && Settled(c, s) && Uneventful(w, s.clock, Disconnect(c, w, s, p).clock)
    ensures Settled(c, Disconnect(c, w, s, p))
  {
    hide Validated, HasTarget, TableOf, MarkOf, BaseMark, Selected, Device, Pulse, CleanupAt, Settled;
    if p.name in s.up {
      var sel := Selected(c, s.marker);
      var selected := sel.Some? && sel.value.name == p.name;
      PulseIsQuiet(c, w, s);
      var s1 := Kill(c, Pulse(c, w, s), p);
      ClockOnly(c, s, Pulse(c, w, s));
      KillSettles(c, Pulse(c, w, s), p);
      DisconnectTicks(c, w, s, p);
      var s2 := if selected then CleanupAt(c, w, s1, BaseMark(c), c.tableId) else s1;
      if selected {
        CleanupAtQuiet(c, w, s1, BaseMark(c), c.tableId);
      }
      PulseIsQuiet(c, w, s2);
      var s3 := Pulse(c, w, s2);
      ClockOnly(c, s2, s3);
      if HasTarget(c, w(s2.clock), p) {
        CleanupAtQuiet(c, w, s3, MarkOf(c, p), TableOf(c, p));
      }
    }
  }

  /** A reconnect of the active profile that succeeds with nothing interfering, and with no pushed list changed, routes it. */
  lemma ReconnectedIsRouted(c: ValidConfig, w: World, s: State, p: Profile)
    requires Settled(c, s) && p in c.profiles && Selected(c, s.marker) == Some(p)
    requires Attempt(c, w, s, p, Some(p.name)).ok && Uneventful(w, s.clock, Attempt(c, w, s, p, Some(p.name)).state.clock)
    requires
      var down := if p.name in s.up then Disconnect(c, w, s, p) else s;
      var t := BeforeDial(c, w, down).clock + 2;
      !w(t + if HasTarget(c, w(t), p) then 2 else 1).yes
    ensures
      var r := Attempt(c, w, s, p, Some(p.name)).state;
      p.name in r.up && Routed(r.kernel, BaseMark(c), c.tableId, Device(c, p))
  {
    hide Validated, Connect, Disconnect, Settled, Routed, HasTarget, BeforeDial, Device, BaseMark, Selected, VanishedTables, Assignments,
      TableOf, MarkOf, R.Immune;
    var down := if p.name in s.up then Disconnect(c, w, s, p) else s;
    if p.name in s.up {
      DisconnectSettles(c, w, s, p);
    }
    ConnectRoutes(c, w, down, p);
  }

  // --- By name -------------------------------------------------------------

  /** What is asked for by name is done to that profile and to no other; an unknown name changes nothing. */
  lemma NamedOperations(c: ValidConfig, w: World, s: State, name: string)
    requires name != ""
    ensures !Known(c, name) ==>
              s == Step(c, w, s, OpSwitch(name)) == Step(c, w, s, OpConnect(Some(name))) == Step(c, w, s, OpDisconnect(Some(name)))
    ensures Known(c, name) ==>
              && Step(c, w, s, OpSwitch(name)).marker == [name]
              && s.dials <= Step(c, w, s, OpConnect(Some(name))).dials
              && NewDials(s, Step(c, w, s, OpConnect(Some(name)))) == (if name in s.up then [] else [name])
              && name !in Step(c, w, s, OpDisconnect(Some(name))).up
    ensures
      var r := Step(c, w, s, OpDisconnect(Some(name)));
      Known(c, name) && Quiet(w, s.clock, r.clock) ==> r.up == s.up - {name}
  {
    hide Validated, Connect, Disconnect, Switch, Selected;
    if !Known(c, name) {
      UnknownFindsNobody(c, name);
    } else {
      var p :| p in c.profiles && p.name == name;
      FindFinds(c, p);
    }
  }

  /** Without a name it is the selected profile, or nobody. */
  lemma UnnamedOperations(c: ValidConfig, w: World, s: State, who: Option<string>)
    requires who == None || who == Some("")
    ensures
      var sel := ActiveName(c, s);
      && (sel.None? ==> s == Step(c, w, s, OpConnect(who)) == Step(c, w, s, OpDisconnect(who)))
      && (sel.Some? ==>
            && s.dials <= Step(c, w, s, OpConnect(who)).dials
            && NewDials(s, Step(c, w, s, OpConnect(who))) == (if sel.value in s.up then [] else [sel.value])
            && sel.value !in Step(c, w, s, OpDisconnect(who)).up)
  {
    hide Validated, Connect, Disconnect, Selected;
  }
}
