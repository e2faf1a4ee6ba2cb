/**
  What one `nftables.apply` does to the rules and routes of vanished, current
  and unrelated targets when the configuration has changed since the last one
  (services/nftables.py, `_reassert_policy_routing` and `_cleanup_stale_targets`).
 */
module StaleTargets {
  import opened Options
  import opened Profiles
  import opened PolicyRouting
  import opened Upstream
  import opened UpstreamRouting

  /** The targets the re-assertion touches: all of them, but the default only when the config selects somebody. */
  function Reasserted(c: ValidConfig, ts: seq<Assignment>): set<Assignment> {
    set t | t in ts && c.enabled && !(t.name == "default" && ConfigSelected(c).None?)
  }

  /** The recorded entries whose name no current target carries. */
  function Vanished(previous: seq<Recorded>, ts: seq<Assignment>): set<Recorded> {
    set r | r in previous && !Mentions(ts, r.name)
  }

  function RulesOf(ts: set<Assignment>): set<Rule> {
    set t | t in ts :: OwnRule(t.mark, t.table)
  }

  function RecordedRules(rs: set<Recorded>): set<Rule> {
    set r | r in rs :: OwnRule(r.mark, r.table)
  }

  lemma {:induction false} RulesAfterReassert(c: ValidConfig, w: World, s: State, ts: seq<Assignment>)
    requires c.enabled
    ensures Reassert(c, w, s, ts).kernel.rules == s.kernel.rules + RulesOf(Reasserted(c, ts))
    decreases |ts|
  {
    hide Validated, ConfigSelected;
    if ts != [] {
      assert ts == [ts[0]] + ts[1..];
      if ts[0].name == "default" && ConfigSelected(c).None? {
        RulesAfterReassert(c, w, s, ts[1..]);
        assert Reasserted(c, ts) == Reasserted(c, ts[1..]);
      } else {
        RulesAfterReassert(c, w, ApplyAt(c, w, s, ts[0].mark, ts[0].table, ts[0].device), ts[1..]);
        assert Reasserted(c, ts) == {ts[0]} + Reasserted(c, ts[1..]);
        assert RulesOf(Reasserted(c, ts)) == {OwnRule(ts[0].mark, ts[0].table)} + RulesOf(Reasserted(c, ts[1..]));
      }
    }
  }

  lemma {:induction false} RulesAfterCleanup(c: ValidConfig, w: World, s: State, previous: seq<Recorded>, ts: seq<Assignment>)
    ensures CleanupStale(c, w, s, previous, ts).kernel.rules == s.kernel.rules - RecordedRules(Vanished(previous, ts))
    decreases |previous|
  {
    hide Validated, Mentions;
    if previous != [] {
      var r := previous[0];
      assert previous == [r] + previous[1..];
      if Mentions(ts, r.name) {
        RulesAfterCleanup(c, w, s, previous[1..], ts);
        assert Vanished(previous, ts) == Vanished(previous[1..], ts);
      } else {
        RulesAfterCleanup(c, w, CleanupAt(c, w, s, r.mark, r.table), previous[1..], ts);
        assert Vanished(previous, ts) == {r} + Vanished(previous[1..], ts);
        assert RecordedRules(Vanished(previous, ts)) == {OwnRule(r.mark, r.table)} + RecordedRules(Vanished(previous[1..], ts));
      }
    }
  }

  /**
    The rules after a successful apply, whatever happens meanwhile: what was
    there or is re-asserted, minus everything recorded under a vanished name.
    Removal comes last, so it also hits a current target that reuses a
    vanished target's mark and table.
   */
  lemma RulesAfterApply(c: ValidConfig, w: World, s: State, outbound: string)
    requires NftApply(c, w, s, outbound).ok
    ensures
      var ts := Assignments(c, outbound, w(s.clock).targeted);
      NftApply(c, w, s, outbound).state.kernel.rules
      == s.kernel.rules + RulesOf(Reasserted(c, ts)) - RecordedRules(Vanished(s.recorded, ts))
  {
    hide Validated, ConfigSelected, Assignments;
    var ts := Assignments(c, outbound, w(s.clock).targeted);
    var s1 := Pulse(c, w, s);
    var s2 := if c.enabled then Reassert(c, w, s1, ts) else s1;
    if c.enabled {
      RulesAfterReassert(c, w, s1, ts);
    } else {
      assert RulesOf(Reasserted(c, ts)) == {};
    }
    RecordedKept(c, w, s1, ts);
    RulesAfterCleanup(c, w, s2, s2.recorded, ts);
  }

  lemma {:induction false} RecordedKept(c: ValidConfig, w: World, s: State, ts: seq<Assignment>)
    ensures Reassert(c, w, s, ts).recorded == s.recorded
    decreases |ts|
  {
    hide Validated, ConfigSelected, ApplyAt;
    if ts != [] {
      if ts[0].name == "default" && ConfigSelected(c).None? {
        RecordedKept(c, w, s, ts[1..]);
      } else {
        RecordedKept(c, w, ApplyAt(c, w, s, ts[0].mark, ts[0].table, ts[0].device), ts[1..]);
      }
    }
  }

  /** A re-asserted target keeps its rule exactly when no vanished target had the same mark and table. */
  lemma CurrentKeepsRuleIff(c: ValidConfig, w: World, s: State, outbound: string, t: Assignment)
    requires NftApply(c, w, s, outbound).ok
    requires t in Reasserted(c, Assignments(c, outbound, w(s.clock).targeted))
    ensures
      var ts := Assignments(c, outbound, w(s.clock).targeted);
      OwnRule(t.mark, t.table) in NftApply(c, w, s, outbound).state.kernel.rules
      <==> !exists r :: r in Vanished(s.recorded, ts) && r.mark == t.mark && r.table == t.table
  {
    hide Validated, NftApply, Assignments;
    RulesAfterApply(c, w, s, outbound);
  }

  /**
    Staleness is decided by name alone. When a profile keeps its name but moves
    to another mark or table, the rule of its old place survives the apply --
    although a changed routing_offset is meant to be cleaned up as well.
   */
  lemma MovedTargetLeaksIff(c: ValidConfig, w: World, s: State, outbound: string, r: Recorded)
    requires NftApply(c, w, s, outbound).ok && r in s.recorded && OwnRule(r.mark, r.table) in s.kernel.rules
    requires forall t :: t in Assignments(c, outbound, w(s.clock).targeted) ==> t.mark != r.mark || t.table != r.table
    requires forall q :: q in s.recorded && q.mark == r.mark && q.table == r.table ==> q == r
    ensures OwnRule(r.mark, r.table) in NftApply(c, w, s, outbound).state.kernel.rules
       <==> Mentions(Assignments(c, outbound, w(s.clock).targeted), r.name)
  {
    hide Validated, NftApply, Assignments;
    RulesAfterApply(c, w, s, outbound);
  }

  // --- Routes, when nothing else happens -----------------------------------

  /** The world leaves tunnels, devices and routes alone. */
  ghost predicate Uneventful(w: World, from: nat, to: nat) {
    forall k :: from <= k < to ==>
      w(k).dead == {} && w(k).gone == {} && w(k).born == {} && w(k).purged == {}
  }

  /** Nothing is waiting to happen: connected devices are up, and no route outlives its device. */
  ghost predicate Settled(c: ValidConfig, s: State) {
    && DevicesOf(c, s.up) <= s.kernel.devices
    && forall t :: t in s.kernel.routes ==> s.kernel.routes[t] in s.kernel.devices
  }

  lemma PulseIsQuiet(c: ValidConfig, w: World, s: State)
    requires Settled(c, s) && w(s.clock).dead == {} && w(s.clock).gone == {} && w(s.clock).born == {} && w(s.clock).purged == {}
    ensures Pulse(c, w, s) == s.(clock := s.clock + 1)
  {
    var r := Pulse(c, w, s);
    assert r.up == s.up && r.kernel.devices == s.kernel.devices;
    assert r.kernel.routes == s.kernel.routes;
  }

  /** Later assignments win; one whose device is down changes nothing. */
  function Installed(routes: map<nat, string>, devices: set<string>, ts: seq<Assignment>, skipDefault: bool): map<nat, string>
    decreases |ts|
  {
    if ts == [] then routes
    else if (ts[0].name == "default" && skipDefault) || ts[0].device !in devices
    then Installed(routes, devices, ts[1..], skipDefault)
    else Installed(routes[ts[0].table := ts[0].device], devices, ts[1..], skipDefault)
  }

  function VanishedTables(previous: seq<Recorded>, ts: seq<Assignment>): set<nat> {
    set r | r in Vanished(previous, ts) :: r.table
  }

  lemma {:induction false} RoutesAfterReassert(c: ValidConfig, w: World, s: State, ts: seq<Assignment>)
    requires Settled(c, s) && Uneventful(w, s.clock, Reassert(c, w, s, ts).clock)
    ensures
      var r := Reassert(c, w, s, ts);
      && Settled(c, r) && r.up == s.up && r.kernel.devices == s.kernel.devices
      && r.kernel.routes == Installed(s.kernel.routes, s.kernel.devices, ts, ConfigSelected(c).None?)
    decreases |ts|
  {
    hide Validated, ConfigSelected, DevicesOf;
    if ts != [] {
      var t := ts[0];
      if t.name == "default" && ConfigSelected(c).None? {
        RoutesAfterReassert(c, w, s, ts[1..]);
      } else {
        var s1 := ApplyAt(c, w, s, t.mark, t.table, t.device);
        var r := Reassert(c, w, s1, ts[1..]);
        PulseIsQuiet(c, w, s);
        RoutesAfterReassert(c, w, s1, ts[1..]);
      }
    }
  }

  lemma {:induction false} RoutesAfterCleanup(c: ValidConfig, w: World, s: State, previous: seq<Recorded>, ts: seq<Assignment>)
    requires Settled(c, s) && Uneventful(w, s.clock, CleanupStale(c, w, s, previous, ts).clock)
    ensures
      var r := CleanupStale(c, w, s, previous, ts);
      Settled(c, r) && r.kernel.routes == s.kernel.routes - VanishedTables(previous, ts)
    decreases |previous|
  {
    hide Validated, DevicesOf, Mentions;
    if previous != [] {
      var r := previous[0];
      assert previous == [r] + previous[1..];
      if Mentions(ts, r.name) {
        RoutesAfterCleanup(c, w, s, previous[1..], ts);
        assert Vanished(previous, ts) == Vanished(previous[1..], ts);
      } else {
        var s1 := CleanupAt(c, w, s, r.mark, r.table);
        PulseIsQuiet(c, w, s);
        RoutesAfterCleanup(c, w, s1, previous[1..], ts);
        assert Vanished(previous, ts) == {r} + Vanished(previous[1..], ts);
        assert VanishedTables(previous, ts) == {r.table} + VanishedTables(previous[1..], ts);
      }
    } else {
      assert VanishedTables(previous, ts) == {};
    }
  }

  /**
    With nothing else happening, the routes after a successful apply are the old
    ones with every re-asserted target's device installed where it is up, minus
    every vanished target's table.
   */
  lemma RoutesAfterApply(c: ValidConfig, w: World, s: State, outbound: string)
    requires NftApply(c, w, s, outbound).ok && Settled(c, s)
    requires Uneventful(w, s.clock, NftApply(c, w, s, outbound).state.clock)
    ensures
      var ts := Assignments(c, outbound, w(s.clock).targeted);
      var installed := if c.enabled
                       then Installed(s.kernel.routes, s.kernel.devices, ts, ConfigSelected(c).None?)
                       else s.kernel.routes;
      NftApply(c, w, s, outbound).state.kernel.routes == installed - VanishedTables(s.recorded, ts)
  {
    hide Validated, ConfigSelected, DevicesOf, Assignments, Vanished, VanishedTables, Installed;
    var ts := Assignments(c, outbound, w(s.clock).targeted);
    var s1 := Pulse(c, w, s);
    PulseIsQuiet(c, w, s);
    var s2 := if c.enabled then Reassert(c, w, s1, ts) else s1;
    var s3 := CleanupStale(c, w, s2, s2.recorded, ts);
    assert Uneventful(w, s1.clock, s3.clock);
    if c.enabled {
      RoutesAfterReassert(c, w, s1, ts);
    }
    RecordedKept(c, w, s1, ts);
    RoutesAfterCleanup(c, w, s2, s2.recorded, ts);
  }

  /** A route survives, or is installed, for every target whose table nothing else claims. */
  lemma {:induction false} InstalledRoute(routes: map<nat, string>, devices: set<string>, ts: seq<Assignment>, skipDefault: bool, table: nat)
    requires forall i, j :: 0 <= i < j < |ts| ==> ts[i].table != ts[j].table
    ensures
      var r := Installed(routes, devices, ts, skipDefault);
      && (forall t :: t in ts && t.table == table && t.device in devices && !(t.name == "default" && skipDefault) ==>
            table in r && r[table] == t.device)
      && ((forall t :: t in ts ==> t.table != table) ==>
            (table in r <==> table in routes) && (table in r ==> r[table] == routes[table]))
    decreases |ts|
  {
    if ts != [] {
      var next := if (ts[0].name == "default" && skipDefault) || ts[0].device !in devices
                  then routes else routes[ts[0].table := ts[0].device];
      InstalledRoute(next, devices, ts[1..], skipDefault, table);
      assert ts == [ts[0]] + ts[1..];
      forall t | t in ts[1..] ensures t.table != ts[0].table {
        var k :| 0 <= k < |ts[1..]| && ts[1..][k] == t;
        assert ts[0].table != ts[k + 1].table;
      }
    }
  }

  lemma {:induction false} NamedOrigin(c: ValidConfig, ps: seq<Profile>, targeted: set<string>, t: Assignment) returns (p: Profile)
    requires t in NamedAssignments(c, ps, targeted)
    ensures p in ps && t == Assignment(p.name, MarkOf(c, p), TableOf(c, p), Device(c, p))
  {
    hide Validated, Device, MarkOf, TableOf;
    if ps[0].name in targeted && t == Assignment(ps[0].name, MarkOf(c, ps[0]), TableOf(c, ps[0]), Device(c, ps[0])) {
      p := ps[0];
    } else {
      p := NamedOrigin(c, ps[1..], targeted, t);
    }
  }

  /** Two positions of one configuration's target list never share a table. */
  ghost predicate TablesDiffer(ts: seq<Assignment>) {
    forall i, j :: 0 <= i < j < |ts| ==> ts[i].table != ts[j].table
  }

  lemma PrependTable(t: Assignment, ts: seq<Assignment>)
    requires TablesDiffer(ts) && forall u :: u in ts ==> u.table != t.table
    ensures TablesDiffer([t] + ts)
  {
    var all := [t] + ts;
    forall i, j | 0 <= i < j < |all| ensures all[i].table != all[j].table {
      assert all[j] == ts[j - 1] && all[j] in ts;
    }
  }

  lemma {:induction false} NamedTablesDiffer(c: ValidConfig, ps: seq<Profile>, targeted: set<string>)
    requires (forall p :: p in ps ==> p in c.profiles) && forall i, j :: 0 <= i < j < |ps| ==> ps[i] != ps[j]
    ensures TablesDiffer(NamedAssignments(c, ps, targeted))
  {
    hide Validated, Device, MarkOf, TableOf;
    if ps != [] {
      var p, rest := ps[0], NamedAssignments(c, ps[1..], targeted);
      assert p in c.profiles;
      NamedTablesDiffer(c, ps[1..], targeted);
      forall u | u in rest ensures u.table != TableOf(c, p) {
        var q := NamedOrigin(c, ps[1..], targeted, u);
        var k :| 0 <= k < |ps[1..]| && ps[1..][k] == q;
        assert ps[0] != ps[k + 1];
        TablesApart(c, p, q);
      }
      PrependTable(Assignment(p.name, MarkOf(c, p), TableOf(c, p), Device(c, p)), rest);
    }
  }

  lemma AssignmentTablesDiffer(c: ValidConfig, outbound: string, targeted: set<string>)
    ensures TablesDiffer(Assignments(c, outbound, targeted))
  {
    var named := NamedAssignments(c, c.profiles, targeted);
    forall i, j | 0 <= i < j < |c.profiles| ensures c.profiles[i] != c.profiles[j] { assert Apart(c, i, j); }
    NamedTablesDiffer(c, c.profiles, targeted);
    forall u | u in named ensures u.table != c.tableId {
      var p := NamedOrigin(c, c.profiles, targeted, u);
      TablesApart(c, p, p);
    }
    if c.enabled {
      PrependTable(DefaultAssignment(c, outbound), named);
    }
  }

  /**
    After an uneventful, successful apply: every vanished target's table is
    empty, every re-asserted target whose device is up and whose table no
    vanished target had is routed to its device, and tables of neither kind are
    as they were.
   */
  lemma StaleCleanupRoutes(c: ValidConfig, w: World, s: State, outbound: string, table: nat)
    requires NftApply(c, w, s, outbound).ok && Settled(c, s)
    requires Uneventful(w, s.clock, NftApply(c, w, s, outbound).state.clock)
    ensures
      var ts := Assignments(c, outbound, w(s.clock).targeted);
      var r := NftApply(c, w, s, outbound).state.kernel.routes;
      && (table in VanishedTables(s.recorded, ts) ==> table !in r)
      && (table !in VanishedTables(s.recorded, ts) ==>
            && (forall t :: t in Reasserted(c, ts) && t.table == table && t.device in s.kernel.devices ==>
                  table in r && r[table] == t.device)
            && ((forall t :: t in ts ==> t.table != table) ==>
                  (table in r <==> table in s.kernel.routes) && (table in r ==> r[table] == s.kernel.routes[table])))
  {
    hide Validated, NftApply, Assignments, ConfigSelected;
    var ts := Assignments(c, outbound, w(s.clock).targeted);
    RoutesAfterApply(c, w, s, outbound);
    AssignmentTablesDiffer(c, outbound, w(s.clock).targeted);
    InstalledRoute(s.kernel.routes, s.kernel.devices, ts, ConfigSelected(c).None?, table);
  }

  // --- Successive applies with changing configurations ---------------------

  /** One reload: the configuration of that moment and the outbound device it passes. */
  datatype Reload = Reload(c: ValidConfig, outbound: string)

  function Reloads(w: World, s: State, rs: seq<Reload>): State
    decreases |rs|
  {
    if rs == [] then s else Reloads(w, NftApply(rs[0].c, w, s, rs[0].outbound).state, rs[1..])
  }

  ghost predicate NamesDiffer(ts: seq<Assignment>) {
    forall i, j :: 0 <= i < j < |ts| ==> ts[i].name != ts[j].name
  }

  function Entry(t: Assignment): Recorded {
    Recorded(t.name, t.mark, t.table)
  }

  /** The reload loads, keeps every surviving name on its mark and table, and has no profile called "default". */
  ghost predicate Orderly(w: World, s: State, r: Reload) {
    var ts := Assignments(r.c, r.outbound, w(s.clock).targeted);
    && NftApply(r.c, w, s, r.outbound).ok
    && NamesDiffer(ts)
    && forall q, t :: q in s.recorded && t in ts && t.name == q.name ==> Entry(t) == q
  }

  ghost predicate AllOrderly(w: World, s: State, rs: seq<Reload>)
    decreases |rs|
  {
    rs == [] || (Orderly(w, s, rs[0]) && AllOrderly(w, NftApply(rs[0].c, w, s, rs[0].outbound).state, rs[1..]))
  }

  /** Every rule is somebody else's or belongs to a recorded target. */
  ghost predicate Tracked(s: State, foreign: set<Rule>) {
    forall rule :: rule in s.kernel.rules && rule !in foreign ==>
      exists r :: r in s.recorded && rule == OwnRule(r.mark, r.table)
  }

  lemma {:induction false} PutKeeps(rs: seq<Recorded>, r: Recorded)
    ensures r in Put(rs, r)
    ensures forall q :: q in rs && q.name != r.name ==> q in Put(rs, r)
  {
    if rs != [] && rs[0].name != r.name {
      PutKeeps(rs[1..], r);
      assert rs == [rs[0]] + rs[1..];
    }
  }

  lemma {:induction false} RecordCovers(rs: seq<Recorded>, ts: seq<Assignment>)
    requires NamesDiffer(ts)
    ensures forall t :: t in ts ==> Entry(t) in RecordAll(rs, ts)
    ensures forall q :: q in rs && !Mentions(ts, q.name) ==> q in RecordAll(rs, ts)
    decreases |ts|
  {
    if ts != [] {
      var next := Put(rs, Entry(ts[0]));
      PutKeeps(rs, Entry(ts[0]));
      RecordCovers(next, ts[1..]);
      assert ts == [ts[0]] + ts[1..];
      assert !Mentions(ts[1..], ts[0].name);
    }
  }

  /** Nothing is recorded but what was and what is a current target. */
  lemma {:induction false} RecordedFrom(rs: seq<Recorded>, ts: seq<Assignment>)
    ensures forall q :: q in RecordAll(rs, ts) ==> (exists r :: r in rs && r.name == q.name) || Mentions(ts, q.name)
    decreases |ts|
  {
    if ts != [] {
      var next := Recorded(ts[0].name, ts[0].mark, ts[0].table);
      PutFrom(rs, next);
      RecordedFrom(Put(rs, next), ts[1..]);
      assert ts[0] in ts && forall t :: t in ts[1..] ==> t in ts;
    }
  }

  lemma {:induction false} PutFrom(rs: seq<Recorded>, r: Recorded)
    ensures forall q :: q in Put(rs, r) ==> q == r || q in rs
  {
    if rs != [] && rs[0].name != r.name {
      PutFrom(rs[1..], r);
    }
  }

  lemma OrderlyKeepsTracked(w: World, s: State, r: Reload, foreign: set<Rule>)
    requires Tracked(s, foreign) && Orderly(w, s, r)
    ensures Tracked(NftApply(r.c, w, s, r.outbound).state, foreign)
  {
    hide Validated, Assignments, ConfigSelected, Steady;
    var ts := Assignments(r.c, r.outbound, w(s.clock).targeted);
    var after := NftApply(r.c, w, s, r.outbound).state;
    RulesAfterApply(r.c, w, s, r.outbound);
    RecordCovers([], ts);
    assert after.recorded == RecordAll([], ts);
    forall rule | rule in after.kernel.rules && rule !in foreign
      ensures exists q :: q in after.recorded && rule == OwnRule(q.mark, q.table)
    {
      if rule in s.kernel.rules {
        var q :| q in s.recorded && rule == OwnRule(q.mark, q.table);
        assert q !in Vanished(s.recorded, ts);
        var t :| t in ts && t.name == q.name;
        assert Entry(t) == q && q in after.recorded;
      } else {
        var t :| t in Reasserted(r.c, ts) && rule == OwnRule(t.mark, t.table);
        assert Entry(t) in after.recorded;
      }
    }
  }

  /** Over any number of orderly reloads no rule is left behind that the records do not account for. */
  lemma {:induction false} NoRuleLeaks(w: World, s: State, rs: seq<Reload>, foreign: set<Rule>)
    requires Tracked(s, foreign) && AllOrderly(w, s, rs)
    ensures Tracked(Reloads(w, s, rs), foreign)
    decreases |rs|
  {
    hide NftApply, Orderly, Tracked;
    if rs != [] {
      OrderlyKeepsTracked(w, s, rs[0], foreign);
      NoRuleLeaks(w, NftApply(rs[0].c, w, s, rs[0].outbound).state, rs[1..], foreign);
    }
  }
}
