/**
  Where marked traffic can go, over every run of the locked operations with
  tunnels dying, devices bouncing and routes being purged at any moment.
 */
module UpstreamRouting {
  import opened Options
  import opened Profiles
  import opened PolicyRouting
  import opened Upstream

  // --- The invariant -------------------------------------------------------

  ghost predicate DevicesUp(c: ValidConfig, s: State) {
    forall p :: p in c.profiles && p.name in s.up ==> Device(c, p) in s.kernel.devices
  }

  /** A profile's own table leads nowhere but to its own device, and its mark to no other table. */
  ghost predicate Isolated(c: ValidConfig, k: Kernel) {
    && (forall p :: p in c.profiles && TableOf(c, p) in k.routes ==> k.routes[TableOf(c, p)] == Device(c, p))
    && (forall p, r :: p in c.profiles && r in k.rules && r.mark == MarkOf(c, p) ==> r.table == TableOf(c, p))
    && (forall r :: r in k.rules && r.mark == BaseMark(c) ==> r.table == c.tableId)
  }

  /** While the selected profile is connected, the default table is empty or leads to its device. */
  ghost predicate Follows(c: ValidConfig, s: State) {
    var p := Selected(c, s.marker);
    p.Some? && p.value.name in s.up && c.tableId in s.kernel.routes ==>
      s.kernel.routes[c.tableId] == Device(c, p.value)
  }

  ghost predicate Sane(c: ValidConfig, s: State) {
    DevicesUp(c, s) && Isolated(c, s.kernel)
  }

  ghost predicate Good(c: ValidConfig, s: State) {
    Sane(c, s) && Follows(c, s)
  }

  /**
    When re-asserting the default target can never point it away from the
    selected profile: client traffic follows it, or the default target is never
    re-asserted, or the only device it could mean is the main interface itself.
   */
  ghost predicate Immune(c: ValidConfig) {
    || c.clientTraffic
    || !c.enabled
    || ConfigSelected(c).None?
    || forall p :: p in c.profiles && p.enabled ==> Device(c, p) == c.mainInterface
  }

  // --- Single steps --------------------------------------------------------

  /** An assignment that names one of our own (mark, table, device) triples. */
  ghost predicate Own(c: ValidConfig, marker: seq<string>, mark: nat, table: nat, device: string) {
    || (&& mark == BaseMark(c) && table == c.tableId
        && (Selected(c, marker).Some? ==> device == Device(c, Selected(c, marker).value)))
    || exists p :: p in c.profiles && mark == MarkOf(c, p) && table == TableOf(c, p) && device == Device(c, p)
  }

  lemma PulseKeeps(c: ValidConfig, w: World, s: State)
    requires Sane(c, s)
    ensures Sane(c, Pulse(c, w, s))
    ensures Follows(c, s) ==> Follows(c, Pulse(c, w, s))
  {
  }

  lemma TablesApart(c: ValidConfig, p: Profile, q: Profile)
    requires p in c.profiles && q in c.profiles
    ensures TableOf(c, p) != c.tableId && MarkOf(c, p) != BaseMark(c)
    ensures TableOf(c, p) == TableOf(c, q) || MarkOf(c, p) == MarkOf(c, q) ==> p == q
  {
    OffsetPositive(c, p);
    if Offset(c, p) == Offset(c, q) {
      NameIdentifies(c, p, q);
    }
  }

  /** Installing one of our own triples keeps the isolation of all of them. */
  lemma InstallKeepsIsolated(c: ValidConfig, marker: seq<string>, k: Kernel, k': Kernel, mark: nat, table: nat, device: string)
    requires Isolated(c, k) && Own(c, marker, mark, table, device)
    requires k'.rules == k.rules || k'.rules == k.rules + {OwnRule(mark, table)}
    requires k'.routes == k.routes || k'.routes == k.routes[table := device]
    ensures Isolated(c, k')
    ensures c.tableId in k'.routes ==>
              || (c.tableId in k.routes && k'.routes[c.tableId] == k.routes[c.tableId])
              || (table == c.tableId && k'.routes[c.tableId] == device)
  {
    forall p | p in c.profiles
      ensures TableOf(c, p) != c.tableId && MarkOf(c, p) != BaseMark(c)
      ensures TableOf(c, p) in k'.routes ==> k'.routes[TableOf(c, p)] == Device(c, p)
      ensures mark == MarkOf(c, p) ==> table == TableOf(c, p)
    {
      TablesApart(c, p, p);
      if q :| q in c.profiles && mark == MarkOf(c, q) && table == TableOf(c, q) && device == Device(c, q) {
        TablesApart(c, p, q);
      }
    }
  }

  /** Own assignments keep everything, whether applied or only ensured. */
  lemma ApplyKeeps(c: ValidConfig, w: World, s: State, mark: nat, table: nat, device: string)
    requires Sane(c, s) && Own(c, s.marker, mark, table, device)
    ensures Sane(c, ApplyAt(c, w, s, mark, table, device))
    ensures Follows(c, s) ==> Follows(c, ApplyAt(c, w, s, mark, table, device))
  {
    InstallKeeps(c, w, s, ApplyAt(c, w, s, mark, table, device), mark, table, device);
  }

  lemma EnsureKeeps(c: ValidConfig, w: World, s: State, mark: nat, table: nat, device: string)
    requires Sane(c, s) && Own(c, s.marker, mark, table, device)
    ensures Sane(c, EnsureAt(c, w, s, mark, table, device))
    ensures Follows(c, s) ==> Follows(c, EnsureAt(c, w, s, mark, table, device))
  {
    InstallKeeps(c, w, s, EnsureAt(c, w, s, mark, table, device), mark, table, device);
  }

  lemma InstallKeeps(c: ValidConfig, w: World, s: State, r: State, mark: nat, table: nat, device: string)
    requires Sane(c, s) && Own(c, s.marker, mark, table, device)
    requires
      var k := Pulse(c, w, s).kernel;
      && r == Pulse(c, w, s).(kernel := r.kernel) && r.kernel.devices == k.devices
      && (r.kernel.rules == k.rules || r.kernel.rules == k.rules + {OwnRule(mark, table)})
      && (r.kernel.routes == k.routes || r.kernel.routes == k.routes[table := device])
    ensures Sane(c, r)
    ensures Follows(c, s) ==> Follows(c, r)
  {
    PulseKeeps(c, w, s);
    InstallKeepsIsolated(c, s.marker, Pulse(c, w, s).kernel, r.kernel, mark, table, device);
    forall q | q in c.profiles ensures TableOf(c, q) != c.tableId { TablesApart(c, q, q); }
  }

  /** Pointing the default table at the selected profile establishes the invariant from any sane state. */
  lemma ApplyDefaultRestores(c: ValidConfig, w: World, s: State, p: Profile)
    requires Sane(c, s) && p in c.profiles
    requires Selected(c, s.marker).Some? ==> Selected(c, s.marker) == Some(p)
    ensures Good(c, ApplyAt(c, w, s, BaseMark(c), c.tableId, Device(c, p)))
  {
    ApplyKeeps(c, w, s, BaseMark(c), c.tableId, Device(c, p));
    PulseKeeps(c, w, s);
  }

  lemma CleanupKeeps(c: ValidConfig, w: World, s: State, mark: nat, table: nat)
    requires Sane(c, s)
    ensures Sane(c, CleanupAt(c, w, s, mark, table))
    ensures Follows(c, s) ==> Follows(c, CleanupAt(c, w, s, mark, table))
  {
    PulseKeeps(c, w, s);
  }

  // --- nftables.apply ------------------------------------------------------

  lemma {:induction false} NamedOwn(c: ValidConfig, marker: seq<string>, ps: seq<Profile>, targeted: set<string>)
    requires forall p :: p in ps ==> p in c.profiles
    ensures forall t :: t in NamedAssignments(c, ps, targeted) ==> Own(c, marker, t.mark, t.table, t.device)
  {
    if ps != [] {
      NamedOwn(c, marker, ps[1..], targeted);
      assert ps[0] in c.profiles;
    }
  }

  lemma {:induction false} ReassertKeeps(c: ValidConfig, w: World, s: State, ts: seq<Assignment>)
    requires Sane(c, s)
    requires forall t :: t in ts ==>
               Own(c, s.marker, t.mark, t.table, t.device) || (t.name == "default" && ConfigSelected(c).None?)
    ensures Sane(c, Reassert(c, w, s, ts))
    ensures Follows(c, s) ==> Follows(c, Reassert(c, w, s, ts))
    decreases |ts|
  {
    if ts != [] {
      var t := ts[0];
      assert t in ts;
      if t.name == "default" && ConfigSelected(c).None? {
        ReassertKeeps(c, w, s, ts[1..]);
      } else {
        ApplyKeeps(c, w, s, t.mark, t.table, t.device);
        ReassertKeeps(c, w, ApplyAt(c, w, s, t.mark, t.table, t.device), ts[1..]);
      }
    }
  }

  lemma {:induction false} CleanupStaleKeeps(c: ValidConfig, w: World, s: State, previous: seq<Recorded>, ts: seq<Assignment>)
    requires Sane(c, s)
    ensures Sane(c, CleanupStale(c, w, s, previous, ts))
    ensures Follows(c, s) ==> Follows(c, CleanupStale(c, w, s, previous, ts))
    decreases |previous|
  {
    if previous != [] {
      if Mentions(ts, previous[0].name) {
        CleanupStaleKeeps(c, w, s, previous[1..], ts);
      } else {
        CleanupKeeps(c, w, s, previous[0].mark, previous[0].table);
        CleanupStaleKeeps(c, w, CleanupAt(c, w, s, previous[0].mark, previous[0].table), previous[1..], ts);
      }
    }
  }

  /** The outbound interface every locked caller passes: the selected profile's device. */
  ghost predicate OutboundFits(c: ValidConfig, marker: seq<string>, outbound: string) {
    Selected(c, marker).Some? ==> outbound == Device(c, Selected(c, marker).value)
  }

  lemma NftApplyKeeps(c: ValidConfig, w: World, s: State, outbound: string)
    requires Immune(c) && Sane(c, s) && OutboundFits(c, s.marker, outbound)
    ensures Sane(c, NftApply(c, w, s, outbound).state)
    ensures Follows(c, s) ==> Follows(c, NftApply(c, w, s, outbound).state)
  {
    PulseKeeps(c, w, s);
    var e := w(s.clock);
    if e.yes {
      var s1 := Pulse(c, w, s);
      var ts := Assignments(c, outbound, e.targeted);
      if c.enabled {
        NamedOwn(c, s.marker, c.profiles, e.targeted);
        var d := DefaultAssignment(c, outbound);
        assert Own(c, s.marker, d.mark, d.table, d.device) || ConfigSelected(c).None?;
        ReassertKeeps(c, w, s1, ts);
      }
      var s2 := if c.enabled then Reassert(c, w, s1, ts) else s1;
      CleanupStaleKeeps(c, w, s2, s2.recorded, ts);
    }
  }

  lemma RefreshKeeps(c: ValidConfig, w: World, s: State)
    requires Immune(c) && Sane(c, s)
    ensures Sane(c, Refresh(c, w, s))
    ensures Follows(c, s) ==> Follows(c, Refresh(c, w, s))
  {
    PulseKeeps(c, w, s);
    var s1 := Pulse(c, w, s);
    NftApplyKeeps(c, w, s1, ActiveInterface(c, s1));
  }

  // --- The operations ------------------------------------------------------

  lemma SelectedAfterSwitch(c: ValidConfig, p: Profile)
    requires p in c.profiles
    ensures Selected(c, [p.name]) == if p.enabled then Some(p) else None
  {
    FindFinds(c, p);
    assert ValidProfile(p);
  }

  lemma SwitchKeeps(c: ValidConfig, w: World, s: State, p: Profile)
    requires Immune(c) && Good(c, s) && p in c.profiles
    ensures Good(c, Switch(c, w, s, p))
  {
    SelectedAfterSwitch(c, p);
    var s0 := s.(marker := [p.name]);
    NftApplyKeeps(c, w, s0, Device(c, p));
    var s1 := NftApply(c, w, s0, Device(c, p)).state;
    if p.name in s1.up {
      ApplyDefaultRestores(c, w, s1, p);
    }
  }

  lemma DialKeeps(c: ValidConfig, w: World, s: State, p: Profile)
    requires Good(c, s) && p in c.profiles
    ensures Sane(c, Dial(c, w, s, p).state)
    ensures (Selected(c, s.marker) == Some(p) && Dial(c, w, s, p).ok) || Follows(c, Dial(c, w, s, p).state)
  {
    PulseKeeps(c, w, s);
    forall q | q in c.profiles && q.name == p.name ensures q == p { NameIdentifies(c, q, p); }
  }

  lemma ConnectKeeps(c: ValidConfig, w: World, s: State, p: Profile)
    requires Immune(c) && Good(c, s) && p in c.profiles
    ensures Good(c, Connect(c, w, s, p).state)
  {
    if p.name !in s.up {
      var sel := Selected(c, s.marker);
      var active := sel.Some? && sel.value.name == p.name;
      NftApplyKeeps(c, w, s, ActiveInterface(c, s));
      var s1 := NftApply(c, w, s, ActiveInterface(c, s)).state;
      DialKeeps(c, w, s1, p);
      var d := Dial(c, w, s1, p);
      if active {
        NameIdentifies(c, sel.value, p);
      }
      if d.ok {
        AfterDialKeeps(c, w, d.state, p, active);
      }
    }
  }

  lemma AfterDialKeeps(c: ValidConfig, w: World, s: State, p: Profile, active: bool)
    requires Immune(c) && Sane(c, s) && p in c.profiles
    requires active ==> Selected(c, s.marker) == Some(p)
    requires !active ==> Follows(c, s)
    ensures Good(c, AfterDial(c, w, s, p, active))
  {
    var s1 := if active then ApplyAt(c, w, s, BaseMark(c), c.tableId, Device(c, p)) else s;
    if active {
      ApplyDefaultRestores(c, w, s, p);
    }
    PulseKeeps(c, w, s1);
    var s2 := Pulse(c, w, s1);
    ApplyKeeps(c, w, s2, MarkOf(c, p), TableOf(c, p), Device(c, p));
    var s3 := if HasTarget(c, w(s1.clock), p)
              then ApplyAt(c, w, s2, MarkOf(c, p), TableOf(c, p), Device(c, p)) else s2;
    RefreshKeeps(c, w, s3);
  }

  lemma KillKeeps(c: ValidConfig, s: State, p: Profile)
    requires Good(c, s) && p in c.profiles
    ensures Good(c, Kill(c, s, p))
  {
    forall q | q in c.profiles && q.name in s.up && q.name != p.name
      ensures Device(c, q) in Kill(c, s, p).kernel.devices
    {
      if Device(c, q) == Device(c, p) {
        NameIdentifies(c, q, p);
      }
    }
  }

  lemma DisconnectKeeps(c: ValidConfig, w: World, s: State, p: Profile)
    requires Good(c, s) && p in c.profiles
    ensures Good(c, Disconnect(c, w, s, p))
  {
    if p.name in s.up {
      PulseKeeps(c, w, s);
      KillKeeps(c, Pulse(c, w, s), p);
      var s1 := Kill(c, Pulse(c, w, s), p);
      var sel := Selected(c, s1.marker);
      CleanupKeeps(c, w, s1, BaseMark(c), c.tableId);
      var s2 := if sel.Some? && sel.value.name == p.name
                then CleanupAt(c, w, s1, BaseMark(c), c.tableId) else s1;
      PulseKeeps(c, w, s2);
      CleanupKeeps(c, w, Pulse(c, w, s2), MarkOf(c, p), TableOf(c, p));
    }
  }

  lemma {:induction false} EnsureNamedKeeps(c: ValidConfig, w: World, s: State, ps: seq<Profile>, e: Event)
    requires Good(c, s) && forall p :: p in ps ==> p in c.profiles
    ensures Good(c, EnsureNamed(c, w, s, ps, e))
    decreases |ps|
  {
    if ps != [] {
      var p := ps[0];
      assert p in c.profiles;
      if HasTarget(c, e, p) && p.name in s.up {
        EnsureKeeps(c, w, s, MarkOf(c, p), TableOf(c, p), Device(c, p));
        EnsureNamedKeeps(c, w, EnsureAt(c, w, s, MarkOf(c, p), TableOf(c, p), Device(c, p)), ps[1..], e);
      } else {
        EnsureNamedKeeps(c, w, s, ps[1..], e);
      }
    }
  }

  lemma EnsureRoutingKeeps(c: ValidConfig, w: World, s: State)
    requires Good(c, s)
    ensures Good(c, EnsureRouting(c, w, s))
  {
    var p := Selected(c, s.marker);
    var s1 := s;
    if p.Some? && p.value.name in s.up {
      EnsureKeeps(c, w, s, BaseMark(c), c.tableId, Device(c, p.value));
      s1 := EnsureAt(c, w, s, BaseMark(c), c.tableId, Device(c, p.value));
    }
    PulseKeeps(c, w, s1);
    EnsureNamedKeeps(c, w, Pulse(c, w, s1), c.profiles, w(s1.clock));
  }

  lemma {:induction false} EnforceKeeps(c: ValidConfig, w: World, s: State, ps: seq<Profile>, active: Option<string>)
    requires Immune(c) && Good(c, s) && forall p :: p in ps ==> p in c.profiles
    ensures Good(c, EnforceFrom(c, w, s, ps, active))
    decreases |ps|
  {
    if ps != [] {
      var p := ps[0];
      assert p in c.profiles;
      DisconnectKeeps(c, w, s, p);
      ConnectKeeps(c, w, s, p);
      EnforceKeeps(c, w, EnforceOne(c, w, s, p, active), ps[1..], active);
    }
  }

  lemma {:induction false} TryKeeps(c: ValidConfig, w: World, s: State, order: seq<string>, active: Option<string>)
    requires Immune(c) && Good(c, s)
    requires forall n :: n in order ==> Find(c, n).Some?
    ensures Good(c, Try(c, w, s, order, active).state)
    decreases |order|
  {
    if order != [] {
      assert order[0] in order;
      var p := Find(c, order[0]).value;
      AttemptKeeps(c, w, s, p, active);
      TryKeeps(c, w, Attempt(c, w, s, p, active).state, order[1..], active);
    }
  }

  lemma AttemptKeeps(c: ValidConfig, w: World, s: State, p: Profile, active: Option<string>)
    requires Immune(c) && Good(c, s) && p in c.profiles
    ensures Good(c, Attempt(c, w, s, p, active).state)
  {
    if active == Some(p.name) {
      DisconnectKeeps(c, w, s, p);
      ConnectKeeps(c, w, if p.name in s.up then Disconnect(c, w, s, p) else s, p);
    } else {
      SwitchKeeps(c, w, s, p);
      ConnectKeeps(c, w, s, p);
      SwitchKeeps(c, w, Connect(c, w, s, p).state, p);
    }
  }

  // --- Over every run ------------------------------------------------------

  lemma StepKeeps(c: ValidConfig, w: World, s: State, op: Op)
    requires Immune(c) && Good(c, s)
    ensures Good(c, Step(c, w, s, op))
  {
    match op
    case OpSwitch(name) => if Find(c, name).Some? { SwitchKeeps(c, w, s, Find(c, name).value); }
    case OpConnect(who) => if Resolve(c, s, who).Some? { ConnectKeeps(c, w, s, Resolve(c, s, who).value); }
    case OpDisconnect(who) => if Resolve(c, s, who).Some? { DisconnectKeeps(c, w, s, Resolve(c, s, who).value); }
    case OpEnsure => EnsureRoutingKeeps(c, w, s);
    case OpEnforce => EnforceKeeps(c, w, s, c.profiles, ActiveName(c, s));
    case OpRecover =>
      var names := EnabledNames(c.profiles);
      if names != [] {
        OrderKnown(c, s);
        TryKeeps(c, w, s, Order(c, Current(c, s, names), names), ActiveName(c, s));
      }
    case OpRefresh => RefreshKeeps(c, w, s);
    case OpIdle => PulseKeeps(c, w, s);
  }

  lemma {:induction false} RunKeeps(c: ValidConfig, w: World, s: State, ops: seq<Op>)
    requires Immune(c) && Good(c, s)
    ensures Good(c, Run(c, w, s, ops))
    decreases |ops|
  {
    if ops != [] {
      StepKeeps(c, w, s, ops[0]);
      RunKeeps(c, w, Step(c, w, s, ops[0]), ops[1..]);
    }
  }

  /**
    After any run, traffic marked for a named target can only leave through
    that profile's own device, and default-marked traffic only through the
    selected profile's device while that profile is connected.
   */
  lemma MarkedTrafficStaysHome(c: ValidConfig, w: World, s: State, ops: seq<Op>)
    requires Immune(c) && Good(c, s)
    ensures
      var r := Run(c, w, s, ops);
      && (forall p :: p in c.profiles ==> Egress(r.kernel, MarkOf(c, p)) <= {Device(c, p)})
      && (Selected(c, r.marker).Some? && Selected(c, r.marker).value.name in r.up ==>
            Egress(r.kernel, BaseMark(c)) <= {Device(c, Selected(c, r.marker).value)})
  {
    RunKeeps(c, w, s, ops);
  }

  /** The invariant over all runs is exactly as strong as the configuration allows. */
  ghost predicate AlwaysFollows(c: ValidConfig) {
    forall w: World, s: State, ops: seq<Op> :: Good(c, s) ==> Follows(c, Run(c, w, s, ops))
  }

  /** A world in which everything succeeds and nothing else ever happens. */
  ghost function Sunny(): World {
    k => Event(true, {}, {}, {}, {}, {})
  }

  /** Connected through `p`, with nothing routed yet. */
  ghost function Fresh(c: ValidConfig, p: Profile): State {
    State([p.name], {p.name}, Kernel({}, map[], {Device(c, p), c.mainInterface}), [], 0, [])
  }

  lemma FreshIsGood(c: ValidConfig, p: Profile)
    requires p in c.profiles
    ensures Good(c, Fresh(c, p))
  {
    forall q | q in c.profiles && q.name == p.name ensures q == p { NameIdentifies(c, q, p); }
  }

  /** What one pushed-list refresh makes of the fresh state when no profile has its own target. */
  lemma SunnyRefresh(c: ValidConfig, p: Profile)
    requires c.enabled && ConfigSelected(c).Some?
    requires p in c.profiles && p.enabled
    ensures
      var w, s := Sunny(), Fresh(c, p);
      var s2 := Pulse(c, w, Pulse(c, w, s));
      var d := DefaultAssignment(c, Device(c, p));
      Refresh(c, w, s) == ApplyAt(c, w, s2, d.mark, d.table, d.device).(recorded := RecordAll([], [d]))
  {
    hide ApplyAt, Pulse, Validated;
    var w, s := Sunny(), Fresh(c, p);
    SelectedAfterSwitch(c, p);
    var s1 := Pulse(c, w, s);
    var s2 := Pulse(c, w, s1);
    var d := DefaultAssignment(c, Device(c, p));
    NobodyTargeted(c, c.profiles);
    assert Assignments(c, Device(c, p), {}) == [d] && [d][1..] == [];
    var s3 := ApplyAt(c, w, s2, d.mark, d.table, d.device);
    assert Reassert(c, w, s2, [d]) == s3;
    assert s3.recorded == [] && CleanupStale(c, w, s3, s3.recorded, [d]) == s3;
  }

  /** With client traffic off, that refresh re-points the default table at the main interface. */
  lemma ClientTrafficOffMisroutes(c: ValidConfig, p: Profile)
    requires !c.clientTraffic && c.enabled && ConfigSelected(c).Some?
    requires p in c.profiles && p.enabled && Device(c, p) != c.mainInterface
    ensures Good(c, Fresh(c, p)) && !Follows(c, Run(c, Sunny(), Fresh(c, p), [OpRefresh]))
  {
    hide Validated, Refresh, Switch, Connect, Disconnect, EnsureRouting, Enforce, Recover, RecordAll, Good;
    FreshIsGood(c, p);
    SunnyRefresh(c, p);
    SelectedAfterSwitch(c, p);
    var r := Refresh(c, Sunny(), Fresh(c, p));
    assert r.kernel.routes[c.tableId] == c.mainInterface;
    assert [OpRefresh][1..] == [];
    assert Run(c, Sunny(), Fresh(c, p), [OpRefresh]) == r;
  }

  lemma {:induction false} NobodyTargeted(c: ValidConfig, ps: seq<Profile>)
    ensures NamedAssignments(c, ps, {}) == []
  {
    if ps != [] {
      NobodyTargeted(c, ps[1..]);
    }
  }

  lemma RouteFollowsSelectionIff(c: ValidConfig)
    ensures AlwaysFollows(c) <==> Immune(c)
  {
    if Immune(c) {
      forall w: World, s: State, ops: seq<Op> | Good(c, s) ensures Follows(c, Run(c, w, s, ops)) {
        RunKeeps(c, w, s, ops);
      }
    } else {
      var p :| p in c.profiles && p.enabled && Device(c, p) != c.mainInterface;
      ClientTrafficOffMisroutes(c, p);
      MisroutingRun(c, Sunny(), Fresh(c, p), [OpRefresh]);
    }
  }

  lemma MisroutingRun(c: ValidConfig, w: World, s: State, ops: seq<Op>)
    requires Good(c, s) && !Follows(c, Run(c, w, s, ops))
    ensures !AlwaysFollows(c)
  {
  }
}
