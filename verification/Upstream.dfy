/**
  Several VPN tunnels sharing one active-profile marker, one fwmark rule and
  one routing table per routing target (services/upstream.py, with the parts of
  services/nftables.py that touch routing). This module says what every locked
  operation does to that state; UpstreamService.dfy is the code that does it.

  Everything the service cannot decide -- does a dial succeed, does `nft` load,
  which tunnels die, which routes the kernel drops, which profiles currently
  have a routing target -- is the answer to the next question put to a `World`.
  Tunnels die and routes vanish in the middle of operations, not only between.
 */
module Upstream {
  import opened Options
  import opened Profiles
  import opened PolicyRouting

  /** One answer of the outside world, and what happened while it was given. */
  datatype Event = Event(
    yes: bool,
    dead: set<string>,
    gone: set<string>,
    born: set<string>,
    purged: set<nat>,
    targeted: set<string>)

  type World = nat -> Event

  /** One entry of the `.routing_targets.json` file. */
  datatype Recorded = Recorded(name: string, mark: nat, table: nat)

  /**
    `marker` holds the stripped lines of the active-upstream file, `up` the
    profiles whose openconnect process runs, `dials` every name ever dialled,
    `clock` the number of questions asked so far.
   */
  datatype State = State(
    marker: seq<string>,
    up: set<string>,
    kernel: Kernel,
    recorded: seq<Recorded>,
    clock: nat,
    dials: seq<string>)

  datatype Reply = Reply(state: State, ok: bool)

  // --- Derived identities --------------------------------------------------

  function BaseMark(c: ValidConfig): nat { MarkValue(c.fwmark) }
  function MarkOf(c: ValidConfig, p: Profile): nat { BaseMark(c) + Offset(c, p) }
  function TableOf(c: ValidConfig, p: Profile): nat { c.tableId + Offset(c, p) }

  /** `selected_profile`: the first marker line naming a known profile decides. */
  function Selected(c: ValidConfig, marker: seq<string>): (r: Option<Profile>)
    ensures r.Some? ==> r.value in c.profiles && r.value.enabled
  {
    if marker == [] then ConfigSelected(c)
    else
      var p := Find(c, marker[0]);
      if marker[0] != "" && p.Some? then (if p.value.enabled then p else None)
      else Selected(c, marker[1..])
  }

  function ActiveInterface(c: ValidConfig, s: State): string {
    var p := Selected(c, s.marker);
    if p.Some? then Device(c, p.value) else c.interface
  }

  // --- The outside world ---------------------------------------------------

  ghost predicate Quiet(w: World, from: nat, to: nat) {
    forall k :: from <= k < to ==> w(k).dead == {}
  }

  function DevicesOf(c: ValidConfig, up: set<string>): set<string> {
    set p | p in c.profiles && p.name in up :: Device(c, p)
  }

  /** Devices come and go, but a connected profile's device is up; a route cannot outlive its device. */
  function Settle(k: Kernel, devices: set<string>, purged: set<nat>): Kernel {
    Kernel(k.rules,
           map t | t in k.routes && t !in purged && k.routes[t] in devices :: k.routes[t],
           devices)
  }

  /** What an operation that dials nothing leaves alone: only deaths change the connections. */
  ghost predicate Steady(w: World, s: State, r: State) {
    && r.marker == s.marker && r.dials == s.dials
    && s.clock <= r.clock && r.up <= s.up
    && (Quiet(w, s.clock, r.clock) ==> r.up == s.up)
  }

  function Pulse(c: ValidConfig, w: World, s: State): (r: State)
    ensures Steady(w, s, r) && r.clock == s.clock + 1 && r.recorded == s.recorded
  {
    var e := w(s.clock);
    var up := s.up - e.dead;
    s.(up := up,
       kernel := Settle(s.kernel, (s.kernel.devices - e.gone) + e.born + DevicesOf(c, up), e.purged),
       clock := s.clock + 1)
  }

  // --- Policy routing under interference -----------------------------------

  function ApplyAt(c: ValidConfig, w: World, s: State, mark: nat, table: nat, device: string): (r: State)
    ensures Steady(w, s, r) && r.recorded == s.recorded
  {
    var s1 := Pulse(c, w, s);
    s1.(kernel := Apply(s1.kernel, mark, table, device))
  }

  function EnsureAt(c: ValidConfig, w: World, s: State, mark: nat, table: nat, device: string): (r: State)
    ensures Steady(w, s, r) && r.recorded == s.recorded
  {
    var s1 := Pulse(c, w, s);
    s1.(kernel := Ensure(s1.kernel, mark, table, device))
  }

  function CleanupAt(c: ValidConfig, w: World, s: State, mark: nat, table: nat): (r: State)
    ensures Steady(w, s, r) && r.recorded == s.recorded
  {
    var s1 := Pulse(c, w, s);
    s1.(kernel := Cleanup(s1.kernel, mark, table))
  }

  // --- nftables.apply, as far as routing is concerned ----------------------

  /** The routing side of a `RoutingTarget`. */
  datatype Assignment = Assignment(name: string, mark: nat, table: nat, device: string)

  function NamedAssignments(c: ValidConfig, ps: seq<Profile>, targeted: set<string>): seq<Assignment> {
    if ps == [] then []
    else
      var rest := NamedAssignments(c, ps[1..], targeted);
      var p := ps[0];
      if p.name in targeted then [Assignment(p.name, MarkOf(c, p), TableOf(c, p), Device(c, p))] + rest
      else rest
  }

  function DefaultAssignment(c: ValidConfig, outbound: string): Assignment {
    Assignment("default", BaseMark(c), c.tableId, if c.clientTraffic then outbound else c.mainInterface)
  }

  function Assignments(c: ValidConfig, outbound: string, targeted: set<string>): seq<Assignment> {
    [DefaultAssignment(c, outbound)]
    + if c.enabled then NamedAssignments(c, c.profiles, targeted) else []
  }

  /** `_reassert_policy_routing`; the default bucket is skipped when the config selects nobody. */
  function Reassert(c: ValidConfig, w: World, s: State, ts: seq<Assignment>): (r: State)
    ensures Steady(w, s, r)
    decreases |ts|
  {
    if ts == [] then s
    else if ts[0].name == "default" && ConfigSelected(c).None? then Reassert(c, w, s, ts[1..])
    else Reassert(c, w, ApplyAt(c, w, s, ts[0].mark, ts[0].table, ts[0].device), ts[1..])
  }

  predicate Mentions(ts: seq<Assignment>, name: string) {
    exists t :: t in ts && t.name == name
  }

  /** `_cleanup_stale_targets`: whatever was recorded under a name that is gone. */
  function CleanupStale(c: ValidConfig, w: World, s: State, previous: seq<Recorded>, ts: seq<Assignment>): (r: State)
    ensures Steady(w, s, r)
    decreases |previous|
  {
    if previous == [] then s
    else if Mentions(ts, previous[0].name) then CleanupStale(c, w, s, previous[1..], ts)
    else CleanupStale(c, w, CleanupAt(c, w, s, previous[0].mark, previous[0].table), previous[1..], ts)
  }

  /** Writing one key of the recorded dictionary: an existing key keeps its place. */
  function Put(rs: seq<Recorded>, r: Recorded): seq<Recorded> {
    if rs == [] then [r]
    else if rs[0].name == r.name then [r] + rs[1..]
    else [rs[0]] + Put(rs[1..], r)
  }

  function RecordAll(rs: seq<Recorded>, ts: seq<Assignment>): seq<Recorded>
    decreases |ts|
  {
    if ts == [] then rs
    else RecordAll(Put(rs, Recorded(ts[0].name, ts[0].mark, ts[0].table)), ts[1..])
  }

  function NftApply(c: ValidConfig, w: World, s: State, outbound: string): (r: Reply)
    ensures Steady(w, s, r.state)
  {
    var e := w(s.clock);
    var s1 := Pulse(c, w, s);
    if !e.yes then Reply(s1, false)
    else
      var ts := Assignments(c, outbound, e.targeted);
      var s2 := if c.enabled then Reassert(c, w, s1, ts) else s1;
      var s3 := CleanupStale(c, w, s2, s2.recorded, ts);
      Reply(s3.(recorded := RecordAll([], ts)), true)
  }

  // --- Locked operations ---------------------------------------------------

  /** The names dialled between two states of one run. */
  function NewDials(s: State, r: State): seq<string>
    requires s.dials <= r.dials
  {
    r.dials[|s.dials|..]
  }

  /** Whether the profile currently owns a named target (`_named_target_routing`). */
  predicate HasTarget(c: ValidConfig, e: Event, p: Profile) {
    c.enabled && p.name in e.targeted && p.name != "default"
  }

  /** `apply_server_routing_if_changed`: re-applies when the world says the pushed lists changed. */
  function Refresh(c: ValidConfig, w: World, s: State): (r: State)
    ensures Steady(w, s, r)
  {
    var s1 := Pulse(c, w, s);
    if w(s.clock).yes then NftApply(c, w, s1, ActiveInterface(c, s1)).state else s1
  }

  function Switch(c: ValidConfig, w: World, s: State, p: Profile): (r: State)
    ensures r.marker == [p.name]
    ensures Steady(w, s.(marker := [p.name]), r)
  {
    var s1 := NftApply(c, w, s.(marker := [p.name]), Device(c, p)).state;
    if p.name in s1.up then ApplyAt(c, w, s1, BaseMark(c), c.tableId, Device(c, p)) else s1
  }

  function Dial(c: ValidConfig, w: World, s: State, p: Profile): Reply {
    var s1 := Pulse(c, w, s);
    var s2 := s1.(dials := s1.dials + [p.name]);
    if w(s.clock).yes
    then Reply(s2.(up := s2.up + {p.name},
                   kernel := s2.kernel.(devices := s2.kernel.devices + {Device(c, p)})), true)
    else Reply(s2, false)
  }

  /** A successful dial: own tables first, then whatever the server pushed. */
  function AfterDial(c: ValidConfig, w: World, s: State, p: Profile, active: bool): (r: State)
    ensures Steady(w, s, r)
  {
    var s1 := if active then ApplyAt(c, w, s, BaseMark(c), c.tableId, Device(c, p)) else s;
    var s2 := Pulse(c, w, s1);
    var s3 := if HasTarget(c, w(s1.clock), p)
              then ApplyAt(c, w, s2, MarkOf(c, p), TableOf(c, p), Device(c, p)) else s2;
    Refresh(c, w, s3)
  }

  /** What a connect may change: the one connection it dials, and nothing else but deaths. */
  ghost predicate Dialled(w: World, s: State, r: Reply, name: string) {
    && r.state.marker == s.marker && s.clock <= r.state.clock
    && r.state.dials == (if name in s.up then s.dials else s.dials + [name])
    && r.state.up <= s.up + {name}
    && (!r.ok ==> name !in s.up && r.state.up <= s.up)
    && (Quiet(w, s.clock, r.state.clock) ==>
          r.state.up == if r.ok then s.up + {name} else s.up)
  }

  /** `connect`; the reply is not ok exactly when the source raises. */
  function Connect(c: ValidConfig, w: World, s: State, p: Profile): (r: Reply)
    ensures Dialled(w, s, r, p.name)
  {
    hide NftApply, AfterDial, ActiveInterface;
    if p.name in s.up then Reply(s, true)
    else
      var sel := Selected(c, s.marker);
      var active := sel.Some? && sel.value.name == p.name;
      var s1 := NftApply(c, w, s, ActiveInterface(c, s)).state;
      var d := Dial(c, w, s1, p);
      if !d.ok then d else Reply(AfterDial(c, w, d.state, p, active), true)
  }

  /** The process is gone at once (a process that outlives SIGKILL is not modelled), and its device with it. */
  function Kill(c: ValidConfig, s: State, p: Profile): State {
    s.(up := s.up - {p.name}, kernel := Settle(s.kernel, s.kernel.devices - {Device(c, p)}, {}))
  }

  function Disconnect(c: ValidConfig, w: World, s: State, p: Profile): (r: State)
    ensures r.marker == s.marker && r.dials == s.dials && s.clock <= r.clock
    ensures r.up <= s.up - {p.name}
    ensures Quiet(w, s.clock, r.clock) ==> r.up == s.up - {p.name}
  {
    if p.name !in s.up then s
    else
      var s1 := Kill(c, Pulse(c, w, s), p);
      var sel := Selected(c, s1.marker);
      var s2 := if sel.Some? && sel.value.name == p.name
                then CleanupAt(c, w, s1, BaseMark(c), c.tableId) else s1;
      var s3 := Pulse(c, w, s2);
      if HasTarget(c, w(s2.clock), p) then CleanupAt(c, w, s3, MarkOf(c, p), TableOf(c, p)) else s3
  }

  /** The named half of `ensure_policy_routing`. */
  function EnsureNamed(c: ValidConfig, w: World, s: State, ps: seq<Profile>, e: Event): (r: State)
    ensures Steady(w, s, r)
    decreases |ps|
  {
    if ps == [] then s
    else if HasTarget(c, e, ps[0]) && ps[0].name in s.up then
      EnsureNamed(c, w, EnsureAt(c, w, s, MarkOf(c, ps[0]), TableOf(c, ps[0]), Device(c, ps[0])), ps[1..], e)
    else EnsureNamed(c, w, s, ps[1..], e)
  }

  function EnsureRouting(c: ValidConfig, w: World, s: State): (r: State)
    ensures Steady(w, s, r)
  {
    var p := Selected(c, s.marker);
    var s1 := if p.Some? && p.value.name in s.up
              then EnsureAt(c, w, s, BaseMark(c), c.tableId, Device(c, p.value)) else s;
    EnsureNamed(c, w, Pulse(c, w, s1), c.profiles, w(s1.clock))
  }

  /** What enforcing one profile may change: its own connection, and nothing else but deaths. */
  ghost predicate Enforced(w: World, s: State, r: State, p: Profile, active: Option<string>) {
    var dialled := p.enabled && active != Some(p.name) && p.name !in s.up;
    && r.marker == s.marker && s.clock <= r.clock
    && r.dials == (if dialled then s.dials + [p.name] else s.dials)
    && r.up <= (if dialled then s.up + {p.name} else s.up)
    && (!p.enabled ==> p.name !in r.up)
    && (Quiet(w, s.clock, r.clock) ==>
          (if p.enabled then s.up else s.up - {p.name}) <= r.up)
  }

  function EnforceOne(c: ValidConfig, w: World, s: State, p: Profile, active: Option<string>): (r: State)
    ensures Enforced(w, s, r, p, active)
  {
    hide Connect, Disconnect;
    if !p.enabled then (if p.name in s.up then Disconnect(c, w, s, p) else s)
    else if active == Some(p.name) || p.name in s.up then s
    else Connect(c, w, s, p).state
  }

  /** `enforce_profile_enablement` from a list position on; `active` was read once, before the loop. */
  function EnforceFrom(c: ValidConfig, w: World, s: State, ps: seq<Profile>, active: Option<string>): (r: State)
    ensures r.marker == s.marker && s.clock <= r.clock && s.dials <= r.dials
    decreases |ps|
  {
    if ps == [] then s
    else EnforceFrom(c, w, EnforceOne(c, w, s, ps[0], active), ps[1..], active)
  }

  function ActiveName(c: ValidConfig, s: State): Option<string> {
    var sel := Selected(c, s.marker);
    if sel.Some? then Some(sel.value.name) else None
  }

  function Enforce(c: ValidConfig, w: World, s: State): (r: State)
    ensures r.marker == s.marker && s.clock <= r.clock && s.dials <= r.dials
  {
    EnforceFrom(c, w, s, c.profiles, ActiveName(c, s))
  }

  // --- Failover ------------------------------------------------------------

  function EnabledNames(ps: seq<Profile>): (names: seq<string>) {
    if ps == [] then []
    else if ps[0].enabled then [ps[0].name] + EnabledNames(ps[1..])
    else EnabledNames(ps[1..])
  }

  function NameIndex(names: seq<string>, name: string): (i: nat)
    ensures i <= |names| && (i < |names| ==> names[i] == name)
    ensures name in names ==> i < |names|
  {
    if names == [] then 0 else if names[0] == name then 0 else 1 + NameIndex(names[1..], name)
  }

  /** The names from `start` on, wrapping around. */
  function Rotation(names: seq<string>, start: nat): (order: seq<string>)
    requires names != []
    ensures |order| == |names|
  {
    seq(|names|, k requires 0 <= k < |names| => names[(start + k) % |names|])
  }

  /** Candidates in the order they are tried; `current` is the active name or the first enabled one. */
  function Order(c: ValidConfig, current: string, names: seq<string>): (order: seq<string>)
    requires names != []
  {
    if c.failover && |names| > 1
    then Rotation(names, if current in names then NameIndex(names, current) else 0)
    else [current]
  }

  /**
    What trying one candidate may change: only a standby that is up is not
    dialled, and that never fails; a failed one is certainly not connected
    afterwards.
   */
  ghost predicate Attempted(w: World, s: State, r: Reply, name: string, active: Option<string>) {
    && s.clock <= r.state.clock
    && r.state.marker == (if r.ok && active != Some(name) then [name] else s.marker)
    && (if active != Some(name) && name in s.up
        then r.ok && r.state.dials == s.dials
        else r.state.dials == s.dials + [name])
    && r.state.up <= s.up + {name}
    && (!r.ok ==> name !in r.state.up)
    && (Quiet(w, s.clock, r.state.clock) ==>
          s.up - {name} <= r.state.up && (r.ok ==> name in r.state.up))
  }

  /** One turn of the loop in `recover`: the active profile is redialled, any other adopted or dialled. */
  function Attempt(c: ValidConfig, w: World, s: State, p: Profile, active: Option<string>): (r: Reply)
    ensures Attempted(w, s, r, p.name, active)
  {
    hide Connect, Disconnect, Switch;
    if active == Some(p.name) then
      Connect(c, w, if p.name in s.up then Disconnect(c, w, s, p) else s, p)
    else if p.name in s.up then Reply(Switch(c, w, s, p), true)
    else
      var r := Connect(c, w, s, p);
      if r.ok then Reply(Switch(c, w, r.state, p), true) else r
  }

  /** The loop of `recover`, from one candidate on. */
  function Try(c: ValidConfig, w: World, s: State, order: seq<string>, active: Option<string>): (r: Reply)
    requires forall n :: n in order ==> Find(c, n).Some?
    ensures s.clock <= r.state.clock && s.dials <= r.state.dials
    decreases |order|
  {
    if order == [] then Reply(s, false)
    else
      var r := Attempt(c, w, s, Find(c, order[0]).value, active);
      if r.ok then r else Try(c, w, r.state, order[1..], active)
  }

  function Current(c: ValidConfig, s: State, names: seq<string>): string
    requires names != []
  {
    var active := ActiveName(c, s);
    if active.Some? then active.value else names[0]
  }

  lemma {:induction false} EnabledNamesKnown(c: ValidConfig, ps: seq<Profile>)
    ensures forall n :: n in EnabledNames(ps) <==> exists p :: p in ps && p.enabled && p.name == n
  {
    if ps != [] {
      EnabledNamesKnown(c, ps[1..]);
      assert ps == [ps[0]] + ps[1..];
      forall n ensures n in EnabledNames(ps) <==> exists p :: p in ps && p.enabled && p.name == n {
        if n in EnabledNames(ps) {
          if ps[0].enabled && n == ps[0].name {
            assert ps[0] in ps;
          } else {
            var p :| p in ps[1..] && p.enabled && p.name == n;
            assert p in ps;
          }
        }
      }
    }
  }

  lemma OrderKnown(c: ValidConfig, s: State)
    requires EnabledNames(c.profiles) != []
    ensures
      var names := EnabledNames(c.profiles);
      forall n :: n in Order(c, Current(c, s, names), names) ==> n in names && Find(c, n).Some?
  {
    var names := EnabledNames(c.profiles);
    EnabledNamesKnown(c, c.profiles);
    assert names[0] in names;
  }

  function Recover(c: ValidConfig, w: World, s: State): (r: Reply)
    ensures s.clock <= r.state.clock && s.dials <= r.state.dials
  {
    var names := EnabledNames(c.profiles);
    if names == [] then Reply(s, false)
    else
      OrderKnown(c, s);
      Try(c, w, s, Order(c, Current(c, s, names), names), ActiveName(c, s))
  }

  // --- Runs ----------------------------------------------------------------

  /** The locked entry points (a name is resolved as the source resolves it), and time passing. */
  datatype Op =
    | OpSwitch(name: string)
    | OpConnect(who: Option<string>)
    | OpDisconnect(who: Option<string>)
    | OpEnsure
    | OpEnforce
    | OpRecover
    | OpRefresh
    | OpIdle

  function Resolve(c: ValidConfig, s: State, who: Option<string>): (r: Option<Profile>)
    ensures r.Some? ==> r.value in c.profiles
  {
    if who.Some? && who.value != "" then Find(c, who.value) else Selected(c, s.marker)
  }

  /** An unknown name raises before anything is touched. */
  function Step(c: ValidConfig, w: World, s: State, op: Op): State {
    match op
    case OpSwitch(name) => var p := Find(c, name); if p.Some? then Switch(c, w, s, p.value) else s
    case OpConnect(who) => var p := Resolve(c, s, who); if p.Some? then Connect(c, w, s, p.value).state else s
    case OpDisconnect(who) => var p := Resolve(c, s, who); if p.Some? then Disconnect(c, w, s, p.value) else s
    case OpEnsure => EnsureRouting(c, w, s)
    case OpEnforce => Enforce(c, w, s)
    case OpRecover => Recover(c, w, s).state
    case OpRefresh => Refresh(c, w, s)
    case OpIdle => Pulse(c, w, s)
  }

  function Run(c: ValidConfig, w: World, s: State, ops: seq<Op>): State
    decreases |ops|
  {
    if ops == [] then s else Run(c, w, Step(c, w, s, ops[0]), ops[1..])
  }
}
