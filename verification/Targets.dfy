/**
  Routing targets: the default bucket plus one target per profile with traffic
  of its own (services/routing.py), and the stored server-pushed lists they are
  computed from (services/upstream_pushed.py).
 */
module Targets {
  import opened Options
  import opened Profiles
  import opened Text
  import opened PolicyRouting
  import Upstream

  // --- Stored pushed lists -------------------------------------------------

  datatype Pushed = Pushed(
    routes: seq<string>,
    domains: seq<string>,
    dns: seq<string>,
    source: string,
    version: string,
    syncedAt: nat)

  const NOTHING := Pushed([], [], [], "", "", 0)

  /** The files of the store, by safe profile name. */
  type Files = map<string, Pushed>

  function Load(files: Files, p: Profile): Pushed {
    var key := SafeName(p.name);
    if key in files then files[key] else NOTHING
  }

  function Effective(files: Files, p: Profile): Pushed {
    if p.acceptServerRoutes && p.hostEnabled then Load(files, p) else NOTHING
  }

  predicate IsEmpty(e: Pushed) {
    e.routes == [] && e.domains == []
  }

  /** One entry of the list that is hashed into the fingerprint. */
  datatype Part = Part(name: string, routes: seq<string>, domains: seq<string>, dns: seq<string>)

  function Parts(files: Files, ps: seq<Profile>): seq<Part> {
    if ps == [] then []
    else
      var e := Effective(files, ps[0]);
      (if IsEmpty(e) then [] else [Part(ps[0].name, e.routes, e.domains, e.dns)]) + Parts(files, ps[1..])
  }

  class PushedRoutingStore {
    const config: ValidConfig
    var files: Files

    constructor (config: ValidConfig)
      ensures this.config == config && files == map[]
    {
      this.config, files := config, map[];
    }

    /** Fresh handshake data replaces the lists but keeps the sync pacing, and touches no other profile. */
    method SaveHandshake(p: Profile, pushed: Pushed)
      requires p in config.profiles
      modifies this
      ensures Load(files, p) == pushed.(syncedAt := Load(old(files), p).syncedAt)
      ensures forall q :: q in config.profiles && q != p ==> Load(files, q) == Load(old(files), q)
    {
      var previous := Load(files, p);
      files := files[SafeName(p.name) := pushed.(syncedAt := previous.syncedAt)];
      forall q | q in config.profiles && q != p ensures Load(files, q) == Load(old(files), q) {
        if SafeName(q.name) == SafeName(p.name) {
          NameIdentifies(config, p, q);
        }
      }
    }

    /** The list that `fingerprint()` hashes. */
    method FingerprintParts() returns (parts: seq<Part>)
      ensures parts == Parts(files, config.profiles)
    {
      parts := [];
      var ps := config.profiles;
      assert ps[0..] == ps;
      for i := 0 to |ps|
        invariant parts + Parts(files, ps[i..]) == Parts(files, ps)
      {
        assert ps[i..][1..] == ps[i + 1..];
        var e := Effective(files, ps[i]);
        if !IsEmpty(e) {
          parts := parts + [Part(ps[i].name, e.routes, e.domains, e.dns)];
        }
      }
    }
  }

  // --- Merging and splitting lists -----------------------------------------

  predicate IsItem(s: string) {
    s != "" && s[0] != '#'
  }

  /** `_merge_unique` on one list, given what has been collected already. */
  function Merge(result: seq<string>, source: seq<string>): seq<string>
    decreases |source|
  {
    if source == [] then result
    else
      var item := Strip(source[0]);
      Merge(if IsItem(item) && item !in result then result + [item] else result, source[1..])
  }

  ghost predicate Offers(source: seq<string>, x: string) {
    exists i :: 0 <= i < |source| && Strip(source[i]) == x
  }

  /** Merging keeps what was there in place, and adds each real item of the source exactly once. */
  lemma {:induction false} MergeIsUnion(result: seq<string>, source: seq<string>)
    requires Distinct(result)
    ensures result <= Merge(result, source) && Distinct(Merge(result, source))
    ensures forall x :: x in Merge(result, source) <==>
              x in result || (IsItem(x) && Offers(source, x))
    decreases |source|
  {
    hide Strip, IsItem, Offers;
    if source == [] {
      NothingOffered();
    } else {
      var item := Strip(source[0]);
      var next := if IsItem(item) && item !in result then result + [item] else result;
      MergeIsUnion(next, source[1..]);
      forall x ensures Offers(source, x) <==> x == item || Offers(source[1..], x) {
        OffersParts(source, x);
      }
    }
  }

  lemma NothingOffered()
    ensures forall x :: !Offers([], x)
  {
  }

  lemma OffersParts(source: seq<string>, x: string)
    requires source != []
    ensures Offers(source, x) <==> x == Strip(source[0]) || Offers(source[1..], x)
  {
    hide Strip;
    if i :| 0 <= i < |source| && Strip(source[i]) == x && i > 0 {
      assert source[1..][i - 1] == source[i];
    }
    if i :| 0 <= i < |source[1..]| && Strip(source[1..][i]) == x {
      assert source[i + 1] == source[1..][i];
    }
  }

  method MergeUnique(sources: seq<seq<string>>) returns (result: seq<string>)
    requires |sources| == 2 || |sources| == 3
    ensures result == Merge(Merge(Merge([], sources[0]), sources[1]), if |sources| == 3 then sources[2] else [])
  {
    result := [];
    var seen: set<string> := {};
    for i := 0 to |sources|
      invariant forall x :: x in seen <==> x in result
      invariant i == 0 ==> result == []
      invariant i == 1 ==> result == Merge([], sources[0])
      invariant i == 2 ==> result == Merge(Merge([], sources[0]), sources[1])
      invariant i == 3 ==> result == Merge(Merge(Merge([], sources[0]), sources[1]), sources[2])
    {
      ghost var start := result;
      var source := sources[i];
      assert source[0..] == source;
      for j := 0 to |source|
        invariant forall x :: x in seen <==> x in result
        invariant Merge(start, source) == Merge(result, source[j..])
      {
        assert source[j..][1..] == source[j + 1..];
        var item := Strip(source[j]);
        if IsItem(item) && item !in seen {
          result := result + [item];
          seen := seen + {item};
        }
      }
    }
  }

  datatype Family = V4 | V6 | Malformed

  /** Address parsing is foreign; so are the file- and URL-backed lists of the default target. */
  datatype Context = Context(
    family: string -> Family,
    hostRoute: string -> Option<string>,
    routes: seq<string>,
    domains: seq<string>)

  function OfFamily(x: Context, routes: seq<string>, f: Family): seq<string> {
    if routes == [] then []
    else (if x.family(routes[0]) == f then [routes[0]] else []) + OfFamily(x, routes[1..], f)
  }

  function DnsHostRoutes(x: Context, dns: seq<string>): seq<string> {
    if dns == [] then []
    else
      var route := x.hostRoute(dns[0]);
      (if route.Some? then [route.value] else []) + DnsHostRoutes(x, dns[1..])
  }

  // --- Targets -------------------------------------------------------------

  datatype Target = Target(
    name: string,
    fwmark: string,
    tableId: nat,
    interface: string,
    safe: Option<string>,
    mode: string,
    routes: seq<string>,
    domains: seq<string>,
    killswitch: bool,
    profile: Option<Profile>,
    hostActive: bool,
    hostRoutes: seq<string>,
    hostRoutesV6: seq<string>,
    hostDomains: seq<string>,
    serverDomains: seq<string>,
    serverDns: seq<string>)

  function DefaultTarget(c: ValidConfig, x: Context, outbound: string): Target {
    Target("default", c.fwmark, c.tableId, if c.clientTraffic then outbound else c.mainInterface, None,
           if c.splitMode then "split" else "full", x.routes, if c.splitMode then x.domains else [],
           c.enabled && ConfigSelected(c).Some? && c.clientTraffic, ConfigSelected(c),
           false, [], [], [], [], [])
  }

  function HostRoutesOf(x: Context, p: Profile, pushed: Pushed): seq<string> {
    Merge(Merge(Merge([], p.hostRoutes), pushed.routes), if pushed.domains != [] then DnsHostRoutes(x, pushed.dns) else [])
  }

  function HostDomainsOf(p: Profile, pushed: Pushed): seq<string> {
    Merge(Merge([], p.hostDomains), pushed.domains)
  }

  /** The target of one profile, or nothing when it has no traffic of its own. */
  function TargetFor(c: ValidConfig, x: Context, p: Profile, pushed: Pushed): Option<Target> {
    var clientActive := p.clientsEnabled && (p.routes != [] || p.domains != []);
    var hostRoutes := HostRoutesOf(x, p, pushed);
    var hostDomains := HostDomainsOf(p, pushed);
    var hostActive := p.hostEnabled && (hostRoutes != [] || hostDomains != []);
    if !clientActive && !hostActive then None
    else Some(Target(
      p.name, MarkText(c, Offset(c, p)), c.tableId + Offset(c, p), Device(c, p), Some(SafeName(p.name)), "split",
      if p.clientsEnabled then p.routes else [], if p.clientsEnabled then p.domains else [], true, Some(p),
      hostActive,
      if hostActive then OfFamily(x, hostRoutes, V4) else [],
      if hostActive then OfFamily(x, hostRoutes, V6) else [],
      if hostActive then hostDomains else [],
      if hostActive then pushed.domains else [],
      if hostActive then pushed.dns else []))
  }

  /** A host route that reaches the profile's target: its own, a pushed one, or a pushed resolver with domains to resolve. */
  ghost predicate RouteOffered(x: Context, p: Profile, pushed: Pushed, r: string) {
    && IsItem(r)
    && (|| Offers(p.hostRoutes, r) || Offers(pushed.routes, r)
        || (pushed.domains != [] && Offers(DnsHostRoutes(x, pushed.dns), r)))
  }

  ghost predicate DomainOffered(p: Profile, pushed: Pushed, d: string) {
    IsItem(d) && (Offers(p.hostDomains, d) || Offers(pushed.domains, d))
  }

  lemma MergedExactly(x: Context, p: Profile, pushed: Pushed)
    ensures Distinct(HostRoutesOf(x, p, pushed)) && Distinct(HostDomainsOf(p, pushed))
    ensures forall r :: r in HostRoutesOf(x, p, pushed) <==> RouteOffered(x, p, pushed, r)
    ensures forall d :: d in HostDomainsOf(p, pushed) <==> DomainOffered(p, pushed, d)
  {
    hide Merge, IsItem;
    MergeIsUnion([], p.hostRoutes);
    MergeIsUnion(Merge([], p.hostRoutes), pushed.routes);
    MergeIsUnion(Merge(Merge([], p.hostRoutes), pushed.routes), if pushed.domains != [] then DnsHostRoutes(x, pushed.dns) else []);
    MergeIsUnion([], p.hostDomains);
    MergeIsUnion(Merge([], p.hostDomains), pushed.domains);
  }

  lemma {:induction false} OfFamilyExactly(x: Context, routes: seq<string>, f: Family)
    requires Distinct(routes)
    ensures Distinct(OfFamily(x, routes, f))
    ensures forall r :: r in OfFamily(x, routes, f) <==> r in routes && x.family(r) == f
  {
    if routes != [] {
      assert routes == [routes[0]] + routes[1..];
      assert routes[0] !in routes[1..];
      OfFamilyExactly(x, routes[1..], f);
    }
  }

  /**
    A profile has a target exactly when clients are sent through it, or the host
    is and something is offered; and its host lists hold every offered item of
    the right kind exactly once, and nothing else.
   */
  lemma TargetCarriesExactly(c: ValidConfig, x: Context, p: Profile, pushed: Pushed)
    ensures
      var t := TargetFor(c, x, p, pushed);
      var hostActive := p.hostEnabled
        && ((exists r :: RouteOffered(x, p, pushed, r)) || exists d :: DomainOffered(p, pushed, d));
      && (t.Some? <==> (p.clientsEnabled && (p.routes != [] || p.domains != [])) || hostActive)
      && (t.Some? ==>
            && t.value.hostActive == hostActive
            && (forall r :: r in t.value.hostRoutes <==> hostActive && RouteOffered(x, p, pushed, r) && x.family(r) == V4)
            && (forall r :: r in t.value.hostRoutesV6 <==> hostActive && RouteOffered(x, p, pushed, r) && x.family(r) == V6)
            && (forall d :: d in t.value.hostDomains <==> hostActive && DomainOffered(p, pushed, d))
            && Distinct(t.value.hostRoutes) && Distinct(t.value.hostRoutesV6) && Distinct(t.value.hostDomains))
  {
    hide Validated, MarkText, Offset, Device, SafeName, RouteOffered, DomainOffered, OfFamily;
    MergedExactly(x, p, pushed);
    var routes, domains := HostRoutesOf(x, p, pushed), HostDomainsOf(p, pushed);
    OfFamilyExactly(x, routes, V4);
    OfFamilyExactly(x, routes, V6);
    assert routes != [] ==> routes[0] in routes;
    assert domains != [] ==> domains[0] in domains;
  }

  function TargetsOf(c: ValidConfig, x: Context, files: Files, ps: seq<Profile>): seq<Target> {
    if ps == [] then []
    else
      var t := TargetFor(c, x, ps[0], Effective(files, ps[0]));
      (if t.Some? then [t.value] else []) + TargetsOf(c, x, files, ps[1..])
  }

  function AllTargets(c: ValidConfig, x: Context, files: Files, outbound: string): seq<Target> {
    [DefaultTarget(c, x, outbound)] + if c.enabled then TargetsOf(c, x, files, c.profiles) else []
  }

  method ListTargets(c: ValidConfig, x: Context, files: Files, outbound: string) returns (targets: seq<Target>)
    ensures targets == AllTargets(c, x, files, outbound)
  {
    hide TargetFor, Validated;
    targets := [DefaultTarget(c, x, outbound)];
    if c.enabled {
      var ps := c.profiles;
      assert ps[0..] == ps;
      for i := 0 to |ps|
        invariant targets + TargetsOf(c, x, files, ps[i..]) == [DefaultTarget(c, x, outbound)] + TargetsOf(c, x, files, ps)
      {
        assert ps[i..][1..] == ps[i + 1..];
        var t := TargetFor(c, x, ps[i], Effective(files, ps[i]));
        if t.Some? {
          targets := targets + [t.value];
        }
      }
    }
  }

  // --- The routing side of a target ----------------------------------------

  function RoutingSide(ts: seq<Target>): seq<Upstream.Assignment>
    requires forall t :: t in ts ==> IsMark(t.fwmark)
  {
    if ts == [] then []
    else [Upstream.Assignment(ts[0].name, MarkValue(ts[0].fwmark), ts[0].tableId, ts[0].interface)] + RoutingSide(ts[1..])
  }

  /** The profiles that currently own a target. */
  function Owners(c: ValidConfig, x: Context, files: Files): set<string> {
    set p | p in c.profiles && TargetFor(c, x, p, Effective(files, p)).Some? :: p.name
  }

  lemma OwnersExact(c: ValidConfig, x: Context, files: Files, p: Profile)
    requires p in c.profiles
    ensures p.name in Owners(c, x, files) <==> TargetFor(c, x, p, Effective(files, p)).Some?
  {
    forall q | q in c.profiles && q.name == p.name ensures q == p { NameIdentifies(c, p, q); }
  }

  /** A profile's target carries that profile's own mark, table and device. */
  lemma SideOf(c: ValidConfig, x: Context, p: Profile, pushed: Pushed)
    requires p in c.profiles && TargetFor(c, x, p, pushed).Some?
    ensures
      var t := TargetFor(c, x, p, pushed).value;
      && t.name == p.name && IsMark(t.fwmark) && MarkValue(t.fwmark) == Upstream.MarkOf(c, p)
      && t.tableId == Upstream.TableOf(c, p) && t.interface == Device(c, p)
      && t.safe == Some(SafeName(p.name))
  {
    MarkTextValue(c, Offset(c, p));
  }

  lemma {:induction false} NamedSides(c: ValidConfig, x: Context, files: Files, ps: seq<Profile>)
    requires forall p :: p in ps ==> p in c.profiles
    ensures forall t :: t in TargetsOf(c, x, files, ps) ==> IsMark(t.fwmark)
    ensures RoutingSide(TargetsOf(c, x, files, ps)) == Upstream.NamedAssignments(c, ps, Owners(c, x, files))
  {
    hide TargetFor, Validated, Owners, IsMark, MarkValue, Device, Offset, Effective;
    if ps != [] {
      var p := ps[0];
      assert p in c.profiles;
      NamedSides(c, x, files, ps[1..]);
      OwnersExact(c, x, files, p);
      if TargetFor(c, x, p, Effective(files, p)).Some? {
        SideOf(c, x, p, Effective(files, p));
        var all, rest := TargetsOf(c, x, files, ps), TargetsOf(c, x, files, ps[1..]);
        assert all[0] == TargetFor(c, x, p, Effective(files, p)).value && all[1..] == rest;
        assert RoutingSide(all)
            == [Upstream.Assignment(p.name, Upstream.MarkOf(c, p), Upstream.TableOf(c, p), Device(c, p))] + RoutingSide(rest);
      } else {
        assert TargetsOf(c, x, files, ps) == TargetsOf(c, x, files, ps[1..]);
      }
    }
  }

  /** The operations on shared state see exactly the targets that are rendered. */
  lemma TargetsAreAssignments(c: ValidConfig, x: Context, files: Files, outbound: string)
    ensures forall t :: t in AllTargets(c, x, files, outbound) ==> IsMark(t.fwmark)
    ensures RoutingSide(AllTargets(c, x, files, outbound)) == Upstream.Assignments(c, outbound, Owners(c, x, files))
  {
    NamedSides(c, x, files, c.profiles);
    var ts := AllTargets(c, x, files, outbound);
    assert ts[1..] == if c.enabled then TargetsOf(c, x, files, c.profiles) else [];
  }

  // --- Which pushed lists reach a target -----------------------------------

  /** What is stored for a profile that does not take part changes nothing of what is rendered. */
  lemma RefusedListsChangeNothing(c: ValidConfig, x: Context, files: Files, p: Profile, pushed: Pushed, outbound: string)
    requires p in c.profiles && !(p.acceptServerRoutes && p.hostEnabled)
    ensures AllTargets(c, x, files[SafeName(p.name) := pushed], outbound) == AllTargets(c, x, files, outbound)
  {
    hide Validated, TargetFor, SafeName;
    RefusedIn(c, x, files, p, pushed, c.profiles);
  }

  lemma {:induction false} RefusedIn(c: ValidConfig, x: Context, files: Files, p: Profile, pushed: Pushed, ps: seq<Profile>)
    requires p in c.profiles && !(p.acceptServerRoutes && p.hostEnabled) && forall q :: q in ps ==> q in c.profiles
    ensures TargetsOf(c, x, files[SafeName(p.name) := pushed], ps) == TargetsOf(c, x, files, ps)
  {
    if ps != [] {
      RefusedIn(c, x, files, p, pushed, ps[1..]);
      if SafeName(ps[0].name) == SafeName(p.name) {
        NameIdentifies(c, ps[0], p);
      }
      hide Validated, TargetFor, SafeName;
      assert Effective(files[SafeName(p.name) := pushed], ps[0]) == Effective(files, ps[0]);
    }
  }

  /** The target holds everything pushed: the routes by family, the domains with their resolvers. */
  ghost predicate Holds(x: Context, t: Target, pushed: Pushed) {
    && t.hostActive && t.serverDomains == pushed.domains && t.serverDns == pushed.dns
    && (forall r :: IsItem(r) && Offers(pushed.routes, r) ==>
          (x.family(r) == V4 ==> r in t.hostRoutes) && (x.family(r) == V6 ==> r in t.hostRoutesV6))
    && (forall d :: IsItem(d) && Offers(pushed.domains, d) ==> d in t.hostDomains)
  }

  ghost predicate OffersAny(pushed: Pushed) {
    exists r :: IsItem(r) && (Offers(pushed.routes, r) || Offers(pushed.domains, r))
  }

  /** What is stored for one that does reaches its target. */
  lemma AcceptedListsArrive(c: ValidConfig, x: Context, files: Files, p: Profile, outbound: string)
    requires c.enabled && p in c.profiles && p.acceptServerRoutes && p.hostEnabled && SafeName(p.name) in files
    requires OffersAny(files[SafeName(p.name)])
    ensures exists t :: t in AllTargets(c, x, files, outbound) && t.name == p.name && Holds(x, t, files[SafeName(p.name)])
  {
    var pushed := files[SafeName(p.name)];
    assert Effective(files, p) == pushed;
    hide *;
    ArrivesAt(c, x, p, pushed);
    TargetAmong(c, x, files, c.profiles, p);
    NamedAmongAll(c, x, files, outbound, TargetFor(c, x, p, pushed).value);
  }

  lemma NamedAmongAll(c: ValidConfig, x: Context, files: Files, outbound: string, t: Target)
    requires c.enabled && t in TargetsOf(c, x, files, c.profiles)
    ensures t in AllTargets(c, x, files, outbound)
  {
    hide Validated, TargetsOf, DefaultTarget;
  }

  lemma SomethingOffered(x: Context, p: Profile, pushed: Pushed)
    requires OffersAny(pushed)
    ensures (exists r :: RouteOffered(x, p, pushed, r)) || exists d :: DomainOffered(p, pushed, d)
  {
    hide IsItem, Offers;
    var r :| IsItem(r) && (Offers(pushed.routes, r) || Offers(pushed.domains, r));
    assert RouteOffered(x, p, pushed, r) || DomainOffered(p, pushed, r);
  }

  lemma PushedIsOffered(x: Context, p: Profile, pushed: Pushed)
    ensures forall r :: IsItem(r) && Offers(pushed.routes, r) ==> RouteOffered(x, p, pushed, r)
    ensures forall d :: IsItem(d) && Offers(pushed.domains, d) ==> DomainOffered(p, pushed, d)
  {
    hide IsItem, Offers;
  }

  lemma ServerSide(c: ValidConfig, x: Context, p: Profile, pushed: Pushed)
    requires TargetFor(c, x, p, pushed).Some? && TargetFor(c, x, p, pushed).value.hostActive
    ensures
      var t := TargetFor(c, x, p, pushed).value;
      t.name == p.name && t.serverDomains == pushed.domains && t.serverDns == pushed.dns
  {
    hide Validated, MarkText, Offset, Device, SafeName, HostRoutesOf, HostDomainsOf, OfFamily;
  }

  lemma ArrivesAt(c: ValidConfig, x: Context, p: Profile, pushed: Pushed)
    requires p in c.profiles && p.hostEnabled && OffersAny(pushed)
    ensures TargetFor(c, x, p, pushed).Some?
    ensures TargetFor(c, x, p, pushed).value.name == p.name && Holds(x, TargetFor(c, x, p, pushed).value, pushed)
  {
    hide IsItem, Offers, TargetFor, RouteOffered, DomainOffered, Validated;
    SomethingOffered(x, p, pushed);
    TargetCarriesExactly(c, x, p, pushed);
    PushedIsOffered(x, p, pushed);
    ServerSide(c, x, p, pushed);
  }

  lemma {:induction false} TargetAmong(c: ValidConfig, x: Context, files: Files, ps: seq<Profile>, p: Profile)
    requires p in ps && TargetFor(c, x, p, Effective(files, p)).Some?
    ensures TargetFor(c, x, p, Effective(files, p)).value in TargetsOf(c, x, files, ps)
  {
    hide Validated, TargetFor, Effective;
    if p != ps[0] {
      assert p in ps[1..];
      TargetAmong(c, x, files, ps[1..], p);
    }
  }

  /** Clients are sent through a profile's target exactly by the profile's own lists, and only while that is switched on. */
  lemma ClientListsExactly(c: ValidConfig, x: Context, p: Profile, pushed: Pushed)
    requires TargetFor(c, x, p, pushed).Some?
    ensures
      var t := TargetFor(c, x, p, pushed).value;
      && t.killswitch && t.mode == "split"
      && (forall r :: r in t.routes <==> p.clientsEnabled && r in p.routes)
      && (forall d :: d in t.domains <==> p.clientsEnabled && d in p.domains)
      && (!t.hostActive ==> t.serverDomains == [] && t.serverDns == [] && t.hostDomains == [])
  {
    hide Validated, MarkText, Offset, Device, SafeName;
  }

  /** The default target blocks what it cannot send exactly when it is the selected tunnel's, and names domains only in split mode. */
  lemma DefaultTargetBlocks(c: ValidConfig, x: Context, outbound: string)
    ensures
      var t := DefaultTarget(c, x, outbound);
      && (t.killswitch <==> c.enabled && c.clientTraffic && exists p :: p in c.profiles && p.enabled && ConfigSelected(c) == Some(p))
      && (t.mode == "split" <==> c.splitMode) && (!c.splitMode ==> t.mode == "full" && t.domains == [])
      && !t.hostActive && t.safe == None
  {
    hide Validated;
    assert |"split"| != |"full"|;
  }
}
