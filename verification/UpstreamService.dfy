/**
  The upstream service itself: fields changed in place, loops over profiles and
  candidates. Every method is proved to do to the shared state exactly what the
  function of the same purpose in Upstream.dfy says.
 */
module UpstreamService {
  import opened Options
  import opened Profiles
  import PolicyRouting
  import U = Upstream

  class Service {
    const config: ValidConfig
    const world: U.World
    const host: PolicyRouting.Host
    var marker: seq<string>
    var up: set<string>
    var recorded: seq<U.Recorded>
    var clock: nat
    var dials: seq<string>

    constructor (config: ValidConfig, world: U.World, host: PolicyRouting.Host, start: U.State)
      requires host.kernel == start.kernel
      ensures this.config == config && this.world == world && this.host == host
      ensures View() == start
    {
      this.config, this.world, this.host := config, world, host;
      marker, up, recorded, clock, dials := start.marker, start.up, start.recorded, start.clock, start.dials;
    }

    ghost function View(): U.State
      reads this, host
    {
      U.State(marker, up, host.kernel, recorded, clock, dials)
    }

    /** One question to the outside world; connections and routes may be lost before the answer. */
    method Ask() returns (e: U.Event)
      modifies this, host
      ensures e == world(old(clock))
      ensures View() == U.Pulse(config, world, old(View()))
    {
      e := world(clock);
      clock := clock + 1;
      up := up - e.dead;
      host.kernel := U.Settle(host.kernel, (host.kernel.devices - e.gone) + e.born + U.DevicesOf(config, up), e.purged);
    }

    method SelectedProfile() returns (r: Option<Profile>)
      ensures r == U.Selected(config, marker)
    {
      for i := 0 to |marker|
        invariant U.Selected(config, marker) == U.Selected(config, marker[i..])
      {
        assert marker[i..][1..] == marker[i + 1..];
        var p := Find(config, marker[i]);
        if marker[i] != "" && p.Some? {
          return if p.value.enabled then p else None;
        }
      }
      return ConfigSelected(config);
    }

    method ActiveInterface() returns (device: string)
      ensures device == U.ActiveInterface(config, View())
    {
      var selected := SelectedProfile();
      device := if selected.Some? then Device(config, selected.value) else config.interface;
    }

    method ApplyRoute(mark: nat, table: nat, device: string)
      modifies this, host
      ensures View() == U.ApplyAt(config, world, old(View()), mark, table, device)
    {
      var _ := Ask();
      var routing := new PolicyRouting.PolicyRoutingService(host, mark, table);
      var _ := routing.ApplyRoute(device);
    }

    method EnsureRoute(mark: nat, table: nat, device: string)
      modifies this, host
      ensures View() == U.EnsureAt(config, world, old(View()), mark, table, device)
    {
      var _ := Ask();
      var routing := new PolicyRouting.PolicyRoutingService(host, mark, table);
      var _ := routing.EnsureRoute(device);
    }

    method CleanupRoute(mark: nat, table: nat)
      modifies this, host
      ensures View() == U.CleanupAt(config, world, old(View()), mark, table)
    {
      var _ := Ask();
      var routing := new PolicyRouting.PolicyRoutingService(host, mark, table);
      routing.CleanupRoute();
    }

    // --- nftables.apply ----------------------------------------------------

    method ReassertPolicyRouting(ts: seq<U.Assignment>)
      modifies this, host
      ensures View() == U.Reassert(config, world, old(View()), ts)
    {
      hide U.ApplyAt;
      var selected := ConfigSelected(config);
      for i := 0 to |ts|
        invariant U.Reassert(config, world, old(View()), ts) == U.Reassert(config, world, View(), ts[i..])
      {
        assert ts[i..][1..] == ts[i + 1..];
        if !(ts[i].name == "default" && selected.None?) {
          ApplyRoute(ts[i].mark, ts[i].table, ts[i].device);
        }
      }
    }

    method CleanupStaleTargets(ts: seq<U.Assignment>)
      modifies this, host
      ensures View() == U.CleanupStale(config, world, old(View()), old(recorded), ts).(recorded := U.RecordAll([], ts))
    {
      hide U.CleanupAt;
      var previous := recorded;
      for i := 0 to |previous|
        invariant U.CleanupStale(config, world, old(View()), previous, ts)
               == U.CleanupStale(config, world, View(), previous[i..], ts)
      {
        assert previous[i..][1..] == previous[i + 1..];
        if !U.Mentions(ts, previous[i].name) {
          CleanupRoute(previous[i].mark, previous[i].table);
        }
      }
      recorded := [];
      for i := 0 to |ts|
        invariant U.RecordAll([], ts) == U.RecordAll(recorded, ts[i..])
        invariant View() == U.CleanupStale(config, world, old(View()), previous, ts).(recorded := recorded)
      {
        assert ts[i..][1..] == ts[i + 1..];
        recorded := U.Put(recorded, U.Recorded(ts[i].name, ts[i].mark, ts[i].table));
      }
    }

    method NftApply(outbound: string) returns (ok: bool)
      modifies this, host
      ensures U.NftApply(config, world, old(View()), outbound) == U.Reply(View(), ok)
    {
      hide U.Pulse, U.Reassert, U.CleanupStale, U.RecordAll;
      var e := Ask();
      if !e.yes {
        return false;
      }
      var ts := U.Assignments(config, outbound, e.targeted);
      if config.enabled {
        ReassertPolicyRouting(ts);
      }
      CleanupStaleTargets(ts);
      return true;
    }

    // --- Locked operations -------------------------------------------------

    method ApplyServerRoutingIfChanged()
      modifies this, host
      ensures View() == U.Refresh(config, world, old(View()))
    {
      hide U.Pulse, U.NftApply;
      var changed := Ask();
      if changed.yes {
        var device := ActiveInterface();
        var _ := NftApply(device);
      }
    }

    method SwitchProfile(p: Profile)
      modifies this, host
      ensures View() == U.Switch(config, world, old(View()), p)
    {
      hide U.NftApply, U.ApplyAt;
      marker := [p.name];
      var device := Device(config, p);
      var _ := NftApply(device);
      if p.name in up {
        ApplyRoute(U.BaseMark(config), config.tableId, device);
      }
    }

    method Dial(p: Profile) returns (ok: bool)
      modifies this, host
      ensures U.Dial(config, world, old(View()), p) == U.Reply(View(), ok)
    {
      var answer := Ask();
      dials := dials + [p.name];
      ok := answer.yes;
      if ok {
        up := up + {p.name};
        host.kernel := host.kernel.(devices := host.kernel.devices + {Device(config, p)});
      }
    }

    /** Raises (returns false) when the dial fails; an established tunnel is left alone. */
    method Connect(p: Profile) returns (ok: bool)
      modifies this, host
      ensures U.Connect(config, world, old(View()), p) == U.Reply(View(), ok)
    {
      hide U.NftApply, U.Dial, U.ApplyAt, U.Pulse, U.Refresh;
      if p.name in up {
        return true;
      }
      var selected := SelectedProfile();
      var active := selected.Some? && selected.value.name == p.name;
      var device := ActiveInterface();
      var _ := NftApply(device);
      ok := Dial(p);
      if ok {
        if active {
          ApplyRoute(U.BaseMark(config), config.tableId, Device(config, p));
        }
        var e := Ask();
        if U.HasTarget(config, e, p) {
          ApplyRoute(U.MarkOf(config, p), U.TableOf(config, p), Device(config, p));
        }
        ApplyServerRoutingIfChanged();
      }
    }

    method Disconnect(p: Profile)
      modifies this, host
      ensures View() == U.Disconnect(config, world, old(View()), p)
    {
      hide U.Pulse, U.CleanupAt, U.Settle;
      if p.name !in up {
        return;
      }
      var _ := Ask();
      up := up - {p.name};
      host.kernel := U.Settle(host.kernel, host.kernel.devices - {Device(config, p)}, {});
      var selected := SelectedProfile();
      if selected.Some? && selected.value.name == p.name {
        CleanupRoute(U.BaseMark(config), config.tableId);
      }
      var e := Ask();
      if U.HasTarget(config, e, p) {
        CleanupRoute(U.MarkOf(config, p), U.TableOf(config, p));
      }
    }

    method EnsurePolicyRouting()
      modifies this, host
      ensures View() == U.EnsureRouting(config, world, old(View()))
    {
      hide U.EnsureAt, U.Pulse;
      var selected := SelectedProfile();
      if selected.Some? && selected.value.name in up {
        EnsureRoute(U.BaseMark(config), config.tableId, Device(config, selected.value));
      }
      var e := Ask();
      ghost var start := View();
      var ps := config.profiles;
      assert ps[0..] == ps;
      for i := 0 to |ps|
        invariant U.EnsureNamed(config, world, start, ps, e) == U.EnsureNamed(config, world, View(), ps[i..], e)
      {
        assert ps[i..][1..] == ps[i + 1..];
        if U.HasTarget(config, e, ps[i]) && ps[i].name in up {
          EnsureRoute(U.MarkOf(config, ps[i]), U.TableOf(config, ps[i]), Device(config, ps[i]));
        }
      }
    }

    method EnforceProfileEnablement()
      modifies this, host
      ensures View() == U.Enforce(config, world, old(View()))
    {
      hide U.Connect, U.Disconnect;
      var selected := SelectedProfile();
      var active := if selected.Some? then Some(selected.value.name) else None;
      var ps := config.profiles;
      assert ps[0..] == ps;
      for i := 0 to |ps|
        invariant U.EnforceFrom(config, world, old(View()), ps, active)
               == U.EnforceFrom(config, world, View(), ps[i..], active)
      {
        assert ps[i..][1..] == ps[i + 1..];
        var p := ps[i];
        ghost var before := View();
        var connected := p.name in up;
        if !p.enabled {
          if connected {
            Disconnect(p);
          }
        } else if active == Some(p.name) || connected {
        } else {
          var _ := Connect(p);
        }
        assert View() == U.EnforceOne(config, world, before, p, active);
      }
    }

    /** One candidate of `recover`. */
    method Attempt(p: Profile, active: Option<string>) returns (ok: bool)
      modifies this, host
      ensures U.Attempt(config, world, old(View()), p, active) == U.Reply(View(), ok)
    {
      hide U.Connect, U.Disconnect, U.Switch;
      if active == Some(p.name) {
        if p.name in up {
          Disconnect(p);
        }
        ok := Connect(p);
        return;
      }
      if p.name !in up {
        ok := Connect(p);
        if !ok {
          return;
        }
      }
      SwitchProfile(p);
      ok := true;
    }

    method Recover() returns (ok: bool)
      modifies this, host
      ensures U.Recover(config, world, old(View())) == U.Reply(View(), ok)
    {
      hide U.Attempt, U.Order;
      var names := U.EnabledNames(config.profiles);
      if names == [] {
        return false;
      }
      U.OrderKnown(config, View());
      var selected := SelectedProfile();
      var active := if selected.Some? then Some(selected.value.name) else None;
      var order := U.Order(config, if active.Some? then active.value else names[0], names);
      assert order[0..] == order;
      for i := 0 to |order|
        invariant U.Try(config, world, old(View()), order, active) == U.Try(config, world, View(), order[i..], active)
      {
        assert order[i..][1..] == order[i + 1..] && order[i] in order;
        var p := Find(config, order[i]).value;
        ok := Attempt(p, active);
        if ok {
          return;
        }
      }
      return false;
    }
  }
}
