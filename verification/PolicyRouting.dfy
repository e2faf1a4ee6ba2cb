/**
  Policy routing for one routing target: an `ip rule` sends a mark to a table,
  and the table's default route names a device (services/policy_routing.py).
 */
module PolicyRouting {

  const RULE_PRIORITY: nat := 100

  datatype Rule = Rule(priority: nat, mark: nat, table: nat)

  /** The kernel state the service changes: rules, one default route per table, live devices. */
  datatype Kernel = Kernel(rules: set<Rule>, routes: map<nat, string>, devices: set<string>)

  function OwnRule(mark: nat, table: nat): Rule {
    Rule(RULE_PRIORITY, mark, table)
  }

  /** `ip route replace default dev D table T` fails, changing nothing, when D is not up. */
  function ReplaceRoute(k: Kernel, device: string, table: nat): Kernel {
    if device in k.devices then k.(routes := k.routes[table := device]) else k
  }

  /** `_rule_present` looks at mark and table only, so a rule at any priority counts. */
  predicate RulePresent(k: Kernel, mark: nat, table: nat) {
    exists r :: r in k.rules && r.mark == mark && r.table == table
  }

  function Apply(k: Kernel, mark: nat, table: nat, device: string): Kernel {
    ReplaceRoute(k.(rules := k.rules + {OwnRule(mark, table)}), device, table)
  }

  function Ensure(k: Kernel, mark: nat, table: nat, device: string): Kernel {
    ReplaceRoute(
      if RulePresent(k, mark, table) then k else k.(rules := k.rules + {OwnRule(mark, table)}),
      device, table)
  }

  function Cleanup(k: Kernel, mark: nat, table: nat): Kernel {
    k.(rules := k.rules - {OwnRule(mark, table)}, routes := k.routes - {table})
  }

  /** The devices a packet carrying `mark` can be sent out of. */
  ghost function Egress(k: Kernel, mark: nat): set<string> {
    set r | r in k.rules && r.mark == mark && r.table in k.routes :: k.routes[r.table]
  }

  // --- What the three operations promise -----------------------------------

  /** The part of the kernel that belongs to one (mark, table) pair. */
  ghost predicate SameElsewhere(k: Kernel, k': Kernel, mark: nat, table: nat) {
    && k'.devices == k.devices
    && (forall r :: r != OwnRule(mark, table) ==> (r in k.rules <==> r in k'.rules))
    && k.routes - {table} == k'.routes - {table}
  }

  /** Re-asserting never deletes a rule, is idempotent and leaves every other target alone. */
  lemma EnsureIdempotent(k: Kernel, mark: nat, table: nat, device: string)
    ensures
      var k' := Ensure(k, mark, table, device);
      && Ensure(k', mark, table, device) == k'
      && k.rules <= k'.rules
      && RulePresent(k', mark, table)
      && SameElsewhere(k, k', mark, table)
      && (device in k.devices ==> table in k'.routes && k'.routes[table] == device)
  {
    var k' := Ensure(k, mark, table, device);
    if !RulePresent(k, mark, table) {
      assert OwnRule(mark, table) in k'.rules;
    }
    assert RulePresent(k', mark, table);
    assert Ensure(k', mark, table, device).routes == k'.routes;
  }

  /** Once applied, traffic with the mark reaches the device; cleaning up afterwards takes both away. */
  lemma ApplyThenCleanup(k: Kernel, mark: nat, table: nat, device: string)
    requires device in k.devices
    ensures device in Egress(Apply(k, mark, table, device), mark)
    ensures SameElsewhere(k, Apply(k, mark, table, device), mark, table)
    ensures
      var k' := Cleanup(Apply(k, mark, table, device), mark, table);
      && OwnRule(mark, table) !in k'.rules && table !in k'.routes
      && k' == Cleanup(k, mark, table)
      && SameElsewhere(k, k', mark, table)
  {
    var k1 := Apply(k, mark, table, device);
    assert OwnRule(mark, table) in k1.rules && k1.routes[table] == device;
    assert Cleanup(k1, mark, table).rules == Cleanup(k, mark, table).rules;
    assert Cleanup(k1, mark, table).routes == Cleanup(k, mark, table).routes;
  }

  // --- The service ---------------------------------------------------------

  /** The shared network namespace; its methods are the `ip` commands. */
  class Host {
    var kernel: Kernel

    constructor (k: Kernel)
      ensures kernel == k
    {
      kernel := k;
    }

    method RuleAdd(rule: Rule)
      modifies this
      ensures kernel == old(kernel).(rules := old(kernel).rules + {rule})
    {
      kernel := kernel.(rules := kernel.rules + {rule});
    }

    method RuleDel(rule: Rule)
      modifies this
      ensures kernel == old(kernel).(rules := old(kernel).rules - {rule})
    {
      kernel := kernel.(rules := kernel.rules - {rule});
    }

    method RouteReplace(device: string, table: nat) returns (ok: bool)
      modifies this
      ensures kernel == ReplaceRoute(old(kernel), device, table)
      ensures ok == (device in old(kernel).devices)
    {
      ok := device in kernel.devices;
      if ok {
        kernel := kernel.(routes := kernel.routes[table := device]);
      }
    }

    method RouteFlush(table: nat)
      modifies this
      ensures kernel == old(kernel).(routes := old(kernel).routes - {table})
    {
      kernel := kernel.(routes := kernel.routes - {table});
    }

    /** `ip -j rule show`: the rules in some order. */
    method RuleShow() returns (listing: seq<Rule>)
      ensures forall r :: r in listing <==> r in kernel.rules
    {
      listing := [];
      var left := kernel.rules;
      while left != {}
        invariant left <= kernel.rules
        invariant forall r :: r in listing <==> r in kernel.rules - left
        decreases left
      {
        var r :| r in left;
        listing := listing + [r];
        left := left - {r};
      }
    }
  }

  class PolicyRoutingService {
    const host: Host
    const mark: nat
    const table: nat

    constructor (host: Host, mark: nat, table: nat)
      ensures this.host == host && this.mark == mark && this.table == table
    {
      this.host, this.mark, this.table := host, mark, table;
    }

    method IsRulePresent() returns (present: bool)
      ensures present == RulePresent(host.kernel, mark, table)
    {
      var listing := host.RuleShow();
      for i := 0 to |listing|
        invariant forall j :: 0 <= j < i ==> !(listing[j].mark == mark && listing[j].table == table)
      {
        if listing[i].mark == mark && listing[i].table == table {
          assert listing[i] in host.kernel.rules;
          return true;
        }
      }
      return false;
    }

    method ApplyRoute(device: string) returns (ok: bool)
      modifies host
      ensures host.kernel == Apply(old(host.kernel), mark, table, device)
      ensures ok == (device in old(host.kernel).devices)
    {
      host.RuleDel(OwnRule(mark, table));
      host.RuleAdd(OwnRule(mark, table));
      ok := host.RouteReplace(device, table);
      assert old(host.kernel).rules - {OwnRule(mark, table)} + {OwnRule(mark, table)}
          == old(host.kernel).rules + {OwnRule(mark, table)};
    }

    method EnsureRoute(device: string) returns (ok: bool)
      modifies host
      ensures host.kernel == Ensure(old(host.kernel), mark, table, device)
      ensures ok == (device in old(host.kernel).devices)
    {
      var present := IsRulePresent();
      if !present {
        host.RuleAdd(OwnRule(mark, table));
      }
      ok := host.RouteReplace(device, table);
    }

    method CleanupRoute()
      modifies host
      ensures host.kernel == Cleanup(old(host.kernel), mark, table)
    {
      host.RuleDel(OwnRule(mark, table));
      host.RouteFlush(table);
    }
  }
}
