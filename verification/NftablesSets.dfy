/**
  The live nftables table and its two refresh paths (services/nftables.py,
  `_apply_ruleset`): a surgical refresh of the *_static sets, or a full recreate.
  Only set names and contents are modelled; chains and rules are not.
 */
module NftablesSets {
  import opened Options
  import Profiles
  import opened Targets
  import opened TargetIdentity
  import opened NftablesScripts

  /** `expected_set_names`: grows the set target by target. */
  method ExpectedSetNames(ts: seq<Target>, hostSplitActive: bool) returns (names: set<string>)
    ensures forall n :: n in names <==>
              (exists t :: t in ts && n in SetNames(t)) || (hostSplitActive && n in HostSplitNames())
  {
    hide SetNames, HostSplitNames;
    names := {};
    for i := 0 to |ts|
      invariant forall n :: n in names <==> exists j :: 0 <= j < i && n in SetNames(ts[j])
    {
      names := names + SetNames(ts[i]);
    }
    if hostSplitActive {
      names := names + HostSplitNames();
    }
  }

  // --- The live table ------------------------------------------------------

  /** The sets of the live filter table, or nothing while there is no table. */
  type Table = Option<Sets>

  /** What goes wrong on the way: the probe, a teardown after it, either load. */
  datatype Fate = Fate(probeOk: bool, tornDown: bool, refreshLoads: bool, recreateLoads: bool)

  predicate Ready(g: Ruleset, t: Table, probeOk: bool) {
    probeOk && t.Some? && t.value.Keys == Expected(g)
  }

  /** One transaction: a command on a set that is not there fails, and nothing is changed. */
  predicate RefreshLoads(g: Ruleset, t: Table, f: Fate) {
    f.refreshLoads && t.Some? && Execute(RefreshScript(g), t.value).Some?
  }

  function Refreshed(g: Ruleset, m: Sets): Sets
    requires Execute(RefreshScript(g), m).Some?
  {
    Execute(RefreshScript(g), m).value
  }

  /** The table is deleted and defined anew in one transaction. */
  function Recreated(g: Ruleset): Sets {
    Build(FullDefinition(g), map[])
  }

  datatype Reply = Reply(table: Table, ok: bool)

  function ApplyRuleset(g: Ruleset, t: Table, f: Fate): Reply {
    var t1 := if f.tornDown then None else t;
    if Ready(g, t, f.probeOk) && RefreshLoads(g, t1, f) then Reply(Some(Refreshed(g, t1.value)), true)
    else if f.recreateLoads then Reply(Some(Recreated(g)), true)
    else Reply(t1, false)
  }

  class NftablesService {
    var table: Table

    constructor (table: Table)
      ensures this.table == table
    {
      this.table := table;
    }

    method StaticSetsReady(g: Ruleset, probeOk: bool) returns (ready: bool)
      ensures ready == Ready(g, table, probeOk)
    {
      hide SetNames, HostSplitNames;
      if !probeOk || table.None? {
        return false;
      }
      var expected := ExpectedSetNames(g.targets, g.hostSplit.Some?);
      assert expected == Expected(g);
      ready := table.value.Keys == expected;
    }

    /** `nft -f` on the refresh script: command by command, all or nothing. */
    method ApplyStaticRefresh(g: Ruleset, f: Fate) returns (ok: bool)
      modifies this
      ensures ok == RefreshLoads(g, old(table), f)
      ensures table == if ok then Some(Refreshed(g, old(table).value)) else old(table)
    {
      hide RefreshScript, Do;
      if !f.refreshLoads || table.None? {
        return false;
      }
      var script := RefreshScript(g);
      var sets := table.value;
      for i := 0 to |script|
        invariant Execute(script[i..], sets) == Execute(script, table.value)
        invariant table == old(table)
      {
        assert script[i..][0] == script[i] && script[i..][1..] == script[i + 1..];
        var next := Do(script[i], sets);
        if next.None? {
          return false;
        }
        sets := next.value;
      }
      table := Some(sets);
      return true;
    }

    /** `nft -f` on the full definition. */
    method ApplyFullRecreate(g: Ruleset, f: Fate) returns (ok: bool)
      modifies this
      ensures ok == f.recreateLoads
      ensures table == if ok then Some(Recreated(g)) else old(table)
    {
      hide FullDefinition, Define;
      if !f.recreateLoads {
        return false;
      }
      var definitions := FullDefinition(g);
      var sets: Sets := map[];
      for i := 0 to |definitions|
        invariant Build(definitions[i..], sets) == Build(definitions, map[])
      {
        assert definitions[i..][0] == definitions[i] && definitions[i..][1..] == definitions[i + 1..];
        sets := Define(definitions[i], sets);
      }
      table := Some(sets);
      return true;
    }

    method Apply(g: Ruleset, f: Fate) returns (ok: bool)
      modifies this
      ensures ApplyRuleset(g, old(table), f) == Reply(table, ok)
    {
      hide RefreshScript, FullDefinition, Expected, Execute, Build;
      var ready := StaticSetsReady(g, f.probeOk);
      if f.tornDown {
        table := None;
      }
      if ready {
        var refreshed := ApplyStaticRefresh(g, f);
        if refreshed {
          return true;
        }
      }
      ok := ApplyFullRecreate(g, f);
    }
  }

  // --- What an apply guarantees --------------------------------------------

  /** Exactly the expected sets, and every static one with exactly its target's list. */
  ghost predicate Matches(g: Ruleset, t: Table) {
    t.Some? && t.value.Keys == Expected(g) && AllFilled(t.value, g)
  }

  /** On a table with the expected sets the script always goes through. */
  lemma RefreshMatches(g: Ruleset, m: Sets)
    requires Separate(g.targets) && m.Keys == Expected(g)
    ensures Execute(RefreshScript(g), m).Some?
    ensures Matches(g, Some(Refreshed(g, m)))
    ensures forall n :: n in AllDynamic(g) ==> n in m && n in Refreshed(g, m) && Refreshed(g, m)[n] == m[n]
  {
    hide Separate, Expected, RefreshScript, AllFilled, Execute, AllStatic, AllDynamic;
    ExpectedIsBoth(g);
    StaticNotDynamic(g);
    var r := RefreshFills(g, m);
  }

  lemma RecreateMatches(g: Ruleset)
    requires Separate(g.targets)
    ensures Matches(g, Some(Recreated(g))) && forall n :: n in AllDynamic(g) ==> n in Recreated(g) && Recreated(g)[n] == {}
  {
    hide Separate, Expected, AllFilled, AllDynamic, FullDefinition, Build;
    DefinitionFills(g);
  }

  /**
    Whatever was live before and whichever path was taken -- also when the table
    vanishes between probe and refresh -- a successful apply leaves exactly the
    expected sets, each static one with exactly its target's configured list. A
    failed one changes nothing by itself.
   */
  lemma SuccessfulApplyMatches(g: Ruleset, t: Table, f: Fate)
    requires Separate(g.targets)
    ensures ApplyRuleset(g, t, f).ok ==> Matches(g, ApplyRuleset(g, t, f).table)
    ensures !ApplyRuleset(g, t, f).ok ==> ApplyRuleset(g, t, f).table == if f.tornDown then None else t
    ensures f.recreateLoads ==> ApplyRuleset(g, t, f).ok
  {
    hide Separate, Expected, Matches, RefreshScript, Execute, Recreated;
    RecreateMatches(g);
    if Ready(g, t, f.probeOk) {
      RefreshMatches(g, t.value);
    }
  }

  /** The same for what any validated configuration renders: there are no further conditions. */
  lemma RenderedApplyMatches(c: Profiles.ValidConfig, x: Context, files: Files, outbound: string, hostSplit: Option<seq<string>>,
                             t: Table, f: Fate)
    ensures
      var g := Ruleset(AllTargets(c, x, files, outbound), hostSplit);
      ApplyRuleset(g, t, f).ok ==> Matches(g, ApplyRuleset(g, t, f).table)
  {
    hide Separate, AllTargets, ApplyRuleset, Matches;
    RenderedTargetsSeparate(c, x, files, outbound);
    SuccessfulApplyMatches(Ruleset(AllTargets(c, x, files, outbound), hostSplit), t, f);
  }

  /** The two files agree on every static set; they differ only in that the refresh keeps the dynamic ones. */
  lemma RefreshAgreesWithRecreate(g: Ruleset, m: Sets)
    requires Separate(g.targets) && m.Keys == Expected(g)
    ensures Execute(RefreshScript(g), m).Some?
    ensures
      var r, b := Refreshed(g, m), Recreated(g);
      && r.Keys == b.Keys == Expected(g) == AllStatic(g) + AllDynamic(g)
      && (forall n :: n in AllStatic(g) ==> r[n] == b[n])
      && (forall n :: n in AllDynamic(g) ==> r[n] == m[n] && b[n] == {})
  {
    hide Separate, Expected, AllFilled, AllStatic, AllDynamic, RefreshScript, Execute, Recreated;
    ExpectedIsBoth(g);
    RefreshMatches(g, m);
    RecreateMatches(g);
    FilledAgree(g, Refreshed(g, m), Recreated(g));
  }

  /** An address in a dynamic set survives a successful apply exactly when the refresh path succeeds. */
  lemma DynamicSurvivesIff(g: Ruleset, t: Table, f: Fate, name: string, address: string)
    requires Separate(g.targets) && ApplyRuleset(g, t, f).ok && name in AllDynamic(g)
    requires t.Some? && name in t.value && address in t.value[name]
    ensures name in ApplyRuleset(g, t, f).table.value
    ensures address in ApplyRuleset(g, t, f).table.value[name]
       <==> Ready(g, t, f.probeOk) && !f.tornDown && f.refreshLoads
  {
    hide Separate, Expected, Matches, AllDynamic, RefreshScript, Execute, Recreated;
    RecreateMatches(g);
    if Ready(g, t, f.probeOk) {
      RefreshMatches(g, t.value);
    }
  }

  // --- Runs ----------------------------------------------------------------

  datatype Action =
    | DoApply(g: Ruleset, f: Fate)
    | DnsmasqAdds(name: string, address: string)
    | TearDown

  function Step(t: Table, a: Action): Table {
    match a
    case DoApply(g, f) => ApplyRuleset(g, t, f).table
    case DnsmasqAdds(name, address) =>
      if t.Some? && name in t.value then Some(t.value[name := t.value[name] + {address}]) else t
    case TearDown => None
  }

  function Run(t: Table, actions: seq<Action>): Table
    decreases |actions|
  {
    if actions == [] then t else Run(Step(t, actions[0]), actions[1..])
  }

  /** Reloads that change routes and domains but not the set of targets, with nothing failing. */
  ghost predicate Routine(a: Action, names: set<string>, name: string) {
    match a
    case DoApply(g, f) =>
      Separate(g.targets) && Expected(g) == names && name in AllDynamic(g) && f.probeOk && !f.tornDown && f.refreshLoads
    case DnsmasqAdds(_, _) => true
    case TearDown => false
  }

  lemma RoutineKeeps(t: Table, a: Action, names: set<string>, name: string, address: string)
    requires t.Some? && t.value.Keys == names && name in names && address in t.value[name] && Routine(a, names, name)
    ensures
      var r := Step(t, a);
      r.Some? && r.value.Keys == names && address in r.value[name]
  {
    hide Separate, Expected, AllFilled, AllDynamic, RefreshScript, Execute, Recreated;
    if a.DoApply? {
      RefreshMatches(a.g, t.value);
    }
  }

  /** An address dnsmasq resolved stays in its set through any number of routine reloads. */
  lemma {:induction false} ResolvedAddressSurvives(t: Table, actions: seq<Action>, names: set<string>, name: string, address: string)
    requires t.Some? && t.value.Keys == names && name in names && address in t.value[name]
    requires forall a :: a in actions ==> Routine(a, names, name)
    ensures
      var r := Run(t, actions);
      r.Some? && r.value.Keys == names && address in r.value[name]
    decreases |actions|
  {
    hide Step, Routine;
    if actions != [] {
      assert actions[0] in actions;
      RoutineKeeps(t, actions[0], names, name, address);
      ResolvedAddressSurvives(Step(t, actions[0]), actions[1..], names, name, address);
    }
  }

  /** After any history at all, one successful apply is enough to repair the table. */
  lemma AnyHistoryIsRepaired(t: Table, actions: seq<Action>, g: Ruleset, f: Fate)
    requires Separate(g.targets) && f.recreateLoads
    ensures Matches(g, Run(t, actions + [DoApply(g, f)]))
  {
    hide Separate, Matches, ApplyRuleset, Run;
    RunSnoc(t, actions, DoApply(g, f));
    SuccessfulApplyMatches(g, Run(t, actions), f);
  }

  lemma {:induction false} RunSnoc(t: Table, actions: seq<Action>, last: Action)
    ensures Run(t, actions + [last]) == Step(Run(t, actions), last)
    decreases |actions|
  {
    hide Step;
    if actions == [] {
      assert actions + [last] == [last] && [last][1..] == [];
    } else {
      assert (actions + [last])[1..] == actions[1..] + [last];
      RunSnoc(Step(t, actions[0]), actions[1..], last);
    }
  }
}
