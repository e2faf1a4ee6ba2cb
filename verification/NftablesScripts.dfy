/**
  The two files nftables is loaded from, as far as sets are concerned: the
  refresh script (templates/nftables-static-refresh.nft.j2) flushes and refills
  the *_static sets in place, the full definition (templates/nftables.nft.j2)
  builds every set anew. Executed, they give the static sets the same contents.
 */
module NftablesScripts {
  import opened Options
  import Profiles
  import opened Targets
  import opened TargetIdentity

  /** The sets of the live filter table by name. */
  type Sets = map<string, set<string>>

  /** What both files are rendered from; `hostSplit` is the list of the host's own split mode, if that is on. */
  datatype Ruleset = Ruleset(targets: seq<Target>, hostSplit: Option<seq<string>>)

  function Elements(xs: seq<string>): set<string> {
    set e | e in xs
  }

  // --- Executing the files -------------------------------------------------

  datatype Command = Flush(name: string) | Add(name: string, elements: seq<string>)

  /** A command on a set that is not there fails, and the transaction with it. */
  function Do(c: Command, m: Sets): Option<Sets> {
    if c.name !in m then None
    else Some(m[c.name := match c case Flush(_) => {} case Add(n, es) => m[n] + Elements(es)])
  }

  function Execute(cs: seq<Command>, m: Sets): Option<Sets> {
    if cs == [] then Some(m)
    else
      var next := Do(cs[0], m);
      if next.None? then None else Execute(cs[1..], next.value)
  }

  datatype Definition = Definition(name: string, elements: seq<string>)

  /** Defining a set that is already there only adds to it. */
  function Define(d: Definition, m: Sets): Sets {
    m[d.name := (if d.name in m then m[d.name] else {}) + Elements(d.elements)]
  }

  function Build(ds: seq<Definition>, m: Sets): Sets
    decreases |ds|
  {
    if ds == [] then m else Build(ds[1..], Define(ds[0], m))
  }

  // --- Rendering them ------------------------------------------------------

  function StaticName(stem: Stem, safe: Option<string>): string {
    SetName(SetId(stem, safe, true))
  }

  function DynamicName(stem: Stem, safe: Option<string>): string {
    SetName(SetId(stem, safe, false))
  }

  function AddUnlessEmpty(name: string, elements: seq<string>): seq<Command> {
    if elements != [] then [Add(name, elements)] else []
  }

  function RefreshTarget(t: Target): seq<Command> {
    [Flush(StaticName(SplitV4, t.safe))] + AddUnlessEmpty(StaticName(SplitV4, t.safe), t.routes)
    + [Flush(StaticName(SplitV6, t.safe))]
    + if t.hostActive then
        [Flush(StaticName(HostV4, t.safe))] + AddUnlessEmpty(StaticName(HostV4, t.safe), t.hostRoutes)
        + ([Flush(StaticName(HostV6, t.safe))] + AddUnlessEmpty(StaticName(HostV6, t.safe), t.hostRoutesV6))
      else []
  }

  function RefreshTargets(ts: seq<Target>): seq<Command> {
    if ts == [] then [] else RefreshTarget(ts[0]) + RefreshTargets(ts[1..])
  }

  function RefreshHostSplit(hostSplit: Option<seq<string>>): seq<Command> {
    if hostSplit.None? then []
    else
      [Flush(StaticName(HostSplitV4, None))] + AddUnlessEmpty(StaticName(HostSplitV4, None), hostSplit.value)
      + [Flush(StaticName(HostSplitV6, None))]
  }

  function RefreshScript(g: Ruleset): seq<Command> {
    RefreshTargets(g.targets) + RefreshHostSplit(g.hostSplit)
  }

  function DefineTarget(t: Target): seq<Definition> {
    [Definition(StaticName(SplitV4, t.safe), t.routes),
     Definition(DynamicName(SplitV4, t.safe), []),
     Definition(StaticName(SplitV6, t.safe), []),
     Definition(DynamicName(SplitV6, t.safe), [])]
    + if t.hostActive then
        [Definition(StaticName(HostV4, t.safe), t.hostRoutes),
         Definition(DynamicName(HostV4, t.safe), []),
         Definition(StaticName(HostV6, t.safe), t.hostRoutesV6),
         Definition(DynamicName(HostV6, t.safe), [])]
      else []
  }

  function DefineTargets(ts: seq<Target>): seq<Definition> {
    if ts == [] then [] else DefineTarget(ts[0]) + DefineTargets(ts[1..])
  }

  function DefineHostSplit(hostSplit: Option<seq<string>>): seq<Definition> {
    if hostSplit.None? then []
    else
      [Definition(StaticName(HostSplitV4, None), hostSplit.value),
       Definition(DynamicName(HostSplitV4, None), []),
       Definition(StaticName(HostSplitV6, None), []),
       Definition(DynamicName(HostSplitV6, None), [])]
  }

  function FullDefinition(g: Ruleset): seq<Definition> {
    DefineTargets(g.targets) + DefineHostSplit(g.hostSplit)
  }

  // --- What the configuration says -----------------------------------------

  function NamesOfAll(ts: seq<Target>): set<string> {
    set t, n | t in ts && n in SetNames(t) :: n
  }

  /** The names the readiness test compares with. */
  function Expected(g: Ruleset): set<string> {
    NamesOfAll(g.targets) + if g.hostSplit.Some? then HostSplitNames() else {}
  }

  /** No two targets share a set. */
  ghost predicate Separate(ts: seq<Target>) {
    forall i, j :: 0 <= i < j < |ts| ==> SetNames(ts[i]) !! SetNames(ts[j])
  }

  /** The lists the configuration gives the static sets of one target. */
  ghost predicate Filled(m: Sets, t: Target) {
    && SetNames(t) <= m.Keys
    && m[StaticName(SplitV4, t.safe)] == Elements(t.routes)
    && m[StaticName(SplitV6, t.safe)] == {}
    && (t.hostActive ==>
          && m[StaticName(HostV4, t.safe)] == Elements(t.hostRoutes)
          && m[StaticName(HostV6, t.safe)] == Elements(t.hostRoutesV6))
  }

  ghost predicate HostFilled(m: Sets, hostSplit: Option<seq<string>>) {
    hostSplit.Some? ==>
      && HostSplitNames() <= m.Keys
      && m[StaticName(HostSplitV4, None)] == Elements(hostSplit.value)
      && m[StaticName(HostSplitV6, None)] == {}
  }

  ghost predicate AllFilled(m: Sets, g: Ruleset) {
    (forall t :: t in g.targets ==> Filled(m, t)) && HostFilled(m, g.hostSplit)
  }

  function StaticNames(t: Target): set<string> {
    {StaticName(SplitV4, t.safe), StaticName(SplitV6, t.safe)}
    + if t.hostActive then {StaticName(HostV4, t.safe), StaticName(HostV6, t.safe)} else {}
  }

  function DynamicNames(t: Target): set<string> {
    {DynamicName(SplitV4, t.safe), DynamicName(SplitV6, t.safe)}
    + if t.hostActive then {DynamicName(HostV4, t.safe), DynamicName(HostV6, t.safe)} else {}
  }

  function HostStaticNames(): set<string> {
    {StaticName(HostSplitV4, None), StaticName(HostSplitV6, None)}
  }

  function HostDynamicNames(): set<string> {
    {DynamicName(HostSplitV4, None), DynamicName(HostSplitV6, None)}
  }

  function AllStatic(g: Ruleset): set<string> {
    (set t, n | t in g.targets && n in StaticNames(t) :: n) + if g.hostSplit.Some? then HostStaticNames() else {}
  }

  function AllDynamic(g: Ruleset): set<string> {
    (set t, n | t in g.targets && n in DynamicNames(t) :: n) + if g.hostSplit.Some? then HostDynamicNames() else {}
  }

  lemma PairNames(stems: set<Stem>, safe: Option<string>, n: string)
    ensures n in NamesOf(Pairs(stems, safe)) <==> exists s :: s in stems && (n == StaticName(s, safe) || n == DynamicName(s, safe))
  {
    hide SetName;
    if s :| s in stems && (n == StaticName(s, safe) || n == DynamicName(s, safe)) {
      assert SetId(s, safe, n == StaticName(s, safe)) in Pairs(stems, safe);
      assert SetId(s, safe, true) in Pairs(stems, safe) && SetId(s, safe, false) in Pairs(stems, safe);
    }
    if n in NamesOf(Pairs(stems, safe)) {
      var id :| id in Pairs(stems, safe) && SetName(id) == n;
      assert n == if id.isStatic then StaticName(id.stem, safe) else DynamicName(id.stem, safe);
    }
  }

  /** The sets of a target are its static and its dynamic ones. */
  lemma SetNamesAre(t: Target)
    ensures SetNames(t) == StaticNames(t) + DynamicNames(t)
  {
    hide StaticName, DynamicName;
    forall n ensures n in SetNames(t) <==> n in StaticNames(t) + DynamicNames(t) {
      PairNames(if t.hostActive then {SplitV4, SplitV6, HostV4, HostV6} else {SplitV4, SplitV6}, t.safe, n);
    }
  }

  lemma HostNamesAre()
    ensures HostSplitNames() == HostStaticNames() + HostDynamicNames()
  {
    hide StaticName, DynamicName;
    forall n ensures n in HostSplitNames() <==> n in HostStaticNames() + HostDynamicNames() {
      PairNames({HostSplitV4, HostSplitV6}, None, n);
    }
  }

  lemma NameDetermines(a: Stem, b: Stem, safe: Option<string>)
    ensures StaticName(a, safe) == StaticName(b, safe) ==> a == b
    ensures DynamicName(a, safe) == DynamicName(b, safe) ==> a == b
    ensures StaticName(a, safe) != DynamicName(b, safe)
  {
    hide SetName;
    if SetName(SetId(a, safe, true)) == SetName(SetId(b, safe, true)) {
      SetNameInjective(SetId(a, safe, true), SetId(b, safe, true));
    }
    if SetName(SetId(a, safe, false)) == SetName(SetId(b, safe, false)) {
      SetNameInjective(SetId(a, safe, false), SetId(b, safe, false));
    }
    if SetName(SetId(a, safe, true)) == SetName(SetId(b, safe, false)) {
      SetNameInjective(SetId(a, safe, true), SetId(b, safe, false));
    }
  }

  lemma NamesDetermine(safe: Option<string>)
    ensures forall a: Stem, b: Stem :: StaticName(a, safe) == StaticName(b, safe) ==> a == b
    ensures forall a: Stem, b: Stem :: DynamicName(a, safe) == DynamicName(b, safe) ==> a == b
    ensures forall a: Stem, b: Stem :: StaticName(a, safe) != DynamicName(b, safe)
  {
    hide StaticName, DynamicName;
    forall a: Stem, b: Stem
      ensures (StaticName(a, safe) == StaticName(b, safe) ==> a == b)
           && (DynamicName(a, safe) == DynamicName(b, safe) ==> a == b) && StaticName(a, safe) != DynamicName(b, safe)
    {
      NameDetermines(a, b, safe);
    }
  }

  /** The four names a pair of families needs. */
  lemma FourNames(a: Stem, b: Stem, safe: Option<string>)
    requires a != b
    ensures
      var s, d, t, e := StaticName(a, safe), DynamicName(a, safe), StaticName(b, safe), DynamicName(b, safe);
      s != d && s != t && s != e && d != t && d != e && t != e
  {
    hide StaticName, DynamicName;
    NamesDetermine(safe);
  }

  // --- The refresh ---------------------------------------------------------

  lemma {:induction false} ExecuteAppend(a: seq<Command>, b: seq<Command>, m: Sets)
    ensures Execute(a + b, m)
         == (if Execute(a, m).None? then None else Execute(b, Execute(a, m).value))
    decreases |a|
  {
    hide Do;
    if a == [] {
      assert a + b == b;
    } else {
      assert (a + b)[1..] == a[1..] + b;
      if Do(a[0], m).Some? {
        ExecuteAppend(a[1..], b, Do(a[0], m).value);
      }
    }
  }

  /** Flushing a set and adding a list leaves it holding exactly that list. */
  lemma FlushThenAdd(name: string, elements: seq<string>, m: Sets)
    requires name in m
    ensures Execute([Flush(name)] + AddUnlessEmpty(name, elements), m) == Some(m[name := Elements(elements)])
  {
    var cs := [Flush(name)] + AddUnlessEmpty(name, elements);
    var flushed := m[name := {}];
    assert cs[1..] == AddUnlessEmpty(name, elements) && Do(cs[0], m) == Some(flushed);
    if elements == [] {
      assert Elements(elements) == {};
    } else {
      var last := [Add(name, elements)];
      assert cs[1..] == last && last[1..] == [];
      assert {} + Elements(elements) == Elements(elements);
      var filled := flushed[name := Elements(elements)];
      assert filled == m[name := Elements(elements)];
      assert Do(last[0], flushed) == Some(filled) && Execute(last[1..], filled) == Some(filled);
      assert Execute(last, flushed) == Some(filled);
    }
  }

  lemma FlushOnly(name: string, m: Sets)
    requires name in m
    ensures Execute([Flush(name)], m) == Some(m[name := {}])
  {
    FlushThenAdd(name, [], m);
    assert Elements([]) == {} && [Flush(name)] + [] == [Flush(name)];
  }

  /** Only these sets may differ. */
  ghost predicate SameBut(m: Sets, r: Sets, names: set<string>) {
    r.Keys == m.Keys && forall n :: n in m && n !in names ==> r[n] == m[n]
  }

  lemma RefreshHostPart(t: Target, m: Sets)
    requires t.hostActive && StaticNames(t) <= m.Keys
    ensures
      var v4, v6 := StaticName(HostV4, t.safe), StaticName(HostV6, t.safe);
      Execute([Flush(v4)] + AddUnlessEmpty(v4, t.hostRoutes) + ([Flush(v6)] + AddUnlessEmpty(v6, t.hostRoutesV6)), m)
      == Some(m[v4 := Elements(t.hostRoutes)][v6 := Elements(t.hostRoutesV6)])
  {
    hide StaticName, AddUnlessEmpty, Execute, Elements;
    var v4, v6 := StaticName(HostV4, t.safe), StaticName(HostV6, t.safe);
    FlushThenAdd(v4, t.hostRoutes, m);
    FlushThenAdd(v6, t.hostRoutesV6, m[v4 := Elements(t.hostRoutes)]);
    ExecuteAppend([Flush(v4)] + AddUnlessEmpty(v4, t.hostRoutes), [Flush(v6)] + AddUnlessEmpty(v6, t.hostRoutesV6), m);
  }

  lemma RefreshSplitPart(t: Target, m: Sets)
    requires StaticNames(t) <= m.Keys
    ensures
      var v4, v6 := StaticName(SplitV4, t.safe), StaticName(SplitV6, t.safe);
      Execute([Flush(v4)] + AddUnlessEmpty(v4, t.routes) + [Flush(v6)], m)
      == Some(m[v4 := Elements(t.routes)][v6 := {}])
  {
    hide StaticName, AddUnlessEmpty, Execute, Elements;
    var v4, v6 := StaticName(SplitV4, t.safe), StaticName(SplitV6, t.safe);
    FlushThenAdd(v4, t.routes, m);
    FlushOnly(v6, m[v4 := Elements(t.routes)]);
    ExecuteAppend([Flush(v4)] + AddUnlessEmpty(v4, t.routes), [Flush(v6)], m);
  }

  lemma RefreshTargetFills(t: Target, m: Sets) returns (r: Sets)
    requires SetNames(t) <= m.Keys
    ensures Execute(RefreshTarget(t), m) == Some(r) && Filled(r, t) && SameBut(m, r, StaticNames(t))
  {
    SetNamesAre(t);
    hide StaticName, DynamicName, AddUnlessEmpty, Execute, Elements, SetNames;
    FourNames(SplitV4, SplitV6, t.safe);
    FourNames(HostV4, HostV6, t.safe);
    NamesDetermine(t.safe);
    RefreshSplitPart(t, m);
    var v4, v6 := StaticName(SplitV4, t.safe), StaticName(SplitV6, t.safe);
    var split := [Flush(v4)] + AddUnlessEmpty(v4, t.routes) + [Flush(v6)];
    r := m[v4 := Elements(t.routes)][v6 := {}];
    if t.hostActive {
      var h4, h6 := StaticName(HostV4, t.safe), StaticName(HostV6, t.safe);
      var host := [Flush(h4)] + AddUnlessEmpty(h4, t.hostRoutes) + ([Flush(h6)] + AddUnlessEmpty(h6, t.hostRoutesV6));
      RefreshHostPart(t, r);
      ExecuteAppend(split, host, m);
      assert RefreshTarget(t) == split + host;
      r := r[h4 := Elements(t.hostRoutes)][h6 := Elements(t.hostRoutesV6)];
    } else {
      assert RefreshTarget(t) == split + [] == split;
    }
  }

  lemma StaysFilled(m: Sets, r: Sets, t: Target, names: set<string>)
    requires Filled(m, t) && SameBut(m, r, names) && SetNames(t) !! names
    ensures Filled(r, t)
  {
    SetNamesAre(t);
    hide StaticName, DynamicName, SetNames;
  }

  function StaticNamesOfAll(ts: seq<Target>): set<string> {
    set t, n | t in ts && n in StaticNames(t) :: n
  }

  lemma StaticAmongAll(ts: seq<Target>)
    ensures StaticNamesOfAll(ts) <= NamesOfAll(ts)
  {
    hide StaticName, DynamicName, SetNames;
    forall n | n in StaticNamesOfAll(ts) ensures n in NamesOfAll(ts) {
      var t :| t in ts && n in StaticNames(t);
      SetNamesAre(t);
    }
  }

  lemma HeadApart(ts: seq<Target>)
    requires ts != [] && Separate(ts)
    ensures Separate(ts[1..]) && SetNames(ts[0]) !! NamesOfAll(ts[1..])
    ensures NamesOfAll(ts) == SetNames(ts[0]) + NamesOfAll(ts[1..])
    ensures StaticNamesOfAll(ts) == StaticNames(ts[0]) + StaticNamesOfAll(ts[1..])
  {
    hide SetNames, StaticNames;
    assert ts == [ts[0]] + ts[1..];
    forall i, j | 0 <= i < j < |ts[1..]| ensures SetNames(ts[1..][i]) !! SetNames(ts[1..][j]) {
      assert ts[1..][i] == ts[i + 1] && ts[1..][j] == ts[j + 1];
    }
    forall n | n in NamesOfAll(ts[1..]) ensures n !in SetNames(ts[0]) {
      var t :| t in ts[1..] && n in SetNames(t);
      var i :| 0 <= i < |ts[1..]| && ts[1..][i] == t;
      assert ts[i + 1] == t;
    }
  }

  /** No later flush hits an earlier target's set, because no two targets share a name. */
  lemma {:induction false} RefreshTargetsFill(ts: seq<Target>, m: Sets) returns (r: Sets)
    requires Separate(ts) && NamesOfAll(ts) <= m.Keys
    ensures Execute(RefreshTargets(ts), m) == Some(r)
    ensures (forall t :: t in ts ==> Filled(r, t)) && SameBut(m, r, StaticNamesOfAll(ts))
    decreases |ts|
  {
    hide RefreshTarget, Filled, SetNames, StaticNames, Separate;
    if ts == [] {
      r := m;
    } else {
      HeadApart(ts);
      var first := RefreshTargetFills(ts[0], m);
      r := RefreshTargetsFill(ts[1..], first);
      ExecuteAppend(RefreshTarget(ts[0]), RefreshTargets(ts[1..]), m);
      StaticAmongAll(ts[1..]);
      StaysFilled(first, r, ts[0], StaticNamesOfAll(ts[1..]));
      assert ts == [ts[0]] + ts[1..];
    }
  }

  lemma RefreshHostFills(hostSplit: Option<seq<string>>, m: Sets) returns (r: Sets)
    requires hostSplit.Some? ==> HostSplitNames() <= m.Keys
    ensures Execute(RefreshHostSplit(hostSplit), m) == Some(r) && HostFilled(r, hostSplit)
    ensures SameBut(m, r, if hostSplit.Some? then HostStaticNames() else {})
  {
    HostNamesAre();
    hide StaticName, DynamicName, AddUnlessEmpty, Elements, HostSplitNames;
    NamesDetermine(None);
    r := m;
    if hostSplit.Some? {
      var v4, v6 := StaticName(HostSplitV4, None), StaticName(HostSplitV6, None);
      hide Execute;
      FlushThenAdd(v4, hostSplit.value, m);
      FlushOnly(v6, m[v4 := Elements(hostSplit.value)]);
      ExecuteAppend([Flush(v4)] + AddUnlessEmpty(v4, hostSplit.value), [Flush(v6)], m);
      r := m[v4 := Elements(hostSplit.value)][v6 := {}];
    }
  }

  lemma NoneIsHostSplit(ts: seq<Target>)
    ensures NamesOfAll(ts) !! HostSplitNames()
  {
    hide SetNames, HostSplitNames;
    forall n | n in NamesOfAll(ts) ensures n !in HostSplitNames() {
      var t :| t in ts && n in SetNames(t);
      NotHostSplit(t);
    }
  }

  lemma NamesWithin(ts: seq<Target>, t: Target)
    requires t in ts
    ensures SetNames(t) <= NamesOfAll(ts)
  {
    hide SetNames;
  }

  /**
    The refresh script succeeds on every table with the expected sets, gives each
    static set exactly its target's list, and touches no other set.
   */
  lemma RefreshFills(g: Ruleset, m: Sets) returns (r: Sets)
    requires Separate(g.targets) && Expected(g) <= m.Keys
    ensures Execute(RefreshScript(g), m) == Some(r)
    ensures AllFilled(r, g) && SameBut(m, r, AllStatic(g))
  {
    HostNamesAre();
    hide Filled, HostSplitNames, StaticNames, SetNames, Separate, HostStaticNames, HostDynamicNames, RefreshTargets, RefreshHostSplit;
    var targets := RefreshTargetsFill(g.targets, m);
    r := RefreshHostFills(g.hostSplit, targets);
    ExecuteAppend(RefreshTargets(g.targets), RefreshHostSplit(g.hostSplit), m);
    NoneIsHostSplit(g.targets);
    var names := if g.hostSplit.Some? then HostStaticNames() else {};
    forall t | t in g.targets ensures Filled(r, t) {
      NamesWithin(g.targets, t);
      StaysFilled(targets, r, t, names);
    }
    assert AllStatic(g) == StaticNamesOfAll(g.targets) + names;
  }

  // --- The full definition -------------------------------------------------

  lemma {:induction false} BuildAppend(a: seq<Definition>, b: seq<Definition>, m: Sets)
    ensures Build(a + b, m) == Build(b, Build(a, m))
    decreases |a|
  {
    hide Define;
    if a == [] {
      assert a + b == b;
    } else {
      assert (a + b)[1..] == a[1..] + b;
      BuildAppend(a[1..], b, Define(a[0], m));
    }
  }

  lemma BuildFour(a: Definition, b: Definition, c: Definition, d: Definition, m: Sets)
    ensures Build([a, b, c, d], m) == Define(d, Define(c, Define(b, Define(a, m))))
  {
    hide Define;
    assert [a, b, c, d][1..] == [b, c, d] && [b, c, d][1..] == [c, d] && [c, d][1..] == [d] && [d][1..] == [];
    var three := Define(c, Define(b, Define(a, m)));
    assert Build([d], three) == Build([], Define(d, three));
    assert Build([c, d], Define(b, Define(a, m))) == Build([d], three);
    assert Build([a, b, c, d], m) == Build([b, c, d], Define(a, m));
    assert Build([b, c, d], Define(a, m)) == Build([c, d], Define(b, Define(a, m)));
  }

  lemma DefineNew(d: Definition, m: Sets)
    requires d.name !in m
    ensures Define(d, m) == m[d.name := Elements(d.elements)]
  {
    assert {} + Elements(d.elements) == Elements(d.elements);
  }

  /** Four new sets with these lists. */
  lemma BuildFourNew(a: Definition, b: Definition, c: Definition, d: Definition, m: Sets)
    requires a.name !in m && b.name !in m && c.name !in m && d.name !in m
    requires a.name != b.name && a.name != c.name && a.name != d.name && b.name != c.name && b.name != d.name && c.name != d.name
    ensures Build([a, b, c, d], m)
         == m[a.name := Elements(a.elements)][b.name := Elements(b.elements)]
             [c.name := Elements(c.elements)][d.name := Elements(d.elements)]
  {
    hide Define, Elements;
    BuildFour(a, b, c, d, m);
    DefineNew(a, m);
    DefineNew(b, Define(a, m));
    DefineNew(c, Define(b, Define(a, m)));
    DefineNew(d, Define(c, Define(b, Define(a, m))));
  }

  /** New sets were added, the old ones are as before, and these are empty. */
  ghost predicate Added(m: Sets, r: Sets, names: set<string>, empty: set<string>) {
    && r.Keys == m.Keys + names && (forall n :: n in m ==> r[n] == m[n])
    && empty <= r.Keys && forall n :: n in empty ==> r[n] == {}
  }

  lemma NothingIn()
    ensures Elements([]) == {}
  {
  }

  /** A static set with a list and a dynamic one, for each of two families. */
  function FourSets(a: Stem, b: Stem, safe: Option<string>, xs: seq<string>, ys: seq<string>): seq<Definition> {
    [Definition(StaticName(a, safe), xs), Definition(DynamicName(a, safe), []),
     Definition(StaticName(b, safe), ys), Definition(DynamicName(b, safe), [])]
  }

  lemma FourSetsAdded(a: Stem, b: Stem, safe: Option<string>, xs: seq<string>, ys: seq<string>, m: Sets)
    requires a != b
    requires {StaticName(a, safe), DynamicName(a, safe), StaticName(b, safe), DynamicName(b, safe)} !! m.Keys
    ensures
      var r := Build(FourSets(a, b, safe, xs, ys), m);
      && Added(m, r, {StaticName(a, safe), DynamicName(a, safe), StaticName(b, safe), DynamicName(b, safe)},
               {DynamicName(a, safe), DynamicName(b, safe)})
      && StaticName(a, safe) in r && r[StaticName(a, safe)] == Elements(xs)
      && StaticName(b, safe) in r && r[StaticName(b, safe)] == Elements(ys)
  {
    NothingIn();
    hide StaticName, DynamicName, Elements, Build;
    FourNames(a, b, safe);
    BuildFourNew(Definition(StaticName(a, safe), xs), Definition(DynamicName(a, safe), []),
                 Definition(StaticName(b, safe), ys), Definition(DynamicName(b, safe), []), m);
  }

  lemma AddedKeeps(m: Sets, r: Sets, names: set<string>, empty: set<string>)
    requires Added(m, r, names, empty)
    ensures r.Keys == m.Keys + names && forall n :: n in m ==> r[n] == m[n]
  {
  }

  lemma DefineTargetIs(t: Target)
    ensures
      var split := FourSets(SplitV4, SplitV6, t.safe, t.routes, []);
      DefineTarget(t) == if t.hostActive then split + FourSets(HostV4, HostV6, t.safe, t.hostRoutes, t.hostRoutesV6) else split
  {
    hide StaticName, DynamicName;
  }

  lemma AddedThen(m: Sets, r: Sets, q: Sets, names: set<string>, more: set<string>, empty: set<string>, none: set<string>)
    requires Added(m, r, names, empty) && Added(r, q, more, none)
    ensures Added(m, q, names + more, empty + none)
  {
  }

  /** All eight names are different. */
  lemma EightNames(safe: Option<string>)
    ensures {StaticName(SplitV4, safe), DynamicName(SplitV4, safe), StaticName(SplitV6, safe), DynamicName(SplitV6, safe)}
         !! {StaticName(HostV4, safe), DynamicName(HostV4, safe), StaticName(HostV6, safe), DynamicName(HostV6, safe)}
  {
    hide StaticName, DynamicName;
    NamesDetermine(safe);
  }

  lemma SetNamesOfKind(t: Target)
    ensures
      var split := {StaticName(SplitV4, t.safe), DynamicName(SplitV4, t.safe), StaticName(SplitV6, t.safe), DynamicName(SplitV6, t.safe)};
      var host := {StaticName(HostV4, t.safe), DynamicName(HostV4, t.safe), StaticName(HostV6, t.safe), DynamicName(HostV6, t.safe)};
      SetNames(t) == if t.hostActive then split + host else split
    ensures DynamicNames(t) == {DynamicName(SplitV4, t.safe), DynamicName(SplitV6, t.safe)}
              + if t.hostActive then {DynamicName(HostV4, t.safe), DynamicName(HostV6, t.safe)} else {}
  {
    SetNamesAre(t);
    hide StaticName, DynamicName, SetNames;
  }

  lemma DefineTargetFills(t: Target, m: Sets)
    requires SetNames(t) !! m.Keys
    ensures
      var r := Build(DefineTarget(t), m);
      Filled(r, t) && Added(m, r, SetNames(t), DynamicNames(t))
  {
    SetNamesOfKind(t);
    NothingIn();
    DefineTargetIs(t);
    EightNames(t.safe);
    hide StaticName, DynamicName, Elements, SetNames, DynamicNames, Build, FourSets, DefineTarget, Added;
    var a, b := StaticName(SplitV4, t.safe), DynamicName(SplitV4, t.safe);
    var c, d := StaticName(SplitV6, t.safe), DynamicName(SplitV6, t.safe);
    var split := FourSets(SplitV4, SplitV6, t.safe, t.routes, []);
    FourSetsAdded(SplitV4, SplitV6, t.safe, t.routes, [], m);
    var first := Build(split, m);
    AddedKeeps(m, first, {a, b, c, d}, {b, d});
    if t.hostActive {
      var e, f := StaticName(HostV4, t.safe), DynamicName(HostV4, t.safe);
      var g, h := StaticName(HostV6, t.safe), DynamicName(HostV6, t.safe);
      var host := FourSets(HostV4, HostV6, t.safe, t.hostRoutes, t.hostRoutesV6);
      FourSetsAdded(HostV4, HostV6, t.safe, t.hostRoutes, t.hostRoutesV6, first);
      BuildAppend(split, host, m);
      var r := Build(host, first);
      AddedKeeps(first, r, {e, f, g, h}, {f, h});
      AddedThen(m, first, r, {a, b, c, d}, {e, f, g, h}, {b, d}, {f, h});
    } else {
      assert DynamicNames(t) == {b, d};
    }
  }

  lemma StaysFilledAfter(m: Sets, r: Sets, t: Target, names: set<string>, empty: set<string>)
    requires Filled(m, t) && Added(m, r, names, empty)
    ensures Filled(r, t)
  {
    SetNamesAre(t);
    hide StaticName, DynamicName, SetNames;
  }

  function DynamicNamesOfAll(ts: seq<Target>): set<string> {
    set t, n | t in ts && n in DynamicNames(t) :: n
  }

  lemma {:induction false} DefineTargetsFill(ts: seq<Target>, m: Sets)
    requires Separate(ts) && NamesOfAll(ts) !! m.Keys
    ensures
      var r := Build(DefineTargets(ts), m);
      (forall t :: t in ts ==> Filled(r, t)) && Added(m, r, NamesOfAll(ts), DynamicNamesOfAll(ts))
    decreases |ts|
  {
    hide DefineTarget, Filled, SetNames, DynamicNames, Separate, Added;
    if ts == [] {
      AddedNothing(m);
    } else {
      HeadApart(ts);
      DefineTargetFills(ts[0], m);
      var first := Build(DefineTarget(ts[0]), m);
      AddedKeeps(m, first, SetNames(ts[0]), DynamicNames(ts[0]));
      DefineTargetsFill(ts[1..], first);
      BuildAppend(DefineTarget(ts[0]), DefineTargets(ts[1..]), m);
      var r := Build(DefineTargets(ts[1..]), first);
      AddedThen(m, first, r, SetNames(ts[0]), NamesOfAll(ts[1..]), DynamicNames(ts[0]), DynamicNamesOfAll(ts[1..]));
      StaysFilledAfter(first, r, ts[0], NamesOfAll(ts[1..]), DynamicNamesOfAll(ts[1..]));
      assert ts == [ts[0]] + ts[1..];
      assert DynamicNamesOfAll(ts) == DynamicNames(ts[0]) + DynamicNamesOfAll(ts[1..]);
    }
  }

  lemma AddedNothing(m: Sets)
    ensures Added(m, m, NamesOfAll([]), DynamicNamesOfAll([]))
  {
  }

  lemma DefineHostFills(hostSplit: Option<seq<string>>, m: Sets)
    requires hostSplit.Some? ==> HostSplitNames() !! m.Keys
    ensures
      var r := Build(DefineHostSplit(hostSplit), m);
      && HostFilled(r, hostSplit)
      && Added(m, r, if hostSplit.Some? then HostSplitNames() else {}, if hostSplit.Some? then HostDynamicNames() else {})
  {
    HostNamesAre();
    NothingIn();
    hide StaticName, DynamicName, Elements, HostSplitNames;
    NamesDetermine(None);
    hide Build;
    if hostSplit.Some? {
      FourSetsAdded(HostSplitV4, HostSplitV6, None, hostSplit.value, [], m);
      assert DefineHostSplit(hostSplit) == FourSets(HostSplitV4, HostSplitV6, None, hostSplit.value, []);
    } else {
      BuildNothing(m);
    }
  }

  lemma BuildNothing(m: Sets)
    ensures Build([], m) == m
  {
  }

  /**
    The full definition yields exactly the expected sets: each static set with its
    target's list, every dynamic one empty.
   */
  lemma DefinitionFills(g: Ruleset)
    requires Separate(g.targets)
    ensures
      var r := Build(FullDefinition(g), map[]);
      && AllFilled(r, g) && r.Keys == Expected(g)
      && AllDynamic(g) <= r.Keys && forall n :: n in AllDynamic(g) ==> r[n] == {}
  {
    hide Filled, HostFilled, SetNames, HostSplitNames, DynamicNames, HostDynamicNames, Separate, Build;
    DefineTargetsFill(g.targets, map[]);
    var targets := Build(DefineTargets(g.targets), map[]);
    NoneIsHostSplit(g.targets);
    DefineHostFills(g.hostSplit, targets);
    BuildAppend(DefineTargets(g.targets), DefineHostSplit(g.hostSplit), map[]);
    var r := Build(DefineHostSplit(g.hostSplit), targets);
    var names := if g.hostSplit.Some? then HostSplitNames() else {};
    var empty := if g.hostSplit.Some? then HostDynamicNames() else {};
    forall t | t in g.targets ensures Filled(r, t) {
      StaysFilledAfter(targets, r, t, names, empty);
    }
    AddedThen(map[], targets, r, NamesOfAll(g.targets), names, DynamicNamesOfAll(g.targets), empty);
  }

  // --- Static and dynamic, taken together ----------------------------------

  lemma ExpectedIsBoth(g: Ruleset)
    ensures Expected(g) == AllStatic(g) + AllDynamic(g)
  {
    HostNamesAre();
    hide SetNames, StaticNames, DynamicNames, HostSplitNames, HostStaticNames, HostDynamicNames;
    forall n ensures n in NamesOfAll(g.targets) <==> n in StaticNamesOfAll(g.targets) + DynamicNamesOfAll(g.targets) {
      forall t | t in g.targets ensures SetNames(t) == StaticNames(t) + DynamicNames(t) { SetNamesAre(t); }
    }
    assert AllStatic(g) == StaticNamesOfAll(g.targets) + if g.hostSplit.Some? then HostStaticNames() else {};
    assert AllDynamic(g) == DynamicNamesOfAll(g.targets) + if g.hostSplit.Some? then HostDynamicNames() else {};
  }

  /** No set is both static and dynamic. */
  lemma StaticNotDynamic(g: Ruleset)
    ensures AllStatic(g) !! AllDynamic(g)
  {
    hide SetName;
    forall n | n in AllStatic(g) && n in AllDynamic(g) ensures false {
      var a := IdOf(g, n, true);
      var b := IdOf(g, n, false);
      SetNameInjective(a, b);
    }
  }

  lemma IdOf(g: Ruleset, n: string, isStatic: bool) returns (id: SetId)
    requires n in if isStatic then AllStatic(g) else AllDynamic(g)
    ensures SetName(id) == n && id.isStatic == isStatic
  {
    hide SetName;
    if t :| t in g.targets && n in if isStatic then StaticNames(t) else DynamicNames(t) {
      var stem :| stem in {SplitV4, SplitV6, HostV4, HostV6} && n == SetName(SetId(stem, t.safe, isStatic));
      id := SetId(stem, t.safe, isStatic);
    } else {
      var stem :| stem in {HostSplitV4, HostSplitV6} && n == SetName(SetId(stem, None, isStatic));
      id := SetId(stem, None, isStatic);
    }
  }

  /** Two tables filled from one configuration hold the same in every static set. */
  lemma FilledAgree(g: Ruleset, m: Sets, r: Sets)
    requires AllFilled(m, g) && AllFilled(r, g)
    ensures AllStatic(g) <= m.Keys && AllStatic(g) <= r.Keys && forall n :: n in AllStatic(g) ==> m[n] == r[n]
  {
    HostNamesAre();
    hide StaticName, DynamicName, SetNames, HostSplitNames, Elements;
    forall n | n in AllStatic(g) ensures n in m && n in r && m[n] == r[n] {
      if t :| t in g.targets && n in StaticNames(t) {
        SetNamesAre(t);
        assert Filled(m, t) && Filled(r, t);
      }
    }
  }

  /** The targets of every validated configuration are separate. */
  lemma RenderedTargetsSeparate(c: Profiles.ValidConfig, x: Context, files: Files, outbound: string)
    ensures Separate(AllTargets(c, x, files, outbound))
  {
    hide SetNames, AllTargets;
    IdentitiesDistinct(c, x, files, outbound);
    var ts := AllTargets(c, x, files, outbound);
    forall i, j | 0 <= i < j < |ts| ensures SetNames(ts[i]) !! SetNames(ts[j]) {
      assert !SameIdentity(ts[i], ts[j]);
      var shared := SetNames(ts[i]) * SetNames(ts[j]);
      assert shared == {};
      assert forall n :: n in SetNames(ts[i]) && n in SetNames(ts[j]) ==> n in shared;
    }
  }
}
