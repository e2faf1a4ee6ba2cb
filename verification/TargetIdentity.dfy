/**
  Every routing target has a mark, a table and nftables set names of its own,
  and keeps them while other profiles are edited.
 */
module TargetIdentity {
  import opened Options
  import opened Profiles
  import opened PolicyRouting
  import opened Targets

  // --- Set names -----------------------------------------------------------

  datatype Stem = SplitV4 | SplitV6 | HostV4 | HostV6 | HostSplitV4 | HostSplitV6

  function StemText(s: Stem): string {
    match s
    case SplitV4 => "split_v4"
    case SplitV6 => "split_v6"
    case HostV4 => "host_v4"
    case HostV6 => "host_v6"
    case HostSplitV4 => "host_split_v4"
    case HostSplitV6 => "host_split_v6"
  }

  /** The middle of a set name: nothing for the shared sets, `_<safe name>` for a profile's. */
  function Middle(safe: Option<string>): string {
    if safe.Some? then "_" + safe.value else ""
  }

  datatype SetId = SetId(stem: Stem, safe: Option<string>, isStatic: bool)

  function SuffixText(isStatic: bool): string {
    if isStatic then "_static" else "_dynamic"
  }

  function SetName(id: SetId): string {
    StemText(id.stem) + Middle(id.safe) + SuffixText(id.isStatic)
  }

  function Pairs(stems: set<Stem>, safe: Option<string>): set<SetId> {
    set s, k | s in stems && k in {true, false} :: SetId(s, safe, k)
  }

  /** The sets of one target (`expected_set_names`): a static/dynamic pair per family, and per host family if active. */
  function SetIds(t: Target): set<SetId> {
    Pairs(if t.hostActive then {SplitV4, SplitV6, HostV4, HostV6} else {SplitV4, SplitV6}, t.safe)
  }

  function NamesOf(ids: set<SetId>): set<string> {
    set id | id in ids :: SetName(id)
  }

  function SetNames(t: Target): set<string> {
    NamesOf(SetIds(t))
  }

  function HostSplitNames(): set<string> {
    NamesOf(Pairs({HostSplitV4, HostSplitV6}, None))
  }

  /** The third letter from the end tells a static from a dynamic set. */
  lemma SuffixDetermined(a: SetId, b: SetId)
    requires SetName(a) == SetName(b)
    ensures a.isStatic == b.isStatic
  {
    var n, m := SetName(a), SetName(b);
    assert n[|n| - 3] == SuffixText(a.isStatic)[|SuffixText(a.isStatic)| - 3];
    assert m[|m| - 3] == SuffixText(b.isStatic)[|SuffixText(b.isStatic)| - 3];
  }

  /** The first letters tell the stems apart: position 0, then 5, then the family digit. */
  lemma StemDetermined(a: SetId, b: SetId)
    requires SetName(a) == SetName(b)
    ensures a.stem == b.stem
  {
    var p, q := StemText(a.stem), StemText(b.stem);
    assert forall i :: 0 <= i < |p| ==> SetName(a)[i] == p[i];
    assert forall i :: 0 <= i < |q| ==> SetName(b)[i] == q[i];
    assert p[0] == q[0] && p[5] == q[5];
    assert |p| == |q|;
    assert p[|p| - 1] == q[|q| - 1];
  }

  /** A set name determines every one of its parts. */
  lemma SetNameInjective(a: SetId, b: SetId)
    requires SetName(a) == SetName(b)
    ensures a == b
  {
    SuffixDetermined(a, b);
    StemDetermined(a, b);
    var n, p, suffix := SetName(a), StemText(a.stem), SuffixText(a.isStatic);
    assert Middle(a.safe) == n[|p|..|n| - |suffix|];
    assert Middle(b.safe) == n[|p|..|n| - |suffix|];
    if a.safe.Some? && b.safe.Some? {
      assert a.safe.value == Middle(a.safe)[1..] && b.safe.value == Middle(b.safe)[1..];
    }
  }

  /** Different sets never share a name. */
  lemma NamesDisjoint(ids: set<SetId>, others: set<SetId>)
    requires ids !! others
    ensures NamesOf(ids) !! NamesOf(others)
  {
    forall n | n in NamesOf(ids) ensures n !in NamesOf(others) {
      var a :| a in ids && SetName(a) == n;
      if n in NamesOf(others) {
        var b :| b in others && SetName(b) == n;
        SetNameInjective(a, b);
      }
    }
  }

  // --- Distinct identities -------------------------------------------------

  ghost predicate SameIdentity(t: Target, u: Target) {
    || (IsMark(t.fwmark) && IsMark(u.fwmark) && MarkValue(t.fwmark) == MarkValue(u.fwmark))
    || t.tableId == u.tableId
    || SetNames(t) * SetNames(u) != {}
  }

  ghost predicate Admissible(t: Target) {
    IsMark(t.fwmark) && SetNames(t) !! HostSplitNames() && t.tableId !in RESERVED_TABLES
  }

  /** The profile a rendered target belongs to. */
  lemma {:induction false} Origin(c: ValidConfig, x: Context, files: Files, ps: seq<Profile>, t: Target) returns (p: Profile)
    requires t in TargetsOf(c, x, files, ps)
    ensures p in ps && TargetFor(c, x, p, Effective(files, p)) == Some(t)
  {
    hide TargetFor, Validated;
    if TargetFor(c, x, ps[0], Effective(files, ps[0])) == Some(t) {
      p := ps[0];
    } else {
      p := Origin(c, x, files, ps[1..], t);
    }
  }

  lemma OwnSetsApart(t: Target, u: Target)
    requires t.safe != u.safe
    ensures SetNames(t) !! SetNames(u)
  {
    NamesDisjoint(SetIds(t), SetIds(u));
  }

  lemma NotHostSplit(t: Target)
    ensures SetNames(t) !! HostSplitNames()
  {
    NamesDisjoint(SetIds(t), Pairs({HostSplitV4, HostSplitV6}, None));
  }

  lemma NamedApart(c: ValidConfig, x: Context, files: Files, p: Profile, q: Profile, t: Target, u: Target)
    requires p in c.profiles && q in c.profiles && p != q
    requires TargetFor(c, x, p, Effective(files, p)) == Some(t) && TargetFor(c, x, q, Effective(files, q)) == Some(u)
    ensures !SameIdentity(t, u)
  {
    SideOf(c, x, p, Effective(files, p));
    SideOf(c, x, q, Effective(files, q));
    hide TargetFor, Validated;
    if SafeName(p.name) == SafeName(q.name) || Offset(c, p) == Offset(c, q) {
      NameIdentifies(c, p, q);
    }
    OwnSetsApart(t, u);
  }

  lemma DefaultApart(c: ValidConfig, x: Context, files: Files, outbound: string, p: Profile, t: Target)
    requires p in c.profiles && TargetFor(c, x, p, Effective(files, p)) == Some(t)
    ensures !SameIdentity(DefaultTarget(c, x, outbound), t)
  {
    SideOf(c, x, p, Effective(files, p));
    OffsetPositive(c, p);
    OwnSetsApart(DefaultTarget(c, x, outbound), t);
  }

  lemma {:induction false} NamedPairsApart(c: ValidConfig, x: Context, files: Files, ps: seq<Profile>)
    requires Distinct(ps) && forall p :: p in ps ==> p in c.profiles
    ensures var ts := TargetsOf(c, x, files, ps); forall i, j :: 0 <= i < j < |ts| ==> !SameIdentity(ts[i], ts[j])
  {
    hide TargetFor, Validated, SameIdentity, Effective;
    if ps != [] {
      var ts, rest := TargetsOf(c, x, files, ps), TargetsOf(c, x, files, ps[1..]);
      NamedPairsApart(c, x, files, ps[1..]);
      assert ps[0] in c.profiles;
      var first := TargetFor(c, x, ps[0], Effective(files, ps[0]));
      if first.Some? {
        forall j | 0 <= j < |rest| ensures !SameIdentity(first.value, rest[j]) {
          var q := Origin(c, x, files, ps[1..], rest[j]);
          var k :| 0 <= k < |ps[1..]| && ps[1..][k] == q;
          assert ps[0] != ps[k + 1];
          NamedApart(c, x, files, ps[0], q, first.value, rest[j]);
        }
        assert ts == [first.value] + rest;
      } else {
        assert ts == rest;
      }
    }
  }

  lemma ProfilesDistinct(c: ValidConfig)
    ensures Distinct(c.profiles)
  {
    forall i, j | 0 <= i < j < |c.profiles| ensures c.profiles[i] != c.profiles[j] {
      assert Apart(c, i, j);
    }
  }

  lemma AllAdmissible(c: ValidConfig, x: Context, files: Files, outbound: string, t: Target)
    requires t in AllTargets(c, x, files, outbound)
    ensures Admissible(t)
  {
    hide TargetFor, SetNames, HostSplitNames, MarkValue, Device, Effective;
    NotHostSplit(t);
    if t != DefaultTarget(c, x, outbound) {
      var p := Origin(c, x, files, c.profiles, t);
      SideOf(c, x, p, Effective(files, p));
    }
  }

  /**
    For every validated configuration and whatever is stored: the targets have
    pairwise different marks, tables and set names, none of them a host-split
    set, and no table is one of the kernel's own.
   */
  lemma IdentitiesDistinct(c: ValidConfig, x: Context, files: Files, outbound: string)
    ensures
      var ts := AllTargets(c, x, files, outbound);
      && (forall i, j :: 0 <= i < j < |ts| ==> !SameIdentity(ts[i], ts[j]))
      && (forall t :: t in ts ==> Admissible(t))
  {
    hide TargetFor, Validated, SameIdentity, Effective, DefaultTarget, Admissible;
    var ts := AllTargets(c, x, files, outbound);
    var named := TargetsOf(c, x, files, c.profiles);
    forall t | t in ts ensures Admissible(t) { AllAdmissible(c, x, files, outbound, t); }
    ProfilesDistinct(c);
    NamedPairsApart(c, x, files, c.profiles);
    forall j | 0 <= j < |named| ensures !SameIdentity(DefaultTarget(c, x, outbound), named[j]) {
      var p := Origin(c, x, files, c.profiles, named[j]);
      DefaultApart(c, x, files, outbound, p, named[j]);
    }
  }

  /** What an operation on one target may not touch: the rule and the route of another. */
  ghost predicate Untouched(k: Kernel, k': Kernel, t: Target)
    requires IsMark(t.fwmark)
  {
    && (OwnRule(MarkValue(t.fwmark), t.tableId) in k'.rules <==> OwnRule(MarkValue(t.fwmark), t.tableId) in k.rules)
    && (t.tableId in k'.routes <==> t.tableId in k.routes)
    && (t.tableId in k.routes ==> k'.routes[t.tableId] == k.routes[t.tableId])
  }

  lemma ApartMeansUntouched(t: Target, u: Target, k: Kernel, device: string)
    requires IsMark(t.fwmark) && IsMark(u.fwmark) && !SameIdentity(t, u)
    ensures Untouched(k, Apply(k, MarkValue(t.fwmark), t.tableId, device), u)
    ensures Untouched(k, Ensure(k, MarkValue(t.fwmark), t.tableId, device), u)
    ensures Untouched(k, Cleanup(k, MarkValue(t.fwmark), t.tableId), u)
  {
  }

  /** Working on one target leaves every other target's rule and route exactly as they were. */
  lemma TargetsIsolated(c: ValidConfig, x: Context, files: Files, outbound: string, i: nat, j: nat, k: Kernel, device: string)
    requires i != j && i < |AllTargets(c, x, files, outbound)| && j < |AllTargets(c, x, files, outbound)|
    ensures
      var t, u := AllTargets(c, x, files, outbound)[i], AllTargets(c, x, files, outbound)[j];
      && IsMark(t.fwmark) && IsMark(u.fwmark)
      && Untouched(k, Apply(k, MarkValue(t.fwmark), t.tableId, device), u)
      && Untouched(k, Ensure(k, MarkValue(t.fwmark), t.tableId, device), u)
      && Untouched(k, Cleanup(k, MarkValue(t.fwmark), t.tableId), u)
  {
    hide TargetFor, Validated, TargetsOf, AllTargets, SetNames;
    IdentitiesDistinct(c, x, files, outbound);
    var ts := AllTargets(c, x, files, outbound);
    assert Admissible(ts[i]) && Admissible(ts[j]);
    if i < j {
      assert !SameIdentity(ts[i], ts[j]);
    } else {
      assert !SameIdentity(ts[j], ts[i]);
    }
    ApartMeansUntouched(ts[i], ts[j], k, device);
  }
}
