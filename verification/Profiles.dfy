/**
  Upstream profiles and the values derived from them: the tunnel device, the
  fwmark/table offset and the configured selection (config/models.py).
 */
module Profiles {
  import opened Options
  import opened Text

  datatype Profile = Profile(
    name: string,
    enabled: bool,
    interface: Option<string>,
    routingOffset: Option<nat>,
    clientsEnabled: bool,
    routes: seq<string>,
    domains: seq<string>,
    hostEnabled: bool,
    hostRoutes: seq<string>,
    hostDomains: seq<string>,
    acceptServerRoutes: bool)

  /** The parts of `upstream` and `routing` that decide who carries which traffic. */
  datatype Config = Config(
    enabled: bool,
    interface: string,
    activeProfile: Option<string>,
    failover: bool,
    profiles: seq<Profile>,
    clientTraffic: bool,
    hostTraffic: bool,
    hostSplit: bool,
    splitMode: bool,
    mainInterface: string,
    fwmark: string,
    tableId: nat)

  const RESERVED_TABLES: set<nat> := {253, 254, 255}

  // --- Lookup by name ------------------------------------------------------

  /** Position of the first profile called `name`, or the length when there is none. */
  function IndexOf(ps: seq<Profile>, name: string): (i: nat)
    ensures i <= |ps|
    ensures i < |ps| ==> ps[i].name == name
    ensures forall k :: 0 <= k < i ==> ps[k].name != name
  {
    if ps == [] then 0
    else if ps[0].name == name then 0
    else 1 + IndexOf(ps[1..], name)
  }

  function Find(c: Config, name: string): (r: Option<Profile>)
    ensures r.Some? ==> r.value in c.profiles && r.value.name == name
    ensures r.None? ==> forall p :: p in c.profiles ==> p.name != name
  {
    var i := IndexOf(c.profiles, name);
    if i < |c.profiles| then Some(c.profiles[i]) else None
  }

  // --- Derived values ------------------------------------------------------

  /** `UpstreamConfig.profile_interface`: the tunnel device of a profile. */
  function Device(c: Config, p: Profile): string {
    if p.interface.Some? then p.interface.value
    else
      var i := IndexOf(c.profiles, p.name);
      if i == 0 || i == |c.profiles| then c.interface else "oc-up" + Decimal(i)
  }

  /** `UpstreamConfig.profile_routing_offset`. */
  function Offset(c: Config, p: Profile): nat {
    if p.routingOffset.Some? then p.routingOffset.value
    else
      var i := IndexOf(c.profiles, p.name);
      if i < |c.profiles| then i + 1 else 1
  }

  // --- Hexadecimal marks ---------------------------------------------------

  predicate IsHexDigit(ch: char) {
    '0' <= ch <= '9' || 'a' <= ch <= 'f' || 'A' <= ch <= 'F'
  }

  function DigitValue(ch: char): (v: nat)
    requires IsHexDigit(ch)
    ensures v < 16
  {
    if '0' <= ch <= '9' then (ch - '0') as int
    else if 'a' <= ch <= 'f' then (ch - 'a') as int + 10
    else (ch - 'A') as int + 10
  }

  /** `int(text, 16)` on a run of hexadecimal digits. */
  function HexValue(digits: string): nat
    requires forall i :: 0 <= i < |digits| ==> IsHexDigit(digits[i])
  {
    if digits == [] then 0
    else HexValue(digits[..|digits| - 1]) * 16 + DigitValue(digits[|digits| - 1])
  }

  function HexDigit(n: nat): char
    requires n < 16
  {
    if n < 10 then (n as char) + '0' else ((n - 10) as char) + 'a'
  }

  /** The digits of `n`, zero-padded on the left to `width`: the `0{width}x` format. */
  function HexPadded(n: nat, width: nat): (digits: string)
    ensures forall i :: 0 <= i < |digits| ==> IsHexDigit(digits[i])
    ensures |digits| >= width && |digits| >= 1
    decreases n, width
  {
    var last := [HexDigit(n % 16)];
    if n < 16 && width <= 1 then last
    else HexPadded(n / 16, if width == 0 then 0 else width - 1) + last
  }

  /** Formatting a mark and reading it back is the identity, whatever the padding. */
  lemma {:induction false} HexRoundTrip(n: nat, width: nat)
    ensures HexValue(HexPadded(n, width)) == n
    decreases n, width
  {
    var digits := HexPadded(n, width);
    var last := [HexDigit(n % 16)];
    if n < 16 && width <= 1 {
      assert digits[..|digits| - 1] == [];
    } else {
      var w := if width == 0 then 0 else width - 1;
      HexRoundTrip(n / 16, w);
      assert digits[..|digits| - 1] == HexPadded(n / 16, w);
    }
  }

  predicate IsMark(mark: string) {
    && |mark| > 2 && mark[0] == '0' && mark[1] == 'x'
    && forall i :: 2 <= i < |mark| ==> IsHexDigit(mark[i])
  }

  /** `int(mark, 0)` for a mark written in 0x form. */
  function MarkValue(mark: string): nat
    requires IsMark(mark)
  {
    HexValue(mark[2..])
  }

  /** The configured mark plus an offset, printed at the configured mark's width. */
  function MarkText(c: Config, offset: nat): (mark: string)
    requires IsMark(c.fwmark)
    ensures IsMark(mark)
  {
    var digits := HexPadded(MarkValue(c.fwmark) + offset, |c.fwmark| - 2);
    var mark := "0x" + digits;
    assert forall i :: 2 <= i < |mark| ==> mark[i] == digits[i - 2];
    mark
  }

  /** What `ip rule` sees of a derived mark is exactly the base value plus the offset. */
  lemma MarkTextValue(c: Config, offset: nat)
    requires IsMark(c.fwmark)
    ensures MarkValue(MarkText(c, offset)) == MarkValue(c.fwmark) + offset
  {
    var n := MarkValue(c.fwmark) + offset;
    HexRoundTrip(n, |c.fwmark| - 2);
    assert MarkText(c, offset)[2..] == HexPadded(n, |c.fwmark| - 2);
  }

  // --- Safe names ----------------------------------------------------------

  function SafeChar(ch: char): char {
    if 'A' <= ch <= 'Z' then (ch - 'A') + 'a'
    else if 'a' <= ch <= 'z' || '0' <= ch <= '9' || ch == '_' then ch
    else '_'
  }

  /** `profile_safe_name`: lower-cased, everything outside [a-z0-9_] replaced. */
  function SafeName(name: string): (safe: string)
    ensures |safe| == |name|
  {
    if name == [] then [] else [SafeChar(name[0])] + SafeName(name[1..])
  }

  predicate IsSafeChar(ch: char) {
    'a' <= ch <= 'z' || '0' <= ch <= '9' || ch == '_'
  }

  /** A normalised name is fit for nftables, and one that already is stays as it is. */
  lemma {:induction false} SafeNameFits(name: string)
    ensures forall i :: 0 <= i < |name| ==> IsSafeChar(SafeName(name)[i])
    ensures (forall i :: 0 <= i < |name| ==> IsSafeChar(name[i])) <==> SafeName(name) == name
    ensures forall i :: 0 <= i < |name| && 'A' <= name[i] <= 'Z' ==> SafeName(name)[i] as int == name[i] as int + 32
  {
    if name != [] {
      SafeNameFits(name[1..]);
      assert SafeName(name) == [SafeChar(name[0])] + SafeName(name[1..]);
      assert name == [name[0]] + name[1..];
    }
  }

  predicate IsNameChar(ch: char) {
    'a' <= ch <= 'z' || 'A' <= ch <= 'Z' || '0' <= ch <= '9' || ch == '_' || ch == '.' || ch == '-'
  }

  predicate IsProfileName(name: string) {
    && 1 <= |name| <= 64
    && name[0] !in "_.-"
    && forall i :: 0 <= i < |name| ==> IsNameChar(name[i])
  }

  // --- Validation ----------------------------------------------------------

  /** Two positions of the profile list that no validated configuration lets collide. */
  ghost predicate Apart(c: Config, i: nat, j: nat)
    requires i < |c.profiles| && j < |c.profiles|
  {
    var p, q := c.profiles[i], c.profiles[j];
    && p.name != q.name
    && SafeName(p.name) != SafeName(q.name)
    && Device(c, p) != Device(c, q)
    && Offset(c, p) != Offset(c, q)
  }

  /** What the field validators demand of one profile. */
  ghost predicate ValidProfile(p: Profile) {
    && IsProfileName(p.name)
    && (p.interface.Some? ==> p.interface.value != "")
    && (p.routingOffset.Some? ==> p.routingOffset.value >= 1)
  }

  /** `validate_profiles` together with the table checks of `validate_routing_compatibility`. */
  ghost predicate Validated(c: Config) {
    && IsMark(c.fwmark) && MarkValue(c.fwmark) != 0
    && c.tableId >= 1 && c.tableId !in RESERVED_TABLES
    && (forall p :: p in c.profiles ==> ValidProfile(p))
    && (forall i, j :: 0 <= i < j < |c.profiles| ==> Apart(c, i, j))
    && (c.enabled ==> c.profiles != [])
    && (c.activeProfile.Some? && c.activeProfile.value != "" ==>
          exists p :: p in c.profiles && p.name == c.activeProfile.value)
    && (c.enabled ==> forall p :: p in c.profiles ==> c.tableId + Offset(c, p) !in RESERVED_TABLES)
  }

  type ValidConfig = c: Config | Validated(c)
    witness Config(false, "", None, false, [], true, false, false, false, "", "0x1", 1)

  /** In a validated configuration a name identifies one profile. */
  lemma NameIdentifies(c: ValidConfig, p: Profile, q: Profile)
    requires p in c.profiles && q in c.profiles
    requires p.name == q.name || Device(c, p) == Device(c, q) || Offset(c, p) == Offset(c, q)
             || SafeName(p.name) == SafeName(q.name)
    ensures p == q
  {
    var i :| 0 <= i < |c.profiles| && c.profiles[i] == p;
    var j :| 0 <= j < |c.profiles| && c.profiles[j] == q;
    assert i < j ==> Apart(c, i, j);
    assert j < i ==> Apart(c, j, i);
  }

  lemma FindFinds(c: ValidConfig, p: Profile)
    requires p in c.profiles
    ensures Find(c, p.name) == Some(p)
  {
    NameIdentifies(c, p, Find(c, p.name).value);
  }

  lemma OffsetPositive(c: ValidConfig, p: Profile)
    requires p in c.profiles
    ensures Offset(c, p) >= 1
  {
    assert ValidProfile(p);
  }

  // --- The configured selection --------------------------------------------

  function FirstEnabled(ps: seq<Profile>): (r: Option<Profile>)
    ensures r.Some? ==> r.value in ps && r.value.enabled
    ensures r.None? ==> forall p :: p in ps ==> !p.enabled
  {
    if ps == [] then None else if ps[0].enabled then Some(ps[0]) else FirstEnabled(ps[1..])
  }

  /** `UpstreamConfig.selected_profile`. */
  function ConfigSelected(c: Config): (r: Option<Profile>)
    ensures r.Some? ==> r.value in c.profiles && r.value.enabled
  {
    var named := if c.activeProfile.Some? && c.activeProfile.value != ""
                 then Find(c, c.activeProfile.value) else None;
    if named.Some? then (if named.value.enabled then named else None)
    else FirstEnabled(c.profiles)
  }

  /** The enabled profile of least position. */
  ghost predicate LeastEnabled(ps: seq<Profile>, i: nat) {
    i < |ps| && ps[i].enabled && forall k :: 0 <= k < i ==> !ps[k].enabled
  }

  lemma {:induction false} FirstEnabledIsLeast(ps: seq<Profile>, i: nat)
    requires LeastEnabled(ps, i)
    ensures FirstEnabled(ps) == Some(ps[i])
  {
    if i > 0 {
      assert !ps[0].enabled;
      FirstEnabledIsLeast(ps[1..], i - 1);
    }
  }

  /** A profile named in the configuration is the selection, or nobody is while it is disabled. */
  lemma NamedIsSelected(c: ValidConfig, p: Profile)
    requires p in c.profiles && c.activeProfile == Some(p.name)
    ensures ConfigSelected(c) == if p.enabled then Some(p) else None
  {
    assert ValidProfile(p);
    FindFinds(c, p);
  }

  /** With none named it is the first enabled one in the list. */
  lemma UnnamedSelectsLeast(c: ValidConfig)
    requires c.activeProfile == None || c.activeProfile == Some("")
    ensures ConfigSelected(c).None? <==> forall p :: p in c.profiles ==> !p.enabled
    ensures forall i: nat :: LeastEnabled(c.profiles, i) ==> ConfigSelected(c) == Some(c.profiles[i])
  {
    hide FirstEnabled, Validated;
    forall i: nat | LeastEnabled(c.profiles, i) ensures ConfigSelected(c) == Some(c.profiles[i]) {
      FirstEnabledIsLeast(c.profiles, i);
    }
  }

  /** A validated configuration leaves no third case. */
  lemma NamedOrUnnamed(c: ValidConfig)
    ensures c.activeProfile == None || c.activeProfile == Some("")
         || exists p :: p in c.profiles && c.activeProfile == Some(p.name)
  {
  }

  /** What a profile gets by its place in the list when nothing is set explicitly. */
  lemma PlaceDecides(c: ValidConfig, i: nat)
    requires i < |c.profiles|
    ensures
      var p := c.profiles[i];
      && (p.routingOffset == None ==> Offset(c, p) == i + 1)
      && (p.interface == None ==> Device(c, p) == if i == 0 then c.interface else "oc-up" + Decimal(i))
  {
    var p := c.profiles[i];
    var k := IndexOf(c.profiles, p.name);
    forall j | 0 <= j < i ensures c.profiles[j].name != p.name {
      assert Apart(c, j, i);
    }
    assert k == i;
    hide Validated, IndexOf, Decimal;
  }
}
