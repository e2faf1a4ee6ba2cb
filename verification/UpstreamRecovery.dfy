/**
  What `recover` and `enforce_profile_enablement` achieve, stated over the
  connections they leave behind rather than over the steps they take.
 */
module UpstreamRecovery {
  import opened Options
  import opened Profiles
  import opened Upstream

  // --- The order of candidates ---------------------------------------------

  ghost predicate NamesApart(ps: seq<Profile>) {
    forall i, j :: 0 <= i < j < |ps| ==> ps[i].name != ps[j].name
  }

  lemma {:induction false} EnabledNamesDistinct(c: ValidConfig, ps: seq<Profile>)
    requires NamesApart(ps)
    ensures Distinct(EnabledNames(ps))
  {
    if ps != [] {
      EnabledNamesDistinct(c, ps[1..]);
      EnabledNamesKnown(c, ps[1..]);
      forall n | n in EnabledNames(ps[1..]) ensures n != ps[0].name {
        var p :| p in ps[1..] && p.enabled && p.name == n;
        var j :| 0 <= j < |ps[1..]| && ps[1..][j] == p;
        assert ps[0].name != ps[j + 1].name;
      }
      PrependDistinct(ps[0].name, EnabledNames(ps[1..]));
    }
  }

  lemma PrependDistinct(n: string, names: seq<string>)
    requires Distinct(names) && n !in names
    ensures Distinct([n] + names)
  {
    var all := [n] + names;
    forall i, j | 0 <= i < j < |all| ensures all[i] != all[j] {
      assert all[j] == names[j - 1];
    }
  }

  lemma NamesDistinct(c: ValidConfig)
    ensures NamesApart(c.profiles)
  {
    forall i, j | 0 <= i < j < |c.profiles| ensures c.profiles[i].name != c.profiles[j].name {
      assert Apart(c, i, j);
    }
  }

  lemma ModStep(n: nat, a: nat, b: nat)
    requires n > 0 && a < n && b < n
    ensures (a + b) % n == if a + b < n then a + b else a + b - n
  {
    if a + b >= n {
      assert (a + b - n + n) % n == (a + b - n) % n;
    }
  }

  /** The wrap-around order is a permutation of the names, beginning at `start`. */
  lemma RotationPermutes(names: seq<string>, start: nat)
    requires names != [] && start < |names| && Distinct(names)
    ensures Distinct(Rotation(names, start)) && Rotation(names, start)[0] == names[start]
    ensures forall n :: n in Rotation(names, start) <==> n in names
  {
    var n := |names|;
    var order := Rotation(names, start);
    forall k | 0 <= k < n ensures order[k] == names[if start + k < n then start + k else start + k - n] {
      ModStep(n, start, k);
    }
    forall x | x in names ensures x in order {
      var i :| 0 <= i < n && names[i] == x;
      assert order[if i >= start then i - start else i + n - start] == x;
    }
  }

  /** Behind each candidate comes the next name of the list, and the first one behind the last. */
  lemma RotationFollowsList(names: seq<string>, start: nat, i: nat, k: nat)
    requires start < |names| && Distinct(names) && i < |names| && k + 1 < |names|
    requires Rotation(names, start)[k] == names[i]
    ensures Rotation(names, start)[k + 1] == names[if i + 1 < |names| then i + 1 else 0]
  {
    var n := |names|;
    ModStep(n, start, k);
    ModStep(n, start, k + 1);
    var j := if start + k < n then start + k else start + k - n;
    assert names[i] == names[j];
    assert i == j;
  }

  /** `recover` walks the enabled profiles in list order, wrapping around, from the current one. */
  lemma OrderFollowsList(c: ValidConfig, s: State, i: nat, k: nat)
    requires
      var names := EnabledNames(c.profiles);
      && i < |names| && k + 1 < |Order(c, Current(c, s, names), names)|
      && Order(c, Current(c, s, names), names)[k] == names[i]
    ensures
      var names := EnabledNames(c.profiles);
      Order(c, Current(c, s, names), names)[k + 1] == names[if i + 1 < |names| then i + 1 else 0]
  {
    var names := EnabledNames(c.profiles);
    NamesDistinct(c);
    EnabledNamesDistinct(c, c.profiles);
    EnabledNamesKnown(c, c.profiles);
    hide Validated, Selected, EnabledNames;
    assert Current(c, s, names) in names;
    RotationFollowsList(names, NameIndex(names, Current(c, s, names)), i, k);
  }

  /** The enabled names stand in list order. */
  lemma {:induction false} EnabledNamesInOrder(ps: seq<Profile>, i: nat, j: nat)
    requires i < j < |ps| && ps[i].enabled && ps[j].enabled && NamesApart(ps)
    ensures
      var names := EnabledNames(ps);
      NameIndex(names, ps[i].name) < NameIndex(names, ps[j].name) < |names|
  {
    if i == 0 {
      EnabledNameIsThere(ps[1..], j - 1);
    } else {
      forall k, l | 0 <= k < l < |ps[1..]| ensures ps[1..][k].name != ps[1..][l].name { assert ps[k + 1].name != ps[l + 1].name; }
      EnabledNamesInOrder(ps[1..], i - 1, j - 1);
      assert ps[0].name != ps[i].name && ps[0].name != ps[j].name;
    }
    var names := EnabledNames(ps);
    var rest := EnabledNames(ps[1..]);
    if ps[0].enabled {
      assert names[0] == ps[0].name && names[1..] == rest && ps[0].name != ps[j].name;
    }
  }

  lemma {:induction false} EnabledNameIsThere(ps: seq<Profile>, j: nat)
    requires j < |ps| && ps[j].enabled
    ensures ps[j].name in EnabledNames(ps)
  {
    if j > 0 {
      EnabledNameIsThere(ps[1..], j - 1);
    }
  }

  /** The candidates are distinct enabled names, the active one first; with failover they are all of them. */
  lemma OrderIsSound(c: ValidConfig, s: State)
    requires EnabledNames(c.profiles) != []
    ensures
      var names := EnabledNames(c.profiles);
      var order := Order(c, Current(c, s, names), names);
      && order != [] && order[0] == Current(c, s, names) && Distinct(order)
      && (forall n :: n in order ==> n in names && Find(c, n).Some? && Find(c, n).value.enabled)
      && (c.failover ==> forall n :: n in names ==> n in order)
  {
    var names := EnabledNames(c.profiles);
    NamesDistinct(c);
    EnabledNamesDistinct(c, c.profiles);
    EnabledNamesKnown(c, c.profiles);
    var current := Current(c, s, names);
    var sel := Selected(c, s.marker);
    assert current in names;
    if c.failover && |names| > 1 {
      RotationPermutes(names, NameIndex(names, current));
    } else if c.failover {
      assert names == [current];
    }
    forall n | n in names ensures Find(c, n).Some? && Find(c, n).value.enabled {
      var p :| p in c.profiles && p.enabled && p.name == n;
      FindFinds(c, p);
    }
  }

  // --- Which names are dialled ---------------------------------------------

  /** For any world: the dials are a prefix of the order, and all of it before giving up. */
  lemma {:induction false} TryDials(c: ValidConfig, w: World, s: State, order: seq<string>, active: Option<string>)
    requires forall n :: n in order ==> Find(c, n).Some?
    ensures NewDials(s, Try(c, w, s, order, active).state) <= order
    ensures !Try(c, w, s, order, active).ok ==> NewDials(s, Try(c, w, s, order, active).state) == order
    decreases |order|
  {
    hide Attempt, Find, Validated;
    if order != [] {
      assert order[0] in order;
      var r1 := Attempt(c, w, s, Find(c, order[0]).value, active);
      if !r1.ok {
        var r := Try(c, w, s, order, active).state;
        TryDials(c, w, r1.state, order[1..], active);
        DialsSplit(s, r1.state, r);
      }
    }
  }

  /** For any world: the marker moves only to a candidate, and nobody else comes up. */
  lemma {:induction false} TryAdopts(c: ValidConfig, w: World, s: State, order: seq<string>, active: Option<string>)
    requires forall n :: n in order ==> Find(c, n).Some?
    ensures
      var r := Try(c, w, s, order, active).state;
      && (r.marker == s.marker || exists n :: n in order && r.marker == [n])
      && (forall n :: n in r.up ==> n in s.up || n in order)
    decreases |order|
  {
    hide Attempt, Find, Validated;
    if order != [] {
      assert order[0] in order;
      var r1 := Attempt(c, w, s, Find(c, order[0]).value, active);
      if !r1.ok {
        TryAdopts(c, w, r1.state, order[1..], active);
      }
    }
  }

  /**
    `recover` walks the rotation from its start, dialling each candidate at most
    once and all of them before it gives up, and never dials or adopts a
    disabled profile.
   */
  lemma RecoverDials(c: ValidConfig, w: World, s: State)
    ensures
      var r := Recover(c, w, s).state;
      var names := EnabledNames(c.profiles);
      && Distinct(NewDials(s, r))
      && (names != [] ==> NewDials(s, r) <= Order(c, Current(c, s, names), names))
      && (names != [] && !Recover(c, w, s).ok ==> NewDials(s, r) == Order(c, Current(c, s, names), names))
      && (forall n :: n in NewDials(s, r) ==> n in names)
      && (r.marker == s.marker || exists n :: n in names && r.marker == [n])
      && (forall n :: n in r.up ==> n in s.up || n in names)
  {
    var names := EnabledNames(c.profiles);
    if names != [] {
      OrderIsSound(c, s);
      TryDials(c, w, s, Order(c, Current(c, s, names), names), ActiveName(c, s));
      TryAdopts(c, w, s, Order(c, Current(c, s, names), names), ActiveName(c, s));
    }
  }

  /** For any world: the active profile is redialled first, whether or not its tunnel still stands. */
  lemma RecoverRedials(c: ValidConfig, w: World, s: State, n: string)
    requires ActiveName(c, s) == Some(n)
    ensures
      var dials := NewDials(s, Recover(c, w, s).state);
      dials != [] && dials[0] == n
  {
    hide Attempt, Find, Validated, Selected;
    var names := EnabledNames(c.profiles);
    EnabledNamesKnown(c, c.profiles);
    var p := Selected(c, s.marker).value;
    assert p in c.profiles && p.enabled && n in names;
    OrderIsSound(c, s);
    var order := Order(c, Current(c, s, names), names);
    assert order[0] == n && Find(c, n).Some?;
    assert Find(c, n).value.name == n;
    var r1 := Attempt(c, w, s, Find(c, n).value, Some(n));
    assert r1.state.dials == s.dials + [n] && r1.state.dials <= Recover(c, w, s).state.dials;
    assert Recover(c, w, s).state.dials[|s.dials|] == n;
  }

  lemma {:induction false} TrySpares(c: ValidConfig, w: World, s: State, order: seq<string>, active: Option<string>)
    requires (forall n :: n in order ==> Find(c, n).Some?) && Distinct(order)
    requires Quiet(w, s.clock, Try(c, w, s, order, active).state.clock)
    ensures forall n :: n in NewDials(s, Try(c, w, s, order, active).state) ==> n !in s.up || active == Some(n)
    decreases |order|
  {
    hide Attempt, Find, Validated;
    if order != [] {
      assert order[0] in order;
      var r1 := Attempt(c, w, s, Find(c, order[0]).value, active);
      var r := Try(c, w, s, order, active).state;
      if !r1.ok {
        TrySpares(c, w, r1.state, order[1..], active);
        TryDials(c, w, r1.state, order[1..], active);
        DialsSplit(s, r1.state, r);
        forall n | n in NewDials(r1.state, r) ensures n !in s.up || active == Some(n) {
          assert n in order[1..];
          var k :| 0 <= k < |order[1..]| && order[1..][k] == n;
          assert order[0] != order[k + 1];
        }
      }
    }
  }

  /** No tunnel dying meanwhile, a standby that is up is adopted as it is: nobody but the active profile is redialled. */
  lemma RecoverSparesStandbys(c: ValidConfig, w: World, s: State)
    requires Quiet(w, s.clock, Recover(c, w, s).state.clock)
    ensures forall n :: n in NewDials(s, Recover(c, w, s).state) ==> n !in s.up || ActiveName(c, s) == Some(n)
  {
    hide Validated, Try;
    var names := EnabledNames(c.profiles);
    if names != [] {
      OrderIsSound(c, s);
      TrySpares(c, w, s, Order(c, Current(c, s, names), names), ActiveName(c, s));
    }
  }

  // --- Who ends up selected ------------------------------------------------

  /** `order[i]` is the first candidate, in order, whose tunnel is up. */
  ghost predicate FirstUp(order: seq<string>, up: set<string>, i: nat) {
    i < |order| && order[i] in up && forall j :: 0 <= j < i ==> order[j] !in up
  }

  lemma {:induction false} TryOutcome(c: ValidConfig, w: World, s: State, order: seq<string>, active: Option<string>)
    requires Distinct(order)
    requires forall n :: n in order ==> Find(c, n).Some? && Find(c, n).value.enabled
    requires active == ActiveName(c, s)
    requires Quiet(w, s.clock, Try(c, w, s, order, active).state.clock)
    ensures
      var r := Try(c, w, s, order, active);
      && (forall n :: n !in order ==> (n in r.state.up <==> n in s.up))
      && (r.ok ==> exists i: nat :: FirstUp(order, r.state.up, i) && ActiveName(c, r.state) == Some(order[i]))
      && (!r.ok ==> r.state.marker == s.marker && forall n :: n in order ==> n !in r.state.up)
    decreases |order|
  {
    hide Attempt, Find, Validated;
    if order == [] {
      return;
    }
    assert order[0] in order;
    var p := Find(c, order[0]).value;
    var r1 := Attempt(c, w, s, p, active);
    var r := Try(c, w, s, order, active);
    if r1.ok {
      SelectedByMarker(c, p);
      assert FirstUp(order, r.state.up, 0);
    } else {
      TryOutcome(c, w, r1.state, order[1..], active);
      FailedFirst(order, r.state.up);
    }
  }

  /** A failed first candidate is not up afterwards, so it does not disturb who comes first. */
  lemma FailedFirst(order: seq<string>, up: set<string>)
    requires order != [] && Distinct(order) && order[0] !in up
    ensures forall n :: n in order[1..] ==> n != order[0]
    ensures forall i: nat :: FirstUp(order[1..], up, i) ==> FirstUp(order, up, i + 1) && order[1..][i] == order[i + 1]
    ensures (forall n :: n in order[1..] ==> n !in up) ==> forall n :: n in order ==> n !in up
  {
    forall n | n in order[1..] ensures n != order[0] {
      var k :| 0 <= k < |order[1..]| && order[1..][k] == n;
      assert order[0] != order[k + 1];
    }
    forall i: nat | FirstUp(order[1..], up, i) ensures FirstUp(order, up, i + 1) {
      forall j | 0 <= j < i + 1 ensures order[j] !in up {
        if j > 0 {
          assert order[1..][j - 1] !in up;
        }
      }
    }
    assert order == [order[0]] + order[1..];
  }

  lemma SelectedByMarker(c: ValidConfig, p: Profile)
    requires p in c.profiles && p.enabled
    ensures Selected(c, [p.name]) == Some(p)
  {
    FindFinds(c, p);
    assert ValidProfile(p);
  }

  /**
    With no tunnel dying meanwhile: success means the selected profile is the
    first candidate in the rotation whose tunnel is up, so it is enabled and
    connected; failure means no candidate is up and the marker is unchanged --
    with failover on, no enabled profile is connected at all.
   */
  lemma RecoverOutcome(c: ValidConfig, w: World, s: State)
    requires Quiet(w, s.clock, Recover(c, w, s).state.clock)
    ensures
      var r := Recover(c, w, s);
      var names := EnabledNames(c.profiles);
      && (r.ok ==> names != [] && exists i: nat ::
            var order := Order(c, Current(c, s, names), names);
            FirstUp(order, r.state.up, i) && ActiveName(c, r.state) == Some(order[i]))
      && (!r.ok ==>
            && r.state.marker == s.marker
            && (names != [] ==> forall n :: n in Order(c, Current(c, s, names), names) ==> n !in r.state.up)
            && (c.failover ==> forall p :: p in c.profiles && p.enabled ==> p.name !in r.state.up))
      && (forall n :: n !in names ==> (n in r.state.up <==> n in s.up))
  {
    var names := EnabledNames(c.profiles);
    EnabledNamesKnown(c, c.profiles);
    assert forall p :: p in c.profiles && p.enabled ==> p.name in names;
    if names != [] {
      OrderIsSound(c, s);
      TryOutcome(c, w, s, Order(c, Current(c, s, names), names), ActiveName(c, s));
    }
  }

  // --- Enforcing enablement ------------------------------------------------

  lemma OthersApart(ps: seq<Profile>)
    requires NamesApart(ps) && ps != []
    ensures forall q :: q in ps[1..] ==> q.name != ps[0].name
  {
    forall q | q in ps[1..] ensures q.name != ps[0].name {
      var k :| 0 <= k < |ps[1..]| && ps[1..][k] == q;
      assert ps[0].name != ps[k + 1].name;
    }
  }

  lemma TailOf(ps: seq<Profile>, p: Profile)
    requires NamesApart(ps) && p in ps && p != ps[0]
    ensures NamesApart(ps[1..]) && p in ps[1..] && p.name != ps[0].name
  {
    var i :| 0 <= i < |ps| && ps[i] == p;
    assert ps[1..][i - 1] == p;
  }

  lemma DialsSplit(s: State, t: State, r: State)
    requires s.dials <= t.dials <= r.dials
    ensures NewDials(s, r) == NewDials(s, t) + NewDials(t, r)
  {
  }

  /** A name that may not be dialled here cannot come up here. */
  lemma {:induction false} EnforceIgnores(c: ValidConfig, w: World, s: State, ps: seq<Profile>, active: Option<string>, name: string)
    requires active == Some(name) || forall p :: p in ps && p.name == name ==> !p.enabled
    ensures
      var r := EnforceFrom(c, w, s, ps, active);
      (name in r.up ==> name in s.up) && name !in NewDials(s, r)
    decreases |ps|
  {
    hide EnforceOne, Validated;
    if ps != [] {
      var s1 := EnforceOne(c, w, s, ps[0], active);
      EnforceIgnores(c, w, s1, ps[1..], active, name);
      DialsSplit(s, s1, EnforceFrom(c, w, s, ps, active));
    }
  }

  /** For any world: a disabled profile is down once its turn has come. */
  lemma {:induction false} EnforceTearsDown(c: ValidConfig, w: World, s: State, ps: seq<Profile>, active: Option<string>, p: Profile)
    requires NamesApart(ps) && p in ps && !p.enabled
    ensures p.name !in EnforceFrom(c, w, s, ps, active).up
    decreases |ps|
  {
    hide EnforceOne, Validated;
    var s1 := EnforceOne(c, w, s, ps[0], active);
    if p == ps[0] {
      OthersApart(ps);
      EnforceIgnores(c, w, s1, ps[1..], active, p.name);
    } else {
      TailOf(ps, p);
      EnforceTearsDown(c, w, s1, ps[1..], active, p);
    }
  }

  /** With no deaths: whoever is up and not disabled stays up. */
  lemma {:induction false} EnforceKeepsUp(c: ValidConfig, w: World, s: State, ps: seq<Profile>, active: Option<string>, name: string)
    requires name in s.up && forall p :: p in ps && p.name == name ==> p.enabled
    requires Quiet(w, s.clock, EnforceFrom(c, w, s, ps, active).clock)
    ensures name in EnforceFrom(c, w, s, ps, active).up
    decreases |ps|
  {
    hide EnforceOne, Validated;
    if ps != [] {
      EnforceKeepsUp(c, w, EnforceOne(c, w, s, ps[0], active), ps[1..], active, name);
    }
  }

  /** With no deaths: every enabled standby is up or was dialled in vain. */
  lemma {:induction false} EnforceKeepsWarm(c: ValidConfig, w: World, s: State, ps: seq<Profile>, active: Option<string>, p: Profile)
    requires NamesApart(ps) && p in ps && p.enabled && active != Some(p.name)
    requires Quiet(w, s.clock, EnforceFrom(c, w, s, ps, active).clock)
    ensures
      var r := EnforceFrom(c, w, s, ps, active);
      p.name in r.up || p.name in NewDials(s, r)
    decreases |ps|
  {
    hide EnforceOne, Validated;
    var s1 := EnforceOne(c, w, s, ps[0], active);
    DialsSplit(s, s1, EnforceFrom(c, w, s, ps, active));
    if p != ps[0] {
      TailOf(ps, p);
      EnforceKeepsWarm(c, w, s1, ps[1..], active, p);
    } else if p.name in s.up {
      OthersApart(ps);
      EnforceKeepsUp(c, w, s1, ps[1..], active, p.name);
    }
  }

  /**
    After enforcement no disabled profile is connected, whatever dies meanwhile.
    With no deaths, every enabled standby is connected or was dialled and
    failed, and the marker and the selected profile's connection are untouched.
   */
  lemma EnforceOutcome(c: ValidConfig, w: World, s: State)
    ensures
      var r := Enforce(c, w, s);
      && r.marker == s.marker
      && (forall p :: p in c.profiles && !p.enabled ==> p.name !in r.up)
      && (forall n :: n in NewDials(s, r) ==> ActiveName(c, s) != Some(n))
      && (Quiet(w, s.clock, r.clock) ==>
            && (forall p :: p in c.profiles && p.enabled && ActiveName(c, s) != Some(p.name) ==>
                  p.name in r.up || p.name in NewDials(s, r))
            && (ActiveName(c, s).Some? ==> (ActiveName(c, s).value in r.up <==> ActiveName(c, s).value in s.up)))
  {
    hide Enforced, EnforceFrom, Validated;
    NamesDistinct(c);
    var active := ActiveName(c, s);
    var r := Enforce(c, w, s);
    forall p | p in c.profiles && !p.enabled ensures p.name !in r.up {
      EnforceTearsDown(c, w, s, c.profiles, active, p);
    }
    if active.Some? {
      EnforceIgnores(c, w, s, c.profiles, active, active.value);
    }
    if Quiet(w, s.clock, r.clock) {
      forall p | p in c.profiles && p.enabled && active != Some(p.name)
        ensures p.name in r.up || p.name in NewDials(s, r)
      {
        EnforceKeepsWarm(c, w, s, c.profiles, active, p);
      }
      if active.Some? && active.value in s.up {
        forall p | p in c.profiles && p.name == active.value ensures p.enabled {
          NameIdentifies(c, p, Selected(c, s.marker).value);
        }
        EnforceKeepsUp(c, w, s, c.profiles, active, active.value);
      }
    }
  }

  /** Enforcement brings nobody up without dialling. */
  lemma {:induction false} EnforceBringsUp(c: ValidConfig, w: World, s: State, ps: seq<Profile>, active: Option<string>)
    ensures
      var r := EnforceFrom(c, w, s, ps, active);
      forall n :: n in r.up && n !in s.up ==> n in NewDials(s, r)
    decreases |ps|
  {
    hide EnforceOne, Validated;
    if ps != [] {
      var s1 := EnforceOne(c, w, s, ps[0], active);
      EnforceBringsUp(c, w, s1, ps[1..], active);
      DialsSplit(s, s1, EnforceFrom(c, w, s, ps, active));
      assert s1.dials != s.dials ==> ps[0].name in NewDials(s, s1);
    }
  }

  /** With no deaths, whoever is up already is not dialled. */
  lemma {:induction false} EnforceSparesConnected(c: ValidConfig, w: World, s: State, ps: seq<Profile>, active: Option<string>)
    requires NamesApart(ps)
    requires forall p :: p in ps && p.enabled && active != Some(p.name) ==> p.name in s.up
    requires Quiet(w, s.clock, EnforceFrom(c, w, s, ps, active).clock)
    ensures EnforceFrom(c, w, s, ps, active).dials == s.dials
    decreases |ps|
  {
    hide EnforceOne, Validated;
    if ps != [] {
      OthersApart(ps);
      EnforceSparesConnected(c, w, EnforceOne(c, w, s, ps[0], active), ps[1..], active);
    }
  }

  /** With no deaths, enforcement dials nobody exactly when every enabled standby is up. */
  lemma EnforceDialsNobodyIff(c: ValidConfig, w: World, s: State)
    requires Quiet(w, s.clock, Enforce(c, w, s).clock)
    ensures
      Enforce(c, w, s).dials == s.dials <==>
        forall p :: p in c.profiles && p.enabled && ActiveName(c, s) != Some(p.name) ==> p.name in s.up
  {
    NamesDistinct(c);
    EnforceOutcome(c, w, s);
    hide EnforceFrom, Validated;
    EnforceBringsUp(c, w, s, c.profiles, ActiveName(c, s));
    if forall p :: p in c.profiles && p.enabled && ActiveName(c, s) != Some(p.name) ==> p.name in s.up {
      EnforceSparesConnected(c, w, s, c.profiles, ActiveName(c, s));
    }
  }

  /**
    One watchdog tick never undoes itself: what `recover` brought up survives
    the enforcement and the refresh of pushed lists that end the tick.
   */
  lemma TickKeepsRecovered(c: ValidConfig, w: World, s: State)
    requires
      var r := Recover(c, w, s);
      r.ok && Quiet(w, s.clock, Refresh(c, w, Enforce(c, w, r.state)).clock)
    ensures
      var r := Recover(c, w, s).state;
      var t := Refresh(c, w, Enforce(c, w, r));
      && ActiveName(c, t).Some? && ActiveName(c, t) == ActiveName(c, r)
      && ActiveName(c, t).value in t.up
  {
    hide Recover, Enforce, Refresh, Validated;
    var r := Recover(c, w, s).state;
    var e := Enforce(c, w, r);
    assert Quiet(w, s.clock, r.clock) && Quiet(w, r.clock, e.clock) && Quiet(w, e.clock, Refresh(c, w, e).clock);
    RecoverOutcome(c, w, s);
    EnforceOutcome(c, w, r);
  }
}
