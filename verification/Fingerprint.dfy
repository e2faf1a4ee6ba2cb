/**
  The fingerprint of the pushed lists as a change detector for the targets that
  are rendered from them (services/upstream_pushed.py, `fingerprint`).
 */
module Fingerprint {
  import opened Options
  import opened Profiles
  import opened Targets
  import opened Text

  /** Two effective lists that contribute the same to the fingerprint. */
  ghost predicate SamePart(a: Pushed, b: Pushed) {
    || (IsEmpty(a) && IsEmpty(b))
    || (!IsEmpty(a) && !IsEmpty(b) && a.routes == b.routes && a.domains == b.domains && a.dns == b.dns)
  }

  /** Equal in every field, except that the server's DNS may differ while it has no domains to resolve. */
  ghost predicate Agree(t: Target, u: Target) {
    && t.(serverDns := u.serverDns) == u
    && (t.serverDns == u.serverDns || t.serverDomains == [])
  }

  lemma {:induction false} PartsNamed(files: Files, ps: seq<Profile>)
    ensures forall x :: x in Parts(files, ps) ==> exists p :: p in ps && p.name == x.name
  {
    if ps != [] {
      PartsNamed(files, ps[1..]);
      assert ps[0] in ps;
      forall p | p in ps[1..] ensures p in ps {}
    }
  }

  /** A list that may begin with one part of that name, and goes on without it, splits in one way only. */
  lemma HeadsAgree(ha: seq<Part>, ra: seq<Part>, hb: seq<Part>, rb: seq<Part>, name: string)
    requires ha + ra == hb + rb && |ha| <= 1 && |hb| <= 1
    requires forall x :: x in ha || x in hb ==> x.name == name
    requires forall x :: x in ra || x in rb ==> x.name != name
    ensures ha == hb && ra == rb
  {
    var all := ha + ra;
    assert all != [] && |ha| == 0 ==> all[0] in ra;
    assert all != [] && |hb| == 0 ==> all[0] in rb;
    assert |ha| == 1 ==> all[0] == ha[0] && ha[0] in ha;
    assert |hb| == 1 ==> all[0] == hb[0] && hb[0] in hb;
    assert ha == all[..|ha|] && hb == all[..|hb|];
    assert ra == all[|ha|..] && rb == all[|hb|..];
  }

  /** Because names are unique, equal part lists mean equal parts profile by profile. */
  lemma {:induction false} PartsDetermine(a: Files, b: Files, ps: seq<Profile>)
    requires forall i, j :: 0 <= i < j < |ps| ==> ps[i].name != ps[j].name
    requires Parts(a, ps) == Parts(b, ps)
    ensures forall p :: p in ps ==> SamePart(Effective(a, p), Effective(b, p))
  {
    hide Effective;
    if ps != [] {
      var p := ps[0];
      var ra, rb := Parts(a, ps[1..]), Parts(b, ps[1..]);
      PartsNamed(a, ps[1..]);
      PartsNamed(b, ps[1..]);
      forall q | q in ps[1..] ensures q.name != p.name {
        var k :| 0 <= k < |ps[1..]| && ps[1..][k] == q;
        assert ps[0].name != ps[k + 1].name;
      }
      var ea, eb := Effective(a, p), Effective(b, p);
      var ha := if IsEmpty(ea) then [] else [Part(p.name, ea.routes, ea.domains, ea.dns)];
      var hb := if IsEmpty(eb) then [] else [Part(p.name, eb.routes, eb.domains, eb.dns)];
      HeadsAgree(ha, ra, hb, rb, p.name);
      PartsDetermine(a, b, ps[1..]);
    }
  }

  lemma SamePartSameTarget(c: ValidConfig, x: Context, p: Profile, a: Pushed, b: Pushed)
    requires SamePart(a, b)
    ensures TargetFor(c, x, p, a).Some? == TargetFor(c, x, p, b).Some?
    ensures TargetFor(c, x, p, a).Some? ==> Agree(TargetFor(c, x, p, a).value, TargetFor(c, x, p, b).value)
  {
  }

  lemma {:induction false} SamePartsSameTargets(c: ValidConfig, x: Context, a: Files, b: Files, ps: seq<Profile>)
    requires forall p :: p in ps ==> SamePart(Effective(a, p), Effective(b, p))
    ensures |TargetsOf(c, x, a, ps)| == |TargetsOf(c, x, b, ps)|
    ensures forall i :: 0 <= i < |TargetsOf(c, x, a, ps)| ==> Agree(TargetsOf(c, x, a, ps)[i], TargetsOf(c, x, b, ps)[i])
  {
    hide TargetFor, Effective, SamePart, Agree;
    if ps != [] {
      assert ps[0] in ps;
      SamePartSameTarget(c, x, ps[0], Effective(a, ps[0]), Effective(b, ps[0]));
      SamePartsSameTargets(c, x, a, b, ps[1..]);
    }
  }

  /** Equal fingerprints mean equal targets, up to server DNS that nothing resolves through. */
  lemma FingerprintSound(c: ValidConfig, x: Context, a: Files, b: Files, outbound: string)
    requires Parts(a, c.profiles) == Parts(b, c.profiles)
    ensures
      var ts, us := AllTargets(c, x, a, outbound), AllTargets(c, x, b, outbound);
      |ts| == |us| && forall i :: 0 <= i < |ts| ==> Agree(ts[i], us[i])
  {
    hide TargetFor, Effective;
    forall i, j | 0 <= i < j < |c.profiles| ensures c.profiles[i].name != c.profiles[j].name { assert Apart(c, i, j); }
    PartsDetermine(a, b, c.profiles);
    SamePartsSameTargets(c, x, a, b, c.profiles);
  }

  // --- When a changed fingerprint changes nothing --------------------------

  predicate HostActive(x: Context, p: Profile, e: Pushed) {
    p.hostEnabled && (HostRoutesOf(x, p, e) != [] || HostDomainsOf(p, e) != [])
  }

  /**
    Two pushed lists the host side of a profile makes the same of: both leave it
    inactive, or the merged routes of each family, the merged domains and the
    server's domains coincide, and its DNS too where there are domains.
   */
  ghost predicate SameTraffic(x: Context, p: Profile, a: Pushed, b: Pushed) {
    && HostActive(x, p, a) == HostActive(x, p, b)
    && (HostActive(x, p, a) ==>
          && OfFamily(x, HostRoutesOf(x, p, a), V4) == OfFamily(x, HostRoutesOf(x, p, b), V4)
          && OfFamily(x, HostRoutesOf(x, p, a), V6) == OfFamily(x, HostRoutesOf(x, p, b), V6)
          && HostDomainsOf(p, a) == HostDomainsOf(p, b)
          && a.domains == b.domains && (a.domains != [] ==> a.dns == b.dns))
  }

  ghost predicate OptionsAgree(t: Option<Target>, u: Option<Target>) {
    t.Some? == u.Some? && (t.Some? ==> Agree(t.value, u.value))
  }

  ghost predicate AllAgree(ts: seq<Target>, us: seq<Target>) {
    |ts| == |us| && forall i :: 0 <= i < |ts| ==> Agree(ts[i], us[i])
  }

  lemma TargetAgreesIff(c: ValidConfig, x: Context, p: Profile, a: Pushed, b: Pushed)
    ensures OptionsAgree(TargetFor(c, x, p, a), TargetFor(c, x, p, b)) <==> SameTraffic(x, p, a, b)
  {
    hide Validated, MarkText, Offset, Device, SafeName, OfFamily, HostRoutesOf, HostDomainsOf;
  }

  lemma TargetNamed(c: ValidConfig, x: Context, p: Profile, e: Pushed)
    ensures TargetFor(c, x, p, e).Some? ==> TargetFor(c, x, p, e).value.name == p.name
  {
  }

  lemma {:induction false} TargetsNamed(c: ValidConfig, x: Context, files: Files, ps: seq<Profile>)
    ensures forall t :: t in TargetsOf(c, x, files, ps) ==> exists p :: p in ps && p.name == t.name
  {
    hide TargetFor, Effective, Validated;
    if ps != [] {
      TargetNamed(c, x, ps[0], Effective(files, ps[0]));
      TargetsNamed(c, x, files, ps[1..]);
      assert ps == [ps[0]] + ps[1..];
      forall t | t in TargetsOf(c, x, files, ps) ensures exists p :: p in ps && p.name == t.name {
        if t in TargetsOf(c, x, files, ps[1..]) {
          var p :| p in ps[1..] && p.name == t.name;
          assert p in ps;
        } else {
          assert ps[0] in ps;
        }
      }
    }
  }

  function Listed(t: Option<Target>): seq<Target> {
    if t.Some? then [t.value] else []
  }

  lemma HeadsDecide(d: Target, ts: seq<Target>, e: Target, us: seq<Target>)
    ensures AllAgree([d] + ts, [e] + us) <==> Agree(d, e) && AllAgree(ts, us)
  {
    hide Agree;
    var ls, ks := [d] + ts, [e] + us;
    assert ls[0] == d && ks[0] == e;
    if AllAgree(ls, ks) {
      forall i | 0 <= i < |ts| ensures Agree(ts[i], us[i]) {
        assert Agree(ls[i + 1], ks[i + 1]);
      }
    }
    if Agree(d, e) && AllAgree(ts, us) {
      forall i | 0 <= i < |ls| ensures Agree(ls[i], ks[i]) {
        assert i > 0 ==> ls[i] == ts[i - 1] && ks[i] == us[i - 1];
      }
    }
  }

  /** A target in front that the other list does not have by name. */
  lemma UnmatchedHead(d: Target, ts: seq<Target>, us: seq<Target>)
    requires forall v :: v in us ==> v.name != d.name
    ensures !AllAgree([d] + ts, us) && !AllAgree(us, [d] + ts)
  {
    assert ([d] + ts)[0] == d;
    assert us != [] ==> us[0] in us && !Agree(d, us[0]) && !Agree(us[0], d);
  }

  /** Whether two lists that begin with at most one target of a name agree is decided head and tail apart. */
  lemma HeadDecides(t: Option<Target>, ts: seq<Target>, u: Option<Target>, us: seq<Target>, name: string)
    requires (t.Some? ==> t.value.name == name) && (u.Some? ==> u.value.name == name)
    requires forall v :: v in ts || v in us ==> v.name != name
    ensures AllAgree(Listed(t) + ts, Listed(u) + us) <==> OptionsAgree(t, u) && AllAgree(ts, us)
  {
    hide AllAgree, Agree;
    assert [] + ts == ts && [] + us == us;
    if t.Some? && u.Some? {
      HeadsDecide(t.value, ts, u.value, us);
    } else if t.Some? {
      UnmatchedHead(t.value, ts, us);
    } else if u.Some? {
      UnmatchedHead(u.value, us, ts);
    }
  }

  lemma {:induction false} NamedAgreeIff(c: ValidConfig, x: Context, a: Files, b: Files, ps: seq<Profile>)
    requires forall i, j :: 0 <= i < j < |ps| ==> ps[i].name != ps[j].name
    ensures AllAgree(TargetsOf(c, x, a, ps), TargetsOf(c, x, b, ps))
       <==> forall p :: p in ps ==> SameTraffic(x, p, Effective(a, p), Effective(b, p))
  {
    hide TargetFor, Effective, Agree, SameTraffic, AllAgree, Validated;
    if ps == [] {
      NothingDisagrees();
    } else {
      var p, rest := ps[0], ps[1..];
      var t, u := TargetFor(c, x, p, Effective(a, p)), TargetFor(c, x, p, Effective(b, p));
      var ts, us := TargetsOf(c, x, a, rest), TargetsOf(c, x, b, rest);
      TargetNamed(c, x, p, Effective(a, p));
      TargetNamed(c, x, p, Effective(b, p));
      TargetsNamed(c, x, a, rest);
      TargetsNamed(c, x, b, rest);
      forall q | q in rest ensures q.name != p.name {
        var k :| 0 <= k < |rest| && rest[k] == q;
        assert ps[0].name != ps[k + 1].name;
      }
      HeadDecides(t, ts, u, us, p.name);
      TargetAgreesIff(c, x, p, Effective(a, p), Effective(b, p));
      NamedAgreeIff(c, x, a, b, rest);
      assert ps == [p] + rest;
      assert TargetsOf(c, x, a, ps) == Listed(t) + ts && TargetsOf(c, x, b, ps) == Listed(u) + us;
    }
  }

  lemma NothingDisagrees()
    ensures AllAgree([], [])
  {
  }

  /**
    What is rendered from two stores agrees if and only if the upstream is off
    or, profile by profile, the host side makes the same of both pushed lists.
   */
  lemma TargetsAgreeIff(c: ValidConfig, x: Context, a: Files, b: Files, outbound: string)
    ensures AllAgree(AllTargets(c, x, a, outbound), AllTargets(c, x, b, outbound))
       <==> !c.enabled || forall p :: p in c.profiles ==> SameTraffic(x, p, Effective(a, p), Effective(b, p))
  {
    forall i, j | 0 <= i < j < |c.profiles| ensures c.profiles[i].name != c.profiles[j].name { assert Apart(c, i, j); }
    NamedAgreeIff(c, x, a, b, c.profiles);
    var d := DefaultTarget(c, x, outbound);
    HeadsDecide(d, TargetsOf(c, x, a, c.profiles), d, TargetsOf(c, x, b, c.profiles));
    HeadsDecide(d, [], d, []);
    NothingDisagrees();
  }

  /**
    The fingerprint is meant to change exactly when what is rendered does. For
    two stores that is so if and only if their parts are equal or some profile's
    host side, with the upstream on, makes something else of them.
   */
  lemma FingerprintExactIff(c: ValidConfig, x: Context, a: Files, b: Files, outbound: string)
    ensures (Parts(a, c.profiles) != Parts(b, c.profiles)
             <==> !AllAgree(AllTargets(c, x, a, outbound), AllTargets(c, x, b, outbound)))
       <==> || Parts(a, c.profiles) == Parts(b, c.profiles)
            || (c.enabled && exists p :: p in c.profiles && !SameTraffic(x, p, Effective(a, p), Effective(b, p)))
  {
    hide Effective, SameTraffic, AllTargets, Parts, Validated;
    TargetsAgreeIff(c, x, a, b, outbound);
    if Parts(a, c.profiles) == Parts(b, c.profiles) {
      FingerprintSound(c, x, a, b, outbound);
    }
  }

  /**
    The converse fails: a pushed route the profile already has changes the
    fingerprint, but none of the targets. So a changed fingerprint may trigger a
    reload that changes nothing.
   */
  lemma FingerprintNotTight(c: ValidConfig, x: Context, p: Profile, route: string, outbound: string)
    requires p in c.profiles && p.acceptServerRoutes && p.hostEnabled
    requires p.hostRoutes == [route] && Strip(route) == route && IsItem(route) && p.hostDomains == []
    ensures
      var files: Files := map[SafeName(p.name) := Pushed([route], [], [], "handshake", "", 0)];
      && AllAgree(AllTargets(c, x, files, outbound), AllTargets(c, x, map[], outbound))
      && Parts(files, c.profiles) != Parts(map[], c.profiles)
  {
    hide Strip, IsItem, SafeName, Validated, Device, Offset;
    var pushed := Pushed([route], [], [], "handshake", "", 0);
    var files: Files := map[SafeName(p.name) := pushed];
    assert [route][1..] == [];
    MergedOnce(route);
    assert HostRoutesOf(x, p, pushed) == HostRoutesOf(x, p, NOTHING) == [route] && HostDomainsOf(p, pushed) == HostDomainsOf(p, NOTHING);
    forall q | q in c.profiles ensures SameTraffic(x, q, Effective(files, q), Effective(map[], q)) {
      if q != p {
        OnlyOne(c, p, q, pushed);
      }
    }
    TargetsAgreeIff(c, x, files, map[], outbound);
    assert !SamePart(Effective(files, p), Effective(map[], p));
    if Parts(files, c.profiles) == Parts(map[], c.profiles) {
      forall i, j | 0 <= i < j < |c.profiles| ensures c.profiles[i].name != c.profiles[j].name { OneName(c, i, j); }
      PartsDetermine(files, map[], c.profiles);
    }
  }

  lemma MergedOnce(route: string)
    requires Strip(route) == route && IsItem(route)
    ensures Merge([], [route]) == [route] && Merge([route], [route]) == [route]
    ensures forall r: seq<string> :: Merge(r, []) == r
  {
    assert [route][1..] == [];
    assert Merge([route], []) == [route];
  }

  lemma OneName(c: ValidConfig, i: nat, j: nat)
    requires i < j < |c.profiles|
    ensures c.profiles[i].name != c.profiles[j].name
  {
    assert Apart(c, i, j);
  }

  lemma OnlyOne(c: ValidConfig, p: Profile, q: Profile, pushed: Pushed)
    requires p in c.profiles && q in c.profiles && q != p
    ensures Effective(map[SafeName(p.name) := pushed], q) == Effective(map[], q)
  {
    if SafeName(p.name) == SafeName(q.name) {
      NameIdentifies(c, p, q);
    }
  }
}
