/**
  Two ordinary configuration changes in which the stale-target cleanup
  (services/nftables.py, `_cleanup_stale_targets`) goes wrong.
 */
module StaleInstances {
  import opened Options
  import opened Profiles
  import opened PolicyRouting
  import opened Upstream
  import opened StaleTargets
  import ProfileEdits

  /** A profile that sends clients through it. */
  function Sample(name: string, device: string, offset: Option<nat>): Profile {
    Profile(name, true, Some(device), offset, true, ["10.20.0.0/16"], [], false, [], [], false)
  }

  function Setup(ps: seq<Profile>): Config {
    Config(true, "tun0", None, false, ps, true, false, false, true, "eth0", "0x1", 100)
  }

  lemma BaseIsOne(ps: seq<Profile>)
    ensures IsMark(Setup(ps).fwmark) && MarkValue(Setup(ps).fwmark) == 1
  {
    assert "0x1"[2..] == "1" && "1"[..0] == "";
    assert HexValue("") == 0;
  }

  /** Every load succeeds, these profiles own targets, nothing else happens. */
  ghost function Loading(names: set<string>): World {
    k => Event(true, {}, {}, {}, {}, names)
  }

  const START := State([], {}, Kernel({}, map[], {"eth0"}), [], 0, [])

  /** What one load of a fresh installation leaves behind. */
  lemma FirstLoad(c: ValidConfig, w: World, outbound: string, t: Assignment)
    requires c.enabled && w(0).yes && t in Assignments(c, outbound, w(0).targeted)
    requires t.name != "default" && NamesDiffer(Assignments(c, outbound, w(0).targeted))
    ensures
      var r := NftApply(c, w, START, outbound);
      r.ok && OwnRule(t.mark, t.table) in r.state.kernel.rules && Entry(t) in r.state.recorded
    ensures
      var r := NftApply(c, w, START, outbound);
      forall q :: q in r.state.recorded ==> Mentions(Assignments(c, outbound, w(0).targeted), q.name)
  {
    hide Validated, Assignments, ConfigSelected;
    var ts := Assignments(c, outbound, w(0).targeted);
    RulesAfterApply(c, w, START, outbound);
    RecordCovers([], ts);
    RecordedFrom([], ts);
    assert Vanished([], ts) == {};
    assert t in Reasserted(c, ts);
  }

  /** Loading once more with all names kept leaves the rule of every place that was left. */
  lemma SecondLoadLeaks(c: ValidConfig, d: ValidConfig, names: set<string>, outbound: string, t: Assignment)
    requires c.enabled && d.enabled && NamesDiffer(Assignments(c, outbound, names))
    requires t in Assignments(c, outbound, names) && t.name != "default"
    requires forall n :: Mentions(Assignments(c, outbound, names), n) ==> Mentions(Assignments(d, outbound, names), n)
    ensures
      var s1 := NftApply(c, Loading(names), START, outbound);
      var s2 := NftApply(d, Loading(names), s1.state, outbound);
      s1.ok && s2.ok && OwnRule(t.mark, t.table) in s2.state.kernel.rules
  {
    hide Validated, NftApply, Assignments, Mentions, NamesDiffer;
    var w := Loading(names);
    FirstLoad(c, w, outbound, t);
    var s1 := NftApply(c, w, START, outbound).state;
    LoadsAgain(d, w, s1, outbound);
    RulesAfterApply(d, w, s1, outbound);
    assert Vanished(s1.recorded, Assignments(d, outbound, names)) == {};
  }

  /** Loading once more without a name takes the rule of its place away, whoever is there now. */
  lemma SecondLoadRemoves(c: ValidConfig, d: ValidConfig, names: set<string>, outbound: string, t: Assignment)
    requires c.enabled && d.enabled && NamesDiffer(Assignments(c, outbound, names))
    requires t in Assignments(c, outbound, names) && t.name != "default"
    requires !Mentions(Assignments(d, outbound, names), t.name)
    ensures
      var s1 := NftApply(c, Loading(names), START, outbound);
      var s2 := NftApply(d, Loading(names), s1.state, outbound);
      s1.ok && s2.ok && OwnRule(t.mark, t.table) !in s2.state.kernel.rules
  {
    hide Validated, NftApply, Assignments, Mentions, NamesDiffer;
    var w := Loading(names);
    FirstLoad(c, w, outbound, t);
    var s1 := NftApply(c, w, START, outbound).state;
    LoadsAgain(d, w, s1, outbound);
    RulesAfterApply(d, w, s1, outbound);
    assert Entry(t) in Vanished(s1.recorded, Assignments(d, outbound, names));
  }

  // --- A changed routing_offset --------------------------------------------

  lemma OneProfileValid(offset: nat)
    requires 1 <= offset <= 100
    ensures Validated(Setup([Sample("a", "tun1", Some(offset))]))
  {
    var c := Setup([Sample("a", "tun1", Some(offset))]);
    BaseIsOne(c.profiles);
    assert "a"[0] == 'a' && 'a' !in "_.-";
    assert ValidProfile(c.profiles[0]);
  }

  lemma OneProfileTargets(offset: nat)
    requires 1 <= offset <= 100
    ensures
      Validated(Setup([Sample("a", "tun1", Some(offset))]))
      && Assignments(Setup([Sample("a", "tun1", Some(offset))]), "tun1", {"a"})
         == [Assignment("default", 1, 100, "tun1"), Assignment("a", 1 + offset, 100 + offset, "tun1")]
  {
    OneProfileValid(offset);
    var c: ValidConfig := Setup([Sample("a", "tun1", Some(offset))]);
    BaseIsOne(c.profiles);
    var p := c.profiles[0];
    assert Offset(c, p) == offset && Device(c, p) == "tun1";
    assert c.profiles[1..] == [];
    assert NamedAssignments(c, c.profiles, {"a"}) == [Assignment("a", 1 + offset, 100 + offset, "tun1")] + NamedAssignments(c, [], {"a"});
  }

  /** A profile moves from offset 5 to offset 7: the rule of its old place is still there, and nothing accounts for it. */
  lemma ChangedOffsetLeaks()
    ensures Validated(Setup([Sample("a", "tun1", Some(5))])) && Validated(Setup([Sample("a", "tun1", Some(7))]))
    ensures
      var w := Loading({"a"});
      var s1 := NftApply(Setup([Sample("a", "tun1", Some(5))]), w, START, "tun1");
      var s2 := NftApply(Setup([Sample("a", "tun1", Some(7))]), w, s1.state, "tun1");
      && s1.ok && s2.ok
      && OwnRule(6, 105) in s2.state.kernel.rules
      && forall t :: t in Assignments(Setup([Sample("a", "tun1", Some(7))]), "tun1", {"a"}) ==> t.table != 105 && t.mark != 6
  {
    hide Validated, NftApply, Assignments, Setup, Sample;
    OneProfileTargets(5);
    OneProfileTargets(7);
    Enabled([Sample("a", "tun1", Some(5))]);
    Enabled([Sample("a", "tun1", Some(7))]);
    DefaultIsNotA();
    var c1: ValidConfig, c2: ValidConfig := Setup([Sample("a", "tun1", Some(5))]), Setup([Sample("a", "tun1", Some(7))]);
    var ts1, ts2 := Assignments(c1, "tun1", {"a"}), Assignments(c2, "tun1", {"a"});
    assert ts1[1] in ts1;
    SameNamesMentioned(ts1, ts2);
    hide Mentions;
    SecondLoadLeaks(c1, c2, {"a"}, "tun1", ts1[1]);
  }

  lemma Enabled(ps: seq<Profile>)
    ensures Setup(ps).enabled
  {
  }

  lemma DefaultIsNotA()
    ensures "default" != "a" && "default" != "b" && "default" != "c" && "a" != "b" && "a" != "c" && "b" != "c"
  {
    assert "a"[0] == 'a' && "b"[0] == 'b' && "c"[0] == 'c';
  }

  lemma LoadsAgain(c: ValidConfig, w: World, s: State, outbound: string)
    requires w(s.clock).yes
    ensures NftApply(c, w, s, outbound).ok
  {
  }

  lemma SameNamesMentioned(ts: seq<Assignment>, us: seq<Assignment>)
    requires |ts| == |us| && forall i :: 0 <= i < |ts| ==> ts[i].name == us[i].name
    ensures forall n :: Mentions(ts, n) ==> Mentions(us, n)
  {
    forall n | Mentions(ts, n) ensures Mentions(us, n) {
      var t :| t in ts && t.name == n;
      var i :| 0 <= i < |ts| && ts[i] == t;
      assert us[i] in us && us[i].name == n;
    }
  }

  // --- The middle one of three profiles is deleted -------------------------

  const A := Sample("a", "tun1", None)
  const B := Sample("b", "tun2", None)
  const C := Sample("c", "tun3", None)

  lemma NamesAndPlaces()
    ensures IndexOf([A, B, C], "a") == 0 && IndexOf([A, B, C], "b") == 1 && IndexOf([A, B, C], "c") == 2
    ensures IndexOf([A, C], "a") == 0 && IndexOf([A, C], "c") == 1
    ensures SafeName("a") == "a" && SafeName("b") == "b" && SafeName("c") == "c"
  {
    DefaultIsNotA();
    assert [A, B, C][1..] == [B, C] && [B, C][1..] == [C] && [A, C][1..] == [C];
    assert "a"[1..] == "" && "b"[1..] == "" && "c"[1..] == "";
    assert IndexOf([C], "c") == 0 && IndexOf([B, C], "c") == 1;
  }

  lemma DevicesDiffer()
    ensures "tun1" != "tun2" && "tun1" != "tun3" && "tun2" != "tun3"
  {
    assert "tun1"[3] == '1' && "tun2"[3] == '2' && "tun3"[3] == '3';
  }

  lemma SampleValid(name: string, device: string)
    requires name in ["a", "b", "c"] && device != ""
    ensures ValidProfile(Sample(name, device, None))
  {
    assert "a"[0] == 'a' && "b"[0] == 'b' && "c"[0] == 'c';
  }

  lemma ThreeValid()
    ensures Validated(Setup([A, B, C])) && Validated(Setup([A, C]))
  {
    BaseIsOne([A, B, C]);
    BaseIsOne([A, C]);
    DefaultIsNotA();
    DevicesDiffer();
    NamesAndPlaces();
    SampleValid("a", "tun1");
    SampleValid("b", "tun2");
    SampleValid("c", "tun3");
    hide ValidProfile, IndexOf, SafeName;
    var c, d := Setup([A, B, C]), Setup([A, C]);
    forall i, j | 0 <= i < j < |c.profiles| ensures Apart(c, i, j) {
    }
    forall i, j | 0 <= i < j < |d.profiles| ensures Apart(d, i, j) {
    }
  }

  lemma ThreeTargets()
    ensures Validated(Setup([A, B, C])) && Validated(Setup([A, C]))
    ensures Assignments(Setup([A, B, C]), "tun1", {"a", "b", "c"})
         == [Assignment("default", 1, 100, "tun1"), Assignment("a", 2, 101, "tun1"), Assignment("b", 3, 102, "tun2"), Assignment("c", 4, 103, "tun3")]
    ensures Assignments(Setup([A, C]), "tun1", {"a", "b", "c"})
         == [Assignment("default", 1, 100, "tun1"), Assignment("a", 2, 101, "tun1"), Assignment("c", 3, 102, "tun3")]
  {
    ThreeValid();
    BaseIsOne([A, B, C]);
    BaseIsOne([A, C]);
    NamesAndPlaces();
    hide Validated, IndexOf, MarkValue;
    var names := {"a", "b", "c"};
    var c: ValidConfig, d: ValidConfig := Setup([A, B, C]), Setup([A, C]);
    assert [A, B, C][1..] == [B, C] && [B, C][1..] == [C] && [C][1..] == [] && [A, C][1..] == [C];
    assert NamedAssignments(c, [C], names) == [Assignment("c", 4, 103, "tun3")] + NamedAssignments(c, [], names);
    assert NamedAssignments(c, [B, C], names) == [Assignment("b", 3, 102, "tun2")] + NamedAssignments(c, [C], names);
    assert NamedAssignments(c, [A, B, C], names) == [Assignment("a", 2, 101, "tun1")] + NamedAssignments(c, [B, C], names);
    assert NamedAssignments(d, [C], names) == [Assignment("c", 3, 102, "tun3")] + NamedAssignments(d, [], names);
    assert NamedAssignments(d, [A, C], names) == [Assignment("a", 2, 101, "tun1")] + NamedAssignments(d, [C], names);
  }

  lemma DeletingB()
    ensures ProfileEdits.Deleted(Setup([A, B, C]), "b") == Setup([A, C])
  {
    DefaultIsNotA();
    assert [A, B, C][1..] == [B, C] && [B, C][1..] == [C] && [C][1..] == [];
    assert ProfileEdits.Without([C], "b") == [C] && ProfileEdits.Without([B, C], "b") == [C];
  }

  lemma OffsetsMove()
    ensures Offset(Setup([A, B, C]), C) == 3 && Offset(Setup([A, C]), C) == 2
  {
    NamesAndPlaces();
    hide IndexOf;
  }

  /**
    The third profile takes over the mark and table of the deleted second one.
    The apply re-asserts them for it and then, cleaning up after the vanished
    name, takes its rule away again.
   */
  lemma DeletionTakesNeighboursRule()
    ensures Validated(Setup([A, B, C])) && ProfileEdits.Deleted(Setup([A, B, C]), "b") == Setup([A, C]) && Validated(Setup([A, C]))
    ensures Offset(Setup([A, B, C]), C) == 3 && Offset(Setup([A, C]), C) == 2
    ensures
      var w := Loading({"a", "b", "c"});
      var s1 := NftApply(Setup([A, B, C]), w, START, "tun1");
      var s2 := NftApply(Setup([A, C]), w, s1.state, "tun1");
      && s1.ok && s2.ok
      && Assignment("c", 3, 102, "tun3") in Reasserted(Setup([A, C]), Assignments(Setup([A, C]), "tun1", {"a", "b", "c"}))
      && OwnRule(3, 102) !in s2.state.kernel.rules
  {
    OffsetsMove();
    hide Validated, NftApply, Assignments, Setup, Sample, IndexOf, SafeName;
    DeletingB();
    ThreeTargets();
    DefaultIsNotA();
    Enabled([A, B, C]);
    Enabled([A, C]);
    var c: ValidConfig, d: ValidConfig := Setup([A, B, C]), Setup([A, C]);
    var ts, us := Assignments(c, "tun1", {"a", "b", "c"}), Assignments(d, "tun1", {"a", "b", "c"});
    assert ts[2] in ts && us[2] in us && !Mentions(us, "b");
    hide Mentions;
    SecondLoadRemoves(c, d, {"a", "b", "c"}, "tun1", ts[2]);
  }
}
