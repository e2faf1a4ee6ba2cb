/**
  Editing the profile list (api/routes_upstream.py): a save replaces a profile
  in place or appends it, a delete closes the gap.
 */
module ProfileEdits {
  import opened Options
  import opened Profiles
  import opened Text

  /** `save_profile`: every profile of that name is replaced, and an unknown one goes to the end. */
  function Replaced(ps: seq<Profile>, p: Profile): (r: seq<Profile>)
    ensures |r| == |ps|
  {
    seq(|ps|, i requires 0 <= i < |ps| => if ps[i].name == p.name then p else ps[i])
  }

  function Saved(c: Config, p: Profile): Config {
    var ps := Replaced(c.profiles, p);
    c.(profiles := if IndexOf(c.profiles, p.name) < |c.profiles| then ps else ps + [p])
  }

  /** `delete_profile`, as far as the list is concerned. */
  function Without(ps: seq<Profile>, name: string): seq<Profile> {
    if ps == [] then []
    else (if ps[0].name == name then [] else [ps[0]]) + Without(ps[1..], name)
  }

  function Deleted(c: Config, name: string): Config {
    c.(profiles := Without(c.profiles, name))
  }

  /** Everything the kernel, nftables and openconnect know a profile by. */
  ghost predicate SameHandles(c: Config, c': Config, p: Profile, p': Profile)
    requires IsMark(c.fwmark) && IsMark(c'.fwmark)
  {
    && MarkText(c, Offset(c, p)) == MarkText(c', Offset(c', p'))
    && c.tableId + Offset(c, p) == c'.tableId + Offset(c', p')
    && Device(c, p) == Device(c', p')
    && SafeName(p.name) == SafeName(p'.name)
  }

  lemma {:induction false} IndexUnique(ps: seq<Profile>, name: string, i: nat)
    requires i < |ps| && ps[i].name == name && forall k :: 0 <= k < i ==> ps[k].name != name
    ensures IndexOf(ps, name) == i
  {
    if i > 0 {
      IndexUnique(ps[1..], name, i - 1);
    }
  }

  /** A save never moves a profile that was there before. */
  lemma SaveKeepsPositions(c: Config, p: Profile, name: string)
    requires IndexOf(c.profiles, name) < |c.profiles|
    ensures IndexOf(Saved(c, p).profiles, name) == IndexOf(c.profiles, name)
  {
    var i := IndexOf(c.profiles, name);
    IndexUnique(Saved(c, p).profiles, name, i);
  }

  /** A profile is known by its name, its explicit settings and its position. */
  lemma SamePlace(c: Config, c': Config, p: Profile, p': Profile)
    requires IsMark(c.fwmark) && c' == c.(profiles := c'.profiles)
    requires p' == p || (p'.name == p.name && p'.interface == p.interface && p'.routingOffset == p.routingOffset)
    requires IndexOf(c'.profiles, p.name) == IndexOf(c.profiles, p.name) < |c.profiles| <= |c'.profiles|
    ensures SameHandles(c, c', p, p')
  {
    hide IndexOf, HexPadded, MarkValue, IsMark, SafeName, Decimal;
  }

  lemma SavedStays(c: Config, p: Profile, q: Profile)
    requires q in c.profiles
    ensures IndexOf(Saved(c, p).profiles, q.name) == IndexOf(c.profiles, q.name) < |c.profiles| <= |Saved(c, p).profiles|
    ensures (if q.name == p.name then p else q) in Saved(c, p).profiles
  {
    var i :| 0 <= i < |c.profiles| && c.profiles[i] == q;
    assert Saved(c, p).profiles[i] == if q.name == p.name then p else q;
    SaveKeepsPositions(c, p, q.name);
  }

  /** Saving one profile changes no other profile's mark, table, device or set names. */
  lemma SaveKeepsOthers(c: Config, p: Profile, q: Profile)
    requires IsMark(c.fwmark) && q in c.profiles && q.name != p.name
    ensures q in Saved(c, p).profiles && SameHandles(c, Saved(c, p), q, q)
  {
    hide SameHandles, IndexOf, IsMark;
    SavedStays(c, p, q);
    SamePlace(c, Saved(c, p), q, q);
  }

  /** Nor its own, as long as the explicit device and offset are carried over; a live tunnel keeps its identity. */
  lemma SaveKeepsOwn(c: Config, p: Profile, q: Profile)
    requires IsMark(c.fwmark) && q in c.profiles && q.name == p.name
    requires p.interface == q.interface && p.routingOffset == q.routingOffset
    ensures p in Saved(c, p).profiles && SameHandles(c, Saved(c, p), q, p)
  {
    hide SameHandles, IndexOf, IsMark;
    SavedStays(c, p, q);
    SamePlace(c, Saved(c, p), q, p);
  }

  // --- Deleting ------------------------------------------------------------

  lemma IndexAfter(p: Profile, rest: seq<Profile>, name: string)
    ensures IndexOf([p] + rest, name) == if p.name == name then 0 else 1 + IndexOf(rest, name)
  {
    assert ([p] + rest)[1..] == rest;
  }

  lemma {:induction false} DeleteShiftsIndex(ps: seq<Profile>, name: string, other: string)
    requires name != other
    requires forall i, j :: 0 <= i < j < |ps| ==> ps[i].name != ps[j].name
    requires IndexOf(ps, name) < |ps| && IndexOf(ps, other) < |ps|
    ensures IndexOf(Without(ps, name), other) < |Without(ps, name)|
    ensures IndexOf(Without(ps, name), other)
         == if IndexOf(ps, name) < IndexOf(ps, other) then IndexOf(ps, other) - 1 else IndexOf(ps, other)
  {
    hide IndexOf, Without;
    var tail := ps[1..];
    assert ps == [ps[0]] + tail;
    IndexAfter(ps[0], tail, name);
    IndexAfter(ps[0], tail, other);
    WithoutFirst(ps, name);
    if ps[0].name == name {
      forall i | 0 <= i < |tail| ensures tail[i].name != name { assert ps[0].name != ps[i + 1].name; }
      NothingToDelete(tail, name);
    } else {
      IndexAfter(ps[0], Without(tail, name), other);
      if ps[0].name != other {
        forall i, j | 0 <= i < j < |tail| ensures tail[i].name != tail[j].name { assert ps[i + 1].name != ps[j + 1].name; }
        DeleteShiftsIndex(tail, name, other);
      }
    }
  }

  lemma WithoutFirst(ps: seq<Profile>, name: string)
    requires ps != []
    ensures Without(ps, name) == if ps[0].name == name then Without(ps[1..], name) else [ps[0]] + Without(ps[1..], name)
  {
  }

  lemma {:induction false} NothingToDelete(ps: seq<Profile>, name: string)
    requires forall i :: 0 <= i < |ps| ==> ps[i].name != name
    ensures Without(ps, name) == ps
  {
    if ps != [] {
      NothingToDelete(ps[1..], name);
    }
  }

  lemma DeletedPosition(c: ValidConfig, gone: Profile, q: Profile)
    requires gone in c.profiles && q in c.profiles && q != gone
    ensures
      var c' := Deleted(c, gone.name);
      var i, g := IndexOf(c.profiles, q.name), IndexOf(c.profiles, gone.name);
      && i < |c.profiles| && i != g && IndexOf(c'.profiles, q.name) < |c'.profiles|
      && IndexOf(c'.profiles, q.name) == if g < i then i - 1 else i
  {
    if gone.name == q.name {
      NameIdentifies(c, gone, q);
    }
    forall i, j | 0 <= i < j < |c.profiles| ensures c.profiles[i].name != c.profiles[j].name { assert Apart(c, i, j); }
    assert IndexOf(c.profiles, gone.name) < |c.profiles| && IndexOf(c.profiles, q.name) < |c.profiles|;
    DeleteShiftsIndex(c.profiles, gone.name, q.name);
  }

  /**
    Deleting a profile renumbers exactly the later profiles without an explicit
    offset: their mark and table move although nothing of theirs was edited.
   */
  lemma DeleteRenumbersIff(c: ValidConfig, gone: Profile, q: Profile)
    requires gone in c.profiles && q in c.profiles && q != gone
    ensures
      var c' := Deleted(c, gone.name);
      Offset(c', q) == Offset(c, q)
      <==> q.routingOffset.Some? || IndexOf(c.profiles, q.name) < IndexOf(c.profiles, gone.name)
  {
    hide IndexOf, Validated;
    DeletedPosition(c, gone, q);
  }

  /**
    And renames the device of exactly the later profiles without an explicit
    one -- but for the second profile, if the top-level device it moves to is
    called like the one it had.
   */
  lemma DeleteMovesDeviceIff(c: ValidConfig, gone: Profile, q: Profile)
    requires gone in c.profiles && q in c.profiles && q != gone
    ensures
      var c' := Deleted(c, gone.name);
      var i := IndexOf(c.profiles, q.name);
      Device(c', q) == Device(c, q)
      <==> q.interface.Some? || i < IndexOf(c.profiles, gone.name) || (i == 1 && c.interface == "oc-up" + Decimal(1))
  {
    hide IndexOf, Validated, Decimal;
    DeletedPosition(c, gone, q);
    var i := IndexOf(c.profiles, q.name);
    if i > 1 && "oc-up" + Decimal(i) == "oc-up" + Decimal(i - 1) {
      assert ("oc-up" + Decimal(i))[5..] == Decimal(i) && ("oc-up" + Decimal(i - 1))[5..] == Decimal(i - 1);
      DecimalInjective(i, i - 1);
    }
  }

  // --- What becomes of the list --------------------------------------------

  /** A profile of a new name goes to the end; one of a known name takes the place of the old one. */
  lemma SavedList(c: Config, p: Profile)
    requires forall i, j :: 0 <= i < j < |c.profiles| ==> c.profiles[i].name != c.profiles[j].name
    ensures
      var i := IndexOf(c.profiles, p.name);
      Saved(c, p).profiles == if i == |c.profiles| then c.profiles + [p] else c.profiles[i := p]
  {
    hide IndexOf;
    var i := IndexOf(c.profiles, p.name);
    assert Replaced(c.profiles, p) == if i == |c.profiles| then c.profiles else c.profiles[i := p];
  }

  /** A delete takes out that one profile and keeps the others in order. */
  lemma {:induction false} WithoutIsGap(ps: seq<Profile>, name: string)
    requires forall i, j :: 0 <= i < j < |ps| ==> ps[i].name != ps[j].name
    ensures
      var i := IndexOf(ps, name);
      Without(ps, name) == if i == |ps| then ps else ps[..i] + ps[i + 1..]
  {
    if ps == [] {
      assert IndexOf(ps, name) == 0;
    } else {
      hide IndexOf, Without;
      var tail := ps[1..];
      assert ps == [ps[0]] + tail;
      IndexAfter(ps[0], tail, name);
      WithoutFirst(ps, name);
      if ps[0].name == name {
        forall i | 0 <= i < |tail| ensures tail[i].name != name { assert ps[0].name != ps[i + 1].name; }
        NothingToDelete(tail, name);
      } else {
        forall i, j | 0 <= i < j < |tail| ensures tail[i].name != tail[j].name { assert ps[i + 1].name != ps[j + 1].name; }
        WithoutIsGap(tail, name);
        var i := IndexOf(tail, name);
        assert i < |tail| ==> ps[..i + 1] == [ps[0]] + tail[..i] && ps[i + 2..] == tail[i + 1..];
      }
    }
  }
}
