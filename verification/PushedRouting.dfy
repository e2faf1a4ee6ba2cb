/**
  Server-pushed lists: a hook stores them without any lock, and any number of
  processes fingerprint the store, render nftables and dnsmasq from it under the
  upstream lock, and finally record the fingerprint they had read *before*
  taking the lock (services/upstream.py, `record_vpnc_event` and
  `apply_server_routing_if_changed`; services/upstream_pushed.py).

  Files are read one profile at a time, so a fingerprint or a rendering may mix
  contents that were never in the store together.
 */
module PushedRouting {
  import opened Options

  /** What one profile contributes to fingerprint and rendering. */
  datatype Lists = Lists(routes: seq<string>, domains: seq<string>, dns: seq<string>)

  /** One version number per profile. */
  type Versions = seq<nat>

  datatype Applier =
    | Idle
    | Fingerprinting(force: bool, seen: Versions)
    | Waiting(fp: Option<Versions>)
    | RenderingNft(fp: Option<Versions>, seen: Versions)
    | RenderingDns(mark: Versions, seen: Versions)
    | Marking(mark: Versions)

  /**
    `history[k]` is every content profile k's file has held, the last one being
    current. Outputs and the applied marker are recorded by version; what the
    programs compare is the hash of the contents behind the versions.
   */
  datatype State = State(
    history: seq<seq<Lists>>,
    nftOut: Versions,
    dnsOut: Versions,
    marker: Versions,
    lock: Option<nat>,
    appliers: map<nat, Applier>)

  /** Hashing is a foreign function; dnsActive is the configured `dns_tunnel_active()`. */
  datatype Setting = Setting(hash: seq<Lists> -> string, dnsActive: bool)

  ghost predicate CollisionFree(g: Setting) {
    forall a, b :: g.hash(a) == g.hash(b) ==> a == b
  }

  // --- Versions and contents -----------------------------------------------

  ghost predicate Stored(s: State) {
    forall k :: 0 <= k < |s.history| ==> |s.history[k]| > 0
  }

  function Current(s: State): (v: Versions)
    requires Stored(s)
    ensures |v| == |s.history|
  {
    seq(|s.history|, k requires 0 <= k < |s.history| => |s.history[k]| - 1)
  }

  /** Versions of the first |v| profiles that exist in the store. */
  ghost predicate Known(s: State, v: Versions) {
    |v| <= |s.history| && forall k :: 0 <= k < |v| ==> v[k] < |s.history[k]|
  }

  function Contents(s: State, v: Versions): (c: seq<Lists>)
    requires Known(s, v)
    ensures |c| == |v|
  {
    seq(|v|, k requires 0 <= k < |v| => s.history[k][v[k]])
  }

  /** Every version in `v` is at least as new as its counterpart in `floor`. */
  ghost predicate NoOlder(v: Versions, floor: Versions) {
    |v| <= |floor| && forall k :: 0 <= k < |v| ==> v[k] >= floor[k]
  }

  // --- Steps ---------------------------------------------------------------

  datatype Action =
    | HookWrites(profile: nat, lists: Lists)
    | Begin(who: nat, force: bool)
    | BeginPlain(who: nat)                 // a switch or connect: renders nftables, marks nothing
    | Read(who: nat)
    | Decide(who: nat)
    | Acquire(who: nat)
    | Load(who: nat, ok: bool)             // `nft -f`
    | WriteDns(who: nat)
    | Mark(who: nat)
    | Crash(who: nat)

  function Set(s: State, who: nat, a: Applier): State {
    s.(appliers := s.appliers[who := a])
  }

  function Release(s: State, who: nat): State {
    Set(s, who, Idle).(lock := if s.lock == Some(who) then None else s.lock)
  }

  function ReadNext(s: State, seen: Versions): Versions
    requires Stored(s)
  {
    if |seen| < |s.history| then seen + [|s.history[|seen|]| - 1] else seen
  }

  function Step(g: Setting, s: State, a: Action): (r: State)
    requires Wellformed(s)
    ensures |r.history| == |s.history|
  {
    match a
    case HookWrites(k, lists) =>
      if k < |s.history| && lists != s.history[k][|s.history[k]| - 1]
      then s.(history := s.history[k := s.history[k] + [lists]]) else s
    case Begin(who, force) =>
      if who in s.appliers && s.appliers[who].Idle? then Set(s, who, Fingerprinting(force, [])) else s
    case BeginPlain(who) =>
      if who in s.appliers && s.appliers[who].Idle? then Set(s, who, Waiting(None)) else s
    case Read(who) =>
      if who !in s.appliers then s
      else (match s.appliers[who]
            case Fingerprinting(force, seen) => Set(s, who, Fingerprinting(force, ReadNext(s, seen)))
            case RenderingNft(fp, seen) => Set(s, who, RenderingNft(fp, ReadNext(s, seen)))
            case RenderingDns(mark, seen) => Set(s, who, RenderingDns(mark, ReadNext(s, seen)))
            case _ => s)
    case Decide(who) =>
      if who in s.appliers && s.appliers[who].Fingerprinting? && |s.appliers[who].seen| == |s.history| then
        var p := s.appliers[who];
        if !p.force && g.hash(Contents(s, p.seen)) == g.hash(Contents(s, s.marker))
        then Set(s, who, Idle) else Set(s, who, Waiting(Some(p.seen)))
      else s
    case Acquire(who) =>
      if who in s.appliers && s.appliers[who].Waiting? && s.lock == None
      then Set(s, who, RenderingNft(s.appliers[who].fp, [])).(lock := Some(who)) else s
    case Load(who, ok) =>
      if who in s.appliers && s.appliers[who].RenderingNft? && |s.appliers[who].seen| == |s.history| then
        var p := s.appliers[who];
        if !ok then Release(s, who)
        else
          var s1 := s.(nftOut := p.seen);
          if p.fp.None? then Release(s1, who)
          else Set(s1, who, if g.dnsActive then RenderingDns(p.fp.value, []) else Marking(p.fp.value))
      else s
    case WriteDns(who) =>
      if who in s.appliers && s.appliers[who].RenderingDns? && |s.appliers[who].seen| == |s.history|
      then Set(s.(dnsOut := s.appliers[who].seen), who, Marking(s.appliers[who].mark)) else s
    case Mark(who) =>
      if who in s.appliers && s.appliers[who].Marking?
      then Release(s.(marker := s.appliers[who].mark), who) else s
    case Crash(who) =>
      if who in s.appliers then Release(s, who) else s
  }

  // --- The invariant -------------------------------------------------------

  ghost predicate Holds(s: State, who: nat) {
    who in s.appliers && (s.appliers[who].RenderingNft? || s.appliers[who].RenderingDns? || s.appliers[who].Marking?)
  }

  /** What an applier has seen exists, and a rendering never sees anything older than fingerprint or marker. */
  ghost predicate ApplierFits(s: State, a: Applier) {
    match a
    case Idle => true
    case Fingerprinting(_, seen) => Known(s, seen)
    case Waiting(fp) => fp.Some? ==> Known(s, fp.value) && |fp.value| == |s.history|
    case RenderingNft(fp, seen) =>
      && Known(s, seen) && NoOlder(seen, s.marker)
      && (fp.Some? ==> Known(s, fp.value) && |fp.value| == |s.history| && NoOlder(seen, fp.value))
    case RenderingDns(mark, seen) =>
      && Known(s, seen) && NoOlder(seen, s.marker) && NoOlder(seen, mark)
      && Known(s, mark) && |mark| == |s.history| && NoOlder(s.nftOut, mark)
    case Marking(mark) =>
      && Known(s, mark) && |mark| == |s.history|
      && NoOlder(s.nftOut, mark)
  }

  ghost predicate Wellformed(s: State) {
    && Stored(s)
    && Known(s, s.nftOut) && Known(s, s.dnsOut) && Known(s, s.marker)
    && |s.nftOut| == |s.dnsOut| == |s.marker| == |s.history|
    && (forall w :: w in s.appliers ==> ApplierFits(s, s.appliers[w]))
    && (forall w: nat :: Holds(s, w) ==> s.lock == Some(w))
  }

  /** The outputs are never older than what the marker claims to have been applied. */
  ghost predicate Covered(g: Setting, s: State) {
    && NoOlder(s.nftOut, s.marker)
    && (g.dnsActive ==> NoOlder(s.dnsOut, s.marker))
    && (forall w :: w in s.appliers ==> Backed(g, s, s.appliers[w]))
  }

  /** Whoever is about to set the marker has written the dnsmasq file from contents that new. */
  ghost predicate Backed(g: Setting, s: State, a: Applier) {
    g.dnsActive && a.Marking? ==> NoOlder(s.dnsOut, a.mark)
  }

  lemma ReadNextFits(s: State, seen: Versions, floor: Versions)
    requires Stored(s) && Known(s, seen) && Known(s, floor) && |floor| == |s.history|
    ensures Known(s, ReadNext(s, seen))
    ensures NoOlder(seen, floor) ==> NoOlder(ReadNext(s, seen), floor)
  {
  }

  /** A longer history keeps every version meaningful. */
  lemma WriteKeeps(g: Setting, s: State, k: nat, lists: Lists)
    requires Wellformed(s) && Covered(g, s)
    ensures
      var r := Step(g, s, HookWrites(k, lists));
      Wellformed(r) && Covered(g, r)
  {
    var r := Step(g, s, HookWrites(k, lists));
    forall v | Known(s, v) ensures Known(r, v) {}
    forall w | w in r.appliers ensures ApplierFits(r, r.appliers[w]) {
      assert ApplierFits(s, s.appliers[w]);
    }
    forall w: nat | Holds(r, w) ensures r.lock == Some(w) {
      assert Holds(s, w);
    }
  }

  /** Reading one more file keeps a reader's promises: files only ever get newer. */
  lemma ReadKeeps(g: Setting, s: State, who: nat)
    requires Wellformed(s) && who in s.appliers
    ensures ApplierFits(s, Step(g, s, Read(who)).appliers[who])
  {
    assert ApplierFits(s, s.appliers[who]);
    match s.appliers[who]
    case RenderingNft(fp, seen) =>
      ReadNextFits(s, seen, s.marker);
      if fp.Some? { ReadNextFits(s, seen, fp.value); }
    case RenderingDns(mark, seen) =>
      ReadNextFits(s, seen, s.marker);
      ReadNextFits(s, seen, mark);
    case Fingerprinting(_, seen) =>
      ReadNextFits(s, seen, s.marker);
    case _ =>
  }

  /** The acting process keeps its own promises. */
  lemma ActorKeeps(g: Setting, s: State, a: Action)
    requires Wellformed(s) && Covered(g, s) && !a.HookWrites? && a.who in s.appliers
    ensures
      var r := Step(g, s, a);
      ApplierFits(r, r.appliers[a.who]) && (Holds(r, a.who) ==> r.lock == Some(a.who))
  {
    assert ApplierFits(s, s.appliers[a.who]);
    if Holds(s, a.who) {
      assert s.lock == Some(a.who);
    }
    if a.Read? {
      ReadKeeps(g, s, a.who);
      hide ApplierFits;
    }
  }

  lemma OutputsStayKnown(g: Setting, s: State, a: Action)
    requires Wellformed(s) && !a.HookWrites? && a.who in s.appliers
    ensures
      var r := Step(g, s, a);
      && Known(r, r.nftOut) && Known(r, r.dnsOut) && Known(r, r.marker)
      && |r.nftOut| == |r.dnsOut| == |r.marker| == |r.history|
  {
    assert ApplierFits(s, s.appliers[a.who]);
    assert Step(g, s, a).history == s.history;
  }

  lemma OutputsStayCovered(g: Setting, s: State, a: Action)
    requires Wellformed(s) && Covered(g, s) && !a.HookWrites? && a.who in s.appliers
    ensures
      var r := Step(g, s, a);
      NoOlder(r.nftOut, r.marker) && (g.dnsActive ==> NoOlder(r.dnsOut, r.marker))
  {
    hide Known;
    assert ApplierFits(s, s.appliers[a.who]) && Backed(g, s, s.appliers[a.who]);
  }

  /** Outputs and marker stay meaningful and covered. */
  lemma OutputsKeep(g: Setting, s: State, a: Action)
    requires Wellformed(s) && Covered(g, s) && !a.HookWrites? && a.who in s.appliers
    ensures
      var r := Step(g, s, a);
      && Known(r, r.nftOut) && Known(r, r.dnsOut) && Known(r, r.marker)
      && |r.nftOut| == |r.dnsOut| == |r.marker| == |r.history|
      && NoOlder(r.nftOut, r.marker) && (g.dnsActive ==> NoOlder(r.dnsOut, r.marker))
  {
    hide Known, NoOlder, Step, Wellformed, Covered;
    OutputsStayKnown(g, s, a);
    OutputsStayCovered(g, s, a);
  }

  lemma BackedKeep(g: Setting, s: State, a: Action)
    requires Wellformed(s) && Covered(g, s) && !a.HookWrites? && a.who in s.appliers
    ensures forall w :: w in s.appliers ==> Backed(g, Step(g, s, a), Step(g, s, a).appliers[w])
  {
    var r := Step(g, s, a);
    assert ApplierFits(s, s.appliers[a.who]);
    forall w | w in s.appliers ensures Backed(g, r, r.appliers[w]) {
      assert Backed(g, s, s.appliers[w]);
      if w != a.who && Holds(s, w) && Holds(s, a.who) {
        assert s.lock == Some(w) && s.lock == Some(a.who);
      }
    }
  }

  lemma StepKeeps(g: Setting, s: State, a: Action)
    requires Wellformed(s) && Covered(g, s)
    ensures Wellformed(Step(g, s, a)) && Covered(g, Step(g, s, a))
  {
    hide ApplierFits, Known, NoOlder, Backed;
    if a.HookWrites? {
      WriteKeeps(g, s, a.profile, a.lists);
    } else if a.who in s.appliers {
      ActorKeeps(g, s, a);
      OthersKeep(g, s, a);
      OutputsKeep(g, s, a);
      BackedKeep(g, s, a);
    }
  }

  /** Whoever does not hold the lock is not affected by what the holder changes. */
  lemma OthersKeep(g: Setting, s: State, a: Action)
    requires Wellformed(s) && Covered(g, s) && !a.HookWrites? && a.who in s.appliers
    ensures
      var r := Step(g, s, a);
      forall w :: w in r.appliers && w != a.who ==>
        && r.appliers[w] == s.appliers[w]
        && ApplierFits(r, r.appliers[w])
        && (Holds(r, w) ==> r.lock == Some(w))
  {
    var r := Step(g, s, a);
    assert r.history == s.history;
    forall w | w in r.appliers && w != a.who
      ensures r.appliers[w] == s.appliers[w] && ApplierFits(r, r.appliers[w]) && (Holds(r, w) ==> r.lock == Some(w))
    {
      assert ApplierFits(s, s.appliers[w]);
      if Holds(s, w) {
        assert s.lock == Some(w) && !Holds(s, a.who);
      }
    }
  }

  /** A load that fails gives the lock back and has no effect on outputs and marker; only `Mark` ever moves the marker. */
  lemma FailedLoadLeavesOutputs(g: Setting, s: State, a: Action)
    requires Wellformed(s)
    ensures
      var r := Step(g, s, a);
      && (a.Load? && !a.ok ==> r.nftOut == s.nftOut && r.dnsOut == s.dnsOut && r.history == s.history)
      && (a.Load? && !a.ok && a.who in s.appliers && r != s ==> r.appliers[a.who] == Idle && r.lock != Some(a.who))
      && (!a.Mark? ==> r.marker == s.marker)
      && (!a.HookWrites? ==> r.history == s.history)
  {
    hide ApplierFits, Known, NoOlder;
  }
}
