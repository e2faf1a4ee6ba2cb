/** No update of the pushed lists is lost, and exactly when one can be. */
module PushedRoutingRuns {
  import opened Options
  import opened PushedRouting

  function Run(g: Setting, s: State, actions: seq<Action>): (r: State)
    requires Wellformed(s) && Covered(g, s)
    ensures Wellformed(r) && Covered(g, r) && |r.history| == |s.history|
    decreases |actions|
  {
    if actions == [] then s
    else
      StepKeeps(g, s, actions[0]);
      Run(g, Step(g, s, actions[0]), actions[1..])
  }

  /** Nobody will re-apply, because marker and store agree -- yet an output is not what the store says. */
  ghost predicate Lost(g: Setting, s: State)
    requires Wellformed(s)
  {
    && g.hash(Contents(s, s.marker)) == g.hash(Contents(s, Current(s)))
    && (Contents(s, s.nftOut) != Contents(s, Current(s))
        || (g.dnsActive && Contents(s, s.dnsOut) != Contents(s, Current(s))))
  }

  /** No file ever returns to a content it has held before (rewriting the current one is harmless). */
  ghost predicate NoRepeats(s: State) {
    forall k :: 0 <= k < |s.history| ==> Distinct(s.history[k])
  }

  /**
    With any number of appliers and lock-free hook writes interleaved at the
    granularity of single file reads: as long as no content repeats, whenever
    the marker equals the store's fingerprint both outputs were rendered from
    the store as it is now.
   */
  lemma NoLostUpdate(g: Setting, s: State, actions: seq<Action>)
    requires CollisionFree(g) && Wellformed(s) && Covered(g, s)
    requires NoRepeats(Run(g, s, actions))
    ensures !Lost(g, Run(g, s, actions))
  {
    var r := Run(g, s, actions);
    var now := Current(r);
    if g.hash(Contents(r, r.marker)) == g.hash(Contents(r, now)) {
      forall k | 0 <= k < |now| ensures r.marker[k] == now[k] {
        assert Contents(r, r.marker)[k] == Contents(r, now)[k];
        assert Distinct(r.history[k]);
      }
      assert r.nftOut == now;
      assert g.dnsActive ==> r.dnsOut == now;
    }
  }

  // --- The condition is exact ----------------------------------------------

  /** Version `j` of profile `k`, the first version of every other one. */
  function Only(n: nat, k: nat, j: nat): (v: Versions)
    ensures |v| == n && forall i :: 0 <= i < n ==> v[i] == if i == k then j else 0
  {
    seq(n, i => if i == k then j else 0)
  }

  /** A freshly started installation: everything rendered from the first contents, one idle applier. */
  function Fresh(hs: seq<seq<Lists>>): State
    requires forall k :: 0 <= k < |hs| ==> hs[k] != []
  {
    State(seq(|hs|, k requires 0 <= k < |hs| => hs[k][..1]),
          Only(|hs|, 0, 0), Only(|hs|, 0, 0), Only(|hs|, 0, 0), None, map[0 := Idle])
  }

  ghost predicate AllStarted(hs: seq<seq<Lists>>) {
    forall k :: 0 <= k < |hs| ==> hs[k] != []
  }

  lemma FreshFits(g: Setting, hs: seq<seq<Lists>>)
    requires AllStarted(hs)
    ensures Wellformed(Fresh(hs)) && Covered(g, Fresh(hs))
  {
  }

  /** The files of `s` have so far held beginnings of `hs`. */
  ghost predicate Writing(s: State, hs: seq<seq<Lists>>) {
    |s.history| == |hs| && forall k :: 0 <= k < |hs| ==> s.history[k] <= hs[k]
  }

  /** Whatever the interleaving, writing each `hs[k]` (or a beginning of it) in its order loses nothing. */
  ghost predicate NeverLost(g: Setting, hs: seq<seq<Lists>>)
    requires AllStarted(hs)
  {
    FreshFits(g, hs);
    forall actions :: Writing(Run(g, Fresh(hs), actions), hs) ==> !Lost(g, Run(g, Fresh(hs), actions))
  }

  ghost predicate NoStutter(h: seq<Lists>) {
    forall k :: 0 < k < |h| ==> h[k] != h[k - 1]
  }

  function Writes(k: nat, ls: seq<Lists>): (actions: seq<Action>)
    ensures |actions| == |ls|
  {
    seq(|ls|, i requires 0 <= i < |ls| => HookWrites(k, ls[i]))
  }

  lemma {:induction false} RunAppend(g: Setting, s: State, a: seq<Action>, b: seq<Action>)
    requires Wellformed(s) && Covered(g, s)
    ensures Run(g, s, a + b) == Run(g, Run(g, s, a), b)
    decreases |a|
  {
    hide Step, Wellformed, Covered;
    if a == [] {
      assert a + b == b;
    } else {
      StepKeeps(g, s, a[0]);
      RunAppend(g, Step(g, s, a[0]), a[1..], b);
      assert (a + b)[1..] == a[1..] + b;
    }
  }

  lemma RunOne(g: Setting, s: State, a: Action)
    requires Wellformed(s) && Covered(g, s)
    ensures Run(g, s, [a]) == Step(g, s, a)
  {
    hide Step, Wellformed, Covered;
    StepKeeps(g, s, a);
    assert [a][1..] == [];
  }

  /** `t` is one action, then `r` the rest. */
  lemma Prepend(g: Setting, s: State, a: Action, rest: seq<Action>)
    requires Wellformed(s) && Covered(g, s)
    ensures Wellformed(Step(g, s, a)) && Covered(g, Step(g, s, a))
    ensures Run(g, s, [a] + rest) == Run(g, Step(g, s, a), rest)
  {
    hide Step, Wellformed, Covered;
    StepKeeps(g, s, a);
    assert ([a] + rest)[1..] == rest;
  }

  lemma {:induction false} RunWrites(g: Setting, s: State, k: nat, ls: seq<Lists>)
    requires Wellformed(s) && Covered(g, s) && k < |s.history| && NoStutter(s.history[k] + ls)
    ensures Run(g, s, Writes(k, ls)) == s.(history := s.history[k := s.history[k] + ls])
    decreases |ls|
  {
    var h := s.history[k];
    if ls == [] {
      assert h + ls == h && s.history[k := h] == s.history;
    } else {
      StepKeeps(g, s, HookWrites(k, ls[0]));
      assert (h + ls)[|h|] == ls[0] && (h + ls)[|h| - 1] == h[|h| - 1];
      var s1 := Step(g, s, HookWrites(k, ls[0]));
      assert s1 == s.(history := s.history[k := h + [ls[0]]]);
      hide Step, Wellformed, Covered;
      assert h + [ls[0]] + ls[1..] == h + ls;
      RunWrites(g, s1, k, ls[1..]);
      assert Writes(k, ls)[1..] == Writes(k, ls[1..]);
      assert s1.history[k := h + ls] == s.history[k := h + ls];
    }
  }

  /** The store after versions 0..j of `h` have been written for profile `k`, nothing else having moved. */
  function Stage(s: State, k: nat, h: seq<Lists>, j: nat): State
    requires k < |s.history| && j < |h|
  {
    s.(history := s.history[k := h[..j + 1]])
  }

  lemma RunToStage(g: Setting, s: State, k: nat, h: seq<Lists>, i: nat, j: nat)
    requires k < |s.history| && i <= j < |h| && NoStutter(h)
    requires Wellformed(Stage(s, k, h, i)) && Covered(g, Stage(s, k, h, i))
    ensures Run(g, Stage(s, k, h, i), Writes(k, h[i + 1..j + 1])) == Stage(s, k, h, j)
    ensures Wellformed(Stage(s, k, h, j)) && Covered(g, Stage(s, k, h, j))
  {
    hide Wellformed, Covered;
    assert h[..i + 1] + h[i + 1..j + 1] == h[..j + 1];
    assert NoStutter(h[..j + 1]);
    RunWrites(g, Stage(s, k, h, i), k, h[i + 1..j + 1]);
    assert s.history[k := h[..i + 1]][k := h[..j + 1]] == s.history[k := h[..j + 1]];
  }

  predicate Reading(a: Applier) {
    a.Fingerprinting? || a.RenderingNft? || a.RenderingDns?
  }

  /** The same phase, having seen these versions. */
  function Saw(a: Applier, seen: Versions): Applier
    requires Reading(a)
  {
    match a
    case Fingerprinting(force, _) => Fingerprinting(force, seen)
    case RenderingNft(fp, _) => RenderingNft(fp, seen)
    case RenderingDns(mark, _) => RenderingDns(mark, seen)
  }

  /** Undisturbed, applier 0 reads on until it has seen the current version of every file. */
  lemma {:induction false} ReadAll(g: Setting, s: State, a: Applier, k: nat) returns (actions: seq<Action>)
    requires Wellformed(s) && Covered(g, s) && k <= |s.history|
    requires s.appliers == map[0 := a] && Reading(a) && a.seen == Current(s)[..k]
    ensures Run(g, s, actions) == s.(appliers := map[0 := Saw(a, Current(s))])
    decreases |s.history| - k
  {
    if k == |s.history| {
      actions := [];
      assert a.seen == Current(s) && Saw(a, Current(s)) == a;
    } else {
      var next := Saw(a, Current(s)[..k + 1]);
      assert Current(s)[..k + 1] == Current(s)[..k] + [Current(s)[k]];
      var s1 := Step(g, s, Read(0));
      assert s1 == s.(appliers := map[0 := next]);
      assert Current(s1) == Current(s);
      hide Step, Wellformed, Covered, Run;
      StepKeeps(g, s, Read(0));
      var rest := ReadAll(g, s1, next, k + 1);
      Prepend(g, s, Read(0), rest);
      actions := [Read(0)] + rest;
      assert s1.(appliers := map[0 := Saw(next, Current(s1))]) == s.(appliers := map[0 := Saw(a, Current(s))]);
    }
  }

  /** Applier 0 alone renders nftables from the current contents. */
  lemma PlainPass(g: Setting, s: State) returns (actions: seq<Action>)
    requires Wellformed(s) && Covered(g, s) && s.lock == None && s.appliers == map[0 := Idle]
    ensures Run(g, s, actions) == s.(nftOut := Current(s))
  {
    var waiting := s.(appliers := map[0 := Waiting(None)]);
    var begun := RenderingNft(None, []);
    var started := s.(appliers := map[0 := begun], lock := Some(0));
    assert Step(g, s, BeginPlain(0)) == waiting;
    StepKeeps(g, s, BeginPlain(0));
    assert Step(g, waiting, Acquire(0)) == started;
    StepKeeps(g, waiting, Acquire(0));
    assert Current(started) == Current(s) && Current(s)[..0] == [];
    var looks := ReadAll(g, started, begun, 0);
    var read := started.(appliers := map[0 := RenderingNft(None, Current(s))]);
    var last := [Load(0, true)];
    assert Wellformed(read) && Covered(g, read);
    assert Step(g, read, Load(0, true)) == s.(nftOut := Current(s));
    hide Wellformed, Covered, Run, Step;
    RunOne(g, read, Load(0, true));
    RunAppend(g, started, looks, last);
    Prepend(g, waiting, Acquire(0), looks + last);
    Prepend(g, s, BeginPlain(0), [Acquire(0)] + (looks + last));
    actions := [BeginPlain(0)] + ([Acquire(0)] + (looks + last));
  }

  /** Applier 0 reads the fingerprint of the current contents, and waits for the lock if it is new or the pass is forced. */
  lemma FingerprintPass(g: Setting, s: State, force: bool) returns (actions: seq<Action>)
    requires Wellformed(s) && Covered(g, s) && s.appliers == map[0 := Idle]
    requires Known(s, Current(s)) && Known(s, s.marker)
    ensures Run(g, s, actions)
         == if !force && g.hash(Contents(s, Current(s))) == g.hash(Contents(s, s.marker)) then s
            else s.(appliers := map[0 := Waiting(Some(Current(s)))])
  {
    var begun := Fingerprinting(force, []);
    var started := s.(appliers := map[0 := begun]);
    assert Step(g, s, Begin(0, force)) == started;
    StepKeeps(g, s, Begin(0, force));
    assert Current(started) == Current(s) && Current(s)[..0] == [];
    var looks := ReadAll(g, started, begun, 0);
    var read := started.(appliers := map[0 := Fingerprinting(force, Current(s))]);
    assert Wellformed(read) && Covered(g, read);
    assert Contents(read, Current(s)) == Contents(s, Current(s)) && Contents(read, read.marker) == Contents(s, s.marker);
    assert Step(g, read, Decide(0))
        == if !force && g.hash(Contents(s, Current(s))) == g.hash(Contents(s, s.marker)) then s
           else s.(appliers := map[0 := Waiting(Some(Current(s)))]);
    hide Wellformed, Covered, Run, Step;
    RunOne(g, read, Decide(0));
    RunAppend(g, started, looks, [Decide(0)]);
    Prepend(g, s, Begin(0, force), looks + [Decide(0)]);
    actions := [Begin(0, force)] + (looks + [Decide(0)]);
  }

  /** It gets the lock, and renders nftables from what the store holds by then. */
  lemma StaleNftPass(g: Setting, s: State, fp: Versions) returns (actions: seq<Action>)
    requires Wellformed(s) && Covered(g, s) && s.lock == None && s.appliers == map[0 := Waiting(Some(fp))]
    ensures Run(g, s, actions)
         == s.(nftOut := Current(s), lock := Some(0),
               appliers := map[0 := if g.dnsActive then RenderingDns(fp, []) else Marking(fp)])
  {
    var begun := RenderingNft(Some(fp), []);
    var started := s.(appliers := map[0 := begun], lock := Some(0));
    assert Step(g, s, Acquire(0)) == started;
    StepKeeps(g, s, Acquire(0));
    assert Current(started) == Current(s) && Current(s)[..0] == [];
    var looks := ReadAll(g, started, begun, 0);
    var read := started.(appliers := map[0 := RenderingNft(Some(fp), Current(s))]);
    assert Wellformed(read) && Covered(g, read);
    assert Step(g, read, Load(0, true))
        == s.(nftOut := Current(s), lock := Some(0),
              appliers := map[0 := if g.dnsActive then RenderingDns(fp, []) else Marking(fp)]);
    hide Wellformed, Covered, Run, Step;
    RunOne(g, read, Load(0, true));
    RunAppend(g, started, looks, [Load(0, true)]);
    Prepend(g, s, Acquire(0), looks + [Load(0, true)]);
    actions := [Acquire(0)] + (looks + [Load(0, true)]);
  }

  /** With dnsmasq active it renders that file too. */
  lemma StaleDnsPass(g: Setting, s: State, fp: Versions) returns (actions: seq<Action>)
    requires Wellformed(s) && Covered(g, s) && s.lock == Some(0) && s.appliers == map[0 := RenderingDns(fp, [])]
    ensures Run(g, s, actions) == s.(dnsOut := Current(s), appliers := map[0 := Marking(fp)])
  {
    var begun := RenderingDns(fp, []);
    assert Current(s)[..0] == [];
    var looks := ReadAll(g, s, begun, 0);
    var read := s.(appliers := map[0 := RenderingDns(fp, Current(s))]);
    assert Wellformed(read) && Covered(g, read);
    assert Step(g, read, WriteDns(0)) == s.(dnsOut := Current(s), appliers := map[0 := Marking(fp)]);
    hide Wellformed, Covered, Run, Step;
    RunOne(g, read, WriteDns(0));
    RunAppend(g, s, looks, [WriteDns(0)]);
    actions := looks + [WriteDns(0)];
  }

  lemma MarkPass(g: Setting, s: State, fp: Versions)
    requires Wellformed(s) && Covered(g, s) && s.lock == Some(0) && s.appliers == map[0 := Marking(fp)]
    ensures Run(g, s, [Mark(0)]) == s.(marker := fp, lock := None, appliers := map[0 := Idle])
  {
    assert Step(g, s, Mark(0)) == s.(marker := fp, lock := None, appliers := map[0 := Idle]);
    hide Wellformed, Covered, Run, Step;
    RunOne(g, s, Mark(0));
  }

  /** Lock, render everything in force, and mark the version that had been fingerprinted. */
  lemma StalePass(g: Setting, s: State, fp: Versions) returns (actions: seq<Action>)
    requires Wellformed(s) && Covered(g, s) && s.lock == None && s.appliers == map[0 := Waiting(Some(fp))]
    ensures Run(g, s, actions)
         == s.(nftOut := Current(s), dnsOut := if g.dnsActive then Current(s) else s.dnsOut,
               marker := fp, appliers := map[0 := Idle])
  {
    assert Stored(s);
    hide Wellformed, Covered, Run, Step;
    actions := StaleNftPass(g, s, fp);
    var s1 := Run(g, s, actions);
    assert Stored(s1) && Current(s1) == Current(s);
    if g.dnsActive {
      var dns := StaleDnsPass(g, s1, fp);
      RunAppend(g, s, actions, dns);
      actions := actions + dns;
    }
    var s2 := Run(g, s, actions);
    MarkPass(g, s2, fp);
    RunAppend(g, s, actions, [Mark(0)]);
    actions := actions + [Mark(0)];
  }

  /**
    A pass of one applier with nobody else about: if the marker is not the
    store's fingerprint, or the pass is forced, both outputs show the store as it
    is afterwards and the marker says so; otherwise nothing changes.
   */
  lemma UndisturbedPass(g: Setting, s: State, force: bool) returns (actions: seq<Action>)
    requires Wellformed(s) && Covered(g, s) && s.lock == None && s.appliers == map[0 := Idle]
    ensures Known(s, Current(s)) && Known(s, s.marker)
    ensures Run(g, s, actions)
         == if !force && g.hash(Contents(s, Current(s))) == g.hash(Contents(s, s.marker)) then s
            else s.(nftOut := Current(s), dnsOut := if g.dnsActive then Current(s) else s.dnsOut, marker := Current(s))
  {
    assert Known(s, Current(s)) && Known(s, s.marker);
    hide Wellformed, Covered, Run, Step, Known;
    actions := FingerprintPass(g, s, force);
    if force || g.hash(Contents(s, Current(s))) != g.hash(Contents(s, s.marker)) {
      var waiting := Run(g, s, actions);
      assert Stored(waiting) && Current(waiting) == Current(s);
      var rest := StalePass(g, waiting, Current(s));
      RunAppend(g, s, actions, rest);
      actions := actions + rest;
    }
  }

  /** Everybody else still has the first version only. */
  ghost predicate OnlyOneMoves(s: State, k: nat) {
    k < |s.history| && forall i :: 0 <= i < |s.history| && i != k ==> |s.history[i]| == 1
  }

  lemma StageVersions(s: State, k: nat, h: seq<Lists>, j: nat)
    requires OnlyOneMoves(s, k) && j < |h|
    ensures Stored(Stage(s, k, h, j)) && Current(Stage(s, k, h, j)) == Only(|s.history|, k, j)
  {
  }

  /** At version `c` the store equals the marker's content, while nftables shows version `b`. */
  lemma StageIsLost(g: Setting, s: State, k: nat, h: seq<Lists>, a: nat, b: nat, c: nat)
    requires OnlyOneMoves(s, k) && a < |h| && b <= c < |h| && a <= c && h[a] == h[c] && h[b] != h[c]
    requires Wellformed(Stage(s, k, h, c))
    requires s.marker == Only(|s.history|, k, a) && s.nftOut == Only(|s.history|, k, b)
    ensures Lost(g, Stage(s, k, h, c))
  {
    var r := Stage(s, k, h, c);
    StageVersions(s, k, h, c);
    assert r.history[k] == h[..c + 1];
    assert Contents(r, r.marker) == Contents(r, Current(r));
    assert Contents(r, r.nftOut)[k] == h[b] && Contents(r, Current(r))[k] == h[c];
  }

  lemma StartsAtStage(hs: seq<seq<Lists>>, k: nat)
    requires AllStarted(hs) && k < |hs|
    ensures OnlyOneMoves(Fresh(hs), k) && Stage(Fresh(hs), k, hs[k], 0) == Fresh(hs)
    ensures forall i :: Only(|hs|, i, 0) == Only(|hs|, 0, 0)
  {
    assert Fresh(hs).history[k := hs[k][..1]] == Fresh(hs).history;
  }

  lemma StagesWriting(s: State, hs: seq<seq<Lists>>, k: nat, c: nat)
    requires AllStarted(hs) && k < |hs| && c < |hs[k]| && s.history == Fresh(hs).history
    ensures Writing(Stage(s, k, hs[k], c), hs)
  {
  }

  /** A switch or connect renders version 1 of a profile while the marker still names version 0, which comes back. */
  lemma PlainRenderLoses(g: Setting, hs: seq<seq<Lists>>, k: nat, c: nat) returns (actions: seq<Action>)
    requires AllStarted(hs) && k < |hs| && NoStutter(hs[k]) && 0 < c < |hs[k]| && hs[k][0] == hs[k][c]
    ensures Wellformed(Fresh(hs)) && Covered(g, Fresh(hs))
    ensures var r := Run(g, Fresh(hs), actions); Writing(r, hs) && Lost(g, r)
  {
    hide Run, Lost, Wellformed, Covered, Fresh;
    var s, h, n := Fresh(hs), hs[k], |hs|;
    FreshFits(g, hs);
    FreshShape(hs);
    StartsAtStage(hs, k);
    assert h[1] != h[0];
    RunToStage(g, s, k, h, 0, 1);
    var s1 := Stage(s, k, h, 1);
    StageVersions(s, k, h, 1);
    var render := PlainPass(g, s1);
    var s2 := s.(nftOut := Only(n, k, 1));
    assert Stage(s2, k, h, 1) == s1.(nftOut := Only(n, k, 1)) == Run(g, s1, render);
    RunToStage(g, s2, k, h, 1, c);
    var first, rest := Writes(k, h[1..2]), Writes(k, h[2..c + 1]);
    RunAppend(g, s, first, render);
    RunAppend(g, s, first + render, rest);
    actions := first + render + rest;
    StageIsLost(g, s2, k, h, 0, 1, c);
    StagesWriting(s2, hs, k, c);
  }

  lemma FreshShape(hs: seq<seq<Lists>>)
    requires AllStarted(hs)
    ensures
      var s := Fresh(hs);
      && |s.history| == |hs| && s.lock == None && s.appliers == map[0 := Idle]
      && s.marker == s.nftOut == s.dnsOut == Only(|hs|, 0, 0)
  {
  }

  /** A fingerprint read at version `a` of a profile is applied after a + 1 arrived, and version `a` comes back. */
  lemma StaleMarkLoses(g: Setting, hs: seq<seq<Lists>>, k: nat, a: nat, c: nat) returns (actions: seq<Action>)
    requires CollisionFree(g) && AllStarted(hs) && k < |hs| && NoStutter(hs[k])
    requires 0 < a < c < |hs[k]| && hs[k][a] == hs[k][c] && hs[k][0] != hs[k][a]
    ensures Wellformed(Fresh(hs)) && Covered(g, Fresh(hs))
    ensures var r := Run(g, Fresh(hs), actions); Writing(r, hs) && Lost(g, r)
  {
    hide Run, Lost, Wellformed, Covered, Fresh;
    var s, h, n := Fresh(hs), hs[k], |hs|;
    var b := a + 1;
    FreshFits(g, hs);
    FreshShape(hs);
    StartsAtStage(hs, k);
    assert h[b] != h[a];
    RunToStage(g, s, k, h, 0, a);
    var s1 := Stage(s, k, h, a);
    StageVersions(s, k, h, a);
    DifferentFingerprint(g, s1, k, h, a);
    var read := FingerprintPass(g, s1, false);
    var t := s.(appliers := map[0 := Waiting(Some(Only(n, k, a)))]);
    assert Stage(t, k, h, a) == Run(g, s1, read);
    RunToStage(g, t, k, h, a, b);
    var s3 := Stage(t, k, h, b);
    StageVersions(t, k, h, b);
    var apply := StalePass(g, s3, Only(n, k, a));
    var u := s.(nftOut := Only(n, k, b), dnsOut := if g.dnsActive then Only(n, k, b) else s.dnsOut, marker := Only(n, k, a));
    assert Stage(u, k, h, b) == Run(g, s3, apply);
    RunToStage(g, u, k, h, b, c);
    var first, second, last := Writes(k, h[1..a + 1]), Writes(k, h[b..b + 1]), Writes(k, h[b + 1..c + 1]);
    RunAppend(g, s, first, read);
    RunAppend(g, s, first + read, second);
    RunAppend(g, s, first + read + second, apply);
    RunAppend(g, s, first + read + second + apply, last);
    actions := first + read + second + apply + last;
    StageIsLost(g, u, k, h, a, b, c);
    StagesWriting(u, hs, k, c);
  }

  lemma DifferentFingerprint(g: Setting, s: State, k: nat, h: seq<Lists>, a: nat)
    requires CollisionFree(g) && Wellformed(s) && k < |s.history| && a < |h| && s.history[k] == h[..a + 1]
    requires s.marker[k] == 0 && h[0] != h[a]
    ensures Known(s, Current(s)) && Known(s, s.marker)
    ensures g.hash(Contents(s, Current(s))) != g.hash(Contents(s, s.marker))
  {
    assert Contents(s, s.marker)[k] == h[0] && Contents(s, Current(s))[k] == h[a];
  }

  lemma LossRefutes(g: Setting, hs: seq<seq<Lists>>, actions: seq<Action>)
    requires AllStarted(hs) && Wellformed(Fresh(hs)) && Covered(g, Fresh(hs))
    requires Writing(Run(g, Fresh(hs), actions), hs) && Lost(g, Run(g, Fresh(hs), actions))
    ensures !NeverLost(g, hs)
  {
  }

  lemma WritingKeepsDistinct(s: State, hs: seq<seq<Lists>>)
    requires Writing(s, hs) && forall k :: 0 <= k < |hs| ==> Distinct(hs[k])
    ensures NoRepeats(s)
  {
    forall k | 0 <= k < |hs| ensures Distinct(s.history[k]) {
      assert forall i :: 0 <= i < |s.history[k]| ==> s.history[k][i] == hs[k][i];
    }
  }

  /**
    The condition is exact: whatever the interleaving, nothing is lost while the
    hooks write these contents, if and only if no profile's content comes back.
   */
  lemma NeverLostIffNoRepeats(g: Setting, hs: seq<seq<Lists>>)
    requires CollisionFree(g) && AllStarted(hs) && forall k :: 0 <= k < |hs| ==> NoStutter(hs[k])
    ensures NeverLost(g, hs) <==> forall k :: 0 <= k < |hs| ==> Distinct(hs[k])
  {
    hide Run, Lost, Wellformed, Covered, Fresh;
    FreshFits(g, hs);
    if forall k :: 0 <= k < |hs| ==> Distinct(hs[k]) {
      forall actions | Writing(Run(g, Fresh(hs), actions), hs) ensures !Lost(g, Run(g, Fresh(hs), actions)) {
        WritingKeepsDistinct(Run(g, Fresh(hs), actions), hs);
        NoLostUpdate(g, Fresh(hs), actions);
      }
    } else {
      var k :| 0 <= k < |hs| && !Distinct(hs[k]);
      var a, c :| 0 <= a < c < |hs[k]| && hs[k][a] == hs[k][c];
      var actions;
      if hs[k][0] == hs[k][c] {
        actions := PlainRenderLoses(g, hs, k, c);
      } else {
        actions := StaleMarkLoses(g, hs, k, a, c);
      }
      LossRefutes(g, hs, actions);
    }
  }
}
