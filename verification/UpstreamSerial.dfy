/**
  Why runs may take the locked operations as undivided: whatever the
  instances' statements interleave to, the file lock makes their writes replay
  as one operation after the other (services/upstream.py, `_locked`).
 */
module UpstreamSerial {
  import opened Options
  import opened Profiles
  import opened Upstream
  import L = UpstreamLock
  import UpstreamRouting

  /**
    How the operation behind each grant is cut into statements: what the
    `done`-th one makes of the current state, when the operation began in
    `start` (it may have read anything by then).
   */
  type Cut = (nat, nat, State, State) -> State

  /** The first `done` statements of the operation behind grant `g`, begun in `start` and left alone. */
  function Perform(cut: Cut, g: nat, done: nat, start: State): State {
    if done == 0 then start else cut(g, done - 1, start, Perform(cut, g, done - 1, start))
  }

  /** Left alone, the statements behind a grant are its operation; how many they are may depend on where it begins. */
  ghost predicate CutsUp(c: ValidConfig, w: World, cut: Cut, size: (nat, State) -> nat, op: nat -> Op) {
    forall g: nat, start: State :: Perform(cut, g, size(g, start), start) == Step(c, w, start, op(g))
  }

  /** Replaying writes: under a new grant a new operation begins, under the same one it goes on. */
  datatype Cursor = Cursor(section: Option<nat>, start: State, done: nat, now: State)

  function Replay(cut: Cut, s: State, log: seq<L.Write>): Cursor {
    if log == [] then Cursor(None, s, 0, s)
    else
      var cur := Replay(cut, s, log[..|log| - 1]);
      var g := log[|log| - 1].section;
      var (start, done) := if cur.section == Some(g) then (cur.start, cur.done) else (cur.now, 0);
      Cursor(Some(g), start, done + 1, cut(g, done, start, cur.now))
  }

  /** How many writes were made under grant `g`. */
  function Count(log: seq<L.Write>, g: nat): nat {
    if log == [] then 0
    else Count(log[..|log| - 1], g) + if log[|log| - 1].section == g then 1 else 0
  }

  /** The grants in the order in which the log turns to them. */
  function Sections(log: seq<L.Write>): seq<nat> {
    if log == [] then []
    else
      var before := Sections(log[..|log| - 1]);
      var g := log[|log| - 1].section;
      if before != [] && before[|before| - 1] == g then before else before + [g]
  }

  function Ops(op: nat -> Op, gs: seq<nat>): seq<Op> {
    seq(|gs|, k requires 0 <= k < |gs| => op(gs[k]))
  }

  /** One grant after the other, each with as many statements as were written under it. */
  function InTurn(cut: Cut, s: State, log: seq<L.Write>, gs: seq<nat>): State
    decreases |gs|
  {
    if gs == [] then s
    else
      var g := gs[|gs| - 1];
      Perform(cut, g, Count(log, g), InTurn(cut, s, log, gs[..|gs| - 1]))
  }

  /** The first `m` operations have made all their writes: nobody died in the middle of them. */
  ghost predicate Whole(cut: Cut, size: (nat, State) -> nat, s: State, log: seq<L.Write>, m: nat) {
    var gs := Sections(log);
    m <= |gs| && forall i :: 0 <= i < m ==> Count(log, gs[i]) == size(gs[i], InTurn(cut, s, log, gs[..i]))
  }

  ghost predicate Ascending(log: seq<L.Write>) {
    forall j, k :: 0 <= j < k < |log| ==> log[j].section <= log[k].section
  }

  lemma {:induction false} CountNone(log: seq<L.Write>, g: nat)
    ensures Count(log, g) == 0 <==> forall k :: 0 <= k < |log| ==> log[k].section != g
  {
    if log != [] {
      CountNone(log[..|log| - 1], g);
      assert forall k :: 0 <= k < |log| - 1 ==> log[..|log| - 1][k] == log[k];
    }
  }

  lemma {:induction false} RunSnoc(c: ValidConfig, w: World, s: State, ops: seq<Op>, op: Op)
    ensures Run(c, w, s, ops + [op]) == Step(c, w, Run(c, w, s, ops), op)
    decreases |ops|
  {
    hide Step;
    if ops == [] {
      assert [op][1..] == [];
      assert Run(c, w, Step(c, w, s, op), []) == Step(c, w, s, op);
      assert ops + [op] == [op];
    } else {
      RunSnoc(c, w, Step(c, w, s, ops[0]), ops[1..], op);
      assert (ops + [op])[0] == ops[0] && (ops + [op])[1..] == ops[1..] + [op];
    }
  }

  /** The last section named is that of the last write. */
  lemma {:induction false} SectionsEnd(log: seq<L.Write>)
    ensures Sections(log) == [] <==> log == []
    ensures log != [] ==> Sections(log)[|Sections(log)| - 1] == log[|log| - 1].section
  {
  }

  /** In a log ordered by grant no section is turned to twice. */
  lemma {:induction false} SectionsClimb(log: seq<L.Write>)
    requires Ascending(log)
    ensures forall j, k :: 0 <= j < k < |Sections(log)| ==> Sections(log)[j] < Sections(log)[k]
  {
    if log != [] {
      var pre := log[..|log| - 1];
      SectionsClimb(pre);
      SectionsEnd(pre);
    }
  }

  lemma CountLast(log: seq<L.Write>, g: nat)
    requires log != []
    ensures Count(log, g) == Count(log[..|log| - 1], g) + if log[|log| - 1].section == g then 1 else 0
  {
  }

  lemma SectionsLast(log: seq<L.Write>)
    requires log != []
    ensures
      var before, g := Sections(log[..|log| - 1]), log[|log| - 1].section;
      Sections(log) == if before != [] && before[|before| - 1] == g then before else before + [g]
  {
  }

  lemma ReplayLast(cut: Cut, s: State, log: seq<L.Write>)
    requires log != []
    ensures
      var cur, g := Replay(cut, s, log[..|log| - 1]), log[|log| - 1].section;
      Replay(cut, s, log)
      == if cur.section == Some(g) then Cursor(Some(g), cur.start, cur.done + 1, cut(g, cur.done, cur.start, cur.now))
         else Cursor(Some(g), cur.now, 1, cut(g, 0, cur.now, cur.now))
  {
  }

  /** What happened under earlier grants does not depend on later writes. */
  lemma {:induction false} InTurnOf(cut: Cut, s: State, log: seq<L.Write>, more: seq<L.Write>, gs: seq<nat>)
    requires forall g :: g in gs ==> Count(log, g) == Count(more, g)
    ensures InTurn(cut, s, log, gs) == InTurn(cut, s, more, gs)
    decreases |gs|
  {
    hide Count, Perform;
    if gs != [] {
      assert gs[|gs| - 1] in gs && forall g :: g in gs[..|gs| - 1] ==> g in gs;
      InTurnOf(cut, s, log, more, gs[..|gs| - 1]);
    }
  }

  /**
    Replaying a log ordered by grant, write by write, is performing the grants in
    turn -- also if some of them ended early because the instance died.
   */
  lemma {:induction false} ReplayIsInTurn(cut: Cut, s: State, log: seq<L.Write>)
    requires log != [] && Ascending(log)
    ensures
      var g := log[|log| - 1].section;
      var gs := Sections(log);
      var start := InTurn(cut, s, log, gs[..|gs| - 1]);
      && gs != [] && gs[|gs| - 1] == g
      && Replay(cut, s, log) == Cursor(Some(g), start, Count(log, g), Perform(cut, g, Count(log, g), start))
      && Replay(cut, s, log).now == InTurn(cut, s, log, gs)
  {
    var pre := log[..|log| - 1];
    var g := log[|log| - 1].section;
    var gs, hs := Sections(log), Sections(pre);
    SectionsEnd(log);
    SectionsEnd(pre);
    SectionsLast(log);
    CountLast(log, g);
    ReplayLast(cut, s, log);
    hide Replay, Sections, Count;
    if pre == [] {
      CountNone(pre, g);
      NothingReplayed(cut, s);
      assert gs[..|gs| - 1] == [];
      PerformNext(cut, g, 0, s);
    } else {
      ReplayIsInTurn(cut, s, pre);
      EarlierCounts(log, g);
      if g == pre[|pre| - 1].section {
        InTurnOf(cut, s, pre, log, hs[..|hs| - 1]);
        PerformNext(cut, g, Count(pre, g), InTurn(cut, s, log, gs[..|gs| - 1]));
      } else {
        assert gs[..|gs| - 1] == hs;
        InTurnOf(cut, s, pre, log, hs);
        PerformNext(cut, g, 0, InTurn(cut, s, log, hs));
      }
    }
  }

  lemma NothingReplayed(cut: Cut, s: State)
    ensures Replay(cut, s, []) == Cursor(None, s, 0, s)
  {
  }

  lemma PerformNext(cut: Cut, g: nat, done: nat, start: State)
    ensures Perform(cut, g, done + 1, start) == cut(g, done, start, Perform(cut, g, done, start))
    ensures Perform(cut, g, 0, start) == start
  {
  }

  /** The last write adds to no earlier grant, and begins its own if that is a new one. */
  lemma EarlierCounts(log: seq<L.Write>, g: nat)
    requires |log| > 1 && Ascending(log) && g == log[|log| - 1].section
    ensures
      var pre := log[..|log| - 1];
      var hs := Sections(pre);
      && Ascending(pre) && hs != []
      && (forall h :: h in hs[..|hs| - 1] ==> Count(pre, h) == Count(log, h))
      && (g != pre[|pre| - 1].section ==> Count(pre, g) == 0 && forall h :: h in hs ==> Count(pre, h) == Count(log, h))
  {
    var pre := log[..|log| - 1];
    var hs := Sections(pre);
    SectionsEnd(pre);
    SectionsClimb(pre);
    var last := pre[|pre| - 1];
    assert last == log[|log| - 2] && last.section <= g;
    hide Count, Sections;
    CountNone(pre, g);
    forall h | h in hs && h != g ensures Count(pre, h) == Count(log, h) { CountLast(log, h); }
    forall k | 0 <= k < |hs| - 1 ensures hs[k] < last.section { assert hs[k] < hs[|hs| - 1]; }
  }

  lemma RunNothing(c: ValidConfig, w: World, s: State)
    ensures Run(c, w, s, []) == s
  {
  }

  lemma OneWhole(c: ValidConfig, w: World, cut: Cut, size: (nat, State) -> nat, op: nat -> Op, g: nat, start: State)
    requires CutsUp(c, w, cut, size, op)
    ensures Perform(cut, g, size(g, start), start) == Step(c, w, start, op(g))
  {
  }

  lemma InTurnNext(cut: Cut, s: State, log: seq<L.Write>, gs: seq<nat>, g: nat)
    ensures InTurn(cut, s, log, []) == s
    ensures InTurn(cut, s, log, gs + [g]) == Perform(cut, g, Count(log, g), InTurn(cut, s, log, gs))
  {
    assert (gs + [g])[..|gs|] == gs;
  }

  /** Whole operations in turn are a run of them. */
  lemma {:induction false} InTurnIsRun(c: ValidConfig, w: World, cut: Cut, size: (nat, State) -> nat, op: nat -> Op,
                                       s: State, log: seq<L.Write>, m: nat)
    requires CutsUp(c, w, cut, size, op) && Whole(cut, size, s, log, m)
    ensures InTurn(cut, s, log, Sections(log)[..m]) == Run(c, w, s, Ops(op, Sections(log)[..m]))
    decreases m
  {
    hide Run, Step, CutsUp, Sections, Perform, Count, InTurn;
    var gs := Sections(log);
    if m == 0 {
      assert gs[..0] == [] && Ops(op, gs[..0]) == [];
      InTurnNext(cut, s, log, [], 0);
      RunNothing(c, w, s);
    } else {
      var g := gs[m - 1];
      InTurnIsRun(c, w, cut, size, op, s, log, m - 1);
      assert gs[..m] == gs[..m - 1] + [g];
      InTurnNext(cut, s, log, gs[..m - 1], g);
      OneWhole(c, w, cut, size, op, g, InTurn(cut, s, log, gs[..m - 1]));
      RunSnoc(c, w, s, Ops(op, gs[..m - 1]), op(g));
      assert Ops(op, gs[..m]) == Ops(op, gs[..m - 1]) + [op(g)];
    }
  }

  /**
    Any interleaving of any number of instances, dying wherever they like: their
    writes have the same effect as the grants in turn, none twice, each with its
    own statements only.
   */
  lemma OneGrantAtATime(cut: Cut, s: State, l: L.State, actions: seq<L.Action>)
    requires L.Initial(l)
    ensures
      var log := L.Run(l, actions).log;
      var gs := Sections(log);
      && (forall j, k :: 0 <= j < k < |gs| ==> gs[j] < gs[k])
      && Replay(cut, s, log).now == InTurn(cut, s, log, gs)
  {
    hide L.Run, Replay, Sections, InTurn, Count;
    L.MutualExclusion(l, actions);
    var log := L.Run(l, actions).log;
    SectionsClimb(log);
    if log == [] {
      SectionsEnd(log);
      NothingReplayed(cut, s);
      InTurnNext(cut, s, log, [], 0);
    } else {
      ReplayIsInTurn(cut, s, log);
    }
  }

  /**
    As long as nobody has died in the middle, that is a run of the operations in
    the order of the grants, followed by what the instance inside has done so far.
   */
  lemma Serializable(c: ValidConfig, w: World, cut: Cut, size: (nat, State) -> nat, op: nat -> Op, s: State,
                     l: L.State, actions: seq<L.Action>)
    requires CutsUp(c, w, cut, size, op)
    requires L.Initial(l)
    requires var log := L.Run(l, actions).log; log != [] && Whole(cut, size, s, log, |Sections(log)| - 1)
    ensures
      var log := L.Run(l, actions).log;
      var g := log[|log| - 1].section;
      var gs := Sections(log);
      var start := Run(c, w, s, Ops(op, gs[..|gs| - 1]));
      && (forall j, k :: 0 <= j < k < |gs| ==> gs[j] < gs[k])
      && gs != [] && gs[|gs| - 1] == g
      && Replay(cut, s, log).now == Perform(cut, g, Count(log, g), start)
      && (Count(log, g) == size(g, start) ==> Replay(cut, s, log).now == Run(c, w, s, Ops(op, gs)))
  {
    hide Step, Run, CutsUp, L.Run, Replay, Sections, Perform, Count, Ops, InTurn, Whole;
    L.MutualExclusion(l, actions);
    var log := L.Run(l, actions).log;
    var gs := Sections(log);
    SectionsClimb(log);
    ReplayIsInTurn(cut, s, log);
    InTurnIsRun(c, w, cut, size, op, s, log, |gs| - 1);
    var g := log[|log| - 1].section;
    if Count(log, g) == size(g, Run(c, w, s, Ops(op, gs[..|gs| - 1]))) {
      WholeOneMore(cut, size, s, log);
      InTurnIsRun(c, w, cut, size, op, s, log, |gs|);
      assert gs[..|gs|] == gs;
    }
  }

  lemma WholeOneMore(cut: Cut, size: (nat, State) -> nat, s: State, log: seq<L.Write>)
    requires Sections(log) != [] && Whole(cut, size, s, log, |Sections(log)| - 1)
    requires
      var gs := Sections(log);
      Count(log, gs[|gs| - 1]) == size(gs[|gs| - 1], InTurn(cut, s, log, gs[..|gs| - 1]))
    ensures Whole(cut, size, s, log, |Sections(log)|)
  {
    hide Sections, Count, InTurn;
  }

  /** So what runs keep holds between any two operations of any interleaving. */
  lemma InterleavedKeeps(c: ValidConfig, w: World, cut: Cut, size: (nat, State) -> nat, op: nat -> Op, s: State,
                         l: L.State, actions: seq<L.Action>)
    requires UpstreamRouting.Immune(c) && UpstreamRouting.Good(c, s)
    requires CutsUp(c, w, cut, size, op)
    requires L.Initial(l)
    requires var log := L.Run(l, actions).log; Whole(cut, size, s, log, |Sections(log)|)
    ensures UpstreamRouting.Good(c, Replay(cut, s, L.Run(l, actions).log).now)
  {
    hide *;
    var log := L.Run(l, actions).log;
    var gs := Sections(log);
    OneGrantAtATime(cut, s, l, actions);
    InTurnIsRun(c, w, cut, size, op, s, log, |gs|);
    assert gs[..|gs|] == gs;
    UpstreamRouting.RunKeeps(c, w, s, Ops(op, gs));
  }
}
