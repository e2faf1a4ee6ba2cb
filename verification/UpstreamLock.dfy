/**
  The cross-process reentrant lock around every operation of the upstream
  service (services/upstream.py, `_locked`): one flock(2) on a fixed file, and
  per service instance a depth counter and one persistent descriptor.
 */
module UpstreamLock {
  import opened Options

  /** Where an instance stands between two statements of `_locked`. */
  datatype Phase = Resting | Waiting | Granted | Leaving

  datatype Instance = Instance(fdOpen: bool, depth: nat, phase: Phase)

  /** A change of shared state: who made it, and under which grant of the file lock. */
  datatype Write = Write(writer: nat, section: nat)

  /**
    `holder` is the instance whose descriptor holds the file lock; `grants`
    counts how often the kernel granted it.
   */
  datatype State = State(holder: Option<nat>, instances: map<nat, Instance>, grants: nat, log: seq<Write>)

  datatype Action =
    | Begin(who: nat)    // `with self._locked()`: the depth test, and opening the descriptor
    | Grant(who: nat)    // flock(LOCK_EX) returns; blocked while another descriptor holds the lock
    | Count(who: nat)    // `_lock_depth += 1`
    | Change(who: nat)   // the body changes shared state
    | End(who: nat)      // `_lock_depth -= 1`
    | Release(who: nat)  // flock(LOCK_UN) if the depth came down to zero
    | Crash(who: nat)    // the process dies and the kernel closes its descriptor

  predicate Enabled(s: State, a: Action) {
    && a.who in s.instances
    && var i := s.instances[a.who];
       match a
       case Begin(_) => i.phase == Resting
       case Grant(_) => i.phase == Waiting && (s.holder == None || s.holder == Some(a.who))
       case Count(_) => i.phase == Granted
       case Change(_) => i.phase == Resting && i.depth > 0
       case End(_) => i.phase == Resting && i.depth > 0
       case Release(_) => i.phase == Leaving
       case Crash(_) => true
  }

  /** One statement of one instance; an action that is not enabled does nothing. */
  function Do(s: State, a: Action): State {
    if !Enabled(s, a) then s
    else
      var i := s.instances[a.who];
      match a
      case Begin(who) =>
        s.(instances := s.instances[who :=
             if i.depth == 0 then i.(fdOpen := true, phase := Waiting) else i.(phase := Granted)])
      case Grant(who) =>
        s.(holder := Some(who), grants := s.grants + 1, instances := s.instances[who := i.(phase := Granted)])
      case Count(who) =>
        s.(instances := s.instances[who := i.(depth := i.depth + 1, phase := Resting)])
      case Change(who) =>
        s.(log := s.log + [Write(who, s.grants)])
      case End(who) =>
        s.(instances := s.instances[who := i.(depth := i.depth - 1, phase := Leaving)])
      case Release(who) =>
        s.(holder := if i.depth == 0 && i.fdOpen then None else s.holder,
           instances := s.instances[who := i.(phase := Resting)])
      case Crash(who) =>
        s.(holder := if s.holder == Some(who) then None else s.holder,
           instances := s.instances[who := Instance(false, 0, Resting)])
  }

  function Run(s: State, actions: seq<Action>): State
    decreases |actions|
  {
    if actions == [] then s else Run(Do(s, actions[0]), actions[1..])
  }

  /** Any number of instances, none of which has entered anything yet. */
  ghost predicate Initial(s: State) {
    && s.holder == None && s.log == []
    && forall w :: w in s.instances ==> s.instances[w] == Instance(false, 0, Resting)
  }

  /** Inside a section, or about to enter or leave one. */
  predicate Inside(i: Instance) {
    i.depth > 0 || i.phase == Granted || i.phase == Leaving
  }

  ghost predicate LockInv(s: State) {
    && (s.holder.Some? ==> s.holder.value in s.instances)
    && forall w :: w in s.instances ==>
         && (s.holder == Some(w) <==> Inside(s.instances[w]))
         && (Inside(s.instances[w]) || s.instances[w].phase == Waiting ==> s.instances[w].fdOpen)
  }

  /** Writes come in blocks, one block per grant, each by a single instance. */
  ghost predicate Serial(s: State) {
    && (forall k :: 0 <= k < |s.log| ==> s.log[k].section <= s.grants)
    && (forall j, k :: 0 <= j < k < |s.log| ==>
          && s.log[j].section <= s.log[k].section
          && (s.log[j].section == s.log[k].section ==> s.log[j].writer == s.log[k].writer))
    && (forall k, w :: 0 <= k < |s.log| && s.log[k].section == s.grants && s.holder == Some(w) ==>
          s.log[k].writer == w)
  }

  lemma DoKeeps(s: State, a: Action)
    requires LockInv(s) && Serial(s)
    ensures LockInv(Do(s, a)) && Serial(Do(s, a))
  {
    if Enabled(s, a) {
      var i := s.instances[a.who];
      assert s.holder == Some(a.who) <==> Inside(i);
      var r := Do(s, a);
      forall w | w in r.instances
        ensures r.holder == Some(w) <==> Inside(r.instances[w])
        ensures Inside(r.instances[w]) || r.instances[w].phase == Waiting ==> r.instances[w].fdOpen
      {
        assert w in s.instances && (s.holder == Some(w) <==> Inside(s.instances[w]));
        assert w != a.who ==> r.instances[w] == s.instances[w];
      }
    }
  }

  lemma {:induction false} RunKeeps(s: State, actions: seq<Action>)
    requires LockInv(s) && Serial(s)
    ensures LockInv(Run(s, actions)) && Serial(Run(s, actions))
    decreases |actions|
  {
    if actions != [] {
      DoKeeps(s, actions[0]);
      RunKeeps(Do(s, actions[0]), actions[1..]);
    }
  }

  /**
    Over every interleaving: at most one instance has positive depth, positive
    depth means holding the file lock, and the shared writes are a sequence of
    undivided blocks, one instance and one grant each.
   */
  lemma MutualExclusion(s: State, actions: seq<Action>)
    requires Initial(s)
    ensures
      var r := Run(s, actions);
      && (forall v, w :: v in r.instances && w in r.instances && r.instances[v].depth > 0 && r.instances[w].depth > 0 ==> v == w)
      && (forall w :: w in r.instances && r.instances[w].depth > 0 ==> r.holder == Some(w))
      && Serial(r)
  {
    RunKeeps(s, actions);
  }

  /** In a reachable state the lock is given up only by the outermost exit, or by dying. */
  lemma OnlyOutermostReleases(s: State, actions: seq<Action>, a: Action)
    requires Initial(s)
    ensures
      var r := Run(s, actions);
      r.holder.Some? && Do(r, a).holder != r.holder ==>
        && r.holder == Some(a.who) && Do(r, a).holder == None
        && (a.Crash? || (a.Release? && r.instances[a.who].depth == 0))
  {
    RunKeeps(s, actions);
  }

  /** A nested section is never blocked: whoever is inside can always enter again and come back out. */
  lemma ReentryNeverBlocks(s: State, actions: seq<Action>, who: nat)
    requires Initial(s)
    requires
      var r := Run(s, actions);
      who in r.instances && r.instances[who].depth > 0 && r.instances[who].phase == Resting
    ensures
      var r := Run(s, actions);
      Run(r, [Begin(who), Count(who), End(who), Release(who)]) == r
  {
    RunKeeps(s, actions);
    var r := Run(s, actions);
    var i := r.instances[who];
    var r1 := Do(r, Begin(who));
    var r2 := Do(r1, Count(who));
    var r3 := Do(r2, End(who));
    var r4 := Do(r3, Release(who));
    assert r1.instances[who] == i.(phase := Granted) && r2.instances[who] == i.(depth := i.depth + 1);
    assert r3.instances[who] == i.(phase := Leaving) && r4.instances[who] == i;
    assert r4 == r;
    var tail := [Count(who), End(who), Release(who)];
    assert [Begin(who), Count(who), End(who), Release(who)][1..] == tail;
    assert tail[1..] == [End(who), Release(who)] && tail[1..][1..] == [Release(who)];
    assert tail[1..][1..][1..] == [];
    assert Run(r3, [Release(who)]) == r4;
    assert Run(r2, [End(who), Release(who)]) == r4;
    assert Run(r1, tail) == r4;
  }

  // --- The code ------------------------------------------------------------

  class LockFile {
    var holder: Option<nat>

    constructor ()
      ensures holder == None
    {
      holder := None;
    }
  }

  /** One service instance's use of the lock; `Enter` is called once flock would not block. */
  class ServiceLock {
    const id: nat
    const file: LockFile
    var fdOpen: bool
    var depth: nat

    constructor (id: nat, file: LockFile)
      requires file.holder != Some(id)
      ensures this.id == id && this.file == file && Valid() && depth == 0
    {
      this.id, this.file := id, file;
      fdOpen, depth := false, 0;
    }

    ghost predicate Valid()
      reads this, file
    {
      (file.holder == Some(id) <==> depth > 0) && (depth > 0 ==> fdOpen)
    }

    method Enter()
      requires Valid() && (file.holder == None || file.holder == Some(id))
      modifies this`fdOpen, this`depth, file
      ensures Valid() && depth == old(depth) + 1 && file.holder == Some(id)
    {
      if depth == 0 {
        if !fdOpen {
          fdOpen := true;
        }
        file.holder := Some(id);
      }
      depth := depth + 1;
    }

    method Exit()
      requires Valid() && depth > 0
      modifies this`depth, file
      ensures Valid() && depth == old(depth) - 1
      ensures file.holder == if depth == 0 then None else old(file.holder)
    {
      depth := depth - 1;
      if depth == 0 && fdOpen {
        file.holder := None;
      }
    }
  }
}
