/**
  Pointing the host's own resolver at the built-in dnsmasq and giving it back
  (services/host_dns.py). The host rewrites its resolv.conf whenever it likes.
 */
module HostDns {
  import opened Options
  import opened Text

  const MARK := "# Generated by korserver"

  datatype Mode = Off | ResolvConf | Resolved

  /** What one call sees of the configuration and of its mounts; the backup lies in the data directory of that call. */
  datatype Config = Config(
    mode: Mode,
    dnsmasqRuns: bool,
    listen: string,
    port: nat,
    backupPath: string,
    resolvMounted: bool,
    resolvedMounted: bool)

  /** The files, backups by path, and the content the host itself last put into resolv.conf. */
  datatype State = State(resolv: string, backups: map<string, string>, dropin: Option<string>, hostOwn: string)

  // --- Contents ------------------------------------------------------------

  /** `MARK in content`. */
  predicate Ours(content: string) {
    exists i :: 0 <= i <= |content| && MarkAt(content, i)
  }

  predicate MarkAt(content: string, i: nat) {
    i + |MARK| <= |content| && content[i..i + |MARK|] == MARK
  }

  function DesiredResolv(c: Config): string {
    MARK + ResolvTail(c)
  }

  function ResolvTail(c: Config): string {
    ": host lookups go through the korserver dnsmasq.\n# The original is kept in " + c.backupPath
    + " and restored when\n# korserver stops or routing.host_dns is turned off." + "\nnameserver " + c.listen + "\n"
  }

  function DesiredDropin(c: Config): string {
    MARK + DropinTail(c)
  }

  function DropinTail(c: Config): string {
    ": send all host DNS to the korserver dnsmasq.\n# Delete this file and restart systemd-resolved to undo.\n[Resolve]\nDNS="
    + "\nDNS=" + c.listen + (if c.port == 53 then "" else ":" + Decimal(c.port)) + "\n" + "Domains=~.\n"
  }

  lemma MarkedIsOurs(rest: string)
    ensures Ours(MARK + rest)
  {
    assert MarkAt(MARK + rest, 0);
  }

  lemma DesiredIsOurs(c: Config)
    ensures Ours(DesiredResolv(c)) && Ours(DesiredDropin(c))
  {
    hide Ours, ResolvTail, DropinTail;
    MarkedIsOurs(ResolvTail(c));
    MarkedIsOurs(DropinTail(c));
  }

  /** The redirect ends in the line that names the configured resolver, and says before where this call's backup is. */
  lemma RedirectNamesResolver(c: Config) returns (front: string, middle: string)
    ensures DesiredResolv(c) == front + c.backupPath + middle + "\nnameserver " + c.listen + "\n"
  {
    ghost var head := ": host lookups go through the korserver dnsmasq.\n# The original is kept in ";
    middle := " and restored when\n# korserver stops or routing.host_dns is turned off.";
    front := MARK + head;
    Regroup(MARK, head, c.backupPath, middle, "\nnameserver ", c.listen, "\n");
  }

  /** The drop-in has a line that names it, with the port exactly when that is not 53. */
  lemma DropinNamesResolver(c: Config) returns (front: string, back: string)
    ensures DesiredDropin(c) == front + "\nDNS=" + c.listen + (if c.port == 53 then "" else ":" + Decimal(c.port)) + "\n" + back
  {
    ghost var head :=
      ": send all host DNS to the korserver dnsmasq.\n# Delete this file and restart systemd-resolved to undo.\n[Resolve]\nDNS=";
    front, back := MARK + head, "Domains=~.\n";
    Regroup(MARK, head, "\nDNS=", c.listen, if c.port == 53 then "" else ":" + Decimal(c.port), "\n", back);
  }

  lemma Regroup(a: string, b: string, c: string, d: string, e: string, f: string, g: string)
    ensures a + (b + c + d + e + f + g) == a + b + c + d + e + f + g
  {
  }

  // --- Operations on the files ---------------------------------------------

  predicate Wanted(c: Config) {
    c.mode != Off && c.dnsmasqRuns
  }

  function RestoreResolv(c: Config, s: State): State {
    if c.resolvMounted && Ours(s.resolv) && c.backupPath in s.backups then s.(resolv := s.backups[c.backupPath]) else s
  }

  function RemoveDropin(s: State): State {
    if s.dropin.Some? && Ours(s.dropin.value) then s.(dropin := None) else s
  }

  function PointResolv(c: Config, s: State): State {
    if !c.resolvMounted || c.port != 53 || s.resolv == DesiredResolv(c) then s
    else s.(backups := if Ours(s.resolv) then s.backups else s.backups[c.backupPath := s.resolv],
            resolv := DesiredResolv(c))
  }

  function WriteDropin(c: Config, s: State): State {
    if c.resolvedMounted then s.(dropin := Some(DesiredDropin(c))) else s
  }

  function Apply(c: Config, s: State): State {
    if !Wanted(c) then RemoveDropin(RestoreResolv(c, s))
    else if c.mode == ResolvConf then PointResolv(c, RemoveDropin(s))
    else WriteDropin(c, RestoreResolv(c, s))
  }

  /** `restore()`: only resolv.conf is given back. */
  function Restore(c: Config, s: State): State {
    RestoreResolv(c, s)
  }

  // --- The service ---------------------------------------------------------

  class HostDnsService {
    var resolv: string
    var backups: map<string, string>
    var dropin: Option<string>
    ghost var hostOwn: string

    constructor (s: State)
      ensures Files() == s
    {
      resolv, backups, dropin, hostOwn := s.resolv, s.backups, s.dropin, s.hostOwn;
    }

    ghost function Files(): State
      reads this
    {
      State(resolv, backups, dropin, hostOwn)
    }

    method RestoreResolvConf(c: Config) returns (changed: bool)
      modifies this
      ensures Files() == RestoreResolv(c, old(Files()))
      ensures changed == (c.resolvMounted && Ours(old(resolv)) && c.backupPath in old(backups))
    {
      if !c.resolvMounted || !IsOurs(resolv) {
        return false;
      }
      if c.backupPath !in backups {
        return false;
      }
      resolv := backups[c.backupPath];
      return true;
    }

    method RemoveOwnDropin() returns (changed: bool)
      modifies this
      ensures Files() == RemoveDropin(old(Files()))
      ensures changed == (dropin != old(dropin))
    {
      if dropin.None? || !IsOurs(dropin.value) {
        return false;
      }
      dropin := None;
      return true;
    }

    method PointResolvConf(c: Config) returns (changed: bool)
      modifies this
      ensures Files() == PointResolv(c, old(Files()))
      ensures changed == (resolv != old(resolv))
    {
      hide ResolvTail, DropinTail;
      if !c.resolvMounted || c.port != 53 {
        return false;
      }
      var desired := DesiredResolv(c);
      if resolv == desired {
        return false;
      }
      if !IsOurs(resolv) {
        backups := backups[c.backupPath := resolv];
      }
      resolv := desired;
      return true;
    }

    method WriteOwnDropin(c: Config) returns (changed: bool)
      modifies this
      ensures Files() == WriteDropin(c, old(Files()))
      ensures changed == (dropin != old(dropin))
    {
      hide ResolvTail, DropinTail;
      if !c.resolvedMounted {
        return false;
      }
      var desired := DesiredDropin(c);
      if dropin == Some(desired) {
        return false;
      }
      dropin := Some(desired);
      return true;
    }

    method ApplyConfig(c: Config) returns (changed: bool)
      modifies this
      ensures Files() == Apply(c, old(Files()))
      ensures WellKept(old(Files())) ==> changed == (Files() != old(Files()))
    {
      hide ResolvTail, DropinTail;
      if !(c.mode != Off && c.dnsmasqRuns) {
        var a := RestoreResolvConf(c);
        var b := RemoveOwnDropin();
        return a || b;
      }
      if c.mode == ResolvConf {
        var a := RemoveOwnDropin();
        var b := PointResolvConf(c);
        return a || b;
      }
      var a := RestoreResolvConf(c);
      var b := WriteOwnDropin(c);
      return a || b;
    }
  }

  /** The substring search behind `_ours`. */
  predicate IsOurs(content: string)
    ensures IsOurs(content) <==> Ours(content)
  {
    HasMarkFrom(content, 0)
  }

  predicate HasMarkFrom(content: string, from: nat)
    requires from <= |content|
    ensures HasMarkFrom(content, from) <==> exists i :: from <= i <= |content| && MarkAt(content, i)
    decreases |content| - from
  {
    MarkAt(content, from) || (from < |content| && HasMarkFrom(content, from + 1))
  }

  // --- Over every run ------------------------------------------------------

  /** A call with the configuration of that moment, or the host (DHCP, NetworkManager) rewriting its file. */
  datatype Action = DoApply(c: Config) | DoRestore(c: Config) | HostWrites(content: string)

  function Step(s: State, a: Action): State {
    match a
    case DoApply(c) => Apply(c, s)
    case DoRestore(c) => Restore(c, s)
    case HostWrites(content) => s.(resolv := content, hostOwn := content)
  }

  function Run(s: State, actions: seq<Action>): State
    decreases |actions|
  {
    if actions == [] then s else Run(Step(s, actions[0]), actions[1..])
  }

  /** The host never writes our marker into its own file. */
  ghost predicate HostIsItself(actions: seq<Action>) {
    forall i :: 0 <= i < |actions| && actions[i].HostWrites? ==> !Ours(actions[i].content)
  }

  predicate IsCall(a: Action) {
    !a.HostWrites?
  }

  /** Nothing of ours was ever put aside as the host's. */
  ghost predicate WellKept(s: State) {
    !Ours(s.hostOwn) && forall p :: p in s.backups ==> !Ours(s.backups[p])
  }

  /** While the redirect is in place the backup at `path` is the host's last own content; otherwise the file is. */
  ghost predicate Recoverable(s: State, path: string) {
    && WellKept(s)
    && if Ours(s.resolv) then path in s.backups && s.backups[path] == s.hostOwn else s.resolv == s.hostOwn
  }

  lemma StepKeepsWell(s: State, a: Action)
    requires WellKept(s) && (a.HostWrites? ==> !Ours(a.content))
    ensures WellKept(Step(s, a))
  {
    hide Ours, DesiredResolv, DesiredDropin;
  }

  /** Over every run, whatever configuration each call sees. */
  lemma {:induction false} RunKeepsWell(s: State, actions: seq<Action>)
    requires WellKept(s) && HostIsItself(actions)
    ensures WellKept(Run(s, actions))
    decreases |actions|
  {
    if actions != [] {
      hide Ours, Step, WellKept;
      StepKeepsWell(s, actions[0]);
      LaterItself(actions);
      RunKeepsWell(Step(s, actions[0]), actions[1..]);
    }
  }

  lemma LaterItself(actions: seq<Action>)
    requires HostIsItself(actions) && actions != []
    ensures HostIsItself(actions[1..])
  {
    forall i | 0 <= i < |actions[1..]| && actions[1..][i].HostWrites? ensures !Ours(actions[1..][i].content) {
      assert actions[1..][i] == actions[i + 1];
    }
  }

  /** One call of the same data directory, or a write of the host, keeps the host's content at hand. */
  lemma StepKeeps(s: State, a: Action, path: string)
    requires Recoverable(s, path) && (if IsCall(a) then a.c.backupPath == path else !Ours(a.content))
    ensures Recoverable(Step(s, a), path)
  {
    hide Ours, DesiredResolv, DesiredDropin;
    if a.DoApply? {
      DesiredIsOurs(a.c);
    }
  }

  /** The path under which the host's content can be found after one more step. */
  function Holder(s: State, a: Action, path: string): string {
    if IsCall(a) && !Ours(s.resolv) then a.c.backupPath else path
  }

  /** The data directory changes only while no redirect is in place. */
  ghost predicate MovesInTheClear(s: State, actions: seq<Action>, path: string)
    decreases |actions|
  {
    actions == []
    || (&& (IsCall(actions[0]) && Ours(s.resolv) ==> actions[0].c.backupPath == path)
        && MovesInTheClear(Step(s, actions[0]), actions[1..], Holder(s, actions[0], path)))
  }

  function FinalHolder(s: State, actions: seq<Action>, path: string): string
    decreases |actions|
  {
    if actions == [] then path
    else FinalHolder(Step(s, actions[0]), actions[1..], Holder(s, actions[0], path))
  }

  lemma {:induction false} RunKeeps(s: State, actions: seq<Action>, path: string)
    requires Recoverable(s, path) && HostIsItself(actions) && MovesInTheClear(s, actions, path)
    ensures Recoverable(Run(s, actions), FinalHolder(s, actions, path))
    decreases |actions|
  {
    if actions != [] {
      var next := Holder(s, actions[0], path);
      assert Recoverable(s, next);
      StepKeeps(s, actions[0], next);
      LaterItself(actions);
      hide Ours, Step, Recoverable;
      RunKeeps(Step(s, actions[0]), actions[1..], next);
    }
  }

  /**
    From every reachable state, as long as the data directory only ever changed
    without a redirect in place, `restore` (with the file mounted) puts back the
    host's latest own content.
   */
  lemma RestoreGivesBackHost(s: State, actions: seq<Action>, path: string, c: Config)
    requires Recoverable(s, path) && HostIsItself(actions) && MovesInTheClear(s, actions + [DoRestore(c)], path)
    requires c.resolvMounted
    ensures Restore(c, Run(s, actions)).resolv == Run(s, actions).hostOwn
  {
    SplitMoves(s, actions, DoRestore(c), path);
    RunKeeps(s, actions, path);
  }

  lemma {:induction false} SplitMoves(s: State, actions: seq<Action>, last: Action, path: string)
    requires MovesInTheClear(s, actions + [last], path)
    ensures MovesInTheClear(s, actions, path)
    ensures IsCall(last) && Ours(Run(s, actions).resolv) ==> last.c.backupPath == FinalHolder(s, actions, path)
    decreases |actions|
  {
    hide Ours, Step;
    if actions == [] {
      assert [] + [last] == [last];
    } else {
      assert (actions + [last])[1..] == actions[1..] + [last] && (actions + [last])[0] == actions[0];
      SplitMoves(Step(s, actions[0]), actions[1..], last, Holder(s, actions[0], path));
    }
  }

  /** With one data directory throughout there is no condition left. */
  lemma {:induction false} OneDirectoryIsClear(s: State, actions: seq<Action>, path: string)
    requires forall a :: a in actions && IsCall(a) ==> a.c.backupPath == path
    ensures MovesInTheClear(s, actions, path) && FinalHolder(s, actions, path) == path
    decreases |actions|
  {
    if actions != [] {
      hide Ours, Step;
      assert actions[0] in actions;
      OneDirectoryIsClear(Step(s, actions[0]), actions[1..], path);
    }
  }

  /**
    Whatever came before: a redirect is given back as the host's last own content
    if and only if the data directory of this call holds exactly that; without
    any backup there the redirect stays.
   */
  lemma RestoreGivesBackHostIff(s: State, actions: seq<Action>, c: Config)
    requires WellKept(s) && HostIsItself(actions) && c.resolvMounted && Ours(Run(s, actions).resolv)
    ensures
      var r := Run(s, actions);
      && (Restore(c, r).resolv == r.hostOwn
          <==> c.backupPath in r.backups && r.backups[c.backupPath] == r.hostOwn)
      && (Ours(Restore(c, r).resolv) <==> c.backupPath !in r.backups)
  {
    RunKeepsWell(s, actions);
  }

  /** The call puts a redirect over the host's file, setting that aside under its own path. */
  predicate Takes(s: State, a: Action, path: string) {
    && a.DoApply? && Wanted(a.c) && a.c.mode == ResolvConf && a.c.port == 53 && a.c.resolvMounted
    && a.c.backupPath == path && !Ours(s.resolv)
  }

  /** The last call of a history that did so under this path. */
  function LastTaking(s: State, actions: seq<Action>, path: string): (r: Option<nat>)
    ensures r.Some? ==> r.value < |actions| && Takes(Run(s, actions[..r.value]), actions[r.value], path)
    ensures forall j :: (if r.Some? then r.value + 1 else 0) <= j < |actions| ==> !Takes(Run(s, actions[..j]), actions[j], path)
    decreases |actions|
  {
    hide Run, Takes;
    if actions == [] then None
    else
      var n := |actions| - 1;
      var r := LastTaking(s, actions[..n], path);
      assert forall j :: 0 <= j < n ==> actions[..n][..j] == actions[..j] && actions[..n][j] == actions[j];
      if Takes(Run(s, actions[..n]), actions[n], path) then Some(n) else r
  }

  lemma {:induction false} RunSnoc(s: State, actions: seq<Action>, last: Action)
    ensures Run(s, actions + [last]) == Step(Run(s, actions), last)
    decreases |actions|
  {
    hide Step;
    if actions == [] {
      assert [] + [last] == [last] && [last][1..] == [];
    } else {
      assert (actions + [last])[1..] == actions[1..] + [last] && (actions + [last])[0] == actions[0];
      RunSnoc(Step(s, actions[0]), actions[1..], last);
    }
  }

  lemma StepTakes(s: State, a: Action, path: string)
    ensures
      var r := Step(s, a);
      && (Takes(s, a, path) ==> path in r.backups && r.backups[path] == s.resolv)
      && (!Takes(s, a, path) ==> (path in r.backups <==> path in s.backups)
                                 && (path in s.backups ==> r.backups[path] == s.backups[path]))
  {
    hide Ours, DesiredResolv, DesiredDropin;
    if a.DoApply? {
      DesiredIsOurs(a.c);
    }
  }

  /** A backup is what the last taking call under its path found. */
  lemma {:induction false} BackupIsLastTaken(s: State, actions: seq<Action>, path: string)
    ensures
      var r := Run(s, actions).backups;
      var last := LastTaking(s, actions, path);
      && (path in r <==> last.Some? || path in s.backups)
      && (last.Some? ==> r[path] == Run(s, actions[..last.value]).resolv)
      && (last.None? && path in s.backups ==> r[path] == s.backups[path])
    decreases |actions|
  {
    hide Step, Takes;
    if actions != [] {
      var n := |actions| - 1;
      BackupIsLastTaken(s, actions[..n], path);
      assert actions == actions[..n] + [actions[n]];
      hide Run;
      RunSnoc(s, actions[..n], actions[n]);
      StepTakes(Run(s, actions[..n]), actions[n], path);
      var before := LastTaking(s, actions[..n], path);
      if before.Some? {
        assert actions[..n][..before.value] == actions[..before.value];
      }
    }
  }

  /**
    The same by the calls that were made, from a start without backups: a
    redirect is given back as the host's last own content if and only if some
    call put one in place under the directory of this call, and the last one to
    do so found exactly that content.
   */
  lemma RestoreGivesBackByHistoryIff(s: State, actions: seq<Action>, c: Config)
    requires WellKept(s) && s.backups == map[] && HostIsItself(actions)
    requires c.resolvMounted && Ours(Run(s, actions).resolv)
    ensures
      var last := LastTaking(s, actions, c.backupPath);
      Restore(c, Run(s, actions)).resolv == Run(s, actions).hostOwn
      <==> last.Some? && Run(s, actions[..last.value]).resolv == Run(s, actions).hostOwn
  {
    hide Run, Ours, Takes, WellKept, HostIsItself, Restore;
    RestoreGivesBackHostIff(s, actions, c);
    BackupIsLastTaken(s, actions, c.backupPath);
  }

  /** A call that redirects through resolv.conf from this data directory. */
  function Redirecting(path: string): Config {
    Config(ResolvConf, true, "10.9.0.1", 53, path, true, true)
  }

  /**
    Moving the data directory under a redirect strands the host's content:
    switching the feature off finds no backup, and applying again names a file
    that was never written.
   */
  lemma MovedDirectoryStrands(own: string, a: string, b: string)
    requires !Ours(own) && a != b
    ensures
      var s := State(own, map[], None, own);
      var taken := Apply(Redirecting(a), s);
      var off := Apply(Redirecting(b).(mode := Off), taken);
      var again := Apply(Redirecting(b), taken);
      && Ours(taken.resolv) && off == taken && Restore(Redirecting(b), taken) == taken
      && again.resolv == DesiredResolv(Redirecting(b)) && b !in again.backups
  {
    hide Ours, DesiredResolv, DesiredDropin;
    DesiredIsOurs(Redirecting(a));
    DesiredIsOurs(Redirecting(b));
  }

  /** And an old backup in the new place comes back instead of what the host wrote since. */
  lemma MovedDirectoryRestoresOld(old': string, own: string, a: string, b: string)
    requires !Ours(old') && !Ours(own) && old' != own && a != b
    ensures
      var s := State(old', map[], None, old');
      var r := Run(s, [DoApply(Redirecting(b)), DoRestore(Redirecting(b)), HostWrites(own), DoApply(Redirecting(a)),
                       DoRestore(Redirecting(b))]);
      r.resolv == old' && r.hostOwn == own
  {
    hide Ours, DesiredResolv, DesiredDropin;
    DesiredIsOurs(Redirecting(a));
    DesiredIsOurs(Redirecting(b));
    var s := State(old', map[], None, old');
    var s1 := Apply(Redirecting(b), s);
    var s2 := Restore(Redirecting(b), s1);
    var s3 := s2.(resolv := own, hostOwn := own);
    var s4 := Apply(Redirecting(a), s3);
    var s5 := Restore(Redirecting(b), s4);
    RunFive(s, DoApply(Redirecting(b)), DoRestore(Redirecting(b)), HostWrites(own), DoApply(Redirecting(a)), DoRestore(Redirecting(b)));
    assert s5.resolv == old';
  }

  lemma RunFive(s: State, a: Action, b: Action, c: Action, d: Action, e: Action)
    ensures Run(s, [a, b, c, d, e]) == Step(Step(Step(Step(Step(s, a), b), c), d), e)
  {
    hide Step;
    assert [a, b, c, d, e][1..] == [b, c, d, e] && [b, c, d, e][1..] == [c, d, e] && [c, d, e][1..] == [d, e];
    assert [d, e][1..] == [e] && [e][1..] == [];
    assert Run(s, [a, b, c, d, e]) == Run(Step(s, a), [b, c, d, e]);
    assert Run(Step(s, a), [b, c, d, e]) == Run(Step(Step(s, a), b), [c, d, e]);
    var t := Step(Step(s, a), b);
    assert Run(t, [c, d, e]) == Run(Step(t, c), [d, e]);
    assert Run(Step(t, c), [d, e]) == Run(Step(Step(t, c), d), [e]);
  }

  /**
    What a call is for: the configured redirect and nothing of the other mode.
    Without a reachable file, or without port 53 in resolv.conf mode, the file
    stays as it is; a drop-in that is not ours is only ever overwritten.
   */
  lemma ApplyBringsInLine(s: State, c: Config)
    requires Recoverable(s, c.backupPath)
    ensures
      var r := Apply(c, s);
      && r.resolv ==
           (if !c.resolvMounted || (Wanted(c) && c.mode == ResolvConf && c.port != 53) then s.resolv
            else if Wanted(c) && c.mode == ResolvConf then DesiredResolv(c)
            else s.hostOwn)
      && r.dropin ==
           (if Wanted(c) && c.mode == Resolved then (if c.resolvedMounted then Some(DesiredDropin(c)) else s.dropin)
            else if s.dropin.Some? && Ours(s.dropin.value) then None
            else s.dropin)
  {
    hide Ours, DesiredResolv, DesiredDropin;
    DesiredIsOurs(c);
  }

  /** Switched off, or with no dnsmasq to point at, a call takes everything back: by the raw settings. */
  lemma OffTakesBack(s: State, c: Config)
    requires Recoverable(s, c.backupPath) && c.resolvMounted && (c.mode == Off || !c.dnsmasqRuns)
    ensures
      var r := Apply(c, s);
      r.resolv == s.hostOwn && !Ours(r.resolv) && (r.dropin.Some? ==> !Ours(r.dropin.value))
  {
    hide Ours, DesiredResolv, DesiredDropin;
  }

  /** Switched on, with dnsmasq there and what the mode needs mounted, it puts the configured redirect in place. */
  lemma OnRedirects(s: State, c: Config)
    requires c.dnsmasqRuns
    ensures c.mode == ResolvConf && c.port == 53 && c.resolvMounted ==> Apply(c, s).resolv == DesiredResolv(c)
    ensures c.mode == Resolved && c.resolvedMounted ==> Apply(c, s).dropin == Some(DesiredDropin(c))
  {
    hide Ours, DesiredResolv, DesiredDropin;
  }

  /** In reachable states applying twice is applying once. */
  lemma ApplyIdempotent(s: State, c: Config)
    requires WellKept(s)
    ensures Apply(c, Apply(c, s)) == Apply(c, s)
  {
    hide Ours, DesiredResolv, DesiredDropin;
    DesiredIsOurs(c);
  }

  /** After applying, redirect and drop-in are never both in force, provided resolv.conf and the backup are within reach. */
  lemma NeverBoth(s: State, c: Config)
    requires Recoverable(s, c.backupPath) && c.resolvMounted
    ensures !Both(Apply(c, s))
  {
    hide Ours, DesiredResolv, DesiredDropin;
    DesiredIsOurs(c);
  }

  ghost predicate Both(s: State) {
    Ours(s.resolv) && s.dropin.Some? && Ours(s.dropin.value)
  }

  /**
    Exactly when both end up in force, in every reachable state: the redirect is
    in place but cannot be given back (the file or a backup is out of reach), and
    the drop-in is (or already was) written.
   */
  lemma BothInForceIff(s: State, c: Config)
    requires WellKept(s)
    ensures Both(Apply(c, s))
       <==> Ours(s.resolv) && !(c.resolvMounted && c.backupPath in s.backups) && Wanted(c) && c.mode == Resolved
            && (c.resolvedMounted || (s.dropin.Some? && Ours(s.dropin.value)))
  {
    hide Ours, DesiredResolv, DesiredDropin;
    DesiredIsOurs(c);
  }

  /** It happens: resolv.conf is unmounted before the mode changes to systemd-resolved. */
  lemma BothInForce(own: string, path: string)
    requires !Ours(own)
    ensures
      var s := State(own, map[], None, own);
      var c := Redirecting(path).(mode := Resolved, resolvMounted := false);
      Both(Apply(c, Apply(Redirecting(path), s)))
  {
    hide Ours, DesiredResolv, DesiredDropin;
    DesiredIsOurs(Redirecting(path));
    DesiredIsOurs(Redirecting(path).(mode := Resolved, resolvMounted := false));
  }

  /** The redirect names a resolver other than the one the configuration runs. */
  ghost predicate Stale(c: Config, s: State) {
    Ours(s.resolv) && !(Wanted(c) && c.mode == ResolvConf && c.port == 53 && s.resolv == DesiredResolv(c))
  }

  /**
    Applying is meant never to leave a stale redirect behind. In every reachable
    state it does so exactly when resolv.conf mode is kept while dnsmasq moves
    off port 53 (that early return undoes nothing) or the file is out of reach,
    and otherwise when the file or its backup is.
   */
  lemma StaleRedirectIff(s: State, c: Config)
    requires WellKept(s)
    ensures Stale(c, Apply(c, s))
       <==> Ours(s.resolv)
            && (if Wanted(c) && c.mode == ResolvConf
                then c.port != 53 || (!c.resolvMounted && s.resolv != DesiredResolv(c))
                else !(c.resolvMounted && c.backupPath in s.backups))
  {
    hide Ours, DesiredResolv, DesiredDropin;
    DesiredIsOurs(c);
  }

  /** It happens: dnsmasq moves to another port, and the redirect stays as it was. */
  lemma StaleRedirectRemains(own: string, path: string, port: nat)
    requires !Ours(own) && port != 53
    ensures
      var taken := Apply(Redirecting(path), State(own, map[], None, own));
      var c := Redirecting(path).(port := port);
      Apply(c, taken) == taken && Stale(c, taken)
  {
    hide Ours, DesiredResolv, DesiredDropin;
    DesiredIsOurs(Redirecting(path));
  }

  /** `restore` gives resolv.conf back but leaves the drop-in as it is, although it is described as undoing everything. */
  lemma RestoreKeepsDropin(s: State, c: Config)
    ensures Restore(c, s).dropin == s.dropin
    ensures c.mode == Resolved && Wanted(c) && c.resolvedMounted && c.resolvMounted && Recoverable(s, c.backupPath) ==>
              var r := Restore(c, Apply(c, s)); r.dropin == Some(DesiredDropin(c)) && r.resolv == s.hostOwn
  {
    hide Ours, DesiredResolv, DesiredDropin;
  }
}
