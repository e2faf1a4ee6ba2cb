# Verified model of korserver's moving parts

korserver runs an OpenConnect server whose client traffic can be sent on through
several outbound tunnels. A watchdog process, an API process, command-line calls
and the tunnels' own hook scripts all work on the same kernel rules, routing
tables, nftables sets, marker files and caches. This project models that shared
state in Dafny 4.11 and proves what every interleaving, run or input keeps.
`dafny verify dfyconfig.toml` checks everything.

## How the model is laid out

| files | what they are about |
|---|---|
| `Options`, `Text`, `Lines` | option type, Python's string stripping, splitting and line breaking |
| `Profiles` | upstream profiles, their device, fwmark and table, validated configurations |
| `PolicyRouting` | the kernel's `ip rule` and `ip route` state and the service that changes it |
| `Upstream`, `UpstreamService` | every locked operation as a function of a world of outside events, and the imperative service proved equal to it |
| `UpstreamRouting`, `UpstreamHealing`, `UpstreamOutcomes`, `UpstreamRecovery` | what all runs of those operations keep, what each puts in place and leaves alone, and what `recover` and the enablement pass achieve |
| `UpstreamLock`, `UpstreamSerial` | the reentrant file lock as a state machine over single statements, and why its interleavings are runs of whole operations |
| `Watchdog`, `WatchdogRuns` | the endless loop of `korctl upstream watch`, alone and joined with the state it watches |
| `MarkerFile` | the active-profile marker, as far as names survive it |
| `Targets`, `TargetIdentity`, `ProfileEdits`, `Fingerprint` | routing targets computed from configuration and pushed lists |
| `PushedRouting`, `PushedRoutingRuns` | lock-free hook writes against concurrent appliers |
| `NftablesScripts`, `NftablesSets` | the refresh script and the full definition as commands on the live sets, and what an apply leaves in them |
| `StaleTargets`, `StaleInstances` | cleaning up after vanished targets, and two configuration changes it gets wrong |
| `HostDns` | taking over the host's resolver and giving it back |
| `CertPin` | the DER walker behind certificate pins |
| `Redaction`, `RedactionEdits` | masking secrets and putting them back, also into rearranged lists |
| `AuthRegistry`, `AuthSessions`, `LoginFailures` | sessions and failed logins against their full history |
| `Ocpasswd`, `UserGroups`, `UserConfigFile`, `UserConfigRoundTrip` | the password file and the per-user configuration file, character by character |
| `LogStamps`, `LogTimes` | stable timestamps for log lines, and which poll each one is from |

Code that changes state in place is a class or a method with loops, proved
against a function; the lemmas are about the function. What the service cannot
decide (does a dial succeed, does `nft` load, which tunnels die, what the kernel
purges, which profiles own a target at that moment) is read from a `World`, one
event per question. Deaths and purges happen between any two steps of an
operation, not only between operations. Every theorem is for all worlds unless
its row says that no tunnel dies meanwhile.

## What turned out not to hold

The code was followed; each point has its lemma.

- With `client_traffic` off, re-applying the default target points its table at
  the main interface although the selected tunnel is up. The route follows the
  selection over all runs exactly for the configurations `Immune` describes
  (`UpstreamRouting.RouteFollowsSelectionIff`, `ClientTrafficOffMisroutes`).
- A pushed list that returns to an earlier content can be lost: marker and store
  agree again while an output shows something else. For any number of profiles
  this is exactly the case of a repeated content (`PushedRoutingRuns.NeverLostIffNoRepeats`).
- A changed fingerprint need not mean changed targets. It does exactly when, with
  the upstream on, some profile's host side makes something else of its two lists
  (`Fingerprint.FingerprintExactIff`, with an instance in `FingerprintNotTight`).
- Stale targets are found by name only: a profile that keeps its name and moves
  to another mark or table leaves its old rule behind, although the docstring
  counts a changed `routing_offset` as stale (`StaleTargets.MovedTargetLeaksIff`;
  an instance is `StaleInstances.ChangedOffsetLeaks`). Cleanup runs after
  re-assertion, so a reused mark and table loses its rule (`StaleTargets.CurrentKeepsRuleIff`).
- Deleting a profile renumbers the later ones (`ProfileEdits.DeleteRenumbersIff`,
  `DeleteMovesDeviceIff`):
  with the middle one of three gone, the next takes over its mark and table and
  then loses its rule to the cleanup (`StaleInstances.DeletionTakesNeighboursRule`).
- The host's resolver comes back only while `data_dir` stays where the backup was
  made: after a move `restore` finds nothing, or an older backup, and a further
  apply names a backup it never wrote (`HostDns.RestoreGivesBackHostIff`,
  `RestoreGivesBackByHistoryIff`, `MovedDirectoryStrands`, `MovedDirectoryRestoresOld`).
- In `resolv_conf` mode a dnsmasq that moves off port 53 leaves the old redirect
  in place (`HostDns.StaleRedirectIff`, `StaleRedirectRemains`); `restore` leaves
  the drop-in file although it is described as undoing everything
  (`HostDns.RestoreKeepsDropin`); redirect and drop-in are both in force when
  resolv.conf or the backup is out of reach (`HostDns.BothInForceIff`, `BothInForce`).
- Items taken out of a masked list leave the later ones with the wrong secrets:
  the outcome is right if and only if every item moved up hides the same values in
  the same places as the one it replaces, whatever else they hold
  (`RedactionEdits.RemovalKeepsTheRightSecretsIff`). Of two profiles with the first
  removed, the other gets its password (`ProfileRemovalIff`, `RemovalGivesWrongPassword`).
- The login limit holds for one request at a time and no more: `k` requests past
  their check can put exactly `limit - 1 + k` failures into one window
  (`LoginFailures.WindowBound`, `BoundIsReached`, `LimitHoldsIff`).
- With `connect_on_boot` off the upstream is said to stay disconnected after a
  restart. The watchdog does leave the selected profile alone, but it dials every
  enabled standby (`WatchdogRuns.BootGateDialsNobodyIff`, `StandbysDialledAtBoot`).
- A password directly after the name, followed by another field, is written over
  by the groups, or dropped when they are cleared, unless another field repeats it
  (`Ocpasswd.PasswordSurvivesIff`, `HashLost`, `HashLostByClearing`). A lock that
  stands on the group field alone is lost (`Ocpasswd.LockKeptIff`, `LockLost`).
- A disabled `active_profile` means that nobody is selected, although the docstring
  also says that the first enabled profile takes over then (`Profiles.NamedIsSelected`).
- Port rules may hold line breaks and then do not come back from the per-user
  file (`UserConfigRoundTrip.PortRulesMayNotComeBack`).
- A poll forgets all older markers exactly when its size is below the last recorded
  one, so two polls whose sizes are recorded in the wrong order look like a
  truncation (`LogStamps.RecordingForgetsIff`, `OutOfOrderPollsForget`).
- A profile name with a trailing line feed passes the pattern, but the marker
  never finds it again (`MarkerFile.MarkerFindsNameIff`, `NameNotFound`).

## Model

| member | source | states |
|---|---|---|
| `Profiles.HexRoundTrip` | backend/korserver/services/routing.py:385-451 | a mark printed in hexadecimal at any padding reads back as the same number |
| `Profiles.MarkTextValue` | backend/korserver/services/routing.py:385-451 | the mark text derived for a profile denotes exactly the base mark plus its offset |
| `Profiles.NameIdentifies` | backend/korserver/config/models.py:531-567 | in a validated configuration equal name, device, offset or normalised name means the same profile |
| `Profiles.IndexOf` | backend/korserver/config/models.py:588-621 | the position used for device and offset is the first one of that name |
| `Profiles.FirstEnabled` | backend/korserver/config/models.py:569-586 | the fallback selection is enabled, and exists whenever some profile is enabled |
| `Profiles.ConfigSelected` | backend/korserver/config/models.py:569-586 | the selection is one of the configured profiles and enabled; who it is, is in the next two rows |
| `Profiles.NamedIsSelected` | backend/korserver/config/models.py:569-586 | a profile named by active_profile is the selection if it is enabled, and otherwise nobody is |
| `Profiles.UnnamedSelectsLeast` | backend/korserver/config/models.py:583-586 | with none named it is the enabled profile of least position, and nobody exactly when none is enabled |
| `Profiles.PlaceDecides` | backend/korserver/config/models.py:588-621 | without explicit settings the i-th profile has offset i (counted from one), and the first the top-level device, later ones oc-up with their position |
| `Profiles.SafeNameFits` | backend/korserver/config/models.py:122-129 | a normalised name has only a-z, 0-9 and underscore, letters lowered; a name is its own normalised form exactly when it has only those |
| `PolicyRouting.PolicyRoutingService.ApplyRoute` | backend/korserver/services/policy_routing.py:50-72 | delete, add and replace leave the kernel in the state `Apply` describes; ok exactly when the device is up |
| `PolicyRouting.PolicyRoutingService.EnsureRoute` | backend/korserver/services/policy_routing.py:74-105 | the rule is added only when none for the mark and table is present, then the route replaced |
| `PolicyRouting.PolicyRoutingService.IsRulePresent` | backend/korserver/services/policy_routing.py:107-128 | the search over the listing answers whether some rule has this mark and table, at any priority |
| `PolicyRouting.PolicyRoutingService.CleanupRoute` | backend/korserver/services/policy_routing.py:130-148 | own rule deleted and table flushed, nothing else |
| `PolicyRouting.EnsureIdempotent` | backend/korserver/services/policy_routing.py:74-105 | ensure twice is ensure once, no rule is ever deleted, every other mark and table is as before, the table leads to the device if it is up |
| `PolicyRouting.ApplyThenCleanup` | backend/korserver/services/policy_routing.py:50-148 | after apply the marked traffic reaches the device; cleanup then leaves what cleanup alone would leave, and touches nobody else |
| `Upstream.Connect` | backend/korserver/services/upstream.py:534-597 | a connect dials only its own profile, at most once; on failure it is not connected; without deaths nobody else's connection changes (its routes are in UpstreamOutcomes) |
| `Upstream.Disconnect` | backend/korserver/services/upstream.py:636-681 | the profile is down afterwards, marker and dials untouched, without deaths nobody else goes down |
| `Upstream.Switch` | backend/korserver/services/upstream.py:323-337 | the marker names the profile, nothing is dialled or torn down |
| `Upstream.EnforceOne` | backend/korserver/services/upstream.py:745-781 | a disabled profile goes down, an enabled standby is dialled only if it was down, the active one is left alone |
| `Upstream.Attempt` | backend/korserver/services/upstream.py:783-854 | one candidate: a standby that is up is adopted without dialling, every other one, also a live active one, is dialled anew; success adopts it, failure leaves it down and the marker where it was |
| `Upstream.Selected` | backend/korserver/services/upstream.py:155-170 | the first marker line naming a known profile decides; the result is always an enabled profile |
| `UpstreamOutcomes.MarkerDecides` | backend/korserver/services/upstream.py:155-170 | the first marker line that names a profile decides: that profile if enabled, nobody if not |
| `UpstreamOutcomes.ConfigurationDecides` | backend/korserver/services/upstream.py:155-170 | a marker that names nobody, or none, leaves the choice to the configuration |
| `UpstreamOutcomes.NamedOperations` | backend/korserver/services/upstream.py:534-681 | an operation by name acts on that profile and no other, dials it exactly when it is down, and does nothing for an unknown name |
| `UpstreamOutcomes.UnnamedOperations` | backend/korserver/services/upstream.py:534-681 | without a name it acts on the selected profile, or on nobody |
| `UpstreamService.Service.SelectedProfile` | backend/korserver/services/upstream.py:155-170 | the loop over the marker lines computes the specified selection |
| `MarkerFile.MarkerFindsNameIff` | backend/korserver/services/upstream.py:155-170 | a name the pattern admits, written by a switch, is found again if and only if it has no trailing line feed |
| `MarkerFile.NameNotFound` | backend/korserver/services/upstream.py:155-170 | instance: a one-letter name with a line feed |
| `UpstreamService.Service.ReassertPolicyRouting` | backend/korserver/services/nftables.py:177-225 | the loop over all targets has exactly the specified effect under interference |
| `UpstreamService.Service.CleanupStaleTargets` | backend/korserver/services/nftables.py:227-268 | the loop over the recorded names, and the rewritten record, are as specified |
| `UpstreamService.Service.NftApply` | backend/korserver/services/nftables.py:44-87 | routing is touched only after a successful load, re-assertion first, cleanup second |
| `UpstreamService.Service.SwitchProfile` | backend/korserver/services/upstream.py:323-337 | the fields and the kernel after a switch are the specified ones |
| `UpstreamService.Service.Connect` | backend/korserver/services/upstream.py:534-631 | the fields and the kernel after a connect, and whether it raises, are the specified ones |
| `UpstreamService.Service.Disconnect` | backend/korserver/services/upstream.py:636-681 | the fields and the kernel after a disconnect are the specified ones |
| `UpstreamService.Service.EnsurePolicyRouting` | backend/korserver/services/upstream.py:725-743 | default route of the selected profile first, then the loop over connected owners of targets |
| `UpstreamService.Service.EnforceProfileEnablement` | backend/korserver/services/upstream.py:745-781 | the loop over all profiles, with the active one read once, has the specified effect |
| `UpstreamService.Service.Recover` | backend/korserver/services/upstream.py:783-854 | the loop over the candidates in rotation order has the specified effect and answer |
| `UpstreamService.Service.ApplyServerRoutingIfChanged` | backend/korserver/services/upstream.py:929-963 | re-applies for the selected device when the world says the lists changed |
| `UpstreamRouting.TablesApart` | backend/korserver/config/models.py:603-621 | no profile's table or mark is the default one, and equal tables or marks mean the same profile |
| `UpstreamRouting.PulseKeeps` | backend/korserver/services/upstream.py:783-854 | tunnels dying, devices bouncing and routes being purged never break the invariant |
| `UpstreamRouting.NftApplyKeeps` | backend/korserver/services/nftables.py:44-87 | a re-apply with the selected device keeps isolation and the route of the selection |
| `UpstreamRouting.SwitchKeeps` | backend/korserver/services/upstream.py:323-337 | a switch keeps the invariant although the marker moves first |
| `UpstreamRouting.ConnectKeeps` | backend/korserver/services/upstream.py:534-597 | a connect keeps the invariant, also when the dialled profile is the selected one |
| `UpstreamRouting.DisconnectKeeps` | backend/korserver/services/upstream.py:636-681 | a disconnect keeps the invariant |
| `UpstreamRouting.EnsureRoutingKeeps` | backend/korserver/services/upstream.py:725-743 | healing keeps the invariant |
| `UpstreamRouting.AttemptKeeps` | backend/korserver/services/upstream.py:783-854 | one turn of the recovery loop keeps the invariant |
| `UpstreamRouting.StepKeeps` | backend/korserver/services/upstream.py:323-854 | every locked operation keeps the invariant in every world |
| `UpstreamRouting.RunKeeps` | backend/korserver/services/upstream.py:323-854 | over every run: while the selected profile is connected the default table is empty or leads to its device, and every profile's own table only to its own device |
| `UpstreamRouting.MarkedTrafficStaysHome` | backend/korserver/services/upstream.py:323-854 | after every run, marked traffic can leave only through the device of the profile that owns the mark, default-marked traffic only through the selected one |
| `UpstreamRouting.ClientTrafficOffMisroutes` | backend/korserver/services/nftables.py:177-225 | with client traffic off, one refresh from a good state points the default table elsewhere |
| `UpstreamRouting.RouteFollowsSelectionIff` | backend/korserver/services/nftables.py:177-225 | the default route follows the selection over all worlds and runs if and only if the configuration is one where re-assertion cannot mean another device |
| `UpstreamHealing.EnsureHeals` | backend/korserver/services/upstream.py:725-743 | nothing interfering: afterwards the connected selected profile carries the default mark, and every connected owner of a target its own, each through its own table and device |
| `UpstreamHealing.SwitchRoutes` | backend/korserver/services/upstream.py:323-337 | in every world: if the profile switched to is connected at the end, the default mark leads to its device |
| `UpstreamHealing.AfterDialRoutes` | backend/korserver/services/upstream.py:534-597 | after an undisturbed dial, with or without a pushed-list refresh behind it, the profile carries the default mark if selected, and its own mark if it owns a target, unless that refresh re-applies and cleans up a vanished target of the same table; the default mark also needs the configuration of `RouteFollowsSelectionIff` then |
| `UpstreamHealing.DisconnectClears` | backend/korserver/services/upstream.py:636-681 | in every world: rule and route of whatever the profile carried are gone |
| `UpstreamOutcomes.LoadRecords` | backend/korserver/services/nftables.py:44-87 | a load answers what nft says; a failed one changes neither rules nor record, a successful one records exactly the current targets |
| `UpstreamOutcomes.SwitchTouches` | backend/korserver/services/upstream.py:323-337 | in every world a switch leaves the rules and the record of one load, plus the default rule if the profile is connected, and nothing else |
| `UpstreamOutcomes.SwitchWhileDown` | backend/korserver/services/upstream.py:323-337 | undisturbed: switching to a profile that is down points the default table at its device if that exists and else leaves it alone, never at the device left behind |
| `UpstreamOutcomes.ConnectRoutes` | backend/korserver/services/upstream.py:534-597 | an undisturbed connect that succeeds leaves the default mark on the profile if selected and its own mark if it owns a target, selected or not; a refresh behind it can take that only through a vanished target of the same table |
| `UpstreamOutcomes.ConnectedOwnerIsRouted` | backend/korserver/services/upstream.py:584-591 | in particular a dialled owner of a target gets its own rule and route, standby or not |
| `UpstreamOutcomes.ConnectOtherwise` | backend/korserver/services/upstream.py:534-583 | a connect of a profile that is up does nothing; a failed one leaves the rules and record of its load and no rule or route more |
| `UpstreamOutcomes.DisconnectTouchesOnly` | backend/korserver/services/upstream.py:636-681 | in every world: no rule goes but the profile's own and, if selected, the default one; no route comes, none stays through its device |
| `UpstreamOutcomes.DisconnectKeepsRoutes` | backend/korserver/services/upstream.py:636-681 | undisturbed: every other table keeps its route unless that led through the profile's device |
| `UpstreamOutcomes.EnsureTouchesOnly` | backend/korserver/services/upstream.py:725-743 | in every world healing removes no rule and adds rules and routes only for the connected selected profile and connected owners of targets |
| `UpstreamOutcomes.EnsureSkips` | backend/korserver/services/upstream.py:117-153 | with the upstream off, or for a profile called like the default target, it adds none |
| `UpstreamOutcomes.DisabledIsCleared` | backend/korserver/services/upstream.py:745-781 | enforcement takes the rule and route of a disabled connected owner of a target away, in every world |
| `UpstreamOutcomes.StandbyIsRouted` | backend/korserver/services/upstream.py:745-781 | a standby brought up by enforcement, undisturbed, carries its own mark if it owns a target |
| `UpstreamRecovery.RotationPermutes` | backend/korserver/services/upstream.py:783-854 | the modular order is a permutation of the enabled names beginning at the current one |
| `UpstreamRecovery.OrderFollowsList` | backend/korserver/services/upstream.py:820-824 | behind each candidate comes the next enabled name in list order, behind the last the first |
| `UpstreamRecovery.EnabledNamesInOrder` | backend/korserver/services/upstream.py:804 | the enabled names stand in the order of the profile list |
| `UpstreamRecovery.OrderIsSound` | backend/korserver/services/upstream.py:783-854 | candidates are distinct enabled profiles, the current one first, all of them with failover |
| `UpstreamRecovery.TryDials` | backend/korserver/services/upstream.py:783-854 | whatever happens, the names dialled are a prefix of the order, and all of it when no candidate succeeds |
| `UpstreamRecovery.TryAdopts` | backend/korserver/services/upstream.py:783-854 | the marker moves only to a candidate and only candidates can come up |
| `UpstreamRecovery.RecoverDials` | backend/korserver/services/upstream.py:783-854 | each candidate is dialled at most once and in order, all of them before giving up; no disabled profile is ever dialled, adopted or brought up |
| `UpstreamRecovery.RecoverRedials` | backend/korserver/services/upstream.py:829-836 | in every world the active profile is dialled first, whether or not its tunnel still stands |
| `UpstreamRecovery.RecoverSparesStandbys` | backend/korserver/services/upstream.py:837-849 | no tunnel dying meanwhile, a standby that is up is adopted without being dialled |
| `UpstreamOutcomes.RecoverRoutes` | backend/korserver/services/upstream.py:783-854 | a recovery that succeeds reconnected the active profile at the first attempt, or, in every world, the marker names another enabled profile and the default mark leads to it if it is still up |
| `UpstreamOutcomes.ReconnectedIsRouted` | backend/korserver/services/upstream.py:829-836 | an undisturbed reconnect, with no pushed list changed, leaves the active profile up and carrying the default mark |
| `UpstreamRecovery.RecoverOutcome` | backend/korserver/services/upstream.py:783-854 | no tunnel dying meanwhile: True means the selected profile is the first of the order that is up; False means the marker is unchanged and, with failover, no enabled profile is up |
| `UpstreamRecovery.EnforceTearsDown` | backend/korserver/services/upstream.py:745-781 | after its turn a disabled profile is down in every world |
| `UpstreamRecovery.EnforceKeepsWarm` | backend/korserver/services/upstream.py:745-781 | no tunnel dying meanwhile, every enabled standby is up or was dialled in this call |
| `UpstreamRecovery.EnforceOutcome` | backend/korserver/services/upstream.py:745-781 | no disabled profile stays connected, the active one is never dialled, its connection and the marker are untouched |
| `UpstreamRecovery.EnforceDialsNobodyIff` | backend/korserver/services/upstream.py:745-781 | no tunnel dying meanwhile, enforcement dials nobody if and only if every enabled standby is up |
| `UpstreamRecovery.TickKeepsRecovered` | backend/korserver/cli.py:676-704 | a connection made by `recover` in a tick survives the enforcement and the pushed-list refresh that end the tick, and stays selected |
| `UpstreamLock.DoKeeps` | backend/korserver/services/upstream.py:78-112 | every single statement of any instance keeps the lock invariant and the serial order of writes |
| `UpstreamLock.MutualExclusion` | backend/korserver/services/upstream.py:78-112 | over every interleaving at most one instance has positive depth, positive depth means holding the file lock, writes form undivided blocks per grant |
| `UpstreamLock.OnlyOutermostReleases` | backend/korserver/services/upstream.py:78-112 | the lock is given up only by the outermost exit or by dying |
| `UpstreamLock.ReentryNeverBlocks` | backend/korserver/services/upstream.py:78-112 | whoever is inside can enter and leave a nested section and is back where it was |
| `UpstreamLock.ServiceLock.Enter` | backend/korserver/services/upstream.py:78-112 | once `flock` would not block: depth grows by one and the file lock is held |
| `UpstreamLock.ServiceLock.Exit` | backend/korserver/services/upstream.py:78-112 | depth shrinks by one and the file lock is released exactly at zero |
| `UpstreamSerial.ReplayIsInTurn` | backend/korserver/services/upstream.py:78-112 | replaying any log ordered by grant, statement by statement, is performing the grants in turn, each with its own statements, also those cut short |
| `UpstreamSerial.OneGrantAtATime` | backend/korserver/services/upstream.py:78-112 | over every interleaving of any number of instances, dying anywhere, the writes have the effect of the grants in turn, none twice |
| `UpstreamSerial.Serializable` | backend/korserver/services/upstream.py:78-112 | while nobody has died in the middle, that is a run of the operations, one per grant in the order of the grants, followed by what the instance inside has done |
| `UpstreamSerial.InterleavedKeeps` | backend/korserver/services/upstream.py:78-112 | so the routing invariant of runs holds between any two operations of any interleaving |
| `Watchdog.Watch` | backend/korserver/cli.py:660-716 | the loop calls `recover` at exactly the ticks the specification says |
| `Watchdog.FailuresCountTheStreak` | backend/korserver/cli.py:676-699 | the counter is the number of counted ticks in the current streak and stays below the threshold |
| `Watchdog.RecoversIffStreakComplete` | backend/korserver/cli.py:676-699 | `recover` runs exactly when the streak reaches the threshold, with no healthy tick among it |
| `Watchdog.CountsIff` | backend/korserver/cli.py:676-699 | a tick counts exactly when an enabled, selected profile is unhealthy, the watchdog is awake (connect_on_boot, or an earlier healthy tick or successful recovery) and the window of the last success is over |
| `Watchdog.RecoversByTicksIff` | backend/korserver/cli.py:676-699 | by the ticks alone: `recover` runs exactly at the threshold-th such tick since the streak of unhealthy ticks began |
| `Watchdog.BootRecovers` | backend/korserver/cli.py:687-698 | with connect_on_boot on it runs at the tick completing the first streak after the start, connected before or not |
| `Watchdog.StreakTakesTime` | backend/korserver/cli.py:676-716 | after a success the m-th counted failure comes no earlier than the settle window plus m - 1 intervals |
| `Watchdog.RecoverySpacing` | backend/korserver/cli.py:676-716 | after a successful recovery the next starts no earlier than settle plus (threshold - 1) intervals later, its whole streak after the success |
| `Watchdog.NoRecoveryBeforeFirstHealthy` | backend/korserver/cli.py:676-699 | with connect_on_boot off `recover` is not called before the first healthy tick |
| `WatchdogRuns.LoopIsRun` | backend/korserver/cli.py:676-716 | with selection and recovery answered by the tunnels' own state and other processes slipping in anywhere, the watchdog's effect is a run of locked operations |
| `WatchdogRuns.RecoveringIsSeen` | backend/korserver/cli.py:676-716 | that joined loop calls `recover` at exactly the ticks at which the bare loop does on what it sees |
| `WatchdogRuns.LoopKeeps` | backend/korserver/cli.py:676-716 | under any watchdog and any other processes the default route stays with the selection and marks stay apart |
| `WatchdogRuns.DisabledStayDown` | backend/korserver/cli.py:700-704 | in every world no disabled profile is connected when a tick of its own ends |
| `WatchdogRuns.HealthyTickHeals` | backend/korserver/cli.py:680-686 | after an undisturbed healthy tick with nobody to dial or tear down, the selected profile carries the default mark and every connected owner its own |
| `WatchdogRuns.RecoveryHolds` | backend/korserver/cli.py:689-716 | after a tick whose `recover` succeeds the selected profile is enabled and connected if no tunnel dies, and `recover` is not called for settle plus threshold - 1 intervals |
| `WatchdogRuns.BootGateDialsNobodyIff` | backend/korserver/config/models.py:517-523 | with connect_on_boot off and nothing healthy yet the selected profile is never dialled, and nobody is if and only if every other enabled profile is up already |
| `WatchdogRuns.StandbysDialledAtBoot` | backend/korserver/cli.py:665-704 | right after boot one unhealthy tick dials somebody wherever a second profile is enabled |
| `PushedRouting.ActorKeeps` | backend/korserver/services/upstream.py:929-963 | the acting process never renders from contents older than what it fingerprinted or the marker claims |
| `PushedRouting.OutputsKeep` | backend/korserver/services/upstream.py:929-963 | marker at version v implies both outputs rendered from v or newer, file by file |
| `PushedRouting.StepKeeps` | backend/korserver/services/upstream.py:864-963 | every step of any process keeps that invariant |
| `PushedRouting.FailedLoadLeavesOutputs` | backend/korserver/services/upstream.py:929-963 | a failed load gives the lock back and leaves outputs and marker; only marking moves the marker |
| `PushedRoutingRuns.UndisturbedPass` | backend/korserver/services/upstream.py:929-963 | one pass with nobody else about: if the fingerprint is new, or the pass forced, both outputs and the marker show the current store; otherwise nothing changes |
| `PushedRoutingRuns.NoLostUpdate` | backend/korserver/services/upstream.py:864-963 | over every interleaving, if no content repeats, a marker equal to the store's fingerprint means both outputs show the current store |
| `PushedRoutingRuns.PlainRenderLoses` | backend/korserver/services/upstream.py:323-337 | a run, for every profile whose history returns to its first content, in which a switch's render is left behind |
| `PushedRoutingRuns.StaleMarkLoses` | backend/korserver/services/upstream.py:929-963 | a run, for every profile whose history returns to a later content, in which a stale fingerprint is marked |
| `PushedRoutingRuns.NeverLostIffNoRepeats` | backend/korserver/services/upstream.py:864-963 | for any number of profiles: nothing is ever lost while their histories of changes are written, in whatever interleaving, if and only if no profile's content comes back |
| `Targets.PushedRoutingStore.SaveHandshake` | backend/korserver/services/upstream_pushed.py:155-159 | handshake lists replace the profile's own, the sync time stays, no other profile changes |
| `Targets.PushedRoutingStore.FingerprintParts` | backend/korserver/services/upstream_pushed.py:168-183 | the loop builds one part per profile with pushed lists in force |
| `Targets.MergeIsUnion` | backend/korserver/services/routing.py:496-505 | merging keeps the order of what was there and adds each real item exactly once |
| `Targets.MergeUnique` | backend/korserver/services/routing.py:496-505 | the nested loops merge all sources in order |
| `Targets.ListTargets` | backend/korserver/services/routing.py:324-451 | the loop yields the default target and then one per profile with traffic of its own |
| `Targets.TargetCarriesExactly` | backend/korserver/services/routing.py:396-449 | a profile has a target exactly when clients or the host have something to send through it; its host lists hold every offered item of their family exactly once and nothing else |
| `Targets.ClientListsExactly` | backend/korserver/services/routing.py:385-451 | a target carries the profile's own client lists exactly while its client side is on, and server lists only while the host side is active |
| `Targets.RefusedListsChangeNothing` | backend/korserver/services/upstream_pushed.py:161-167 | whatever is stored for a profile that does not accept pushed routes, or whose host side is off, changes no target |
| `Targets.AcceptedListsArrive` | backend/korserver/services/routing.py:396-449 | what is stored for one that does stands in its target: routes by family, domains with their resolvers |
| `Targets.DefaultTargetBlocks` | backend/korserver/services/routing.py:324-384 | the default target has the kill switch exactly when upstream and client traffic are on and somebody is selected, and names domains only in split mode |
| `Targets.SideOf` | backend/korserver/services/routing.py:385-451 | a profile's target carries that profile's mark, table, device and normalised name |
| `Targets.TargetsAreAssignments` | backend/korserver/services/routing.py:324-451 | what is rendered and what the routing operations act on are the same list |
| `TargetIdentity.SetNameInjective` | backend/korserver/renderers/nftables.py:102-141 | a set name determines family, kind, owner and whether it is static, for all profile names |
| `TargetIdentity.IdentitiesDistinct` | backend/korserver/services/routing.py:324-451 | all targets have pairwise different marks, tables and set names, none collides with the host sets, no table is reserved |
| `TargetIdentity.TargetsIsolated` | backend/korserver/services/policy_routing.py:50-148 | apply, ensure or cleanup on one target leaves every other target's rule and route as they were |
| `ProfileEdits.SaveKeepsOthers` | backend/korserver/api/routes_upstream.py:200-209 | saving a profile changes no other profile's mark, table, device or set names |
| `ProfileEdits.SaveKeepsOwn` | backend/korserver/api/routes_upstream.py:195-209 | nor its own while explicit device and offset are carried over |
| `ProfileEdits.SavedList` | backend/korserver/api/routes_upstream.py:200-209 | a profile of a new name goes to the end of the list, one of a known name takes the old one's place |
| `ProfileEdits.WithoutIsGap` | backend/korserver/api/routes_upstream.py:292-298 | a delete takes out that profile and keeps the others in order |
| `ProfileEdits.DeleteRenumbersIff` | backend/korserver/api/routes_upstream.py:292-298 | a delete moves another profile's offset exactly when that profile is later and has no explicit one |
| `ProfileEdits.DeleteMovesDeviceIff` | backend/korserver/config/models.py:588-601 | and its device exactly when it is later and has no explicit one, unless the second profile moves to a top-level device of the same name |
| `Fingerprint.PartsDetermine` | backend/korserver/services/upstream_pushed.py:168-183 | equal part lists mean equal effective lists profile by profile |
| `Fingerprint.FingerprintSound` | backend/korserver/services/upstream_pushed.py:161-183 | stores with equal parts give targets equal in every field but server DNS without server domains |
| `Fingerprint.TargetsAgreeIff` | backend/korserver/services/upstream_pushed.py:161-183 | two stores render the same targets if and only if upstream is off or every profile's host side, where active, makes the same of both lists |
| `Fingerprint.FingerprintExactIff` | backend/korserver/services/upstream_pushed.py:161-183 | the parts of two stores differ exactly when the targets do, if and only if the parts are equal or some host side makes something else of its lists |
| `Fingerprint.FingerprintNotTight` | backend/korserver/services/upstream_pushed.py:161-183 | instance: a pushed route the profile already has changes the parts of the configuration and none of its targets |
| `NftablesSets.ExpectedSetNames` | backend/korserver/renderers/nftables.py:102-141 | the growing set ends up with exactly the names of all targets and, if active, the host sets |
| `NftablesScripts.FlushThenAdd` | templates/nftables-static-refresh.nft.j2:6-9 | flushing a set and adding a list, if there is one, leaves exactly that list |
| `NftablesScripts.RefreshTargetsFill` | templates/nftables-static-refresh.nft.j2:5-21 | over all targets: no later flush hits an earlier target's set, each static set ends with exactly its own list, nothing else changes |
| `NftablesScripts.RefreshFills` | templates/nftables-static-refresh.nft.j2:1-28 | on a table with the expected sets the whole script goes through, fills every static set with its target's list and leaves every other set alone |
| `NftablesScripts.DefinitionFills` | templates/nftables.nft.j2:26-130 | the definitions build exactly the expected sets, every static one with its target's list, every dynamic one empty |
| `NftablesScripts.StaticNotDynamic` | backend/korserver/renderers/nftables.py:102-141 | no set is both static and dynamic, whatever the targets are called |
| `NftablesScripts.ExpectedIsBoth` | backend/korserver/renderers/nftables.py:102-141 | the names the readiness test expects are exactly the static and the dynamic ones |
| `NftablesScripts.FilledAgree` | backend/korserver/renderers/nftables.py:81-100 | two tables filled from one configuration hold the same in every static set |
| `NftablesScripts.RenderedTargetsSeparate` | backend/korserver/services/routing.py:324-451 | no two targets of a validated configuration share a set |
| `NftablesSets.NftablesService.Apply` | backend/korserver/services/nftables.py:89-175 | probe, the refresh command by command, and the fallback to a full recreate have the specified effect and answer |
| `NftablesSets.SuccessfulApplyMatches` | backend/korserver/services/nftables.py:89-175 | any successful apply, also one whose table was torn down on the way, leaves exactly the expected sets, each static one with exactly its target's configured list; a failed one changes nothing |
| `NftablesSets.RenderedApplyMatches` | backend/korserver/services/nftables.py:89-175 | the same for the targets of every validated configuration and every store of pushed lists, with no further condition |
| `NftablesSets.RefreshAgreesWithRecreate` | backend/korserver/renderers/nftables.py:81-100 | the refresh script and the full definition, both executed, agree on every static set; the script keeps every dynamic one, the definition empties it |
| `NftablesSets.DynamicSurvivesIff` | backend/korserver/services/nftables.py:89-131 | a resolved address survives a successful apply exactly when the refresh path succeeded |
| `NftablesSets.ResolvedAddressSurvives` | backend/korserver/services/nftables.py:89-131 | an address dnsmasq added survives every run of applies that keep the expected names |
| `NftablesSets.AnyHistoryIsRepaired` | backend/korserver/services/nftables.py:89-175 | after any history one apply whose recreate loads repairs the table |
| `StaleTargets.RulesAfterApply` | backend/korserver/services/nftables.py:177-268 | the rules after an apply are the old and the re-asserted ones minus those recorded under vanished names |
| `StaleTargets.CurrentKeepsRuleIff` | backend/korserver/services/nftables.py:177-268 | a re-asserted target keeps its rule if and only if no vanished target had its mark and table |
| `StaleInstances.DeletionTakesNeighboursRule` | backend/korserver/services/nftables.py:177-268 | instance: the middle one of three profiles deleted, the next takes over its mark and table, is re-asserted and loses its rule in the same apply |
| `StaleTargets.MovedTargetLeaksIff` | backend/korserver/services/nftables.py:227-268 | the rule of a place nobody uses any more survives if and only if some current target still has the recorded name |
| `StaleInstances.ChangedOffsetLeaks` | backend/korserver/services/nftables.py:227-268 | instance: a profile moved from offset 5 to 7 between two applies leaves its old rule, which no current target accounts for |
| `StaleTargets.StaleCleanupRoutes` | backend/korserver/services/nftables.py:177-268 | nothing else happening: vanished tables are empty, re-asserted targets routed, tables of neither kind as before |
| `StaleTargets.AssignmentTablesDiffer` | backend/korserver/services/routing.py:385-451 | two targets of one configuration never share a table |
| `StaleTargets.NoRuleLeaks` | backend/korserver/services/nftables.py:227-268 | over any number of reloads that keep surviving names on their place, every rule is foreign or accounted for by the record |
| `HostDns.HostDnsService.ApplyConfig` | backend/korserver/services/host_dns.py:78-94 | the files after an apply are the specified ones; changed means that something changed |
| `HostDns.HostDnsService.PointResolvConf` | backend/korserver/services/host_dns.py:128-153 | the backup under the data directory of this call is taken only from content that is not ours, then the redirect written |
| `HostDns.HostDnsService.RestoreResolvConf` | backend/korserver/services/host_dns.py:155-163 | only content that is ours is replaced, by the backup under the data directory of this call, if there is one |
| `HostDns.IsOurs` | backend/korserver/services/host_dns.py:208-211 | the search finds the marker exactly when it occurs somewhere |
| `HostDns.StepKeeps` | backend/korserver/services/host_dns.py:78-163 | while the redirect is in place the backup under this directory is the host's last own content, after any call with that directory and any write of the host |
| `HostDns.RunKeepsWell` | backend/korserver/services/host_dns.py:78-163 | over every run, whatever configuration each call sees, nothing of ours is ever put aside as the host's content |
| `HostDns.RunKeeps` | backend/korserver/services/host_dns.py:78-163 | over every run that moves the directory only without a redirect in place, the host's content stays at hand under the current directory |
| `HostDns.OneDirectoryIsClear` | backend/korserver/services/host_dns.py:67-69 | runs that never change the directory satisfy that condition |
| `HostDns.RestoreGivesBackHost` | backend/korserver/services/host_dns.py:96-103 | from every reachable state, the directory having changed only while no redirect was in place, restore yields the host's latest own content |
| `HostDns.RestoreGivesBackHostIff` | backend/korserver/services/host_dns.py:155-163 | after any history a redirect is restored to the host's last own content if and only if the directory of this call holds exactly that; without a backup there it stays |
| `HostDns.RestoreGivesBackByHistoryIff` | backend/korserver/services/host_dns.py:128-163 | by the calls made: a redirect is restored to the host's last own content if and only if some call redirected under this call's directory and the last to do so found exactly that content |
| `HostDns.MovedDirectoryStrands` | backend/korserver/services/host_dns.py:78-163 | instance: with the directory moved under a redirect, off and restore do nothing and a further apply names a backup that does not exist |
| `HostDns.MovedDirectoryRestoresOld` | backend/korserver/services/host_dns.py:155-163 | instance: a stale backup in the new directory comes back instead of what the host wrote since |
| `HostDns.ApplyBringsInLine` | backend/korserver/services/host_dns.py:78-94 | with the backup under this call's directory: exactly what resolv.conf and the drop-in hold after a call, per mode, port and mount |
| `HostDns.OffTakesBack` | backend/korserver/services/host_dns.py:78-94 | switched off, or with dnsmasq not running, the host's own resolv.conf is back and no drop-in of ours is left |
| `HostDns.OnRedirects` | backend/korserver/services/host_dns.py:78-94 | switched on, with dnsmasq running and what the mode needs mounted, the configured redirect is in place |
| `HostDns.RedirectNamesResolver` | backend/korserver/services/host_dns.py:120-126 | the redirect ends in the line naming the configured resolver and says where this call's backup is |
| `HostDns.DropinNamesResolver` | backend/korserver/services/host_dns.py:165-180 | the drop-in has a line naming the configured resolver, with the port exactly when it is not 53 |
| `HostDns.ApplyIdempotent` | backend/korserver/services/host_dns.py:78-94 | applying twice is applying once in every reachable state, wherever the backups are |
| `HostDns.NeverBoth` | backend/korserver/services/host_dns.py:78-94 | with resolv.conf and its backup within reach, redirect and drop-in are never both in force |
| `HostDns.BothInForceIff` | backend/korserver/services/host_dns.py:78-94 | in every reachable state: exactly when both are in force after an apply |
| `HostDns.BothInForce` | backend/korserver/services/host_dns.py:78-94 | instance: resolv.conf unmounted before the mode changes to systemd-resolved |
| `HostDns.StaleRedirectIff` | backend/korserver/services/host_dns.py:128-153 | in every reachable state: exactly when an apply leaves a redirect to another resolver than the configured one |
| `HostDns.StaleRedirectRemains` | backend/korserver/services/host_dns.py:128-153 | instance: dnsmasq moves off port 53 and the redirect stays as it was |
| `HostDns.RestoreKeepsDropin` | backend/korserver/services/host_dns.py:96-103 | restore gives resolv.conf back and leaves the drop-in |
| `CertPin.ReadTlv` | backend/korserver/services/cert_pin.py:45-61 | a successful read lies inside the data, behind its header, and returns the tag byte |
| `CertPin.ReadTlvIff` | backend/korserver/services/cert_pin.py:45-61 | a read succeeds exactly where a tag is followed by a length of one octet below 128, or of one to four octets announced by it, and that much content |
| `CertPin.SubjectPublicKeyInfo` | backend/korserver/services/cert_pin.py:64-81 | the walking loop returns what the specification says, with the same error in the same case |
| `CertPin.SpkiIsInsideTbs` | backend/korserver/services/cert_pin.py:64-81 | on arbitrary bytes, whatever is returned is one whole SEQUENCE element inside tbsCertificate |
| `CertPin.BytesRoundTrip` | backend/korserver/services/cert_pin.py:45-61 | big-endian bytes without leading zeros denote the number they were made from |
| `CertPin.ReadEncoded` | backend/korserver/services/cert_pin.py:45-61 | an element with minimal length octets reads back with its tag and exactly its content, wherever it stands |
| `CertPin.SpkiOfEncoded` | backend/korserver/services/cert_pin.py:64-81 | for every encodable certificate, with or without version, the result is the encoded key |
| `CertPin.PinCoversExactlyTheKey` | backend/korserver/services/cert_pin.py:84-90 | two certificates give the same bytes to pin if and only if their keys are the same |
| `Redaction.SubstituteIsMaskIff` | backend/korserver/services/secrets.py:49-61 | a string is shown as the bare mask exactly when it is one whole reference |
| `Redaction.UnchangedIff` | backend/korserver/services/secrets.py:49-61 | a string is shown unchanged exactly when all references in it are the mask already |
| `Redaction.SubstituteTwice` | backend/korserver/services/secrets.py:49-61 | masking twice is masking once: replacing references never creates one |
| `Redaction.RedactHides` | backend/korserver/services/secrets.py:49-61 | whatever the tree, its redacted form shows no value under a secret key and no reference but the mask |
| `Redaction.ShownAsIsIff` | backend/korserver/services/secrets.py:49-61 | a tree is shown as it is exactly when it has no non-empty value under a secret key and no reference but the mask |
| `Redaction.RestoreUndoesRedactIff` | backend/korserver/api/routes_config.py:227-257 | restoring the redacted tree gives the original back if and only if references occur only as whole strings, also through lists whose key redaction drops |
| `Redaction.MaskFreeIsKept` | backend/korserver/api/routes_config.py:227-257 | what holds no mask is taken as it is, whatever stood there before |
| `Redaction.EditIsApplied` | backend/korserver/api/routes_config.py:227-257 | replacing any subtree of the redacted tree by a mask-free one restores to the original with exactly that subtree replaced |
| `RedactionEdits.RestoredIff` | backend/korserver/api/routes_config.py:227-257 | for every tree shown redacted and returned while any other tree is in force: it comes out as itself if and only if its hidden places hold what that tree holds there by key and position, and nothing shown was damaged by masking |
| `RedactionEdits.FitsItselfIff` | backend/korserver/api/routes_config.py:227-257 | against itself that condition is that references occur only as whole strings |
| `RedactionEdits.RearrangedIff` | backend/korserver/api/routes_config.py:245-254 | any selection, order or repetition of the items of any list keeps their own secrets if and only if each fits the item whose position it takes |
| `RedactionEdits.RemovalKeepsTheRightSecretsIff` | backend/korserver/api/routes_config.py:245-254 | taking an item out of any list leaves all others right if and only if those in front fit themselves and each behind fits its predecessor |
| `RedactionEdits.ProfileRemovalIff` | backend/korserver/api/routes_config.py:245-254 | of two mappings with name and password the first taken out: the other is left with the first one's password, right if and only if they were the same |
| `RedactionEdits.RemovalGivesWrongPassword` | backend/korserver/api/routes_config.py:245-254 | instance under the key of the profile list |
| `RedactionEdits.ReferenceRemovalIff` | backend/korserver/api/routes_config.py:245-254 | in a list of bare references the last one is dropped instead; right if and only if all from there on are equal |
| `RedactionEdits.RemovalLeavesTheRemoved` | backend/korserver/api/routes_config.py:245-254 | instance: of two secrets the first is taken out, and the first is what is left |
| `AuthSessions.Agreement` | backend/korserver/api/auth.py:40-99 | what the pruned dictionary holds of a token is the session of its last creation, expiring a lifetime after its last use; what it does not hold cannot become active again |
| `AuthSessions.GetSucceedsIff` | backend/korserver/api/auth.py:40-99 | `get` succeeds if and only if the token was created, not revoked, never unused for a lifetime up to now, and is at most four lifetimes old |
| `AuthRegistry.AuthSessionRegistry.Prune` | backend/korserver/api/auth.py:90-99 | the loop removes exactly the expired sessions |
| `AuthRegistry.AuthSessionRegistry.Create` | backend/korserver/api/auth.py:48-60 | prunes, then holds the returned session under the token, unexpired exactly when the lifetime is positive |
| `AuthRegistry.AuthSessionRegistry.Get` | backend/korserver/api/auth.py:62-69 | finds the token exactly when it survives pruning, and slides its expiry |
| `AuthRegistry.AuthSessionRegistry.Revoke` | backend/korserver/api/auth.py:71-73 | removes that token only |
| `AuthRegistry.AuthSessionRegistry.LoginAllowed` | backend/korserver/api/auth.py:75-80 | keeps the recent failures of the source, answers whether they are fewer than the limit, touches no other source |
| `AuthRegistry.AuthenticatePassword` | backend/korserver/api/auth.py:110-135 | check, then record or clear: the outcome (invalid credentials only if they do not match) and the source's list in each case |
| `LoginFailures.StoredCountsHistory` | backend/korserver/api/auth.py:75-88 | the cut-down list counts as many recent failures as the full history |
| `LoginFailures.WindowBound` | backend/korserver/api/auth.py:110-135 | with at most k requests past their check at any time, no window since the last clear holds more than limit - 1 + k failures |
| `LoginFailures.SequentialWindowBound` | backend/korserver/api/auth.py:110-135 | sequential attempts never put more than the limit into a window |
| `LoginFailures.BoundIsReached` | backend/korserver/api/auth.py:110-135 | for every limit and every k some history with at most k requests past their check reaches limit - 1 + k in one window |
| `LoginFailures.LimitHoldsIff` | backend/korserver/api/auth.py:110-135 | the limit holds for all histories with at most k requests past their check if and only if k is at most one |
| `Ocpasswd.GroupsRoundTripIff` | backend/korserver/services/users.py:304-315 | joined group names parse back to the same list exactly when each has two letters |
| `Ocpasswd.GroupsReadBackIff` | backend/korserver/services/users.py:317-361 | a rewritten record reads back the groups exactly when each has two letters, they fit in 32 characters and no bare lock follows |
| `Ocpasswd.LockKeptIff` | backend/korserver/services/users.py:349-361 | the name is kept; the disabled flag is kept unless the overwritten field alone carried it |
| `Ocpasswd.LockLost` | backend/korserver/services/users.py:349-361 | instance: a lock on the group field alone is gone after the groups are set |
| `Ocpasswd.AccountKept` | backend/korserver/services/users.py:317-361 | a well-formed record keeps name, lock and hash, stays well-formed and reads back the groups |
| `Ocpasswd.PasswordSurvivesIff` | backend/korserver/services/users.py:349-361 | for every record of two or more fields and every text put in, also the empty one: the password, by the parser's own reading, is still in the line if and only if it was not the second of three or more fields or something repeats it |
| `Ocpasswd.HashOverwritten` | backend/korserver/services/users.py:349-361 | so a hash in the second of three or more fields is gone, groups set or cleared, unless another field repeats it |
| `Ocpasswd.HashLost` | backend/korserver/services/users.py:349-361 | instance: a hash with an old-style lock behind it is replaced by the groups |
| `Ocpasswd.HashLostByClearing` | backend/korserver/services/users.py:349-361 | instance: the groups cleared, only the lock is left |
| `Ocpasswd.PlainPasswordLost` | backend/korserver/services/users.py:349-361 | a password that does not look like a hash is lost in front of a bare lock too, whatever the groups |
| `Ocpasswd.ClearedReadsBackIff` | backend/korserver/services/users.py:317-361 | cleared groups read back as none if and only if the field that moves into their place is not read as groups |
| `UserGroups.OthersKept` | backend/korserver/services/users.py:274-302 | every other user's record is found unchanged |
| `UserGroups.GroupsAreSet` | backend/korserver/services/users.py:267-302 | after writing and re-reading the file the user has exactly those groups and the same lock and hash, all others are the same |
| `UserGroups.LinesRewritten` | backend/korserver/services/users.py:281-296 | each of the user's lines, however many, has its fields rewritten; every other line is the same text |
| `UserGroups.UnknownUserChangesNothing` | backend/korserver/services/users.py:291-296 | a file without a line of that name stays as it is |
| `UserGroups.CleanGroupsExactly` | backend/korserver/services/users.py:274-280 | the groups used are exactly the non-empty stripped ones asked for |
| `UserGroups.UserService.SetUserGroups` | backend/korserver/services/users.py:274-302 | invalid names change nothing; otherwise the loop rewrites exactly the user's lines, and the file only if there are any |
| `UserGroups.UserService.ReadUserGroups` | backend/korserver/services/users.py:267-272 | the groups of the first listed record of that name |
| `Lines.SplitTerminated` | backend/korserver/services/files.py:48-51 | lines written with a line feed each are read back as the same lines |
| `UserConfigFile.ParseIntOfDecimal` | backend/korserver/services/users.py:83-87 | a printed number parses back to itself |
| `UserConfigFile.ParseBoolOfTruth` | backend/korserver/services/users.py:74-80 | a printed switch parses back to itself |
| `UserConfigFile.SwitchWordsIff` | backend/korserver/services/users.py:74-80 | of plain words exactly true, yes, 1, on and false, no, 0, off are switches |
| `UserConfigFile.CommentsIgnored` | backend/korserver/services/users.py:456-459 | a comment changes nothing, wherever on a line it starts |
| `UserConfigFile.SpellingsDiffer` | backend/korserver/services/users.py:401-455 | no two of the thirty keys are spelled alike |
| `UserConfigRoundTrip.LineParses` | backend/korserver/services/users.py:456-468 | the line written for a key and any value stores, under that key, the value cut at a comment sign and trimmed |
| `UserConfigRoundTrip.ParsedBack` | backend/korserver/services/users.py:401-516 | with one-line values the whole file reads back value by value |
| `UserConfigRoundTrip.RoundTripIff` | backend/korserver/services/users.py:401-516 | parsing the rendered configuration gives it back if and only if no value has a line break, a comment sign, or a blank or quote at either end |
| `UserConfigRoundTrip.PortRulesMayNotComeBack` | backend/korserver/services/users.py:194-200 | a value the port-rule pattern accepts that does not come back |
| `UserConfigRoundTrip.RenderUserConfig` | backend/korserver/services/users.py:474-516 | the loop over the keys in order writes the specified text |
| `UserConfigRoundTrip.ParseUserConfigFile` | backend/korserver/services/users.py:401-469 | the loop over the lines computes the specified result |
| `LogStamps.CompleteEntriesStay` | backend/korserver/services/logs.py:91-98 | appending to a log leaves every complete line, and all before it, as they were |
| `LogStamps.EntriesCoverFile` | backend/korserver/services/logs.py:91-98 | the accumulated offsets end exactly at the file's size in bytes |
| `LogStamps.RecordedKeepsOrder` | backend/korserver/services/logs.py:78-88 | markers stay strictly increasing and at most 200, the last one being the file's size, also over rotation |
| `LogStamps.AlwaysAscending` | backend/korserver/services/logs.py:78-88 | over every series of polls of any file the markers are strictly increasing and capped |
| `LogStamps.FallbackNeverNeeded` | backend/korserver/services/logs.py:91-106 | after a poll some marker covers every line of the file |
| `LogStamps.StampsAscend` | backend/korserver/services/logs.py:91-106 | stamps never go back down the file |
| `LogTimes.NewLinesGetPollTime` | backend/korserver/services/logs.py:78-88 | a poll stamps with its own time whatever no earlier poll had seen, and everything after a truncation |
| `LogTimes.MarkersAreGrowths` | backend/korserver/services/logs.py:78-88 | of a growing file the markers are exactly the last two hundred polls that found it grown, each with its own size and time |
| `LogTimes.StampIsFirstPoll` | backend/korserver/services/logs.py:78-106 | what ends at an offset shows the time of the first poll whose size reached it, or of the oldest marker left once that is evicted |
| `LogTimes.ShownLine` | backend/korserver/services/logs.py:100-106 | a line is shown without its line end and unstamped exactly when it is empty or bears a date of its own |
| `LogStamps.StampStableUntilEvicted` | backend/korserver/services/logs.py:78-106 | a line keeps its stamp until its marker is evicted, which takes two hundred newer ones; it then takes the oldest left, which is no earlier |
| `LogStamps.ShownLineIsStable` | backend/korserver/services/logs.py:62-107 | a complete line of a growing log is shown the same at every later poll until then |
| `LogStamps.RecordingForgetsIff` | backend/korserver/services/logs.py:78-88 | the last marker is forgotten if and only if its size exceeds the new one, and then all are; otherwise at most the oldest goes |
| `LogStamps.OutOfOrderPollsForget` | backend/korserver/services/logs.py:74-88 | instance: sizes recorded in the wrong order forget every older marker |
| `LogStamps.StampLines` | backend/korserver/services/logs.py:90-107 | the loops show the last lines, each with the stamp of the first marker covering it |
| `LogStamps.LogService.RecordMarker` | backend/korserver/services/logs.py:78-88 | clear, append and trim in place give the specified list for that file only |
| `LogStamps.LogService.Tail` | backend/korserver/services/logs.py:62-76 | a poll keeps the markers in order and stamps every line from a marker that covers it |

## Left out

- nftables chains and rule text, the kill switch, set types and flags, and the merging of overlapping networks inside a set: a set holds the listed texts. The readiness test compares names only.
- `NftablesService.apply` called directly, outside `UpstreamService`: it takes no lock and uses the configuration's selection, so it is not part of the locked runs.
- Subprocesses, sockets, TLS, supervisor RPC, `/proc`: their outcomes are events of the world. SIGKILL takes effect at once, and an openconnect process whose daemon appears only after the two-second grace period is not modelled.
- UpstreamService.Service: its methods assume that they run inside the lock, which `UpstreamSerial` justifies; what a half-done operation left by a crash does to routing is not followed further.
- UpstreamLock.ServiceLock.Enter: called once `flock` would not block; the waiting itself is the step from `Waiting` to `Granted` of the state machine.
- WatchdogRuns.Loop: the settings stay put, although the source reloads them on every tick.
- Upstream.HasTarget: which profiles own a named target is answered by the world per question, so that lists may change under the operation; `Targets.TargetsAreAssignments` shows that any one answer computed from the store fits.
- Fwmarks are in 0x form and unbounded: a decimal fwmark and 32-bit overflow are not modelled.
- Profiles.IsProfileName: a name with a trailing line feed, which the pattern admits, is not a profile of the model; `MarkerFile.MarkerFindsNameIff` shows what becomes of it.
- Hashes are a parameter; collision freedom is a hypothesis where it is needed. Scrypt, HMAC, base64 and token generation are left out; the freshness of session tokens is not needed.
- Targets.TargetFor: address parsing (families, host routes) and the file- and URL-backed lists of the default target are parameters; the pushed lists are as the parsers of the handshake left them.
- HostDns.HostDnsService: the in-place write of resolv.conf is one step, and read errors and crashes inside it are not modelled.
- CertPin: base64 of PEM files and fetching certificates are left out.
- Redaction: which keys are secret is a parameter; keys are strings, and floats and tuples are not modelled.
- AuthSessions.Session: the source hands out the session object itself and slides its expiry in place; here a session is a value in the dictionary.
- Ocpasswd.WellFormed: the guarantee is for lines with two or three fields; longer ones are covered by the exact lemmas about single properties.
- UserConfigFile.ParseInt: digits are ASCII; Python also accepts other decimal digits.
- UserConfigRoundTrip: the validators that run before rendering and after parsing are left out, except the port-rule pattern.
- LogStamps.LogService.Tail: reading the file and recording its size are one step; the other order is what `OutOfOrderPollsForget` is about. Logs are valid UTF-8, time stamps are numbers, and secret masking of the result is left out.
- Dry runs, logging, Docker forward compatibility, OTP, diagnostics, audit, the dotenv parser, FastAPI routes beyond the named helpers and the frontend.
