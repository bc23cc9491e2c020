# TrueNAS HA failover events, modelled in Dafny

A TrueNAS HA system has two controllers. keepalived runs VRRP between them
and decides which controller holds the virtual IPs. Each VRRP state change
is written as a line to a FIFO. The middleware hook `vrrp_fifo_hook` parses
that line and calls `failover.events.event`.

`event` runs `_event`, and then refreshes the cached failover status unless
the event was ignored. `_event` works in four steps:
- It builds a snapshot of the configuration (`generate_failover_data`).
- It applies three soft checks:
  - failover disabled on the node that is not the master;
  - a non-critical interface;
  - the remote node is already MASTER.
- It scans the pools.
- It starts a transition job.

The transition jobs:
- `vrrp_master` fences the disks, imports every pool, unlocks encrypted
  datasets, and restarts services (the critical services first).
- `vrrp_backup` stops fencing and restarts keepalived, so that the VIPs move
  away. It then force-exports the pools under a four-second deadline, after
  which the node is meant to be rebooted through sysrq (finding 4).
- A class-level flag, `failover_successful`, records whether a transition
  ran to its end.

`failover.status.get_local` classifies the local node. The answer is SINGLE,
MASTER, the progress description of a transition that is under way, or None.

## How the model is built

- Collaborator answers are inputs: every middleware call whose answer the
  code uses. Examples are the fenced exit code, the failover-group check,
  pool states, job lists and the KMIP setting.
- Side effects are actions: every call made for its effect becomes an
  `Action`, appended to a trace.
- Each transition is a pure plan (`MasterTransition.MasterPlan`,
  `BackupTransition.BackupPlan`, `EventDecision.HandlePlan`,
  `EventDecision.EventPlan`). A plan gives:
  - the ordered actions;
  - how the job ends;
  - the value of `failover_successful` afterwards.
- `get_local` is the pure function `FailoverStatus.GetLocal`. Its case
  lemmas (`FailoverStatus.NoVrrpIsSingle` to `FailoverStatus.StatusRange`)
  state what it answers, one branch of the source each.
- The service is the class `FailoverEvents.FailoverService`. Its fields are
  `failoverSuccessful` and `trace`, and its methods follow the source loop
  for loop. Each method's postcondition states that the new trace and flag
  are exactly what the plan prescribes. The plans' properties are proved as
  lemmas.
- Modules:
  - `FailoverTypes`: entities, constants and actions.
  - `VrrpIntake`: the FIFO hook.
  - `FailoverSnapshot`: `generate_failover_data`.
  - `EventValidation`: `validate`.
  - `MasterTransition`, `BackupTransition`: the two jobs.
  - `EventDecision`: `_event` and `event`.
  - `FailoverEvents`: the imperative service.
  - `FailoverStatus`: `get_local`.
  - `SourceFindings`: the code as written, where it departs from its evident
    intent.

In the sections below, source paths are abbreviated:
- `E` is `src/freenas/usr/local/lib/middlewared_truenas/plugins/failover_/event_linux.py`.
- `S` is `src/freenas/usr/local/lib/middlewared_truenas/plugins/failover_/failover_status_linux.py`.

## Model

| member | source | states |
|---|---|---|
| VrrpIntake.FifoHook | src/freenas/usr/local/lib/middlewared_truenas/plugins/failover_/event_linux.py:658-681 | A line with fewer than three whitespace-separated words is malformed (the source's `data[2]` fails). Otherwise the hook acts iff the third word is MASTER or BACKUP. Acting means publishing the vrrp event, then calling the event handler with the second word stripped of quotes as the interface and the third word as the state; both calls carry the same interface and state. |
| VrrpIntake.HookOnNotifyLine | src/freenas/usr/local/lib/middlewared_truenas/plugins/failover_/event_linux.py:663-681 | Take a keepalived notify line: instance, quoted interface, state, priority. For MASTER or BACKUP, the hook forwards exactly the unquoted interface name and the state. For any other state it does nothing. |
| VrrpIntake.SplitJoin | src/freenas/usr/local/lib/middlewared_truenas/plugins/failover_/event_linux.py:663 | `split()` gives back the words that were joined with single blanks. |
| VrrpIntake.SplitYieldsWords | src/freenas/usr/local/lib/middlewared_truenas/plugins/failover_/event_linux.py:663 | Every field produced by `split()` is non-empty and contains no whitespace. |
| VrrpIntake.StripQuotes | src/freenas/usr/local/lib/middlewared_truenas/plugins/failover_/event_linux.py:665 | `strip('"')` never lengthens the name. Its result neither starts nor ends with a double quote. |
| VrrpIntake.StripQuotesUnquotes | src/freenas/usr/local/lib/middlewared_truenas/plugins/failover_/event_linux.py:665 | Stripping any run of quotes around a name that is not itself quoted gives the name back. |
| FailoverSnapshot.GenerateFailoverData | src/freenas/usr/local/lib/middlewared_truenas/plugins/failover_/event_linux.py:114-153 | The loop that fills the `defaultdict` groups produces exactly the snapshot `FailoverData` defines: the collaborator answers, the non-critical ids, and the critical ids grouped by failover group. |
| FailoverSnapshot.KeysHaveMembers | src/freenas/usr/local/lib/middlewared_truenas/plugins/failover_/event_linux.py:140-151 | A group appears in the snapshot iff some critical interface belongs to it. The `defaultdict` creates no empty groups. |
| FailoverSnapshot.PartitionKeepsOrder | src/freenas/usr/local/lib/middlewared_truenas/plugins/failover_/event_linux.py:142-151 | Both filters keep query order: filtering a concatenation gives the concatenation of the filtered parts. |
| FailoverSnapshot.InterfaceIsListed | src/freenas/usr/local/lib/middlewared_truenas/plugins/failover_/event_linux.py:142-151 | A critical interface's id is listed under its own group. Any other interface's id is listed as non-critical. |
| FailoverSnapshot.ListedIdsHaveOrigin | src/freenas/usr/local/lib/middlewared_truenas/plugins/failover_/event_linux.py:142-151 | Every listed id comes from an interface of the right kind. The non-critical list has only non-critical interfaces. A group has only critical members of that group. |
| FailoverSnapshot.SnapshotPartitionsInterfaces | src/freenas/usr/local/lib/middlewared_truenas/plugins/failover_/event_linux.py:135-151 | In the snapshot, a critical interface is listed in its own group and any other interface in the non-critical list. When ids are unique, it is listed nowhere else. |
| EventValidation.Validate | src/freenas/usr/local/lib/middlewared_truenas/plugins/failover_/event_linux.py:185-201 | The event is ignored iff some RUNNING job conflicts with it. |
| EventValidation.OnlyRunningJobsMatter | src/freenas/usr/local/lib/middlewared_truenas/plugins/failover_/event_linux.py:185 | Removing the jobs that are not RUNNING does not change the verdict. |
| EventValidation.MasterJobRejectsMaster | src/freenas/usr/local/lib/middlewared_truenas/plugins/failover_/event_linux.py:187-193 | A RUNNING vrrp_master job causes a MASTER or forcetakeover event to be ignored. |
| EventValidation.BackupJobRejectsBackup | src/freenas/usr/local/lib/middlewared_truenas/plugins/failover_/event_linux.py:195-201 | A RUNNING vrrp_backup job causes a BACKUP event to be ignored. |
| EventValidation.NoOtherPairingRejected | src/freenas/usr/local/lib/middlewared_truenas/plugins/failover_/event_linux.py:186-201 | No other pairing of job and event is rejected. For example, a BACKUP event proceeds while a vrrp_master job runs. |
| MasterTransition.FenceDiagnosis | src/freenas/usr/local/lib/middlewared_truenas/plugins/failover_/event_linux.py:357-369 | The fence start succeeded iff the call returned None or 0. Codes 1, 2, 3 and 5 each give their own diagnosis, and only those codes do. Every other code, and only such a code, falls into the "should never happen" case, carrying that code. |
| MasterTransition.ImportActionsShape | src/freenas/usr/local/lib/middlewared_truenas/plugins/failover_/event_linux.py:397-422 | The import loop issues only imports and unlocks, and it attempts the import of every volume's guid in query order. |
| MasterTransition.OtherRestartsShape | src/freenas/usr/local/lib/middlewared_truenas/plugins/failover_/event_linux.py:501-504 | The last restart loop restarts a service locally iff it is not critical and some enabled row names it. It restarts nothing else. |
| MasterTransition.CriticalRestartedIffEnabled | src/freenas/usr/local/lib/middlewared_truenas/plugins/failover_/event_linux.py:469-473 | A service gets a local restart in the critical pass iff it is in the critical list and some enabled row names it. |
| MasterTransition.CriticalServicesInFixedOrder | src/freenas/usr/local/lib/middlewared_truenas/plugins/failover_/event_linux.py:469-473 | Critical restarts follow the order of the critical list: every restart of an earlier service comes before every restart of a later one. |
| MasterTransition.StepsAroundRestarts | src/freenas/usr/local/lib/middlewared_truenas/plugins/failover_/event_linux.py:451-523 | Apart from the restarts, the post-import steps never import, unlock, fence or start a job. The only restart among them that is not local is the http restart. |
| MasterTransition.GroupCheckIgnoresStaleEvent | src/freenas/usr/local/lib/middlewared_truenas/plugins/failover_/event_linux.py:314-345 | Take a non-forced MASTER event while members of the failover group are still BACKUP. The job reports ELECTING, then IGNORED, and raises. Nothing is fenced and the flag is unchanged. |
| MasterTransition.MasterPlanAfterFence | src/freenas/usr/local/lib/middlewared_truenas/plugins/failover_/event_linux.py:302-422 | Once fenced is up, the job does the following, in order: ELECTING, fenced stop, fenced start, IMPORTING, the import loop, and then only steps that are neither fencing, nor import, nor job start. |
| MasterTransition.ImportPlanConcludes | src/freenas/usr/local/lib/middlewared_truenas/plugins/failover_/event_linux.py:394-529 | The import phase is made of three parts, in order: the IMPORTING report, the import loop, and a conclusion. The conclusion depends only on how many of how many imports failed. |
| MasterTransition.FencedStopPrecedesStart | src/freenas/usr/local/lib/middlewared_truenas/plugins/failover_/event_linux.py:305-353 | The job starts fenced at most once, always right after a fenced stop. The start is forced iff forcetakeover or force_fenced. |
| MasterTransition.FenceFailureAborts | src/freenas/usr/local/lib/middlewared_truenas/plugins/failover_/event_linux.py:357-369 | A non-zero fence exit code ends the job right after the fence start. Nothing is imported and the unchanged flag is returned. |
| MasterTransition.EveryVolumeImportAttempted | src/freenas/usr/local/lib/middlewared_truenas/plugins/failover_/event_linux.py:397-414 | After a good fence, the imports attempted are exactly the volumes' guids, in order. |
| MasterTransition.AllImportsFailedStopsBeforeRestarts | src/freenas/usr/local/lib/middlewared_truenas/plugins/failover_/event_linux.py:426-435 | When every import fails, the job ends with result ERROR, restarts nothing and returns the unchanged flag. |
| MasterTransition.PartialImportFailureContinues | src/freenas/usr/local/lib/middlewared_truenas/plugins/failover_/event_linux.py:437-529 | When some imports fail, the job sets ERROR but still runs every post-import step, sets the flag and returns True. |
| MasterTransition.RestartsAreLocalOnly | src/freenas/usr/local/lib/middlewared_truenas/plugins/failover_/event_linux.py:465-504 | Every restart in the transition is local-only (`ha_propagate` False), except the http restart after the certificates. |
| MasterTransition.FlagSetOnlyOnCompletion | src/freenas/usr/local/lib/middlewared_truenas/plugins/failover_/event_linux.py:369-529 | If the flag changes, it becomes True and the alerts were initialised. Any value returned is the final flag. The MASTER transition never reboots. |
| BackupTransition.ExportActionsShape | src/freenas/usr/local/lib/middlewared_truenas/plugins/failover_/event_linux.py:603-605 | The export loop force-exports every volume by name, one export per volume, in query order. |
| BackupTransition.SshRestartsShape | src/freenas/usr/local/lib/middlewared_truenas/plugins/failover_/event_linux.py:641-644 | The ssh loop does only local ssh restarts, and at least one iff some ssh row is enabled. |
| BackupTransition.CleanupShape | src/freenas/usr/local/lib/middlewared_truenas/plugins/failover_/event_linux.py:625-650 | The cleanup begins with the status refresh and ends with the key sync from the remote node. It never reboots, and it restarts ssh only through the ssh loop. |
| BackupTransition.BackupIgnoredHasNoSideEffects | src/freenas/usr/local/lib/middlewared_truenas/plugins/failover_/event_linux.py:545-560 | While a group member is still MASTER, the only effect is the IGNORED result. The job raises and the flag is unchanged. |
| BackupTransition.BackupDemotesThenExports | src/freenas/usr/local/lib/middlewared_truenas/plugins/failover_/event_linux.py:562-605 | The job stops fenced, restarts keepalived, then exports the volumes in order. If the deadline is met, it exports all of them. If not, it exports up to the one under way when the deadline ran out. |
| BackupTransition.DeadlineForcesReboot | src/freenas/usr/local/lib/middlewared_truenas/plugins/failover_/event_linux.py:593-617 | If the deadline runs out during the exports, the sysrq reboot is the single last action. There is no status refresh, and the flag is unchanged. |
| BackupTransition.ExportInTimeCompletes | src/freenas/usr/local/lib/middlewared_truenas/plugins/failover_/event_linux.py:625-655 | If the exports finish in time, nothing reboots. The cleanup runs through to the remote key sync, and the job sets and returns True. |
| BackupTransition.SshRestartedIffEnabled | src/freenas/usr/local/lib/middlewared_truenas/plugins/failover_/event_linux.py:640-644 | A BACKUP transition that passes the group check and finishes its exports in time restarts ssh iff the services table has an enabled ssh row. |
| EventDecision.IsInfixMeaning | src/freenas/usr/local/lib/middlewared_truenas/plugins/failover_/event_linux.py:226 | The scan for `i in ifname` succeeds iff the id occurs at some position of the interface name. |
| EventDecision.AnyInfixOf | src/freenas/usr/local/lib/middlewared_truenas/plugins/failover_/event_linux.py:226-227 | The list of matches is non-empty iff some listed id occurs in the interface name. |
| EventDecision.PoolCheckMeaning | src/freenas/usr/local/lib/middlewared_truenas/plugins/failover_/event_linux.py:244-254 | The scan finds all pools imported iff every volume's pool is present and ONLINE. |
| EventDecision.NonCriticalMatchListed | src/freenas/usr/local/lib/middlewared_truenas/plugins/failover_/event_linux.py:142-146 | The non-critical check fires iff some non-critical interface's id occurs in the interface name. |
| EventDecision.SoftChecksIgnore | src/freenas/usr/local/lib/middlewared_truenas/plugins/failover_/event_linux.py:214-241 | For a non-forced event, any of the three soft checks ignores the event. No side effect follows, the flag is unchanged, and event answers None without a refresh. |
| EventDecision.ForceTakeoverSkipsSoftChecks | src/freenas/usr/local/lib/middlewared_truenas/plugins/failover_/event_linux.py:207-271 | The outcome of a forcetakeover ignores the interface name, the interfaces, the failover switches, the remote node and the live pool states. Two runs that agree on the jobs, the transition inputs, the volumes, the services and the timeout give the same trace, end and flag. |
| EventDecision.AllPoolsOnlineNoDispatch | src/freenas/usr/local/lib/middlewared_truenas/plugins/failover_/event_linux.py:243-254 | If every pool is ONLINE, an event that passes the soft checks starts no job and returns None. |
| EventDecision.PoolNotOnlineBecomesMaster | src/freenas/usr/local/lib/middlewared_truenas/plugins/failover_/event_linux.py:243-271 | The event may be anything other than forcetakeover, even BACKUP. Suppose it passes the three soft checks, and the scan finds a pool present but not ONLINE with every earlier pool ONLINE. If no running job conflicts with MASTER, `_event` starts vrrp_master with a forced fence. Its effects are the start, ELECTING, the fenced stop and the forced fenced start, followed by the rest of the MASTER plan. |
| EventDecision.EffectsComeFromMasterDispatch | src/freenas/usr/local/lib/middlewared_truenas/plugins/failover_/event_linux.py:205-291 | If `_event` has any effect or changes the flag, it went through the vrrp_master dispatch. That dispatch is fenced with force exactly when the event was not forcetakeover. |
| EventDecision.MasterPlanFencesFirst | src/freenas/usr/local/lib/middlewared_truenas/plugins/failover_/event_linux.py:305-313 | A forced takeover or a forced fence is never ignored. It reports ELECTING, stops fenced, then starts it with force. |
| EventDecision.OnlyMasterIsDispatched | src/freenas/usr/local/lib/middlewared_truenas/plugins/failover_/event_linux.py:256-291 | Whenever `_event` has any effect, the first effect is starting vrrp_master. That happens only once, and vrrp_backup is never started. The job then stops fenced and starts it with force. |
| EventDecision.RunningMasterJobBlocksDispatch | src/freenas/usr/local/lib/middlewared_truenas/plugins/failover_/event_linux.py:263-271 | While a vrrp_master job is RUNNING, no transition starts and the flag is unchanged. |
| EventDecision.IgnoredHasNoSideEffects | src/freenas/usr/local/lib/middlewared_truenas/plugins/failover_/event_linux.py:97-108 | An ignored event has no side effect and leaves the flag unchanged. |
| EventDecision.RefreshUnlessIgnored | src/freenas/usr/local/lib/middlewared_truenas/plugins/failover_/event_linux.py:97-108 | event keeps `_event`'s flag. It appends exactly one status refresh after what `_event` did when `_event` returns or raises, and the raise propagates. An ignored event gets no refresh and answers None, and a rebooted node does nothing more. |
| EventDecision.FlagChangesOnlyThroughMaster | src/freenas/usr/local/lib/middlewared_truenas/plugins/failover_/event_linux.py:268-278 | event changes the flag only through a completed MASTER transition, which sets it to True and initialises the alerts. |
| FailoverEvents.FailoverService.constructor | src/freenas/usr/local/lib/middlewared_truenas/plugins/failover_/event_linux.py:59-60 | The flag starts False and nothing has been done yet. |
| FailoverEvents.FailoverService.ImportVolumes | src/freenas/usr/local/lib/middlewared_truenas/plugins/failover_/event_linux.py:397-422 | The import loop appends one step per volume. It returns the failed volumes and leaves the flag unchanged. |
| FailoverEvents.FailoverService.RestartCriticalService | src/freenas/usr/local/lib/middlewared_truenas/plugins/failover_/event_linux.py:470-473 | The inner loop appends one local restart of the named service for each enabled row that names it. |
| FailoverEvents.FailoverService.RestartCriticalServices | src/freenas/usr/local/lib/middlewared_truenas/plugins/failover_/event_linux.py:469-473 | The outer loop appends the critical restarts for the list it is given (the fixed critical list at the call site). They come in list order, and within each service in row order. |
| FailoverEvents.FailoverService.RestartOtherServices | src/freenas/usr/local/lib/middlewared_truenas/plugins/failover_/event_linux.py:501-504 | The loop appends one local restart per enabled non-critical row. |
| FailoverEvents.FailoverService.AfterImports | src/freenas/usr/local/lib/middlewared_truenas/plugins/failover_/event_linux.py:451-523 | Appends the post-import steps, in the order the source performs them. |
| FailoverEvents.FailoverService.ImportPhase | src/freenas/usr/local/lib/middlewared_truenas/plugins/failover_/event_linux.py:394-529 | The trace, job end and flag after the import phase are those of the import plan. |
| FailoverEvents.FailoverService.ConcludeImports | src/freenas/usr/local/lib/middlewared_truenas/plugins/failover_/event_linux.py:424-529 | After the loop, the trace, job end and flag are those of the conclusion: when all imports failed, ERROR and the flag returned unchanged; otherwise, the partial-failure mark, the post-import steps, and the flag set. |
| FailoverEvents.FailoverService.Elect | src/freenas/usr/local/lib/middlewared_truenas/plugins/failover_/event_linux.py:302-353 | The job goes ahead iff the group check does not ignore the event. If it goes ahead, it appends ELECTING, the fenced stop and the fenced start, forced on a forced path. If not, it appends ELECTING and IGNORED. The flag does not change. |
| FailoverEvents.FailoverService.VrrpMaster | src/freenas/usr/local/lib/middlewared_truenas/plugins/failover_/event_linux.py:293-529 | vrrp_master's trace, job end and flag are exactly those of the MASTER plan. |
| FailoverEvents.FailoverService.ExportVolumes | src/freenas/usr/local/lib/middlewared_truenas/plugins/failover_/event_linux.py:598-617 | The export loop reboots iff the deadline runs out during the exports, having exported up to that volume. Otherwise it exports every volume. |
| FailoverEvents.FailoverService.CleanUp | src/freenas/usr/local/lib/middlewared_truenas/plugins/failover_/event_linux.py:625-650 | Appends exactly the cleanup steps, including one ssh restart per enabled ssh row. The flag does not change. |
| FailoverEvents.FailoverService.VrrpBackup | src/freenas/usr/local/lib/middlewared_truenas/plugins/failover_/event_linux.py:531-655 | vrrp_backup's trace, job end and flag are exactly those of the BACKUP plan. |
| FailoverEvents.FailoverService.Dispatch | src/freenas/usr/local/lib/middlewared_truenas/plugins/failover_/event_linux.py:267-291 | Starting the job named by the event and waiting for it gives the dispatch plan's trace, outcome and flag. |
| FailoverEvents.FailoverService.HandleEvent | src/freenas/usr/local/lib/middlewared_truenas/plugins/failover_/event_linux.py:205-291 | `_event`, with its pool loop and early break, gives exactly the handling plan's trace, outcome and flag. |
| FailoverEvents.FailoverService.Event | src/freenas/usr/local/lib/middlewared_truenas/plugins/failover_/event_linux.py:97-108 | event gives exactly the event plan's trace, reply and flag. |
| FailoverStatus.FirstWatched | src/freenas/usr/local/lib/middlewared_truenas/plugins/failover_/failover_status_linux.py:41-43 | Finds the first RUNNING job among the watched methods, with no earlier one, or reports that there is none. |
| FailoverStatus.NoVrrpIsSingle | src/freenas/usr/local/lib/middlewared_truenas/plugins/failover_/failover_status_linux.py:12-15 | With no VRRP-configured interface, the answer is SINGLE. |
| FailoverStatus.NoPoolsIsSingle | src/freenas/usr/local/lib/middlewared_truenas/plugins/failover_/failover_status_linux.py:17-20 | With no pool, the answer is SINGLE. |
| FailoverStatus.MasterWhenPoolNotOffline | src/freenas/usr/local/lib/middlewared_truenas/plugins/failover_/failover_status_linux.py:22-28 | With VRRP master interfaces and some pool that is not OFFLINE, the answer is MASTER. |
| FailoverStatus.AllOfflineReportsFirstRunningJob | src/freenas/usr/local/lib/middlewared_truenas/plugins/failover_/failover_status_linux.py:30-43 | With VRRP masters and every pool OFFLINE, the answer is the progress of the first RUNNING transition job, or None when no transition is running. |
| FailoverStatus.NoVipMasterIsNone | src/freenas/usr/local/lib/middlewared_truenas/plugins/failover_/failover_status_linux.py:22-23 | With a VRRP interface and pools but no VRRP master interface, the answer is None. |
| FailoverStatus.StatusRange | src/freenas/usr/local/lib/middlewared_truenas/plugins/failover_/failover_status_linux.py:10-43 | The answer is SINGLE, MASTER, None, or the description of a RUNNING transition job. |
| SourceFindings.ConflictCheckSwallowedAsWritten | src/freenas/usr/local/lib/middlewared_truenas/plugins/failover_/event_linux.py:175-182 | A MASTER event that needs an import, with vrrp_master RUNNING: as intended it is ignored; as written it starts a second vrrp_master. |
| SourceFindings.ForceTakeoverCrashesAsWritten | src/freenas/usr/local/lib/middlewared_truenas/plugins/failover_/event_linux.py:207-271 | A forcetakeover: as intended it runs vrrp_master with a forced fence; as written it raises before starting any job, after a status refresh. |
| SourceFindings.ImportFailuresUnnoticedAsWritten | src/freenas/usr/local/lib/middlewared_truenas/plugins/failover_/event_linux.py:402-435 | Every import fails: as intended the job reports ERROR and keeps the flag; as written it unlocks the pools, runs every post-import step and sets the flag. |
| SourceFindings.ImportPlanWithoutErrors | src/freenas/usr/local/lib/middlewared_truenas/plugins/failover_/event_linux.py:397-529 | With at least one volume and no import error recorded, the import phase runs to its end and sets the flag. (With no volumes, `len(failed) == len(fobj['volumes'])` holds at E:426 and the job reports ERROR.) |
| SourceFindings.DeadlineSwallowedAsWritten | src/freenas/usr/local/lib/middlewared_truenas/plugins/failover_/event_linux.py:598-617 | The deadline runs out. As intended, the node reboots. As written, the job never reboots: the cleanup runs and the flag is set. If the alarm fires inside an export, `run_call` (E:91-95) swallows it, and the job completes exactly as if the exports had finished in time. If it fires in the log line at E:605, the catch-all at E:606 leaves the loop, and the job completes as if the volume list ended with the current volume: the later volumes are never exported. |
| SourceFindings.SysrqOpenedForReadingAsWritten | src/freenas/usr/local/lib/middlewared_truenas/plugins/failover_/event_linux.py:610-617 | Even if the timeout reached its handler, both sysrq files are opened for reading, so the handler raises and does not reboot. Opened for writing, it would perform exactly the reboot that ends the intended plan. |
| SourceFindings.StatusIgnoresJobsAsWritten | src/freenas/usr/local/lib/middlewared_truenas/plugins/failover_/failover_status_linux.py:31-43 | As written, `get_local` never reports transition progress: it always answers SINGLE, MASTER or None. |
| SourceFindings.StatusIgnoresImportingJobAsWritten | src/freenas/usr/local/lib/middlewared_truenas/plugins/failover_/failover_status_linux.py:22-43 | An IMPORTING vrrp_master job with every pool OFFLINE: as intended the answer is IMPORTING; as written it is None. |

## Left out

- RPC plumbing is left out. Examples are `run_call`, `call_sync`, `send_event` and `middleware.call`. Only the answers the code uses are inputs. A collaborator that answers None where the code dereferences the answer is not modelled. Examples are `unlock_job.wait_sync()` after a failed call and a failed `failover.config`.
- The job and lock framework (`@job(lock=...)`), concurrency and the order in which the middleware interleaves jobs are left out. Job states reach the model as the list `core.get_jobs` answers.
- The cache-file bookkeeping before the imports (E:371-392) is left out. It only touches files, inside `contextlib.suppress`.
- The watchdog sentinel file (E:587-591, 622-623) is left out. It is written and removed inside `contextlib.suppress`. The write at E:589 passes an `int` to `write`, which raises and is suppressed, so the file stays empty. This has no effect on the transition.
- Timers and signals are left out. The export deadline is the input `ExportTiming`. The alarm set at E:600 is never cancelled, so it can fire later in the cleanup. That later firing is not modelled.
- The `sleep(5)` at E:609 is not modelled as a delay. Export failures go through `run_call`, which swallows them. So the catch-all at E:606 is entered only when the timeout fires during the log line at E:605. That leaves the loop, so the volumes after the current one are not exported; `SourceFindings.DeadlineSwallowedAsWritten` models this through `SourceFindings.AlarmSite`. The alarm has already gone off, so the sleep itself only delays the cleanup (finding 4).
- Logging is left out. Some log calls would raise as written:
  - At E:430 and E:443, `failed['name']` indexes a list. As written these lines cannot run, because `failed` stays empty (finding 3). Once failures are recorded, as in `MasterTransition.AllImportsFailedStopsBeforeRestarts` and `MasterTransition.PartialImportFailureContinues`, they would raise TypeError: at E:430 before the ERROR result at E:434, and at E:443 after the ERROR result at E:439, stopping the job. The intended import-failure model therefore also assumes these log lines are fixed.
  - At E:503, `i['service']` reads a key that services rows do not have. The model follows the evidently intended restart loop, which restarts each enabled non-critical service.
- The unlock job's result (E:417-422) is left out. It is only logged, and the model records the unlock call itself.
- KMIP is reduced to the boolean `kmip.config` enabled. An unreachable KMIP server is left out.
- `failover.vip.check_failover_group` is left out. It is not part of this model, and its answer (the masters and backups of the group) is an input.
- `failover.vip.get_states` is not part of this model either. Its first list is an input.
- `EventDecision.HandlePlan` treats `validate`'s Ignore as ending `_event`, as if `IgnoreFailoverEvent` escaped the call at E:265. As written, two things defeat it. The missing comma at E:178-179 makes `validate` fail, and `run_call` (E:91-95) catches every `Exception`, `IgnoreFailoverEvent` (E:45) included. So the intended model assumes both are fixed (finding 1).
- The BACKUP branch of `_event` (E:280-291) is modelled in `EventDecision.Dispatch`, but `_event` never reaches it. A non-forced event always becomes MASTER or returns before the dispatch (`EventDecision.OnlyMasterIsDispatched`).
- In `get_local`, pools are rows carrying an optional status field. A pool row is assumed to be a non-empty dict, which `pool.query` always answers.
- Interface names, ids and service names are `string`. Python's `str.isspace` is written out as its set of whitespace code points.

## Findings

| source | as written | input that shows it | evidently intended | confidence | as-written member | corrected member |
|---|---|---|---|---|---|---|
| src/freenas/usr/local/lib/middlewared_truenas/plugins/failover_/event_linux.py:175-182 | A comma is missing between the two filter tuples at E:178-179, so `validate` raises TypeError before querying jobs. `_event` calls it through `run_call`, which swallows the exception, so no event is ever rejected. With the comma restored, `run_call` would still swallow the `IgnoreFailoverEvent` that `validate` raises (E:45, E:91-95). The intended behaviour therefore needs both fixes. | A MASTER event that needs an import while a vrrp_master job is RUNNING | The event is ignored while a conflicting job runs | not executed | SourceFindings.ConflictCheckSwallowedAsWritten | EventDecision.RunningMasterJobBlocksDispatch |
| src/freenas/usr/local/lib/middlewared_truenas/plugins/failover_/event_linux.py:207-271 | `force_fenced` is bound only on the non-forced path (E:261). A forcetakeover raises UnboundLocalError when the vrrp_master call is built. | event = forcetakeover | vrrp_master runs with forcetakeover and a forced fence | not executed | SourceFindings.ForceTakeoverCrashesAsWritten | EventDecision.OnlyMasterIsDispatched |
| src/freenas/usr/local/lib/middlewared_truenas/plugins/failover_/event_linux.py:402-435 | The import goes through `run_call`, which swallows the exception, so the `except` never records a failure. The job then unlocks and restarts services on pools that did not import, and sets the flag. | Every `zfs.pool.import_pool` call fails | Report ERROR and stop when every import fails; report ERROR and continue when some fail | not executed | SourceFindings.ImportFailuresUnnoticedAsWritten | MasterTransition.AllImportsFailedStopsBeforeRestarts |
| src/freenas/usr/local/lib/middlewared_truenas/plugins/failover_/event_linux.py:598-617 | `ZpoolExportTimeout` is an ordinary `Exception` (E:35). The alarm handler raises it (E:110-112). During an export, `run_call` swallows it (E:94); during the log line, the `except Exception` at E:606 catches it. So the handler at E:610 is never entered, the node never reboots, the cleanup runs and the flag is set True. When the alarm fires in the log line, the volumes after the current one are also never exported. A second defect is masked behind this one: the handler opens `/proc/sys/kernel/sysrq` and `/proc/sysrq-trigger` for reading (E:612, E:616), so its first `write` would raise. The analysis assumes the job runs the export loop on the main thread: Python runs signal handlers only there, and `signal.signal` (E:598) raises ValueError on any other thread. Which thread runs the job is not shown in the source. | The export deadline runs out during the first export of a BACKUP transition | Enable sysrq and reboot the node | not executed | SourceFindings.DeadlineSwallowedAsWritten | BackupTransition.DeadlineForcesReboot |
| src/freenas/usr/local/lib/middlewared_truenas/plugins/failover_/failover_status_linux.py:31-43 | Jobs are filtered by `failover.event.vrrp_*`, but the transition jobs belong to the `failover.events` namespace, so no job ever matches. | A VRRP master interface, every pool OFFLINE, vrrp_master RUNNING with progress IMPORTING | Report the running transition's progress (IMPORTING) | not executed | SourceFindings.StatusIgnoresImportingJobAsWritten | FailoverStatus.AllOfflineReportsFirstRunningJob |
