/**
 * Behaviour of the code as written where it departs from what it evidently
 * intends. Each as-written definition sits beside a lemma that exhibits the
 * difference on a concrete kind of input; the rest of the model uses the
 * intended definitions.
 */
module SourceFindings {
  import opened FailoverTypes
  import opened FailoverSnapshot
  import opened EventValidation
  import opened MasterTransition
  import opened BackupTransition
  import opened EventDecision
  import opened FailoverStatus

  // ---------------------------------------------------------------------
  // Import failures: run_call swallows the exception of a failed import, so
  // the except clause that records the failure never runs.

  /** vrrp_master as written: every import looks successful. */
  function MasterPlanAsWritten(fobj: Snapshot, forceFenced: bool, forcetakeover: bool, inp: MasterInputs, flag: bool): JobRun {
    MasterPlan(fobj, forceFenced, forcetakeover, inp.(importErrors := map[]), flag)
  }

  lemma {:induction false} NoFailuresWithoutErrors(vols: seq<Volume>)
    ensures FailedImports(vols, map[]) == []
  {
    if vols != [] {
      NoFailuresWithoutErrors(vols[..|vols| - 1]);
    }
  }

  lemma {:induction false} EveryImportFails(vols: seq<Volume>, errs: map<string, string>)
    requires forall k :: 0 <= k < |vols| ==> vols[k].guid in errs
    ensures |FailedImports(vols, errs)| == |vols|
  {
    if vols != [] {
      EveryImportFails(vols[..|vols| - 1], errs);
    }
  }

  /** Without import errors (and with some volume) the import phase always runs to the end. */
  lemma ImportPlanWithoutErrors(fobj: Snapshot, inp: MasterInputs, flag: bool)
    requires inp.importErrors == map[] && fobj.volumes != []
    ensures ImportPlan(fobj, inp, flag) == JobRun(
      [Progress(IMPORTING)] + ImportActions(fobj.volumes, map[]) + PostImport(fobj.services, inp.kmipEnabled),
      Returned(true), true)
  {
    NoFailuresWithoutErrors(fobj.volumes);
  }

  /**
   * When every import fails, the intended transition reports ERROR and keeps
   * the flag; as written it unlocks the pools it could not import, runs every
   * post-import step and sets the flag to True.
   */
  lemma ImportFailuresUnnoticedAsWritten(fobj: Snapshot, forceFenced: bool, forcetakeover: bool, inp: MasterInputs, flag: bool)
    requires !GroupIgnores(forceFenced, forcetakeover, inp)
    requires inp.fenceCode == None || inp.fenceCode == Some(0)
    requires fobj.volumes != []
    requires forall k :: 0 <= k < |fobj.volumes| ==> fobj.volumes[k].guid in inp.importErrors
    ensures var r := MasterPlan(fobj, forceFenced, forcetakeover, inp, flag);
      r.end == Returned(flag) && r.flag == flag && InitializeAlerts !in r.actions
    ensures var w := MasterPlanAsWritten(fobj, forceFenced, forcetakeover, inp, flag);
      w.end == Returned(true) && w.flag && InitializeAlerts in w.actions
      && Unlock(fobj.volumes[0].name) in w.actions
  {
    AllFailStopsAsIntended(fobj, forceFenced, forcetakeover, inp, flag);
    UnlockedAsWritten(fobj, forceFenced, forcetakeover, inp, flag);
  }

  lemma AllFailStopsAsIntended(fobj: Snapshot, forceFenced: bool, forcetakeover: bool, inp: MasterInputs, flag: bool)
    requires !GroupIgnores(forceFenced, forcetakeover, inp)
    requires inp.fenceCode == None || inp.fenceCode == Some(0)
    requires forall k :: 0 <= k < |fobj.volumes| ==> fobj.volumes[k].guid in inp.importErrors
    ensures var r := MasterPlan(fobj, forceFenced, forcetakeover, inp, flag);
      r.end == Returned(flag) && r.flag == flag && InitializeAlerts !in r.actions
  {
    EveryImportFails(fobj.volumes, inp.importErrors);
    ImportActionsShape(fobj.volumes, inp.importErrors);
    var ia := ImportActions(fobj.volumes, inp.importErrors);
    var fencing := [Progress(ELECTING), FencedStop, FencedStart(Forced(forceFenced, forcetakeover))];
    assert MasterPlan(fobj, forceFenced, forcetakeover, inp, flag).actions
      == fencing + ([Progress(IMPORTING)] + ia + [SetResult(ERROR)]);
  }

  lemma UnlockedAsWritten(fobj: Snapshot, forceFenced: bool, forcetakeover: bool, inp: MasterInputs, flag: bool)
    requires !GroupIgnores(forceFenced, forcetakeover, inp)
    requires inp.fenceCode == None || inp.fenceCode == Some(0)
    requires fobj.volumes != []
    ensures var w := MasterPlanAsWritten(fobj, forceFenced, forcetakeover, inp, flag);
      w.end == Returned(true) && w.flag && InitializeAlerts in w.actions
      && Unlock(fobj.volumes[0].name) in w.actions
  {
    var noErr := inp.(importErrors := map[]);
    var vols := fobj.volumes;
    var v := vols[0];
    ImportPlanWithoutErrors(fobj, noErr, flag);
    var ia := ImportActions(vols, map[]);
    var post := PostImport(fobj.services, inp.kmipEnabled);
    UnlockedWithoutErrors(vols, 0);
    assert InitializeAlerts in post;
    var fencing := [Progress(ELECTING), FencedStop, FencedStart(Forced(forceFenced, forcetakeover))];
    var w := MasterPlan(fobj, forceFenced, forcetakeover, noErr, flag);
    assert w.actions == fencing + ([Progress(IMPORTING)] + ia + post);
  }

  /** Without import errors, every volume's pool is unlocked. */
  lemma {:induction false} UnlockedWithoutErrors(vols: seq<Volume>, k: nat)
    requires k < |vols|
    ensures Unlock(vols[k].name) in ImportActions(vols, map[])
  {
    var p := vols[..|vols| - 1];
    var v := vols[|vols| - 1];
    assert ImportActions(vols, map[]) == ImportActions(p, map[]) + [Import(v.guid), Unlock(v.name)];
    if k < |p| {
      UnlockedWithoutErrors(p, k);
      assert p[k] == vols[k];
    }
  }

  // ---------------------------------------------------------------------
  // The export deadline. The alarm handler raises ZpoolExportTimeout, an
  // ordinary Exception: raised inside an export it is swallowed by run_call,
  // raised in the log line after it by the catch-all around the loop, so the
  // handler that should reboot the node is never entered. Behind that, the
  // handler itself opens both sysrq files for reading.

  /** Where in its loop iteration the alarm interrupts vrrp_backup. */
  datatype AlarmSite = DuringExport | DuringLogLine

  /**
   * vrrp_backup as written: when the deadline runs out the timeout is
   * swallowed and the cleanup runs and sets the flag. Raised inside an
   * export, the timeout is swallowed by run_call and the remaining exports
   * are still attempted; raised in the log line, it leaves the loop, so the
   * volumes after the current one are never exported.
   */
  function BackupPlanAsWritten(fobj: Snapshot, inp: BackupInputs, site: AlarmSite, flag: bool): JobRun {
    var vols := fobj.volumes;
    if |inp.groupStatus.masters| > 0 then BackupPlan(fobj, inp, flag)
    else if DeadlineHits(vols, inp.timing) && site == DuringLogLine then
      JobRun(Demote + ExportActions(vols[..inp.timing.index + 1]) + Cleanup(fobj.services), Returned(true), true)
    else JobRun(Demote + ExportActions(vols) + Cleanup(fobj.services), Returned(true), true)
  }

  /**
   * When the export deadline runs out, the intended transition reboots the
   * node; as written it never reboots, completes and sets the flag. A
   * timeout inside an export completes as if in time; one in the log line
   * completes as if the volume list ended with the current volume.
   */
  lemma DeadlineSwallowedAsWritten(fobj: Snapshot, inp: BackupInputs, site: AlarmSite, flag: bool)
    requires |inp.groupStatus.masters| == 0
    requires DeadlineHits(fobj.volumes, inp.timing)
    ensures BackupPlan(fobj, inp, flag).end == Rebooted
    ensures var w := BackupPlanAsWritten(fobj, inp, site, flag);
      w.end == Returned(true) && w.flag && SysrqReboot !in w.actions
    ensures site == DuringExport ==>
      BackupPlanAsWritten(fobj, inp, site, flag) == BackupPlan(fobj, inp.(timing := InTime), flag)
    ensures site == DuringLogLine ==>
      var cut := fobj.(volumes := fobj.volumes[..inp.timing.index + 1]);
      BackupPlanAsWritten(fobj, inp, site, flag) == BackupPlan(cut, inp.(timing := InTime), flag)
  {
    DeadlineForcesReboot(fobj, inp, flag);
    if site == DuringExport {
      ExportInTimeCompletes(fobj, inp.(timing := InTime), flag);
    } else {
      var cut := fobj.(volumes := fobj.volumes[..inp.timing.index + 1]);
      ExportInTimeCompletes(cut, inp.(timing := InTime), flag);
    }
  }

  /** How /proc/sys/kernel/sysrq and /proc/sysrq-trigger are opened. */
  datatype OpenMode = ReadOnly | WriteOnly

  /**
   * The except-ZpoolExportTimeout handler: write "1" to enable sysrq, then
   * "b" to reboot. A write on a file opened for reading raises, which ends
   * the job with an error.
   */
  function SysrqHandler(enableMode: OpenMode, triggerMode: OpenMode, flag: bool): (r: JobRun)
    ensures r.end == Rebooted <==> enableMode == WriteOnly && triggerMode == WriteOnly
  {
    if enableMode.ReadOnly? || triggerMode.ReadOnly? then JobRun([], Raised, flag)
    else JobRun([SysrqReboot], Rebooted, flag)
  }

  /**
   * A second defect, masked by the first: even if the timeout reached the
   * handler, both files are opened for reading, so the first write raises
   * and nothing reboots; opened for writing, the handler performs exactly
   * the reboot the intended transition ends with.
   */
  lemma SysrqOpenedForReadingAsWritten(fobj: Snapshot, inp: BackupInputs, flag: bool)
    requires |inp.groupStatus.masters| == 0
    requires DeadlineHits(fobj.volumes, inp.timing)
    ensures SysrqHandler(ReadOnly, ReadOnly, flag).end == Raised
    ensures SysrqReboot !in SysrqHandler(ReadOnly, ReadOnly, flag).actions
    ensures var r := BackupPlan(fobj, inp, flag); var h := SysrqHandler(WriteOnly, WriteOnly, flag);
      r.actions == Demote + ExportActions(fobj.volumes[..inp.timing.index + 1]) + h.actions
      && r.end == h.end && r.flag == h.flag
  {
  }

  // ---------------------------------------------------------------------
  // _event as written: the conflict check and the import failures are
  // swallowed by run_call, and force_fenced is unbound on the forcetakeover path.

  function HandlePlanAsWritten(ifname: string, event: string, inp: EventInputs, flag: bool): EventRun {
    if event == FORCE_TAKEOVER then
      EventRun([], Crashed, flag)
    else
      HandlePlan(ifname, event, inp.(jobs := [], master := inp.master.(importErrors := map[])), flag)
  }

  /**
   * A MASTER event that needs an import while a vrrp_master job is RUNNING:
   * intended, the event is ignored without side effects; as written, a second
   * vrrp_master job is started.
   */
  lemma ConflictCheckSwallowedAsWritten(ifname: string, inp: EventInputs, flag: bool, k: nat)
    requires SoftCheck(FailoverData(inp.queries), ifname, inp.remoteConnected, inp.remoteStatus) == GoAhead
    requires PoolCheck(inp.queries.pools, inp.livePools) == NeedsImport
    requires k < |inp.jobs| && inp.jobs[k].state == RUNNING && inp.jobs[k].methodName == VRRP_MASTER_METHOD
    ensures HandlePlan(ifname, MASTER, inp, flag) == EventRun([], Ignored, flag)
    ensures var w := HandlePlanAsWritten(ifname, MASTER, inp, flag);
      w.actions != [] && w.actions[0] == StartJob(VRRP_MASTER_METHOD)
  {
    MasterJobRejectsMaster(inp.jobs, k, MASTER);
    assert Validate([], MASTER) == Proceed;
  }

  /**
   * A forcetakeover with no conflicting job: intended, vrrp_master runs with
   * forced fencing; as written, _event raises before starting any job, and
   * event refreshes the status and raises.
   */
  lemma ForceTakeoverCrashesAsWritten(ifname: string, inp: EventInputs, flag: bool)
    requires Validate(inp.jobs, FORCE_TAKEOVER) == Proceed
    ensures var t := HandlePlan(ifname, FORCE_TAKEOVER, inp, flag).actions;
      |t| >= 4 && t[0] == StartJob(VRRP_MASTER_METHOD) && t[3] == FencedStart(true)
    ensures HandlePlanAsWritten(ifname, FORCE_TAKEOVER, inp, flag) == EventRun([], Crashed, flag)
    ensures WithRefresh(HandlePlanAsWritten(ifname, FORCE_TAKEOVER, inp, flag))
      == EventResult([StatusRefresh], Throws, flag)
  {
    OnlyMasterIsDispatched(ifname, FORCE_TAKEOVER, inp, flag);
  }

  // ---------------------------------------------------------------------
  // get_local as written filters jobs by method names of a namespace that
  // does not exist ('failover.event.' instead of 'failover.events.').

  const AS_WRITTEN_METHODS: seq<string> := ["failover.event.vrrp_master", "failover.event.vrrp_backup"]

  function GetLocalAsWritten(ifaces: seq<Interface>, pools: seq<PoolRow>, vipMasters: seq<string>, jobs: seq<Job>): Option<string> {
    Classify(ifaces, pools, vipMasters, jobs, AS_WRITTEN_METHODS)
  }

  /**
   * As written, get_local never reports the progress of a transition: with
   * jobs named as the failover.events namespace names them, the answer is
   * SINGLE, MASTER or None; the intended classification reports the running
   * vrrp_master job.
   */
  lemma StatusIgnoresJobsAsWritten(ifaces: seq<Interface>, pools: seq<PoolRow>, vipMasters: seq<string>, jobs: seq<Job>)
    requires forall k :: 0 <= k < |jobs| ==> jobs[k].methodName in TRANSITION_METHODS
    ensures var w := GetLocalAsWritten(ifaces, pools, vipMasters, jobs);
      w == Some(SINGLE) || w == Some(MASTER) || w == None
  {
    assert forall k :: 0 <= k < |jobs| ==> !Watched(jobs[k], AS_WRITTEN_METHODS);
  }

  lemma StatusIgnoresImportingJobAsWritten(iface: Interface, vip: string)
    requires iface.vrrpConfigured
    ensures var jobs := [Job(VRRP_MASTER_METHOD, RUNNING, Some(IMPORTING))];
      var pools := [PoolRow(Some(OFFLINE))];
      GetLocal([iface], pools, [vip], jobs) == Some(IMPORTING)
      && GetLocalAsWritten([iface], pools, [vip], jobs) == None
  {
    var jobs := [Job(VRRP_MASTER_METHOD, RUNNING, Some(IMPORTING))];
    assert [iface][0].vrrpConfigured;
    assert HasVrrpInterface([iface]);
    assert !SomePoolNotOffline([PoolRow(Some(OFFLINE))]);
    assert Watched(jobs[0], TRANSITION_METHODS);
    assert !Watched(jobs[0], AS_WRITTEN_METHODS);
  }
}
