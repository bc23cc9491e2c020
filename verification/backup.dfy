/**
 * The BACKUP transition (vrrp_backup) as a plan: the ordered side effects,
 * how the job ends and the failover_successful flag afterwards.
 * FailoverEvents.FailoverService.VrrpBackup performs exactly this plan.
 */
module BackupTransition {
  import opened FailoverTypes
  import opened FailoverSnapshot

  /**
   * When the export deadline (ZPOOL_EXPORT_TIMEOUT seconds) runs out: never
   * during the exports, or in the loop iteration for volume `index` (its
   * export or the log line after it).
   */
  datatype ExportTiming = InTime | ElapsedAt(index: nat)

  /** The answers vrrp_backup gets from its collaborators and the clock. */
  datatype BackupInputs = BackupInputs(
    groupStatus: GroupStatus,   // failover.vip.check_failover_group
    timing: ExportTiming)

  /** The deadline runs out during the exports: the timing names one of the volumes. */
  predicate DeadlineHits(vols: seq<Volume>, timing: ExportTiming) {
    timing.ElapsedAt? && timing.index < |vols|
  }

  /** The forced exports of the given volumes, in order. */
  function ExportActions(vols: seq<Volume>): seq<Action> {
    if vols == [] then []
    else ExportActions(vols[..|vols| - 1]) + [Export(vols[|vols| - 1].name)]
  }

  /** One ssh restart per enabled ssh row of the services table. */
  function SshRestarts(services: seq<ServiceRow>): seq<Action> {
    if services == [] then []
    else
      var s := services[|services| - 1];
      SshRestarts(services[..|services| - 1])
        + (if s.service == "ssh" && s.enable then [Restart("ssh", true)] else [])
  }

  /** The steps after the exports: status, logging, cron, monitoring, ssh and the key sync. */
  function Cleanup(services: seq<ServiceRow>): seq<Action> {
    [StatusRefresh, Restart("syslogd", true), Generate("cron"), Stop("smartd", true), Stop("collectd", true)]
    + SshRestarts(services)
    + [SyncKeysFromRemote]
  }

  /** The first two steps of a BACKUP transition that is not ignored. */
  const Demote: seq<Action> := [FencedStop, Restart("keepalived", false)]

  /** vrrp_backup, from the group check to the final flag. */
  function BackupPlan(fobj: Snapshot, inp: BackupInputs, flag: bool): JobRun {
    var vols := fobj.volumes;
    if |inp.groupStatus.masters| > 0 then
      JobRun([SetResult(IGNORED)], Raised, flag)
    else if DeadlineHits(vols, inp.timing) then
      JobRun(Demote + ExportActions(vols[..inp.timing.index + 1]) + [SysrqReboot], Rebooted, flag)
    else
      JobRun(Demote + ExportActions(vols) + Cleanup(fobj.services), Returned(true), true)
  }

  // ---------------------------------------------------------------------
  // Shapes of the pieces.

  lemma {:induction false} ExportActionsAt(vols: seq<Volume>)
    ensures |ExportActions(vols)| == |vols|
    ensures forall k :: 0 <= k < |vols| ==> ExportActions(vols)[k] == Export(vols[k].name)
  {
    if vols != [] {
      ExportActionsAt(vols[..|vols| - 1]);
    }
  }

  lemma {:induction false} ExportActionsShape(vols: seq<Volume>)
    ensures |ExportActions(vols)| == |vols|
    ensures forall k :: 0 <= k < |vols| ==> ExportActions(vols)[k] == Export(vols[k].name)
    ensures ExportedPools(ExportActions(vols)) == Names(vols)
  {
    if vols != [] {
      var p := vols[..|vols| - 1];
      ExportActionsShape(p);
      ExportedPoolsAppend(ExportActions(p), [Export(vols[|vols| - 1].name)]);
      assert [Export(vols[|vols| - 1].name)][..0] == [];
      assert Names(vols) == Names(p) + [vols[|vols| - 1].name];
    }
  }

  lemma {:induction false} SshRestartsShape(services: seq<ServiceRow>)
    ensures forall a :: a in SshRestarts(services) ==> a == Restart("ssh", true)
    ensures Restart("ssh", true) in SshRestarts(services) <==>
      exists k :: 0 <= k < |services| && services[k] == ServiceRow("ssh", true)
  {
    if services != [] {
      var p := services[..|services| - 1];
      SshRestartsShape(p);
      if exists k :: 0 <= k < |p| && p[k] == ServiceRow("ssh", true) {
        var k :| 0 <= k < |p| && p[k] == ServiceRow("ssh", true);
        assert services[k] == p[k];
      }
      if exists k :: 0 <= k < |services| && services[k] == ServiceRow("ssh", true) {
        var k :| 0 <= k < |services| && services[k] == ServiceRow("ssh", true);
        if k < |p| { assert p[k] == services[k]; }
      }
    }
  }

  lemma NoExportIn(t: seq<Action>)
    requires forall a :: a in t ==> !a.Export?
    ensures ExportedPools(t) == []
    decreases |t|
  {
    if t != [] {
      NoExportIn(t[..|t| - 1]);
    }
  }

  // ---------------------------------------------------------------------
  // Properties of the BACKUP transition.

  /** A group member still MASTER: IGNORED is the only effect, the job raises, the flag stays. */
  lemma BackupIgnoredHasNoSideEffects(fobj: Snapshot, inp: BackupInputs, flag: bool)
    requires |inp.groupStatus.masters| > 0
    ensures var r := BackupPlan(fobj, inp, flag);
      r.actions == [SetResult(IGNORED)] && r.end == Raised && r.flag == flag
  {
  }

  lemma DemoteExportsRest(vs: seq<Volume>, rest: seq<Action>)
    requires forall a :: a in rest ==> !a.Export?
    ensures var t := Demote + ExportActions(vs) + rest;
      |t| >= 2 + |vs| && t[0] == FencedStop && t[1] == Restart("keepalived", false)
      && (forall k :: 2 <= k < 2 + |vs| ==> t[k] == Export(vs[k - 2].name))
    ensures ExportedPools(Demote + ExportActions(vs) + rest) == Names(vs)
  {
    DemoteExportsOrder(vs, rest);
    DemoteExportsPools(vs, rest);
  }

  lemma DemoteExportsOrder(vs: seq<Volume>, rest: seq<Action>)
    ensures var t := Demote + ExportActions(vs) + rest;
      |t| >= 2 + |vs| && t[0] == FencedStop && t[1] == Restart("keepalived", false)
      && (forall k :: 2 <= k < 2 + |vs| ==> t[k] == Export(vs[k - 2].name))
  {
    var ex := ExportActions(vs);
    ExportActionsAt(vs);
    var t := Demote + ex + rest;
    assert t == Demote + (ex + rest);
    assert forall k :: 2 <= k < 2 + |vs| ==> t[k] == ex[k - 2];
  }

  lemma DemoteExportsPools(vs: seq<Volume>, rest: seq<Action>)
    requires forall a :: a in rest ==> !a.Export?
    ensures ExportedPools(Demote + ExportActions(vs) + rest) == Names(vs)
  {
    var ex := ExportActions(vs);
    ExportActionsShape(vs);
    ExportedPoolsOfDemote();
    NoExportIn(rest);
    ExportedPoolsAppend(Demote, ex);
    ExportedPoolsAppend(Demote + ex, rest);
    assert ExportedPools(Demote + ex) == [] + Names(vs);
  }

  lemma ExportedPoolsOfDemote()
    ensures ExportedPools(Demote) == []
  {
    assert Demote[..1] == [FencedStop];
    assert [FencedStop][..0] == [];
  }

  /**
   * A BACKUP transition that goes ahead stops fenced, then restarts
   * keepalived, then force-exports the volumes in order: all of them when
   * the deadline is met, those up to the one under way when it is not.
   */
  lemma BackupDemotesThenExports(fobj: Snapshot, inp: BackupInputs, flag: bool)
    requires |inp.groupStatus.masters| == 0
    ensures var t := BackupPlan(fobj, inp, flag).actions;
      var cut := if DeadlineHits(fobj.volumes, inp.timing) then inp.timing.index + 1 else |fobj.volumes|;
      |t| >= 2 + cut && t[0] == FencedStop && t[1] == Restart("keepalived", false)
      && (forall k :: 2 <= k < 2 + cut ==> t[k] == Export(fobj.volumes[k - 2].name))
      && ExportedPools(t) == Names(fobj.volumes[..cut])
  {
    if DeadlineHits(fobj.volumes, inp.timing) {
      DemotesThenExportsUntilDeadline(fobj, inp, flag);
    } else {
      DemotesThenExportsAll(fobj, inp, flag);
    }
  }

  lemma DemotesThenExportsUntilDeadline(fobj: Snapshot, inp: BackupInputs, flag: bool)
    requires |inp.groupStatus.masters| == 0 && DeadlineHits(fobj.volumes, inp.timing)
    ensures var t := BackupPlan(fobj, inp, flag).actions; var cut := inp.timing.index + 1;
      |t| >= 2 + cut && t[0] == FencedStop && t[1] == Restart("keepalived", false)
      && (forall k :: 2 <= k < 2 + cut ==> t[k] == Export(fobj.volumes[k - 2].name))
      && ExportedPools(t) == Names(fobj.volumes[..cut])
  {
    var vs := fobj.volumes[..inp.timing.index + 1];
    assert BackupPlan(fobj, inp, flag).actions == Demote + ExportActions(vs) + [SysrqReboot];
    DemoteExportsRest(vs, [SysrqReboot]);
  }

  lemma DemotesThenExportsAll(fobj: Snapshot, inp: BackupInputs, flag: bool)
    requires |inp.groupStatus.masters| == 0 && !DeadlineHits(fobj.volumes, inp.timing)
    ensures var t := BackupPlan(fobj, inp, flag).actions; var cut := |fobj.volumes|;
      |t| >= 2 + cut && t[0] == FencedStop && t[1] == Restart("keepalived", false)
      && (forall k :: 2 <= k < 2 + cut ==> t[k] == Export(fobj.volumes[k - 2].name))
      && ExportedPools(t) == Names(fobj.volumes[..cut])
  {
    var vols := fobj.volumes;
    assert BackupPlan(fobj, inp, flag).actions == Demote + ExportActions(vols) + Cleanup(fobj.services);
    CleanupExportsNothing(fobj.services);
    DemoteExportsRest(vols, Cleanup(fobj.services));
    assert vols[..|vols|] == vols;
  }

  lemma CleanupExportsNothing(services: seq<ServiceRow>)
    ensures forall a :: a in Cleanup(services) ==> !a.Export?
  {
    SshRestartsShape(services);
  }

  /**
   * When the deadline runs out during the exports the node reboots: the
   * sysrq reboot is the last action, it happens once, nothing follows it,
   * and the flag is left as it was.
   */
  lemma DeadlineForcesReboot(fobj: Snapshot, inp: BackupInputs, flag: bool)
    requires |inp.groupStatus.masters| == 0
    requires DeadlineHits(fobj.volumes, inp.timing)
    ensures var r := BackupPlan(fobj, inp, flag);
      r.end == Rebooted && r.flag == flag
      && r.actions[|r.actions| - 1] == SysrqReboot
      && SysrqReboot !in r.actions[..|r.actions| - 1]
      && StatusRefresh !in r.actions
  {
    var vs := fobj.volumes[..inp.timing.index + 1];
    var d := Demote + ExportActions(vs);
    var t := BackupPlan(fobj, inp, flag).actions;
    assert t == d + [SysrqReboot];
    assert t[..|t| - 1] == d;
    DemoteThenExportsOnly(vs);
  }

  /** Demoting and exporting involve no reboot and no status refresh. */
  lemma DemoteThenExportsOnly(vs: seq<Volume>)
    ensures forall a :: a in Demote + ExportActions(vs) ==> a != SysrqReboot && a != StatusRefresh
  {
    ExportsOnly(vs);
  }

  lemma {:induction false} ExportsOnly(vs: seq<Volume>)
    ensures forall a :: a in ExportActions(vs) ==> a.Export?
  {
    if vs != [] {
      ExportsOnly(vs[..|vs| - 1]);
    }
  }

  /**
   * When the exports finish in time there is no reboot: the cleanup runs to
   * the remote key sync, the flag becomes True and is returned.
   */
  lemma ExportInTimeCompletes(fobj: Snapshot, inp: BackupInputs, flag: bool)
    requires |inp.groupStatus.masters| == 0
    requires !DeadlineHits(fobj.volumes, inp.timing)
    ensures var r := BackupPlan(fobj, inp, flag);
      r.end == Returned(true) && r.flag
      && SysrqReboot !in r.actions
      && r.actions[|r.actions| - 1] == SyncKeysFromRemote
      && StatusRefresh in r.actions
  {
    var d := Demote + ExportActions(fobj.volumes);
    var c := Cleanup(fobj.services);
    var t := BackupPlan(fobj, inp, flag).actions;
    assert t == d + c;
    DemoteThenExportsOnly(fobj.volumes);
    CleanupShape(fobj.services);
    assert t[|t| - 1] == c[|c| - 1];
    assert c[0] in t;
  }

  /** The cleanup reports the status first, syncs the keys last, and never reboots. */
  lemma CleanupShape(services: seq<ServiceRow>)
    ensures var c := Cleanup(services);
      c[0] == StatusRefresh && c[|c| - 1] == SyncKeysFromRemote && SysrqReboot !in c
    ensures Restart("ssh", true) in Cleanup(services) <==> Restart("ssh", true) in SshRestarts(services)
  {
    var head: seq<Action> := [StatusRefresh, Restart("syslogd", true), Generate("cron"), Stop("smartd", true), Stop("collectd", true)];
    var ssh := SshRestarts(services);
    SshRestartsShape(services);
    assert Cleanup(services) == head + ssh + [SyncKeysFromRemote];
    assert "ssh" != "syslogd" by { assert "ssh"[1] != "syslogd"[1]; }
  }

  /** ssh is restarted (locally) iff the services table has an enabled ssh row. */
  lemma SshRestartedIffEnabled(fobj: Snapshot, inp: BackupInputs, flag: bool)
    requires |inp.groupStatus.masters| == 0
    requires !DeadlineHits(fobj.volumes, inp.timing)
    ensures Restart("ssh", true) in BackupPlan(fobj, inp, flag).actions <==>
      exists k :: 0 <= k < |fobj.services| && fobj.services[k] == ServiceRow("ssh", true)
  {
    var d := Demote + ExportActions(fobj.volumes);
    var t := BackupPlan(fobj, inp, flag).actions;
    assert t == d + Cleanup(fobj.services);
    ExportsOnly(fobj.volumes);
    assert Restart("ssh", true) !in d;
    SshRestartsShape(fobj.services);
    CleanupShape(fobj.services);
  }
}
