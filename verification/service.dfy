/**
 * The failover service object: the failover_successful flag it keeps
 * between events, and the side effects it has performed so far (the trace).
 * Each method performs its steps one by one, as the source does, and is
 * proved to perform exactly the plan of the corresponding pure model.
 */
module FailoverEvents {
  import opened FailoverTypes
  import opened FailoverSnapshot
  import opened EventValidation
  import opened MasterTransition
  import opened BackupTransition
  import opened EventDecision

  class FailoverService {
    /** Whether the last transition ran to completion (class attribute, initially False). */
    var failoverSuccessful: bool
    /** Every side effect performed through this object, oldest first. */
    var trace: seq<Action>

    constructor ()
      ensures !failoverSuccessful && trace == []
    {
      failoverSuccessful := false;
      trace := [];
    }

    /** The import loop of vrrp_master: every volume in turn, collecting the failures. */
    method ImportVolumes(vols: seq<Volume>, errs: map<string, string>) returns (failed: seq<FailedVolume>)
      modifies this
      ensures trace == old(trace) + ImportActions(vols, errs)
      ensures failed == FailedImports(vols, errs)
      ensures failoverSuccessful == old(failoverSuccessful)
    {
      failed := [];
      var i := 0;
      while i < |vols|
        invariant 0 <= i <= |vols|
        invariant trace == old(trace) + ImportActions(vols[..i], errs)
        invariant failed == FailedImports(vols[..i], errs)
        invariant failoverSuccessful == old(failoverSuccessful)
      {
        var vol := vols[i];
        assert vols[..i + 1][..i] == vols[..i];
        TraceExtend(old(trace), ImportActions(vols[..i], errs), ImportStep(vol, errs));
        trace := trace + [Import(vol.guid)];
        if vol.guid in errs {
          failed := failed + [FailedVolume(vol, errs[vol.guid])];
        } else {
          trace := trace + [Unlock(vol.name)];
        }
        i := i + 1;
      }
      assert vols[..i] == vols;
    }

    /** One critical service: a restart per enabled row naming it. */
    method RestartCriticalService(name: string, services: seq<ServiceRow>)
      modifies this
      ensures trace == old(trace) + RestartsFor(name, services)
      ensures failoverSuccessful == old(failoverSuccessful)
    {
      var j := 0;
      while j < |services|
        invariant 0 <= j <= |services|
        invariant trace == old(trace) + RestartsFor(name, services[..j])
        invariant failoverSuccessful == old(failoverSuccessful)
      {
        assert services[..j + 1][..j] == services[..j];
        if name == services[j].service && services[j].enable {
          trace := trace + [Restart(name, true)];
        }
        j := j + 1;
      }
      assert services[..j] == services;
    }

    /** The critical services in the order of the list, each once per enabled row naming it. */
    method RestartCriticalServices(crit: seq<string>, services: seq<ServiceRow>)
      modifies this
      ensures trace == old(trace) + CriticalRestarts(crit, services)
      ensures failoverSuccessful == old(failoverSuccessful)
    {
      var c := 0;
      while c < |crit|
        invariant 0 <= c <= |crit|
        invariant trace == old(trace) + CriticalRestarts(crit[..c], services)
        invariant failoverSuccessful == old(failoverSuccessful)
      {
        assert crit[..c + 1][..c] == crit[..c];
        RestartCriticalService(crit[c], services);
        c := c + 1;
      }
      assert crit[..c] == crit;
    }

    /** Every enabled service that is not critical, in table order. */
    method RestartOtherServices(services: seq<ServiceRow>)
      modifies this
      ensures trace == old(trace) + OtherRestarts(services)
      ensures failoverSuccessful == old(failoverSuccessful)
    {
      var j := 0;
      while j < |services|
        invariant 0 <= j <= |services|
        invariant trace == old(trace) + OtherRestarts(services[..j])
        invariant failoverSuccessful == old(failoverSuccessful)
      {
        assert services[..j + 1][..j] == services[..j];
        if services[j].service !in CRITICAL_SERVICES && services[j].enable {
          trace := trace + [Restart(services[j].service, true)];
        }
        j := j + 1;
      }
      assert services[..j] == services;
    }

    /** The steps of vrrp_master after the imports, up to (not including) setting the flag. */
    method AfterImports(services: seq<ServiceRow>, kmipEnabled: bool)
      modifies this
      ensures trace == old(trace) + PostImport(services, kmipEnabled)
      ensures failoverSuccessful == old(failoverSuccessful)
    {
      ghost var t0 := trace;
      ghost var done: seq<Action> := [StatusRefresh, Generate("rc"), Generate("system_dataset"), Generate("ssl"), Restart("http", false)];
      trace := trace + [StatusRefresh, Generate("rc"), Generate("system_dataset"), Generate("ssl"), Restart("http", false)];
      ghost var step := CriticalRestarts(CRITICAL_SERVICES, services);
      RestartCriticalServices(CRITICAL_SERVICES, services);
      TraceExtend(t0, done, step);
      done := done + step;
      step := [Generate("cron"), DiskSync, EnclosureSync, Restart("collectd", true), Restart("syslogd", true)];
      trace := trace + [Generate("cron"), DiskSync, EnclosureSync, Restart("collectd", true), Restart("syslogd", true)];
      TraceExtend(t0, done, step);
      done := done + step;
      step := OtherRestarts(services);
      RestartOtherServices(services);
      TraceExtend(t0, done, step);
      done := done + step;
      step := [BlockFailoverAlerts, InitializeAlerts];
      trace := trace + [BlockFailoverAlerts, InitializeAlerts];
      TraceExtend(t0, done, step);
      done := done + step;
      step := if kmipEnabled then [KmipInitializeKeys] else [];
      if kmipEnabled {
        trace := trace + [KmipInitializeKeys];
      }
      TraceExtend(t0, done, step);
    }

    /**
     * vrrp_master after the import loop: give up with ERROR when every
     * import failed, else mark a partial failure, run the post-import steps
     * and set the flag.
     */
    method ConcludeImports(services: seq<ServiceRow>, kmipEnabled: bool, failed: nat, total: nat) returns (end: JobEnd)
      modifies this
      ensures var c := ImportConclusion(services, kmipEnabled, failed, total, old(failoverSuccessful));
        trace == old(trace) + c.actions && end == c.end && failoverSuccessful == c.flag
    {
      if failed == total {
        trace := trace + [SetResult(ERROR)];
        return Returned(failoverSuccessful);
      }
      var marks := if failed > 0 then [SetResult(ERROR)] else [];
      trace := trace + marks;
      AfterImports(services, kmipEnabled);
      failoverSuccessful := true;
      return Returned(true);
    }

    /** vrrp_master from the IMPORTING report on: import, then finish or give up. */
    method ImportPhase(fobj: Snapshot, inp: MasterInputs) returns (end: JobEnd)
      modifies this
      ensures var r := ImportPlan(fobj, inp, old(failoverSuccessful));
        trace == old(trace) + r.actions && end == r.end && failoverSuccessful == r.flag
    {
      ImportPlanConcludes(fobj, inp, failoverSuccessful);
      ghost var c := ImportConclusion(fobj.services, inp.kmipEnabled,
        |FailedImports(fobj.volumes, inp.importErrors)|, |fobj.volumes|, failoverSuccessful);
      ghost var ia := ImportActions(fobj.volumes, inp.importErrors);
      TraceRegroup(trace, [Progress(IMPORTING)], ia, c.actions);
      trace := trace + [Progress(IMPORTING)];
      var failed := ImportVolumes(fobj.volumes, inp.importErrors);
      end := ConcludeImports(fobj.services, inp.kmipEnabled, |failed|, |fobj.volumes|);
    }

    /**
     * The election part of vrrp_master: report ELECTING, then either ignore
     * the event (a group member is still BACKUP) or stop fenced and start it,
     * with force on a forced takeover.
     */
    method Elect(forceFenced: bool, forcetakeover: bool, inp: MasterInputs) returns (proceed: bool)
      modifies this
      ensures proceed == !GroupIgnores(forceFenced, forcetakeover, inp)
      ensures proceed ==> trace == old(trace) + [Progress(ELECTING), FencedStop, FencedStart(Forced(forceFenced, forcetakeover))]
      ensures !proceed ==> trace == old(trace) + [Progress(ELECTING), SetResult(IGNORED)]
      ensures failoverSuccessful == old(failoverSuccessful)
    {
      trace := trace + [Progress(ELECTING)];
      if forcetakeover || forceFenced {
        trace := trace + [FencedStop, FencedStart(true)];
      } else {
        if |inp.groupStatus.backups| > 0 {
          trace := trace + [SetResult(IGNORED)];
          return false;
        }
        trace := trace + [FencedStop, FencedStart(false)];
      }
      return true;
    }

    /** vrrp_master: become the MASTER node. */
    method VrrpMaster(fobj: Snapshot, ifname: string, event: string, forceFenced: bool, forcetakeover: bool, inp: MasterInputs)
      returns (end: JobEnd)
      modifies this
      ensures var r := MasterPlan(fobj, forceFenced, forcetakeover, inp, old(failoverSuccessful));
        trace == old(trace) + r.actions && end == r.end && failoverSuccessful == r.flag
    {
      var proceed := Elect(forceFenced, forcetakeover, inp);
      if !proceed {
        return Raised;
      }
      if FenceDiagnosis(inp.fenceCode) != FenceOk {
        return Returned(failoverSuccessful);
      }
      ghost var fencing := [Progress(ELECTING), FencedStop, FencedStart(Forced(forceFenced, forcetakeover))];
      ghost var t1 := trace;
      end := ImportPhase(fobj, inp);
      ghost var r := ImportPlan(fobj, inp, old(failoverSuccessful));
      assert trace == t1 + r.actions;
      assert t1 + r.actions == old(trace) + (fencing + r.actions);
    }

    /** The export loop of vrrp_backup: force-export each volume until the deadline runs out. */
    method ExportVolumes(vols: seq<Volume>, timing: ExportTiming) returns (rebooted: bool)
      modifies this
      ensures rebooted == DeadlineHits(vols, timing)
      ensures rebooted ==> trace == old(trace) + ExportActions(vols[..timing.index + 1]) + [SysrqReboot]
      ensures !rebooted ==> trace == old(trace) + ExportActions(vols)
      ensures failoverSuccessful == old(failoverSuccessful)
    {
      var i := 0;
      while i < |vols|
        invariant 0 <= i <= |vols|
        invariant trace == old(trace) + ExportActions(vols[..i])
        invariant !(timing.ElapsedAt? && timing.index < i)
        invariant failoverSuccessful == old(failoverSuccessful)
      {
        assert vols[..i + 1][..i] == vols[..i];
        trace := trace + [Export(vols[i].name)];
        if timing == ElapsedAt(i) {
          trace := trace + [SysrqReboot];
          return true;
        }
        i := i + 1;
      }
      assert vols[..i] == vols;
      return false;
    }

    /** The steps of vrrp_backup after the exports, up to (not including) setting the flag. */
    method CleanUp(services: seq<ServiceRow>)
      modifies this
      ensures trace == old(trace) + Cleanup(services)
      ensures failoverSuccessful == old(failoverSuccessful)
    {
      trace := trace + [StatusRefresh, Restart("syslogd", true), Generate("cron"), Stop("smartd", true), Stop("collectd", true)];
      ghost var cleaned := trace;
      var j := 0;
      while j < |services|
        invariant 0 <= j <= |services|
        invariant trace == cleaned + SshRestarts(services[..j])
        invariant failoverSuccessful == old(failoverSuccessful)
      {
        assert services[..j + 1][..j] == services[..j];
        if services[j].service == "ssh" && services[j].enable {
          trace := trace + [Restart("ssh", true)];
        }
        j := j + 1;
      }
      assert services[..j] == services;
      trace := trace + [SyncKeysFromRemote];
    }

    /** vrrp_backup: become the BACKUP node. */
    method VrrpBackup(fobj: Snapshot, ifname: string, event: string, forceFenced: bool, inp: BackupInputs)
      returns (end: JobEnd)
      modifies this
      ensures var r := BackupPlan(fobj, inp, old(failoverSuccessful));
        trace == old(trace) + r.actions && end == r.end && failoverSuccessful == r.flag
    {
      if |inp.groupStatus.masters| > 0 {
        trace := trace + [SetResult(IGNORED)];
        return Raised;
      }
      ghost var t0 := trace;
      trace := trace + [FencedStop, Restart("keepalived", false)];
      var rebooted := ExportVolumes(fobj.volumes, inp.timing);
      if rebooted {
        TraceRegroup(t0, Demote, ExportActions(fobj.volumes[..inp.timing.index + 1]), [SysrqReboot]);
        return Rebooted;
      }
      TraceRegroup(t0, Demote, ExportActions(fobj.volumes), Cleanup(fobj.services));
      CleanUp(fobj.services);
      failoverSuccessful := true;
      return Returned(failoverSuccessful);
    }

    /** Start the transition job an event names and wait for it (the dispatch of _event). */
    method Dispatch(fobj: Snapshot, ifname: string, event: string, forceFenced: bool, forcetakeover: bool, inp: EventInputs)
      returns (end: EventEnd)
      modifies this
      ensures var h := EventDecision.Dispatch(fobj, event, forceFenced, forcetakeover, inp, old(failoverSuccessful));
        trace == old(trace) + h.actions && end == h.end && failoverSuccessful == h.flag
    {
      if event == MASTER || event == FORCE_TAKEOVER {
        ghost var r := MasterPlan(fobj, forceFenced, forcetakeover, inp.master, failoverSuccessful);
        assert old(trace) + [StartJob(VRRP_MASTER_METHOD)] + r.actions == old(trace) + ([StartJob(VRRP_MASTER_METHOD)] + r.actions);
        trace := trace + [StartJob(VRRP_MASTER_METHOD)];
        var job := VrrpMaster(fobj, ifname, event, forceFenced, forcetakeover, inp.master);
        end := match job
          case Raised => Finished(Some(failoverSuccessful))
          case Returned(_) => Finished(None)
          case Rebooted => NodeRebooted;
      } else if event == BACKUP {
        ghost var r := BackupPlan(fobj, inp.backup, failoverSuccessful);
        assert old(trace) + [StartJob(VRRP_BACKUP_METHOD)] + r.actions == old(trace) + ([StartJob(VRRP_BACKUP_METHOD)] + r.actions);
        trace := trace + [StartJob(VRRP_BACKUP_METHOD)];
        var job := VrrpBackup(fobj, ifname, event, forceFenced, inp.backup);
        end := match job
          case Raised => Finished(Some(failoverSuccessful))
          case Returned(_) => Finished(None)
          case Rebooted => NodeRebooted;
      } else {
        end := Finished(None);
      }
    }

    /** _event: decide what the event calls for and run the transition. */
    method HandleEvent(ifname: string, event: string, inp: EventInputs) returns (end: EventEnd)
      modifies this
      ensures var h := HandlePlan(ifname, event, inp, old(failoverSuccessful));
        trace == old(trace) + h.actions && end == h.end && failoverSuccessful == h.flag
    {
      var forcetakeover := event == FORCE_TAKEOVER;
      var fobj := GenerateFailoverData(inp.queries);
      var ev := event;
      var forceFenced := false;
      if !forcetakeover {
        if fobj.disabled && !fobj.master {
          return Ignored;
        }
        if AnyInfixOf(fobj.nonCritInterfaces, ifname) {
          return Ignored;
        }
        if inp.remoteConnected && inp.remoteStatus == Some(MASTER) {
          return Ignored;
        }
        var vols := fobj.volumes;
        var needsImported := false;
        var i := 0;
        while i < |vols|
          invariant 0 <= i <= |vols|
          invariant PoolCheck(vols[i..], inp.livePools) == PoolCheck(vols, inp.livePools)
          invariant !needsImported
        {
          var name := vols[i].name;
          if name !in inp.livePools {
            return Crashed;
          }
          if inp.livePools[name] != ONLINE {
            needsImported := true;
            break;
          }
          assert vols[i..][1..] == vols[i + 1..];
          i := i + 1;
        }
        if !needsImported {
          return Finished(None);
        }
        ev := MASTER;
        forceFenced := needsImported;
      }
      if Validate(inp.jobs, ev) == Ignore {
        return Ignored;
      }
      end := Dispatch(fobj, ifname, ev, forceFenced, forcetakeover, inp);
    }

    /** event: _event, then refresh the failover status unless the event was ignored. */
    method Event(ifname: string, event: string, inp: EventInputs) returns (reply: EventReply)
      modifies this
      ensures var e := EventPlan(ifname, event, inp, old(failoverSuccessful));
        trace == old(trace) + e.actions && reply == e.reply && failoverSuccessful == e.flag
    {
      var end := HandleEvent(ifname, event, inp);
      match end
      case Ignored =>
        reply := Returns(None);
      case Finished(v) =>
        trace := trace + [StatusRefresh];
        reply := Returns(v);
      case Crashed =>
        trace := trace + [StatusRefresh];
        reply := Throws;
      case NodeRebooted =>
        reply := Down;
    }
  }
}
