/**
 * The MASTER transition (vrrp_master) as a plan: given the collaborators'
 * answers, the ordered side effects it performs, how the job ends and the
 * failover_successful flag afterwards. FailoverEvents.FailoverService.VrrpMaster
 * performs exactly this plan.
 */
module MasterTransition {
  import opened FailoverTypes
  import opened FailoverSnapshot

  /** The answers vrrp_master gets from its collaborators. */
  datatype MasterInputs = MasterInputs(
    groupStatus: GroupStatus,          // failover.vip.check_failover_group
    fenceCode: Option<int>,            // exit code of failover.fenced.start; None if the call failed
    importErrors: map<string, string>, // guid -> error, for each zfs.pool.import_pool that raises
    kmipEnabled: bool)                 // kmip.config() is truthy and enabled

  /** The meaning of a fenced exit code, as the transition reports it. */
  datatype FenceResult =
    | FenceOk
    | ReservationFailed          // 1: keys could not be registered on the disks
    | RemoteActive               // 2: fenced is running on the other node
    | PartialReservationFailure  // 3: 10% or more of the disks could not be reserved
    | UnknownFatal               // 5: fenced hit an unexpected fatal error
    | OtherCode(code: int)       // any other non-zero code

  function FenceDiagnosis(code: Option<int>): (r: FenceResult)
    ensures r == FenceOk <==> code == None || code == Some(0)
    ensures r.OtherCode? ==> code == Some(r.code) && r.code !in {0, 1, 2, 3, 5}
    ensures code.Some? && code.value !in {0, 1, 2, 3, 5} ==> r == OtherCode(code.value)
    ensures r == ReservationFailed <==> code == Some(1)
    ensures r == RemoteActive <==> code == Some(2)
    ensures r == PartialReservationFailure <==> code == Some(3)
    ensures r == UnknownFatal <==> code == Some(5)
  {
    match code
    case None => FenceOk
    case Some(c) =>
      if c == 0 then FenceOk
      else if c == 1 then ReservationFailed
      else if c == 2 then RemoteActive
      else if c == 3 then PartialReservationFailure
      else if c == 5 then UnknownFatal
      else OtherCode(c)
  }

  /** Fencing is forced on a takeover and whenever the orchestrator asks for it. */
  predicate Forced(forceFenced: bool, forcetakeover: bool) {
    forcetakeover || forceFenced
  }

  /** The non-forced path ignores the event while other group members are still BACKUP. */
  predicate GroupIgnores(forceFenced: bool, forcetakeover: bool, inp: MasterInputs) {
    !Forced(forceFenced, forcetakeover) && |inp.groupStatus.backups| > 0
  }

  /** A volume whose import raised, with the error recorded on it. */
  datatype FailedVolume = FailedVolume(volume: Volume, error: string)

  /** The volumes whose import fails, in order. */
  function FailedImports(vols: seq<Volume>, errs: map<string, string>): (r: seq<FailedVolume>)
    ensures |r| <= |vols|
  {
    if vols == [] then []
    else
      var v := vols[|vols| - 1];
      FailedImports(vols[..|vols| - 1], errs)
        + (if v.guid in errs then [FailedVolume(v, errs[v.guid])] else [])
  }

  /** The action of importing one volume: the unlock follows only a successful import. */
  function ImportStep(v: Volume, errs: map<string, string>): seq<Action> {
    if v.guid in errs then [Import(v.guid)] else [Import(v.guid), Unlock(v.name)]
  }

  /** Every volume is imported in turn; a failure moves on to the next volume. */
  function ImportActions(vols: seq<Volume>, errs: map<string, string>): seq<Action> {
    if vols == [] then []
    else ImportActions(vols[..|vols| - 1], errs) + ImportStep(vols[|vols| - 1], errs)
  }

  /** The restarts of one critical service: one per enabled row naming it. */
  function RestartsFor(name: string, services: seq<ServiceRow>): seq<Action> {
    if services == [] then []
    else
      var s := services[|services| - 1];
      RestartsFor(name, services[..|services| - 1])
        + (if name == s.service && s.enable then [Restart(name, true)] else [])
  }

  /** The critical services, in the order of the list given. */
  function CriticalRestarts(crit: seq<string>, services: seq<ServiceRow>): seq<Action> {
    if crit == [] then []
    else CriticalRestarts(crit[..|crit| - 1], services) + RestartsFor(crit[|crit| - 1], services)
  }

  /** Every enabled service that is not critical, in table order. */
  function OtherRestarts(services: seq<ServiceRow>): seq<Action> {
    if services == [] then []
    else
      var s := services[|services| - 1];
      OtherRestarts(services[..|services| - 1])
        + (if s.service !in CRITICAL_SERVICES && s.enable then [Restart(s.service, true)] else [])
  }

  /** The steps after the imports: configuration, restarts, alerts and KMIP. */
  function PostImport(services: seq<ServiceRow>, kmipEnabled: bool): seq<Action> {
    PostImportSteps(CriticalRestarts(CRITICAL_SERVICES, services), OtherRestarts(services), kmipEnabled)
  }

  /** The post-import steps around the two lists of service restarts. */
  function PostImportSteps(critical: seq<Action>, others: seq<Action>, kmipEnabled: bool): seq<Action> {
    [StatusRefresh, Generate("rc"), Generate("system_dataset"), Generate("ssl"), Restart("http", false)]
    + critical
    + [Generate("cron"), DiskSync, EnclosureSync, Restart("collectd", true), Restart("syslogd", true)]
    + others
    + [BlockFailoverAlerts, InitializeAlerts]
    + (if kmipEnabled then [KmipInitializeKeys] else [])
  }

  /**
   * vrrp_master from the IMPORTING progress report on: when every import
   * fails (also when there is no volume) the result is ERROR and the flag is
   * returned unchanged; otherwise the post-import steps run and the flag
   * becomes True.
   */
  function ImportPlan(fobj: Snapshot, inp: MasterInputs, flag: bool): JobRun {
    var imported := [Progress(IMPORTING)] + ImportActions(fobj.volumes, inp.importErrors);
    var failed := FailedImports(fobj.volumes, inp.importErrors);
    if |failed| == |fobj.volumes| then
      JobRun(imported + [SetResult(ERROR)], Returned(flag), flag)
    else
      var marked := imported + (if |failed| > 0 then [SetResult(ERROR)] else []);
      JobRun(marked + PostImport(fobj.services, inp.kmipEnabled), Returned(true), true)
  }

  /**
   * The end of the import phase, given how many of how many imports failed:
   * ERROR and the unchanged flag when all failed, else the partial-failure
   * mark, the post-import steps and the flag set.
   */
  function ImportConclusion(services: seq<ServiceRow>, kmipEnabled: bool, failed: nat, total: nat, flag: bool): JobRun {
    if failed == total then JobRun([SetResult(ERROR)], Returned(flag), flag)
    else JobRun((if failed > 0 then [SetResult(ERROR)] else []) + PostImport(services, kmipEnabled), Returned(true), true)
  }

  /** The import phase is the IMPORTING report, the import loop and the conclusion. */
  lemma ImportPlanConcludes(fobj: Snapshot, inp: MasterInputs, flag: bool)
    ensures var c := ImportConclusion(fobj.services, inp.kmipEnabled,
        |FailedImports(fobj.volumes, inp.importErrors)|, |fobj.volumes|, flag);
      var r := ImportPlan(fobj, inp, flag);
      r.actions == [Progress(IMPORTING)] + ImportActions(fobj.volumes, inp.importErrors) + c.actions
      && r.end == c.end && r.flag == c.flag
  {
    var head := [Progress(IMPORTING)] + ImportActions(fobj.volumes, inp.importErrors);
    var failed := FailedImports(fobj.volumes, inp.importErrors);
    if |failed| != |fobj.volumes| {
      var marks: seq<Action> := if |failed| > 0 then [SetResult(ERROR)] else [];
      TraceExtend(head, marks, PostImport(fobj.services, inp.kmipEnabled));
    }
  }

  /** vrrp_master, from the ELECTING progress report to the final flag. */
  function MasterPlan(fobj: Snapshot, forceFenced: bool, forcetakeover: bool, inp: MasterInputs, flag: bool): JobRun {
    if GroupIgnores(forceFenced, forcetakeover, inp) then
      JobRun([Progress(ELECTING), SetResult(IGNORED)], Raised, flag)
    else
      var fencing := [Progress(ELECTING), FencedStop, FencedStart(Forced(forceFenced, forcetakeover))];
      if FenceDiagnosis(inp.fenceCode) != FenceOk then
        JobRun(fencing, Returned(flag), flag)
      else
        var r := ImportPlan(fobj, inp, flag);
        JobRun(fencing + r.actions, r.end, r.flag)
  }

  // ---------------------------------------------------------------------
  // Shapes of the pieces.

  lemma {:induction false} ImportActionsShape(vols: seq<Volume>, errs: map<string, string>)
    ensures forall a :: a in ImportActions(vols, errs) ==> a.Import? || a.Unlock?
    ensures ImportedGuids(ImportActions(vols, errs)) == Guids(vols)
  {
    if vols != [] {
      var p := vols[..|vols| - 1];
      var v := vols[|vols| - 1];
      ImportActionsShape(p, errs);
      ImportedGuidsAppend(ImportActions(p, errs), ImportStep(v, errs));
      if v.guid !in errs {
        assert ImportStep(v, errs)[..1] == [Import(v.guid)];
      }
      assert Guids(vols) == Guids(p) + [v.guid];
    }
  }

  lemma {:induction false} RestartsForShape(name: string, services: seq<ServiceRow>)
    ensures forall a :: a in RestartsFor(name, services) ==> a == Restart(name, true)
    ensures Restart(name, true) in RestartsFor(name, services) <==>
      exists k :: 0 <= k < |services| && services[k].service == name && services[k].enable
  {
    if services != [] {
      var p := services[..|services| - 1];
      RestartsForShape(name, p);
      if exists k :: 0 <= k < |p| && p[k].service == name && p[k].enable {
        var k :| 0 <= k < |p| && p[k].service == name && p[k].enable;
        assert services[k] == p[k];
      }
      if exists k :: 0 <= k < |services| && services[k].service == name && services[k].enable {
        var k :| 0 <= k < |services| && services[k].service == name && services[k].enable;
        if k < |p| { assert p[k] == services[k]; }
      }
    }
  }

  lemma {:induction false} CriticalRestartsShape(crit: seq<string>, services: seq<ServiceRow>)
    ensures forall a :: a in CriticalRestarts(crit, services) ==>
      a.Restart? && a.localOnly && a.service in crit
  {
    if crit != [] {
      var p := crit[..|crit| - 1];
      CriticalRestartsShape(p, services);
      RestartsForShape(crit[|crit| - 1], services);
    }
  }

  lemma {:induction false} OtherRestartsShape(services: seq<ServiceRow>)
    ensures forall a :: a in OtherRestarts(services) ==>
      a.Restart? && a.localOnly && a.service !in CRITICAL_SERVICES
    ensures forall name :: Restart(name, true) in OtherRestarts(services) <==>
      name !in CRITICAL_SERVICES &&
      exists k :: 0 <= k < |services| && services[k].service == name && services[k].enable
  {
    if services != [] {
      var p := services[..|services| - 1];
      OtherRestartsShape(p);
      forall name ensures Restart(name, true) in OtherRestarts(services) <==>
        name !in CRITICAL_SERVICES &&
        exists k :: 0 <= k < |services| && services[k].service == name && services[k].enable
      {
        if exists k :: 0 <= k < |p| && p[k].service == name && p[k].enable {
          var k :| 0 <= k < |p| && p[k].service == name && p[k].enable;
          assert services[k] == p[k];
        }
        if exists k :: 0 <= k < |services| && services[k].service == name && services[k].enable {
          var k :| 0 <= k < |services| && services[k].service == name && services[k].enable;
          if k < |p| { assert p[k] == services[k]; }
        }
      }
    }
  }

  // ---------------------------------------------------------------------
  // Properties of the MASTER transition.

  /**
   * A critical service is restarted (locally) exactly when it is in the
   * critical list and some enabled row of the services table names it.
   */
  lemma {:induction false} CriticalRestartedIffEnabled(crit: seq<string>, services: seq<ServiceRow>, name: string)
    ensures Restart(name, true) in CriticalRestarts(crit, services) <==>
      name in crit && exists k :: 0 <= k < |services| && services[k].service == name && services[k].enable
  {
    if crit != [] {
      var p := crit[..|crit| - 1];
      var c := crit[|crit| - 1];
      CriticalRestartedIffEnabled(p, services, name);
      RestartsForShape(c, services);
      RestartsForShape(name, services);
      assert crit == p + [c];
    }
  }

  predicate Distinct(xs: seq<string>) {
    forall i, j :: 0 <= i < j < |xs| ==> xs[i] != xs[j]
  }

  /**
   * The critical services restart in the fixed order of the list: every
   * restart of an earlier service comes before every restart of a later one.
   */
  lemma {:induction false} CriticalServicesInFixedOrder(crit: seq<string>, services: seq<ServiceRow>, i: nat, j: nat, a: nat, b: nat)
    requires Distinct(crit)
    requires i < j < |crit|
    requires a < |CriticalRestarts(crit, services)| && b < |CriticalRestarts(crit, services)|
    requires CriticalRestarts(crit, services)[a] == Restart(crit[i], true)
    requires CriticalRestarts(crit, services)[b] == Restart(crit[j], true)
    ensures a < b
  {
    var n := |crit|;
    var p := crit[..n - 1];
    var head := CriticalRestarts(p, services);
    var last := RestartsFor(crit[n - 1], services);
    assert CriticalRestarts(crit, services) == head + last;
    CriticalRestartsShape(p, services);
    RestartsForShape(crit[n - 1], services);
    ElementOfConcat(head, last, a);
    ElementOfConcat(head, last, b);
    assert p[i] == crit[i] && crit[i] != crit[n - 1];
    assert a < |head|;
    if j < n - 1 {
      assert p[j] == crit[j] && crit[j] != crit[n - 1];
      assert b < |head|;
      assert Distinct(p) by {
        assert forall x :: 0 <= x < n - 1 ==> p[x] == crit[x];
      }
      CriticalServicesInFixedOrder(p, services, i, j, a, b);
    } else {
      assert forall x :: 0 <= x < n - 1 ==> p[x] != crit[n - 1];
      assert b >= |head|;
    }
  }

  /** An element of a concatenation lies in one part or the other, at the shifted index (a proof step; it models nothing). */
  lemma ElementOfConcat(head: seq<Action>, last: seq<Action>, x: nat)
    requires x < |head + last|
    ensures x < |head| ==> (head + last)[x] == head[x] && head[x] in head
    ensures x >= |head| ==> (head + last)[x] == last[x - |head|] && last[x - |head|] in last
  {
  }

  /** The non-forced path meets a group member still BACKUP: IGNORED, no fencing, no import. */
  lemma GroupCheckIgnoresStaleEvent(fobj: Snapshot, forceFenced: bool, forcetakeover: bool, inp: MasterInputs, flag: bool)
    requires !forcetakeover && !forceFenced && |inp.groupStatus.backups| > 0
    ensures var r := MasterPlan(fobj, forceFenced, forcetakeover, inp, flag);
      r.end == Raised && r.flag == flag
      && r.actions == [Progress(ELECTING), SetResult(IGNORED)]
  {
  }

  lemma PostImportShape(services: seq<ServiceRow>, kmipEnabled: bool)
    ensures forall a :: a in PostImport(services, kmipEnabled) ==>
      !a.Import? && !a.Unlock? && !IsFencing(a) && !a.StartJob?
  {
    RestartListsLocal(services);
    StepsAroundRestarts(CriticalRestarts(CRITICAL_SERVICES, services), OtherRestarts(services), kmipEnabled);
  }

  /**
   * Around restart lists that hold local restarts only, the post-import
   * steps neither import, unlock, fence nor start a job, and every restart
   * among them is local except the http one.
   */
  lemma StepsAroundRestarts(critical: seq<Action>, others: seq<Action>, kmipEnabled: bool)
    requires forall a :: a in critical ==> a.Restart? && a.localOnly
    requires forall a :: a in others ==> a.Restart? && a.localOnly
    ensures forall a :: a in PostImportSteps(critical, others, kmipEnabled) ==>
      !a.Import? && !a.Unlock? && !IsFencing(a) && !a.StartJob?
    ensures forall a :: a in PostImportSteps(critical, others, kmipEnabled) && a.Restart? ==>
      a.localOnly || a.service == "http"
  {
    var steps := PostImportSteps(critical, others, kmipEnabled);
    var pre := [StatusRefresh, Generate("rc"), Generate("system_dataset"), Generate("ssl"), Restart("http", false)];
    var mid := [Generate("cron"), DiskSync, EnclosureSync, Restart("collectd", true), Restart("syslogd", true)];
    var tail := [BlockFailoverAlerts, InitializeAlerts] + (if kmipEnabled then [KmipInitializeKeys] else []);
    TraceExtend(pre + critical + mid + others, [BlockFailoverAlerts, InitializeAlerts],
      if kmipEnabled then [KmipInitializeKeys] else []);
    assert steps == pre + critical + mid + others + tail;
    forall a | a in steps
      ensures !a.Import? && !a.Unlock? && !IsFencing(a) && !a.StartJob?
      ensures a.Restart? ==> a.localOnly || a.service == "http"
    {
      assert a in pre || a in critical || a in mid || a in others || a in tail;
    }
  }

  /** Both lists of service restarts consist of local restarts only. */
  lemma RestartListsLocal(services: seq<ServiceRow>)
    ensures forall a :: a in CriticalRestarts(CRITICAL_SERVICES, services) ==> a.Restart? && a.localOnly
    ensures forall a :: a in OtherRestarts(services) ==> a.Restart? && a.localOnly
  {
    CriticalRestartsShape(CRITICAL_SERVICES, services);
    OtherRestartsShape(services);
  }

  /** The import phase: the IMPORTING report, the imports, then steps that neither fence nor import. */
  lemma ImportPlanShape(fobj: Snapshot, inp: MasterInputs, flag: bool) returns (tail: seq<Action>)
    ensures ImportPlan(fobj, inp, flag).actions
      == [Progress(IMPORTING)] + ImportActions(fobj.volumes, inp.importErrors) + tail
    ensures forall a :: a in tail ==> !a.Import? && !a.Unlock? && !IsFencing(a) && !a.StartJob?
  {
    var imported := [Progress(IMPORTING)] + ImportActions(fobj.volumes, inp.importErrors);
    var failed := FailedImports(fobj.volumes, inp.importErrors);
    if |failed| == |fobj.volumes| {
      tail := [SetResult(ERROR)];
    } else {
      var marks := if |failed| > 0 then [SetResult(ERROR)] else [];
      var post := PostImport(fobj.services, inp.kmipEnabled);
      tail := marks + post;
      assert ImportPlan(fobj, inp, flag).actions == imported + marks + post;
      assert imported + marks + post == imported + tail;
      PostImportShape(fobj.services, inp.kmipEnabled);
    }
  }

  /** After a successful fence: the fence steps, the imports, then steps that neither fence nor import. */
  lemma MasterPlanAfterFence(fobj: Snapshot, forceFenced: bool, forcetakeover: bool, inp: MasterInputs, flag: bool)
    returns (tail: seq<Action>)
    requires !GroupIgnores(forceFenced, forcetakeover, inp)
    requires inp.fenceCode == None || inp.fenceCode == Some(0)
    ensures MasterPlan(fobj, forceFenced, forcetakeover, inp, flag).actions
      == [Progress(ELECTING), FencedStop, FencedStart(Forced(forceFenced, forcetakeover)), Progress(IMPORTING)]
         + ImportActions(fobj.volumes, inp.importErrors) + tail
    ensures forall a :: a in tail ==> !a.Import? && !a.Unlock? && !IsFencing(a) && !a.StartJob?
  {
    var fencing := [Progress(ELECTING), FencedStop, FencedStart(Forced(forceFenced, forcetakeover))];
    var ia := ImportActions(fobj.volumes, inp.importErrors);
    tail := ImportPlanShape(fobj, inp, flag);
    assert MasterPlan(fobj, forceFenced, forcetakeover, inp, flag).actions
      == fencing + ([Progress(IMPORTING)] + ia + tail);
    TraceRegroup(fencing, [Progress(IMPORTING)], ia, tail);
  }

  /**
   * Whenever fencing starts, a stop comes right before it, fencing starts at
   * most once, and it is forced exactly on a takeover or a forced fence.
   */
  lemma FencedStopPrecedesStart(fobj: Snapshot, forceFenced: bool, forcetakeover: bool, inp: MasterInputs, flag: bool, k: nat)
    requires k < |MasterPlan(fobj, forceFenced, forcetakeover, inp, flag).actions|
    requires MasterPlan(fobj, forceFenced, forcetakeover, inp, flag).actions[k].FencedStart?
    ensures var t := MasterPlan(fobj, forceFenced, forcetakeover, inp, flag).actions;
      k == 2 && t[1] == FencedStop && t[k].force == (forcetakeover || forceFenced)
  {
    var t := MasterPlan(fobj, forceFenced, forcetakeover, inp, flag).actions;
    if !GroupIgnores(forceFenced, forcetakeover, inp) && FenceDiagnosis(inp.fenceCode) == FenceOk {
      var tail := MasterPlanAfterFence(fobj, forceFenced, forcetakeover, inp, flag);
      var ia := ImportActions(fobj.volumes, inp.importErrors);
      ImportActionsShape(fobj.volumes, inp.importErrors);
      forall x | 4 <= x < |t| ensures !t[x].FencedStart? {
        assert t[x] == (ia + tail)[x - 4];
        assert (ia + tail)[x - 4] in ia + tail;
      }
    }
  }

  /** A fencing failure of any kind ends the transition with the flag unchanged and nothing imported. */
  lemma FenceFailureAborts(fobj: Snapshot, forceFenced: bool, forcetakeover: bool, inp: MasterInputs, flag: bool)
    requires !GroupIgnores(forceFenced, forcetakeover, inp)
    requires inp.fenceCode.Some? && inp.fenceCode.value != 0
    ensures var r := MasterPlan(fobj, forceFenced, forcetakeover, inp, flag);
      r.end == Returned(flag) && r.flag == flag
      && r.actions == [Progress(ELECTING), FencedStop, FencedStart(forcetakeover || forceFenced)]
  {
  }

  lemma {:induction false} NoImportIn(t: seq<Action>)
    requires forall a :: a in t ==> !a.Import?
    ensures ImportedGuids(t) == []
  {
    if t != [] {
      NoImportIn(t[..|t| - 1]);
    }
  }

  /** Once fencing succeeds every volume's import is attempted, in order: no fail-fast. */
  lemma EveryVolumeImportAttempted(fobj: Snapshot, forceFenced: bool, forcetakeover: bool, inp: MasterInputs, flag: bool)
    requires !GroupIgnores(forceFenced, forcetakeover, inp)
    requires inp.fenceCode == None || inp.fenceCode == Some(0)
    ensures ImportedGuids(MasterPlan(fobj, forceFenced, forcetakeover, inp, flag).actions) == Guids(fobj.volumes)
  {
    var forced := Forced(forceFenced, forcetakeover);
    var pre := [Progress(ELECTING), FencedStop, FencedStart(forced), Progress(IMPORTING)];
    var ia := ImportActions(fobj.volumes, inp.importErrors);
    var tail := MasterPlanAfterFence(fobj, forceFenced, forcetakeover, inp, flag);
    ImportActionsShape(fobj.volumes, inp.importErrors);
    ImportsBetween(pre, ia, tail);
  }

  lemma ImportsBetween(pre: seq<Action>, ia: seq<Action>, tail: seq<Action>)
    requires forall a :: a in pre ==> !a.Import?
    requires forall a :: a in tail ==> !a.Import?
    ensures ImportedGuids(pre + ia + tail) == ImportedGuids(ia)
  {
    NoImportIn(pre);
    NoImportIn(tail);
    ImportedGuidsAppend(pre, ia);
    ImportedGuidsAppend(pre + ia, tail);
  }

  /**
   * When every import fails (including when there is no volume at all) the
   * result is ERROR and the transition stops before any service restart.
   */
  lemma AllImportsFailedStopsBeforeRestarts(fobj: Snapshot, forceFenced: bool, forcetakeover: bool, inp: MasterInputs, flag: bool)
    requires !GroupIgnores(forceFenced, forcetakeover, inp)
    requires inp.fenceCode == None || inp.fenceCode == Some(0)
    requires |FailedImports(fobj.volumes, inp.importErrors)| == |fobj.volumes|
    ensures var r := MasterPlan(fobj, forceFenced, forcetakeover, inp, flag);
      r.end == Returned(flag) && r.flag == flag
      && r.actions[|r.actions| - 1] == SetResult(ERROR)
      && forall a :: a in r.actions ==> !a.Restart?
  {
    ImportActionsShape(fobj.volumes, inp.importErrors);
  }

  /**
   * When some but not all imports fail the result is marked ERROR, yet the
   * transition continues through every post-import step and succeeds.
   */
  lemma PartialImportFailureContinues(fobj: Snapshot, forceFenced: bool, forcetakeover: bool, inp: MasterInputs, flag: bool)
    requires !GroupIgnores(forceFenced, forcetakeover, inp)
    requires inp.fenceCode == None || inp.fenceCode == Some(0)
    requires 0 < |FailedImports(fobj.volumes, inp.importErrors)| < |fobj.volumes|
    ensures var r := MasterPlan(fobj, forceFenced, forcetakeover, inp, flag);
      var post := PostImport(fobj.services, inp.kmipEnabled);
      r.end == Returned(true) && r.flag
      && SetResult(ERROR) in r.actions
      && |post| <= |r.actions| && r.actions[|r.actions| - |post|..] == post
  {
    var post := PostImport(fobj.services, inp.kmipEnabled);
    var fencing := [Progress(ELECTING), FencedStop, FencedStart(Forced(forceFenced, forcetakeover))];
    var marked := [Progress(IMPORTING)] + ImportActions(fobj.volumes, inp.importErrors) + [SetResult(ERROR)];
    var r := MasterPlan(fobj, forceFenced, forcetakeover, inp, flag);
    TraceExtend(fencing, marked, post);
    assert r.actions == (fencing + marked) + post;
    assert SetResult(ERROR) == marked[|marked| - 1];
  }

  /**
   * Every restart of the transition is local-only (ha_propagate=False),
   * except the http restart that follows the certificate regeneration.
   */
  lemma RestartsAreLocalOnly(fobj: Snapshot, forceFenced: bool, forcetakeover: bool, inp: MasterInputs, flag: bool)
    ensures forall a :: a in MasterPlan(fobj, forceFenced, forcetakeover, inp, flag).actions && a.Restart? ==>
      a.localOnly || a.service == "http"
  {
    ImportActionsShape(fobj.volumes, inp.importErrors);
    PostImportRestartsLocal(fobj.services, inp.kmipEnabled);
    var ia := ImportActions(fobj.volumes, inp.importErrors);
    var post := PostImport(fobj.services, inp.kmipEnabled);
    var t := ImportPlan(fobj, inp, flag).actions;
    assert forall a :: a in t ==> a in [Progress(IMPORTING)] + ia || a in [SetResult(ERROR)] || a in post;
  }

  lemma PostImportRestartsLocal(services: seq<ServiceRow>, kmipEnabled: bool)
    ensures forall a :: a in PostImport(services, kmipEnabled) && a.Restart? ==>
      a.localOnly || a.service == "http"
  {
    RestartListsLocal(services);
    StepsAroundRestarts(CriticalRestarts(CRITICAL_SERVICES, services), OtherRestarts(services), kmipEnabled);
  }

  /**
   * The flag only ever becomes True, only at the end of a completed
   * transition, and a transition that returns returns the flag.
   */
  lemma FlagSetOnlyOnCompletion(fobj: Snapshot, forceFenced: bool, forcetakeover: bool, inp: MasterInputs, flag: bool)
    ensures var r := MasterPlan(fobj, forceFenced, forcetakeover, inp, flag);
      (r.flag != flag ==> r.flag && InitializeAlerts in r.actions)
      && (r.end.Returned? ==> r.end.value == r.flag)
      && r.end != Rebooted
  {
  }
}
