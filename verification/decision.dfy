/**
 * The top-level decision flow of one failover event (event and _event): the
 * soft checks, the pool-readiness short-circuit, the rewrite to MASTER, the
 * conflict check, the dispatch to a transition job, and the status refresh
 * that an ignored event skips. FailoverEvents.FailoverService.HandleEvent
 * and Event perform exactly these plans.
 */
module EventDecision {
  import opened FailoverTypes
  import opened FailoverSnapshot
  import opened EventValidation
  import opened MasterTransition
  import opened BackupTransition

  /** Python's `needle in hay` on strings: needle occurs in hay at some offset. */
  predicate OccursAt(needle: string, hay: string, i: nat) {
    i + |needle| <= |hay| && hay[i..i + |needle|] == needle
  }

  /** The substring test, scanning hay from the front. */
  function IsInfix(needle: string, hay: string): bool
    decreases |hay|
  {
    (|needle| <= |hay| && hay[..|needle|] == needle)
    || (hay != [] && IsInfix(needle, hay[1..]))
  }

  lemma {:induction false} IsInfixMeaning(needle: string, hay: string)
    ensures IsInfix(needle, hay) <==> exists i: nat :: OccursAt(needle, hay, i)
    decreases |hay|
  {
    if hay != [] {
      IsInfixMeaning(needle, hay[1..]);
      if |needle| <= |hay| && hay[..|needle|] == needle {
        assert hay[0..0 + |needle|] == needle;
        assert OccursAt(needle, hay, 0);
      }
      if exists i: nat :: OccursAt(needle, hay[1..], i) {
        var i: nat :| OccursAt(needle, hay[1..], i);
        assert hay[i + 1..i + 1 + |needle|] == hay[1..][i..i + |needle|];
        assert OccursAt(needle, hay, i + 1);
      }
      if exists i: nat :: OccursAt(needle, hay, i) {
        var i: nat :| OccursAt(needle, hay, i);
        if i > 0 {
          assert hay[1..][i - 1..i - 1 + |needle|] == hay[i..i + |needle|];
          assert OccursAt(needle, hay[1..], i - 1);
        } else {
          assert hay[..|needle|] == needle;
        }
      }
    } else {
      if exists i: nat :: OccursAt(needle, hay, i) {
        var i: nat :| OccursAt(needle, hay, i);
        assert |needle| == 0 && needle == [];
        assert hay[..|needle|] == [];
      }
      if IsInfix(needle, hay) {
        assert hay[0..0 + |needle|] == needle;
        assert OccursAt(needle, hay, 0);
      }
    }
  }

  /** Some id of the list is a substring of ifname (the non-empty `ignore` list). */
  function AnyInfixOf(ids: seq<string>, ifname: string): (r: bool)
    ensures r <==> exists k :: 0 <= k < |ids| && IsInfix(ids[k], ifname)
  {
    if ids == [] then false
    else
      var r := AnyInfixOf(ids[..|ids| - 1], ifname) || IsInfix(ids[|ids| - 1], ifname);
      assert r ==> exists k :: 0 <= k < |ids| && IsInfix(ids[k], ifname) by {
        if AnyInfixOf(ids[..|ids| - 1], ifname) {
          var k :| 0 <= k < |ids| - 1 && IsInfix(ids[..|ids| - 1][k], ifname);
          assert ids[k] == ids[..|ids| - 1][k];
        }
      }
      assert (exists k :: 0 <= k < |ids| && IsInfix(ids[k], ifname)) ==> r by {
        if exists k :: 0 <= k < |ids| && IsInfix(ids[k], ifname) {
          var k :| 0 <= k < |ids| && IsInfix(ids[k], ifname);
          if k < |ids| - 1 { assert ids[..|ids| - 1][k] == ids[k]; }
        }
      }
      r
  }

  /** The soft checks of a non-forced event, in the order the source makes them. */
  datatype Soft = GoAhead | DisabledBackup | NonCriticalInterface | RemoteIsMaster

  function SoftCheck(fobj: Snapshot, ifname: string, remoteConnected: bool, remoteStatus: Option<string>): Soft {
    if fobj.disabled && !fobj.master then DisabledBackup
    else if AnyInfixOf(fobj.nonCritInterfaces, ifname) then NonCriticalInterface
    else if remoteConnected && remoteStatus == Some(MASTER) then RemoteIsMaster
    else GoAhead
  }

  /**
   * The scan of the volumes' live pool status: a pool that is not ONLINE
   * ends the scan with NeedsImport; a pool the query cannot find makes the
   * status lookup fail (PoolMissing).
   */
  datatype Readiness = AllOnline | NeedsImport | PoolMissing

  function PoolCheck(vols: seq<Volume>, live: map<string, string>): Readiness {
    if vols == [] then AllOnline
    else if vols[0].name !in live then PoolMissing
    else if live[vols[0].name] != ONLINE then NeedsImport
    else PoolCheck(vols[1..], live)
  }

  /** The scan finds all pools imported exactly when every volume's pool is found ONLINE. */
  lemma {:induction false} PoolCheckMeaning(vols: seq<Volume>, live: map<string, string>)
    ensures PoolCheck(vols, live) == AllOnline <==>
      forall k :: 0 <= k < |vols| ==> vols[k].name in live && live[vols[k].name] == ONLINE
    ensures PoolCheck(vols, live) == NeedsImport ==>
      exists k :: 0 <= k < |vols| && vols[k].name in live && live[vols[k].name] != ONLINE
  {
    if vols != [] {
      PoolCheckMeaning(vols[1..], live);
      assert forall k :: 1 <= k < |vols| ==> vols[k] == vols[1..][k - 1];
      if PoolCheck(vols, live) == NeedsImport && PoolCheck(vols[1..], live) == NeedsImport {
        var k :| 0 <= k < |vols[1..]| && vols[1..][k].name in live && live[vols[1..][k].name] != ONLINE;
        assert vols[k + 1] == vols[1..][k];
      }
    }
  }

  /** Everything the decision flow learns from its collaborators. */
  datatype EventInputs = EventInputs(
    queries: Queries,                // the answers generate_failover_data collects
    remoteConnected: bool,           // failover.remote_connected
    remoteStatus: Option<string>,    // failover.status on the remote node; None if the call failed
    livePools: map<string, string>,  // pool name -> status, as pool.query with get=True answers
    jobs: seq<Job>,                  // core.get_jobs, as validate reads them
    master: MasterInputs,
    backup: BackupInputs)

  /** How _event ends. */
  datatype EventEnd =
    | Ignored                        // IgnoreFailoverEvent escapes _event
    | Finished(value: Option<bool>)  // _event returns this value (None is Python's None)
    | Crashed                        // another exception escapes _event
    | NodeRebooted                   // the transition rebooted the node

  /** The side effects of _event, how it ends, and the failover_successful flag afterwards. */
  datatype EventRun = EventRun(actions: seq<Action>, end: EventEnd, flag: bool)

  /** What _event makes of a finished transition job: a job that raised returns the flag. */
  function JobOutcome(r: JobRun): EventEnd {
    match r.end
    case Raised => Finished(Some(r.flag))
    case Returned(_) => Finished(None)
    case Rebooted => NodeRebooted
  }

  /** The dispatch of _event: start the transition job the event names and wait for it. */
  function Dispatch(fobj: Snapshot, event: string, forceFenced: bool, forcetakeover: bool, inp: EventInputs, flag: bool): EventRun {
    if event == MASTER || event == FORCE_TAKEOVER then
      var r := MasterPlan(fobj, forceFenced, forcetakeover, inp.master, flag);
      EventRun([StartJob(VRRP_MASTER_METHOD)] + r.actions, JobOutcome(r), r.flag)
    else if event == BACKUP then
      var r := BackupPlan(fobj, inp.backup, flag);
      EventRun([StartJob(VRRP_BACKUP_METHOD)] + r.actions, JobOutcome(r), r.flag)
    else
      EventRun([], Finished(None), flag)
  }

  /** The conflict check, then the dispatch. */
  function ValidateThenDispatch(fobj: Snapshot, event: string, forceFenced: bool, forcetakeover: bool, inp: EventInputs, flag: bool): EventRun {
    if Validate(inp.jobs, event) == Ignore then EventRun([], Ignored, flag)
    else Dispatch(fobj, event, forceFenced, forcetakeover, inp, flag)
  }

  /** _event for an interface and an event token, with the flag as it stands. */
  function HandlePlan(ifname: string, event: string, inp: EventInputs, flag: bool): EventRun {
    var fobj := FailoverData(inp.queries);
    if event == FORCE_TAKEOVER then
      ValidateThenDispatch(fobj, event, false, true, inp, flag)
    else if SoftCheck(fobj, ifname, inp.remoteConnected, inp.remoteStatus) != GoAhead then
      EventRun([], Ignored, flag)
    else
      match PoolCheck(fobj.volumes, inp.livePools)
      case PoolMissing => EventRun([], Crashed, flag)
      case AllOnline => EventRun([], Finished(None), flag)
      case NeedsImport => ValidateThenDispatch(fobj, MASTER, true, false, inp, flag)
  }

  /** What event answers its caller. */
  datatype EventReply = Returns(value: Option<bool>) | Throws | Down

  datatype EventResult = EventResult(actions: seq<Action>, reply: EventReply, flag: bool)

  /** event: _event, then a status refresh unless the event was ignored (or the node went down). */
  function WithRefresh(h: EventRun): EventResult {
    match h.end
    case Ignored => EventResult(h.actions, Returns(None), h.flag)
    case Finished(v) => EventResult(h.actions + [StatusRefresh], Returns(v), h.flag)
    case Crashed => EventResult(h.actions + [StatusRefresh], Throws, h.flag)
    case NodeRebooted => EventResult(h.actions, Down, h.flag)
  }

  function EventPlan(ifname: string, event: string, inp: EventInputs, flag: bool): EventResult {
    WithRefresh(HandlePlan(ifname, event, inp, flag))
  }

  // ---------------------------------------------------------------------
  // Properties of the decision flow.

  /** A non-critical interface whose id occurs in ifname. */
  predicate NonCriticalMatch(ifs: seq<Interface>, ifname: string) {
    exists k :: 0 <= k < |ifs| && !ifs[k].critical && IsInfix(ifs[k].id, ifname)
  }

  lemma NonCriticalMatchListed(ifs: seq<Interface>, ifname: string)
    ensures AnyInfixOf(NonCriticalIds(ifs), ifname) <==> NonCriticalMatch(ifs, ifname)
  {
    var ids := NonCriticalIds(ifs);
    if AnyInfixOf(ids, ifname) {
      var j :| 0 <= j < |ids| && IsInfix(ids[j], ifname);
      ListedIdsHaveOrigin(ifs, ids[j], None);
    }
    if NonCriticalMatch(ifs, ifname) {
      var k :| 0 <= k < |ifs| && !ifs[k].critical && IsInfix(ifs[k].id, ifname);
      InterfaceIsListed(ifs, k);
      var j :| 0 <= j < |ids| && ids[j] == ifs[k].id;
    }
  }

  /**
   * Unless the event is forcetakeover it is ignored, with no side effect, when
   * failover is disabled and this node is not the configured master, else when
   * a non-critical interface id occurs in ifname, else when the remote node is
   * connected and reports MASTER.
   */
  lemma SoftChecksIgnore(ifname: string, event: string, inp: EventInputs, flag: bool)
    requires event != FORCE_TAKEOVER
    requires || (inp.queries.config.disabled && !inp.queries.config.master)
             || NonCriticalMatch(inp.queries.interfaces, ifname)
             || (inp.remoteConnected && inp.remoteStatus == Some(MASTER))
    ensures HandlePlan(ifname, event, inp, flag) == EventRun([], Ignored, flag)
    ensures EventPlan(ifname, event, inp, flag) == EventResult([], Returns(None), flag)
  {
    NonCriticalMatchListed(inp.queries.interfaces, ifname);
  }

  /**
   * A forcetakeover skips the soft checks and the pool scan altogether: its
   * outcome does not depend on the interface name, the interfaces, the
   * failover switches, the remote node or the live pool states, only on the
   * jobs, the transitions' inputs, the volumes, the services and the timeout.
   */
  lemma ForceTakeoverSkipsSoftChecks(ifname: string, ifname': string, inp: EventInputs, inp': EventInputs, flag: bool)
    requires inp'.jobs == inp.jobs && inp'.master == inp.master && inp'.backup == inp.backup
    requires inp'.queries.pools == inp.queries.pools && inp'.queries.services == inp.queries.services
    requires inp'.queries.config.timeout == inp.queries.config.timeout
    ensures HandlePlan(ifname, FORCE_TAKEOVER, inp, flag) == HandlePlan(ifname', FORCE_TAKEOVER, inp', flag)
  {
  }

  /**
   * When every volume's pool is ONLINE, a non-forced event that passes the
   * soft checks returns None without starting any transition.
   */
  lemma AllPoolsOnlineNoDispatch(ifname: string, event: string, inp: EventInputs, flag: bool)
    requires event != FORCE_TAKEOVER
    requires SoftCheck(FailoverData(inp.queries), ifname, inp.remoteConnected, inp.remoteStatus) == GoAhead
    requires forall k :: 0 <= k < |inp.queries.pools| ==>
      inp.queries.pools[k].name in inp.livePools && inp.livePools[inp.queries.pools[k].name] == ONLINE
    ensures HandlePlan(ifname, event, inp, flag) == EventRun([], Finished(None), flag)
  {
    PoolCheckMeaning(inp.queries.pools, inp.livePools);
  }

  /** The scan stops at the first pool that is present but not ONLINE. */
  lemma {:induction false} PoolCheckStopsAt(vols: seq<Volume>, live: map<string, string>, k: nat)
    requires k < |vols| && vols[k].name in live && live[vols[k].name] != ONLINE
    requires forall j :: 0 <= j < k ==> vols[j].name in live && live[vols[j].name] == ONLINE
    ensures PoolCheck(vols, live) == NeedsImport
  {
    if k > 0 {
      assert forall j :: 0 <= j < k - 1 ==> vols[1..][j] == vols[j + 1];
      PoolCheckStopsAt(vols[1..], live, k - 1);
    }
  }

  /**
   * An event that passes the soft checks while some volume's pool is found
   * but not ONLINE (every earlier one being ONLINE), and that no running job
   * conflicts with, whatever the event was (BACKUP too), starts vrrp_master
   * with a forced fence: the job's plan is the MASTER plan with force_fenced.
   */
  lemma PoolNotOnlineBecomesMaster(ifname: string, event: string, inp: EventInputs, flag: bool, k: nat)
    requires event != FORCE_TAKEOVER
    requires !(inp.queries.config.disabled && !inp.queries.config.master)
    requires !NonCriticalMatch(inp.queries.interfaces, ifname)
    requires !(inp.remoteConnected && inp.remoteStatus == Some(MASTER))
    requires var vols := inp.queries.pools;
      k < |vols| && vols[k].name in inp.livePools && inp.livePools[vols[k].name] != ONLINE
    requires var vols := inp.queries.pools;
      forall j :: 0 <= j < k ==> vols[j].name in inp.livePools && inp.livePools[vols[j].name] == ONLINE
    requires Validate(inp.jobs, MASTER) == Proceed
    ensures var r := MasterPlan(FailoverData(inp.queries), true, false, inp.master, flag);
      HandlePlan(ifname, event, inp, flag) == EventRun([StartJob(VRRP_MASTER_METHOD)] + r.actions, JobOutcome(r), r.flag)
    ensures var t := HandlePlan(ifname, event, inp, flag).actions;
      |t| >= 4 && t[0] == StartJob(VRRP_MASTER_METHOD) && t[2] == FencedStop && t[3] == FencedStart(true)
  {
    var fobj := FailoverData(inp.queries);
    NonCriticalMatchListed(inp.queries.interfaces, ifname);
    assert SoftCheck(fobj, ifname, inp.remoteConnected, inp.remoteStatus) == GoAhead;
    PoolCheckStopsAt(inp.queries.pools, inp.livePools, k);
    assert HandlePlan(ifname, event, inp, flag) == ValidateThenDispatch(fobj, MASTER, true, false, inp, flag);
    var r := MasterPlan(fobj, true, false, inp.master, flag);
    MasterPlanFencesFirst(fobj, true, false, inp.master, flag);
    NoStartJobInMasterPlan(fobj, true, false, inp.master, flag);
    MasterJobThenFencing(r.actions);
  }

  lemma NoStartJobInMasterPlan(fobj: Snapshot, forceFenced: bool, forcetakeover: bool, inp: MasterInputs, flag: bool)
    ensures forall a :: a in MasterPlan(fobj, forceFenced, forcetakeover, inp, flag).actions ==> !a.StartJob?
  {
    if !GroupIgnores(forceFenced, forcetakeover, inp) && FenceDiagnosis(inp.fenceCode) == FenceOk {
      var tail := MasterPlanAfterFence(fobj, forceFenced, forcetakeover, inp, flag);
      ImportActionsShape(fobj.volumes, inp.importErrors);
    }
  }

  /**
   * Whenever _event does anything or changes the flag, it went through the
   * dispatch of a MASTER event (forcetakeover keeps its own name), fenced
   * with force exactly when the event was not forcetakeover.
   */
  lemma EffectsComeFromMasterDispatch(ifname: string, event: string, inp: EventInputs, flag: bool)
    requires var h := HandlePlan(ifname, event, inp, flag); h.actions != [] || h.flag != flag
    ensures var ff := event != FORCE_TAKEOVER;
      var r := MasterPlan(FailoverData(inp.queries), ff, !ff, inp.master, flag);
      HandlePlan(ifname, event, inp, flag) == EventRun([StartJob(VRRP_MASTER_METHOD)] + r.actions, JobOutcome(r), r.flag)
  {
    var fobj := FailoverData(inp.queries);
    var ff := event != FORCE_TAKEOVER;
    var ev := if ff then MASTER else FORCE_TAKEOVER;
    assert HandlePlan(ifname, event, inp, flag) == ValidateThenDispatch(fobj, ev, ff, !ff, inp, flag);
  }

  /** A transition that is forced or force-fenced is never ignored: it reports ELECTING, then fences. */
  lemma MasterPlanFencesFirst(fobj: Snapshot, forceFenced: bool, forcetakeover: bool, inp: MasterInputs, flag: bool)
    requires forceFenced || forcetakeover
    ensures var t := MasterPlan(fobj, forceFenced, forcetakeover, inp, flag).actions;
      |t| >= 3 && t[0] == Progress(ELECTING) && t[1] == FencedStop && t[2] == FencedStart(true)
  {
    var fencing := [Progress(ELECTING), FencedStop, FencedStart(true)];
    if FenceDiagnosis(inp.fenceCode) == FenceOk {
      var r := ImportPlan(fobj, inp, flag);
      assert MasterPlan(fobj, forceFenced, forcetakeover, inp, flag).actions == fencing + r.actions;
    }
  }

  /**
   * Whatever event arrives, _event only ever starts vrrp_master, never
   * vrrp_backup, it does so at most once and first, and the transition
   * fences with force: after the ELECTING report come the stop and a forced start.
   */
  lemma OnlyMasterIsDispatched(ifname: string, event: string, inp: EventInputs, flag: bool)
    requires HandlePlan(ifname, event, inp, flag).actions != []
    ensures var t := HandlePlan(ifname, event, inp, flag).actions;
      |t| >= 4 && t[0] == StartJob(VRRP_MASTER_METHOD)
      && t[2] == FencedStop && t[3] == FencedStart(true)
      && StartJob(VRRP_BACKUP_METHOD) !in t
      && StartJob(VRRP_MASTER_METHOD) !in t[1..]
  {
    var fobj := FailoverData(inp.queries);
    var ff := event != FORCE_TAKEOVER;
    EffectsComeFromMasterDispatch(ifname, event, inp, flag);
    var r := MasterPlan(fobj, ff, !ff, inp.master, flag);
    MasterPlanFencesFirst(fobj, ff, !ff, inp.master, flag);
    NoStartJobInMasterPlan(fobj, ff, !ff, inp.master, flag);
    MasterJobThenFencing(r.actions);
  }

  /** Starting vrrp_master in front of a fencing run that starts no job. */
  lemma MasterJobThenFencing(run: seq<Action>)
    requires |run| >= 3 && run[1] == FencedStop && run[2] == FencedStart(true)
    requires forall a :: a in run ==> !a.StartJob?
    ensures var t := [StartJob(VRRP_MASTER_METHOD)] + run;
      |t| >= 4 && t[0] == StartJob(VRRP_MASTER_METHOD)
      && t[2] == FencedStop && t[3] == FencedStart(true)
      && StartJob(VRRP_BACKUP_METHOD) !in t
      && StartJob(VRRP_MASTER_METHOD) !in t[1..]
  {
    var t := [StartJob(VRRP_MASTER_METHOD)] + run;
    assert t[1..] == run;
    assert VRRP_MASTER_METHOD != VRRP_BACKUP_METHOD by {
      assert VRRP_MASTER_METHOD[21] != VRRP_BACKUP_METHOD[21];
    }
  }

  /** A RUNNING vrrp_master job keeps _event from starting any transition. */
  lemma RunningMasterJobBlocksDispatch(ifname: string, event: string, inp: EventInputs, flag: bool, k: nat)
    requires k < |inp.jobs| && inp.jobs[k].state == RUNNING && inp.jobs[k].methodName == VRRP_MASTER_METHOD
    ensures HandlePlan(ifname, event, inp, flag).actions == []
    ensures HandlePlan(ifname, event, inp, flag).flag == flag
  {
    MasterJobRejectsMaster(inp.jobs, k, MASTER);
    MasterJobRejectsMaster(inp.jobs, k, FORCE_TAKEOVER);
  }

  /** An ignored event has no side effect and leaves the flag. */
  lemma IgnoredHasNoSideEffects(ifname: string, event: string, inp: EventInputs, flag: bool)
    requires HandlePlan(ifname, event, inp, flag).end == Ignored
    ensures HandlePlan(ifname, event, inp, flag).actions == []
    ensures HandlePlan(ifname, event, inp, flag).flag == flag
  {
  }

  /**
   * event refreshes the failover status exactly once, after everything _event
   * did, unless the event was ignored (or the node went down), in which case
   * it adds nothing. An ignored event answers None.
   */
  lemma RefreshUnlessIgnored(ifname: string, event: string, inp: EventInputs, flag: bool)
    ensures var h := HandlePlan(ifname, event, inp, flag);
      var e := EventPlan(ifname, event, inp, flag);
      e.flag == h.flag
      && (h.end.Ignored? || h.end.NodeRebooted? ==> e.actions == h.actions)
      && (h.end.Finished? || h.end.Crashed? ==> e.actions == h.actions + [StatusRefresh])
      && (h.end.Ignored? ==> e.actions == [] && e.reply == Returns(None))
      && (h.end.Crashed? ==> e.reply == Throws)
  {
  }

  /**
   * The flag is set only through a completed MASTER transition: if event
   * changes it, the transition initialized the alerts, and the flag is True.
   */
  lemma FlagChangesOnlyThroughMaster(ifname: string, event: string, inp: EventInputs, flag: bool)
    ensures var e := EventPlan(ifname, event, inp, flag);
      e.flag != flag ==> e.flag && InitializeAlerts in e.actions && e.reply == Returns(None)
  {
    var h := HandlePlan(ifname, event, inp, flag);
    if h.flag != flag {
      var fobj := FailoverData(inp.queries);
      var ff := event != FORCE_TAKEOVER;
      EffectsComeFromMasterDispatch(ifname, event, inp, flag);
      FlagSetOnlyOnCompletion(fobj, ff, !ff, inp.master, flag);
    }
  }
}
