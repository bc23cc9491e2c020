/**
 * Shared vocabulary of the failover core: the records the collaborators
 * answer with, the side effects a transition performs (as Action values
 * appended to a trace), and the ways a transition job can end.
 */
module FailoverTypes {

  datatype Option<+T> = None | Some(value: T)

  // Event tokens: the two keepalived states and the manual takeover request.
  const MASTER: string := "MASTER"
  const BACKUP: string := "BACKUP"
  const FORCE_TAKEOVER: string := "forcetakeover"

  // Job method names of the two transitions (namespace failover.events).
  const VRRP_MASTER_METHOD: string := "failover.events.vrrp_master"
  const VRRP_BACKUP_METHOD: string := "failover.events.vrrp_backup"

  const RUNNING: string := "RUNNING"
  const ONLINE: string := "ONLINE"
  const OFFLINE: string := "OFFLINE"

  // Progress descriptions and job results a transition reports.
  const ELECTING: string := "ELECTING"
  const IMPORTING: string := "IMPORTING"
  const IGNORED: string := "IGNORED"
  const ERROR: string := "ERROR"

  /** Services restarted first, in this order, when becoming MASTER. */
  const CRITICAL_SERVICES: seq<string> := ["iscsitarget", "cifs", "nfs", "afp"]

  /** Seconds the BACKUP transition allows for exporting every pool. */
  const ZPOOL_EXPORT_TIMEOUT: nat := 4

  /** A row of pool.query selected to name, guid and status. */
  datatype Volume = Volume(name: string, guid: string, status: string)

  /** A row of the services table: srv_service and srv_enable. */
  datatype ServiceRow = ServiceRow(service: string, enable: bool)

  /**
   * A row of interface.query: its id, whether it is failover-critical, its
   * failover group (which may be null) and whether state.vrrp_config is truthy.
   */
  datatype Interface = Interface(id: string, critical: bool, group: Option<int>, vrrpConfigured: bool)

  /** The fields of failover.config the core reads. */
  datatype FailoverConfig = FailoverConfig(disabled: bool, master: bool, timeout: int)

  /** A row of core.get_jobs: method name, state and progress description. */
  datatype Job = Job(methodName: string, state: string, description: Option<string>)

  /**
   * The answer of failover.vip.check_failover_group: status[0] lists the other
   * group members still MASTER, status[1] those still BACKUP.
   */
  datatype GroupStatus = GroupStatus(masters: seq<string>, backups: seq<string>)

  /** One side effect, in the order the core performs it. */
  datatype Action =
    | Progress(description: string)             // job.set_progress
    | SetResult(result: string)                 // job.set_result
    | StartJob(methodName: string)              // scheduling a transition job
    | FencedStop
    | FencedStart(force: bool)
    | Import(guid: string)                      // zfs.pool.import_pool
    | Unlock(pool: string)                      // failover.unlock_zfs_datasets
    | Export(pool: string)                      // zfs.pool.export with force
    | SysrqReboot                               // the sysrq 'b' trigger
    | StatusRefresh                             // failover.status_refresh
    | Generate(subsystem: string)               // etc.generate
    | Restart(service: string, localOnly: bool) // service.restart; localOnly: ha_propagate=False
    | Stop(service: string, localOnly: bool)    // service.stop
    | DiskSync                                  // disk.sync_all
    | EnclosureSync                             // enclosure.sync_zpool
    | BlockFailoverAlerts
    | InitializeAlerts
    | KmipInitializeKeys
    | SyncKeysFromRemote                        // failover.sync_keys_to_remote_node on the peer

  /**
   * How a transition job ends: it returned a value, it raised (the
   * IgnoreFailoverEvent a job raises leaves the job with an error), or the
   * node rebooted while it ran.
   */
  datatype JobEnd = Returned(value: bool) | Raised | Rebooted

  /** The side effects of one transition, how it ended and the flag afterwards. */
  datatype JobRun = JobRun(actions: seq<Action>, end: JobEnd, flag: bool)

  predicate IsRestart(a: Action) { a.Restart? }
  predicate IsImport(a: Action) { a.Import? }
  predicate IsFencing(a: Action) { a.FencedStop? || a.FencedStart? }

  /** The guids of the Import actions of a trace, in trace order. */
  function ImportedGuids(t: seq<Action>): (r: seq<string>)
    ensures |r| <= |t|
  {
    if t == [] then []
    else ImportedGuids(t[..|t| - 1]) + (if t[|t| - 1].Import? then [t[|t| - 1].guid] else [])
  }

  /** The pool names of the Export actions of a trace, in trace order. */
  function ExportedPools(t: seq<Action>): (r: seq<string>)
    ensures |r| <= |t|
  {
    if t == [] then []
    else ExportedPools(t[..|t| - 1]) + (if t[|t| - 1].Export? then [t[|t| - 1].pool] else [])
  }

  lemma {:induction false} ImportedGuidsAppend(a: seq<Action>, b: seq<Action>)
    ensures ImportedGuids(a + b) == ImportedGuids(a) + ImportedGuids(b)
    decreases |b|
  {
    if b == [] {
      assert a + b == a;
    } else {
      var b' := b[..|b| - 1];
      assert (a + b)[..|a + b| - 1] == a + b';
      ImportedGuidsAppend(a, b');
    }
  }

  lemma {:induction false} ExportedPoolsAppend(a: seq<Action>, b: seq<Action>)
    ensures ExportedPools(a + b) == ExportedPools(a) + ExportedPools(b)
    decreases |b|
  {
    if b == [] {
      assert a + b == a;
    } else {
      var b' := b[..|b| - 1];
      assert (a + b)[..|a + b| - 1] == a + b';
      ExportedPoolsAppend(a, b');
    }
  }

  function Guids(vols: seq<Volume>): (r: seq<string>)
    ensures |r| == |vols|
    ensures forall k :: 0 <= k < |vols| ==> r[k] == vols[k].guid
  {
    if vols == [] then [] else Guids(vols[..|vols| - 1]) + [vols[|vols| - 1].guid]
  }

  function Names(vols: seq<Volume>): (r: seq<string>)
    ensures |r| == |vols|
    ensures forall k :: 0 <= k < |vols| ==> r[k] == vols[k].name
  {
    if vols == [] then [] else Names(vols[..|vols| - 1]) + [vols[|vols| - 1].name]
  }

  /** Regrouping a trace extended three times (a proof step shared by the trace proofs; it models nothing). */
  lemma TraceRegroup(t: seq<Action>, a: seq<Action>, b: seq<Action>, c: seq<Action>)
    ensures t + a + b + c == t + (a + b + c)
  {
    assert t + a + b == t + (a + b);
    assert (t + (a + b)) + c == t + ((a + b) + c);
  }

  /** Extending a trace twice is extending it once by both parts (a proof step; it models nothing). */
  lemma TraceExtend(t: seq<Action>, a: seq<Action>, b: seq<Action>)
    ensures t + a + b == t + (a + b)
  {
  }
}
