/**
 * The local failover status (failover.status get_local): SINGLE when this
 * node is not part of an HA pair with pools, MASTER when it holds VRRP
 * masters and an imported pool, otherwise the progress of a transition that
 * is under way, if any.
 */
module FailoverStatus {
  import opened FailoverTypes

  /** A row of pool.query: its status field, None when the row has no such key. */
  datatype PoolRow = PoolRow(status: Option<string>)

  const SINGLE: string := "SINGLE"

  /** The transition jobs whose progress get_local reports (the failover.events namespace). */
  const TRANSITION_METHODS: seq<string> := [VRRP_MASTER_METHOD, VRRP_BACKUP_METHOD]

  /** A job of one of the given methods that is RUNNING. */
  predicate Watched(job: Job, methods: seq<string>) {
    job.methodName in methods && job.state == RUNNING
  }

  /** The position of the first watched job, if there is one. */
  function FirstWatched(jobs: seq<Job>, methods: seq<string>): (r: Option<nat>)
    ensures r.Some? ==>
      && r.value < |jobs| && Watched(jobs[r.value], methods)
      && (forall j :: 0 <= j < r.value ==> !Watched(jobs[j], methods))
    ensures r.None? ==> forall j :: 0 <= j < |jobs| ==> !Watched(jobs[j], methods)
  {
    if jobs == [] then None
    else if Watched(jobs[0], methods) then Some(0)
    else
      var r := FirstWatched(jobs[1..], methods);
      assert forall j :: 1 <= j < |jobs| ==> jobs[j] == jobs[1..][j - 1];
      if r.Some? then Some(r.value + 1) else None
  }

  predicate HasVrrpInterface(ifaces: seq<Interface>) {
    exists k :: 0 <= k < |ifaces| && ifaces[k].vrrpConfigured
  }

  /** Some pool is not OFFLINE (a pool without a status counts as not OFFLINE). */
  predicate SomePoolNotOffline(pools: seq<PoolRow>) {
    exists k :: 0 <= k < |pools| && pools[k].status != Some(OFFLINE)
  }

  /**
   * The classification, for the job methods it watches. vipMasters is the
   * first list failover.vip.get_states answers (the interfaces that are VRRP
   * MASTER); the result None stands for Python's None.
   */
  function Classify(ifaces: seq<Interface>, pools: seq<PoolRow>, vipMasters: seq<string>, jobs: seq<Job>, methods: seq<string>): Option<string> {
    if !HasVrrpInterface(ifaces) then Some(SINGLE)
    else if pools == [] then Some(SINGLE)
    else if vipMasters != [] then
      if SomePoolNotOffline(pools) then Some(MASTER)
      else
        match FirstWatched(jobs, methods)
        case Some(i) => jobs[i].description
        case None => None
    else None
  }

  /** get_local, watching the two transition jobs. */
  function GetLocal(ifaces: seq<Interface>, pools: seq<PoolRow>, vipMasters: seq<string>, jobs: seq<Job>): Option<string> {
    Classify(ifaces, pools, vipMasters, jobs, TRANSITION_METHODS)
  }

  // ---------------------------------------------------------------------
  // Properties of the classification.

  /** No interface with a VRRP configuration: SINGLE, whatever the pools and jobs. */
  lemma NoVrrpIsSingle(ifaces: seq<Interface>, pools: seq<PoolRow>, vipMasters: seq<string>, jobs: seq<Job>)
    requires forall k :: 0 <= k < |ifaces| ==> !ifaces[k].vrrpConfigured
    ensures GetLocal(ifaces, pools, vipMasters, jobs) == Some(SINGLE)
  {
  }

  /** No pool at all: SINGLE. */
  lemma NoPoolsIsSingle(ifaces: seq<Interface>, vipMasters: seq<string>, jobs: seq<Job>)
    ensures GetLocal(ifaces, [], vipMasters, jobs) == Some(SINGLE)
  {
  }

  /** VRRP masters here and a pool that is not OFFLINE: MASTER. */
  lemma MasterWhenPoolNotOffline(ifaces: seq<Interface>, pools: seq<PoolRow>, vipMasters: seq<string>, jobs: seq<Job>, k: nat)
    requires HasVrrpInterface(ifaces) && vipMasters != []
    requires k < |pools| && pools[k].status != Some(OFFLINE)
    ensures GetLocal(ifaces, pools, vipMasters, jobs) == Some(MASTER)
  {
  }

  /**
   * VRRP masters here and every pool OFFLINE: the progress description of
   * the first RUNNING transition job, in query order, or None when no
   * transition is running.
   */
  lemma AllOfflineReportsFirstRunningJob(ifaces: seq<Interface>, pools: seq<PoolRow>, vipMasters: seq<string>, jobs: seq<Job>)
    requires HasVrrpInterface(ifaces) && pools != [] && vipMasters != []
    requires forall k :: 0 <= k < |pools| ==> pools[k].status == Some(OFFLINE)
    ensures forall k ::
      (0 <= k < |jobs| && Watched(jobs[k], TRANSITION_METHODS)
       && (forall j :: 0 <= j < k ==> !Watched(jobs[j], TRANSITION_METHODS)))
      ==> GetLocal(ifaces, pools, vipMasters, jobs) == jobs[k].description
    ensures (forall k :: 0 <= k < |jobs| ==> !Watched(jobs[k], TRANSITION_METHODS))
      ==> GetLocal(ifaces, pools, vipMasters, jobs) == None
  {
    var r := FirstWatched(jobs, TRANSITION_METHODS);
    forall k | 0 <= k < |jobs| && Watched(jobs[k], TRANSITION_METHODS)
      && (forall j :: 0 <= j < k ==> !Watched(jobs[j], TRANSITION_METHODS))
      ensures GetLocal(ifaces, pools, vipMasters, jobs) == jobs[k].description
    {
      assert r == Some(k);
    }
  }

  /** No VRRP master interface here: None, once there is a VRRP interface and a pool. */
  lemma NoVipMasterIsNone(ifaces: seq<Interface>, pools: seq<PoolRow>, jobs: seq<Job>)
    requires HasVrrpInterface(ifaces) && pools != []
    ensures GetLocal(ifaces, pools, [], jobs) == None
  {
  }

  /**
   * The answer is SINGLE, MASTER, None, or the description of a RUNNING
   * transition job.
   */
  lemma StatusRange(ifaces: seq<Interface>, pools: seq<PoolRow>, vipMasters: seq<string>, jobs: seq<Job>)
    ensures var r := GetLocal(ifaces, pools, vipMasters, jobs);
      r == Some(SINGLE) || r == Some(MASTER) || r == None
      || exists k :: 0 <= k < |jobs| && Watched(jobs[k], TRANSITION_METHODS) && r == jobs[k].description
  {
  }
}
