/**
 * The event validator: an incoming event is ignored when a transition of
 * the same kind is already RUNNING.
 */
module EventValidation {
  import opened FailoverTypes

  /**
   * A running vrrp_master job blocks MASTER and forcetakeover events; a
   * running vrrp_backup job blocks BACKUP events. Nothing else conflicts.
   */
  predicate Conflicts(methodName: string, event: string) {
    || (methodName == VRRP_MASTER_METHOD && (event == MASTER || event == FORCE_TAKEOVER))
    || (methodName == VRRP_BACKUP_METHOD && event == BACKUP)
  }

  predicate Blocks(job: Job, event: string) {
    job.state == RUNNING && Conflicts(job.methodName, event)
  }

  datatype Verdict = Proceed | Ignore

  /**
   * validate: scan the jobs for a running transition that conflicts with
   * the incoming event; the first one found makes the event ignored.
   */
  function Validate(jobs: seq<Job>, event: string): (v: Verdict)
    ensures v == Ignore <==> exists k :: 0 <= k < |jobs| && Blocks(jobs[k], event)
  {
    if jobs == [] then Proceed
    else if Blocks(jobs[0], event) then Ignore
    else
      var v := Validate(jobs[1..], event);
      assert v == Ignore ==> exists k :: 1 <= k < |jobs| && Blocks(jobs[k], event) by {
        if v == Ignore {
          var k :| 0 <= k < |jobs[1..]| && Blocks(jobs[1..][k], event);
          assert jobs[k + 1] == jobs[1..][k];
        }
      }
      v
  }

  /** The jobs of the list that are RUNNING, in order. */
  function Running(jobs: seq<Job>): (r: seq<Job>)
    ensures forall k :: 0 <= k < |r| ==> r[k].state == RUNNING && r[k] in jobs
  {
    if jobs == [] then []
    else (if jobs[0].state == RUNNING then [jobs[0]] else []) + Running(jobs[1..])
  }

  lemma {:induction false} RunningKeepsRunningJob(jobs: seq<Job>, k: nat)
    requires k < |jobs| && jobs[k].state == RUNNING
    ensures jobs[k] in Running(jobs)
  {
    if k > 0 {
      RunningKeepsRunningJob(jobs[1..], k - 1);
      assert jobs[1..][k - 1] == jobs[k];
    }
  }

  /** Only RUNNING jobs matter: the verdict is that of the running jobs alone. */
  lemma OnlyRunningJobsMatter(jobs: seq<Job>, event: string)
    ensures Validate(jobs, event) == Validate(Running(jobs), event)
  {
    var r := Running(jobs);
    if Validate(jobs, event) == Ignore {
      var k :| 0 <= k < |jobs| && Blocks(jobs[k], event);
      RunningKeepsRunningJob(jobs, k);
      var j :| 0 <= j < |r| && r[j] == jobs[k];
      assert Blocks(r[j], event);
    }
    if Validate(r, event) == Ignore {
      var j :| 0 <= j < |r| && Blocks(r[j], event);
      assert r[j] in jobs;
      var k :| 0 <= k < |jobs| && jobs[k] == r[j];
      assert Blocks(jobs[k], event);
    }
  }

  /** A running vrrp_master job rejects every MASTER and forcetakeover event. */
  lemma MasterJobRejectsMaster(jobs: seq<Job>, k: nat, event: string)
    requires k < |jobs| && jobs[k].state == RUNNING && jobs[k].methodName == VRRP_MASTER_METHOD
    requires event == MASTER || event == FORCE_TAKEOVER
    ensures Validate(jobs, event) == Ignore
  {
    assert Blocks(jobs[k], event);
  }

  /** A running vrrp_backup job rejects every BACKUP event. */
  lemma BackupJobRejectsBackup(jobs: seq<Job>, k: nat)
    requires k < |jobs| && jobs[k].state == RUNNING && jobs[k].methodName == VRRP_BACKUP_METHOD
    ensures Validate(jobs, BACKUP) == Ignore
  {
    assert Blocks(jobs[k], BACKUP);
  }

  /**
   * No other pairing is rejected: a rejected BACKUP event had a running
   * vrrp_backup job, a rejected MASTER or forcetakeover event a running
   * vrrp_master job, and any other event is never rejected.
   */
  lemma NoOtherPairingRejected(jobs: seq<Job>, event: string)
    requires Validate(jobs, event) == Ignore
    ensures event == MASTER || event == FORCE_TAKEOVER || event == BACKUP
    ensures event == BACKUP ==>
      exists k :: 0 <= k < |jobs| && jobs[k].state == RUNNING && jobs[k].methodName == VRRP_BACKUP_METHOD
    ensures event != BACKUP ==>
      exists k :: 0 <= k < |jobs| && jobs[k].state == RUNNING && jobs[k].methodName == VRRP_MASTER_METHOD
  {
    var k :| 0 <= k < |jobs| && Blocks(jobs[k], event);
  }
}
