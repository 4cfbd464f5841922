/**
 * The dispatch decision (`newJobRun`): given the latest missed run, decide
 * whether to start a Job for it, honouring the starting deadline and the
 * concurrency policy (Allow, Forbid, Replace).
 */
module Dispatch {
  import opened Wrappers
  import opened CronTime
  import opened Api
  import opened JobRuns
  import opened Schedule

  /** The missed run's starting deadline has passed: `missed + deadline` is before `now`. */
  predicate TooLate(startingDeadlineSeconds: Option<int>, missed: int, now: int)
  {
    startingDeadlineSeconds.Some? && missed + startingDeadlineSeconds.value < now
  }

  /** Deleting this Job fails with an error other than not-found (not-found counts as deleted). */
  predicate DeleteFails(job: Job, deleteErrors: map<string, StoreError>)
  {
    job.name in deleteErrors && deleteErrors[job.name] != NotFound
  }

  /** The position of the first active Job whose deletion fails, or the number of active Jobs. */
  function FirstFailedDelete(active: seq<Job>, deleteErrors: map<string, StoreError>): (k: nat)
    ensures k <= |active|
    ensures forall i :: 0 <= i < k ==> !DeleteFails(active[i], deleteErrors)
    ensures k < |active| ==> DeleteFails(active[k], deleteErrors)
  {
    if active == [] then 0
    else if DeleteFails(active[0], deleteErrors) then 0
    else
      var k := FirstFailedDelete(active[1..], deleteErrors);
      assert forall i :: 0 < i < |active| ==> active[i] == active[1..][i - 1];
      1 + k
  }

  /**
   * A run is due: there is a missed time, its deadline has not passed, and the
   * policy is not Forbid with a run still active.
   */
  predicate Dispatches(spec: CronJobSpec, activeCount: nat, missed: int, now: int)
  {
    && missed != ZeroTime
    && !TooLate(spec.startingDeadlineSeconds, missed, now)
    && !(spec.concurrencyPolicy == ForbidConcurrent && activeCount > 0)
  }

  /**
   * `newJobRun`. Nothing happens when no run is due. Under Replace, every
   * active Job is deleted first, in order; the first delete that fails with
   * an error other than not-found ends the call with that error. Otherwise
   * the Job for the missed time is built (`next` is only logged).
   */
  method NewJobRun(cronJob: CronJob, active: seq<Job>, missed: int, next: int, now: int,
                   deleteErrors: map<string, StoreError>, codec: TimeCodec)
    returns (job: Option<Job>, err: Option<StoreError>, cmds: seq<Command>)
    ensures !Dispatches(cronJob.spec, |active|, missed, now) ==> job.None? && err.None? && cmds == []
    ensures Dispatches(cronJob.spec, |active|, missed, now) && cronJob.spec.concurrencyPolicy != ReplaceConcurrent ==>
              job == Some(ConstructJobForCronJob(cronJob.meta, cronJob.spec, missed, codec)) && err.None? && cmds == []
    ensures Dispatches(cronJob.spec, |active|, missed, now) && cronJob.spec.concurrencyPolicy == ReplaceConcurrent ==>
              var k := FirstFailedDelete(active, deleteErrors);
              if k < |active| then
                job.None? && err == Some(deleteErrors[active[k].name]) && cmds == DeleteCommands(active[..k + 1])
              else
                job == Some(ConstructJobForCronJob(cronJob.meta, cronJob.spec, missed, codec)) && err.None? && cmds == DeleteCommands(active)
  {
    cmds := [];
    if missed == ZeroTime {
      return None, None, cmds;
    }
    var tooLate := false;
    if cronJob.spec.startingDeadlineSeconds.Some? {
      tooLate := missed + cronJob.spec.startingDeadlineSeconds.value < now;
    }
    if tooLate {
      return None, None, cmds;
    }
    if cronJob.spec.concurrencyPolicy == ForbidConcurrent && |active| > 0 {
      return None, None, cmds;
    }
    if cronJob.spec.concurrencyPolicy == ReplaceConcurrent {
      for i := 0 to |active|
        invariant i <= FirstFailedDelete(active, deleteErrors)
        invariant cmds == DeleteCommands(active[..i])
      {
        var activeJob := active[i];
        assert active[..i + 1] == active[..i] + [activeJob];
        cmds := cmds + [DeleteJob(activeJob)];
        if activeJob.name in deleteErrors && deleteErrors[activeJob.name] != NotFound {
          return None, Some(deleteErrors[activeJob.name]), cmds;
        }
      }
      assert active[..|active|] == active;
    }
    return Some(ConstructJobForCronJob(cronJob.meta, cronJob.spec, missed, codec)), None, cmds;
  }

  /**
   * With one reading of the clock, the deadline clamp of the schedule
   * calculator already guarantees that a missed run it reports is not too
   * late, so the too-late check of `newJobRun` never fires.
   */
  lemma ClampRulesOutTooLate(schedule: CronSchedule, lastScheduleTime: Option<int>, creationTimestamp: int,
                             startingDeadlineSeconds: Option<int>, now: int)
    requires WellFormed(schedule)
    ensures var r := NextSchedule(schedule, lastScheduleTime, creationTimestamp, startingDeadlineSeconds, now);
      r.err.None? && r.lastMissed != ZeroTime ==> !TooLate(startingDeadlineSeconds, r.lastMissed, now)
  {
    if startingDeadlineSeconds.Some? {
      MissedWithinDeadline(schedule, lastScheduleTime, creationTimestamp, startingDeadlineSeconds, now);
    }
  }
}
