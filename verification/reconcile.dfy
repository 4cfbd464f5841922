/**
 * The reconcile driver of the CronJob controller (`Reconcile`): fetch the
 * CronJob, classify its Jobs, rewrite its status, prune history, compute the
 * schedule, dispatch a run and choose when to be called again. Store calls
 * are modelled by their replies (inputs) and by the writes issued (outputs).
 */
module Reconciler {
  import opened Wrappers
  import opened CronTime
  import opened Api
  import opened JobRuns
  import opened ChildRuns
  import opened History
  import opened Schedule
  import opened Dispatch

  /** The store's answer to fetching the CronJob named in the request. */
  datatype FetchReply = Fetched(cronJob: CronJobObject) | FetchFailed(error: StoreError)

  /**
   * The store's answers during one reconcile: the fetch, the listing, the
   * status update, the deletes of active Jobs (keyed by Job name; a name
   * missing from the map is deleted), and the create.
   */
  datatype StoreReplies = StoreReplies(
    fetch: FetchReply,
    list: ListReply,
    statusUpdate: Option<StoreError>,
    deleteErrors: map<string, StoreError>,
    create: Option<StoreError>)

  /** The clock is read for the schedule, for the too-late check, and for the requeue delay. */
  datatype ClockReadings = ClockReadings(atSchedule: int, atDeadline: int, atRequeue: int)

  /** A store error handed back to the caller, or the panic of dereferencing a nil history limit. */
  datatype ReconcileError = StoreFailure(error: StoreError) | NilDereference

  /** The status a reconcile writes, rebuilt from the listed Jobs alone. */
  function RebuiltStatus(jobs: seq<Job>, codec: TimeCodec): CronJobStatus
  {
    CronJobStatus(References(Select(jobs, ActiveBucket)), MostRecentScheduled(jobs, codec))
  }

  /** The deletes of history pruning: failed runs first, then successful ones. */
  function HistoryDeletes(spec: CronJobSpec, jobs: seq<Job>): seq<Command>
  {
    DeleteCommands(PruneVictims(spec.failedJobsHistoryLimit, Select(jobs, FailedBucket)))
    + DeleteCommands(PruneVictims(spec.successfulJobsHistoryLimit, Select(jobs, SuccessfulBucket)))
  }

  /** The CronJob was fetched, its Jobs listed and its status written. */
  predicate StatusWritten(replies: StoreReplies)
  {
    replies.fetch.Fetched? && replies.list.Listed? && replies.statusUpdate.None?
  }

  /** Past the status write with both history limits set and not suspended: the schedule is consulted. */
  predicate ConsultsSchedule(replies: StoreReplies)
  {
    && StatusWritten(replies)
    && replies.fetch.cronJob.spec.failedJobsHistoryLimit.Some?
    && replies.fetch.cronJob.spec.successfulJobsHistoryLimit.Some?
    && replies.fetch.cronJob.spec.suspend != Some(true)
  }

  /** The schedule calculator's answer, from the last schedule time the listing yields. */
  function Runs(replies: StoreReplies, clock: ClockReadings, codec: TimeCodec): NextRuns
    requires replies.fetch.Fetched? && replies.list.Listed?
    requires WellFormed(replies.fetch.cronJob.spec.schedule)
  {
    var obj := replies.fetch.cronJob;
    NextSchedule(obj.spec.schedule, MostRecentScheduled(replies.list.jobs, codec),
                 obj.meta.creationTimestamp, obj.spec.startingDeadlineSeconds, clock.atSchedule)
  }

  predicate NoCreate(cmds: seq<Command>)
  {
    forall i :: 0 <= i < |cmds| ==> !cmds[i].CreateJob?
  }

  /** A create, if any, is the last write, and it creates `job`. */
  predicate CreatesOnlyLast(cmds: seq<Command>, job: Job)
  {
    forall i :: 0 <= i < |cmds| && cmds[i].CreateJob? ==> i == |cmds| - 1 && cmds[i].job == job
  }

  predicate EndsWithCreate(cmds: seq<Command>)
  {
    cmds != [] && cmds[|cmds| - 1].CreateJob?
  }

  /** A run is due and, under Replace, every active Job was deleted: the run's Job is created. */
  predicate Creates(spec: CronJobSpec, active: seq<Job>, missed: int, now: int, deleteErrors: map<string, StoreError>)
  {
    && Dispatches(spec, |active|, missed, now)
    && (spec.concurrencyPolicy == ReplaceConcurrent ==> FirstFailedDelete(active, deleteErrors) == |active|)
  }

  /**
   * The writes of dispatching a run: none when it is not due; under Replace
   * the deletes of the active Jobs, up to and including the first that fails;
   * then the create, unless a delete failed.
   */
  function DispatchWrites(spec: CronJobSpec, active: seq<Job>, missed: int, now: int,
                          deleteErrors: map<string, StoreError>, job: Job): seq<Command>
  {
    if !Dispatches(spec, |active|, missed, now) then []
    else if spec.concurrencyPolicy != ReplaceConcurrent then [CreateJob(job)]
    else
      var k := FirstFailedDelete(active, deleteErrors);
      if k < |active| then DeleteCommands(active[..k + 1]) else DeleteCommands(active) + [CreateJob(job)]
  }

  /** The error of dispatching a run: that of the first failed delete under Replace. */
  function DispatchError(spec: CronJobSpec, active: seq<Job>, missed: int, now: int,
                         deleteErrors: map<string, StoreError>): Option<StoreError>
  {
    if Dispatches(spec, |active|, missed, now) && spec.concurrencyPolicy == ReplaceConcurrent
       && FirstFailedDelete(active, deleteErrors) < |active|
    then Some(deleteErrors[active[FirstFailedDelete(active, deleteErrors)].name])
    else None
  }

  /**
   * Dispatch writes at most one create, as the last write, for the run's Job;
   * it is written exactly when the run is due and no delete failed, and a
   * failed delete is the only error.
   */
  lemma DispatchWritesCreateIffDue(spec: CronJobSpec, active: seq<Job>, missed: int, now: int,
                                   deleteErrors: map<string, StoreError>, job: Job)
    ensures var w := DispatchWrites(spec, active, missed, now, deleteErrors, job);
      && CreatesOnlyLast(w, job)
      && (EndsWithCreate(w) <==> Creates(spec, active, missed, now, deleteErrors))
      && (!EndsWithCreate(w) ==> NoCreate(w))
      && (DispatchError(spec, active, missed, now, deleteErrors).Some? ==> !Creates(spec, active, missed, now, deleteErrors))
      && (Dispatches(spec, |active|, missed, now) && !Creates(spec, active, missed, now, deleteErrors) ==>
            DispatchError(spec, active, missed, now, deleteErrors).Some?)
  {
    var w := DispatchWrites(spec, active, missed, now, deleteErrors, job);
    if Dispatches(spec, |active|, missed, now) && spec.concurrencyPolicy == ReplaceConcurrent {
      var k := FirstFailedDelete(active, deleteErrors);
      var deletes := if k < |active| then DeleteCommands(active[..k + 1]) else DeleteCommands(active);
      forall i | 0 <= i < |deletes| ensures w[i] == deletes[i] && w[i].DeleteJob? {
      }
    }
  }

  /** The active list of the status, rebuilt from scratch from the active runs. */
  method RebuildActive(cronJob: CronJob, active: seq<Job>)
    modifies cronJob
    ensures cronJob.status == old(cronJob.status).(active := References(active))
  {
    cronJob.status := cronJob.status.(active := []);
    for i := 0 to |active|
      invariant cronJob.status == old(cronJob.status).(active := References(active[..i]))
    {
      assert References(active[..i + 1]) == References(active[..i]) + [ReferenceTo(active[i])];
      cronJob.status := cronJob.status.(active := cronJob.status.active + [ReferenceTo(active[i])]);
    }
    assert active[..|active|] == active;
  }

  /**
   * Both history limits in turn: the failed limit is dereferenced (and a nil
   * one panics) before the failed runs are pruned, the successful limit
   * before the successful runs are.
   */
  method PruneHistory(spec: CronJobSpec, runs: ChildRuns) returns (nilLimit: bool, cmds: seq<Command>)
    ensures nilLimit <==> spec.failedJobsHistoryLimit.None? || spec.successfulJobsHistoryLimit.None?
    ensures spec.failedJobsHistoryLimit.None? ==> cmds == []
    ensures spec.failedJobsHistoryLimit.Some? && spec.successfulJobsHistoryLimit.None? ==>
              cmds == DeleteCommands(PruneVictims(spec.failedJobsHistoryLimit, runs.failed))
    ensures !nilLimit ==>
              cmds == DeleteCommands(PruneVictims(spec.failedJobsHistoryLimit, runs.failed))
                      + DeleteCommands(PruneVictims(spec.successfulJobsHistoryLimit, runs.successful))
    ensures NoCreate(cmds)
  {
    if spec.failedJobsHistoryLimit.None? {
      return true, [];
    }
    cmds := EnforceHistoryLimit(spec.failedJobsHistoryLimit, runs.failed);
    if spec.successfulJobsHistoryLimit.None? {
      return true, cmds;
    }
    var more := EnforceHistoryLimit(spec.successfulJobsHistoryLimit, runs.successful);
    cmds := cmds + more;
    nilLimit := false;
  }

  /** The schedule calculator's answer for a CronJob whose status has been rebuilt. */
  function Planned(cronJob: CronJob, now: int): NextRuns
    reads cronJob
    requires WellFormed(cronJob.spec.schedule)
  {
    NextSchedule(cronJob.spec.schedule, cronJob.status.lastScheduleTime, cronJob.meta.creationTimestamp,
                 cronJob.spec.startingDeadlineSeconds, now)
  }

  /** What a stage of the reconcile hands back: the requeue delay, the error, and the writes it issued. */
  datatype Outcome<E> = Outcome(requeueAfter: int, err: Option<E>, cmds: seq<Command>)

  /**
   * The tail of a reconcile, after history pruning, on values: nothing for a
   * suspended CronJob or a schedule in error; otherwise the dispatch writes,
   * the failed delete's error when a run is due but a delete failed, the
   * create's error, or on success a requeue at the next run.
   */
  function DispatchOutcome(spec: CronJobSpec, meta: ObjectMeta, planned: NextRuns, active: seq<Job>,
                           deleteErrors: map<string, StoreError>, create: Option<StoreError>,
                           clock: ClockReadings, codec: TimeCodec): Outcome<StoreError>
  {
    if spec.suspend == Some(true) || planned.err.Some? then Outcome(0, None, [])
    else
      var job := ConstructJobForCronJob(meta, spec, planned.lastMissed, codec);
      var writes := DispatchWrites(spec, active, planned.lastMissed, clock.atDeadline, deleteErrors, job);
      if !Creates(spec, active, planned.lastMissed, clock.atDeadline, deleteErrors) then
        Outcome(0, DispatchError(spec, active, planned.lastMissed, clock.atDeadline, deleteErrors), writes)
      else if create.Some? then Outcome(0, create, writes)
      else Outcome(planned.next - clock.atRequeue, None, writes)
  }

  /**
   * Everything after the status write, on values: the failed limit is
   * dereferenced (a nil one panics) before the failed runs are pruned, the
   * successful limit before the successful ones; then the dispatch tail.
   */
  function AfterStatusOutcome(spec: CronJobSpec, meta: ObjectMeta, runs: ChildRuns, planned: NextRuns,
                              deleteErrors: map<string, StoreError>, create: Option<StoreError>,
                              clock: ClockReadings, codec: TimeCodec): Outcome<ReconcileError>
  {
    if spec.failedJobsHistoryLimit.None? then Outcome(0, Some(NilDereference), [])
    else
      var failedDeletes := DeleteCommands(PruneVictims(spec.failedJobsHistoryLimit, runs.failed));
      if spec.successfulJobsHistoryLimit.None? then Outcome(0, Some(NilDereference), failedDeletes)
      else
        var deletes := failedDeletes + DeleteCommands(PruneVictims(spec.successfulJobsHistoryLimit, runs.successful));
        var d := DispatchOutcome(spec, meta, planned, runs.active, deleteErrors, create, clock, codec);
        Outcome(d.requeueAfter, if d.err.Some? then Some(StoreFailure(d.err.value)) else None, deletes + d.cmds)
  }

  /**
   * A whole reconcile, on values: what `Reconcile` returns and writes for
   * every combination of store replies and clock readings.
   */
  function ReconcileOutcome(replies: StoreReplies, clock: ClockReadings, codec: TimeCodec): Outcome<ReconcileError>
    requires replies.fetch.Fetched? ==> WellFormed(replies.fetch.cronJob.spec.schedule)
  {
    match replies.fetch
    case FetchFailed(e) => Outcome(0, if e == NotFound then None else Some(StoreFailure(e)), [])
    case Fetched(obj) =>
      match replies.list
      case ListFailed(e) => Outcome(0, Some(StoreFailure(e)), [])
      case Listed(jobs) =>
        var update := UpdateStatus(RebuiltStatus(jobs, codec));
        if replies.statusUpdate.Some? then Outcome(0, Some(StoreFailure(replies.statusUpdate.value)), [update])
        else
          var runs := ChildRuns(Select(jobs, ActiveBucket), Select(jobs, SuccessfulBucket), Select(jobs, FailedBucket));
          var rest := AfterStatusOutcome(obj.spec, obj.meta, runs, Runs(replies, clock, codec),
                                         replies.deleteErrors, replies.create, clock, codec);
          rest.(cmds := [update] + rest.cmds)
  }

  /**
   * The dispatch tail creates a Job exactly when the CronJob is not suspended,
   * the schedule answers and the run is due with no failed delete; only then
   * can it ask for a requeue.
   */
  lemma DispatchOutcomeCreatesOnlyWhenDue(spec: CronJobSpec, meta: ObjectMeta, planned: NextRuns, active: seq<Job>,
                                          deleteErrors: map<string, StoreError>, create: Option<StoreError>,
                                          clock: ClockReadings, codec: TimeCodec)
    ensures var o := DispatchOutcome(spec, meta, planned, active, deleteErrors, create, clock, codec);
      && (EndsWithCreate(o.cmds) <==>
            spec.suspend != Some(true) && planned.err.None?
            && Creates(spec, active, planned.lastMissed, clock.atDeadline, deleteErrors))
      && (o.requeueAfter != 0 ==> EndsWithCreate(o.cmds) && o.err.None?)
  {
    if spec.suspend != Some(true) && planned.err.None? {
      DispatchWritesCreateIffDue(spec, active, planned.lastMissed, clock.atDeadline, deleteErrors,
                                 ConstructJobForCronJob(meta, spec, planned.lastMissed, codec));
    }
  }

  /** What `NewJobRun` returns, read as the dispatch writes and error of the planned run. */
  lemma RunMatchesDispatch(spec: CronJobSpec, meta: ObjectMeta, planned: NextRuns, active: seq<Job>,
                           deleteErrors: map<string, StoreError>, now: int, codec: TimeCodec,
                           newJob: Option<Job>, runErr: Option<StoreError>, runCmds: seq<Command>)
    requires var missed, job := planned.lastMissed, ConstructJobForCronJob(meta, spec, planned.lastMissed, codec);
      && (!Dispatches(spec, |active|, missed, now) ==> newJob.None? && runErr.None? && runCmds == [])
      && (Dispatches(spec, |active|, missed, now) && spec.concurrencyPolicy != ReplaceConcurrent ==>
            newJob == Some(job) && runErr.None? && runCmds == [])
      && (Dispatches(spec, |active|, missed, now) && spec.concurrencyPolicy == ReplaceConcurrent ==>
            var k := FirstFailedDelete(active, deleteErrors);
            if k < |active| then
              newJob.None? && runErr == Some(deleteErrors[active[k].name]) && runCmds == DeleteCommands(active[..k + 1])
            else
              newJob == Some(job) && runErr.None? && runCmds == DeleteCommands(active))
    ensures var missed, job := planned.lastMissed, ConstructJobForCronJob(meta, spec, planned.lastMissed, codec);
      && (newJob.Some? <==> Creates(spec, active, missed, now, deleteErrors))
      && (newJob.Some? ==>
            newJob.value == job && runErr.None?
            && runCmds + [CreateJob(job)] == DispatchWrites(spec, active, missed, now, deleteErrors, job))
      && (newJob.None? ==>
            runErr == DispatchError(spec, active, missed, now, deleteErrors)
            && runCmds == DispatchWrites(spec, active, missed, now, deleteErrors, job))
  {
  }

  /**
   * The tail of a reconcile, after history pruning: skip a suspended
   * CronJob, compute the schedule, dispatch the run and create its Job.
   */
  method ScheduleAndDispatch(cronJob: CronJob, active: seq<Job>, deleteErrors: map<string, StoreError>,
                             create: Option<StoreError>, clock: ClockReadings, codec: TimeCodec)
    returns (requeueAfter: int, err: Option<StoreError>, cmds: seq<Command>)
    requires WellFormed(cronJob.spec.schedule)
    ensures Outcome(requeueAfter, err, cmds)
            == DispatchOutcome(cronJob.spec, cronJob.meta, Planned(cronJob, clock.atSchedule), active,
                               deleteErrors, create, clock, codec)
  {
    if cronJob.spec.suspend.Some? && cronJob.spec.suspend.value {
      return 0, None, [];
    }
    var missedRun, nextRun, scheduleErr := GetNextSchedule(cronJob, clock.atSchedule);
    if scheduleErr.Some? {
      // a broken schedule is not fixed by retrying: no error, no requeue
      return 0, None, [];
    }
    var newJob, runErr, runCmds := NewJobRun(cronJob, active, missedRun, nextRun, clock.atDeadline,
                                             deleteErrors, codec);
    RunMatchesDispatch(cronJob.spec, cronJob.meta, Planned(cronJob, clock.atSchedule), active, deleteErrors,
                       clock.atDeadline, codec, newJob, runErr, runCmds);
    cmds := runCmds;
    if runErr.Some? {
      return 0, runErr, cmds;
    }
    if newJob.None? {
      // nothing dispatched: no requeue at the next run time either
      return 0, None, cmds;
    }
    cmds := cmds + [CreateJob(newJob.value)];
    if create.Some? {
      return 0, create, cmds;
    }
    return nextRun - clock.atRequeue, None, cmds;
  }

  /**
   * Everything after the status write: prune both histories, then schedule
   * and dispatch.
   */
  method AfterStatusWrite(cronJob: CronJob, runs: ChildRuns, deleteErrors: map<string, StoreError>,
                          create: Option<StoreError>, clock: ClockReadings, codec: TimeCodec)
    returns (requeueAfter: int, err: Option<ReconcileError>, cmds: seq<Command>)
    requires WellFormed(cronJob.spec.schedule)
    ensures Outcome(requeueAfter, err, cmds)
            == AfterStatusOutcome(cronJob.spec, cronJob.meta, runs, Planned(cronJob, clock.atSchedule),
                                  deleteErrors, create, clock, codec)
  {
    var nilLimit, deletes := PruneHistory(cronJob.spec, runs);
    if nilLimit {
      return 0, Some(NilDereference), deletes;
    }
    var requeue, runErr, runCmds := ScheduleAndDispatch(cronJob, runs.active, deleteErrors, create, clock, codec);
    cmds := deletes + runCmds;
    err := if runErr.Some? then Some(StoreFailure(runErr.value)) else None;
    return requeue, err, cmds;
  }

  /** Writes with no create in front of `tail` move no create and add none. */
  lemma PrefixWithoutCreate(prefix: seq<Command>, tail: seq<Command>, job: Job)
    requires NoCreate(prefix)
    ensures NoCreate(tail) ==> NoCreate(prefix + tail)
    ensures CreatesOnlyLast(tail, job) ==> CreatesOnlyLast(prefix + tail, job)
    ensures EndsWithCreate(prefix + tail) <==> EndsWithCreate(tail)
  {
    var cmds := prefix + tail;
    forall i | 0 <= i < |prefix| ensures cmds[i] == prefix[i] {
    }
    forall i | |prefix| <= i < |cmds| ensures cmds[i] == tail[i - |prefix|] {
    }
  }

  /** `Reconcile`: one pass over a CronJob, with the store's replies and the clock as inputs. */
  method Reconcile(replies: StoreReplies, clock: ClockReadings, codec: TimeCodec)
    returns (requeueAfter: int, err: Option<ReconcileError>, cmds: seq<Command>)
    requires replies.fetch.Fetched? ==> WellFormed(replies.fetch.cronJob.spec.schedule)
    ensures Outcome(requeueAfter, err, cmds) == ReconcileOutcome(replies, clock, codec)
  {
    if replies.fetch.FetchFailed? {
      // a CronJob that no longer exists needs no requeue
      if replies.fetch.error == NotFound {
        return 0, None, [];
      }
      return 0, Some(StoreFailure(replies.fetch.error)), [];
    }
    var cronJob := new CronJob(replies.fetch.cronJob);

    var childRuns, listErr := ListCronJobChildRuns(cronJob, replies.list, codec);
    if listErr.Some? {
      return 0, Some(StoreFailure(listErr.value)), [];
    }
    // status is reconstituted from the listed Jobs, never read back
    RebuildActive(cronJob, childRuns.active);
    assert cronJob.status == RebuiltStatus(replies.list.jobs, codec);
    if replies.statusUpdate.Some? {
      return 0, Some(StoreFailure(replies.statusUpdate.value)), [UpdateStatus(cronJob.status)];
    }

    var tail;
    requeueAfter, err, tail := AfterStatusWrite(cronJob, childRuns, replies.deleteErrors, replies.create, clock, codec);
    assert Planned(cronJob, clock.atSchedule) == Runs(replies, clock, codec);
    assert cronJob.spec == replies.fetch.cronJob.spec && cronJob.meta == replies.fetch.cronJob.meta;
    cmds := [UpdateStatus(cronJob.status)] + tail;
  }

  /**
   * The early exits of a reconcile: a missing CronJob ends quietly; other
   * fetch, list and status-update errors are returned with no requeue; a nil
   * failed limit panics right after the status write, a nil successful limit
   * right after the failed runs are pruned.
   */
  lemma EarlyExits(replies: StoreReplies, clock: ClockReadings, codec: TimeCodec)
    requires replies.fetch.Fetched? ==> WellFormed(replies.fetch.cronJob.spec.schedule)
    ensures var o := ReconcileOutcome(replies, clock, codec);
      && (replies.fetch.FetchFailed? ==>
            o == Outcome(0, if replies.fetch.error == NotFound then None else Some(StoreFailure(replies.fetch.error)), []))
      && (replies.fetch.Fetched? && replies.list.ListFailed? ==>
            o == Outcome(0, Some(StoreFailure(replies.list.error)), []))
      && (replies.fetch.Fetched? && replies.list.Listed? && replies.statusUpdate.Some? ==>
            o == Outcome(0, Some(StoreFailure(replies.statusUpdate.value)),
                         [UpdateStatus(RebuiltStatus(replies.list.jobs, codec))]))
      && (StatusWritten(replies) && replies.fetch.cronJob.spec.failedJobsHistoryLimit.None? ==>
            o == Outcome(0, Some(NilDereference), [UpdateStatus(RebuiltStatus(replies.list.jobs, codec))]))
      && (StatusWritten(replies) && replies.fetch.cronJob.spec.failedJobsHistoryLimit.Some?
          && replies.fetch.cronJob.spec.successfulJobsHistoryLimit.None? ==>
            o == Outcome(0, Some(NilDereference),
                         [UpdateStatus(RebuiltStatus(replies.list.jobs, codec))]
                         + DeleteCommands(PruneVictims(replies.fetch.cronJob.spec.failedJobsHistoryLimit,
                                                       Select(replies.list.jobs, FailedBucket)))))
  {
  }

  /**
   * Once the Jobs are listed, the first write is the status rebuilt from the
   * listing; with both limits set the history deletes follow it directly.
   */
  lemma StatusWrittenFirst(replies: StoreReplies, clock: ClockReadings, codec: TimeCodec)
    requires replies.fetch.Fetched? ==> WellFormed(replies.fetch.cronJob.spec.schedule)
    ensures var o := ReconcileOutcome(replies, clock, codec);
      && (replies.fetch.Fetched? && replies.list.Listed? ==>
            o.cmds != [] && o.cmds[0] == UpdateStatus(RebuiltStatus(replies.list.jobs, codec)))
      && (StatusWritten(replies) && replies.fetch.cronJob.spec.failedJobsHistoryLimit.Some?
          && replies.fetch.cronJob.spec.successfulJobsHistoryLimit.Some? ==>
            [UpdateStatus(RebuiltStatus(replies.list.jobs, codec))]
            + HistoryDeletes(replies.fetch.cronJob.spec, replies.list.jobs) <= o.cmds)
  {
    if StatusWritten(replies) {
      ListedOutcome(replies, clock, codec);
      var spec, jobs := replies.fetch.cronJob.spec, replies.list.jobs;
      if spec.failedJobsHistoryLimit.Some? && spec.successfulJobsHistoryLimit.Some? {
        var d := DispatchOutcome(spec, replies.fetch.cronJob.meta, Runs(replies, clock, codec),
                                 Select(jobs, ActiveBucket), replies.deleteErrors, replies.create, clock, codec);
        BothLimitsOutcome(spec, replies.fetch.cronJob.meta,
                          ChildRuns(Select(jobs, ActiveBucket), Select(jobs, SuccessfulBucket), Select(jobs, FailedBucket)),
                          Runs(replies, clock, codec), replies.deleteErrors, replies.create, clock, codec);
        var prefix := [UpdateStatus(RebuiltStatus(jobs, codec))] + HistoryDeletes(spec, jobs);
        ConcatAssociates([UpdateStatus(RebuiltStatus(jobs, codec))], HistoryDeletes(spec, jobs), d.cmds);
        assert ReconcileOutcome(replies, clock, codec).cmds == prefix + d.cmds;
      }
    }
  }

  /**
   * A suspended CronJob, or one whose schedule is in error, gets its status
   * and history pruning and nothing else: no error and no requeue.
   */
  lemma SkipsWithoutDispatch(replies: StoreReplies, clock: ClockReadings, codec: TimeCodec)
    requires replies.fetch.Fetched? ==> WellFormed(replies.fetch.cronJob.spec.schedule)
    requires StatusWritten(replies)
    requires replies.fetch.cronJob.spec.failedJobsHistoryLimit.Some?
    requires replies.fetch.cronJob.spec.successfulJobsHistoryLimit.Some?
    requires replies.fetch.cronJob.spec.suspend == Some(true) || Runs(replies, clock, codec).err.Some?
    ensures ReconcileOutcome(replies, clock, codec)
            == Outcome(0, None, [UpdateStatus(RebuiltStatus(replies.list.jobs, codec))]
                                + HistoryDeletes(replies.fetch.cronJob.spec, replies.list.jobs))
  {
    var jobs := replies.list.jobs;
    ListedOutcome(replies, clock, codec);
    BothLimitsOutcome(replies.fetch.cronJob.spec, replies.fetch.cronJob.meta,
                      ChildRuns(Select(jobs, ActiveBucket), Select(jobs, SuccessfulBucket), Select(jobs, FailedBucket)),
                      Runs(replies, clock, codec), replies.deleteErrors, replies.create, clock, codec);
    ConcatAssociates([UpdateStatus(RebuiltStatus(jobs, codec))], HistoryDeletes(replies.fetch.cronJob.spec, jobs), []);
  }

  /** No history delete and no status update is a create. */
  lemma StatusAndHistoryCreateNothing(status: CronJobStatus, spec: CronJobSpec, jobs: seq<Job>)
    ensures NoCreate([UpdateStatus(status)] + HistoryDeletes(spec, jobs))
  {
    var failed := PruneVictims(spec.failedJobsHistoryLimit, Select(jobs, FailedBucket));
    var successful := PruneVictims(spec.successfulJobsHistoryLimit, Select(jobs, SuccessfulBucket));
    DeleteCommandsConcat(failed, successful);
    StatusThenDeletes(status, failed + successful);
  }

  lemma StatusThenDeletes(status: CronJobStatus, victims: seq<Job>)
    ensures NoCreate([UpdateStatus(status)] + DeleteCommands(victims))
  {
    var p := [UpdateStatus(status)] + DeleteCommands(victims);
    forall i | 0 < i < |p| ensures p[i] == DeleteJob(victims[i - 1]) {
    }
  }

  /**
   * When the schedule is consulted and answers, the writes are the status,
   * the history deletes and the dispatch writes, in that order; a create, if
   * any, is the last write and creates the Job for the missed run; without a
   * create there is no requeue, and the error is that of a failed delete.
   */
  lemma DispatchFollowsHistory(replies: StoreReplies, clock: ClockReadings, codec: TimeCodec)
    requires replies.fetch.Fetched? ==> WellFormed(replies.fetch.cronJob.spec.schedule)
    requires ConsultsSchedule(replies) && Runs(replies, clock, codec).err.None?
    ensures var o := ReconcileOutcome(replies, clock, codec);
            var spec, missed := replies.fetch.cronJob.spec, Runs(replies, clock, codec).lastMissed;
            var active := Select(replies.list.jobs, ActiveBucket);
            var job := ConstructJobForCronJob(replies.fetch.cronJob.meta, spec, missed, codec);
      && o.cmds == [UpdateStatus(RebuiltStatus(replies.list.jobs, codec))] + HistoryDeletes(spec, replies.list.jobs)
                   + DispatchWrites(spec, active, missed, clock.atDeadline, replies.deleteErrors, job)
      && CreatesOnlyLast(o.cmds, job)
      && (!EndsWithCreate(o.cmds) ==>
            && o.requeueAfter == 0
            && var e := DispatchError(spec, active, missed, clock.atDeadline, replies.deleteErrors);
               o.err == (if e.Some? then Some(StoreFailure(e.value)) else None))
  {
    var spec, missed := replies.fetch.cronJob.spec, Runs(replies, clock, codec).lastMissed;
    var active := Select(replies.list.jobs, ActiveBucket);
    var job := ConstructJobForCronJob(replies.fetch.cronJob.meta, spec, missed, codec);
    var prefix := [UpdateStatus(RebuiltStatus(replies.list.jobs, codec))] + HistoryDeletes(spec, replies.list.jobs);
    var writes := DispatchWrites(spec, active, missed, clock.atDeadline, replies.deleteErrors, job);
    ConsultedOutcome(replies, clock, codec);
    DispatchWritesCreateIffDue(spec, active, missed, clock.atDeadline, replies.deleteErrors, job);
    StatusAndHistoryCreateNothing(RebuiltStatus(replies.list.jobs, codec), spec, replies.list.jobs);
    PrefixWithoutCreate(prefix, writes, job);
  }

  /**
   * Once the schedule is consulted, a reconcile is the status write and the
   * history deletes followed by the dispatch tail, whose error is passed on
   * as a store failure.
   */
  lemma ConsultedOutcome(replies: StoreReplies, clock: ClockReadings, codec: TimeCodec)
    requires replies.fetch.Fetched? ==> WellFormed(replies.fetch.cronJob.spec.schedule)
    requires ConsultsSchedule(replies)
    ensures var d := DispatchOutcome(replies.fetch.cronJob.spec, replies.fetch.cronJob.meta, Runs(replies, clock, codec),
                                     Select(replies.list.jobs, ActiveBucket), replies.deleteErrors, replies.create,
                                     clock, codec);
      ReconcileOutcome(replies, clock, codec)
      == Outcome(d.requeueAfter, if d.err.Some? then Some(StoreFailure(d.err.value)) else None,
                 [UpdateStatus(RebuiltStatus(replies.list.jobs, codec))]
                 + HistoryDeletes(replies.fetch.cronJob.spec, replies.list.jobs) + d.cmds)
  {
    var jobs := replies.list.jobs;
    ListedOutcome(replies, clock, codec);
    BothLimitsOutcome(replies.fetch.cronJob.spec, replies.fetch.cronJob.meta,
                      ChildRuns(Select(jobs, ActiveBucket), Select(jobs, SuccessfulBucket), Select(jobs, FailedBucket)),
                      Runs(replies, clock, codec), replies.deleteErrors, replies.create, clock, codec);
    ConcatAssociates([UpdateStatus(RebuiltStatus(jobs, codec))], HistoryDeletes(replies.fetch.cronJob.spec, jobs),
                     DispatchOutcome(replies.fetch.cronJob.spec, replies.fetch.cronJob.meta, Runs(replies, clock, codec),
                                     Select(jobs, ActiveBucket), replies.deleteErrors, replies.create,
                                     clock, codec).cmds);
  }

  lemma ConcatAssociates(a: seq<Command>, b: seq<Command>, c: seq<Command>)
    ensures a + (b + c) == a + b + c
  {
  }

  /** Past the status write, a reconcile is that write followed by everything after it. */
  lemma ListedOutcome(replies: StoreReplies, clock: ClockReadings, codec: TimeCodec)
    requires replies.fetch.Fetched? ==> WellFormed(replies.fetch.cronJob.spec.schedule)
    requires StatusWritten(replies)
    ensures var jobs := replies.list.jobs;
            var rest := AfterStatusOutcome(replies.fetch.cronJob.spec, replies.fetch.cronJob.meta,
                                           ChildRuns(Select(jobs, ActiveBucket), Select(jobs, SuccessfulBucket),
                                                     Select(jobs, FailedBucket)),
                                           Runs(replies, clock, codec), replies.deleteErrors, replies.create,
                                           clock, codec);
      ReconcileOutcome(replies, clock, codec) == rest.(cmds := [UpdateStatus(RebuiltStatus(jobs, codec))] + rest.cmds)
  {
  }

  /** With both history limits set, both prunings come before the dispatch tail. */
  lemma BothLimitsOutcome(spec: CronJobSpec, meta: ObjectMeta, runs: ChildRuns, planned: NextRuns,
                          deleteErrors: map<string, StoreError>, create: Option<StoreError>,
                          clock: ClockReadings, codec: TimeCodec)
    requires spec.failedJobsHistoryLimit.Some? && spec.successfulJobsHistoryLimit.Some?
    ensures var d := DispatchOutcome(spec, meta, planned, runs.active, deleteErrors, create, clock, codec);
      AfterStatusOutcome(spec, meta, runs, planned, deleteErrors, create, clock, codec)
      == Outcome(d.requeueAfter, if d.err.Some? then Some(StoreFailure(d.err.value)) else None,
                 DeleteCommands(PruneVictims(spec.failedJobsHistoryLimit, runs.failed))
                 + DeleteCommands(PruneVictims(spec.successfulJobsHistoryLimit, runs.successful)) + d.cmds)
  {
  }

  /**
   * A Job is created exactly when the schedule is consulted, answers, the
   * missed run is due (not the zero time, not past its deadline, not
   * forbidden by a running Job) and, under Replace, every active Job was
   * deleted.
   */
  lemma CreateOnlyWhenDue(replies: StoreReplies, clock: ClockReadings, codec: TimeCodec)
    requires replies.fetch.Fetched? ==> WellFormed(replies.fetch.cronJob.spec.schedule)
    ensures EndsWithCreate(ReconcileOutcome(replies, clock, codec).cmds) <==>
              && ConsultsSchedule(replies) && Runs(replies, clock, codec).err.None?
              && Creates(replies.fetch.cronJob.spec, Select(replies.list.jobs, ActiveBucket),
                         Runs(replies, clock, codec).lastMissed, clock.atDeadline, replies.deleteErrors)
  {
    if ConsultsSchedule(replies) && Runs(replies, clock, codec).err.None? {
      var spec, missed := replies.fetch.cronJob.spec, Runs(replies, clock, codec).lastMissed;
      var active := Select(replies.list.jobs, ActiveBucket);
      var job := ConstructJobForCronJob(replies.fetch.cronJob.meta, spec, missed, codec);
      var prefix := [UpdateStatus(RebuiltStatus(replies.list.jobs, codec))] + HistoryDeletes(spec, replies.list.jobs);
      var writes := DispatchWrites(spec, active, missed, clock.atDeadline, replies.deleteErrors, job);
      DispatchFollowsHistory(replies, clock, codec);
      DispatchWritesCreateIffDue(spec, active, missed, clock.atDeadline, replies.deleteErrors, job);
      StatusAndHistoryCreateNothing(RebuiltStatus(replies.list.jobs, codec), spec, replies.list.jobs);
      PrefixWithoutCreate(prefix, writes, job);
    } else {
      NothingCreatedWithoutSchedule(replies, clock, codec);
    }
  }

  /** A reconcile that never gets an answer from the schedule creates nothing. */
  lemma NothingCreatedWithoutSchedule(replies: StoreReplies, clock: ClockReadings, codec: TimeCodec)
    requires replies.fetch.Fetched? ==> WellFormed(replies.fetch.cronJob.spec.schedule)
    requires !(ConsultsSchedule(replies) && Runs(replies, clock, codec).err.None?)
    ensures NoCreate(ReconcileOutcome(replies, clock, codec).cmds)
  {
    EarlyExits(replies, clock, codec);
    if StatusWritten(replies) && replies.fetch.cronJob.spec.failedJobsHistoryLimit.Some? {
      var spec := replies.fetch.cronJob.spec;
      var update := [UpdateStatus(RebuiltStatus(replies.list.jobs, codec))];
      if spec.successfulJobsHistoryLimit.Some? {
        SkipsWithoutDispatch(replies, clock, codec);
        StatusAndHistoryCreateNothing(RebuiltStatus(replies.list.jobs, codec), spec, replies.list.jobs);
      } else {
        var failed := DeleteCommands(PruneVictims(spec.failedJobsHistoryLimit, Select(replies.list.jobs, FailedBucket)));
        PrefixWithoutCreate(update, failed, ConstructJobForCronJob(replies.fetch.cronJob.meta, spec, 0, codec));
      }
    }
  }

  /**
   * Only a created Job leads to a requeue: after `next - now` when the
   * create succeeds, with the create's error and no requeue when it fails.
   */
  lemma RequeueOnlyAfterCreate(replies: StoreReplies, clock: ClockReadings, codec: TimeCodec)
    requires replies.fetch.Fetched? ==> WellFormed(replies.fetch.cronJob.spec.schedule)
    ensures var o := ReconcileOutcome(replies, clock, codec);
      && (o.requeueAfter != 0 ==> EndsWithCreate(o.cmds) && o.err.None?)
      && (EndsWithCreate(o.cmds) ==>
            && o.err == (if replies.create.Some? then Some(StoreFailure(replies.create.value)) else None)
            && o.requeueAfter == (if replies.create.Some? then 0 else Runs(replies, clock, codec).next - clock.atRequeue))
  {
    CreateOnlyWhenDue(replies, clock, codec);
    if ConsultsSchedule(replies) && Runs(replies, clock, codec).err.None? {
      DispatchFollowsHistory(replies, clock, codec);
    }
  }

  /** Every victim of pruning a bucket's runs belongs to that bucket. */
  lemma VictimsStayInBucket(historyLimit: Option<int32>, jobs: seq<Job>, b: Bucket)
    ensures forall v :: v in PruneVictims(historyLimit, Select(jobs, b)) ==> BucketOf(v) == b
  {
    var victims := PruneVictims(historyLimit, Select(jobs, b));
    SelectCounts(jobs, b);
    forall v | v in victims ensures BucketOf(v) == b {
      assert v in multiset(victims);
      assert multiset(Select(jobs, b))[v] > 0;
    }
  }

  /** Deleting two lists of Jobs in turn is deleting their concatenation. */
  lemma DeleteCommandsConcat(a: seq<Job>, b: seq<Job>)
    ensures DeleteCommands(a) + DeleteCommands(b) == DeleteCommands(a + b)
  {
    var l := DeleteCommands(a) + DeleteCommands(b);
    var r := DeleteCommands(a + b);
    forall i | 0 <= i < |r| ensures l[i] == r[i] {
      if i < |a| {
        assert l[i] == DeleteCommands(a)[i];
      } else {
        assert l[i] == DeleteCommands(b)[i - |a|];
      }
    }
  }

  /** History pruning only ever deletes finished runs: never a Job of the active bucket. */
  lemma PruningSparesActive(spec: CronJobSpec, jobs: seq<Job>)
    ensures forall i :: 0 <= i < |HistoryDeletes(spec, jobs)| ==>
              BucketOf(HistoryDeletes(spec, jobs)[i].job) != ActiveBucket
  {
    var failed := PruneVictims(spec.failedJobsHistoryLimit, Select(jobs, FailedBucket));
    var successful := PruneVictims(spec.successfulJobsHistoryLimit, Select(jobs, SuccessfulBucket));
    VictimsStayInBucket(spec.failedJobsHistoryLimit, jobs, FailedBucket);
    VictimsStayInBucket(spec.successfulJobsHistoryLimit, jobs, SuccessfulBucket);
    var victims := failed + successful;
    DeleteCommandsConcat(failed, successful);
    var d := HistoryDeletes(spec, jobs);
    assert d == DeleteCommands(victims);
    forall i | 0 <= i < |d| ensures BucketOf(d[i].job) != ActiveBucket {
      assert d[i].job == victims[i];
      assert victims[i] in failed || victims[i] in successful;
    }
  }
}
