/**
 * The run classifier (`listCronJobChildRuns`): it sorts the CronJob's child
 * Jobs into active, successful and failed buckets and records the latest
 * scheduled time found on them in the CronJob's status.
 */
module ChildRuns {
  import opened Wrappers
  import opened CronTime
  import opened Api
  import opened JobRuns

  datatype Bucket = ActiveBucket | SuccessfulBucket | FailedBucket

  /** `CronJobChildRuns`: the three buckets. */
  datatype ChildRuns = ChildRuns(active: seq<Job>, successful: seq<Job>, failed: seq<Job>)

  /** The store's answer to listing the CronJob's child Jobs. */
  datatype ListReply = Listed(jobs: seq<Job>) | ListFailed(error: StoreError)

  /** The bucket of a Job, decided by its first decisive condition. */
  function BucketOf(job: Job): (b: Bucket)
    ensures b == SuccessfulBucket <==> FinishedType(job.status.conditions) == Some(Complete)
    ensures b == FailedBucket <==> FinishedType(job.status.conditions) == Some(Failed)
    ensures b == ActiveBucket <==> forall i :: 0 <= i < |job.status.conditions| ==> !Decisive(job.status.conditions[i])
  {
    match FinishedType(job.status.conditions)
    case Some(Complete) => SuccessfulBucket
    case Some(Failed) => FailedBucket
    case _ => ActiveBucket
  }

  /** The Jobs of one bucket, in listing order. */
  function Select(jobs: seq<Job>, b: Bucket): seq<Job>
  {
    if jobs == [] then []
    else Select(jobs[..|jobs| - 1], b) + (if BucketOf(jobs[|jobs| - 1]) == b then [jobs[|jobs| - 1]] else [])
  }

  /** The later of a running maximum and one more parsed time. */
  function Later(m: Option<int>, t: Option<int>): Option<int>
  {
    if t.None? then m
    else if m.None? || m.value < t.value then t
    else m
  }

  /** The latest parsable scheduled-at time among the Jobs, folded in listing order. */
  function MostRecentScheduled(jobs: seq<Job>, codec: TimeCodec): Option<int>
  {
    if jobs == [] then None
    else Later(MostRecentScheduled(jobs[..|jobs| - 1], codec), ScheduledTimeForJob(jobs[|jobs| - 1], codec))
  }

  /**
   * The last schedule time is None exactly when no Job has a parsable
   * scheduled-at annotation, and otherwise the largest of those times.
   */
  lemma {:induction false} MostRecentIsMaximum(jobs: seq<Job>, codec: TimeCodec)
    ensures var m := MostRecentScheduled(jobs, codec);
      && (m.None? <==> forall i :: 0 <= i < |jobs| ==> ScheduledTimeForJob(jobs[i], codec).None?)
      && (m.Some? ==> exists i :: 0 <= i < |jobs| && ScheduledTimeForJob(jobs[i], codec) == m)
      && (m.Some? ==> forall i :: 0 <= i < |jobs| && ScheduledTimeForJob(jobs[i], codec).Some? ==>
                                   ScheduledTimeForJob(jobs[i], codec).value <= m.value)
  {
    if jobs != [] {
      var init := jobs[..|jobs| - 1];
      MostRecentIsMaximum(init, codec);
      assert forall i :: 0 <= i < |init| ==> init[i] == jobs[i];
      var m0 := MostRecentScheduled(init, codec);
      if m0.Some? {
        var i :| 0 <= i < |init| && ScheduledTimeForJob(init[i], codec) == m0;
        assert ScheduledTimeForJob(jobs[i], codec) == m0;
      }
    }
  }

  /**
   * `listCronJobChildRuns`: on a failed listing the error is returned and the
   * status is untouched; otherwise every child lands in its bucket, in listing
   * order, and the status' last schedule time becomes the latest parsable
   * scheduled-at time (None when there is none).
   */
  method ListCronJobChildRuns(cronJob: CronJob, listing: ListReply, codec: TimeCodec)
    returns (runs: ChildRuns, err: Option<StoreError>)
    modifies cronJob
    ensures listing.ListFailed? ==> err == Some(listing.error) && cronJob.status == old(cronJob.status)
    ensures listing.Listed? ==>
      && err.None?
      && runs == ChildRuns(Select(listing.jobs, ActiveBucket), Select(listing.jobs, SuccessfulBucket),
                           Select(listing.jobs, FailedBucket))
      && cronJob.status == old(cronJob.status).(lastScheduleTime := MostRecentScheduled(listing.jobs, codec))
  {
    if listing.ListFailed? {
      return ChildRuns([], [], []), Some(listing.error);
    }
    var jobs := listing.jobs;
    var activeJobs, successfulJobs, failedJobs := [], [], [];
    var mostRecentTime: Option<int> := None;
    for i := 0 to |jobs|
      invariant activeJobs == Select(jobs[..i], ActiveBucket)
      invariant successfulJobs == Select(jobs[..i], SuccessfulBucket)
      invariant failedJobs == Select(jobs[..i], FailedBucket)
      invariant mostRecentTime == MostRecentScheduled(jobs[..i], codec)
    {
      var job := jobs[i];
      ghost var seen := jobs[..i + 1];
      assert seen[..i] == jobs[..i] && seen[i] == job;
      assert forall b :: Select(seen, b) == Select(jobs[..i], b) + (if BucketOf(job) == b then [job] else []);
      match FinishedType(job.status.conditions) {
        case Some(Complete) =>
          successfulJobs := successfulJobs + [job];
        case Some(Failed) =>
          failedJobs := failedJobs + [job];
        case _ =>
          activeJobs := activeJobs + [job];
      }
      var scheduledTimeForJob := ScheduledTimeForJob(job, codec);
      assert MostRecentScheduled(seen, codec) == Later(mostRecentTime, scheduledTimeForJob);
      if scheduledTimeForJob.None? {
        continue;
      }
      if mostRecentTime.None? {
        mostRecentTime := scheduledTimeForJob;
      } else if mostRecentTime.value < scheduledTimeForJob.value {
        mostRecentTime := scheduledTimeForJob;
      }
    }
    assert jobs[..|jobs|] == jobs;
    cronJob.status := cronJob.status.(lastScheduleTime := mostRecentTime);
    return ChildRuns(activeJobs, successfulJobs, failedJobs), None;
  }

  /** A bucket holds each Job of its kind as often as the listing does, and no other Job. */
  lemma {:induction false} SelectCounts(jobs: seq<Job>, b: Bucket)
    ensures forall x :: multiset(Select(jobs, b))[x] == if BucketOf(x) == b then multiset(jobs)[x] else 0
  {
    if jobs != [] {
      var init, last := jobs[..|jobs| - 1], jobs[|jobs| - 1];
      SelectCounts(init, b);
      assert jobs == init + [last];
    }
  }

  /** Every listed Job lands in exactly one bucket: the three buckets together are the listing. */
  lemma PartitionIsExact(jobs: seq<Job>)
    ensures multiset(Select(jobs, ActiveBucket)) + multiset(Select(jobs, SuccessfulBucket))
            + multiset(Select(jobs, FailedBucket)) == multiset(jobs)
    ensures |Select(jobs, ActiveBucket)| + |Select(jobs, SuccessfulBucket)| + |Select(jobs, FailedBucket)| == |jobs|
  {
    SelectCounts(jobs, ActiveBucket);
    SelectCounts(jobs, SuccessfulBucket);
    SelectCounts(jobs, FailedBucket);
    var all := multiset(Select(jobs, ActiveBucket)) + multiset(Select(jobs, SuccessfulBucket))
               + multiset(Select(jobs, FailedBucket));
    assert forall x :: all[x] == multiset(jobs)[x];
    assert all == multiset(jobs);
    assert |all| == |multiset(jobs)|;
  }

  /** The last schedule time does not depend on the order in which the store lists the Jobs. */
  lemma MostRecentIgnoresOrder(a: seq<Job>, b: seq<Job>, codec: TimeCodec)
    requires multiset(a) == multiset(b)
    ensures MostRecentScheduled(a, codec) == MostRecentScheduled(b, codec)
  {
    MostRecentIsMaximum(a, codec);
    MostRecentIsMaximum(b, codec);
    var ma, mb := MostRecentScheduled(a, codec), MostRecentScheduled(b, codec);
    if ma.Some? {
      var i :| 0 <= i < |a| && ScheduledTimeForJob(a[i], codec) == ma;
      assert a[i] in multiset(b);
      var j :| 0 <= j < |b| && b[j] == a[i];
      assert mb.Some? && ma.value <= mb.value;
    }
    if mb.Some? {
      var j :| 0 <= j < |b| && ScheduledTimeForJob(b[j], codec) == mb;
      assert b[j] in multiset(a);
      var i :| 0 <= i < |a| && a[i] == b[j];
      assert ma.Some? && mb.value <= ma.value;
    }
  }
}
