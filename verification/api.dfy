/**
 * The Kubernetes objects the CronJob controller reads and writes, reduced to
 * the fields its decisions look at: batch/v1 Jobs (the child runs) and the
 * CronJob custom resource (the schedule definition).
 */
module Api {
  import opened Wrappers
  import opened CronTime

  /** `kbatch.JobConditionType`; only Complete and Failed matter to the controller. */
  datatype ConditionType = Complete | Failed | OtherCondition(name: string)

  /** `corev1.ConditionStatus`. */
  datatype ConditionStatus = ConditionTrue | ConditionFalse | ConditionUnknown

  datatype JobCondition = JobCondition(conditionType: ConditionType, status: ConditionStatus)

  /** The observed state of a Job: its conditions and, once started, its start time. */
  datatype JobStatus = JobStatus(conditions: seq<JobCondition>, startTime: Option<int>)

  /** The pod template and run parameters of a Job, carried unchanged from the CronJob's template. */
  datatype JobSpec = JobSpec(podTemplate: string)

  /** A child run. `controller` is the name of the CronJob in its controller owner reference. */
  datatype Job = Job(
    name: string,
    namespace: string,
    labels: map<string, string>,
    annotations: map<string, string>,
    controller: Option<string>,
    spec: JobSpec,
    status: JobStatus)

  datatype JobTemplateSpec = JobTemplateSpec(
    labels: map<string, string>,
    annotations: map<string, string>,
    spec: JobSpec)

  datatype ConcurrencyPolicy = AllowConcurrent | ForbidConcurrent | ReplaceConcurrent

  /**
   * The schedule text together with what `cron.ParseStandard` made of it:
   * either a parse failure or the schedule's "next occurrence after t" function.
   */
  datatype CronSchedule = Unparseable(text: string) | Parsed(text: string, next: int -> int)

  /** Every occurrence lies strictly after the instant it is computed from. */
  ghost predicate Increasing(next: int -> int)
  {
    forall t :: next(t) > t
  }

  ghost predicate WellFormed(schedule: CronSchedule)
  {
    schedule.Parsed? ==> Increasing(schedule.next)
  }

  /** The CronJob's spec. Pointer fields of the Go type are `Option`s. */
  datatype CronJobSpec = CronJobSpec(
    schedule: CronSchedule,
    startingDeadlineSeconds: Option<int>,
    concurrencyPolicy: ConcurrencyPolicy,
    suspend: Option<bool>,
    jobTemplate: JobTemplateSpec,
    successfulJobsHistoryLimit: Option<int32>,
    failedJobsHistoryLimit: Option<int32>)

  datatype ObjectMeta = ObjectMeta(name: string, namespace: string, creationTimestamp: int)

  datatype ObjectReference = ObjectReference(namespace: string, name: string)

  /** The CronJob's status: references to its active runs and the latest scheduled time seen. */
  datatype CronJobStatus = CronJobStatus(active: seq<ObjectReference>, lastScheduleTime: Option<int>)

  /** A CronJob as the store returns it. */
  datatype CronJobObject = CronJobObject(meta: ObjectMeta, spec: CronJobSpec, status: CronJobStatus)

  /**
   * The CronJob the reconciler fetched into a local variable. Its status is
   * rewritten in place during a reconcile; metadata and spec are not.
   */
  class CronJob {
    const meta: ObjectMeta
    const spec: CronJobSpec
    var status: CronJobStatus

    constructor (obj: CronJobObject)
      ensures meta == obj.meta && spec == obj.spec && status == obj.status
    {
      meta := obj.meta;
      spec := obj.spec;
      status := obj.status;
    }
  }

  /** The errors a store call can return. */
  datatype StoreError = NotFound | AlreadyExists | Conflict | Unavailable(reason: string)

  /** The writes the controller issues to the store, in the order it issues them. */
  datatype Command =
    | UpdateStatus(status: CronJobStatus)
    | DeleteJob(job: Job)
    | CreateJob(job: Job)

  function DeleteCommands(jobs: seq<Job>): seq<Command>
  {
    seq(|jobs|, i requires 0 <= i < |jobs| => DeleteJob(jobs[i]))
  }

  /** What `ref.GetReference` keeps of a Job for the CronJob's status. */
  function ReferenceTo(job: Job): ObjectReference
  {
    ObjectReference(job.namespace, job.name)
  }

  function References(jobs: seq<Job>): seq<ObjectReference>
  {
    seq(|jobs|, i requires 0 <= i < |jobs| => ReferenceTo(jobs[i]))
  }
}
