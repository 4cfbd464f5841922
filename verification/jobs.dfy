/**
 * What the controller reads off a single child Job (`isJobFinished`,
 * `getScheduledTimeForJob`) and how it builds a new one for a scheduled time
 * (`constructJobForCronJob`).
 */
module JobRuns {
  import opened Wrappers
  import opened CronTime
  import opened Api

  /** The annotation that records the scheduled time a Job was created for. */
  const ScheduledTimeAnnotation: string := "batch.tutorial.kubebuilder.io/scheduled-at"

  /** A condition that settles the Job: status True and type Complete or Failed. */
  predicate Decisive(c: JobCondition)
  {
    c.status == ConditionTrue && (c.conditionType == Complete || c.conditionType == Failed)
  }

  /**
   * `isJobFinished`: the type of the first decisive condition, if any. A Job
   * with none is still running.
   */
  function FinishedType(conditions: seq<JobCondition>): (r: Option<ConditionType>)
    ensures r.None? <==> forall i :: 0 <= i < |conditions| ==> !Decisive(conditions[i])
    ensures r.Some? ==> exists i :: 0 <= i < |conditions| && Decisive(conditions[i])
                          && conditions[i].conditionType == r.value
                          && forall j :: 0 <= j < i ==> !Decisive(conditions[j])
  {
    if conditions == [] then None
    else if Decisive(conditions[0]) then Some(conditions[0].conditionType)
    else
      var r := FinishedType(conditions[1..]);
      assert forall i :: 0 < i < |conditions| ==> conditions[i] == conditions[1..][i - 1];
      r
  }

  /**
   * `getScheduledTimeForJob`: the parsed scheduled-at annotation. A missing
   * annotation reads as the empty string, as a Go map lookup does, and that
   * never parses: only a Job carrying a non-empty annotation has a time.
   */
  function ScheduledTimeForJob(job: Job, codec: TimeCodec): (r: Option<int>)
    ensures ScheduledTimeAnnotation !in job.annotations ==> r.None?
    ensures r.Some? ==> ScheduledTimeAnnotation in job.annotations && job.annotations[ScheduledTimeAnnotation] != ""
  {
    var raw := if ScheduledTimeAnnotation in job.annotations then job.annotations[ScheduledTimeAnnotation] else "";
    codec.parse(raw)
  }

  /** The deterministic name of the run for a scheduled time: `<cronjob>-<unix seconds>`. */
  function JobName(cronJobName: string, scheduledTime: int): (r: string)
    ensures |r| > |cronJobName| + 1 && r[..|cronJobName|] == cronJobName && r[|cronJobName|] == '-'
  {
    cronJobName + "-" + DecimalString(scheduledTime)
  }

  /**
   * Two scheduled times give the same run name exactly when they are equal, so
   * re-reconciling one missed time asks the store for the same Job again and
   * two different times never collide.
   */
  lemma JobNameIdentifiesTime(cronJobName: string, t1: int, t2: int)
    ensures JobName(cronJobName, t1) == JobName(cronJobName, t2) <==> t1 == t2
  {
    if JobName(cronJobName, t1) == JobName(cronJobName, t2) {
      var p := cronJobName + "-";
      assert DecimalString(t1) == JobName(cronJobName, t1)[|p|..];
      assert DecimalString(t2) == JobName(cronJobName, t2)[|p|..];
      DecimalStringInjective(t1, t2);
    }
  }

  /**
   * `constructJobForCronJob`: a fresh Job named after the scheduled time, in
   * the CronJob's namespace, with the template's labels, annotations and spec,
   * the scheduled-at annotation written last (overriding the template's), and
   * the CronJob as its controller.
   */
  function ConstructJobForCronJob(meta: ObjectMeta, spec: CronJobSpec, scheduledTime: int, codec: TimeCodec): (job: Job)
    ensures job.name == JobName(meta.name, scheduledTime)
    ensures job.namespace == meta.namespace
    ensures job.labels == spec.jobTemplate.labels
    ensures job.annotations.Keys == spec.jobTemplate.annotations.Keys + {ScheduledTimeAnnotation}
    ensures job.annotations[ScheduledTimeAnnotation] == codec.format(scheduledTime)
    ensures forall k :: k in spec.jobTemplate.annotations && k != ScheduledTimeAnnotation
                        ==> job.annotations[k] == spec.jobTemplate.annotations[k]
    ensures job.spec == spec.jobTemplate.spec
    ensures job.controller == Some(meta.name)
  {
    var template := spec.jobTemplate;
    Job(
      JobName(meta.name, scheduledTime),
      meta.namespace,
      template.labels,
      template.annotations[ScheduledTimeAnnotation := codec.format(scheduledTime)],
      Some(meta.name),
      template.spec,
      JobStatus([], None))
  }

  /**
   * A Job the controller built is seen by the next reconcile as a running
   * child whose scheduled time is the time it was built for.
   */
  lemma ConstructedJobReadsBack(meta: ObjectMeta, spec: CronJobSpec, scheduledTime: int, codec: TimeCodec)
    requires RoundTrips(codec)
    ensures var job := ConstructJobForCronJob(meta, spec, scheduledTime, codec);
      ScheduledTimeForJob(job, codec) == Some(scheduledTime) && FinishedType(job.status.conditions).None?
  {
    var job := ConstructJobForCronJob(meta, spec, scheduledTime, codec);
    assert codec.parse(codec.format(scheduledTime)) == Some(scheduledTime);
  }
}
