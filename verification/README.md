# CronJob controller and keyed stack, modelled in Dafny

This project models two pieces of one repository.

The first is the reconcile loop of a Kubernetes CronJob controller
(`kube-controller/controllers/cronjob_controller.go`). One reconcile does the following:
- it fetches the CronJob and lists the Jobs it owns;
- it sorts those Jobs into active, successful and failed runs;
- it rebuilds the CronJob's status (the active references and the latest scheduled time) and writes it back;
- it deletes the oldest finished runs beyond the two history limits;
- it skips a suspended CronJob;
- it works out the latest missed run time and the next one from the cron schedule;
- it applies the concurrency policy and the starting deadline;
- it creates a Job with a name that depends only on the scheduled time;
- it asks to be requeued at the next run.

The second is the keyed stack of `go/queue/simple.go`. Items are pushed and
popped at the end of a slice. A dictionary from key to item supports removal
by key, and each item records the position it was pushed at.

Modelling choices:
- Times are whole Unix seconds. Go's zero `time.Time` is the instant it stands for, year 1 (`CronTime.ZeroTime`).
- The cron schedule is either unparseable or a function giving the next occurrence strictly after a time.
- RFC 3339 formatting and parsing are a `TimeCodec` given as a parameter. Its parser rejects the empty string, as `time.Parse(time.RFC3339, "")` does, so a Job without the scheduled-at annotation has no scheduled time.
- The API server calls are modelled as their replies, given as inputs, and the writes the controller makes (status update, delete, create) are emitted as a sequence of `Command`s.
- The clock readings that matter in one reconcile are three (for the schedule, the deadline check and the requeue), so the model takes three readings. The reading at line 160 only goes to the log.
- `int32` arithmetic wraps explicitly (`CronTime.Wrap32`).
- A nil pointer dereference or an out-of-range slice index, which panic in Go, become error outcomes.
- The in-memory `CronJob` object whose status the reconcile rewrites is a class, and so are the queue and its items. The stateless helpers are functions.

Where the documented behaviour and the code differ, the model follows the code:
- a `Create` that fails with AlreadyExists is returned as an error;
- a reconcile that dispatches nothing asks for no requeue;
- the requeue delay is `next - now`, with no clamping at zero.

## Model

| member | source | states |
|---|---|---|
| CronTime.Wrap32 | kube-controller/controllers/cronjob_controller.go:260-264 | the int32 result agrees with the mathematical value modulo 2^32, and is that value when it fits |
| CronTime.DecimalStringInjective | kube-controller/controllers/cronjob_controller.go:280-281 | distinct integers print as distinct decimal strings |
| Schedule.EarliestTime | kube-controller/controllers/cronjob_controller.go:318-331 | the walk starts at the last schedule time (else the creation time), moved up to `now - startingDeadlineSeconds` when that is later, and is at least each of them |
| Schedule.NextSchedule | kube-controller/controllers/cronjob_controller.go:309-360 | with no error the next run is the schedule's successor of `now`, after `now`; an error returns both times zero; an unparseable schedule fails with UnparseableSchedule and with nothing else |
| Schedule.GetNextSchedule | kube-controller/controllers/cronjob_controller.go:309-360 | the method computing the missed run, the next run and the error returns exactly `NextSchedule` of the CronJob's schedule, status and deadline |
| Schedule.WalkMissedStarts | kube-controller/controllers/cronjob_controller.go:336-359 | the loop over occurrences returns the last occurrence in (earliest, now], or zero time when there is none, and reports too many starts exactly when there are more than 100 |
| Schedule.OccurrencesInWindow | kube-controller/controllers/cronjob_controller.go:337-338 | the occurrences walked lie in (from, now], each is the successor of the one before, the first is the successor of `from` and the one after the last is past `now` |
| Schedule.IterateAdvances | kube-controller/controllers/cronjob_controller.go:337 | the k-th occurrence is at least k seconds later, so the walk ends |
| Schedule.OccurrenceCount | kube-controller/controllers/cronjob_controller.go:336-357 | the window holds at least k occurrences exactly when the k-th iterate is no later than `now` |
| Schedule.MissedIsLatestInWindow | kube-controller/controllers/cronjob_controller.go:318-359 | the missed run is the latest occurrence in (earliest, now] and its successor is past `now`; with an empty window the missed run is the zero time |
| Schedule.MissedWithinDeadline | kube-controller/controllers/cronjob_controller.go:324-331 | with a starting deadline, a missed run other than the zero time is less than `deadline` seconds old |
| Schedule.CapAtHundredAndOne | kube-controller/controllers/cronjob_controller.go:353-357 | TooManyMissedStarts is returned exactly when the 101st occurrence after the earliest time is no later than `now` |
| Schedule.EveryMinute | kube-controller/controllers/cronjob_controller.go:310-313 | an every-minute schedule: the next whole minute strictly after `t`, at most 60 seconds on |
| Schedule.EveryMinuteExample | kube-controller/controllers/cronjob_controller.go:309-360 | every minute, last run 90 s ago, now 30 s past a minute: the missed run is 30 s ago and the next one 30 s ahead |
| JobRuns.FinishedType | kube-controller/controllers/cronjob_controller.go:363-373 | a Job is finished exactly when some condition is Complete or Failed with status True, and the type returned is that of the first such condition |
| JobRuns.ScheduledTimeForJob | kube-controller/controllers/cronjob_controller.go:376-384 | a missing annotation reads as the empty string, which never parses, so a Job has a scheduled time only when it carries a non-empty scheduled-at annotation |
| JobRuns.JobName | kube-controller/controllers/cronjob_controller.go:281 | the name starts with the CronJob's name followed by `-`, with the time's digits after it |
| JobRuns.JobNameIdentifiesTime | kube-controller/controllers/cronjob_controller.go:280-281 | two Jobs of one CronJob get the same name exactly when their scheduled times are equal |
| JobRuns.ConstructJobForCronJob | kube-controller/controllers/cronjob_controller.go:279-304 | the Job built is named `<cronjob>-<unix seconds>`, lives in the CronJob's namespace, carries the template's labels and annotations plus the scheduled-at annotation holding the formatted time, copies the template's spec and is controlled by the CronJob |
| JobRuns.ConstructedJobReadsBack | kube-controller/controllers/cronjob_controller.go:279-304 | with a codec that round-trips, reading the scheduled time of a constructed Job (lines 376-384) gives back the time it was built for, and the new Job is not finished |
| ChildRuns.BucketOf | kube-controller/controllers/cronjob_controller.go:211-220 | a Job is active exactly when it is not finished, failed when it finished Failed and successful when it finished Complete |
| ChildRuns.MostRecentIsMaximum | kube-controller/controllers/cronjob_controller.go:223-243 | the last schedule time is absent exactly when no Job has a readable scheduled time, and otherwise is the greatest of them |
| ChildRuns.ListCronJobChildRuns | kube-controller/controllers/cronjob_controller.go:197-246 | a failed listing returns its error and leaves the CronJob alone; otherwise the three buckets keep the listing's order and the status's last schedule time becomes the latest scheduled time |
| ChildRuns.SelectCounts | kube-controller/controllers/cronjob_controller.go:211-220 | the three buckets together hold as many Jobs as the listing |
| ChildRuns.PartitionIsExact | kube-controller/controllers/cronjob_controller.go:211-220 | every listed Job lands in exactly one bucket and the buckets hold nothing else |
| ChildRuns.MostRecentIgnoresOrder | kube-controller/controllers/cronjob_controller.go:223-243 | the latest scheduled time does not depend on the order of the listing |
| History.StartedBeforeIsStrict | kube-controller/controllers/cronjob_controller.go:252-259 | the comparator handed to `sort.Slice` is irreflexive, asymmetric and transitive |
| History.NoLaterTransitive | kube-controller/controllers/cronjob_controller.go:252-259 | "started no later than" is transitive, which sortedness relies on |
| History.InsertByStartTime | kube-controller/controllers/cronjob_controller.go:252-259 | inserting a Job into a start-time-sorted list keeps it sorted and adds exactly that Job |
| History.SortByStartTime | kube-controller/controllers/cronjob_controller.go:252-259 | the sorted runs are a permutation of the input, ordered by start time with a missing start time first |
| History.PruneVictims | kube-controller/controllers/cronjob_controller.go:249-274 | a nil limit deletes nothing; the victims are drawn from the runs, each no more often than it occurs |
| History.EnforceHistoryLimit | kube-controller/controllers/cronjob_controller.go:249-274 | the loop emits one delete per victim, oldest first, and nothing else |
| History.StopIndexIsCut | kube-controller/controllers/cronjob_controller.go:260-264 | the loop's test holds at every position from the stop index on and at none before it |
| History.PruneCountIsExcess | kube-controller/controllers/cronjob_controller.go:260-264 | with a non-negative limit and fewer than 2^31 runs, exactly `max(0, n - limit)` runs are deleted |
| History.PruneKeepsNewest | kube-controller/controllers/cronjob_controller.go:249-274 | the victims and the kept runs together are the input; no kept run started before a victim |
| Dispatch.FirstFailedDelete | kube-controller/controllers/cronjob_controller.go:185-193 | the position of the first active Job whose delete fails with something other than NotFound, or the count when every delete succeeds |
| Dispatch.NewJobRun | kube-controller/controllers/cronjob_controller.go:158-195 | no run is due for a zero missed time, a missed deadline or Forbid with active runs; under Replace the active Jobs are deleted in order, stopping with the first failure's error; otherwise the Job built for the missed time is returned |
| Dispatch.ClampRulesOutTooLate | kube-controller/controllers/cronjob_controller.go:169-177 | a missed run found by the schedule calculator never fails the starting-deadline check |
| Reconciler.RebuildActive | kube-controller/controllers/cronjob_controller.go:102-111 | the status's active list is replaced by references to exactly the active Jobs, in order, and the rest of the status is kept |
| Reconciler.PruneHistory | kube-controller/controllers/cronjob_controller.go:118-122 | a nil failed limit panics before any delete; a nil successful limit panics after exactly the failed runs' victims are deleted; otherwise both victim lists are deleted, failed first; no history write is a create |
| Reconciler.DispatchWritesCreateIffDue | kube-controller/controllers/cronjob_controller.go:139-152 | the dispatch writes hold at most one create, as the last write, for the Job built for the missed run; it is written exactly when the run is due and, under Replace, every active Job was deleted; a failed delete is then the error, and the only one |
| Reconciler.DispatchOutcomeCreatesOnlyWhenDue | kube-controller/controllers/cronjob_controller.go:124-155 | after pruning, a Job is created exactly when the CronJob is not suspended, the schedule answers and the run is due with no failed delete; only then is a requeue asked for, with no error |
| Reconciler.ScheduleAndDispatch | kube-controller/controllers/cronjob_controller.go:124-155 | the method skipping a suspended CronJob, calling the schedule calculator and dispatching the run returns exactly `DispatchOutcome`: nothing for a suspended CronJob or a schedule in error, the dispatch writes with a failed delete's error, the create's error, or a requeue after `next - now` |
| Reconciler.AfterStatusWrite | kube-controller/controllers/cronjob_controller.go:118-155 | the method after the status write returns exactly `AfterStatusOutcome`: a panic outcome at a nil limit, with the writes made so far; otherwise the history deletes, failed first, then the dispatch outcome with its error passed on |
| Reconciler.Reconcile | kube-controller/controllers/cronjob_controller.go:80-156 | the whole reconcile returns exactly `ReconcileOutcome` of the store replies and clock readings, whose properties are the lemmas below |
| Reconciler.EarlyExits | kube-controller/controllers/cronjob_controller.go:83-122 | a missing CronJob ends quietly with no writes; other fetch and list errors are returned with no writes; a failed status update is returned after that one write; a nil failed limit panics right after the status write, a nil successful limit right after the failed runs' deletes |
| Reconciler.StatusWrittenFirst | kube-controller/controllers/cronjob_controller.go:98-122 | once the Jobs are listed the first write is the status rebuilt from the listing; with both limits set the failed and then the successful history deletes follow it directly |
| Reconciler.SkipsWithoutDispatch | kube-controller/controllers/cronjob_controller.go:124-138 | a suspended CronJob, or one whose schedule is in error, gets exactly the status write and the history deletes, with no error and no requeue |
| Reconciler.StatusAndHistoryCreateNothing | kube-controller/controllers/cronjob_controller.go:98-122 | neither the status write nor a history delete is a create |
| Reconciler.ConsultedOutcome | kube-controller/controllers/cronjob_controller.go:98-155 | once the schedule is consulted, the outcome is the status write and the history deletes followed by the dispatch outcome, its error passed on as a store failure |
| Reconciler.DispatchFollowsHistory | kube-controller/controllers/cronjob_controller.go:118-155 | when the schedule answers, the writes are exactly the status, the history deletes and the dispatch writes; a create is the last write and creates the Job for the missed run; without a create there is no requeue and the error is a failed delete's |
| Reconciler.CreateOnlyWhenDue | kube-controller/controllers/cronjob_controller.go:124-152 | a reconcile creates a Job exactly when the schedule is consulted and answers, the missed run is not the zero time, not past its starting deadline, not forbidden by a running Job, and under Replace every active Job was deleted |
| Reconciler.NothingCreatedWithoutSchedule | kube-controller/controllers/cronjob_controller.go:83-138 | a reconcile that stops before the schedule answers creates nothing |
| Reconciler.RequeueOnlyAfterCreate | kube-controller/controllers/cronjob_controller.go:140-155 | only a create leads to a requeue; after a create the error is the create's, and the requeue is `next - now` when it succeeds and none when it fails |
| Reconciler.VictimsStayInBucket | kube-controller/controllers/cronjob_controller.go:249-274 | pruning a bucket only picks Jobs of that bucket |
| Reconciler.PruningSparesActive | kube-controller/controllers/cronjob_controller.go:118-122 | no history delete ever targets an active Job |
| SimpleQueue.Item.constructor | go/queue/simple.go:50 | a new item holds its key and content, with index zero until it is pushed |
| SimpleQueue.Without | go/queue/simple.go:104-110 | the slice with one entry cut out, the entries below in place and those above shifted down by one |
| SimpleQueue.Queue.constructor | go/queue/simple.go:35-39 | a new queue is empty |
| SimpleQueue.Queue.Init | go/queue/simple.go:41-45 | the queue is emptied, which makes the dictionary and the slice agree |
| SimpleQueue.Queue.AddItem | go/queue/simple.go:89-97 | a key already present is refused and nothing changes; otherwise the entry is pushed, records its position and is keyed |
| SimpleQueue.Queue.PopItem | go/queue/simple.go:71-80 | an empty queue gives nothing; otherwise the top entry is returned, cut off and unkeyed |
| SimpleQueue.Queue.PeepItem | go/queue/simple.go:82-87 | the top entry, or nothing on an empty queue, with nothing changed |
| SimpleQueue.Queue.RemoveKey | go/queue/simple.go:99-114 | an absent key is refused; a recorded position past the end panics with nothing changed; otherwise the entry at the recorded position is cut out and the key dropped |
| SimpleQueue.CopyWithout | go/queue/simple.go:104-110 | the two copy loops build exactly the slice without the entry at the cut |
| SimpleQueue.Queue.Add | go/queue/simple.go:47-51 | a new key pushes a fresh item with that key and content on top; the dictionary and slice keep agreeing and positions stay exact |
| SimpleQueue.Queue.Remove | go/queue/simple.go:53-57 | the panic happens exactly when the recorded position is past the end; on a queue whose positions are exact there is no panic, the key is gone, agreement is kept and the entries above hold stale positions one too high |
| SimpleQueue.Queue.Pop | go/queue/simple.go:59-63 | as `pop`, and the dictionary and slice keep agreeing with positions exact |
| SimpleQueue.Queue.Peep | go/queue/simple.go:65-69 | as `peep` |
| SimpleQueue.Queue.PushThenPop | go/queue/simple.go:47-63 | last in, first out: a push of a new key then a pop gives back the pushed entry and the queue as it was |
| SimpleQueue.AppendKeepsAgreement | go/queue/simple.go:89-97 | pushing under a new key keeps the dictionary and the slice in agreement |
| SimpleQueue.CutKeepsAgreement | go/queue/simple.go:99-114 | cutting out an entry and unkeying it keeps the dictionary and the slice in agreement |
| SimpleQueue.RemovedKeyIsGone | go/queue/simple.go:99-114 | in a slice with distinct keys, cutting out the entry with key `k` leaves no entry with that key, and the keys stay distinct |
| SimpleQueue.Queue.RemoveKeyRenumbering | go/queue/simple.go:99-114 | the corrected `remove`: the entry removed is always the one under the key, positions stay exact and agreement is kept |
| SimpleQueue.Queue.Renumber | go/queue/simple.go:99-114 | the renumbering the corrected `remove` adds: every entry's recorded index becomes its position |
| SimpleQueue.PushThree | go/queue/queue_test.go:12-14 | three pushes of new keys leave the three fresh items on top, keyed and numbered in order |
| SimpleQueue.QueueTestFirstHalf | go/queue/queue_test.go:9-24 | three adds give length 3; peep shows ("fizz", 2, "bazz"); pop returns "bazz" and leaves foo, john |
| SimpleQueue.QueueTestScenario | go/queue/queue_test.go:9-36 | the whole test: lengths 3 and 2, peep ("fizz", 2, "bazz"), pop "bazz", removing "will" returns "wang", keys foo, john, key, biz |
| SimpleQueue.StaleIndexScenario | go/queue/simple.go:99-114 | push a, b, c, remove a, remove b: the item keyed b is returned but c is cut out, leaving keys [b] and dictionary {c}; removing c then panics, because its recorded index 2 is past the end of the one-entry slice |

## Left out

- The mutex of the queue and the concurrency of the controller runtime: each call runs alone.
- `Item.KeyValue` (`go/queue/simple.go:31-33`): a plain accessor of two constant fields.
- Logging throughout both files, and the request context.
- Cron expression parsing: the schedule comes as unparseable or as its next-occurrence function. A cron library that returns the zero time because no occurrence exists is not modelled: `next` is always later.
- RFC 3339 text: formatting and parsing are a parameter, and the round trip is a requirement where it is used.
- The failure of `ref.GetReference` for an active Job (lines 104-108): every active Job gets a reference.
- The failure of `ctrl.SetControllerReference` (lines 299-301): it is taken to succeed, and the controller is recorded as the CronJob's name.
- `time.Duration` overflow and sub-second precision: times and the requeue delay are whole seconds.
- The errors of the history deletes, which are only logged (lines 265-270): they do not affect the outcome, so they are not inputs.
- The in-place reordering of the bucket by `sort.Slice`: no caller reads the bucket afterwards, so the model sorts a copy. Any sorted permutation meets its contract, and the sort is not stable.
- The Go loop variable `job` whose address is stored in the buckets (lines 211-236): whether each entry gets its own copy depends on the Go version, which the repository does not fix. The model gives each entry its own Job.
- SimpleQueue.Queue.Remove: Go's index-out-of-range panic unwinds the goroutine; here it is the `panicked` result with the state unchanged.
- SimpleQueue.Queue.RemoveKeyRenumbering: no scenario runs the corrected removal on the stale-index input; its contract covers every input.

## Findings

| source | as written | input that shows it | evidently intended | confidence | as-written member | corrected member |
|---|---|---|---|---|---|---|
| go/queue/simple.go:99-114 | `remove` cuts out the slice entry at the removed item's recorded index, and does not renumber the items above it | add a, b, c; remove a; remove b: the item keyed b is returned but c is cut out of the slice, leaving items [b] and keys {c}; removing c then panics: its recorded index 2 is past the end of the one-entry slice, so copying the entries around the cut runs out of range | renumber the items above the cut so that each recorded index stays the item's position and the item removed is the one under the key | not executed | SimpleQueue.StaleIndexScenario | SimpleQueue.Queue.RemoveKeyRenumbering |
