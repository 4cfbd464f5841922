/**
 * The schedule calculator of the CronJob controller (`getNextSchedule`):
 * from the last scheduled time (or the creation time), the starting deadline
 * and the current time, it finds the latest missed occurrence and the next one.
 */
module Schedule {
  import opened Wrappers
  import opened CronTime
  import opened Api

  /** Upper bound on the occurrences the calculator is willing to walk. */
  const MaxMissedStarts: nat := 100

  datatype ScheduleError = UnparseableSchedule(text: string) | TooManyMissedStarts

  /** The three results of `getNextSchedule`: latest missed run, next run, error. */
  datatype NextRuns = NextRuns(lastMissed: int, next: int, err: Option<ScheduleError>)

  /**
   * The occurrences of a schedule strictly after `from` and no later than `now`,
   * in the order the schedule produces them.
   */
  function OccurrencesAfter(next: int -> int, from: int, now: int): seq<int>
    requires Increasing(next)
    decreases now - from
  {
    var t := next(from);
    if t > now then [] else [t] + OccurrencesAfter(next, t, now)
  }

  /** The schedule applied `k` times from `t`: the `k`-th occurrence after `t`. */
  function Iterate(next: int -> int, t: int, k: nat): int
    decreases k
  {
    if k == 0 then t else Iterate(next, next(t), k - 1)
  }

  /**
   * Where the walk starts: the last scheduled time if there is one, else the
   * creation time, moved forward to `now - startingDeadlineSeconds` when a
   * deadline is set and that instant is later.
   */
  function EarliestTime(lastScheduleTime: Option<int>, creationTimestamp: int,
                        startingDeadlineSeconds: Option<int>, now: int): (e: int)
    ensures lastScheduleTime.Some? ==> e >= lastScheduleTime.value
    ensures lastScheduleTime.None? ==> e >= creationTimestamp
    ensures startingDeadlineSeconds.Some? ==> e >= now - startingDeadlineSeconds.value
    ensures e == (if lastScheduleTime.Some? then lastScheduleTime.value else creationTimestamp)
            || (startingDeadlineSeconds.Some? && e == now - startingDeadlineSeconds.value)
  {
    var base := if lastScheduleTime.Some? then lastScheduleTime.value else creationTimestamp;
    if startingDeadlineSeconds.Some? && now - startingDeadlineSeconds.value > base
    then now - startingDeadlineSeconds.value
    else base
  }

  /** What `getNextSchedule` returns, stated over the occurrences in the window. */
  function NextSchedule(schedule: CronSchedule, lastScheduleTime: Option<int>, creationTimestamp: int,
                        startingDeadlineSeconds: Option<int>, now: int): (r: NextRuns)
    requires WellFormed(schedule)
    ensures r.err.None? ==> schedule.Parsed? && r.next == schedule.next(now) && r.next > now
    ensures r.err.Some? ==> r.lastMissed == ZeroTime && r.next == ZeroTime
    ensures schedule.Unparseable? <==> r.err == Some(UnparseableSchedule(schedule.text))
  {
    match schedule
    case Unparseable(text) => NextRuns(ZeroTime, ZeroTime, Some(UnparseableSchedule(text)))
    case Parsed(_, next) =>
      var earliest := EarliestTime(lastScheduleTime, creationTimestamp, startingDeadlineSeconds, now);
      if earliest > now then NextRuns(ZeroTime, next(now), None)
      else
        var missed := OccurrencesAfter(next, earliest, now);
        if |missed| > MaxMissedStarts then NextRuns(ZeroTime, ZeroTime, Some(TooManyMissedStarts))
        else NextRuns(if missed == [] then ZeroTime else missed[|missed| - 1], next(now), None)
  }

  /**
   * `getNextSchedule`: parse failure first; then the earliest time; then the
   * walk over occurrences up to `now`.
   */
  method GetNextSchedule(cronJob: CronJob, now: int) returns (lastMissed: int, next: int, err: Option<ScheduleError>)
    requires WellFormed(cronJob.spec.schedule)
    ensures NextRuns(lastMissed, next, err)
         == NextSchedule(cronJob.spec.schedule, cronJob.status.lastScheduleTime,
                         cronJob.meta.creationTimestamp, cronJob.spec.startingDeadlineSeconds, now)
  {
    var schedule := cronJob.spec.schedule;
    if schedule.Unparseable? {
      return ZeroTime, ZeroTime, Some(UnparseableSchedule(schedule.text));
    }
    var sched := schedule.next;
    var lastScheduleTime, deadline := cronJob.status.lastScheduleTime, cronJob.spec.startingDeadlineSeconds;
    var earliestTime := if lastScheduleTime.Some? then lastScheduleTime.value else cronJob.meta.creationTimestamp;
    if deadline.Some? {
      var schedulingDeadline := now - deadline.value;
      if schedulingDeadline > earliestTime {
        earliestTime := schedulingDeadline;
      }
    }
    if earliestTime > now {
      return ZeroTime, sched(now), None;
    }
    var tooMany;
    lastMissed, tooMany := WalkMissedStarts(sched, earliestTime, now);
    if tooMany {
      return ZeroTime, ZeroTime, Some(TooManyMissedStarts);
    }
    return lastMissed, sched(now), None;
  }

  /**
   * The loop of `getNextSchedule`: visit the occurrences after `earliestTime`
   * up to `now`, remembering the last, and give up on the 101st.
   */
  method WalkMissedStarts(sched: int -> int, earliestTime: int, now: int) returns (lastMissed: int, tooMany: bool)
    requires Increasing(sched)
    ensures var missed := OccurrencesAfter(sched, earliestTime, now);
      && tooMany == (|missed| > MaxMissedStarts)
      && lastMissed == if tooMany || missed == [] then ZeroTime else missed[|missed| - 1]
  {
    ghost var missed := OccurrencesAfter(sched, earliestTime, now);
    ghost var prev := earliestTime;
    lastMissed := ZeroTime;
    var starts := 0;
    var t := sched(earliestTime);
    while t <= now
      invariant t == sched(prev)
      invariant 0 <= starts <= MaxMissedStarts && starts <= |missed|
      invariant missed[starts..] == OccurrencesAfter(sched, prev, now)
      invariant lastMissed == if starts == 0 then ZeroTime else missed[starts - 1]
      decreases now - t
    {
      ghost var rest := OccurrencesAfter(sched, t, now);
      assert missed[starts..] == [t] + rest;
      assert missed[starts] == t;
      assert missed[starts + 1..] == missed[starts..][1..] == rest;
      lastMissed := t;
      starts := starts + 1;
      if starts > MaxMissedStarts {
        return ZeroTime, true;
      }
      prev := t;
      t := sched(t);
    }
    assert missed[starts..] == [];
    return lastMissed, false;
  }

  /**
   * The occurrences in the window lie in (from, now], each is the schedule's
   * successor of the one before, and the one after the last is past `now`.
   */
  lemma {:induction false} OccurrencesInWindow(next: int -> int, from: int, now: int)
    requires Increasing(next)
    ensures var occ := OccurrencesAfter(next, from, now);
      && (forall i :: 0 <= i < |occ| ==> from < occ[i] <= now)
      && (occ == [] <==> next(from) > now)
      && (occ != [] ==> occ[0] == next(from) && next(occ[|occ| - 1]) > now)
      && (forall i :: 0 < i < |occ| ==> occ[i] == next(occ[i - 1]))
    decreases now - from
  {
    var t := next(from);
    if t <= now {
      OccurrencesInWindow(next, t, now);
    }
  }

  /** The `k`-th iterate is at least `k` seconds later. */
  lemma {:induction false} IterateAdvances(next: int -> int, t: int, k: nat)
    requires Increasing(next)
    ensures Iterate(next, t, k) >= t + k
    decreases k
  {
    if k > 0 {
      IterateAdvances(next, next(t), k - 1);
    }
  }

  /** The window holds at least `k` occurrences exactly when the `k`-th one is no later than `now`. */
  lemma {:induction false} OccurrenceCount(next: int -> int, from: int, now: int, k: nat)
    requires Increasing(next) && k >= 1
    ensures |OccurrencesAfter(next, from, now)| >= k <==> Iterate(next, from, k) <= now
    decreases k
  {
    var t := next(from);
    if k > 1 {
      IterateAdvances(next, t, k - 1);
      if t <= now {
        OccurrenceCount(next, t, now, k - 1);
      }
    }
  }

  /**
   * The missed run is the latest occurrence in (earliest, now], and the zero
   * time when there is none; the window is empty when earliest is after now.
   */
  lemma MissedIsLatestInWindow(schedule: CronSchedule, lastScheduleTime: Option<int>, creationTimestamp: int,
                               startingDeadlineSeconds: Option<int>, now: int)
    requires WellFormed(schedule) && schedule.Parsed?
    ensures var r := NextSchedule(schedule, lastScheduleTime, creationTimestamp, startingDeadlineSeconds, now);
            var earliest := EarliestTime(lastScheduleTime, creationTimestamp, startingDeadlineSeconds, now);
      && (earliest > now ==> r == NextRuns(ZeroTime, schedule.next(now), None))
      && (r.err.None? && earliest <= now && schedule.next(earliest) <= now ==>
            earliest < r.lastMissed <= now && schedule.next(r.lastMissed) > now
            && r.lastMissed in OccurrencesAfter(schedule.next, earliest, now))
      && (earliest <= now && schedule.next(earliest) > now ==> r == NextRuns(ZeroTime, schedule.next(now), None))
  {
    var earliest := EarliestTime(lastScheduleTime, creationTimestamp, startingDeadlineSeconds, now);
    OccurrencesInWindow(schedule.next, earliest, now);
  }

  /** With a starting deadline, a missed run that is not the zero time is less than `deadline` seconds old. */
  lemma MissedWithinDeadline(schedule: CronSchedule, lastScheduleTime: Option<int>, creationTimestamp: int,
                             startingDeadlineSeconds: Option<int>, now: int)
    requires WellFormed(schedule)
    requires startingDeadlineSeconds.Some?
    ensures var r := NextSchedule(schedule, lastScheduleTime, creationTimestamp, startingDeadlineSeconds, now);
      r.err.None? && r.lastMissed != ZeroTime ==> r.lastMissed > now - startingDeadlineSeconds.value
  {
    if schedule.Parsed? {
      var earliest := EarliestTime(lastScheduleTime, creationTimestamp, startingDeadlineSeconds, now);
      OccurrencesInWindow(schedule.next, earliest, now);
    }
  }

  /**
   * The cap: the calculator fails with TooManyMissedStarts (both times zero)
   * exactly when the 101st occurrence after the earliest time is no later
   * than `now`; with at most 100 occurrences in the window it succeeds.
   */
  lemma CapAtHundredAndOne(schedule: CronSchedule, lastScheduleTime: Option<int>, creationTimestamp: int,
                           startingDeadlineSeconds: Option<int>, now: int)
    requires WellFormed(schedule) && schedule.Parsed?
    ensures var r := NextSchedule(schedule, lastScheduleTime, creationTimestamp, startingDeadlineSeconds, now);
            var earliest := EarliestTime(lastScheduleTime, creationTimestamp, startingDeadlineSeconds, now);
      && (r.err == Some(TooManyMissedStarts) <==> Iterate(schedule.next, earliest, MaxMissedStarts + 1) <= now)
      && (r.err.None? <==> Iterate(schedule.next, earliest, MaxMissedStarts + 1) > now)
  {
    var earliest := EarliestTime(lastScheduleTime, creationTimestamp, startingDeadlineSeconds, now);
    OccurrenceCount(schedule.next, earliest, now, MaxMissedStarts + 1);
    IterateAdvances(schedule.next, earliest, MaxMissedStarts + 1);
  }

  /** An "every minute" schedule (`* * * * *`): the next whole minute strictly after `t`. */
  function EveryMinute(t: int): (r: int)
    ensures r > t && r % 60 == 0 && r - t <= 60
  {
    (t / 60 + 1) * 60
  }

  /**
   * Every minute, last run 90 seconds ago, now half a minute past a minute
   * boundary: the missed run is 30 seconds ago and the next run 30 seconds ahead.
   */
  lemma EveryMinuteExample(now: int, creationTimestamp: int)
    requires now % 60 == 30
    ensures NextSchedule(Parsed("* * * * *", EveryMinute), Some(now - 90), creationTimestamp, None, now)
         == NextRuns(now - 30, now + 30, None)
  {
    var q := now / 60;
    assert now == 60 * q + 30;
    assert EveryMinute(now - 90) == 60 * q == now - 30;
    assert EveryMinute(now - 30) == 60 * (q + 1) == now + 30;
    assert OccurrencesAfter(EveryMinute, now - 30, now) == [];
    assert OccurrencesAfter(EveryMinute, now - 90, now) == [now - 30];
  }
}
