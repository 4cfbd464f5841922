/**
 * The history pruner (`enforceHistoryLimit`): with a limit set, it orders the
 * finished runs of one kind by start time and deletes all but the newest
 * `limit` of them.
 */
module History {
  import opened Wrappers
  import opened CronTime
  import opened Api

  /**
   * The comparator handed to `sort.Slice`: a Job without a start time comes
   * before one with a start time; two started Jobs compare by start time.
   */
  predicate StartedBefore(a: Job, b: Job)
  {
    if a.status.startTime.None? then b.status.startTime.Some?
    else b.status.startTime.Some? && a.status.startTime.value < b.status.startTime.value
  }

  predicate SortedByStartTime(s: seq<Job>)
  {
    forall i, j :: 0 <= i < j < |s| ==> !StartedBefore(s[j], s[i])
  }

  /**
   * The comparator is a strict order, as `sort.Slice` needs: irreflexive,
   * asymmetric and transitive.
   */
  lemma StartedBeforeIsStrict(a: Job, b: Job, c: Job)
    ensures !StartedBefore(a, a)
    ensures StartedBefore(a, b) ==> !StartedBefore(b, a)
    ensures StartedBefore(a, b) && StartedBefore(b, c) ==> StartedBefore(a, c)
  {
  }

  /** "Started no later than" is transitive. */
  lemma NoLaterTransitive(a: Job, b: Job, c: Job)
    requires !StartedBefore(b, a) && !StartedBefore(c, b)
    ensures !StartedBefore(c, a)
  {
  }

  function InsertByStartTime(x: Job, s: seq<Job>): (r: seq<Job>)
    requires SortedByStartTime(s)
    ensures SortedByStartTime(r)
    ensures multiset(r) == multiset(s) + multiset{x} && |r| == |s| + 1
  {
    if s == [] || !StartedBefore(s[0], x) then
      InsertAtFront(x, s);
      [x] + s
    else
      var rest := InsertByStartTime(x, s[1..]);
      KeepHeadInFront(x, s, rest);
      assert s == [s[0]] + s[1..];
      [s[0]] + rest
  }

  lemma InsertAtFront(x: Job, s: seq<Job>)
    requires SortedByStartTime(s)
    requires s == [] || !StartedBefore(s[0], x)
    ensures SortedByStartTime([x] + s)
  {
    var r := [x] + s;
    forall i, j | 0 <= i < j < |r|
      ensures !StartedBefore(r[j], r[i])
    {
      if i == 0 && j > 1 {
        NoLaterTransitive(x, s[0], s[j - 1]);
      }
    }
  }

  lemma KeepHeadInFront(x: Job, s: seq<Job>, rest: seq<Job>)
    requires SortedByStartTime(s) && s != [] && StartedBefore(s[0], x)
    requires SortedByStartTime(rest) && multiset(rest) == multiset(s[1..]) + multiset{x}
    ensures SortedByStartTime([s[0]] + rest)
  {
    var r := [s[0]] + rest;
    forall i, j | 0 <= i < j < |r|
      ensures !StartedBefore(r[j], r[i])
    {
      if i == 0 {
        var y := rest[j - 1];
        assert y in multiset(rest);
        if y != x {
          assert y in multiset(s[1..]);
          var k :| 0 <= k < |s[1..]| && s[1..][k] == y;
          assert s[k + 1] == y;
        }
      }
    }
  }

  /**
   * `sort.Slice` with that comparator. The library's sort is not stable, so
   * the model fixes one sorted order: any other differs only among Jobs with
   * equal start times.
   */
  function SortByStartTime(s: seq<Job>): (r: seq<Job>)
    ensures SortedByStartTime(r)
    ensures multiset(r) == multiset(s) && |r| == |s|
  {
    if s == [] then []
    else
      assert s == [s[0]] + s[1..];
      InsertByStartTime(s[0], SortByStartTime(s[1..]))
  }

  /** The index at which `for i := range jobRuns` first meets `int32(i) >= cut`, or the length. */
  function StopIndex(i: nat, n: nat, cut: int32): (k: nat)
    requires i <= n
    ensures i <= k <= n
    decreases n - i
  {
    if i == n || Wrap32(i) >= cut then i else StopIndex(i + 1, n, cut)
  }

  /** The number of runs the loop deletes: it stops at `int32(len) - limit`, computed in 32 bits. */
  function PruneCount(n: nat, limit: int32): (k: nat)
    ensures k <= n
  {
    StopIndex(0, n, Wrap32(Wrap32(n) as int - limit as int))
  }

  /** The runs whose deletion `enforceHistoryLimit` asks for. */
  function PruneVictims(historyLimit: Option<int32>, jobRuns: seq<Job>): (victims: seq<Job>)
    ensures historyLimit.None? ==> victims == []
    ensures multiset(victims) <= multiset(jobRuns)
  {
    if historyLimit.None? then []
    else
      var sorted := SortByStartTime(jobRuns);
      var k := PruneCount(|jobRuns|, historyLimit.value);
      assert sorted == sorted[..k] + sorted[k..];
      sorted[..k]
  }

  /**
   * `enforceHistoryLimit`: sort, then delete from the oldest end until the
   * index reaches `len - limit`. A failed delete is only logged, so every
   * run in that prefix is asked for, whatever the store answers.
   */
  method EnforceHistoryLimit(historyLimit: Option<int32>, jobRuns: seq<Job>) returns (cmds: seq<Command>)
    ensures cmds == DeleteCommands(PruneVictims(historyLimit, jobRuns))
  {
    cmds := [];
    if historyLimit.Some? {
      var sorted := SortByStartTime(jobRuns);
      var n := |sorted|;
      var cut := Wrap32(Wrap32(n) as int - historyLimit.value as int);
      var i := 0;
      while i < n
        invariant i <= n
        invariant StopIndex(0, n, cut) == StopIndex(i, n, cut)
        invariant cmds == DeleteCommands(sorted[..i])
      {
        if Wrap32(i) >= cut {
          break;
        }
        assert sorted[..i + 1] == sorted[..i] + [sorted[i]];
        cmds := cmds + [DeleteJob(sorted[i])];
        i := i + 1;
      }
      assert i == PruneCount(|jobRuns|, historyLimit.value);
      assert PruneVictims(historyLimit, jobRuns) == sorted[..i];
    }
  }

  /** Below 2^31 entries the 32-bit stop index is the plain one: the first `i` reaching `cut`. */
  lemma {:induction false} StopIndexIsCut(i: nat, n: nat, cut: int32)
    requires i <= n <= TwoTo31
    ensures StopIndex(i, n, cut) == if cut as int <= i then i else if cut as int >= n then n else cut as int
    decreases n - i
  {
    if i < n && Wrap32(i) < cut {
      StopIndexIsCut(i + 1, n, cut);
    }
  }

  /** For a limit k >= 0 and n runs, exactly max(0, n - k) runs are deleted. */
  lemma PruneCountIsExcess(n: nat, limit: int32)
    requires n < TwoTo31 && limit >= 0
    ensures PruneCount(n, limit) == if n > limit as int then n - limit as int else 0
  {
    StopIndexIsCut(0, n, Wrap32(Wrap32(n) as int - limit as int));
  }

  /**
   * With a limit k >= 0, the deleted runs are max(0, n - k) of the given runs,
   * and no run that is kept started before a run that is deleted: the k
   * newest by start time survive.
   */
  lemma PruneKeepsNewest(historyLimit: Option<int32>, jobRuns: seq<Job>)
    requires historyLimit.Some? && historyLimit.value >= 0 && |jobRuns| < TwoTo31
    ensures var victims := PruneVictims(historyLimit, jobRuns);
            var kept := multiset(jobRuns) - multiset(victims);
      && |victims| == (if |jobRuns| > historyLimit.value as int then |jobRuns| - historyLimit.value as int else 0)
      && multiset(victims) + kept == multiset(jobRuns)
      && forall v, k :: v in victims && k in kept ==> !StartedBefore(k, v)
  {
    var sorted := SortByStartTime(jobRuns);
    var c := PruneCount(|jobRuns|, historyLimit.value);
    PruneCountIsExcess(|jobRuns|, historyLimit.value);
    var victims, rest := sorted[..c], sorted[c..];
    assert sorted == victims + rest;
    assert multiset(rest) == multiset(jobRuns) - multiset(victims);
    PrefixStartsNoLater(sorted, c);
  }

  lemma PrefixStartsNoLater(sorted: seq<Job>, c: nat)
    requires SortedByStartTime(sorted) && c <= |sorted|
    ensures forall v, k :: v in sorted[..c] && k in multiset(sorted[c..]) ==> !StartedBefore(k, v)
  {
    forall v, k | v in sorted[..c] && k in multiset(sorted[c..])
      ensures !StartedBefore(k, v)
    {
      var i :| 0 <= i < c && sorted[..c][i] == v;
      var j :| 0 <= j < |sorted| - c && sorted[c..][j] == k;
      assert sorted[i] == v && sorted[c + j] == k;
    }
  }
}
