/**
 * The progress record of a background synchronisation job: counters that
 * the job raises one step at a time, the share of tasks done as a
 * percentage, and whether every task has been completed. The start and
 * end timestamps and the elapsed time read the clock and are not modelled.
 */
module SyncJobStatus {
  import opened JavaLang

  class SyncJobStatus {
    const jobId: Option<string>
    var totalTasks: int
    var completedTasks: int
    var successCount: int
    var failCount: int
    var syncCount: int
    var completed: bool
    var error: bool
    var errorMessage: Option<string>

    /** Every counter is a Java `int`. */
    ghost predicate Valid()
      reads this
    {
      IsInt32(totalTasks) && IsInt32(completedTasks) && IsInt32(successCount)
      && IsInt32(failCount) && IsInt32(syncCount)
    }

    /** A new job has no tasks, no counts and neither flag set. */
    constructor(jobId: Option<string>)
      ensures Valid() && this.jobId == jobId
      ensures totalTasks == 0 && completedTasks == 0 && successCount == 0
      ensures failCount == 0 && syncCount == 0
      ensures !completed && !error && errorMessage.None?
    {
      this.jobId := jobId;
      totalTasks := 0;
      completedTasks := 0;
      successCount := 0;
      failCount := 0;
      syncCount := 0;
      completed := false;
      error := false;
      errorMessage := None;
    }

    method IncrementCompletedTasks()
      requires Valid()
      modifies this`completedTasks
      ensures Valid() && completedTasks == Inc(old(completedTasks))
    {
      completedTasks := Inc(completedTasks);
    }

    method IncrementSuccessCount()
      requires Valid()
      modifies this`successCount
      ensures Valid() && successCount == Inc(old(successCount))
    {
      successCount := Inc(successCount);
    }

    method IncrementFailCount()
      requires Valid()
      modifies this`failCount
      ensures Valid() && failCount == Inc(old(failCount))
    {
      failCount := Inc(failCount);
    }

    /** `syncCount += count` on a Java `int`. */
    method AddSyncCount(count: int)
      requires Valid() && IsInt32(count)
      modifies this`syncCount
      ensures Valid() && syncCount == Wrap(old(syncCount) + count)
      ensures IsInt32(old(syncCount) + count) ==> syncCount == old(syncCount) + count
    {
      syncCount := Wrap(syncCount + count);
    }

    /** The setter Lombok generates for the total number of tasks. */
    method SetTotalTasks(totalTasks: int)
      requires Valid() && IsInt32(totalTasks)
      modifies this`totalTasks
      ensures Valid() && this.totalTasks == totalTasks
    {
      this.totalTasks := totalTasks;
    }

    method SetCompleted(completed: bool)
      modifies this`completed
      ensures this.completed == completed
    {
      this.completed := completed;
    }

    method SetError(error: bool)
      modifies this`error
      ensures this.error == error
    {
      this.error := error;
    }

    method SetErrorMessage(errorMessage: Option<string>)
      modifies this`errorMessage
      ensures this.errorMessage == errorMessage
    {
      this.errorMessage := errorMessage;
    }

    /**
     * The share of completed tasks in percent. The source divides the
     * double `completedTasks * 100.0` by `totalTasks` and casts to `int`.
     * The product is exact, and the rounded quotient never crosses an
     * integer (its distance to one is at least 1/|totalTasks|, far more
     * than the rounding error), so the cast yields the exact quotient
     * truncated toward zero, saturated at the `int` bounds.
     */
    function ProgressPercentage(): (p: int)
      reads this
      ensures IsInt32(p)
      ensures totalTasks == 0 ==> p == 100
      ensures totalTasks > 0 && 0 <= completedTasks <= totalTasks ==> 0 <= p <= 100
      ensures totalTasks > 0 && 0 <= completedTasks <= totalTasks ==>
        p * totalTasks <= completedTasks * 100 < (p + 1) * totalTasks
    {
      if totalTasks == 0 then 100
      else
        var q := TruncDiv(completedTasks * 100, totalTasks);
        if totalTasks > 0 && 0 <= completedTasks <= totalTasks then
          PercentBounds(completedTasks, totalTasks);
          SaturatingCast(q)
        else SaturatingCast(q)
    }

    /** isAllTasksCompleted: for a job with tasks, the same as the progress reaching 100. */
    function IsAllTasksCompleted(): (b: bool)
      reads this
      ensures totalTasks > 0 ==> (b <==> ProgressPercentage() >= 100)
      ensures totalTasks <= 0 && completedTasks >= 0 ==> b
    {
      if totalTasks > 0 then
        PercentReachesHundred(completedTasks, totalTasks);
        completedTasks >= totalTasks
      else completedTasks >= totalTasks
    }
  }

  /** Floor division of completed * 100 by total stays within 0..100. */
  lemma PercentBounds(completed: int, total: int)
    requires 0 <= completed <= total && total > 0
    ensures 0 <= (completed * 100) / total <= 100
    ensures ((completed * 100) / total) * total <= completed * 100 < ((completed * 100) / total + 1) * total
  {
    assert completed * 100 <= total * 100;
  }

  /** Multiplying by a positive factor keeps the order. */
  lemma MulMonotone(x: int, y: int, t: int)
    requires t > 0 && x <= y
    ensures x * t <= y * t
  {
    assert y * t - x * t == (y - x) * t;
  }

  /** The truncated percentage of `completed` out of a positive `total` reaches 100 exactly when completed >= total. */
  lemma PercentReachesHundred(completed: int, total: int)
    requires total > 0
    ensures SaturatingCast(TruncDiv(completed * 100, total)) >= 100 <==> completed >= total
  {
    var a := completed * 100;
    var q := TruncDiv(a, total);
    if completed >= total {
      MulMonotone(total, completed, 100);
      if q <= 99 {
        MulMonotone(q, 99, total);
        assert false;
      }
    } else if completed >= 0 {
      MulMonotone(completed, total - 1, 100);
      if q >= 100 {
        MulMonotone(100, q, total);
        assert false;
      }
    } else {
      MulMonotone(completed, -1, 100);
      if q >= 1 {
        MulMonotone(1, q, total);
        assert false;
      }
    }
  }

  /**
   * With a positive number of tasks, the progress reaches 100 exactly when
   * every task has been completed.
   */
  lemma FullProgressMeansAllCompleted(s: SyncJobStatus)
    requires s.Valid() && s.totalTasks > 0
    ensures s.ProgressPercentage() >= 100 <==> s.IsAllTasksCompleted()
  {
    PercentReachesHundred(s.completedTasks, s.totalTasks);
  }
}
