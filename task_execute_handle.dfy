/** TaskExecuteHandle (Assets/Scripts/ECS/Tasks/TaskExecuteHandle.cs): runs a
    task once. It hands its index ranges to a runner and counts down once per
    subtask, not once per range. The runner it schedules on
    (Assets/Scripts/ECS/Tasks/SubtaskRunner.cs) is not part of this model: the
    ranges handed to `runner.Schedule` are recorded in `scheduled`. As for
    SubtaskExecutor, `PrepareSubtasks` is modelled by its result and
    `task.ExecuteSubtask(index)` by a log of the indices it was called with.
    The `CountdownEvent` is its current count plus whether it was disposed. */
module TaskExecuteHandles {
  import opened Common
  import opened Batching
  import opened SubtaskExecutors

  /** The loop of `Schedule`: for `i = 0, b, 2b, ...` below `n`, the range
      `[i, min(i + b - 1, n - 1)]` handed to `runner.Schedule`, in order. */
  method ScheduledRanges(subtaskCount: nat, batchSize: int) returns (ranges: seq<Range>)
    requires batchSize > 0
    ensures ranges == Batches(subtaskCount, batchSize)
  {
    ranges := [];
    var startOffset := batchSize - 1;
    var i := 0;
    while i < subtaskCount
      invariant 0 <= i
      invariant ranges + BatchesFrom(i, subtaskCount, batchSize) == Batches(subtaskCount, batchSize)
      decreases subtaskCount - i
    {
      var start := i;
      var end := start + startOffset;
      var last := if end >= subtaskCount then subtaskCount - 1 else end;
      RangesStep(ranges, Range(start, last), i, subtaskCount, batchSize);
      ranges := ranges + [Range(start, last)];
      i := i + batchSize;
    }
    assert BatchesFrom(i, subtaskCount, batchSize) == [];
  }

  class TaskExecuteHandle {
    const batchSize: int
    var isScheduled: bool
    /** `countdownEvent.CurrentCount`, or None while `countdownEvent` is null. */
    var countdown: Option<int>
    /** `countdownEvent.Dispose()` has run. */
    var disposed: bool
    /** The ranges passed to `runner.Schedule(this, start, end)`, in order. */
    var scheduled: seq<Range>
    /** The indices `task.ExecuteSubtask(index)` was called with, in order. */
    var executedSubtasks: seq<int>
    /** How many times the `Completed` event has fired. */
    var completions: nat

    /** The countdown never goes below zero, and it is disposed only once it
        has reached zero. */
    ghost predicate Valid()
      reads this
    {
      && batchSize > 0
      && (countdown.Some? ==> countdown.value >= 0)
      && (disposed ==> countdown == Some(0))
    }

    /** A batch size of zero or less is excluded, as for SubtaskExecutor: the
        push loop would not advance, or would run backwards. */
    constructor(batchSize: int)
      requires batchSize > 0
      ensures Valid() && this.batchSize == batchSize
      ensures !isScheduled && countdown == None && !disposed
      ensures scheduled == [] && executedSubtasks == [] && completions == 0
    {
      this.batchSize := batchSize;
      isScheduled := false;
      countdown := None;
      disposed := false;
      scheduled := [];
      executedSubtasks := [];
      completions := 0;
    }

    /** Fires `Completed`. */
    method Complete()
      modifies this
      ensures completions == old(completions) + 1
      ensures isScheduled == old(isScheduled) && countdown == old(countdown) && disposed == old(disposed)
      ensures scheduled == old(scheduled) && executedSubtasks == old(executedSubtasks)
    {
      completions := completions + 1;
    }

    /** Only the first call does anything. With no subtasks it completes at
        once; otherwise it starts a countdown at the subtask count and
        schedules the ranges of `Batches(n, batchSize)` in ascending order. */
    method Schedule(subtaskCount: nat)
      requires Valid()
      modifies this
      ensures Valid() && isScheduled
      ensures old(isScheduled) ==> unchanged(this)
      ensures !old(isScheduled) && subtaskCount == 0 ==>
        && completions == old(completions) + 1
        && countdown == old(countdown) && disposed == old(disposed) && scheduled == old(scheduled)
      ensures !old(isScheduled) && subtaskCount > 0 ==>
        && completions == old(completions)
        && countdown == Some(subtaskCount) && !disposed
        && scheduled == old(scheduled) + Batches(subtaskCount, batchSize)
      ensures executedSubtasks == old(executedSubtasks)
    {
      if isScheduled {
        return;
      }
      isScheduled := true;
      if subtaskCount == 0 {
        Complete();
      } else {
        countdown := Some(subtaskCount);
        disposed := false;
        var ranges := ScheduledRanges(subtaskCount, batchSize);
        scheduled := scheduled + ranges;
      }
    }

    /** The runner's entry point for one subtask: runs it, swallowing any
        exception, then signals the countdown, completing and disposing it
        when the count reaches zero. Signalling a null, disposed or already
        finished countdown throws. */
    method ExecuteSubtask(subtaskIndex: int) returns (r: Result<()>)
      requires Valid()
      modifies this
      ensures Valid()
      ensures executedSubtasks == old(executedSubtasks) + [subtaskIndex]
      ensures r.Err? <==> old(countdown) == None || old(disposed) || old(countdown) == Some(0)
      ensures r.Err? ==> countdown == old(countdown) && disposed == old(disposed) && completions == old(completions)
      ensures r.Ok? ==> countdown == Some(old(countdown).value - 1)
      ensures r.Ok? && countdown == Some(0) ==> disposed && completions == old(completions) + 1
      ensures r.Ok? && countdown != Some(0) ==> !disposed && completions == old(completions)
      ensures isScheduled == old(isScheduled) && scheduled == old(scheduled)
    {
      executedSubtasks := executedSubtasks + [subtaskIndex];
      match countdown
      case None =>
        return Err("NullReferenceException");
      case Some(count) =>
        if disposed {
          return Err("ObjectDisposedException");
        }
        if count == 0 {
          return Err("InvalidOperationException");
        }
        countdown := Some(count - 1);
        if count - 1 == 0 {
          Complete();
          disposed := true;
        }
        return Ok(());
    }
  }

  /** One handle scheduled for `n` subtasks, with every scheduled range then
      run index by index, in order: every index below `n` runs exactly once,
      in ascending order, every signal succeeds and `Completed` fires exactly
      once, on the last subtask. */
  method ScheduleAndRunAll(subtaskCount: nat, batchSize: int) returns (handle: TaskExecuteHandle)
    requires subtaskCount > 0 && batchSize > 0
    ensures handle.executedSubtasks == Span(0, subtaskCount - 1)
    ensures handle.completions == 1 && handle.countdown == Some(0) && handle.disposed
  {
    handle := new TaskExecuteHandle(batchSize);
    handle.Schedule(subtaskCount);
    RunScheduled(handle, subtaskCount);
  }

  /** Runs the scheduled ranges one after the other, each index by index, on a
      handle whose countdown is still at the subtask count. */
  method RunScheduled(handle: TaskExecuteHandle, subtaskCount: nat)
    requires subtaskCount > 0 && handle.Valid()
    requires handle.scheduled == Batches(subtaskCount, handle.batchSize)
    requires handle.executedSubtasks == [] && handle.completions == 0
    requires handle.countdown == Some(subtaskCount) && !handle.disposed
    modifies handle
    ensures handle.executedSubtasks == Span(0, subtaskCount - 1)
    ensures handle.completions == 1 && handle.countdown == Some(0) && handle.disposed
  {
    var ranges := handle.scheduled;
    BatchesLength(subtaskCount, handle.batchSize);
    var k := 0;
    while k < |ranges|
      invariant 0 <= k <= |ranges| && handle.Valid()
      invariant ranges == Batches(subtaskCount, handle.batchSize)
      invariant handle.executedSubtasks == Span(0, if k == 0 then -1 else ranges[k - 1].max)
      invariant handle.countdown == Some(subtaskCount - if k == 0 then 0 else ranges[k - 1].max + 1)
      invariant handle.completions == (if k == |ranges| then 1 else 0)
      invariant handle.disposed <==> k == |ranges|
      decreases |ranges| - k
    {
      BatchesAt(subtaskCount, handle.batchSize, k);
      RunSubtasks(handle, ranges[k].min, ranges[k].max, subtaskCount);
      k := k + 1;
    }
    BatchesAt(subtaskCount, handle.batchSize, |ranges| - 1);
  }

  /** The subtasks `lo .. hi` run one by one on a handle that has run the
      ones below `lo`: each signal succeeds, and the last subtask of all
      completes and disposes the countdown. */
  method RunSubtasks(handle: TaskExecuteHandle, lo: int, hi: int, subtaskCount: nat)
    requires handle.Valid() && 0 <= lo <= hi < subtaskCount
    requires handle.executedSubtasks == Span(0, lo - 1)
    requires handle.countdown == Some(subtaskCount - lo) && !handle.disposed
    requires handle.completions == 0
    modifies handle
    ensures handle.Valid() && handle.executedSubtasks == Span(0, hi)
    ensures handle.countdown == Some(subtaskCount - (hi + 1))
    ensures handle.completions == (if hi == subtaskCount - 1 then 1 else 0)
    ensures handle.disposed <==> hi == subtaskCount - 1
  {
    var i := lo;
    while i <= hi
      invariant lo <= i <= hi + 1 && handle.Valid()
      invariant handle.executedSubtasks == Span(0, i - 1)
      invariant handle.countdown == Some(subtaskCount - i)
      invariant handle.completions == (if i == subtaskCount then 1 else 0)
      invariant handle.disposed <==> i == subtaskCount
      decreases hi - i
    {
      var r := handle.ExecuteSubtask(i);
      i := i + 1;
    }
  }
}
