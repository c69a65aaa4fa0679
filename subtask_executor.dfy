/** SubtaskExecutor (Assets/Scripts/ECS/Tasks/SubtaskExecutor.cs): splits a
    task's subtasks into index ranges, pushes one runner task per range and
    counts finished ranges down to zero. The abstract `PrepareSubtasks` is
    modelled by its result, the subtask count passed to `Schedule`; the
    abstract `ExecuteSubtask(index)` by the log of indices it was called with
    and by the index, if any, whose call throws. The `Completed` event is
    counted, the profiler track and `WakeExecutors` are not modelled. */
module SubtaskExecutors {
  import opened Common
  import opened Batching
  import opened SubtaskRunners

  /** The runner tasks for the ranges `rs`, one per range and in order. */
  function Tasks<E>(e: E, rs: seq<Range>): (r: seq<ExecuteInfo<E>>)
    ensures |r| == |rs|
  {
    if |rs| == 0 then []
    else Tasks(e, rs[..|rs| - 1]) + [ExecuteInfo(e, rs[|rs| - 1].min, rs[|rs| - 1].max)]
  }

  /** Task `k` runs range `k` of the executor. */
  lemma {:induction false} TasksAt<E>(e: E, rs: seq<Range>, k: int)
    requires 0 <= k < |rs|
    ensures Tasks(e, rs)[k] == ExecuteInfo(e, rs[k].min, rs[k].max)
    decreases |rs|
  {
    if k < |rs| - 1 {
      TasksAt(e, rs[..|rs| - 1], k);
    }
  }

  lemma TasksAppend<E>(e: E, rs: seq<Range>, x: Range)
    ensures Tasks(e, rs + [x]) == Tasks(e, rs) + [ExecuteInfo(e, x.min, x.max)]
  {
    assert (rs + [x])[..|rs|] == rs;
  }

  /** The range at `i` moves from the ranges to come to the ones done. */
  lemma RangesStep(done: seq<Range>, x: Range, i: nat, n: nat, b: nat)
    requires b > 0 && i < n && x == BatchAt(i, n, b)
    ensures done + BatchesFrom(i, n, b) == (done + [x]) + BatchesFrom(i + b, n, b)
  {
    assert BatchesFrom(i, n, b) == [x] + BatchesFrom(i + b, n, b);
    SeqAssoc(done, [x], BatchesFrom(i + b, n, b));
  }

  lemma SeqAssoc<X>(a: seq<X>, b: seq<X>, c: seq<X>)
    ensures (a + b) + c == a + (b + c)
  {
  }

  /** The indices `lo, lo + 1, ..., hi`, ascending. */
  function Span(lo: int, hi: int): (r: seq<int>)
    ensures |r| == if hi >= lo then hi - lo + 1 else 0
    ensures forall k :: 0 <= k < |r| ==> r[k] == lo + k
    decreases hi - lo
  {
    if hi < lo then [] else Span(lo, hi - 1) + [hi]
  }

  /** The indices a batch `[lo, hi]` calls `ExecuteSubtask` with when the
      call for `failAt`, if any, throws: the exception leaves the loop, so the
      batch stops right after the throwing index. */
  function Attempted(lo: int, hi: int, failAt: Option<int>): (r: seq<int>)
    ensures failAt.Some? && lo <= failAt.value <= hi ==> r == Span(lo, failAt.value)
    ensures !(failAt.Some? && lo <= failAt.value <= hi) ==> r == Span(lo, hi)
  {
    if failAt.Some? && lo <= failAt.value <= hi then Span(lo, failAt.value) else Span(lo, hi)
  }

  /** The `for` loop of `ExecuteSubtask`: the indices it calls, the throwing
      one last. */
  method RunRange(minSubtaskIndex: int, maxSubtaskIndex: int, failAt: Option<int>) returns (called: seq<int>)
    ensures called == Attempted(minSubtaskIndex, maxSubtaskIndex, failAt)
  {
    called := [];
    var i := minSubtaskIndex;
    while i <= maxSubtaskIndex
      invariant minSubtaskIndex <= i && (i <= maxSubtaskIndex + 1 || i == minSubtaskIndex)
      invariant called == Span(minSubtaskIndex, i - 1)
      invariant !(failAt.Some? && minSubtaskIndex <= failAt.value < i)
      decreases maxSubtaskIndex - i
    {
      called := called + [i];
      if failAt == Some(i) {
        return;
      }
      i := i + 1;
    }
  }

  class SubtaskExecutor {
    const runner: SubtaskRunner<SubtaskExecutor>
    const batchSize: int
    var isRunning: bool
    var remainingBatches: int
    /** The indices the abstract `ExecuteSubtask(index)` was called with, in
        call order. */
    var executedSubtasks: seq<int>
    /** How many times the `Completed` event has fired. */
    var completions: nat

    ghost predicate Valid()
      reads this, runner
    {
      batchSize > 0 && runner.Valid()
    }

    /** A batch size of zero or less is excluded: with zero the batch count
        divides by zero, with a negative size the push loop never ends. */
    constructor(runner: SubtaskRunner<SubtaskExecutor>, batchSize: int)
      requires runner.Valid() && batchSize > 0
      ensures Valid()
      ensures this.runner == runner && this.batchSize == batchSize
      ensures !isRunning && remainingBatches == 0
      ensures executedSubtasks == [] && completions == 0
    {
      this.runner := runner;
      this.batchSize := batchSize;
      isRunning := false;
      remainingBatches := 0;
      executedSubtasks := [];
      completions := 0;
    }

    /** Stops running and fires `Completed`. */
    method Complete()
      modifies this
      ensures !isRunning && completions == old(completions) + 1
      ensures remainingBatches == old(remainingBatches) && executedSubtasks == old(executedSubtasks)
    {
      isRunning := false;
      completions := completions + 1;
    }

    /** Throws while a previous run is still going. Otherwise, with no
        subtasks it completes at once and pushes nothing; with `n` subtasks it
        pushes one runner task per range of `Batches(n, batchSize)`, in
        ascending order, and waits for exactly that many batches. */
    method Schedule(subtaskCount: nat) returns (r: Result<()>)
      requires Valid()
      modifies this, runner
      ensures Valid()
      ensures r.Err? <==> old(isRunning)
      ensures r.Err? ==> unchanged(this) && unchanged(runner)
      ensures r.Ok? && subtaskCount == 0 ==>
        !isRunning && remainingBatches == 0 && completions == old(completions) + 1 && unchanged(runner)
      ensures r.Ok? && subtaskCount > 0 ==>
        && isRunning && completions == old(completions)
        && remainingBatches == BatchCount(subtaskCount, batchSize) == |Batches(subtaskCount, batchSize)|
        && runner.pushed == old(runner.pushed) + Tasks(this, Batches(subtaskCount, batchSize))
        && runner.taken == old(runner.taken)
      ensures executedSubtasks == old(executedSubtasks)
    {
      if isRunning {
        return Err("[SubtaskExecutor] Allready running!");
      }
      isRunning := true;
      if subtaskCount == 0 {
        remainingBatches := 0;
        Complete();
        return Ok(());
      }
      remainingBatches := CDiv(subtaskCount - 1, batchSize) + 1;
      BatchesLength(subtaskCount, batchSize);
      PushBatches(subtaskCount);
      return Ok(());
    }

    /** `runner.PushTask(this, min, max)` for the range at `i`, seen from the
        pushed tasks: one more range's task is pushed. */
    method PushRange(min: int, max: int, ghost n: nat, ghost done: seq<Range>, ghost before: seq<ExecuteInfo<SubtaskExecutor>>)
      requires Valid() && 0 <= min < n && Range(min, max) == BatchAt(min, n, batchSize)
      requires runner.pushed == before + Tasks(this, done)
      modifies runner
      ensures Valid() && runner.taken == old(runner.taken)
      ensures runner.pushed == before + Tasks(this, done + [Range(min, max)])
    {
      runner.PushTask(this, min, max);
      TasksAppend(this, done, Range(min, max));
      SeqAssoc(before, Tasks(this, done), [ExecuteInfo(this, min, max)]);
    }

    /** The push loop of `Schedule`: for `i = 0, b, 2b, ...` below `n`, one
        task for `[i, min(i + b - 1, n - 1)]`. */
    method PushBatches(subtaskCount: nat)
      requires Valid() && subtaskCount > 0
      modifies runner
      ensures Valid()
      ensures runner.pushed == old(runner.pushed) + Tasks(this, Batches(subtaskCount, batchSize))
      ensures runner.taken == old(runner.taken)
    {
      var startOffset := batchSize - 1;
      var maxIndex := subtaskCount - 1;
      var i := 0;
      ghost var done: seq<Range> := [];
      ghost var before := runner.pushed;
      while i < subtaskCount
        invariant 0 <= i && Valid()
        invariant done + BatchesFrom(i, subtaskCount, batchSize) == Batches(subtaskCount, batchSize)
        invariant runner.taken == old(runner.taken)
        invariant runner.pushed == before + Tasks(this, done)
        decreases subtaskCount - i
      {
        var start := i;
        var end := start + startOffset;
        var last := if end >= subtaskCount then maxIndex else end;
        PushRange(start, last, subtaskCount, done, before);
        RangesStep(done, Range(start, last), i, subtaskCount, batchSize);
        done := done + [Range(start, last)];
        i := i + batchSize;
      }
      assert BatchesFrom(i, subtaskCount, batchSize) == [];
      assert done == Batches(subtaskCount, batchSize);
    }

    /** The runner's entry point for one range: calls `ExecuteSubtask` for
        `minSubtaskIndex` up to `maxSubtaskIndex` in ascending order, swallows
        an exception (which ends the range early), then counts the batch as
        done and completes when none remains. */
    method ExecuteSubtask(minSubtaskIndex: int, maxSubtaskIndex: int, failAt: Option<int>)
      requires Valid()
      modifies this
      ensures Valid()
      ensures executedSubtasks == old(executedSubtasks) + Attempted(minSubtaskIndex, maxSubtaskIndex, failAt)
      ensures remainingBatches == old(remainingBatches) - 1
      ensures remainingBatches == 0 ==> !isRunning && completions == old(completions) + 1
      ensures remainingBatches != 0 ==> isRunning == old(isRunning) && completions == old(completions)
    {
      var called := RunRange(minSubtaskIndex, maxSubtaskIndex, failAt);
      executedSubtasks := executedSubtasks + called;
      remainingBatches := remainingBatches - 1;
      if remainingBatches == 0 {
        Complete();
      }
    }
  }

  /** Running `[mid + 1, hi]` right after `[lo, mid]` runs `[lo, hi]`. */
  lemma SpanConcat(lo: int, mid: int, hi: int)
    requires lo - 1 <= mid <= hi
    ensures Span(lo, mid) + Span(mid + 1, hi) == Span(lo, hi)
  {
  }

  /** An executor scheduled for `n` subtasks on a fresh runner, with the
      pushed ranges then run in push order and none of them throwing: every
      index below `n` runs exactly once, in ascending order, and `Completed`
      fires exactly once, on the last range. */
  method ScheduleAndRunAll(subtaskCount: nat, batchSize: int, numberOfExecutors: nat) returns (executor: SubtaskExecutor)
    requires subtaskCount > 0 && batchSize > 0
    ensures executor.executedSubtasks == Span(0, subtaskCount - 1)
    ensures executor.completions == 1 && !executor.isRunning && executor.remainingBatches == 0
  {
    var runner := new SubtaskRunner<SubtaskExecutor>(numberOfExecutors);
    executor := new SubtaskExecutor(runner, batchSize);
    var r := executor.Schedule(subtaskCount);
    RunInOrder(executor, subtaskCount);
  }

  /** Runs the ranges of `Batches(n, batchSize)` one after the other on an
      executor waiting for exactly that many batches. */
  method RunInOrder(executor: SubtaskExecutor, subtaskCount: nat)
    requires subtaskCount > 0 && executor.Valid()
    requires executor.remainingBatches == |Batches(subtaskCount, executor.batchSize)|
    requires executor.executedSubtasks == [] && executor.completions == 0
    modifies executor
    ensures executor.executedSubtasks == Span(0, subtaskCount - 1)
    ensures executor.completions == 1 && !executor.isRunning && executor.remainingBatches == 0
  {
    var ranges := Batches(subtaskCount, executor.batchSize);
    BatchesFromShape(0, subtaskCount, executor.batchSize);
    var k := 0;
    while k < |ranges|
      invariant 0 <= k <= |ranges| && executor.Valid()
      invariant executor.executedSubtasks == Span(0, if k == 0 then -1 else ranges[k - 1].max)
      invariant executor.remainingBatches == |ranges| - k
      invariant executor.completions == (if k == |ranges| then 1 else 0)
      invariant k == |ranges| ==> !executor.isRunning
      decreases |ranges| - k
    {
      var lo := ranges[k].min;
      var hi := ranges[k].max;
      assert lo == if k == 0 then 0 else ranges[k - 1].max + 1;
      SpanConcat(0, lo - 1, hi);
      executor.ExecuteSubtask(lo, hi, None);
      k := k + 1;
    }
  }
}
