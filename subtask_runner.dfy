/** SubtaskRunner (Assets/Scripts/ECS/Tasks/Runner/SubtaskRunner.cs): one task
    queue per executor thread (at least one), pushes spread round robin over
    the queues, and a taker that scans the queues starting from its own. The
    queues are sequences (front first) and an `ExecuteInfo` is a value; the
    executor threads, their wake-up and the push lock are not modelled. */
module SubtaskRunners {
  import opened Common

  /** `ExecuteInfo`: the executor and the inclusive index range it is to run. */
  datatype ExecuteInfo<E> = ExecuteInfo(executor: E, minSubtaskIndex: int, maxSubtaskIndex: int)

  /** `numberOfExecutors > 0 ? numberOfExecutors : 1`. */
  function QueueCount(numberOfExecutors: int): (r: int)
    ensures r >= 1
    ensures numberOfExecutors > 0 ==> r == numberOfExecutors
    ensures numberOfExecutors <= 0 ==> r == 1
  {
    if numberOfExecutors > 0 then numberOfExecutors else 1
  }

  /** All queued tasks, queue after queue. */
  function Flatten<T>(qs: seq<seq<T>>): seq<T> {
    if |qs| == 0 then [] else Flatten(qs[..|qs| - 1]) + qs[|qs| - 1]
  }

  /** Replacing one queue changes the pool of queued tasks by exactly the
      difference between the old and the new queue. */
  lemma {:induction false} FlattenUpdate<T>(qs: seq<seq<T>>, k: int, q: seq<T>)
    requires 0 <= k < |qs|
    ensures multiset(Flatten(qs[k := q])) + multiset(qs[k]) == multiset(Flatten(qs)) + multiset(q)
    ensures |Flatten(qs[k := q])| + |qs[k]| == |Flatten(qs)| + |q|
    decreases |qs|
  {
    var n := |qs|;
    var qs' := qs[k := q];
    assert Flatten(qs) == Flatten(qs[..n - 1]) + qs[n - 1];
    assert Flatten(qs') == Flatten(qs'[..n - 1]) + qs'[n - 1];
    if k == n - 1 {
      assert qs'[..n - 1] == qs[..n - 1];
    } else {
      var p := qs[..n - 1];
      assert qs'[..n - 1] == p[k := q];
      assert qs'[n - 1] == qs[n - 1];
      assert p[k] == qs[k];
      FlattenUpdate(p, k, q);
      var A' := multiset(Flatten(p[k := q]));
      var A := multiset(Flatten(p));
      var x := multiset(qs[n - 1]);
      assert A' + multiset(qs[k]) == A + multiset(q);
      assert multiset(Flatten(qs')) == A' + x;
      assert multiset(Flatten(qs)) == A + x;
      assert (A' + x) + multiset(qs[k]) == (A' + multiset(qs[k])) + x;
      assert (A + x) + multiset(q) == (A + multiset(q)) + x;
    }
  }

  /** The queue a taker with id `execID` looks at on its `i`-th step:
      `(execID + i) % taskQueueCount` with C#'s truncating `%`. */
  function Rotated(execID: int, i: int, count: int): int
    requires count > 0
  {
    CMod(execID + i, count)
  }

  /** The scan finds its task at step `i`: every queue it looked at before was
      empty and the one at step `i` is not. */
  ghost predicate FirstHit<T>(qs: seq<seq<T>>, execID: int, i: int)
    requires |qs| > 0
  {
    && 0 <= i < |qs|
    && (forall j :: 0 <= j < i ==> 0 <= Rotated(execID, j, |qs|) && qs[Rotated(execID, j, |qs|)] == [])
    && 0 <= Rotated(execID, i, |qs|) && qs[Rotated(execID, i, |qs|)] != []
  }

  /** A taker with a non-negative id visits every queue: queue `q` at step
      `(q - execID) mod count`. */
  lemma RotationCovers(execID: nat, count: int, q: int) returns (j: int)
    requires count > 0 && 0 <= q < count
    ensures 0 <= j < count && Rotated(execID, j, count) == q
  {
    var a := execID % count;
    var t := execID / count;
    assert execID == t * count + a;
    if q >= a {
      j := q - a;
      DivModUnique(execID + j, count, t, q);
    } else {
      j := q - a + count;
      assert (t + 1) * count == t * count + count;
      DivModUnique(execID + j, count, t + 1, q);
    }
  }

  /** Moving an index in `[0, count)` on by one with `% count` wraps from
      the last index to 0. */
  lemma WrapStep(a: int, count: int)
    requires 0 <= a < count
    ensures (a + 1) % count == if a + 1 == count then 0 else a + 1
  {
    if a + 1 == count {
      DivModUnique(a + 1, count, 1, 0);
    } else {
      DivModUnique(a + 1, count, 0, a + 1);
    }
  }

  /** `(index + 1) % count`, the push index after a push. */
  function NextQueue(index: int, count: int): (r: int)
    requires 0 <= index < count
    ensures r == if index + 1 == count then 0 else index + 1
  {
    WrapStep(index, count);
    (index + 1) % count
  }

  /** The queue the push numbered `p` (counting from 0) goes to: the push
      index starts at 0 and each push moves it on by one, wrapping. */
  function PushSlot(p: nat, count: int): (r: int)
    requires count > 0
    ensures 0 <= r < count
  {
    if p == 0 then 0
    else
      var q := PushSlot(p - 1, count);
      if q + 1 == count then 0 else q + 1
  }

  /** Round robin: push number `p` goes to queue `p % count`. */
  lemma {:induction false} PushSlotIsMod(p: nat, count: int)
    requires count > 0
    ensures PushSlot(p, count) == p % count
  {
    if p == 0 {
      DivModUnique(0, count, 0, 0);
    } else {
      PushSlotIsMod(p - 1, count);
      var a := (p - 1) % count;
      var t := (p - 1) / count;
      assert p - 1 == t * count + a;
      if a + 1 < count {
        DivModUnique(p, count, t, a + 1);
      } else {
        assert (t + 1) * count == t * count + count;
        DivModUnique(p, count, t + 1, 0);
      }
    }
  }

  /** A push adds the task to the queued pool and to nothing else. */
  lemma PushedStep<T>(F: multiset<T>, F': multiset<T>, taken: multiset<T>, q: multiset<T>, x: T, pushed: multiset<T>)
    requires F + taken == pushed
    requires F' + q == F + (q + multiset{x})
    ensures F' + taken == pushed + multiset{x}
  {
    forall y ensures F'[y] == (F + multiset{x})[y] {
      assert (F' + q)[y] == (F + (q + multiset{x}))[y];
    }
    assert F' == F + multiset{x};
  }

  /** Taking a task moves it from the queued pool to the taken ones. */
  lemma TakenStep<T>(F: multiset<T>, F': multiset<T>, taken: multiset<T>, q: multiset<T>, x: T, pushed: multiset<T>)
    requires F + taken == pushed
    requires F' + (multiset{x} + q) == F + q
    ensures F' + (taken + multiset{x}) == pushed
  {
    forall y ensures F[y] == (F' + multiset{x})[y] {
      assert (F' + (multiset{x} + q))[y] == (F + q)[y];
    }
    assert F == F' + multiset{x};
  }

  class SubtaskRunner<E(==)> {
    const taskQueueCount: int
    const executorCount: int
    var taskQueues: seq<seq<ExecuteInfo<E>>>
    var currentPushQueueIndex: int
    /** Every task pushed so far, in push order. */
    ghost var pushed: seq<ExecuteInfo<E>>
    /** Every task handed out so far, in the order it was taken. */
    ghost var taken: seq<ExecuteInfo<E>>

    /** The push index is the number of pushes modulo the queue count, and
        every pushed task is either still queued or was taken, once. */
    ghost predicate Valid()
      reads this
    {
      && taskQueueCount >= 1
      && |taskQueues| == taskQueueCount
      && 0 <= currentPushQueueIndex < taskQueueCount
      && currentPushQueueIndex == PushSlot(|pushed|, taskQueueCount)
      && multiset(Flatten(taskQueues)) + multiset(taken) == multiset(pushed)
    }

    /** The queues start empty. A negative executor count is excluded: the C#
        constructor's executor array of that size would throw. */
    constructor(numberOfExecutors: nat)
      ensures Valid()
      ensures taskQueueCount == QueueCount(numberOfExecutors) && executorCount == numberOfExecutors
      ensures forall q :: 0 <= q < taskQueueCount ==> taskQueues[q] == []
      ensures currentPushQueueIndex == 0 && pushed == [] && taken == []
    {
      var count := if numberOfExecutors > 0 then numberOfExecutors else 1;
      var queues: seq<seq<ExecuteInfo<E>>> := [];
      var i := 0;
      while i < count
        invariant 0 <= i <= count && |queues| == i
        invariant forall q :: 0 <= q < i ==> queues[q] == []
        invariant Flatten(queues) == []
      {
        var prev := queues;
        queues := queues + [[]];
        assert queues[..|queues| - 1] == prev;
        i := i + 1;
      }
      taskQueueCount := count;
      executorCount := numberOfExecutors;
      taskQueues := queues;
      currentPushQueueIndex := 0;
      pushed := [];
      taken := [];
    }

    /** Appends the task to the current push queue and moves the push index on
        by one, wrapping around: the k-th push (counting from 0) lands in
        queue `k % taskQueueCount`. */
    method PushTask(executor: E, minIndex: int, maxIndex: int)
      requires Valid()
      modifies this
      ensures Valid()
      ensures old(currentPushQueueIndex) == PushSlot(old(|pushed|), taskQueueCount)
      ensures taskQueues == old(taskQueues)[old(currentPushQueueIndex) :=
        old(taskQueues[currentPushQueueIndex]) + [ExecuteInfo(executor, minIndex, maxIndex)]]
      ensures currentPushQueueIndex == if old(currentPushQueueIndex) + 1 == taskQueueCount then 0 else old(currentPushQueueIndex) + 1
      ensures pushed == old(pushed) + [ExecuteInfo(executor, minIndex, maxIndex)] && taken == old(taken)
    {
      var info := ExecuteInfo(executor, minIndex, maxIndex);
      var q := taskQueues[currentPushQueueIndex];
      ghost var F := multiset(Flatten(taskQueues));
      ghost var T := multiset(taken);
      FlattenUpdate(taskQueues, currentPushQueueIndex, q + [info]);
      taskQueues := taskQueues[currentPushQueueIndex := q + [info]];
      currentPushQueueIndex := NextQueue(currentPushQueueIndex, taskQueueCount);
      PushedStep(F, multiset(Flatten(taskQueues)), T, multiset(q), info, multiset(pushed));
      pushed := pushed + [info];
    }

    /** Takes the head of queue `k`. */
    method Dequeue(k: int) returns (info: ExecuteInfo<E>)
      requires Valid() && 0 <= k < taskQueueCount && taskQueues[k] != []
      modifies this
      ensures Valid() && pushed == old(pushed)
      ensures info == old(taskQueues[k][0])
      ensures taskQueues == old(taskQueues)[k := old(taskQueues[k][1..])]
      ensures taken == old(taken) + [info]
      ensures |Flatten(taskQueues)| == |Flatten(old(taskQueues))| - 1
    {
      var q := taskQueues[k];
      info := q[0];
      ghost var F := multiset(Flatten(taskQueues));
      FlattenUpdate(taskQueues, k, q[1..]);
      assert q == [info] + q[1..];
      taskQueues := taskQueues[k := q[1..]];
      TakenStep(F, multiset(Flatten(taskQueues)), multiset(taken), multiset(q[1..]), info, multiset(pushed));
      taken := taken + [info];
    }

    /** Scans the queues in the order `(execID + i) % taskQueueCount` and
        dequeues the head of the first non-empty one. A negative queue index,
        which C#'s `%` gives for a negative `execID`, throws. */
    method GetTask(execID: int) returns (r: Result<Option<ExecuteInfo<E>>>)
      requires Valid()
      modifies this
      ensures Valid() && pushed == old(pushed)
      ensures execID >= 0 ==> r.Ok?
      ensures Rotated(execID, 0, taskQueueCount) < 0 ==> r.Err?
      ensures r.Err? ==> taskQueues == old(taskQueues) && taken == old(taken)
      ensures r == Ok(None) ==> taskQueues == old(taskQueues) && taken == old(taken)
      ensures execID >= 0 ==> (r == Ok(None) <==> forall q :: 0 <= q < taskQueueCount ==> old(taskQueues[q]) == [])
      ensures r.Ok? && r.value.Some? ==> exists i :: (FirstHit(old(taskQueues), execID, i) &&
        var k := Rotated(execID, i, taskQueueCount);
        && r.value.value == old(taskQueues[k][0])
        && taskQueues == old(taskQueues)[k := old(taskQueues[k][1..])]
        && taken == old(taken) + [r.value.value])
      ensures r.Ok? && r.value.Some? ==> |Flatten(taskQueues)| == |Flatten(old(taskQueues))| - 1
    {
      var i := 0;
      while i < taskQueueCount
        invariant 0 <= i <= taskQueueCount
        invariant taskQueues == old(taskQueues) && taken == old(taken)
        invariant forall j :: 0 <= j < i ==> 0 <= Rotated(execID, j, taskQueueCount) && taskQueues[Rotated(execID, j, taskQueueCount)] == []
      {
        var queueIndex := CMod(execID + i, taskQueueCount);
        if queueIndex < 0 {
          return Err("IndexOutOfRangeException");
        }
        if |taskQueues[queueIndex]| > 0 {
          assert FirstHit(taskQueues, execID, i);
          var info := Dequeue(queueIndex);
          return Ok(Some(info));
        }
        i := i + 1;
      }
      if execID >= 0 {
        forall q | 0 <= q < taskQueueCount ensures taskQueues[q] == [] {
          var j := RotationCovers(execID, taskQueueCount, q);
        }
      }
      return Ok(None);
    }

    /** Takes at most one task for the calling thread, starting at queue
        `tickCount % taskQueueCount`, and returns it for the caller to run.
        `tickCount` is `Environment.TickCount`, which is negative once the
        machine has been up for more than about 24.9 days. */
    method Help(tickCount: int) returns (r: Result<Option<ExecuteInfo<E>>>)
      requires Valid()
      modifies this
      ensures Valid() && pushed == old(pushed)
      ensures tickCount >= 0 ==> r.Ok?
      ensures CMod(tickCount, taskQueueCount) < 0 ==> r.Err?
      ensures r.Ok? && r.value.Some? ==> (taken == old(taken) + [r.value.value] &&
        |Flatten(taskQueues)| == |Flatten(old(taskQueues))| - 1)
      ensures !(r.Ok? && r.value.Some?) ==> taskQueues == old(taskQueues) && taken == old(taken)
    {
      var executorID := CMod(tickCount, taskQueueCount);
      CModIdempotent(tickCount, taskQueueCount);
      r := GetTask(executorID);
    }

    /** `Help` with the starting queue kept in `[0, taskQueueCount)`, so that
        it never throws. */
    method HelpIntended(tickCount: int) returns (r: Result<Option<ExecuteInfo<E>>>)
      requires Valid()
      modifies this
      ensures Valid() && pushed == old(pushed)
      ensures r.Ok?
      ensures r == Ok(None) <==> forall q :: 0 <= q < taskQueueCount ==> old(taskQueues[q]) == []
      ensures r.Ok? && r.value.Some? ==> (taken == old(taken) + [r.value.value] &&
        |Flatten(taskQueues)| == |Flatten(old(taskQueues))| - 1)
      ensures !(r.Ok? && r.value.Some?) ==> taskQueues == old(taskQueues) && taken == old(taken)
    {
      var executorID := CMod(tickCount, taskQueueCount);
      if executorID < 0 {
        executorID := executorID + taskQueueCount;
      }
      r := GetTask(executorID);
    }
  }

  /** With two queues, a tick count of -1 makes `Help` index queue -1. */
  method NegativeTickCountThrows() returns (r: Result<Option<ExecuteInfo<int>>>)
    ensures r.Err?
  {
    var runner := new SubtaskRunner<int>(2);
    r := runner.Help(-1);
  }
}
