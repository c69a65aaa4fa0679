/** GraphicBatch (Assets/Scripts/Utils/Rendering/GraphicBatch.cs): instanced
    matrices collected in one fixed-capacity buffer per executor thread plus
    one for the main thread, then uploaded into one GPU buffer. The matrix
    type is a type parameter; meshes, materials, the GPU buffers and
    `Render` are not modelled: the upload is modelled by the sequence of
    matrices it writes and the instance count it stores in `renderArgs[1]`. */
module GraphicBatches {
  import opened Common

  /** One thread's `Data` struct: its matrix buffer and how much of it is
      used. */
  datatype Data<M> = Data(matrices: seq<M>, count: int) {
    /** `Data.Full`. */
    predicate Full() {
      count >= |matrices|
    }
  }

  /** `new Data(capacity)`: the buffer of default matrices, nothing used. */
  function NewData<M>(capacity: nat, zero: M): (d: Data<M>)
    ensures |d.matrices| == capacity && d.count == 0
    ensures forall i :: 0 <= i < capacity ==> d.matrices[i] == zero
  {
    Data(seq(capacity, _ => zero), 0)
  }

  /** `Data.Add`: the matrix goes to slot `Count`, which then grows by one;
      a full buffer throws. */
  function DataAdd<M>(d: Data<M>, matrix: M): (r: Result<Data<M>>)
    requires 0 <= d.count
    ensures r.Err? <==> d.Full()
    ensures r.Ok? ==> r.value.count == d.count + 1 && |r.value.matrices| == |d.matrices|
    ensures r.Ok? ==> r.value.matrices[d.count] == matrix
    ensures r.Ok? ==> forall i :: 0 <= i < |d.matrices| && i != d.count ==> r.value.matrices[i] == d.matrices[i]
    ensures r.Ok? ==> r.value.matrices[..r.value.count] == d.matrices[..d.count] + [matrix]
  {
    if d.Full() then Err("[GraphicBatch] Unable to add: Allready full")
    else
      var m := d.matrices[d.count := matrix];
      assert m[..d.count + 1] == d.matrices[..d.count] + [matrix];
      Ok(Data(m, d.count + 1))
  }

  /** The used matrices of every buffer from `i` on, buffer after buffer:
      what the upload loop writes into the GPU buffer. */
  function UploadedFrom<M>(slots: seq<Data<M>>, i: nat): seq<M>
    requires forall k :: 0 <= k < |slots| ==> 0 <= slots[k].count <= |slots[k].matrices|
    decreases |slots| - i
  {
    if i >= |slots| then []
    else slots[i].matrices[..slots[i].count] + UploadedFrom(slots, i + 1)
  }

  /** The sum of the counts from buffer `i` on. */
  function CountFrom<M>(slots: seq<Data<M>>, i: nat): int
    decreases |slots| - i
  {
    if i >= |slots| then 0 else slots[i].count + CountFrom(slots, i + 1)
  }

  /** The upload writes exactly as many matrices as the buffers hold in
      total, and buffer `i`'s matrices sit right after those of the buffers
      before it. */
  lemma {:induction false} UploadedLength<M>(slots: seq<Data<M>>, i: nat)
    requires forall k :: 0 <= k < |slots| ==> 0 <= slots[k].count <= |slots[k].matrices|
    ensures |UploadedFrom(slots, i)| == CountFrom(slots, i)
    decreases |slots| - i
  {
    if i < |slots| {
      UploadedLength(slots, i + 1);
    }
  }

  class GraphicBatch<M> {
    /** `dataPerThread`: slot 0 for the main thread, slot `k + 1` for
        executor `k`. */
    const dataPerThread: array<Data<M>>
    const capacity: nat
    /** `renderArgs[1]`, the instance count. */
    var instanceCount: int
    /** The matrices the last upload wrote to the GPU buffer, from index 0. */
    var uploaded: seq<M>

    ghost predicate Valid()
      reads this, dataPerThread
    {
      forall k :: 0 <= k < dataPerThread.Length ==>
        |dataPerThread[k].matrices| == capacity && 0 <= dataPerThread[k].count <= capacity
    }

    /** `executorCount + 1` empty buffers of `maxRenderCount` default
        matrices each. A size below zero makes the C# array allocation
        throw and is excluded. */
    constructor(executorCount: int, maxRenderCount: nat, zero: M)
      requires executorCount >= -1
      ensures Valid() && fresh(dataPerThread)
      ensures dataPerThread.Length == executorCount + 1 && capacity == maxRenderCount
      ensures forall k :: 0 <= k < dataPerThread.Length ==> dataPerThread[k] == NewData(maxRenderCount, zero)
      ensures instanceCount == 0 && uploaded == []
    {
      capacity := maxRenderCount;
      dataPerThread := new Data<M>[executorCount + 1](_ => NewData(maxRenderCount, zero));
      instanceCount := 0;
      uploaded := [];
    }

    /** `Add(execID, matrix)`: goes to buffer `execID + 1`, so the main
        thread's -1 uses buffer 0. An id outside `[-1, executorCount)`
        indexes past the array, and a full buffer throws. */
    method Add(execID: int, matrix: M) returns (r: Result<()>)
      requires Valid()
      modifies dataPerThread
      ensures Valid()
      ensures !(0 <= execID + 1 < dataPerThread.Length) ==> r.Err? && dataPerThread[..] == old(dataPerThread[..])
      ensures 0 <= execID + 1 < dataPerThread.Length ==>
        match DataAdd(old(dataPerThread[execID + 1]), matrix)
        case Err(_) => r.Err? && dataPerThread[..] == old(dataPerThread[..])
        case Ok(d) => r.Ok? && dataPerThread[..] == old(dataPerThread[..])[execID + 1 := d]
    {
      if !(0 <= execID + 1 < dataPerThread.Length) {
        return Err("IndexOutOfRangeException");
      }
      match DataAdd(dataPerThread[execID + 1], matrix)
      case Err(message) =>
        return Err(message);
      case Ok(d) =>
        dataPerThread[execID + 1] := d;
        return Ok(());
    }

    /** `UploadData`: every buffer's used matrices, buffer after buffer, and
        their total as the instance count. */
    method UploadData()
      requires Valid()
      modifies this
      ensures Valid()
      ensures uploaded == UploadedFrom(dataPerThread[..], 0)
      ensures instanceCount == CountFrom(dataPerThread[..], 0) == |uploaded|
    {
      UploadedLength(dataPerThread[..], 0);
      var totalCount := 0;
      var written: seq<M> := [];
      var i := 0;
      while i < dataPerThread.Length
        invariant 0 <= i <= dataPerThread.Length
        invariant written + UploadedFrom(dataPerThread[..], i) == UploadedFrom(dataPerThread[..], 0)
        invariant totalCount + CountFrom(dataPerThread[..], i) == CountFrom(dataPerThread[..], 0)
      {
        written := written + dataPerThread[i].matrices[..dataPerThread[i].count];
        totalCount := totalCount + dataPerThread[i].count;
        i := i + 1;
      }
      uploaded := written;
      instanceCount := totalCount;
    }

    /** `Clear`: every count back to zero, the matrices left as they are. */
    method Clear()
      requires Valid()
      modifies dataPerThread
      ensures Valid()
      ensures forall k :: 0 <= k < dataPerThread.Length ==>
        dataPerThread[k] == old(dataPerThread[k]).(count := 0)
    {
      var i := 0;
      while i < dataPerThread.Length
        invariant 0 <= i <= dataPerThread.Length
        invariant forall k :: 0 <= k < i ==> dataPerThread[k] == old(dataPerThread[k]).(count := 0)
        invariant forall k :: i <= k < dataPerThread.Length ==> dataPerThread[k] == old(dataPerThread[k])
      {
        dataPerThread[i] := dataPerThread[i].(count := 0);
        i := i + 1;
      }
    }
  }
}
