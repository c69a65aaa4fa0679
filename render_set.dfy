/** RenderSet (Assets/Scripts/Utils/RenderSet.cs): per thread, a list of
    batches of at most 1023 matrices, each for one graphic. A matrix goes to
    the first batch of its graphic that has room, or to a new batch. The
    current thread's id is passed in, the matrix type is a type parameter,
    and `Render` (the GPU draw calls) is not modelled. */
module RenderSets {

  /** The most instances one `Graphics.DrawMeshInstanced` call takes. */
  const MAX_BATCH_SIZE: int := 1023

  /** The C# `byte`. */
  type Byte = x: int | 0 <= x < 256

  datatype BatchData<M> = BatchData(graphicsID: Byte, matrices: seq<M>, count: int)

  /** A batch as Add leaves it: a full-size buffer and a count within it. */
  predicate WellFormed<M>(b: BatchData<M>) {
    |b.matrices| == MAX_BATCH_SIZE && 0 <= b.count <= MAX_BATCH_SIZE
  }

  predicate AllWellFormed<M>(list: seq<BatchData<M>>) {
    forall i :: 0 <= i < |list| ==> WellFormed(list[i])
  }

  /** A matrix of this graphic may go into the batch. */
  predicate Fits<M>(b: BatchData<M>, graphicsID: Byte) {
    b.graphicsID == graphicsID && b.count < MAX_BATCH_SIZE
  }

  /** The index of the first batch from `i` on that fits, or `|list|`. */
  function FirstFit<M>(list: seq<BatchData<M>>, graphicsID: Byte, i: nat): (r: nat)
    requires i <= |list|
    ensures i <= r <= |list|
    ensures r < |list| ==> Fits(list[r], graphicsID)
    ensures forall k :: i <= k < r ==> !Fits(list[k], graphicsID)
    decreases |list| - i
  {
    if i == |list| then i
    else if Fits(list[i], graphicsID) then i
    else FirstFit(list, graphicsID, i + 1)
  }

  /** A new batch holding just the matrix, the rest default matrices. */
  function NewBatch<M>(graphicsID: Byte, matrix: M, zero: M): (b: BatchData<M>)
    ensures WellFormed(b) && b.graphicsID == graphicsID && b.count == 1 && b.matrices[0] == matrix
  {
    BatchData(graphicsID, seq(MAX_BATCH_SIZE, _ => zero)[0 := matrix], 1)
  }

  /** The matrix appended to a batch that fits. */
  function Appended<M>(b: BatchData<M>, matrix: M): (r: BatchData<M>)
    requires WellFormed(b) && b.count < MAX_BATCH_SIZE
    ensures WellFormed(r) && r.graphicsID == b.graphicsID && r.count == b.count + 1
    ensures r.matrices[..r.count] == b.matrices[..b.count] + [matrix]
  {
    var m := b.matrices[b.count := matrix];
    assert m[..b.count + 1] == b.matrices[..b.count] + [matrix];
    BatchData(b.graphicsID, m, b.count + 1)
  }

  /** The list after `Add`: the first batch that fits gets the matrix, or a
      new batch is appended. */
  function AddedTo<M>(list: seq<BatchData<M>>, graphicsID: Byte, matrix: M, zero: M): seq<BatchData<M>>
    requires AllWellFormed(list)
  {
    var k := FirstFit(list, graphicsID, 0);
    if k < |list| then list[k := Appended(list[k], matrix)]
    else list + [NewBatch(graphicsID, matrix, zero)]
  }

  /** How many matrices of the graphic the list holds. */
  function Total<M>(list: seq<BatchData<M>>, graphicsID: Byte): int {
    if |list| == 0 then 0
    else Total(list[..|list| - 1], graphicsID) + (if list[|list| - 1].graphicsID == graphicsID then list[|list| - 1].count else 0)
  }

  lemma {:induction false} TotalUpdate<M>(list: seq<BatchData<M>>, k: int, b: BatchData<M>, graphicsID: Byte)
    requires 0 <= k < |list|
    ensures Total(list[k := b], graphicsID) ==
      Total(list, graphicsID)
      - (if list[k].graphicsID == graphicsID then list[k].count else 0)
      + (if b.graphicsID == graphicsID then b.count else 0)
    decreases |list|
  {
    var n := |list|;
    var u := list[k := b];
    if k < n - 1 {
      assert u[..n - 1] == list[..n - 1][k := b];
      TotalUpdate(list[..n - 1], k, b, graphicsID);
    } else {
      assert u[..n - 1] == list[..n - 1];
    }
  }

  lemma TotalAppend<M>(list: seq<BatchData<M>>, b: BatchData<M>, graphicsID: Byte)
    ensures Total(list + [b], graphicsID) ==
      Total(list, graphicsID) + (if b.graphicsID == graphicsID then b.count else 0)
  {
    assert (list + [b])[..|list|] == list;
  }

  /** Each Add raises the graphic's total by exactly one and leaves every
      other graphic's total as it was; every batch stays within its
      capacity. */
  lemma AddRaisesTotal<M>(list: seq<BatchData<M>>, graphicsID: Byte, matrix: M, zero: M, other: Byte)
    requires AllWellFormed(list)
    ensures AllWellFormed(AddedTo(list, graphicsID, matrix, zero))
    ensures Total(AddedTo(list, graphicsID, matrix, zero), graphicsID) == Total(list, graphicsID) + 1
    ensures other != graphicsID ==> Total(AddedTo(list, graphicsID, matrix, zero), other) == Total(list, other)
  {
    var k := FirstFit(list, graphicsID, 0);
    if k < |list| {
      TotalUpdate(list, k, Appended(list[k], matrix), graphicsID);
      TotalUpdate(list, k, Appended(list[k], matrix), other);
    } else {
      TotalAppend(list, NewBatch(graphicsID, matrix, zero), graphicsID);
      TotalAppend(list, NewBatch(graphicsID, matrix, zero), other);
    }
  }

  /** The list after `Clear`: every count zero, graphics and buffers kept. */
  function Cleared<M>(list: seq<BatchData<M>>): (r: seq<BatchData<M>>)
    ensures |r| == |list|
    ensures forall i :: 0 <= i < |list| ==> r[i] == list[i].(count := 0)
  {
    seq(|list|, i requires 0 <= i < |list| => list[i].(count := 0))
  }

  /** A cleared list holds nothing of any graphic. */
  lemma {:induction false} ClearedTotal<M>(list: seq<BatchData<M>>, graphicsID: Byte)
    ensures Total(Cleared(list), graphicsID) == 0
    decreases |list|
  {
    if |list| > 0 {
      assert Cleared(list)[..|list| - 1] == Cleared(list[..|list| - 1]);
      ClearedTotal(list[..|list| - 1], graphicsID);
    }
  }

  /** One thread's list: Add's search loop over it. */
  method AddToList<M>(list: seq<BatchData<M>>, graphicsID: Byte, matrix: M, zero: M) returns (r: seq<BatchData<M>>)
    requires AllWellFormed(list)
    ensures r == AddedTo(list, graphicsID, matrix, zero)
  {
    r := list;
    var added := false;
    var i := 0;
    while i < |r|
      invariant 0 <= i <= |r| && r == list
      invariant forall k :: 0 <= k < i ==> !Fits(list[k], graphicsID)
    {
      var batch := r[i];
      if batch.graphicsID == graphicsID && batch.count < MAX_BATCH_SIZE {
        batch := batch.(matrices := batch.matrices[batch.count := matrix]);
        batch := batch.(count := batch.count + 1);
        r := r[i := batch];
        added := true;
        break;
      }
      i := i + 1;
    }
    assert FirstFit(list, graphicsID, 0) == i;
    if !added {
      var newBatch := BatchData(graphicsID, seq(MAX_BATCH_SIZE, _ => zero), 0);
      newBatch := newBatch.(matrices := newBatch.matrices[0 := matrix]);
      newBatch := newBatch.(count := 1);
      r := r + [newBatch];
    }
  }

  /** One thread's list: Clear's loop over it. */
  method ClearList<M>(list: seq<BatchData<M>>) returns (r: seq<BatchData<M>>)
    ensures r == Cleared(list)
  {
    r := list;
    var i := 0;
    while i < |r|
      invariant 0 <= i <= |r| == |list|
      invariant forall k :: 0 <= k < i ==> r[k] == list[k].(count := 0)
      invariant forall k :: i <= k < |r| ==> r[k] == list[k]
    {
      var batch := r[i];
      batch := batch.(count := 0);
      r := r[i := batch];
      i := i + 1;
    }
  }

  /** A non-empty set of thread ids has a member to visit next. */
  lemma HasKey(todo: set<int>)
    requires todo != {}
    ensures exists key :: key in todo
  {
    if forall key :: key !in todo {
      assert false;
    }
  }

  class RenderSet<M> {
    /** The default matrix new buffers are filled with. */
    const zero: M
    /** `batchesLookupPerThread`: each thread's list, by managed thread id. */
    var lists: map<int, seq<BatchData<M>>>

    ghost predicate Valid()
      reads this
    {
      forall t :: t in lists ==> AllWellFormed(lists[t])
    }

    constructor(zero: M)
      ensures Valid() && this.zero == zero && lists == map[]
    {
      this.zero := zero;
      lists := map[];
    }

    /** `Add(graphicsID, matrix)` on thread `threadId`: the thread's list,
        created empty on its first use, gets the matrix as `AddedTo` says;
        no other thread's list changes. */
    method Add(threadId: int, graphicsID: Byte, matrix: M)
      requires Valid()
      modifies this
      ensures Valid()
      ensures lists == old(lists)[threadId := AddedTo(if threadId in old(lists) then old(lists)[threadId] else [], graphicsID, matrix, zero)]
    {
      var list := if threadId in lists then lists[threadId] else [];
      AddRaisesTotal(list, graphicsID, matrix, zero, graphicsID);
      var updated := AddToList(list, graphicsID, matrix, zero);
      lists := lists[threadId := updated];
    }

    /** `Clear`: every thread's list keeps its batches with their counts at
        zero. */
    method Clear()
      requires Valid()
      modifies this
      ensures Valid()
      ensures lists.Keys == old(lists).Keys
      ensures forall t :: t in lists ==> lists[t] == Cleared(old(lists)[t])
    {
      var todo := lists.Keys;
      while todo != {}
        invariant todo <= lists.Keys && lists.Keys == old(lists).Keys
        invariant forall t :: t in lists && t !in todo ==> lists[t] == Cleared(old(lists)[t])
        invariant forall t :: t in todo ==> lists[t] == old(lists)[t]
        invariant Valid()
        decreases |todo|
      {
        HasKey(todo);
        var key :| key in todo;
        var cleared := ClearList(lists[key]);
        lists := lists[key := cleared];
        todo := todo - {key};
      }
    }
  }
}
