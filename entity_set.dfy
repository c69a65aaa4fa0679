/** EntitySet (Assets/Scripts/ECS/Storage/EntitySet.cs): a preallocated id
    buffer with a fill count; Clear only resets the count. */
module EntitySets {
  import opened Common

  class EntitySet {
    const Data: array<EntityId>
    var Count: int

    ghost predicate Valid()
      reads this
    {
      Data.Length == MAX_ENTITIES && 0 <= Count <= MAX_ENTITIES
    }

    /** The ids added since the last Clear, in the order they were added. */
    function Contents(): (s: seq<EntityId>)
      requires Valid()
      reads this, Data
      ensures |s| == Count
    {
      Data[..Count]
    }

    constructor()
      ensures Valid() && fresh(Data) && Count == 0
      ensures Contents() == []
    {
      Data := new EntityId[MAX_ENTITIES];
      Count := 0;
    }

    /** Writes `Data[Count]` and then increments `Count`; the buffer holds at
        most 65535 ids, and one more would index past its end. */
    method Add(entity: EntityId)
      requires Valid() && Count < MAX_ENTITIES
      modifies this, Data
      ensures Valid()
      ensures Count == old(Count) + 1 && Data[old(Count)] == entity
      ensures Contents() == old(Contents()) + [entity]
      ensures forall i :: 0 <= i < Data.Length && i != old(Count) ==> Data[i] == old(Data[i])
    {
      Data[Count] := entity;
      Count := Count + 1;
    }

    /** O(1): the count goes back to zero and the buffer is left as it was. */
    method Clear()
      requires Valid()
      modifies this
      ensures Valid() && Count == 0 && Contents() == []
      ensures Data[..] == old(Data[..])
    {
      Count := 0;
    }
  }
}
