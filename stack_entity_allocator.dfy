/** The older allocator (Assets/Scripts/ECS/StackEntityAllocator.cs): only a
    stack of free ids, with no guard against freeing an id twice. */
module StackEntityAllocators {
  import opened Common

  class StackEntityAllocator {
    /** `freeEntities`; its top is the last element. */
    var freeEntities: seq<EntityId>

    /** Ids 0 to 65534 are pushed in order, so 65534 is on top. */
    constructor()
      ensures freeEntities == Ids(MAX_ENTITIES)
    {
      freeEntities := [];
      new;
      var entity := 0;
      while entity < MAX_ENTITIES
        invariant 0 <= entity <= MAX_ENTITIES
        invariant freeEntities == Ids(entity)
      {
        freeEntities := freeEntities + [entity];
        entity := entity + 1;
      }
    }

    /** `Stack.Pop`, which throws on an empty stack: here an `Err`. */
    method Allocate() returns (r: Result<EntityId>)
      modifies this
      ensures old(freeEntities) == [] ==> r.Err? && freeEntities == []
      ensures old(freeEntities) != [] ==>
        r == Ok(old(freeEntities)[|old(freeEntities)| - 1]) && freeEntities == old(freeEntities)[..|old(freeEntities)| - 1]
    {
      if freeEntities == [] {
        r := Err("Stack empty.");
      } else {
        r := Ok(freeEntities[|freeEntities| - 1]);
        freeEntities := freeEntities[..|freeEntities| - 1];
      }
    }

    /** Pushes unconditionally. */
    method Free(entity: EntityId)
      modifies this
      ensures freeEntities == old(freeEntities) + [entity]
      ensures multiset(freeEntities)[entity] == multiset(old(freeEntities))[entity] + 1
    {
      freeEntities := freeEntities + [entity];
    }
  }

  /** Freeing an id twice puts it on the stack twice, so two allocations
      return the same id. */
  method DoubleFree(a: StackEntityAllocator, entity: EntityId) returns (r1: Result<EntityId>, r2: Result<EntityId>)
    modifies a
    ensures r1 == Ok(entity) && r2 == Ok(entity)
    ensures a.freeEntities == old(a.freeEntities)
  {
    ghost var s0 := a.freeEntities;
    a.Free(entity);
    a.Free(entity);
    assert a.freeEntities == (s0 + [entity]) + [entity];
    r1 := a.Allocate();
    assert a.freeEntities == s0 + [entity];
    r2 := a.Allocate();
  }
}
