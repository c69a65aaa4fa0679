/** The storage layer's entity allocator (Assets/Scripts/ECS/Storage/EntityAllocator.cs):
    a stack of free ids plus a per-id free flag. The lock around Allocate and
    Free is not modelled; each call runs to completion on its own. */
module EntityAllocators {
  import opened Common

  class EntityAllocator {
    /** `entityFreeStatus`: true exactly for the ids on the free stack. */
    const entityFreeStatus: array<bool>
    /** `freeEntities`: the free stack; its top is the last element. */
    var freeEntities: seq<EntityId>

    ghost predicate Valid()
      reads this, entityFreeStatus
    {
      && entityFreeStatus.Length == MAX_ENTITIES
      && Distinct(freeEntities)
      && (forall e: EntityId :: entityFreeStatus[e] <==> e in freeEntities)
    }

    /** Every id starts free, pushed in ascending order, so 65534 is on top. */
    constructor()
      ensures Valid() && fresh(entityFreeStatus)
      ensures freeEntities == Ids(MAX_ENTITIES)
      ensures forall e: EntityId :: IsFree(e)
    {
      entityFreeStatus := new bool[MAX_ENTITIES](_ => false);
      freeEntities := [];
      new;
      var entity := 0;
      while entity < MAX_ENTITIES
        invariant 0 <= entity <= MAX_ENTITIES
        invariant freeEntities == Ids(entity)
        invariant forall e :: 0 <= e < MAX_ENTITIES ==> (entityFreeStatus[e] <==> e < entity)
      {
        entityFreeStatus[entity] := true;
        freeEntities := freeEntities + [entity];
        entity := entity + 1;
      }
      forall e: EntityId ensures entityFreeStatus[e] <==> e in freeEntities {
        assert entityFreeStatus[e] ==> freeEntities[e] == e;
      }
    }

    function IsAllocated(entity: EntityId): (r: bool)
      requires Valid()
      reads this, entityFreeStatus
      ensures r <==> entity !in freeEntities
    {
      !entityFreeStatus[entity]
    }

    function IsFree(entity: EntityId): (r: bool)
      requires Valid()
      reads this, entityFreeStatus
      ensures r <==> entity in freeEntities
      ensures r == !IsAllocated(entity)
    {
      entityFreeStatus[entity]
    }

    /** Pops the most recently freed id and marks it allocated; with no id
        free the source throws, here an `Err`. */
    method Allocate() returns (r: Result<EntityId>)
      requires Valid()
      modifies this, entityFreeStatus
      ensures Valid()
      ensures old(|freeEntities|) == 0 ==> r.Err? && freeEntities == old(freeEntities)
      ensures old(|freeEntities|) > 0 ==>
        && r == Ok(old(freeEntities[|freeEntities| - 1]))
        && old(IsFree(r.value))
        && freeEntities == old(freeEntities[..|freeEntities| - 1])
        && IsAllocated(r.value)
      ensures forall e: EntityId :: r.Ok? && e != r.value ==> entityFreeStatus[e] == old(entityFreeStatus[e])
      ensures r.Err? ==> entityFreeStatus[..] == old(entityFreeStatus[..])
    {
      if |freeEntities| > 0 {
        var result := freeEntities[|freeEntities| - 1];
        freeEntities := freeEntities[..|freeEntities| - 1];
        entityFreeStatus[result] := false;
        r := Ok(result);
        forall e: EntityId ensures entityFreeStatus[e] <==> e in freeEntities {
          assert e in old(freeEntities) <==> e in freeEntities || e == result;
        }
      } else {
        r := Err("[EntityAllocator] No free entities left to allocate!");
      }
    }

    /** Frees an allocated id by pushing it; freeing a free id changes nothing. */
    method Free(entity: EntityId)
      requires Valid()
      modifies this, entityFreeStatus
      ensures Valid()
      ensures old(IsAllocated(entity)) ==> freeEntities == old(freeEntities) + [entity]
      ensures !old(IsAllocated(entity)) ==> freeEntities == old(freeEntities)
      ensures IsFree(entity)
      ensures forall e: EntityId :: e != entity ==> entityFreeStatus[e] == old(entityFreeStatus[e])
    {
      if !entityFreeStatus[entity] {
        entityFreeStatus[entity] := true;
        freeEntities := freeEntities + [entity];
      }
    }
  }

  /** The stack discipline: the id freed last is the next one allocated. */
  method FreeThenAllocate(a: EntityAllocator, entity: EntityId) returns (r: Result<EntityId>)
    requires a.Valid() && a.IsAllocated(entity)
    modifies a, a.entityFreeStatus
    ensures a.Valid()
    ensures r == Ok(entity)
    ensures a.freeEntities == old(a.freeEntities)
  {
    a.Free(entity);
    r := a.Allocate();
  }
}
