/** ComponentContainer (Assets/Scripts/ECS/Storage/ComponentContainer.cs):
    one dense payload slot per entity id. The payload type is a parameter;
    a new container holds the type's default value in every slot. */
module ComponentContainers {
  import opened Common

  class ComponentContainer<V> {
    const Data: array<V>

    ghost predicate Valid() {
      Data.Length == MAX_ENTITIES
    }

    constructor(default: V)
      ensures Valid() && fresh(Data)
      ensures forall e: EntityId :: Get(e) == default
    {
      Data := new V[MAX_ENTITIES](_ => default);
    }

    /** A read of the entity's slot in the dense array, whose whole
        contents `Set`'s contract describes. */
    function Get(entity: EntityId): (v: V)
      requires Valid()
      reads Data
      ensures v == Data[..][entity]
    {
      Data[entity]
    }

    /** Overwrites slot `entity` and no other. */
    method Set(entity: EntityId, dataEntry: V)
      requires Valid()
      modifies Data
      ensures Get(entity) == dataEntry
      ensures forall e: EntityId :: e != entity ==> Get(e) == old(Get(e))
      ensures Data[..] == old(Data[..])[entity := dataEntry]
    {
      Data[entity] := dataEntry;
    }
  }
}
