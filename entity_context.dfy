/** EntityContext (Assets/Scripts/ECS/Storage/EntityContext.cs): the façade
    that creates and removes entities and sets and removes their components.
    It owns an entity allocator, one payload container per component id and
    one 64-bit component mask per entity.

    The component types the reflector discovers become the ids
    `0 .. componentCount - 1`: a C# `GetID<T>()` is modelled by passing the id,
    and every payload type by the one type parameter `V`. The reader and writer
    counters and the monitor on the mask array are not modelled. */
module EntityContexts {
  import opened Common
  import opened BitMask64
  import opened TagMasks
  import opened ComponentMasks
  import opened EntityAllocators
  import opened ComponentContainers
  import EntityTagContainers

  class EntityContext<V> {
    const entityAllocator: EntityAllocator
    /** `containers[comp]` stores the payloads of component `comp`. */
    const containers: seq<ComponentContainer<V>>
    /** `entities[e]`: the components entity `e` has. */
    const entities: array<ComponentMask>

    /** The lengths and the separation of the arrays; it reads no mutable
        state. */
    ghost predicate Shape() {
      && entities.Length == MAX_ENTITIES
      && |containers| <= 255
      && (forall c :: 0 <= c < |containers| ==> containers[c].Valid())
      && (forall c, d :: 0 <= c < d < |containers| ==> containers[c].Data != containers[d].Data)
      && (forall c :: 0 <= c < |containers| ==>
            && containers[c].Data as object != entities as object
            && containers[c].Data as object != entityAllocator.entityFreeStatus as object)
    }

    ghost predicate Valid()
      reads this, entityAllocator, entityAllocator.entityFreeStatus
    {
      Shape() && entityAllocator.Valid()
    }

    /** One fresh container per component id, every entity free and with an
        empty mask. `defaultValue` is the payload type's default. */
    constructor(componentCount: nat, defaultValue: V)
      requires componentCount <= 255
      ensures Valid()
      ensures |containers| == componentCount
      ensures forall e: EntityId :: !HasEntity(e)
      ensures forall e: EntityId :: IsEmpty(entities[e])
      ensures forall e: EntityId, c :: 0 <= c < componentCount ==> containers[c].Get(e) == defaultValue
    {
      var cs: seq<ComponentContainer<V>> := [];
      var comp := 0;
      while comp < componentCount
        invariant 0 <= comp <= componentCount
        invariant |cs| == comp
        invariant forall c :: 0 <= c < comp ==> fresh(cs[c]) && fresh(cs[c].Data) && cs[c].Valid()
        invariant forall c, d :: 0 <= c < d < comp ==> cs[c].Data != cs[d].Data
        invariant forall c :: 0 <= c < comp ==> forall e: EntityId :: cs[c].Get(e) == defaultValue
      {
        var container := new ComponentContainer(defaultValue);
        cs := cs + [container];
        comp := comp + 1;
      }
      entityAllocator := new EntityAllocator();
      containers := cs;
      entities := new ComponentMask[MAX_ENTITIES](_ => Empty());
      new;
      forall e: EntityId ensures !HasEntity(e) {
        assert entityAllocator.IsFree(e);
      }
    }

    function HasEntity(entity: EntityId): (r: bool)
      requires Valid()
      reads this, entityAllocator, entityAllocator.entityFreeStatus
      ensures r <==> entity !in entityAllocator.freeEntities
    {
      entityAllocator.IsAllocated(entity)
    }

    /** The entity's mask holds every component of `mask`. */
    function HasComponents(entity: EntityId, mask: ComponentMask): (r: bool)
      requires Shape()
      reads this, entities
      ensures r <==> Tags(mask) <= Tags(entities[entity])
    {
      Has(entities[entity], mask)
    }

    /** The entity's mask holds bit `comp mod 64`. */
    function HasComponent(entity: EntityId, comp: bv8): (r: bool)
      requires Shape()
      reads this, entities
      ensures r <==> ShiftPosition(comp) in Tags(entities[entity])
    {
      HasComponents(entity, CreateMask1(comp))
    }

    /** The payload stored for `comp` on `entity`, whether or not the entity
        has that component. */
    function GetComponent(entity: EntityId, comp: bv8): (v: V)
      requires Shape() && comp as int < |containers|
      reads containers[comp].Data
      ensures v == containers[comp].Data[..][entity]
    {
      containers[comp].Get(entity)
    }

    function GetMask1(comp: bv8): (m: ComponentMask)
      ensures Tags(m) == iset{ShiftPosition(comp)}
    {
      CreateMask1(comp)
    }

    /** As written: through `CreateMask(c1, c2)`, which keeps only `c1`. */
    function GetMask2(c1: bv8, c2: bv8): (m: ComponentMask)
      ensures Tags(m) == iset{ShiftPosition(c1)}
      ensures m == GetMask1(c1)
    {
      TagsDetermineMask(CreateMask2(c1, c2), CreateMask1(c1));
      CreateMask2(c1, c2)
    }

    /** Pops a free id from the allocator; `Err` when none is left. */
    method CreateEntity() returns (r: Result<EntityId>)
      requires Valid()
      modifies entityAllocator, entityAllocator.entityFreeStatus
      ensures Valid()
      ensures old(|entityAllocator.freeEntities|) == 0 <==> r.Err?
      ensures r.Ok? ==> !old(HasEntity(r.value)) && HasEntity(r.value)
      ensures forall e: EntityId :: r.Ok? && e != r.value ==> HasEntity(e) == old(HasEntity(e))
      ensures r.Err? ==> forall e: EntityId :: HasEntity(e) == old(HasEntity(e))
    {
      r := entityAllocator.Allocate();
    }

    /** Frees the id and clears its mask; the payloads stay as they were. */
    method RemoveEntity(entity: EntityId)
      requires Valid()
      modifies entityAllocator, entityAllocator.entityFreeStatus, entities
      ensures Valid()
      ensures !HasEntity(entity)
      ensures forall e: EntityId :: e != entity ==> HasEntity(e) == old(HasEntity(e))
      ensures entities[..] == old(entities[..])[entity := Clear(old(entities[entity]))]
      ensures IsEmpty(entities[entity])
      ensures forall c :: 0 <= c < |containers| ==> containers[c].Data[..] == old(containers[c].Data[..])
    {
      entityAllocator.Free(entity);
      entities[entity] := Clear(entities[entity]);
    }

    /** Returns the list the C# code refills: it is cleared first, then every
        matching id is appended in ascending order. */
    method GetEntities(requiredComps: ComponentMask, illegalComps: ComponentMask) returns (outputList: seq<EntityId>)
      requires Valid()
      ensures outputList == EntityTagContainers.Query(entities[..], MAX_ENTITIES, requiredComps, illegalComps)
      ensures forall e: EntityId :: e in outputList <==> EntityTagContainers.Matches(entities[e], requiredComps, illegalComps)
    {
      ghost var s := entities[..];
      outputList := [];
      var entity := 0;
      while entity < MAX_ENTITIES
        invariant 0 <= entity <= MAX_ENTITIES
        invariant outputList == EntityTagContainers.Query(s, entity, requiredComps, illegalComps)
      {
        assert entities[entity] == s[entity];
        if Has(entities[entity], requiredComps) && NotHas(entities[entity], illegalComps) {
          outputList := outputList + [entity];
        }
        entity := entity + 1;
      }
      EntityTagContainers.QueryMembers(s, MAX_ENTITIES, requiredComps, illegalComps);
    }

    /** Stores the payload and sets the component's bit. */
    method SetComponent(entity: EntityId, comp: bv8, data: V)
      requires Valid() && comp as int < |containers|
      modifies containers[comp].Data, entities
      ensures Valid()
      ensures GetComponent(entity, comp) == data
      ensures HasComponent(entity, comp)
      ensures entities[..] == old(entities[..])[entity := Add(old(entities[entity]), CreateMask1(comp))]
      ensures forall e: EntityId, c :: 0 <= c < |containers| && (e != entity || c != comp as int) ==>
        containers[c].Get(e) == old(containers[c].Get(e))
      ensures forall e: EntityId :: HasEntity(e) == old(HasEntity(e))
    {
      var compMask := CreateMask1(comp);
      containers[comp].Set(entity, data);
      entities[entity] := Add(entities[entity], compMask);
    }

    /** Clears the component's bit; the stored payload is left stale. */
    method RemoveComponent(entity: EntityId, comp: bv8)
      requires Valid()
      modifies entities
      ensures Valid()
      ensures !HasComponent(entity, comp)
      ensures entities[..] == old(entities[..])[entity := Remove(old(entities[entity]), GetMask1(comp))]
      ensures forall p: Position :: p != ShiftPosition(comp) ==>
        (p in Tags(entities[entity]) <==> p in old(Tags(entities[entity])))
      ensures forall c :: 0 <= c < |containers| ==> containers[c].Data[..] == old(containers[c].Data[..])
    {
      var compMask := GetMask1(comp);
      entities[entity] := Remove(entities[entity], compMask);
    }
  }
}
