/** The older EntityContainer (Assets/Scripts/ECS/EntityContainer.cs): one
    payload container per component id and one 256-bit mask per entity, with
    no allocator. The mask array holds the C# struct by value, so an in-place
    `entities[entity].Set(comp)` is an update of that slot. Component types are
    modelled by their ids and payload types by the type parameter `V`. */
module EntityContainers {
  import opened Common
  import opened WideMasks
  import opened ComponentContainers

  /** The ids below `n` whose mask has every component of `mask`, ascending. */
  function Holding(s: seq<WideMask>, n: nat, mask: WideMask): (r: seq<EntityId>)
    requires n <= |s| <= MAX_ENTITIES
    ensures |r| <= n
    decreases n
  {
    if n == 0 then []
    else Holding(s, n - 1, mask) + (if Has(s[n - 1], mask) then [(n - 1) as EntityId] else [])
  }

  /** An id is listed exactly when it is below `n` and its mask has `mask`. */
  lemma {:induction false} HoldingMembers(s: seq<WideMask>, n: nat, mask: WideMask)
    requires n <= |s| <= MAX_ENTITIES
    ensures forall e: EntityId :: e in Holding(s, n, mask) <==> e < n && Has(s[e], mask)
    decreases n
  {
    if n > 0 {
      HoldingMembers(s, n - 1, mask);
      var last := if Has(s[n - 1], mask) then [(n - 1) as EntityId] else [];
      assert Holding(s, n, mask) == Holding(s, n - 1, mask) + last;
      assert forall e: EntityId :: e in Holding(s, n, mask) <==> e in Holding(s, n - 1, mask) || e in last;
    }
  }

  /** Every listed id is below `n`. */
  lemma {:induction false} HoldingBelow(s: seq<WideMask>, n: nat, mask: WideMask)
    requires n <= |s| <= MAX_ENTITIES
    ensures forall i :: 0 <= i < |Holding(s, n, mask)| ==> Holding(s, n, mask)[i] < n
    decreases n
  {
    if n > 0 {
      HoldingBelow(s, n - 1, mask);
      var q := Holding(s, n - 1, mask);
      var r := Holding(s, n, mask);
      assert forall i :: 0 <= i < |q| ==> r[i] == q[i];
    }
  }

  /** The list is strictly ascending. */
  lemma {:induction false} HoldingAscending(s: seq<WideMask>, n: nat, mask: WideMask)
    requires n <= |s| <= MAX_ENTITIES
    ensures forall i, j :: 0 <= i < j < |Holding(s, n, mask)| ==> Holding(s, n, mask)[i] < Holding(s, n, mask)[j]
    decreases n
  {
    if n > 0 {
      HoldingAscending(s, n - 1, mask);
      HoldingBelow(s, n - 1, mask);
      var q := Holding(s, n - 1, mask);
      var r := Holding(s, n, mask);
      assert forall i :: 0 <= i < |q| ==> r[i] == q[i];
    }
  }

  class EntityContainer<V> {
    const containers: seq<ComponentContainer<V>>
    const entities: array<WideMask>

    ghost predicate Valid() {
      && entities.Length == MAX_ENTITIES
      && |containers| <= 255
      && (forall c :: 0 <= c < |containers| ==> containers[c].Valid())
      && (forall c, d :: 0 <= c < d < |containers| ==> containers[c].Data != containers[d].Data)
      && (forall c :: 0 <= c < |containers| ==> containers[c].Data as object != entities as object)
    }

    /** One fresh container per component id; every entity has the default
        (all-zero) mask. */
    constructor(componentCount: nat, defaultValue: V)
      requires componentCount <= 255
      ensures Valid()
      ensures |containers| == componentCount
      ensures forall e: EntityId, d: bv8 :: !HasComponent(e, d)
      ensures forall e: EntityId, c :: 0 <= c < componentCount ==> containers[c].Get(e) == defaultValue
    {
      var cs: seq<ComponentContainer<V>> := [];
      var comp := 0;
      while comp < componentCount
        invariant 0 <= comp <= componentCount
        invariant |cs| == comp
        invariant forall c :: 0 <= c < comp ==> fresh(cs[c]) && fresh(cs[c].Data) && cs[c].Valid()
        invariant forall c, d :: 0 <= c < d < comp ==> cs[c].Data != cs[d].Data
        invariant forall c :: 0 <= c < comp ==> forall e: EntityId :: cs[c].Get(e) == defaultValue
      {
        var container := new ComponentContainer(defaultValue);
        cs := cs + [container];
        comp := comp + 1;
      }
      containers := cs;
      var zero := Cleared(WideMask(0, 0, 0, 0));
      entities := new WideMask[MAX_ENTITIES](_ => zero);
    }

    /** Clears the list, then appends, ascending, every id whose mask has
        every component of `mask`. */
    method GetEntities(mask: WideMask) returns (outputList: seq<EntityId>)
      requires Valid()
      ensures outputList == Holding(entities[..], MAX_ENTITIES, mask)
      ensures forall e: EntityId :: e in outputList <==> Has(entities[e], mask)
    {
      ghost var s := entities[..];
      outputList := [];
      var entity := 0;
      while entity < MAX_ENTITIES
        invariant 0 <= entity <= MAX_ENTITIES
        invariant outputList == Holding(s, entity, mask)
      {
        assert entities[entity] == s[entity];
        if Has(entities[entity], mask) {
          outputList := outputList + [entity];
        }
        entity := entity + 1;
      }
      HoldingMembers(s, MAX_ENTITIES, mask);
    }

    function HasComponents(entity: EntityId, mask: WideMask): (r: bool)
      requires Valid()
      reads entities
      ensures r <==> Has(entities[entity], mask)
    {
      Has(entities[entity], mask)
    }

    /** `entities[entity].Has(comp)`: the single-component mask test, which
        holds exactly when component `comp`'s bit is set. */
    function HasComponent(entity: EntityId, comp: bv8): (r: bool)
      requires Valid()
      reads entities
      ensures r <==> Contains(entities[entity], comp)
    {
      HasSingleIff(entities[entity], comp);
      Has(entities[entity], Single(comp))
    }

    function GetComponent(entity: EntityId, comp: bv8): (v: V)
      requires Valid() && comp as int < |containers|
      reads containers[comp].Data
      ensures v == containers[comp].Data[..][entity]
    {
      containers[comp].Get(entity)
    }

    /** Stores the payload and sets the component's bit. */
    method SetComponent(entity: EntityId, comp: bv8, data: V)
      requires Valid() && comp as int < |containers|
      modifies containers[comp].Data, entities
      ensures GetComponent(entity, comp) == data
      ensures HasComponent(entity, comp)
      ensures entities[..] == old(entities[..])[entity := Set(old(entities[entity]), Single(comp))]
      ensures forall d: bv8 :: d != comp ==> (HasComponent(entity, d) <==> old(HasComponent(entity, d)))
      ensures forall e: EntityId, c :: 0 <= c < |containers| && (e != entity || c != comp as int) ==>
        containers[c].Get(e) == old(containers[c].Get(e))
    {
      SetComponentSpec(entities[entity], comp);
      containers[comp].Set(entity, data);
      entities[entity] := Set(entities[entity], Single(comp));
    }

    /** Unsets only the component's bit; the payload is left stale. */
    method RemoveComponent(entity: EntityId, comp: bv8)
      requires Valid()
      modifies entities
      ensures !HasComponent(entity, comp)
      ensures entities[..] == old(entities[..])[entity := Unset(old(entities[entity]), Single(comp))]
      ensures forall d: bv8 :: d != comp ==> (HasComponent(entity, d) <==> old(HasComponent(entity, d)))
    {
      UnsetComponentSpec(entities[entity], comp);
      entities[entity] := Unset(entities[entity], Single(comp));
    }

    /** Leaves the entity with no component at all. */
    method RemoveAllComponents(entity: EntityId)
      requires Valid()
      modifies entities
      ensures entities[..] == old(entities[..])[entity := Cleared(old(entities[entity]))]
      ensures forall d: bv8 :: !HasComponent(entity, d)
    {
      entities[entity] := Cleared(entities[entity]);
    }
  }
}
