/** EntityTask (Assets/Scripts/ECS/Tasks/EntityTask.cs): a SubtaskExecutor
    whose subtasks are the entities a mask query finds. The generic
    `EntityTask<Comp1, ..., Comp5>` variants differ only in how many component
    masks they add to the required mask, so they are one class here,
    parameterised by the component ids. Its query goes through the
    `GetEntities(TagMask, TagMask, EntitySet)` of
    Assets/Scripts/ECS/Storage/EntityTagContainer.cs, the one with that
    signature. The abstract `Execute(execID, entity)` is not modelled: a
    subtask is modelled by the entity it is handed. */
module EntityTasks {
  import opened Common
  import opened BitMask64
  import opened TagMasks
  import opened ComponentMasks
  import opened EntitySets
  import opened EntityTagContainers

  /** The base `GetRequiredTags`: the empty mask. */
  function BaseRequiredTags(): (m: TagMask)
    ensures IsEmpty(m) && Tags(m) == iset{}
  {
    Empty()
  }

  /** The base (and never overridden) `GetIllegalTags`: the empty mask. */
  function BaseIllegalTags(): (m: TagMask)
    ensures IsEmpty(m) && Tags(m) == iset{}
  {
    Empty()
  }

  /** `base.GetRequiredTags(context) + context.GetMask<Comp1>() + ...`: the
      base mask plus the mask of every component, left to right. */
  function RequiredTags(base: TagMask, comps: seq<bv8>): (m: TagMask)
    ensures forall p: Position :: p in Tags(m) <==>
      (p in Tags(base) || exists i :: 0 <= i < |comps| && ShiftPosition(comps[i]) == p)
    decreases |comps|
  {
    if |comps| == 0 then base
    else
      var prefix := RequiredTags(base, comps[..|comps| - 1]);
      var m := Plus(prefix, CreateMask1(comps[|comps| - 1]));
      assert forall p: Position :: p in Tags(m) <==>
          (p in Tags(base) || exists i :: 0 <= i < |comps| && ShiftPosition(comps[i]) == p) by {
        forall p: Position ensures p in Tags(m) <==>
            (p in Tags(base) || exists i :: 0 <= i < |comps| && ShiftPosition(comps[i]) == p) {
          var pre := comps[..|comps| - 1];
          if exists i :: 0 <= i < |pre| && ShiftPosition(pre[i]) == p {
            var i :| 0 <= i < |pre| && ShiftPosition(pre[i]) == p;
            assert comps[i] == pre[i];
          }
          if exists i :: 0 <= i < |comps| && ShiftPosition(comps[i]) == p {
            var i :| 0 <= i < |comps| && ShiftPosition(comps[i]) == p;
            if i < |comps| - 1 {
              assert pre[i] == comps[i];
            }
          }
        }
      }
      m
  }

  /** Every component of the task is required. */
  lemma RequiresEveryComponent(comps: seq<bv8>, i: int)
    requires 0 <= i < |comps|
    ensures Has(RequiredTags(BaseRequiredTags(), comps), CreateMask1(comps[i]))
  {
  }

  /** Entry `index` of the query's result matches, and every entry before it
      is a smaller id. */
  lemma QueryAt(s: seq<TagMask>, required: TagMask, illegal: TagMask, q: seq<EntityId>, index: int)
    requires |s| == MAX_ENTITIES && q == Query(s, MAX_ENTITIES, required, illegal)
    requires 0 <= index < |q|
    ensures Matches(s[q[index]], required, illegal)
    ensures forall j :: 0 <= j < index ==> q[j] < q[index]
  {
    QueryMembers(s, MAX_ENTITIES, required, illegal);
    QueryAscending(s, MAX_ENTITIES, required, illegal);
    assert q[index] in q;
  }

  class EntityTask {
    const context: EntityTagContainer
    const entities: EntitySet
    const requiredComponents: TagMask
    const illegalComponents: TagMask

    ghost predicate Valid()
      reads this, context, entities
    {
      context.Valid() && entities.Valid()
    }

    /** The entity set holds exactly what the query lists now. */
    ghost predicate Prepared()
      requires Valid()
      reads this, context, context.entities, entities, entities.Data
    {
      entities.Contents() == Query(context.entities[..], MAX_ENTITIES, requiredComponents, illegalComponents)
    }

    /** A fresh, empty entity set, the required mask of the components
        `comps` and the empty illegal mask. */
    constructor(context: EntityTagContainer, comps: seq<bv8>)
      requires context.Valid()
      ensures Valid() && fresh(entities) && fresh(entities.Data) && this.context == context
      ensures requiredComponents == RequiredTags(BaseRequiredTags(), comps)
      ensures illegalComponents == BaseIllegalTags()
      ensures entities.Count == 0
    {
      this.context := context;
      entities := new EntitySet();
      requiredComponents := RequiredTags(BaseRequiredTags(), comps);
      illegalComponents := BaseIllegalTags();
    }

    /** Refills the entity set with the query's result and returns its size:
        one subtask per matching entity. */
    method PrepareSubtasks() returns (count: int)
      requires Valid()
      modifies entities, entities.Data
      ensures Valid() && Prepared()
      ensures count == entities.Count
      ensures count == |Query(context.entities[..], MAX_ENTITIES, requiredComponents, illegalComponents)|
      ensures forall e: EntityId :: e in entities.Contents() <==>
        Matches(context.entities[e], requiredComponents, illegalComponents)
    {
      context.GetEntities(requiredComponents, illegalComponents, entities);
      count := entities.Count;
    }

    /** The entity that subtask `index` runs on, `entities.Data[index]`. After
        `PrepareSubtasks`, an index below the count names an entity that holds
        every required component and no illegal one, and the indices follow
        the entities in ascending order. */
    function SubtaskEntity(index: int): (e: EntityId)
      requires Valid() && 0 <= index < MAX_ENTITIES
      reads this, context, context.entities, entities, entities.Data
      ensures index < entities.Count ==> e == entities.Contents()[index]
      ensures index < entities.Count && Prepared() ==>
        Matches(context.entities[e], requiredComponents, illegalComponents)
      ensures forall j :: 0 <= j < index < entities.Count && Prepared() ==> entities.Contents()[j] < e
    {
      var e := entities.Data[index];
      assert index < entities.Count && Prepared() ==>
          && Matches(context.entities[e], requiredComponents, illegalComponents)
          && forall j :: 0 <= j < index ==> entities.Contents()[j] < e by {
        if index < entities.Count && Prepared() {
          QueryAt(context.entities[..], requiredComponents, illegalComponents, entities.Contents(), index);
        }
      }
      e
    }
  }
}
