/** EntityTagContainer (Assets/Scripts/ECS/Storage/EntityTagContainer.cs):
    one tag mask per entity id, updated in place, and an ascending query over
    all ids. The per-entity locks and the query lock are not modelled; every
    operation is taken to run alone. */
module EntityTagContainers {
  import opened Common
  import opened BitMask64
  import opened TagMasks
  import opened EntitySets

  /** The query's test: all of `required` and none of `illegal`. */
  predicate Matches(m: TagMask, required: TagMask, illegal: TagMask) {
    Has(m, required) && NotHas(m, illegal)
  }

  /** The test as the scan writes it, with `noIllegal` computed once before
      the loop. */
  predicate ScanTest(m: TagMask, required: TagMask, illegal: TagMask, noIllegal: bool) {
    Has(m, required) && (noIllegal || NotHas(m, illegal))
  }

  /** The ids below `n` whose mask matches, in ascending order. */
  function Query(s: seq<TagMask>, n: nat, required: TagMask, illegal: TagMask): (r: seq<EntityId>)
    requires n <= |s| <= MAX_ENTITIES
    ensures |r| <= n
    decreases n
  {
    if n == 0 then []
    else
      Query(s, n - 1, required, illegal)
        + (if Matches(s[n - 1], required, illegal) then [(n - 1) as EntityId] else [])
  }

  /** An id is in the query's result exactly when it is below `n` and its mask
      matches. */
  lemma {:induction false} QueryMembers(s: seq<TagMask>, n: nat, required: TagMask, illegal: TagMask)
    requires n <= |s| <= MAX_ENTITIES
    ensures forall e: EntityId :: e in Query(s, n, required, illegal) <==> e < n && Matches(s[e], required, illegal)
    decreases n
  {
    if n > 0 {
      QueryMembers(s, n - 1, required, illegal);
      var last := if Matches(s[n - 1], required, illegal) then [(n - 1) as EntityId] else [];
      assert Query(s, n, required, illegal) == Query(s, n - 1, required, illegal) + last;
      assert forall e: EntityId :: e in Query(s, n, required, illegal) <==> e in Query(s, n - 1, required, illegal) || e in last;
    }
  }

  /** Every listed id is below `n`. */
  lemma {:induction false} QueryBelow(s: seq<TagMask>, n: nat, required: TagMask, illegal: TagMask)
    requires n <= |s| <= MAX_ENTITIES
    ensures forall i :: 0 <= i < |Query(s, n, required, illegal)| ==> Query(s, n, required, illegal)[i] < n
    decreases n
  {
    if n > 0 {
      QueryBelow(s, n - 1, required, illegal);
      var q := Query(s, n - 1, required, illegal);
      var r := Query(s, n, required, illegal);
      assert forall i :: 0 <= i < |q| ==> r[i] == q[i];
    }
  }

  /** The result is strictly ascending, so it lists every id at most once. */
  lemma {:induction false} QueryAscending(s: seq<TagMask>, n: nat, required: TagMask, illegal: TagMask)
    requires n <= |s| <= MAX_ENTITIES
    ensures forall i, j :: 0 <= i < j < |Query(s, n, required, illegal)| ==>
      Query(s, n, required, illegal)[i] < Query(s, n, required, illegal)[j]
    decreases n
  {
    if n > 0 {
      QueryAscending(s, n - 1, required, illegal);
      QueryBelow(s, n - 1, required, illegal);
      var q := Query(s, n - 1, required, illegal);
      var r := Query(s, n, required, illegal);
      assert forall i :: 0 <= i < |q| ==> r[i] == q[i];
    }
  }

  /** With an empty illegal mask the scan skips the disjointness test; that
      gives the same answer as the full test. */
  lemma ShortcutAgrees(m: TagMask, required: TagMask, illegal: TagMask)
    ensures ScanTest(m, required, illegal, IsEmpty(illegal)) == Matches(m, required, illegal)
  {
  }

  class EntityTagContainer {
    const entities: array<TagMask>

    ghost predicate Valid()
      reads this
    {
      entities.Length == MAX_ENTITIES
    }

    /** Every entity starts with no tags. */
    constructor()
      ensures Valid() && fresh(entities)
      ensures forall e: EntityId :: entities[e] == Empty()
    {
      entities := new TagMask[MAX_ENTITIES](_ => Empty());
    }

    /** The entity's mask holds every tag of `mask`. */
    function HasTags(entity: EntityId, mask: TagMask): (r: bool)
      requires Valid()
      reads this, entities
      ensures r <==> Tags(mask) <= Tags(entities[entity])
    {
      Has(entities[entity], mask)
    }

    /** ORs `mask` into the entity's mask; no other entity changes. */
    method SetTags(entity: EntityId, mask: TagMask)
      requires Valid()
      modifies entities
      ensures entities[..] == old(entities[..])[entity := Add(old(entities[entity]), mask)]
      ensures Tags(entities[entity]) == old(Tags(entities[entity])) + Tags(mask)
      ensures HasTags(entity, mask)
    {
      entities[entity] := Add(entities[entity], mask);
    }

    /** Clears the bits of `mask` in the entity's mask; no other entity
        changes. */
    method RemoveTags(entity: EntityId, mask: TagMask)
      requires Valid()
      modifies entities
      ensures entities[..] == old(entities[..])[entity := Remove(old(entities[entity]), mask)]
      ensures Tags(entities[entity]) == old(Tags(entities[entity])) - Tags(mask)
      ensures NotHas(entities[entity], mask)
    {
      entities[entity] := Remove(entities[entity], mask);
    }

    /** Clears `outputSet`, then adds, in ascending order, every id whose mask
        matches. */
    method GetEntities(requiredTags: TagMask, illegalTags: TagMask, outputSet: EntitySet)
      requires Valid() && outputSet.Valid()
      modifies outputSet, outputSet.Data
      ensures outputSet.Valid()
      ensures outputSet.Contents() == Query(entities[..], MAX_ENTITIES, requiredTags, illegalTags)
      ensures forall e: EntityId :: e in outputSet.Contents() <==> Matches(entities[e], requiredTags, illegalTags)
    {
      outputSet.Clear();
      ScanInto(requiredTags, illegalTags, outputSet);
      QueryMembers(entities[..], MAX_ENTITIES, requiredTags, illegalTags);
    }

    /** The scan of `GetEntities` into the cleared set. */
    method ScanInto(requiredTags: TagMask, illegalTags: TagMask, outputSet: EntitySet)
      requires Valid() && outputSet.Valid() && outputSet.Count == 0
      modifies outputSet, outputSet.Data
      ensures outputSet.Valid()
      ensures outputSet.Contents() == Query(entities[..], MAX_ENTITIES, requiredTags, illegalTags)
    {
      ghost var s := entities[..];
      var noIllegalComps := IsEmpty(illegalTags);
      var entity := 0;
      while entity < MAX_ENTITIES
        invariant 0 <= entity <= MAX_ENTITIES
        invariant outputSet.Valid() && outputSet.Count <= entity
        invariant outputSet.Contents() == Query(s, entity, requiredTags, illegalTags)
        invariant entities[..] == s
      {
        ShortcutAgrees(s[entity], requiredTags, illegalTags);
        if ScanTest(entities[entity], requiredTags, illegalTags, noIllegalComps) {
          outputSet.Add(entity);
        }
        entity := entity + 1;
      }
    }

    /** Counts the ids `GetEntities` would list, without listing them. */
    method GetEntityCount(requiredTags: TagMask, illegalTags: TagMask) returns (count: int)
      requires Valid()
      ensures count == |Query(entities[..], MAX_ENTITIES, requiredTags, illegalTags)|
    {
      count := 0;
      var noIllegalComps := IsEmpty(illegalTags);
      var entity := 0;
      while entity < MAX_ENTITIES
        invariant 0 <= entity <= MAX_ENTITIES
        invariant count == |Query(entities[..], entity, requiredTags, illegalTags)|
      {
        ShortcutAgrees(entities[entity], requiredTags, illegalTags);
        if ScanTest(entities[entity], requiredTags, illegalTags, noIllegalComps) {
          count := count + 1;
        }
        entity := entity + 1;
      }
    }
  }
}
