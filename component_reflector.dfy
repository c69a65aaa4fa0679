/** ComponentReflector (Assets/Scripts/ECS/Storage/ComponentReflector.cs):
    gives every component type a consecutive id in name order. As for tags,
    `types` stands for the filtered, name-sorted list of types reflection
    yields. */
module ComponentReflectors {
  import opened Common

  /** `CompID.MaxValue`: the byte id's largest value, and the length the C#
      code gives the id-to-type array. */
  const COMP_ID_MAX: int := 255

  class ComponentReflector<T(==,!new)> {
    var ComponentCount: int
    var typeToIDLookup: map<T, int>
    const idToTypeLookup: array<Option<T>>

    /** The lookups are inverse to each other on the ids below
        `ComponentCount`. */
    ghost predicate Valid()
      reads this, idToTypeLookup
    {
      && 0 <= ComponentCount <= idToTypeLookup.Length
      && (forall t :: t in typeToIDLookup ==>
            && 0 <= typeToIDLookup[t] < ComponentCount
            && idToTypeLookup[typeToIDLookup[t]] == Some(t))
      && (forall i :: 0 <= i < ComponentCount ==>
            && idToTypeLookup[i].Some?
            && idToTypeLookup[i].value in typeToIDLookup
            && typeToIDLookup[idToTypeLookup[i].value] == i)
    }

    /** The lookups before the registration loop, with `slots` entries in the
        id-to-type array. */
    constructor Init(slots: nat)
      ensures fresh(idToTypeLookup) && idToTypeLookup.Length == slots
      ensures Valid() && ComponentCount == 0 && typeToIDLookup == map[]
      ensures forall i :: 0 <= i < slots ==> idToTypeLookup[i] == None
    {
      ComponentCount := 0;
      typeToIDLookup := map[];
      idToTypeLookup := new Option<T>[slots](_ => None);
    }

    /** `typeToIDLookup.Add(type, id)` and `idToTypeLookup[id] = type` for
        the next type, whose id is its position in `types`. */
    method Register(types: seq<T>, id: int)
      requires Distinct(types) && Partial(this, types, id)
      requires id < |types| && id < idToTypeLookup.Length
      modifies this, idToTypeLookup
      ensures Partial(this, types, id + 1)
      ensures ComponentCount == old(ComponentCount)
    {
      var compType := types[id];
      typeToIDLookup := typeToIDLookup[compType := id];
      idToTypeLookup[id] := Some(compType);
      assert types[..id + 1] == types[..id] + [compType];
    }

    /** `GetID(type)`: throws for a type that was not registered. */
    function GetID(t: T): (r: Result<int>)
      requires Valid()
      reads this, idToTypeLookup
      ensures r.Ok? <==> t in typeToIDLookup
      ensures r.Ok? ==> 0 <= r.value < ComponentCount && idToTypeLookup[r.value] == Some(t)
    {
      if t in typeToIDLookup then Ok(typeToIDLookup[t])
      else Err("[ComponentReflector] type is not a known component")
    }

    /** `GetType(id)`: throws for an id at or above `ComponentCount`. */
    function GetType(id: bv8): (r: Result<T>)
      requires Valid()
      reads this, idToTypeLookup
      ensures r.Err? <==> id as int >= ComponentCount
      ensures r.Ok? ==> GetID(r.value) == Ok(id as int)
    {
      if id as int >= ComponentCount then Err("[ComponentReflector] id is higher then the component-count")
      else Ok(idToTypeLookup[id].value)
    }

    /** `IsComponent(type)`: the type was registered. */
    function IsComponent(t: T): (r: bool)
      requires Valid()
      reads this, idToTypeLookup
      ensures r <==> GetID(t).Ok?
    {
      t in typeToIDLookup
    }
  }

  /** The registered types are exactly `types`, with `types[i]` at id `i`. */
  ghost predicate Registered<T(!new)>(r: ComponentReflector<T>, types: seq<T>)
    reads r, r.idToTypeLookup
    requires r.Valid()
  {
    && r.ComponentCount == |types|
    && (forall t :: t in r.typeToIDLookup <==> t in types)
    && (forall i :: 0 <= i < |types| ==> r.GetID(types[i]) == Ok(i))
  }

  /** The lookups after the loop has registered `types[..n]`, before the
      count is stored: `types[j]` has id `j`, and the other slots are empty. */
  ghost predicate Partial<T(!new)>(r: ComponentReflector<T>, types: seq<T>, n: int)
    reads r, r.idToTypeLookup
  {
    && 0 <= n <= |types| && n <= r.idToTypeLookup.Length
    && (forall t :: t in r.typeToIDLookup <==> t in types[..n])
    && (forall j :: 0 <= j < n ==> types[j] in r.typeToIDLookup && r.typeToIDLookup[types[j]] == j)
    && (forall j :: 0 <= j < r.idToTypeLookup.Length ==> r.idToTypeLookup[j] == if j < n then Some(types[j]) else None)
  }

  /** Storing the count of all registered types makes the lookups valid and
      registers exactly `types`. */
  lemma PartialDone<T(!new)>(r: ComponentReflector<T>, types: seq<T>)
    requires Partial(r, types, |types|) && r.ComponentCount == |types|
    ensures r.Valid() && Registered(r, types)
  {
    assert types[..|types|] == types;
    forall t | t in r.typeToIDLookup
      ensures 0 <= r.typeToIDLookup[t] < r.ComponentCount && r.idToTypeLookup[r.typeToIDLookup[t]] == Some(t)
    {
      var j :| 0 <= j < |types| && types[j] == t;
    }
  }

  /** The constructor as written. The id-to-type array has 255 slots, so
      writing the 256th type at id 255 indexes past its end and throws an
      IndexOutOfRangeException; the `full` flag, meant to stop the 257th type,
      is never reached. Up to 255 types register, counted exactly. */
  method Create<T(==,!new)>(types: seq<T>) returns (r: Result<ComponentReflector<T>>)
    requires Distinct(types)
    ensures r.Err? <==> |types| > COMP_ID_MAX
    ensures r.Ok? ==> fresh(r.value) && r.value.Valid() && Registered(r.value, types)
  {
    var reflector := new ComponentReflector<T>.Init(COMP_ID_MAX);
    var id := 0;
    var full := false;
    var i := 0;
    while i < |types|
      invariant 0 <= i <= |types| && id == i && i <= COMP_ID_MAX && !full
      invariant fresh(reflector) && fresh(reflector.idToTypeLookup)
      invariant reflector.idToTypeLookup.Length == COMP_ID_MAX && reflector.ComponentCount == 0
      invariant Partial(reflector, types, i)
    {
      if full {
        return Err("[ComponentReflector] No more then '256' components are supported!");
      }
      if id >= reflector.idToTypeLookup.Length {
        // The id-to-type write throws; the reflector, with its half-done
        // type-to-id entry, is lost with the exception.
        return Err("IndexOutOfRangeException");
      }
      reflector.Register(types, id);
      if id == COMP_ID_MAX {
        full := true;
      } else {
        id := id + 1;
      }
      i := i + 1;
    }
    reflector.ComponentCount := id;
    PartialDone(reflector, types);
    r := Ok(reflector);
  }

  /** The constructor as its error message means it: 256 slots, one per byte
      id, and a count of the types actually registered, so 256 types all
      register with `ComponentCount == 256` and a 257th throws. */
  method CreateIntended<T(==,!new)>(types: seq<T>) returns (r: Result<ComponentReflector<T>>)
    requires Distinct(types)
    ensures r.Err? <==> |types| > COMP_ID_MAX + 1
    ensures r.Ok? ==> fresh(r.value) && r.value.Valid() && Registered(r.value, types)
  {
    var reflector := new ComponentReflector<T>.Init(COMP_ID_MAX + 1);
    var id := 0;
    var full := false;
    var i := 0;
    while i < |types|
      invariant 0 <= i <= |types| && i <= COMP_ID_MAX + 1
      invariant full <==> i == COMP_ID_MAX + 1
      invariant id == if full then COMP_ID_MAX else i
      invariant fresh(reflector) && fresh(reflector.idToTypeLookup)
      invariant reflector.idToTypeLookup.Length == COMP_ID_MAX + 1 && reflector.ComponentCount == 0
      invariant Partial(reflector, types, i)
    {
      if full {
        return Err("[ComponentReflector] No more then '256' components are supported!");
      }
      reflector.Register(types, id);
      if id == COMP_ID_MAX {
        full := true;
      } else {
        id := id + 1;
      }
      i := i + 1;
    }
    reflector.ComponentCount := if full then id + 1 else id;
    PartialDone(reflector, types);
    r := Ok(reflector);
  }
}
