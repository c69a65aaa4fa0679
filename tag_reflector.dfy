/** TagReflector (Assets/Scripts/ECS/Storage/TagReflector.cs): gives every tag
    type a consecutive id in name order and keeps both lookups. Reflection is
    not modelled: `types` is the filtered, name-sorted type list the C# query
    yields, and a type is any value of the parameter `T`. */
module TagReflectors {
  import opened Common
  import opened BitMask64
  import opened TagMasks

  /** `TagID.MaxValue`: the length of the id-to-type array. */
  const ID_SLOTS: int := 255

  class TagReflector<T(==,!new)> {
    var TagCount: int
    var typeToIDLookup: map<T, int>
    const idToTypeLookup: array<Option<T>>

    /** The two lookups are inverse to each other on the ids below
        `TagCount`, and every id fits a tag mask. */
    ghost predicate Valid()
      reads this, idToTypeLookup
    {
      && idToTypeLookup.Length == ID_SLOTS
      && 0 <= TagCount <= MAX_ENTRIES
      && (forall t :: t in typeToIDLookup ==>
            && 0 <= typeToIDLookup[t] < TagCount
            && idToTypeLookup[typeToIDLookup[t]] == Some(t))
      && (forall i :: 0 <= i < TagCount ==>
            && idToTypeLookup[i].Some?
            && idToTypeLookup[i].value in typeToIDLookup
            && typeToIDLookup[idToTypeLookup[i].value] == i)
    }

    /** The lookups before the registration loop: both empty. */
    constructor Init()
      ensures Valid() && fresh(idToTypeLookup)
      ensures TagCount == 0 && typeToIDLookup == map[]
      ensures forall i :: 0 <= i < ID_SLOTS ==> idToTypeLookup[i] == None
    {
      TagCount := 0;
      typeToIDLookup := map[];
      idToTypeLookup := new Option<T>[ID_SLOTS](_ => None);
    }

    /** `typeToIDLookup.Add(type, id)` and `idToTypeLookup[id] = type` for
        the next type, whose id is its position in `types`. */
    method Register(types: seq<T>, id: int)
      requires Distinct(types) && Partial(this, types, id)
      requires id < |types| && id < idToTypeLookup.Length
      modifies this, idToTypeLookup
      ensures Partial(this, types, id + 1)
      ensures TagCount == old(TagCount)
    {
      var tagType := types[id];
      typeToIDLookup := typeToIDLookup[tagType := id];
      idToTypeLookup[id] := Some(tagType);
      assert types[..id + 1] == types[..id] + [tagType];
    }

    /** `GetID(type)`: throws for a type that was not registered. */
    function GetID(t: T): (r: Result<int>)
      requires Valid()
      reads this, idToTypeLookup
      ensures r.Ok? <==> t in typeToIDLookup
      ensures r.Ok? ==> 0 <= r.value < TagCount && idToTypeLookup[r.value] == Some(t)
    {
      if t in typeToIDLookup then Ok(typeToIDLookup[t])
      else Err("[TagReflector] type is not a known tag")
    }

    /** `GetType(id)`: throws for an id at or above `TagCount`. */
    function GetType(id: bv8): (r: Result<T>)
      requires Valid()
      reads this, idToTypeLookup
      ensures r.Err? <==> id as int >= TagCount
      ensures r.Ok? ==> GetID(r.value) == Ok(id as int)
    {
      if id as int >= TagCount then Err("[TagReflector] id is higher then the tag-count")
      else Ok(idToTypeLookup[id].value)
    }

    /** `GetMask(type)`: the single-bit mask of the type's id. */
    function GetMask(t: T): (r: Result<TagMask>)
      requires Valid()
      reads this, idToTypeLookup
      ensures r.Ok? <==> GetID(t).Ok?
      ensures r.Ok? ==> Tags(r.value) == iset{GetID(t).value as bv64}
    {
      match GetID(t)
      case Err(msg) => Err(msg)
      case Ok(id) =>
        SingleBelowLimit(id as bv8);
        Ok(Single(id as bv8))
    }

    /** Round trip from a registered type through its id. */
    lemma TypeRoundTrip(t: T)
      requires Valid() && t in typeToIDLookup
      ensures GetID(t).Ok? && GetType(GetID(t).value as bv8) == Ok(t)
    {
    }
  }

  /** The registered types are exactly `types`, with `types[i]` at id `i`. */
  ghost predicate Registered<T(!new)>(r: TagReflector<T>, types: seq<T>)
    reads r, r.idToTypeLookup
    requires r.Valid()
  {
    && r.TagCount == |types|
    && (forall t :: t in r.typeToIDLookup <==> t in types)
    && (forall i :: 0 <= i < |types| ==> r.GetID(types[i]) == Ok(i))
  }

  /** The lookups after the loop has registered `types[..n]`, before the
      count is stored: `types[j]` has id `j`, and the other slots are empty. */
  ghost predicate Partial<T(!new)>(r: TagReflector<T>, types: seq<T>, n: int)
    reads r, r.idToTypeLookup
  {
    && 0 <= n <= |types| && n <= r.idToTypeLookup.Length
    && (forall t :: t in r.typeToIDLookup <==> t in types[..n])
    && (forall j :: 0 <= j < n ==> types[j] in r.typeToIDLookup && r.typeToIDLookup[types[j]] == j)
    && (forall j :: 0 <= j < r.idToTypeLookup.Length ==> r.idToTypeLookup[j] == if j < n then Some(types[j]) else None)
  }

  /** Storing the count of at most 64 registered types makes the lookups
      valid and registers exactly `types`. */
  lemma PartialDone<T(!new)>(r: TagReflector<T>, types: seq<T>)
    requires Partial(r, types, |types|) && r.TagCount == |types| <= MAX_ENTRIES
    requires r.idToTypeLookup.Length == ID_SLOTS
    ensures r.Valid() && Registered(r, types)
  {
    assert types[..|types|] == types;
    forall t | t in r.typeToIDLookup
      ensures 0 <= r.typeToIDLookup[t] < r.TagCount && r.idToTypeLookup[r.typeToIDLookup[t]] == Some(t)
    {
      var j :| 0 <= j < |types| && types[j] == t;
    }
  }

  /** The constructor as written: each type gets the next id, and the check
      after the increment throws as soon as the counter reaches 64, that is
      while registering the 64th tag. `types` are distinct, as the types of an
      assembly are. */
  method Create<T(==,!new)>(types: seq<T>) returns (r: Result<TagReflector<T>>)
    requires Distinct(types)
    ensures r.Err? <==> |types| >= MAX_ENTRIES
    ensures r.Ok? ==> fresh(r.value) && r.value.Valid() && Registered(r.value, types)
  {
    var reflector := new TagReflector<T>.Init();
    var id := 0;
    while id < |types|
      invariant 0 <= id <= |types| && id < MAX_ENTRIES
      invariant fresh(reflector) && fresh(reflector.idToTypeLookup)
      invariant reflector.idToTypeLookup.Length == ID_SLOTS && reflector.TagCount == 0
      invariant Partial(reflector, types, id)
    {
      reflector.Register(types, id);
      id := id + 1;
      if id >= MAX_ENTRIES {
        return Err("[TagReflector]] No more then '64' tags are supported!");
      }
    }
    reflector.TagCount := id;
    PartialDone(reflector, types);
    r := Ok(reflector);
  }

  /** The constructor with the limit checked before a type is registered, so
      the 64 tags a mask can hold are all accepted and a 65th throws. */
  method CreateIntended<T(==,!new)>(types: seq<T>) returns (r: Result<TagReflector<T>>)
    requires Distinct(types)
    ensures r.Err? <==> |types| > MAX_ENTRIES
    ensures r.Ok? ==> fresh(r.value) && r.value.Valid() && Registered(r.value, types)
  {
    var reflector := new TagReflector<T>.Init();
    var id := 0;
    while id < |types|
      invariant 0 <= id <= |types| && id <= MAX_ENTRIES
      invariant fresh(reflector) && fresh(reflector.idToTypeLookup)
      invariant reflector.idToTypeLookup.Length == ID_SLOTS && reflector.TagCount == 0
      invariant Partial(reflector, types, id)
    {
      if id >= MAX_ENTRIES {
        return Err("[TagReflector]] No more then '64' tags are supported!");
      }
      reflector.Register(types, id);
      id := id + 1;
    }
    reflector.TagCount := id;
    PartialDone(reflector, types);
    r := Ok(reflector);
  }
}
