/** The storage-layer ComponentMask (Assets/Scripts/ECS/Storage/ComponentMask.cs).
    Its fields and bit operations are those of TagMask, one long with the
    same Has, NotHas, Add, Remove, Invert and Clear bodies, so it is the same
    value type here; what it adds are the CreateMask helpers. */
module ComponentMasks {
  import opened BitMask64
  import opened TagMasks

  type ComponentMask = TagMask

  /** `CreateMask(comp1)`. */
  function CreateMask1(c1: bv8): (m: ComponentMask)
    ensures Tags(m) == iset{ShiftPosition(c1)}
  {
    Single(c1)
  }

  /** `CreateMask(comp1, comp2)` as written: both operands are built from
      `comp1`, so `comp2` never reaches the mask. */
  function CreateMask2(c1: bv8, c2: bv8): (m: ComponentMask)
    ensures Tags(m) == iset{ShiftPosition(c1)}
  {
    Add(Single(c1), Single(c1))
  }

  /** `CreateMask(comp1, comp2)` as its name and its three- and four-argument
      siblings evidently intend it. */
  function CreateMask2Intended(c1: bv8, c2: bv8): (m: ComponentMask)
    ensures Tags(m) == iset{ShiftPosition(c1), ShiftPosition(c2)}
  {
    Add(Single(c1), Single(c2))
  }

  function CreateMask3(c1: bv8, c2: bv8, c3: bv8): (m: ComponentMask)
    ensures Tags(m) == iset{ShiftPosition(c1), ShiftPosition(c2), ShiftPosition(c3)}
  {
    Add(Add(Single(c1), Single(c2)), Single(c3))
  }

  function CreateMask4(c1: bv8, c2: bv8, c3: bv8, c4: bv8): (m: ComponentMask)
    ensures Tags(m) == iset{ShiftPosition(c1), ShiftPosition(c2), ShiftPosition(c3), ShiftPosition(c4)}
  {
    Add(Add(Add(Single(c1), Single(c2)), Single(c3)), Single(c4))
  }

  /** The two-component mask as written misses `c2` whenever the two
      components differ (below 64, where no positions alias). */
  lemma {:induction false} CreateMask2DropsSecond(c1: bv8, c2: bv8)
    requires c1 < 64 && c2 < 64 && c1 != c2
    ensures !Has(CreateMask2(c1, c2), CreateMask1(c2))
    ensures CreateMask2(c1, c2) != CreateMask2Intended(c1, c2)
  {
    assert ShiftPosition(c2) !in Tags(CreateMask2(c1, c2));
  }

  /** The intended two-component mask has both components and nothing else. */
  lemma {:induction false} CreateMask2IntendedHasBoth(c1: bv8, c2: bv8)
    ensures Has(CreateMask2Intended(c1, c2), CreateMask1(c1))
    ensures Has(CreateMask2Intended(c1, c2), CreateMask1(c2))
    ensures CreateMask2Intended(c1, c2) == Plus(CreateMask1(c1), CreateMask1(c2))
  {
    TagsDetermineMask(CreateMask2Intended(c1, c2), Plus(CreateMask1(c1), CreateMask1(c2)));
  }

  /** Component ids are bytes but the mask has 64 bits: ids 64 apart share a bit. */
  lemma {:induction false} ComponentsAlias(c: bv8)
    requires c < 192
    ensures CreateMask1(c) == CreateMask1(c + 64)
  {
    assert ShiftPosition(c) == ShiftPosition(c + 64);
    TagsDetermineMask(CreateMask1(c), CreateMask1(c + 64));
  }
}
