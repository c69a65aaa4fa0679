/** TagMask: a value-type set of up to 64 tags, stored in the bits of a long
    (Assets/Scripts/ECS/Storage/TagMask.cs). Every operation returns the
    updated copy, as the C# struct's methods do. */
module TagMasks {
  import opened BitMask64

  /** `TagMask.MAX_ENTRIES`. */
  const MAX_ENTRIES: int := 64

  datatype TagMask = TagMask(val: bv64)

  /** The tags a mask holds. */
  ghost function Tags(m: TagMask): iset<Position> {
    Bits(m.val)
  }

  /** `TagMask.Empty`: the default struct, with no bit set. */
  function Empty(): (m: TagMask)
    ensures Tags(m) == iset{}
  {
    BitsZero();
    TagMask(0)
  }

  /** `TagMask.Full`: the empty mask inverted. */
  function Full(): (m: TagMask)
    ensures Tags(m) == AllPositions()
    ensures forall p: Position :: p in Tags(m)
  {
    Invert(Empty())
  }

  function IsEmpty(m: TagMask): (r: bool)
    ensures r <==> Tags(m) == iset{}
  {
    ZeroIff(m.val);
    m.val == 0
  }

  /** `new TagMask(tag)`: `1L << tag`, whose shift count C# takes modulo 64. */
  function Single(tag: bv8): (m: TagMask)
    ensures Tags(m) == iset{ShiftPosition(tag)}
  {
    BitsSingle(ShiftPosition(tag));
    TagMask(1 << ShiftPosition(tag))
  }

  /** Every tag of `other` is in `m`. */
  function Has(m: TagMask, other: TagMask): (r: bool)
    ensures r <==> Tags(other) <= Tags(m)
  {
    SubsetIff(other.val, m.val);
    other.val & m.val == other.val
  }

  /** No tag of `other` is in `m`. */
  function NotHas(m: TagMask, other: TagMask): (r: bool)
    ensures r <==> Tags(other) * Tags(m) == iset{}
  {
    DisjointIff(other.val, m.val);
    other.val & m.val == 0
  }

  function Add(m: TagMask, other: TagMask): (r: TagMask)
    ensures Tags(r) == Tags(m) + Tags(other)
    ensures Has(r, other) && Has(r, m)
  {
    BitsOr(m.val, other.val);
    TagMask(m.val | other.val)
  }

  function Remove(m: TagMask, other: TagMask): (r: TagMask)
    ensures Tags(r) == Tags(m) - Tags(other)
    ensures NotHas(r, other)
    ensures forall p: Position :: p !in Tags(other) ==> (p in Tags(r) <==> p in Tags(m))
  {
    BitsAndNot(m.val, other.val);
    TagMask(m.val & !other.val)
  }

  function Invert(m: TagMask): (r: TagMask)
    ensures Tags(r) == AllPositions() - Tags(m)
  {
    BitsNot(m.val);
    TagMask(!m.val)
  }

  function Clear(m: TagMask): (r: TagMask)
    ensures IsEmpty(r)
  {
    TagMask(0)
  }

  /** `operator +`: the union of the two masks. */
  function Plus(m1: TagMask, m2: TagMask): (r: TagMask)
    ensures Tags(r) == Tags(m1) + Tags(m2)
  {
    Add(m1, m2)
  }

  /** `operator -`: the tags of `m1` that are not in `m2`. */
  function Minus(m1: TagMask, m2: TagMask): (r: TagMask)
    ensures Tags(r) == Tags(m1) - Tags(m2)
  {
    Remove(m1, m2)
  }

  /** Inverting twice gives the mask back. */
  lemma {:induction false} InvertInvolution(m: TagMask)
    ensures Invert(Invert(m)) == m
  {
    BitsInjective(Invert(Invert(m)).val, m.val);
  }

  /** Every mask both has and does not have the empty mask. */
  lemma EmptyIsNeutral(m: TagMask)
    ensures Has(m, Empty()) && NotHas(m, Empty())
  {
  }

  /** The full mask has every mask. */
  lemma FullHasEvery(m: TagMask)
    ensures Has(Full(), m)
  {
  }

  /** Two masks with the same tags are the same mask. */
  lemma {:induction false} TagsDetermineMask(a: TagMask, b: TagMask)
    requires Tags(a) == Tags(b)
    ensures a == b
  {
    BitsInjective(a.val, b.val);
  }

  /** A single-tag mask for a tag below 64 holds exactly that tag. */
  lemma SingleBelowLimit(tag: bv8)
    requires tag < 64
    ensures Tags(Single(tag)) == iset{tag as bv64}
  {
  }
}
