/** The older 256-bit component mask (Assets/Scripts/ECS/ComponentMask.cs):
    four longs, component `c` living at bit `c % 64` of word `c / 64`. The
    C# struct's void methods update its four words in place; the
    functions here give each update's result as a value, and the class
    `ComponentMask` below performs them in place and is specified by them. */
module WideMasks {
  import opened BitMask64

  datatype WideMask = WideMask(w1: bv64, w2: bv64, w3: bv64, w4: bv64)

  /** The bit of its word that holds component `c`: `c % 64`. */
  function BitOf(c: bv8): Position {
    (c as bv64) & 63
  }

  /** Components `c` and `d` live in the same word: `c / 64 == d / 64`. */
  predicate SameWord(c: bv8, d: bv8) {
    c & 0xC0 == d & 0xC0
  }

  /** The word that holds component `c`. */
  function WordFor(m: WideMask, c: bv8): bv64 {
    if c < 64 then m.w1 else if c < 128 then m.w2 else if c < 192 then m.w3 else m.w4
  }

  /** Component `c` is in the mask. */
  predicate Contains(m: WideMask, c: bv8) {
    HasBit(WordFor(m, c), BitOf(c))
  }

  /** A shift count below 64, as the source's `comp - 0`, `comp - 64`, ... are. */
  function Shift(k: bv8): Position
    requires k < 64
  {
    k as bv64
  }

  /** `1L << p`: the word with only bit `p` set. */
  function BitWord(p: Position): bv64 {
    1 << p
  }

  lemma BitWordBit(p: Position, i: Position)
    ensures HasBit(BitWord(p), i) == (i == p)
  {
    BitSingle(p, i);
  }

  lemma BitsBitWord(p: Position)
    ensures Bits(BitWord(p)) == iset{p}
  {
    BitsSingle(p);
  }

  /** The four words the constructor computes for `comp`. */
  function Build(c: bv8): WideMask {
    WideMask(
      if c < 64 then BitWord(Shift(c - 0)) else 0,
      if c >= 64 && c < 128 then BitWord(Shift(c - 64)) else 0,
      if c >= 128 && c < 192 then BitWord(Shift(c - 128)) else 0,
      if c >= 192 then BitWord(Shift(c - 192)) else 0)
  }

  lemma BuildWord1(c: bv8)
    requires c < 64
    ensures Build(c).w1 == BitWord(BitOf(c))
  {
    assert Shift(c - 0) == BitOf(c);
  }

  lemma BuildWord2(c: bv8)
    requires 64 <= c < 128
    ensures Build(c).w2 == BitWord(BitOf(c))
  {
    assert Shift(c - 64) == BitOf(c);
  }

  lemma BuildWord3(c: bv8)
    requires 128 <= c < 192
    ensures Build(c).w3 == BitWord(BitOf(c))
  {
    assert Shift(c - 128) == BitOf(c);
  }

  lemma BuildWord4(c: bv8)
    requires 192 <= c
    ensures Build(c).w4 == BitWord(BitOf(c))
  {
    assert Shift(c - 192) == BitOf(c);
  }

  /** The word of `comp` holds the single bit `comp % 64`. */
  lemma {:induction false} BuildOwnWord(c: bv8)
    ensures WordFor(Build(c), c) == BitWord(BitOf(c))
  {
    if c < 64 {
      BuildWord1(c);
      assert WordFor(Build(c), c) == Build(c).w1;
    } else if c < 128 {
      BuildWord2(c);
      assert WordFor(Build(c), c) == Build(c).w2;
    } else if c < 192 {
      BuildWord3(c);
      assert WordFor(Build(c), c) == Build(c).w3;
    } else {
      BuildWord4(c);
      assert WordFor(Build(c), c) == Build(c).w4;
    }
  }

  /** Every other word is zero. */
  lemma BuildOtherWord(c: bv8, d: bv8)
    requires !SameWord(c, d)
    ensures WordFor(Build(c), d) == 0
  {}

  lemma SameWordFor(m: WideMask, c: bv8, d: bv8)
    requires SameWord(c, d)
    ensures WordFor(m, c) == WordFor(m, d)
  {}

  /** Different components occupy different (word, bit) slots. */
  lemma SameSlot(c: bv8, d: bv8)
    ensures (SameWord(c, d) && BitOf(c) == BitOf(d)) <==> c == d
  {}

  /** A word holding only bit `c % 64` holds, of its 64 components, just `c`. */
  lemma {:induction false} SingleBitWord(m: WideMask, c: bv8, d: bv8)
    requires SameWord(c, d) && WordFor(m, c) == BitWord(BitOf(c))
    ensures Contains(m, d) <==> d == c
  {
    SameSlot(c, d);
    SameWordFor(m, c, d);
    BitWordBit(BitOf(c), BitOf(d));
  }

  lemma {:induction false} BuildContainsSameWord(c: bv8, d: bv8)
    requires SameWord(c, d)
    ensures Contains(Build(c), d) <==> d == c
  {
    BuildOwnWord(c);
    SingleBitWord(Build(c), c, d);
  }

  lemma {:induction false} BuildContainsOtherWord(c: bv8, d: bv8)
    requires !SameWord(c, d)
    ensures !Contains(Build(c), d) && d != c
  {
    BuildOtherWord(c, d);
    BitsZero();
    assert BitOf(d) !in Bits(0);
  }

  /** `new ComponentMask(comp)`: bit `comp % 64` of word `comp / 64`, every
      other word zero; the mask holds `comp` and nothing else. */
  function Single(c: bv8): (m: WideMask)
    ensures WordFor(m, c) == BitWord(BitOf(c))
    ensures forall d: bv8 :: !SameWord(c, d) ==> WordFor(m, d) == 0
    ensures forall d: bv8 :: Contains(m, d) <==> d == c
  {
    BuildOwnWord(c);
    forall d: bv8 | !SameWord(c, d) ensures WordFor(Build(c), d) == 0 {
      BuildOtherWord(c, d);
    }
    forall d: bv8 ensures Contains(Build(c), d) <==> d == c {
      if SameWord(c, d) {
        BuildContainsSameWord(c, d);
      } else {
        BuildContainsOtherWord(c, d);
      }
    }
    Build(c)
  }

  /** One word of `Set(mask)`: `val |= other.val`. */
  function OrWord(a: bv64, b: bv64): bv64 {
    a | b
  }

  /** One word of `Unset(mask)`: `val &= ~other.val`. */
  function AndNotWord(a: bv64, b: bv64): bv64 {
    a & !b
  }

  lemma OrWordBit(a: bv64, b: bv64, p: Position)
    ensures HasBit(OrWord(a, b), p) == (HasBit(a, p) || HasBit(b, p))
  {
    BitOr(a, b, p);
  }

  lemma AndNotWordBit(a: bv64, b: bv64, p: Position)
    ensures HasBit(AndNotWord(a, b), p) == (HasBit(a, p) && !HasBit(b, p))
  {
    BitAndNot(a, b, p);
  }

  /** `Set(mask)`: word-wise OR. */
  function Set(m: WideMask, other: WideMask): WideMask {
    WideMask(OrWord(m.w1, other.w1), OrWord(m.w2, other.w2), OrWord(m.w3, other.w3), OrWord(m.w4, other.w4))
  }

  /** `Unset(mask)`: word-wise AND-NOT. */
  function Unset(m: WideMask, other: WideMask): WideMask {
    WideMask(AndNotWord(m.w1, other.w1), AndNotWord(m.w2, other.w2), AndNotWord(m.w3, other.w3), AndNotWord(m.w4, other.w4))
  }

  lemma SetWord(m: WideMask, other: WideMask, c: bv8)
    ensures WordFor(Set(m, other), c) == OrWord(WordFor(m, c), WordFor(other, c))
  {}

  lemma UnsetWord(m: WideMask, other: WideMask, c: bv8)
    ensures WordFor(Unset(m, other), c) == AndNotWord(WordFor(m, c), WordFor(other, c))
  {}

  /** After `Set(other)` the mask holds its old components and those of `other`. */
  lemma {:induction false} SetContains(m: WideMask, other: WideMask, d: bv8)
    ensures Contains(Set(m, other), d) <==> Contains(m, d) || Contains(other, d)
  {
    SetWord(m, other, d);
    OrWordBit(WordFor(m, d), WordFor(other, d), BitOf(d));
  }

  /** After `Unset(other)` the mask holds its old components not in `other`. */
  lemma {:induction false} UnsetContains(m: WideMask, other: WideMask, d: bv8)
    ensures Contains(Unset(m, other), d) <==> Contains(m, d) && !Contains(other, d)
  {
    UnsetWord(m, other, d);
    AndNotWordBit(WordFor(m, d), WordFor(other, d), BitOf(d));
  }

  /** One word of `Has(mask)`: `(other.val & val) == other.val`. */
  predicate SubsetWord(a: bv64, b: bv64) {
    (a & b) == a
  }

  lemma SubsetWordIff(a: bv64, b: bv64)
    ensures SubsetWord(a, b) <==> Bits(a) <= Bits(b)
  {
    SubsetIff(a, b);
  }

  /** `Has(mask)`: on every word, the bits of `other` are bits of `m`. */
  function Has(m: WideMask, other: WideMask): (r: bool)
    ensures r <==> Bits(other.w1) <= Bits(m.w1) && Bits(other.w2) <= Bits(m.w2) &&
                   Bits(other.w3) <= Bits(m.w3) && Bits(other.w4) <= Bits(m.w4)
  {
    SubsetWordIff(other.w1, m.w1);
    SubsetWordIff(other.w2, m.w2);
    SubsetWordIff(other.w3, m.w3);
    SubsetWordIff(other.w4, m.w4);
    SubsetWord(other.w1, m.w1) && SubsetWord(other.w2, m.w2) &&
    SubsetWord(other.w3, m.w3) && SubsetWord(other.w4, m.w4)
  }

  /** `Clear()`: all four words zero, so no component is held. */
  function Cleared(m: WideMask): (r: WideMask)
    ensures r.w1 == 0 && r.w2 == 0 && r.w3 == 0 && r.w4 == 0
    ensures forall d: bv8 :: !Contains(r, d)
  {
    BitsZero();
    forall d: bv8 ensures BitOf(d) !in Bits(WordFor(WideMask(0, 0, 0, 0), d)) {
    }
    WideMask(0, 0, 0, 0)
  }

  lemma ZeroWordSubset(w: bv64)
    ensures Bits(0) <= Bits(w)
  {
    BitsZero();
  }

  lemma SingleWordSubset(w: bv64, p: Position)
    ensures Bits(BitWord(p)) <= Bits(w) <==> HasBit(w, p)
  {
    BitsBitWord(p);
  }

  /** `Has(comp)`, which is `Has(new ComponentMask(comp))`, is membership of `comp`. */
  lemma {:induction false} HasSingleIff(m: WideMask, c: bv8)
    ensures Has(m, Single(c)) <==> Contains(m, c)
  {
    if c < 64 {
      HasSingle1(m, c);
    } else if c < 128 {
      HasSingle2(m, c);
    } else if c < 192 {
      HasSingle3(m, c);
    } else {
      HasSingle4(m, c);
    }
  }

  lemma {:induction false} HasSingle1(m: WideMask, c: bv8)
    requires c < 64
    ensures Has(m, Single(c)) <==> Contains(m, c)
  {
    var s := Single(c);
    assert WordFor(m, c) == m.w1 && WordFor(s, c) == s.w1;
    SingleWordSubset(m.w1, BitOf(c));
    assert s.w2 == WordFor(s, 64) && s.w3 == WordFor(s, 128) && s.w4 == WordFor(s, 192);
    ZeroWordSubset(m.w2);
    ZeroWordSubset(m.w3);
    ZeroWordSubset(m.w4);
  }

  lemma {:induction false} HasSingle2(m: WideMask, c: bv8)
    requires 64 <= c < 128
    ensures Has(m, Single(c)) <==> Contains(m, c)
  {
    var s := Single(c);
    assert WordFor(m, c) == m.w2 && WordFor(s, c) == s.w2;
    SingleWordSubset(m.w2, BitOf(c));
    assert s.w1 == WordFor(s, 0) && s.w3 == WordFor(s, 128) && s.w4 == WordFor(s, 192);
    ZeroWordSubset(m.w1);
    ZeroWordSubset(m.w3);
    ZeroWordSubset(m.w4);
  }

  lemma {:induction false} HasSingle3(m: WideMask, c: bv8)
    requires 128 <= c < 192
    ensures Has(m, Single(c)) <==> Contains(m, c)
  {
    var s := Single(c);
    assert WordFor(m, c) == m.w3 && WordFor(s, c) == s.w3;
    SingleWordSubset(m.w3, BitOf(c));
    assert s.w1 == WordFor(s, 0) && s.w2 == WordFor(s, 64) && s.w4 == WordFor(s, 192);
    ZeroWordSubset(m.w1);
    ZeroWordSubset(m.w2);
    ZeroWordSubset(m.w4);
  }

  lemma {:induction false} HasSingle4(m: WideMask, c: bv8)
    requires 192 <= c
    ensures Has(m, Single(c)) <==> Contains(m, c)
  {
    var s := Single(c);
    assert WordFor(m, c) == m.w4 && WordFor(s, c) == s.w4;
    SingleWordSubset(m.w4, BitOf(c));
    assert s.w1 == WordFor(s, 0) && s.w2 == WordFor(s, 64) && s.w3 == WordFor(s, 128);
    ZeroWordSubset(m.w1);
    ZeroWordSubset(m.w2);
    ZeroWordSubset(m.w3);
  }

  /** When `Has(other)` holds, every component of `other` is in `m`. */
  lemma {:induction false} HasContains(m: WideMask, other: WideMask, d: bv8)
    requires Has(m, other) && Contains(other, d)
    ensures Contains(m, d)
  {
    HasWordFor(m, other, d);
    assert BitOf(d) in Bits(WordFor(other, d));
  }

  lemma HasWordFor(m: WideMask, other: WideMask, d: bv8)
    requires Has(m, other)
    ensures Bits(WordFor(other, d)) <= Bits(WordFor(m, d))
  {}

  lemma OrWordSubset(a: bv64, b: bv64)
    ensures SubsetWord(a, OrWord(a, b)) && SubsetWord(b, OrWord(a, b))
  {}

  /** After `Set(other)` the mask has both `other` and everything it had. */
  lemma {:induction false} SetHas(m: WideMask, other: WideMask)
    ensures Has(Set(m, other), other) && Has(Set(m, other), m)
  {
    OrWordSubset(m.w1, other.w1);
    OrWordSubset(m.w2, other.w2);
    OrWordSubset(m.w3, other.w3);
    OrWordSubset(m.w4, other.w4);
  }

  /** After `Set(comp)`, `Has(comp)` holds and no other component changed. */
  lemma {:induction false} SetComponentSpec(m: WideMask, c: bv8)
    ensures Has(Set(m, Single(c)), Single(c))
    ensures forall d: bv8 :: d != c ==> (Contains(Set(m, Single(c)), d) <==> Contains(m, d))
  {
    SetHas(m, Single(c));
    forall d: bv8 | d != c ensures Contains(Set(m, Single(c)), d) <==> Contains(m, d) {
      SetContains(m, Single(c), d);
    }
  }

  lemma {:induction false} UnsetNotHasOwn(m: WideMask, c: bv8)
    ensures !Has(Unset(m, Single(c)), Single(c))
  {
    UnsetContains(m, Single(c), c);
    HasSingleIff(Unset(m, Single(c)), c);
  }

  /** After `Unset(comp)`, `Has(comp)` is false and no other component changed. */
  lemma {:induction false} UnsetComponentSpec(m: WideMask, c: bv8)
    ensures !Has(Unset(m, Single(c)), Single(c))
    ensures forall d: bv8 :: d != c ==> (Contains(Unset(m, Single(c)), d) <==> Contains(m, d))
  {
    UnsetNotHasOwn(m, c);
    forall d: bv8 | d != c ensures Contains(Unset(m, Single(c)), d) <==> Contains(m, d) {
      UnsetContains(m, Single(c), d);
    }
  }

  /** The struct as the C# code mutates it in place; `Value()` is its current value. */
  class ComponentMask {
    var val1: bv64
    var val2: bv64
    var val3: bv64
    var val4: bv64

    function Value(): WideMask
      reads this
    {
      WideMask(val1, val2, val3, val4)
    }

    constructor(comp: bv8)
      ensures Value() == Single(comp)
    {
      var m := Single(comp);
      val1, val2, val3, val4 := m.w1, m.w2, m.w3, m.w4;
    }

    method SetMask(other: WideMask)
      modifies this
      ensures Value() == Set(old(Value()), other)
    {
      val1 := OrWord(val1, other.w1);
      val2 := OrWord(val2, other.w2);
      val3 := OrWord(val3, other.w3);
      val4 := OrWord(val4, other.w4);
    }

    method SetComponent(comp: bv8)
      modifies this
      ensures Value() == Set(old(Value()), Single(comp))
      ensures HasComponent(comp)
    {
      SetHas(Value(), Single(comp));
      SetMask(Single(comp));
    }

    method UnsetMask(other: WideMask)
      modifies this
      ensures Value() == Unset(old(Value()), other)
    {
      val1 := AndNotWord(val1, other.w1);
      val2 := AndNotWord(val2, other.w2);
      val3 := AndNotWord(val3, other.w3);
      val4 := AndNotWord(val4, other.w4);
    }

    method UnsetComponent(comp: bv8)
      modifies this
      ensures Value() == Unset(old(Value()), Single(comp))
      ensures !HasComponent(comp)
    {
      UnsetNotHasOwn(Value(), comp);
      UnsetMask(Single(comp));
    }

    function HasMask(other: WideMask): bool
      reads this
    {
      Has(Value(), other)
    }

    function HasComponent(comp: bv8): (r: bool)
      reads this
      ensures r <==> Contains(Value(), comp)
    {
      HasSingleIff(Value(), comp);
      HasMask(Single(comp))
    }

    method Clear()
      modifies this
      ensures Value() == Cleared(old(Value()))
    {
      val1, val2, val3, val4 := 0, 0, 0, 0;
    }
  }
}
