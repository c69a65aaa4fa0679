/** The 64-bit word behind TagMask and the storage ComponentMask, read as the
    set of bit positions it holds. */
module BitMask64 {

  /** A bit position in a 64-bit word. */
  type Position = p: bv64 | p < 64

  /** Bit `i` of `v` is set. */
  predicate HasBit(v: bv64, i: Position) {
    (v >> i) & 1 == 1
  }

  /** The positions of the set bits of `v`. */
  ghost function Bits(v: bv64): iset<Position> {
    iset i: Position | HasBit(v, i)
  }

  /** Every position from 0 to 63. */
  ghost function AllPositions(): iset<Position> {
    iset i: Position | HasBit(0xFFFF_FFFF_FFFF_FFFF, i)
  }

  /** The position that `1L << t` sets for a byte `t`: C# takes a long's shift
      count modulo 64, so this is `t % 64`. */
  function ShiftPosition(t: bv8): Position {
    (t as bv64) & 63
  }

  lemma BitAnd(a: bv64, b: bv64, i: Position)
    ensures HasBit(a & b, i) == (HasBit(a, i) && HasBit(b, i))
  {}

  lemma BitOr(a: bv64, b: bv64, i: Position)
    ensures HasBit(a | b, i) == (HasBit(a, i) || HasBit(b, i))
  {}

  lemma BitAndNot(a: bv64, b: bv64, i: Position)
    ensures HasBit(a & !b, i) == (HasBit(a, i) && !HasBit(b, i))
  {}

  lemma BitNot(a: bv64, i: Position)
    ensures HasBit(!a, i) == !HasBit(a, i)
  {}

  lemma BitSingle(p: Position, i: Position)
    ensures HasBit(1 << p, i) == (i == p)
  {}

  lemma BitsAnd(a: bv64, b: bv64)
    ensures Bits(a & b) == Bits(a) * Bits(b)
  {
    forall i: Position ensures (i in Bits(a & b)) == (i in Bits(a) * Bits(b)) { BitAnd(a, b, i); }
  }

  lemma BitsOr(a: bv64, b: bv64)
    ensures Bits(a | b) == Bits(a) + Bits(b)
  {
    var c := a | b;
    forall i: Position ensures (i in Bits(c)) == (i in Bits(a) + Bits(b)) { BitOr(a, b, i); }
  }

  lemma BitsAndNot(a: bv64, b: bv64)
    ensures Bits(a & !b) == Bits(a) - Bits(b)
  {
    forall i: Position ensures (i in Bits(a & !b)) == (i in Bits(a) - Bits(b)) { BitAndNot(a, b, i); }
  }

  lemma BitsNot(a: bv64)
    ensures Bits(!a) == AllPositions() - Bits(a)
  {
    forall i: Position ensures (i in Bits(!a)) == (i in AllPositions() - Bits(a)) {
      BitNot(a, i);
      BitNot(0, i);
    }
  }

  lemma BitsZero()
    ensures Bits(0) == iset{}
  {
    forall i: Position ensures i !in Bits(0) { BitAnd(0, 0, i); }
  }

  lemma BitsSingle(p: Position)
    ensures Bits(1 << p) == iset{p}
  {
    var single := 1 << p;
    forall i: Position ensures (i in Bits(single)) == (i in iset{p}) { BitSingle(p, i); }
  }

  /** A word with none of its 64 bits set is zero, checked position by position. */
  lemma NoBitsAtAll(x: bv64)
    requires !HasBit(x, 0) && !HasBit(x, 1) && !HasBit(x, 2) && !HasBit(x, 3) && !HasBit(x, 4) && !HasBit(x, 5) && !HasBit(x, 6) && !HasBit(x, 7) &&
             !HasBit(x, 8) && !HasBit(x, 9) && !HasBit(x, 10) && !HasBit(x, 11) && !HasBit(x, 12) && !HasBit(x, 13) && !HasBit(x, 14) && !HasBit(x, 15) &&
             !HasBit(x, 16) && !HasBit(x, 17) && !HasBit(x, 18) && !HasBit(x, 19) && !HasBit(x, 20) && !HasBit(x, 21) && !HasBit(x, 22) && !HasBit(x, 23) &&
             !HasBit(x, 24) && !HasBit(x, 25) && !HasBit(x, 26) && !HasBit(x, 27) && !HasBit(x, 28) && !HasBit(x, 29) && !HasBit(x, 30) && !HasBit(x, 31) &&
             !HasBit(x, 32) && !HasBit(x, 33) && !HasBit(x, 34) && !HasBit(x, 35) && !HasBit(x, 36) && !HasBit(x, 37) && !HasBit(x, 38) && !HasBit(x, 39) &&
             !HasBit(x, 40) && !HasBit(x, 41) && !HasBit(x, 42) && !HasBit(x, 43) && !HasBit(x, 44) && !HasBit(x, 45) && !HasBit(x, 46) && !HasBit(x, 47) &&
             !HasBit(x, 48) && !HasBit(x, 49) && !HasBit(x, 50) && !HasBit(x, 51) && !HasBit(x, 52) && !HasBit(x, 53) && !HasBit(x, 54) && !HasBit(x, 55) &&
             !HasBit(x, 56) && !HasBit(x, 57) && !HasBit(x, 58) && !HasBit(x, 59) && !HasBit(x, 60) && !HasBit(x, 61) && !HasBit(x, 62) && !HasBit(x, 63)
    ensures x == 0
  {}

  lemma {:induction false} NoBitsIsZero(x: bv64)
    requires forall i: Position :: !HasBit(x, i)
    ensures x == 0
  {
    NoBitsAtAll(x);
  }

  lemma XorBit(a: bv64, b: bv64, i: Position)
    ensures HasBit(a ^ b, i) == (HasBit(a, i) != HasBit(b, i))
  {}

  /** The set view is faithful: two words with the same set bits are equal. */
  lemma {:induction false} BitsInjective(a: bv64, b: bv64)
    requires Bits(a) == Bits(b)
    ensures a == b
  {
    var x := a ^ b;
    forall i: Position ensures !HasBit(x, i) {
      XorBit(a, b, i);
      assert (i in Bits(a)) == (i in Bits(b));
    }
    NoBitsIsZero(x);
  }

  /** `a & b == a` is the subset test on the set views. */
  lemma SubsetIff(a: bv64, b: bv64)
    ensures (a & b == a) <==> Bits(a) <= Bits(b)
  {
    BitsAnd(a, b);
    if Bits(a) <= Bits(b) {
      BitsInjective(a & b, a);
    }
  }

  /** `a & b == 0` is the disjointness test on the set views. */
  lemma DisjointIff(a: bv64, b: bv64)
    ensures (a & b == 0) <==> Bits(a) * Bits(b) == iset{}
  {
    BitsAnd(a, b);
    BitsZero();
    if Bits(a) * Bits(b) == iset{} {
      BitsInjective(a & b, 0);
    }
  }

  /** Zero is the only word with no set bits. */
  lemma ZeroIff(a: bv64)
    ensures a == 0 <==> Bits(a) == iset{}
  {
    BitsZero();
    if Bits(a) == iset{} {
      BitsInjective(a, 0);
    }
  }
}
